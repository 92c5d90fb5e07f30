// The shards of a sealed group as FEC records: fecv2 and wirev2 agree on sizes,
// limits and padding.
module SealedShards {
  import opened Words
  import opened Packing
  import opened BigEndian
  import opened BlockCodec
  import opened GroupCodec
  import Env = Envelope
  import Wire = FecBundle

  // The context that announces a group codec's parameters.
  predicate Announces(c: Wire.Context, p: Parameters) {
    && c.Valid() && p.dataShards == c.dataShards && p.parityShards == c.parityShards && p.shardBytes == c.shardBytes
    && p.maxDescriptors == c.maxDescriptors && p.maxLogicalBytes == c.maxLogical
  }

  lemma {:induction false} SliceAt(bytes: Bytes, size: nat, n: nat, i: nat)
    requires n * size <= |bytes| && i < n
    ensures i * size + size <= n * size && Slices(bytes, size, n)[i] == bytes[i * size..i * size + size]
  {
    OneLess(size, n);
    if i > 0 {
      OneLess(size, i);
      SliceAt(bytes[size..], size, n - 1, i - 1);
      var at := (i - 1) * size;
      assert i * size == size + at && bytes[size..][at..at + size] == bytes[size + at..size + at + size];
      assert bytes[size..][(i - 1) * size..(i - 1) * size + size] == bytes[i * size..i * size + size];
    }
  }

  // The bytes of a data shard that lie beyond the logical bytes are padding.
  lemma ShardPadding(p: Parameters, fs: seq<Fragment>, i: nat, j: nat)
    requires p.Valid() && Encodable(p, fs) && i < p.dataShards
    requires Wire.Used(LogicalSize(fs), i, p.shardBytes) <= j < p.shardBytes
    ensures var s := Slices(Padding(p, fs), p.shardBytes, p.dataShards)[i]; |s| == p.shardBytes && s[j] == 0
  {
    hide Slices, Padding, Logical, LogicalSize, Encodable, Wire.Used;
    PaddingIsZero(p, fs);
    UsedBound(LogicalSize(fs), i, p.shardBytes, j);
    SliceZero(Padding(p, fs), p.shardBytes, p.dataShards, i, j);
  }

  lemma PaddingIsZero(p: Parameters, fs: seq<Fragment>)
    requires p.Valid() && Encodable(p, fs)
    ensures forall at :: LogicalSize(fs) <= at < |Padding(p, fs)| ==> at >= 0 && Padding(p, fs)[at] == 0
  {
    hide Logical, LogicalSize, Canonical;
    LogicalBytes(fs);
  }

  lemma UsedBound(logical: int, i: nat, size: nat, j: nat)
    requires Wire.Used(logical, i, size) <= j < size
    ensures i * size + j >= logical
  {
  }

  lemma SliceZero(bytes: Bytes, size: nat, n: nat, i: nat, j: nat)
    requires n * size <= |bytes| && i < n && j < size
    requires i * size + j < |bytes| ==> bytes[i * size + j] == 0
    ensures |Slices(bytes, size, n)[i]| == size && Slices(bytes, size, n)[i][j] == 0
  {
    hide Slices;
    SliceAt(bytes, size, n, i);
  }

  // r carries shard i of a group.
  ghost predicate Carries(
    r: Wire.Record, c: Wire.Context, p: Parameters, codec: Codec, fs: seq<Fragment>, i: Byte)
    requires p.Valid() && Encodable(p, fs)
  {
    && r.group != 0 && r.epoch == c.epoch && r.logical == LogicalSize(fs) && r.shard == i
    && i < |Shards(p, codec, fs)| && r.payload == Shards(p, codec, fs)[i]
  }

  lemma ShardSizes(p: Parameters, codec: Codec, fs: seq<Fragment>)
    requires p.Valid() && Encodable(p, fs) && Reliable(codec, p)
    ensures var s := Shards(p, codec, fs);
      && |s| == p.dataShards + p.parityShards && (forall i :: 0 <= i < |s| ==> |s[i]| == p.shardBytes)
      && s[..p.dataShards] == Slices(Padding(p, fs), p.shardBytes, p.dataShards)
  {
    hide Slices, Padding, Logical;
    var data := Slices(Padding(p, fs), p.shardBytes, p.dataShards);
    assert |data| == RS(p).dataShards;
  }

  /** Every shard of every sealed group is a valid record under the context that
      announces the codec's parameters. */
  lemma ShardIsValid(
    r: Wire.Record, c: Wire.Context, p: Parameters, codec: Codec, fs: seq<Fragment>, i: Byte, lookup: Wire.Lookup)
    requires p.Valid() && Encodable(p, fs) && Announces(c, p) && Reliable(codec, p)
    requires Carries(r, c, p, codec, fs, i) && lookup(c.epoch) == Some(c)
    ensures Wire.Resolves(lookup, r) && |r.payload| == p.shardBytes
  {
    hide Slices, Padding, Logical, Shards, Reliable, Canonical;
    LogicalBytes(fs);
    ShardSizes(p, codec, fs);
    if i < p.dataShards {
      assert r.payload == Shards(p, codec, fs)[..p.dataShards][i];
      forall j | Wire.Used(LogicalSize(fs), i, p.shardBytes) <= j < |r.payload|
        ensures r.payload[j] == 0
      {
        ShardPadding(p, fs, i, j);
      }
    }
  }

  /** It fits a bundle of its own exactly when the budget holds ShardBytes + 94 bytes,
      and that is the size of its packet. */
  lemma SingleRecordPacket(
    r: Wire.Record, c: Wire.Context, p: Parameters, codec: Codec, fs: seq<Fragment>, i: Byte, lookup: Wire.Lookup,
    h: Env.Header, route: Env.Route, mac: Env.Mac, limit: int)
    requires p.Valid() && Encodable(p, fs) && Announces(c, p) && Reliable(codec, p)
    requires Carries(r, c, p, codec, fs, i) && lookup(c.epoch) == Some(c)
    requires h.kind == Wire.TYPE_FEC_BUNDLE && |h.session| == 16 && h.session != Zeros(16)
    requires Env.RouteOk(h.kind, route) && Env.HANDSHAKE_PACKET_SIZE <= limit <= Env.MAX_UDP_PAYLOAD
    ensures var b := Wire.Bundle(h, route, [r]);
      && (Wire.BundleOk(b, lookup, limit) <==> p.shardBytes + 94 <= limit)
      && (p.shardBytes + 94 <= limit ==> |Wire.BundleBytes(b, mac)| == p.shardBytes + 94)
  {
    hide Slices, Padding, Logical, Shards, Reliable, Carries, Env.RouteOk, Wire.RecordsOk, Wire.Typed;
    ShardIsValid(r, c, p, codec, fs, i, lookup);
    var b := Wire.Bundle(h, route, [r]);
    OneRecord(r, lookup);
    if p.shardBytes + 94 <= limit {
      Wire.MessageSize(Wire.AsMessage(b), mac);
    }
  }

  lemma OneRecord(r: Wire.Record, lookup: Wire.Lookup)
    requires Wire.Resolves(lookup, r)
    ensures Wire.RecordsOk(lookup, [r]) && |Wire.Typed([r])| == 22 + |r.payload|
    ensures Wire.Resolve(lookup, r.epoch).Some? && |r.payload| == Wire.Resolve(lookup, r.epoch).value.shardBytes
  {
    assert [r][..0] == [];
    assert Wire.RecordsBytes([r]) == Wire.RecordsBytes([]) + Wire.RecordBytes(r);
  }
}
