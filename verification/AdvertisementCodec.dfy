// internal/negotiationv2/tlv.go: an advertisement as the twelve mandatory values of
// a HELLO or CHALLENGE.
module AdvertisementCodec {
  import opened Words
  import opened Packing
  import opened BigEndian
  import opened Negotiation
  import HC = HandshakeCodec
  import BC = BlockCodec
  import O = Octets

  const VALUES := 12
  const LENGTHS: seq<nat> := [1, 16, 2, 2, 2, 2, 8, 20, 8, 28, 8, 4]

  // ---------------------------------------------------------------------------
  // Fields

  function Put16(x: U16): (b: Bytes)
    ensures |b| == 2
  {
    Put(x, 2)
  }

  function Put32(x: U32): (b: Bytes)
    ensures |b| == 4
  {
    Put(x, 4)
  }

  function Read16(b: Bytes): U16
    requires |b| >= 2
  {
    Fixed16(0, b[..2]);
    Get(b[..2])
  }

  function Read32(b: Bytes): U32
    requires |b| >= 4
  {
    Fixed32(0, b[..4]);
    Get(b[..4])
  }

  function Cap(c: Caps): (b: Bytes)
    ensures |b| == 8
  {
    O.Split(c)
  }

  function CapOf(b: Bytes): Caps
    requires |b| == 8
  {
    O.Join(b)
  }

  function ReadCap(b: Bytes): Caps
    requires |b| >= 8
  {
    CapOf(b[..8])
  }

  lemma CapBack(c: Caps)
    ensures CapOf(Cap(c)) == c
  {
    hide O.Split, O.Join;
    O.JoinSplit(c);
  }

  // Reading takes the field off the front of what was written.
  lemma Reads16(x: U16, rest: Bytes)
    ensures Read16(Put16(x) + rest) == x && (Put16(x) + rest)[2..] == rest
  {
    hide Put, Get;
    Fixed16(x, []);
    assert (Put16(x) + rest)[..2] == Put16(x);
  }

  lemma Reads32(x: U32, rest: Bytes)
    ensures Read32(Put32(x) + rest) == x && (Put32(x) + rest)[4..] == rest
  {
    hide Put, Get;
    Fixed32(x, []);
    assert (Put32(x) + rest)[..4] == Put32(x);
  }

  lemma ReadsCap(c: Caps, rest: Bytes)
    ensures ReadCap(Cap(c) + rest) == c && (Cap(c) + rest)[8..] == rest
  {
    hide Cap, CapOf;
    CapBack(c);
    assert (Cap(c) + rest)[..8] == Cap(c);
  }

  // Lists of fields of one width.
  function Puts16(xs: seq<U16>): (b: Bytes)
    ensures |b| == 2 * |xs|
  {
    if xs == [] then [] else Put16(xs[0]) + Puts16(xs[1..])
  }

  function Puts32(xs: seq<U32>): (b: Bytes)
    ensures |b| == 4 * |xs|
  {
    if xs == [] then [] else Put32(xs[0]) + Puts32(xs[1..])
  }

  lemma {:induction false} ReadsAll16(xs: seq<U16>, rest: Bytes, i: nat)
    requires i < |xs|
    ensures Read16((Puts16(xs) + rest)[2 * i..]) == xs[i]
  {
    hide Put16, Read16;
    assert Puts16(xs) + rest == Put16(xs[0]) + (Puts16(xs[1..]) + rest);
    Reads16(xs[0], Puts16(xs[1..]) + rest);
    if i > 0 {
      ReadsAll16(xs[1..], rest, i - 1);
      assert (Puts16(xs) + rest)[2 * i..] == (Puts16(xs[1..]) + rest)[2 * (i - 1)..];
    } else {
      assert (Puts16(xs) + rest)[0..] == Puts16(xs) + rest;
    }
  }

  lemma {:induction false} ReadsAll32(xs: seq<U32>, rest: Bytes, i: nat)
    requires i < |xs|
    ensures Read32((Puts32(xs) + rest)[4 * i..]) == xs[i]
  {
    hide Put32, Read32;
    assert Puts32(xs) + rest == Put32(xs[0]) + (Puts32(xs[1..]) + rest);
    Reads32(xs[0], Puts32(xs[1..]) + rest);
    if i > 0 {
      ReadsAll32(xs[1..], rest, i - 1);
      assert (Puts32(xs) + rest)[4 * i..] == (Puts32(xs[1..]) + rest)[4 * (i - 1)..];
    } else {
      assert (Puts32(xs) + rest)[0..] == Puts32(xs) + rest;
    }
  }

  // ---------------------------------------------------------------------------
  // The values

  function CapsValue(p: Profile): (b: Bytes)
    ensures |b| == 16
  {
    Cap(p.offered) + Cap(p.required)
  }

  function PayloadValue(l: PayloadLimits): (b: Bytes)
    ensures |b| == 8
  {
    Puts16([l.sendHardCap, l.receiveHardCap, l.bootstrapBytes, l.innerKCPBytes])
  }

  function ReadPayload(b: Bytes): PayloadLimits
    requires |b| == 8
  {
    PayloadLimits(Read16(b), Read16(b[2..]), Read16(b[4..]), Read16(b[6..]))
  }

  function DatagramValue(d: DatagramLimits): (b: Bytes)
    ensures |b| == 20
  {
    Puts32([d.datagramWindow, d.groupWindow, d.maxDatagramBytes]) + Put16(d.maxFragments) + Put16(d.maxDescriptors)
    + Put32(d.maxDatagramAssemblies)
  }

  function ReadDatagram(b: Bytes): DatagramLimits
    requires |b| == 20
  {
    DatagramLimits(Read32(b), Read32(b[4..]), Read32(b[8..]), Read16(b[12..]), Read16(b[14..]), Read32(b[16..]))
  }

  // The last two bytes are reserved.
  function RepairValue(r: RepairLimits): (b: Bytes)
    ensures |b| == 8
  {
    Put32(r.maxAgeMS) + Put16(r.maxAttempts) + Put16(0)
  }

  function ReadRepair(b: Bytes): RepairLimits
    requires |b| == 8
  {
    RepairLimits(Read32(b), Read16(b[4..]))
  }

  function StreamValue(s: StreamLimits): (b: Bytes)
    ensures |b| == 28
  {
    Puts32([s.maxBusinessStreams, s.maxPendingAccepts, s.sessionReceiveBytes, s.streamReceiveBytes,
            s.controlReceiveReserve, s.maxPendingOpens, s.maxFrameBytes])
  }

  function ReadStream(b: Bytes): StreamLimits
    requires |b| == 28
  {
    StreamLimits(Read32(b), Read32(b[4..]), Read32(b[8..]), Read32(b[12..]), Read32(b[16..]), Read32(b[20..]), Read32(b[24..]))
  }

  function EpochValue(e: EpochLimits): (b: Bytes)
    ensures |b| == 8
  {
    Put16(e.maxOldEpochs) + Put16(e.maxMigrations) + Put32(e.graceMS)
  }

  function ReadEpoch(b: Bytes): EpochLimits
    requires |b| == 8
  {
    EpochLimits(Read16(b), Read16(b[2..]), Read32(b[4..]))
  }

  lemma Whole(b: Bytes)
    ensures b + [] == b && b[0..] == b
  {
  }

  lemma PayloadRead(l: PayloadLimits)
    ensures ReadPayload(PayloadValue(l)) == l
  {
    hide Read16, Puts16;
    var xs := [l.sendHardCap, l.receiveHardCap, l.bootstrapBytes, l.innerKCPBytes];
    Whole(Puts16(xs));
    ReadsAll16(xs, [], 0);
    ReadsAll16(xs, [], 1);
    ReadsAll16(xs, [], 2);
    ReadsAll16(xs, [], 3);
  }

  lemma DatagramRead(d: DatagramLimits)
    ensures ReadDatagram(DatagramValue(d)) == d
  {
    hide Read16, Read32, Puts32, Put16, Put32;
    var xs := [d.datagramWindow, d.groupWindow, d.maxDatagramBytes];
    var tail := Put16(d.maxFragments) + Put16(d.maxDescriptors) + Put32(d.maxDatagramAssemblies);
    var b := DatagramValue(d);
    assert b == Puts32(xs) + tail;
    Whole(b);
    ReadsAll32(xs, tail, 0);
    ReadsAll32(xs, tail, 1);
    ReadsAll32(xs, tail, 2);
    assert b[12..] == Put16(d.maxFragments) + (Put16(d.maxDescriptors) + Put32(d.maxDatagramAssemblies));
    Reads16(d.maxFragments, Put16(d.maxDescriptors) + Put32(d.maxDatagramAssemblies));
    assert b[14..] == Put16(d.maxDescriptors) + Put32(d.maxDatagramAssemblies);
    Reads16(d.maxDescriptors, Put32(d.maxDatagramAssemblies));
    assert b[16..] == Put32(d.maxDatagramAssemblies) + [];
    Reads32(d.maxDatagramAssemblies, []);
  }

  lemma RepairRead(r: RepairLimits)
    ensures ReadRepair(RepairValue(r)) == r && Read16(RepairValue(r)[6..]) == 0
  {
    hide Read16, Read32, Put16, Put32;
    var b := RepairValue(r);
    assert b == Put32(r.maxAgeMS) + (Put16(r.maxAttempts) + Put16(0));
    Reads32(r.maxAgeMS, Put16(r.maxAttempts) + Put16(0));
    assert b[4..] == Put16(r.maxAttempts) + Put16(0);
    Reads16(r.maxAttempts, Put16(0));
    assert b[6..] == Put16(0) + [];
    Reads16(0, []);
  }

  lemma StreamRead(s: StreamLimits)
    ensures ReadStream(StreamValue(s)) == s
  {
    hide Read32, Puts32;
    var xs := [s.maxBusinessStreams, s.maxPendingAccepts, s.sessionReceiveBytes, s.streamReceiveBytes,
               s.controlReceiveReserve, s.maxPendingOpens, s.maxFrameBytes];
    Whole(Puts32(xs));
    ReadsAll32(xs, [], 0);
    ReadsAll32(xs, [], 1);
    ReadsAll32(xs, [], 2);
    ReadsAll32(xs, [], 3);
    ReadsAll32(xs, [], 4);
    ReadsAll32(xs, [], 5);
    ReadsAll32(xs, [], 6);
  }

  lemma EpochRead(e: EpochLimits)
    ensures ReadEpoch(EpochValue(e)) == e
  {
    hide Read16, Read32, Put16, Put32;
    var b := EpochValue(e);
    assert b == Put16(e.maxOldEpochs) + (Put16(e.maxMigrations) + Put32(e.graceMS));
    Reads16(e.maxOldEpochs, Put16(e.maxMigrations) + Put32(e.graceMS));
    assert b[2..] == Put16(e.maxMigrations) + Put32(e.graceMS);
    Reads16(e.maxMigrations, Put32(e.graceMS));
    assert b[4..] == Put32(e.graceMS) + [];
    Reads32(e.graceMS, []);
  }

  // Writing what was read gives the same bytes.
  lemma Writes16(b: Bytes)
    requires |b| >= 2
    ensures Put16(Read16(b)) == b[..2]
  {
    Fixed16(0, b[..2]);
  }

  lemma Writes32(b: Bytes)
    requires |b| >= 4
    ensures Put32(Read32(b)) == b[..4]
  {
    Fixed32(0, b[..4]);
  }

  lemma {:induction false} WritesAll16(b: Bytes, xs: seq<U16>)
    requires |b| == 2 * |xs| && forall i :: 0 <= i < |xs| ==> xs[i] == Read16(b[2 * i..])
    ensures Puts16(xs) == b
  {
    hide Put16, Read16;
    if xs != [] {
      Writes16(b[0..]);
      assert b[0..] == b;
      forall i | 0 <= i < |xs| - 1
        ensures xs[1..][i] == Read16(b[2..][2 * i..])
      {
        assert b[2..][2 * i..] == b[2 * (i + 1)..];
      }
      WritesAll16(b[2..], xs[1..]);
    }
  }

  lemma {:induction false} WritesAll32(b: Bytes, xs: seq<U32>)
    requires |b| == 4 * |xs| && forall i :: 0 <= i < |xs| ==> xs[i] == Read32(b[4 * i..])
    ensures Puts32(xs) == b
  {
    hide Put32, Read32;
    if xs != [] {
      Writes32(b[0..]);
      assert b[0..] == b;
      forall i | 0 <= i < |xs| - 1
        ensures xs[1..][i] == Read32(b[4..][4 * i..])
      {
        assert b[4..][4 * i..] == b[4 * (i + 1)..];
      }
      WritesAll32(b[4..], xs[1..]);
    }
  }

  lemma PayloadWritten(b: Bytes)
    requires |b| == 8
    ensures PayloadValue(ReadPayload(b)) == b
  {
    hide Puts16, Read16;
    assert b[0..] == b;
    WritesAll16(b, [Read16(b), Read16(b[2..]), Read16(b[4..]), Read16(b[6..])]);
  }

  lemma DatagramWritten(b: Bytes)
    requires |b| == 20
    ensures DatagramValue(ReadDatagram(b)) == b
  {
    hide Puts32, Read32, Put32, Read16, Put16;
    var c := b[..12];
    assert c[0..] == c;
    Prefixes32(b, c);
    WritesAll32(c, [Read32(b), Read32(b[4..]), Read32(b[8..])]);
    Writes16(b[12..]);
    Writes16(b[14..]);
    Writes32(b[16..]);
    assert b == b[..12] + b[12..][..2] + b[14..][..2] + b[16..][..4];
  }

  lemma Prefixes32(b: Bytes, c: Bytes)
    requires |b| == 20 && c == b[..12]
    ensures Read32(b) == Read32(c) && Read32(b[4..]) == Read32(c[4..]) && Read32(b[8..]) == Read32(c[8..])
  {
    assert b[..4] == c[..4] && b[4..][..4] == c[4..][..4] && b[8..][..4] == c[8..][..4];
  }

  lemma RepairWritten(b: Bytes)
    requires |b| == 8 && Read16(b[6..]) == 0
    ensures RepairValue(ReadRepair(b)) == b
  {
    hide Read32, Put32, Read16, Put16;
    Writes32(b);
    Writes16(b[4..]);
    Writes16(b[6..]);
    assert b == b[..4] + b[4..][..2] + b[6..][..2];
  }

  lemma StreamWritten(b: Bytes)
    requires |b| == 28
    ensures StreamValue(ReadStream(b)) == b
  {
    hide Puts32, Read32;
    assert b[0..] == b;
    WritesAll32(b, [Read32(b), Read32(b[4..]), Read32(b[8..]), Read32(b[12..]), Read32(b[16..]), Read32(b[20..]), Read32(b[24..])]);
  }

  lemma EpochWritten(b: Bytes)
    requires |b| == 8
    ensures EpochValue(ReadEpoch(b)) == b
  {
    hide Read32, Put32, Read16, Put16;
    Writes16(b);
    Writes16(b[2..]);
    Writes32(b[4..]);
    assert b == b[..2] + b[2..][..2] + b[4..][..4];
  }

  // ---------------------------------------------------------------------------
  // Advertisements

  function Values(a: Advertisement): (vs: seq<Bytes>)
    ensures |vs| == VALUES && Lengths(vs)
  {
    var p := a.profile;
    [[p.protocol], CapsValue(p), Put16(p.layoutID), [p.dataShards, p.parityShards], Put16(p.mux), [p.discovery, p.scope],
     PayloadValue(p.payload), DatagramValue(p.datagram), RepairValue(p.repair), StreamValue(p.streams),
     EpochValue(p.epochs), Put16(p.maxPaths) + Put16(a.path)]
  }

  predicate Lengths(vs: seq<Bytes>) {
    |vs| == VALUES && forall i :: 0 <= i < VALUES ==> |vs[i]| == LENGTHS[i]
  }

  function ReadValues(vs: seq<Bytes>): Advertisement
    requires Lengths(vs)
  {
    Advertisement(
      Profile(vs[0][0], ReadCap(vs[1]), ReadCap(vs[1][8..]), Read16(vs[2]), vs[3][0], vs[3][1], Read16(vs[4]), vs[5][0], vs[5][1],
              ReadPayload(vs[6]), ReadDatagram(vs[7]), ReadRepair(vs[8]), ReadStream(vs[9]), ReadEpoch(vs[10]), Read16(vs[11])),
      Read16(vs[11][2..]))
  }

  /** Every field of an advertisement is read back from where it was written. */
  lemma ValuesRead(a: Advertisement)
    ensures ReadValues(Values(a)) == a && Read16(Values(a)[8][6..]) == 0
  {
    hide Read16, Put16, ReadCap, Cap, ReadPayload, ReadDatagram, ReadRepair, ReadStream, ReadEpoch, PayloadValue,
      DatagramValue, RepairValue, StreamValue, EpochValue;
    var p := a.profile;
    ReadsCap(p.offered, Cap(p.required));
    CapAlone(p.required);
    U16Alone(p.layoutID);
    U16Alone(p.mux);
    Reads16(p.maxPaths, Put16(a.path));
    U16Alone(a.path);
    PayloadRead(p.payload);
    DatagramRead(p.datagram);
    RepairRead(p.repair);
    StreamRead(p.streams);
    EpochRead(p.epochs);
  }

  /** Values of the right lengths are those of the advertisement read from them. */
  lemma ValuesWritten(vs: seq<Bytes>)
    requires Lengths(vs) && Read16(vs[8][6..]) == 0
    ensures Values(ReadValues(vs)) == vs
  {
    hide Read16, Put16, ReadCap, Cap, ReadPayload, ReadDatagram, ReadRepair, ReadStream, ReadEpoch, PayloadValue,
      DatagramValue, RepairValue, StreamValue, EpochValue;
    CapsWritten(vs[1]);
    Writes16(vs[2]);
    Writes16(vs[4]);
    Writes16(vs[11]);
    Writes16(vs[11][2..]);
    PayloadWritten(vs[6]);
    DatagramWritten(vs[7]);
    RepairWritten(vs[8]);
    StreamWritten(vs[9]);
    EpochWritten(vs[10]);
    assert vs[0] == [vs[0][0]] && vs[3] == [vs[3][0], vs[3][1]] && vs[5] == [vs[5][0], vs[5][1]];
    assert vs[2][..2] == vs[2] && vs[4][..2] == vs[4] && vs[11] == vs[11][..2] + vs[11][2..][..2];
  }

  lemma CapsWritten(b: Bytes)
    requires |b| == 16
    ensures Cap(ReadCap(b)) + Cap(ReadCap(b[8..])) == b
  {
    hide O.Split, O.Join;
    O.SplitJoin(b[..8]);
    O.SplitJoin(b[8..][..8]);
    assert b == b[..8] + b[8..][..8];
  }

  lemma CapAlone(c: Caps)
    ensures ReadCap(Cap(c)) == c
  {
    hide Cap, CapOf;
    ReadsCap(c, []);
    Whole(Cap(c));
  }

  lemma U16Alone(x: U16)
    ensures Read16(Put16(x)) == x
  {
    hide Put16, Read16;
    Reads16(x, []);
    Whole(Put16(x));
  }

  // TLVs of a valid advertisement.
  function Tlvs(a: Advertisement): (ts: seq<HC.Tlv>)
    ensures |ts| == VALUES
    ensures forall i :: 0 <= i < VALUES ==> ts[i] == HC.Tlv(HC.TLV_PROTOCOL + i, Values(a)[i]) && |ts[i].value| == LENGTHS[i]
  {
    seq(VALUES, i requires 0 <= i < VALUES => HC.Tlv(HC.TLV_PROTOCOL + i, Values(a)[i]))
  }

  // The mandatory values of ts are those of a; other values are optional extensions.
  predicate Carries(ts: seq<HC.Tlv>, a: Advertisement) {
    && (forall i :: 0 <= i < VALUES ==> Tlvs(a)[i] in ts)
    && forall j :: 0 <= j < |ts| ==>
        if HC.TLV_PROTOCOL <= ts[j].kind <= HC.TLV_PATHS then ts[j] in Tlvs(a) else ts[j].kind < 0x8000
  }

  // Kinds ascend, there are at most sixteen, and they fit a handshake packet.
  predicate Shaped(ts: seq<HC.Tlv>) {
    && VALUES <= |ts| <= HC.MAX_TLVS && |HC.TlvsBytes(ts)| <= HC.MAX_TLV_BYTES
    && forall i :: 0 < i < |ts| ==> ts[i - 1].kind < ts[i].kind
  }

  // ---------------------------------------------------------------------------
  // Decoding

  predicate IsMandatory(t: HC.Tlv) {
    HC.TLV_PROTOCOL <= t.kind <= HC.TLV_PATHS
  }

  // The values collected from the first n TLVs, whose kinds ascend up to `last`.
  ghost predicate Collected(ts: seq<HC.Tlv>, n: nat, vs: seq<BC.Option<Bytes>>)
    requires n <= |ts|
  {
    && |vs| == VALUES && Sourced(ts, n, vs)
    && (forall j :: 0 <= j < n && IsMandatory(ts[j]) ==> vs[ts[j].kind - HC.TLV_PROTOCOL] == BC.Some(ts[j].value))
    && (forall j :: 0 < j < n ==> ts[j - 1].kind < ts[j].kind)
    && (forall j :: 0 <= j < n && !IsMandatory(ts[j]) ==> ts[j].kind < 0x8000)
  }

  lemma {:induction false} Ascending(ts: seq<HC.Tlv>, i: nat, j: nat)
    requires i < j < |ts| && forall k :: 0 < k <= j ==> ts[k - 1].kind < ts[k].kind
    ensures ts[i].kind < ts[j].kind
  {
    if i < j - 1 {
      Ascending(ts, i, j - 1);
    }
  }

  lemma Below(ts: seq<HC.Tlv>, n: nat)
    requires n < |ts| && (forall j :: 0 < j < n ==> ts[j - 1].kind < ts[j].kind) && (n > 0 ==> ts[n - 1].kind < ts[n].kind)
    ensures forall j :: 0 <= j < n ==> ts[j].kind < ts[n].kind
  {
    forall j | 0 <= j < n
      ensures ts[j].kind < ts[n].kind
    {
      Ascending(ts, j, n);
    }
  }

  lemma CollectOptional(ts: seq<HC.Tlv>, n: nat, vs: seq<BC.Option<Bytes>>)
    requires n < |ts| && Collected(ts, n, vs) && (n > 0 ==> ts[n - 1].kind < ts[n].kind)
    requires !IsMandatory(ts[n]) && ts[n].kind < 0x8000
    ensures Collected(ts, n + 1, vs)
  {
    assert ts[..n + 1] == ts[..n] + [ts[n]];
  }

  // The values come from the TLVs and have their lengths.
  ghost predicate Sourced(ts: seq<HC.Tlv>, n: nat, vs: seq<BC.Option<Bytes>>)
    requires n <= |ts| && |vs| == VALUES
  {
    forall k :: 0 <= k < VALUES && vs[k].Some? ==>
      HC.Tlv(HC.TLV_PROTOCOL + k, vs[k].value) in ts[..n] && |vs[k].value| == LENGTHS[k]
  }

  lemma ValueSourced(ts: seq<HC.Tlv>, n: nat, vs: seq<BC.Option<Bytes>>)
    requires n < |ts| && |vs| == VALUES && Sourced(ts, n, vs)
    requires IsMandatory(ts[n]) && |ts[n].value| == LENGTHS[ts[n].kind - HC.TLV_PROTOCOL]
    ensures Sourced(ts, n + 1, vs[ts[n].kind - HC.TLV_PROTOCOL := BC.Some(ts[n].value)])
  {
    var more := vs[ts[n].kind - HC.TLV_PROTOCOL := BC.Some(ts[n].value)];
    assert ts[..n + 1] == ts[..n] + [ts[n]];
    assert ts[n] in ts[..n + 1] && ts[n] == HC.Tlv(ts[n].kind, ts[n].value);
    forall k | 0 <= k < VALUES && more[k].Some?
      ensures HC.Tlv(HC.TLV_PROTOCOL + k, more[k].value) in ts[..n + 1] && |more[k].value| == LENGTHS[k]
    {
      assert k == ts[n].kind - HC.TLV_PROTOCOL || more[k] == vs[k];
    }
  }

  lemma CollectValue(ts: seq<HC.Tlv>, n: nat, vs: seq<BC.Option<Bytes>>)
    requires n < |ts| && Collected(ts, n, vs) && (n > 0 ==> ts[n - 1].kind < ts[n].kind)
    requires IsMandatory(ts[n]) && |ts[n].value| == LENGTHS[ts[n].kind - HC.TLV_PROTOCOL]
    ensures Collected(ts, n + 1, vs[ts[n].kind - HC.TLV_PROTOCOL := BC.Some(ts[n].value)])
  {
    hide Sourced;
    Below(ts, n);
    ValueSourced(ts, n, vs);
  }

  // What an advertisement in the TLVs says of each of them.
  lemma CarriedAre(ts: seq<HC.Tlv>, a: Advertisement, j: nat)
    requires Carries(ts, a) && j < |ts|
    ensures !IsMandatory(ts[j]) ==> ts[j].kind < 0x8000
    ensures IsMandatory(ts[j]) ==> |ts[j].value| == LENGTHS[ts[j].kind - HC.TLV_PROTOCOL]
  {
    hide Values, Tlvs;
  }

  lemma CarriedCollect(ts: seq<HC.Tlv>, a: Advertisement, vs: seq<BC.Option<Bytes>>)
    requires Carries(ts, a) && Collected(ts, |ts|, vs)
    ensures forall k :: 0 <= k < VALUES ==> vs[k] == BC.Some(Values(a)[k])
  {
    hide Values, Tlvs;
    forall k | 0 <= k < VALUES
      ensures vs[k] == BC.Some(Values(a)[k])
    {
      CollectedAt(ts, vs, Tlvs(a)[k]);
    }
  }

  lemma CollectedAt(ts: seq<HC.Tlv>, vs: seq<BC.Option<Bytes>>, t: HC.Tlv)
    requires Collected(ts, |ts|, vs) && t in ts && IsMandatory(t)
    ensures vs[t.kind - HC.TLV_PROTOCOL] == BC.Some(t.value)
  {
    var j :| 0 <= j < |ts| && ts[j] == t;
  }

  // All that was collected are the values of a.
  lemma CollectedCarry(ts: seq<HC.Tlv>, a: Advertisement, vs: seq<BC.Option<Bytes>>)
    requires Collected(ts, |ts|, vs) && forall k :: 0 <= k < VALUES ==> vs[k] == BC.Some(Values(a)[k])
    ensures Carries(ts, a)
  {
    hide Values;
    assert ts[..|ts|] == ts;
    forall j | 0 <= j < |ts| && IsMandatory(ts[j])
      ensures ts[j] in Tlvs(a)
    {
      assert Tlvs(a)[ts[j].kind - HC.TLV_PROTOCOL] == ts[j];
    }
  }

  /** decodeAdvertisement inverts TLVs both ways, whatever optional extensions come
      along: it returns exactly the valid advertisement whose mandatory values these
      are, and nothing when there is none. */
  method Decode(ts: seq<HC.Tlv>) returns (r: BC.Option<Advertisement>)
    ensures r.Some? ==> ValidateAdvertisement(r.value) == NoErr && Shaped(ts) && Carries(ts, r.value)
    ensures forall a :: ValidateAdvertisement(a) == NoErr && Shaped(ts) && Carries(ts, a) ==> r == BC.Some(a)
  {
    hide Values, ReadValues, ValidateAdvertisement, Carries, HC.TlvsBytes, Read16, Collected;
    forall a, j: nat | Carries(ts, a) && j < |ts|
      ensures !IsMandatory(ts[j]) ==> ts[j].kind < 0x8000
      ensures IsMandatory(ts[j]) ==> |ts[j].value| == LENGTHS[ts[j].kind - HC.TLV_PROTOCOL]
    {
      CarriedAre(ts, a, j);
    }
    if |ts| < VALUES || |ts| > HC.MAX_TLVS {
      return BC.None;
    }
    var vs: seq<BC.Option<Bytes>> := NO_VALUES;
    var total := 0;
    HC.NoTlvs(ts);
    NothingCollected(ts);
    for i := 0 to |ts|
      invariant |vs| == VALUES && Collected(ts, i, vs) && total == |HC.TlvsBytes(ts[..i])| <= HC.MAX_TLV_BYTES
    {
      HC.TlvAt(ts, i);
      HC.TlvsGrow(ts, i + 1);
      if i > 0 && ts[i].kind <= ts[i - 1].kind {
        return BC.None;
      }
      if |ts[i].value| > HC.MAX_TLV_BYTES - 4 || total > HC.MAX_TLV_BYTES - 4 - |ts[i].value| {
        return BC.None;
      }
      total := total + 4 + |ts[i].value|;
      if ts[i].kind < HC.TLV_PROTOCOL || ts[i].kind > HC.TLV_PATHS {
        if ts[i].kind >= 0x8000 {
          return BC.None;
        }
        CollectOptional(ts, i, vs);
      } else {
        var index := ts[i].kind - HC.TLV_PROTOCOL;
        if |ts[i].value| != LENGTHS[index] {
          return BC.None;
        }
        CollectValue(ts, i, vs);
        vs := vs[index := BC.Some(ts[i].value)];
      }
    }
    assert ts[..|ts|] == ts;
    forall a | Carries(ts, a)
      ensures forall k :: 0 <= k < VALUES ==> vs[k] == BC.Some(Values(a)[k])
    {
      CarriedCollect(ts, a, vs);
    }
    CollectedFacts(ts, vs);
    r := Assemble(vs);
    if r.Some? {
      CollectedCarry(ts, r.value, vs);
    }
  }

  lemma NothingCollected(ts: seq<HC.Tlv>)
    ensures Collected(ts, 0, NO_VALUES)
  {
  }

  lemma CollectedFacts(ts: seq<HC.Tlv>, vs: seq<BC.Option<Bytes>>)
    requires Collected(ts, |ts|, vs)
    ensures |vs| == VALUES && (forall k :: 0 <= k < VALUES && vs[k].Some? ==> |vs[k].value| == LENGTHS[k])
    ensures forall j :: 0 < j < |ts| ==> ts[j - 1].kind < ts[j].kind
  {
  }

  const NO_VALUES: seq<BC.Option<Bytes>> :=
    [BC.None, BC.None, BC.None, BC.None, BC.None, BC.None, BC.None, BC.None, BC.None, BC.None, BC.None, BC.None]

  // Every mandatory value is there: read and validate them.
  method Assemble(vs: seq<BC.Option<Bytes>>) returns (r: BC.Option<Advertisement>)
    requires |vs| == VALUES && forall k :: 0 <= k < VALUES && vs[k].Some? ==> |vs[k].value| == LENGTHS[k]
    ensures r.Some? ==> ValidateAdvertisement(r.value) == NoErr
    ensures r.Some? ==> forall k :: 0 <= k < VALUES ==> vs[k] == BC.Some(Values(r.value)[k])
    ensures forall a :: ValidateAdvertisement(a) == NoErr && (forall k :: 0 <= k < VALUES ==> vs[k] == BC.Some(Values(a)[k])) ==>
      r == BC.Some(a)
  {
    hide Values, ReadValues, ValidateAdvertisement, Read16;
    for k := 0 to VALUES
      invariant forall j :: 0 <= j < k ==> vs[j].Some?
    {
      if vs[k] == BC.None {
        return BC.None;
      }
    }
    var values := seq(VALUES, k requires 0 <= k < VALUES => vs[k].value);
    forall a | forall k :: 0 <= k < VALUES ==> vs[k] == BC.Some(Values(a)[k])
      ensures values == Values(a) && ReadValues(values) == a && Read16(values[8][6..]) == 0
    {
      assert values == Values(a);
      ValuesRead(a);
    }
    if Read16(values[8][6..]) != 0 {
      return BC.None;
    }
    var a := ReadValues(values);
    ValuesWritten(values);
    if ValidateAdvertisement(a) != NoErr {
      return BC.None;
    }
    return BC.Some(a);
  }

  // ---------------------------------------------------------------------------
  // An advertisement fits its handshake packet

  function SumLengths(n: nat): nat
    requires n <= VALUES
  {
    if n == 0 then 0 else SumLengths(n - 1) + 4 + LENGTHS[n - 1]
  }

  lemma {:induction false} TlvsSize(a: Advertisement, n: nat)
    requires n <= VALUES
    ensures |HC.TlvsBytes(Tlvs(a)[..n])| == SumLengths(n)
  {
    hide Values, Tlvs, HC.TlvsBytes;
    HC.NoTlvs(Tlvs(a));
    if n > 0 {
      TlvsSize(a, n - 1);
      HC.Extend(Tlvs(a), n - 1);
      assert |Tlvs(a)[n - 1].value| == LENGTHS[n - 1];
    }
  }

  lemma LengthsSum()
    ensures SumLengths(VALUES) == 149
  {
    assert SumLengths(3) == 31;
    assert SumLengths(6) == 49;
    assert SumLengths(9) == 97;
  }

  /** TLVs of every advertisement are twelve canonical values of 149 bytes in all, so
      they pass the handshake codec and are decoded to the same advertisement. */
  lemma AdvertisementFits(a: Advertisement, packet: Byte)
    requires packet == HC.HELLO || packet == 2
    ensures |HC.TlvsBytes(Tlvs(a))| == 149 && Shaped(Tlvs(a)) && Carries(Tlvs(a), a) && HC.TlvsOk(packet, Tlvs(a))
  {
    hide Values, HC.TlvsBytes, HC.TlvOk, Carries, Tlvs;
    TlvsSize(a, VALUES);
    LengthsSum();
    assert Tlvs(a)[..VALUES] == Tlvs(a);
    TlvsAre(a, packet);
    OwnTlvs(a);
  }

  lemma OwnTlvs(a: Advertisement)
    ensures Carries(Tlvs(a), a)
  {
    hide Values, Tlvs;
  }

  lemma TlvsAre(a: Advertisement, packet: Byte)
    requires packet == HC.HELLO || packet == 2
    ensures forall i :: 0 <= i < VALUES ==> Tlvs(a)[i].kind == HC.TLV_PROTOCOL + i && HC.TlvOk(packet, Tlvs(a)[i])
    ensures forall kind :: kind in HC.MANDATORY ==> exists i :: 0 <= i < |Tlvs(a)| && Tlvs(a)[i].kind == kind
  {
    hide Values, Read16;
    forall kind | kind in HC.MANDATORY
      ensures exists i :: 0 <= i < |Tlvs(a)| && Tlvs(a)[i].kind == kind
    {
      assert Tlvs(a)[kind - HC.TLV_PROTOCOL].kind == kind;
    }
    ReservedIsZero(a);
  }

  lemma ReservedIsZero(a: Advertisement)
    ensures Values(a)[8][6] == 0 && Values(a)[8][7] == 0
  {
    assert Put16(0) == [0, 0] by {
      assert Put(0, 0) == [] && Put(0, 1) == [0];
    }
  }
}
