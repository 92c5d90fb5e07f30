// internal/fecv2/group.go: the manifest of a logical group, its protection by
// equal shards, and the way back.
//
// A manifest is a version, a count, one descriptor for each fragment and then the
// payloads. Parsing is proved to be the exact inverse of this layout.
module GroupCodec {
  import opened Words
  import opened Packing
  import opened BigEndian
  import opened BlockCodec

  const MANIFEST_VERSION := 1

  function Descriptor(f: Fragment): (d: Bytes)
    ensures |d| == DESCRIPTOR_BYTES
  {
    Put(f.id, 8) + Put(f.total, 4) + Put(f.offset, 4) + Put(|f.payload|, 4)
  }

  function Descriptors(fs: seq<Fragment>): (d: Bytes)
    ensures |d| == DESCRIPTOR_BYTES * |fs|
  {
    if fs == [] then [] else Descriptors(fs[..|fs| - 1]) + Descriptor(fs[|fs| - 1])
  }

  function Payloads(fs: seq<Fragment>): Bytes {
    if fs == [] then [] else Payloads(fs[..|fs| - 1]) + fs[|fs| - 1].payload
  }

  // The logical bytes of a group.
  function Logical(fs: seq<Fragment>): Bytes {
    Put(MANIFEST_VERSION, 2) + Put(|fs|, 2) + Descriptors(fs) + Payloads(fs)
  }

  lemma {:induction false} LogicalBytes(fs: seq<Fragment>)
    ensures |Logical(fs)| == LogicalSize(fs) == MANIFEST_BYTES + DESCRIPTOR_BYTES * |fs| + |Payloads(fs)|
  {
    if fs != [] {
      LogicalBytes(fs[..|fs| - 1]);
    }
  }

  // ---------------------------------------------------------------------------
  // Reading

  // A descriptor as it stands in the bytes.
  datatype Header = Header(id: U64, total: U32, offset: U32, size: int)

  function ReadHeader(d: Bytes): Header
    requires |d| == DESCRIPTOR_BYTES
  {
    Fixed64(0, d[..8]);
    Fixed32(0, d[8..12]);
    Fixed32(0, d[12..16]);
    Fixed32(0, d[16..]);
    Header(Get(d[..8]), Get(d[8..12]), Get(d[12..16]), Get(d[16..]))
  }

  // Reading and writing one descriptor are inverse.
  lemma DescriptorRead(f: Fragment)
    requires |f.payload| <= MAX_U32
    ensures ReadHeader(Descriptor(f)) == Header(f.id, f.total, f.offset, |f.payload|)
  {
    var d := Descriptor(f);
    Fixed64(f.id, []);
    Fixed32(f.total, []);
    Fixed32(f.offset, []);
    Fixed32(|f.payload|, []);
    assert d[..8] == Put(f.id, 8) && d[8..12] == Put(f.total, 4);
    assert d[12..16] == Put(f.offset, 4) && d[16..] == Put(|f.payload|, 4);
  }

  lemma DescriptorWritten(d: Bytes, f: Fragment)
    requires |d| == DESCRIPTOR_BYTES && ReadHeader(d) == Header(f.id, f.total, f.offset, |f.payload|)
    ensures Descriptor(f) == d
  {
    Fixed64(0, d[..8]);
    Fixed32(0, d[8..12]);
    Fixed32(0, d[12..16]);
    Fixed32(0, d[16..]);
    assert d == d[..8] + d[8..12] + d[12..16] + d[16..];
  }

  function DescriptorAt(logical: Bytes, i: nat): Bytes
    requires MANIFEST_BYTES + DESCRIPTOR_BYTES * (i + 1) <= |logical|
  {
    logical[MANIFEST_BYTES + DESCRIPTOR_BYTES * i..MANIFEST_BYTES + DESCRIPTOR_BYTES * (i + 1)]
  }

  // The first n of `count` fragments are at the head of the group, and their
  // payloads end at dataAt.
  ghost predicate Read(logical: Bytes, count: nat, fs: seq<Fragment>, dataAt: nat) {
    && |fs| <= count && MANIFEST_BYTES + DESCRIPTOR_BYTES * count <= dataAt <= |logical|
    && (forall i :: 0 <= i < |fs| ==> Descriptor(fs[i]) == DescriptorAt(logical, i))
    && Payloads(fs) == logical[MANIFEST_BYTES + DESCRIPTOR_BYTES * count..dataAt]
  }

  lemma ReadMore(logical: Bytes, count: nat, fs: seq<Fragment>, dataAt: nat, f: Fragment)
    requires Read(logical, count, fs, dataAt) && |fs| < count && dataAt + |f.payload| <= |logical|
    requires Descriptor(f) == DescriptorAt(logical, |fs|) && f.payload == logical[dataAt..dataAt + |f.payload|]
    ensures Read(logical, count, fs + [f], dataAt + |f.payload|)
  {
    assert (fs + [f])[..|fs|] == fs;
  }

  lemma {:induction false} DescriptorsRead(logical: Bytes, fs: seq<Fragment>)
    requires MANIFEST_BYTES + DESCRIPTOR_BYTES * |fs| <= |logical|
    requires forall i :: 0 <= i < |fs| ==> Descriptor(fs[i]) == DescriptorAt(logical, i)
    ensures Descriptors(fs) == logical[MANIFEST_BYTES..MANIFEST_BYTES + DESCRIPTOR_BYTES * |fs|]
  {
    if fs != [] {
      DescriptorsRead(logical, fs[..|fs| - 1]);
    }
  }

  // A group read to its end is the group that was written.
  lemma ReadAll(logical: Bytes, fs: seq<Fragment>)
    requires Read(logical, |fs|, fs, |logical|) && |fs| < 0x1_0000
    requires logical[..2] == Put(MANIFEST_VERSION, 2) && Get(logical[2..4]) == |fs|
    ensures Logical(fs) == logical
  {
    hide Put, Get, Descriptors, Payloads;
    DescriptorsRead(logical, fs);
    Fixed16(|fs|, logical[2..4]);
    var at := MANIFEST_BYTES + DESCRIPTOR_BYTES * |fs|;
    assert logical == logical[..2] + logical[2..4] + logical[4..at] + logical[at..];
  }

  // Where the pieces of a written group stand.
  lemma {:induction false} DescriptorOf(fs: seq<Fragment>, i: nat)
    requires i < |fs|
    ensures Descriptors(fs)[DESCRIPTOR_BYTES * i..DESCRIPTOR_BYTES * (i + 1)] == Descriptor(fs[i])
  {
    if i < |fs| - 1 {
      DescriptorOf(fs[..|fs| - 1], i);
    }
  }

  lemma {:induction false} PayloadOf(fs: seq<Fragment>, i: nat)
    requires i < |fs|
    ensures |Payloads(fs[..i])| + |fs[i].payload| == |Payloads(fs[..i + 1])| <= |Payloads(fs)|
    ensures Payloads(fs)[|Payloads(fs[..i])|..|Payloads(fs[..i + 1])|] == fs[i].payload
  {
    assert fs[..i + 1][..i] == fs[..i];
    if i < |fs| - 1 {
      var head := fs[..|fs| - 1];
      PayloadOf(head, i);
      assert head[..i] == fs[..i] && head[..i + 1] == fs[..i + 1];
    } else {
      assert fs[..i + 1] == fs;
    }
  }

  lemma LogicalParts(fs: seq<Fragment>, i: nat)
    requires i < |fs| < 0x1_0000
    ensures var l, at := Logical(fs), MANIFEST_BYTES + DESCRIPTOR_BYTES * |fs| + |Payloads(fs[..i])|;
      && |l| >= MANIFEST_BYTES + DESCRIPTOR_BYTES * (i + 1) && DescriptorAt(l, i) == Descriptor(fs[i])
      && at + |fs[i].payload| <= |l| && l[at..at + |fs[i].payload|] == fs[i].payload
      && l[..2] == Put(MANIFEST_VERSION, 2) && Get(l[2..4]) == |fs|
  {
    hide Put, Get, Descriptor, LogicalSize;
    LogicalBytes(fs);
    DescriptorOf(fs, i);
    PayloadOf(fs, i);
    Fixed16(|fs|, []);
    var l, n := Logical(fs), MANIFEST_BYTES + DESCRIPTOR_BYTES * |fs|;
    assert l[2..4] == Put(|fs|, 2);
    assert l[4..n] == Descriptors(fs);
    assert DescriptorAt(l, i) == l[4..n][DESCRIPTOR_BYTES * i..DESCRIPTOR_BYTES * (i + 1)];
    assert l[n..] == Payloads(fs);
    var a, b := |Payloads(fs[..i])|, |Payloads(fs[..i + 1])|;
    assert l[n + a..n + b] == l[n..][a..b];
  }

  // ---------------------------------------------------------------------------
  // Parsing

  // A list that may be encoded, apart from its size.
  predicate IsGroup(p: Parameters, fs: seq<Fragment>) {
    1 <= |fs| <= p.maxDescriptors && Canonical(p, fs)
  }

  // Any group with these logical bytes has `count` fragments and starts with `done`.
  ghost predicate Forces(p: Parameters, logical: Bytes, count: nat, done: seq<Fragment>) {
    forall fs :: IsGroup(p, fs) && Logical(fs) == logical ==> |fs| == count && done <= fs
  }

  lemma HeaderForces(p: Parameters, logical: Bytes, fs: seq<Fragment>)
    requires p.Valid() && IsGroup(p, fs) && Logical(fs) == logical
    ensures |logical| >= MANIFEST_BYTES + DESCRIPTOR_BYTES * |fs| && Get(logical[..2]) == MANIFEST_VERSION
    ensures Get(logical[2..4]) == |fs|
  {
    hide Put, Get, Descriptors, Payloads, Descriptor;
    LogicalParts(fs, 0);
    LogicalBytes(fs);
    Fixed16(MANIFEST_VERSION, []);
  }

  // The next fragment of any such group is what its descriptor says.
  lemma NextForced(p: Parameters, logical: Bytes, done: seq<Fragment>, dataAt: nat, fs: seq<Fragment>)
    requires p.Valid() && IsGroup(p, fs) && Logical(fs) == logical && done <= fs && |done| < |fs|
    requires Read(logical, |fs|, done, dataAt)
    ensures var h, f := ReadHeader(DescriptorAt(logical, |done|)), fs[|done|];
      && h == Header(f.id, f.total, f.offset, |f.payload|) && dataAt + h.size <= |logical|
      && f.payload == logical[dataAt..dataAt + h.size] && ValidAt(p, fs, |done|)
  {
    hide Put, Get, Descriptors, Descriptor;
    LogicalParts(fs, |done|);
    assert fs[..|done|] == done;
    assert ValidAt(p, fs, |done|);
    DescriptorRead(fs[|done|]);
  }

  // No group has these logical bytes.
  ghost predicate Hopeless(p: Parameters, logical: Bytes) {
    forall fs :: IsGroup(p, fs) ==> Logical(fs) != logical
  }

  // The fragment in descriptor i, once the payload it announces and its range
  // have been checked; None stands for the errors.
  method Check(p: Parameters, logical: Bytes, count: nat, i: nat, dataAt: nat, previous: U64, ghost done: seq<Fragment>)
    returns (next: Option<Fragment>)
    requires p.Valid() && |done| == i < count && Read(logical, count, done, dataAt) && Canonical(p, done)
    requires previous == (if done == [] then 0 else done[|done| - 1].id) && Forces(p, logical, count, done)
    ensures next == None ==> Hopeless(p, logical)
    ensures next.Some? ==>
      var f := next.value;
      && dataAt + |f.payload| <= |logical| && Read(logical, count, done + [f], dataAt + |f.payload|)
      && ReadHeader(DescriptorAt(logical, |done|)).size == |f.payload|
      && Canonical(p, done + [f]) && Forces(p, logical, count, done + [f])
  {
    hide Put, Get, Descriptors, Payloads, Descriptor, Logical, Canonical, Read, Forces, ReadHeader, IsGroup;
    ReadBounds(logical, count, done, dataAt);
    var h := ReadHeader(DescriptorAt(logical, i));
    NextIsForced(p, logical, count, done, dataAt);
    if h.size > |logical| - dataAt || h.size < 0 {
      return None;
    }
    var f := Fragment(h.id, h.total, h.offset, logical[dataAt..dataAt + h.size]);
    if !f.Valid(p, previous) {
      return None;
    }
    DescriptorWritten(DescriptorAt(logical, |done|), f);
    ReadMore(logical, count, done, dataAt, f);
    CanonicalMore(p, done, f);
    ForcesNext(p, logical, count, done, f);
    return Some(f);
  }

  /** parseManifest: returns a group exactly when the bytes are those of a group, and
      then it is the one. */
  method ParseManifest(p: Parameters, logical: Bytes) returns (r: Option<seq<Fragment>>)
    requires p.Valid()
    ensures r.Some? ==> IsGroup(p, r.value) && Logical(r.value) == logical
    ensures forall fs :: IsGroup(p, fs) && Logical(fs) == logical ==> r == Some(fs)
  {
    hide Put, Get, Descriptors, Payloads, Descriptor, Logical, Canonical, Read, Forces, IsGroup;
    HeadersForce(p, logical);
    if |logical| < MANIFEST_BYTES || Get(logical[..2]) != MANIFEST_VERSION {
      return None;
    }
    var count := Get(logical[2..4]);
    var dataAt: nat := MANIFEST_BYTES + count * DESCRIPTOR_BYTES;
    if count < 1 || count > p.maxDescriptors || dataAt > |logical| {
      return None;
    }
    ghost var done;
    var ok;
    ok, dataAt, done := Scan(p, logical, count);
    if !ok {
      return None;
    }
    NothingTrails(p, logical, done, dataAt);
    if dataAt != |logical| {
      return None;
    }
    FewFragments(p, done);
    Fixed16(0, logical[..2]);
    ReadAll(logical, done);
    var fragments := Collect(p, logical, done);
    return Some(fragments);
  }

  lemma FewFragments(p: Parameters, fs: seq<Fragment>)
    requires p.Valid() && 1 <= |fs| <= p.maxDescriptors && Canonical(p, fs)
    ensures |fs| < 0x1_0000 && IsGroup(p, fs)
  {
  }

  // The first pass, over every descriptor before anything is kept.
  method Scan(p: Parameters, logical: Bytes, count: nat) returns (ok: bool, dataAt: nat, ghost done: seq<Fragment>)
    requires p.Valid() && MANIFEST_BYTES + DESCRIPTOR_BYTES * count <= |logical|
    requires forall fs :: IsGroup(p, fs) && Logical(fs) == logical ==> |fs| == count
    ensures ok ==> |done| == count && Read(logical, count, done, dataAt) && Canonical(p, done)
    ensures ok ==> Forces(p, logical, count, done)
    ensures !ok ==> Hopeless(p, logical)
  {
    hide Put, Get, Descriptors, Payloads, Descriptor, Logical, Canonical, Read, Forces, Hopeless, IsGroup;
    dataAt := MANIFEST_BYTES + count * DESCRIPTOR_BYTES;
    done := [];
    var previous: U64 := 0;
    NothingRead(p, logical, count);
    for i := 0 to count
      invariant |done| == i && Read(logical, count, done, dataAt) && Canonical(p, done)
      invariant previous == if i == 0 then 0 else done[i - 1].id
      invariant Forces(p, logical, count, done)
    {
      var next := Check(p, logical, count, i, dataAt, previous, done);
      if next == None {
        return false, dataAt, done;
      }
      done := done + [next.value];
      previous := next.value.id;
      dataAt := dataAt + |next.value.payload|;
    }
    ok := true;
  }

  // The second pass, over descriptors that were found valid.
  method Collect(p: Parameters, logical: Bytes, ghost done: seq<Fragment>) returns (fragments: seq<Fragment>)
    requires Read(logical, |done|, done, |logical|) && |logical| >= MANIFEST_BYTES && Get(logical[2..4]) == |done|
    requires |done| < 0x1_0000 && Logical(done) == logical && Canonical(p, done)
    ensures fragments == done
  {
    hide Put, Get, Descriptors, Payloads, Descriptor, Logical, ReadHeader;
    var count := Get(logical[2..4]);
    var dataAt: nat := MANIFEST_BYTES + count * DESCRIPTOR_BYTES;
    fragments := [];
    NoPayloads(done);
    for i := 0 to count
      invariant fragments == done[..i] && dataAt == MANIFEST_BYTES + count * DESCRIPTOR_BYTES + |Payloads(done[..i])|
    {
      LogicalParts(done, i);
      PayloadOf(done, i);
      SmallPayload(p, done, i);
      DescriptorRead(done[i]);
      var h := ReadHeader(DescriptorAt(logical, i));
      fragments := fragments + [Fragment(h.id, h.total, h.offset, logical[dataAt..dataAt + h.size])];
      dataAt := dataAt + h.size;
    }
  }

  lemma HeadersForce(p: Parameters, logical: Bytes)
    requires p.Valid()
    ensures forall fs :: IsGroup(p, fs) && Logical(fs) == logical ==>
      && |logical| >= MANIFEST_BYTES + DESCRIPTOR_BYTES * |fs| && Get(logical[..2]) == MANIFEST_VERSION
      && Get(logical[2..4]) == |fs| && 1 <= |fs| <= p.maxDescriptors
  {
    hide Put, Get, Descriptors, Payloads, Descriptor, Logical;
    forall fs | IsGroup(p, fs) && Logical(fs) == logical
      ensures |logical| >= MANIFEST_BYTES + DESCRIPTOR_BYTES * |fs| && Get(logical[..2]) == MANIFEST_VERSION
      ensures Get(logical[2..4]) == |fs|
    {
      HeaderForces(p, logical, fs);
    }
  }

  lemma NothingRead(p: Parameters, logical: Bytes, count: nat)
    requires MANIFEST_BYTES + DESCRIPTOR_BYTES * count <= |logical|
    requires forall fs :: IsGroup(p, fs) && Logical(fs) == logical ==> |fs| == count
    ensures Read(logical, count, [], MANIFEST_BYTES + DESCRIPTOR_BYTES * count)
    ensures Forces(p, logical, count, []) && Canonical(p, [])
  {
  }

  lemma ReadBounds(logical: Bytes, count: nat, fs: seq<Fragment>, dataAt: nat)
    requires Read(logical, count, fs, dataAt)
    ensures MANIFEST_BYTES + DESCRIPTOR_BYTES * count <= dataAt <= |logical|
  {
  }

  lemma NoPayloads(fs: seq<Fragment>)
    ensures Payloads(fs[..0]) == []
  {
  }

  // The payload of a valid fragment has a 32-bit length.
  lemma SmallPayload(p: Parameters, fs: seq<Fragment>, i: nat)
    requires Canonical(p, fs) && i < |fs|
    ensures |fs[i].payload| <= MAX_U32
  {
    assert ValidAt(p, fs, i);
  }

  lemma CanonicalMore(p: Parameters, fs: seq<Fragment>, f: Fragment)
    requires Canonical(p, fs) && f.Valid(p, if fs == [] then 0 else fs[|fs| - 1].id)
    ensures Canonical(p, fs + [f])
  {
    forall i | 0 <= i < |fs| + 1
      ensures ValidAt(p, fs + [f], i)
    {
      assert i < |fs| ==> ValidAt(p, fs, i);
    }
  }

  // What the next descriptor tells of every possible group.
  lemma NextIsForced(p: Parameters, logical: Bytes, count: nat, done: seq<Fragment>, dataAt: nat)
    requires p.Valid() && Forces(p, logical, count, done) && |done| < count && Read(logical, count, done, dataAt)
    ensures var h, last := ReadHeader(DescriptorAt(logical, |done|)), if done == [] then 0 else done[|done| - 1].id;
      forall fs: seq<Fragment> :: IsGroup(p, fs) && Logical(fs) == logical ==>
        && 0 <= h.size <= |logical| - dataAt && done <= fs && |fs| == count
        && fs[|done|] == Fragment(h.id, h.total, h.offset, logical[dataAt..dataAt + h.size])
        && fs[|done|].Valid(p, last)
  {
    hide Put, Get, Descriptors, Payloads, Descriptor, Logical;
    forall fs: seq<Fragment> | IsGroup(p, fs) && Logical(fs) == logical
      ensures var h, last := ReadHeader(DescriptorAt(logical, |done|)), if done == [] then 0 else done[|done| - 1].id;
        && 0 <= h.size <= |logical| - dataAt
        && fs[|done|] == Fragment(h.id, h.total, h.offset, logical[dataAt..dataAt + h.size])
        && fs[|done|].Valid(p, last)
    {
      NextForced(p, logical, done, dataAt, fs);
    }
  }

  lemma ForcesNext(p: Parameters, logical: Bytes, count: nat, done: seq<Fragment>, f: Fragment)
    requires |done| < count && Forces(p, logical, count, done)
    requires forall fs :: IsGroup(p, fs) && Logical(fs) == logical ==> |fs| == count && fs[|done|] == f
    ensures Forces(p, logical, count, done + [f])
  {
    hide Logical, IsGroup;
  }

  // A group that is read completely has no further bytes.
  lemma NothingTrails(p: Parameters, logical: Bytes, done: seq<Fragment>, dataAt: nat)
    requires p.Valid() && Forces(p, logical, |done|, done) && Read(logical, |done|, done, dataAt)
    ensures forall fs :: IsGroup(p, fs) && Logical(fs) == logical ==> fs == done && dataAt == |logical|
  {
    hide Put, Get, Descriptors, Descriptor;
    forall fs | IsGroup(p, fs) && Logical(fs) == logical
      ensures fs == done && dataAt == |logical|
    {
      LogicalBytes(fs);
      assert fs == done;
    }
  }

  // ---------------------------------------------------------------------------
  // Protection by shards

  datatype Group = Group(logicalBytes: int, shards: seq<Bytes>)

  datatype Decoded = Fragments(fs: seq<Fragment>) | Invalid | Insufficient

  function RS(p: Parameters): Params {
    Params(p.dataShards, p.parityShards)
  }

  // The logical bytes padded with zeros to all data shards.
  function Padding(p: Parameters, fs: seq<Fragment>): (b: Bytes)
    requires p.Valid() && Encodable(p, fs)
    ensures |b| == p.dataShards * p.shardBytes
  {
    LogicalBytes(fs);
    Logical(fs) + Zeros(p.dataShards * p.shardBytes - |Logical(fs)|)
  }

  function Shards(p: Parameters, codec: Codec, fs: seq<Fragment>): seq<Bytes>
    requires p.Valid() && Encodable(p, fs)
  {
    var data := Slices(Padding(p, fs), p.shardBytes, p.dataShards);
    data + codec.parity(data)
  }

  /** Encode: a list that the context admits becomes one full set of equal shards
      that carries its manifest and payloads. */
  method Encode(p: Parameters, codec: Codec, fs: seq<Fragment>) returns (r: Option<Group>)
    requires p.Valid()
    ensures r.Some? <==> Encodable(p, fs)
    ensures r.Some? ==> r.value == Group(LogicalSize(fs), Shards(p, codec, fs))
  {
    hide Put, Slices, Descriptor, Descriptors, Payloads, Logical, LogicalSize, Canonical;
    var size := Measure(p, fs);
    if size == None {
      return None;
    }
    LogicalBytes(fs);
    var manifest := Lay(fs);
    var backing := manifest + Zeros(p.dataShards * p.shardBytes - |manifest|);
    assert backing == Padding(p, fs);
    var shards := Slices(backing, p.shardBytes, p.dataShards);
    return Some(Group(size.value, shards + codec.parity(shards)));
  }

  // The writing loop of Encode.
  method Lay(fs: seq<Fragment>) returns (manifest: Bytes)
    ensures manifest == Logical(fs)
  {
    hide Put, Descriptor;
    var heads, data := Put(MANIFEST_VERSION, 2) + Put(|fs|, 2), [];
    WrittenNone(fs);
    for i := 0 to |fs|
      invariant heads == Put(MANIFEST_VERSION, 2) + Put(|fs|, 2) + Descriptors(fs[..i]) && data == Payloads(fs[..i])
    {
      WrittenOne(fs, i);
      heads := heads + Descriptor(fs[i]);
      data := data + fs[i].payload;
    }
    assert fs[..|fs|] == fs;
    manifest := heads + data;
  }

  lemma WrittenNone(fs: seq<Fragment>)
    ensures Descriptors(fs[..0]) == [] && Payloads(fs[..0]) == []
  {
  }

  lemma WrittenOne(fs: seq<Fragment>, i: nat)
    requires i < |fs|
    ensures Descriptors(fs[..i + 1]) == Descriptors(fs[..i]) + Descriptor(fs[i])
    ensures Payloads(fs[..i + 1]) == Payloads(fs[..i]) + fs[i].payload
  {
    assert fs[..i + 1][..i] == fs[..i];
  }

  // logicalSize
  method Measure(p: Parameters, fs: seq<Fragment>) returns (size: Option<int>)
    requires p.Valid()
    ensures size == if Encodable(p, fs) then Some(LogicalSize(fs)) else None
  {
    hide Put, Descriptor, Descriptors, Payloads, LogicalSize, Logical;
    LogicalBytes(fs);
    if |fs| < 1 || |fs| > p.maxDescriptors {
      return None;
    }
    var total := MANIFEST_BYTES + DESCRIPTOR_BYTES * |fs|;
    if total > p.maxLogicalBytes {
      return None;
    }
    var previous: U64 := 0;
    WrittenNone(fs);
    for i := 0 to |fs|
      invariant previous == if i == 0 then 0 else fs[i - 1].id
      invariant forall j :: 0 <= j < i ==> ValidAt(p, fs, j)
      invariant total == MANIFEST_BYTES + DESCRIPTOR_BYTES * |fs| + |Payloads(fs[..i])| <= p.maxLogicalBytes
    {
      WrittenOne(fs, i);
      PayloadOf(fs, i);
      if !fs[i].Valid(p, previous) {
        assert !ValidAt(p, fs, i);
        return None;
      }
      previous := fs[i].id;
      if |fs[i].payload| > p.maxLogicalBytes - total {
        return None;
      }
      total := total + |fs[i].payload|;
    }
    assert fs[..|fs|] == fs;
    return Some(total);
  }

  lemma ConcatStart(data: seq<Bytes>)
    ensures Concat(data[..0]) == []
  {
  }

  lemma ConcatStep(data: seq<Bytes>, i: nat)
    requires i < |data|
    ensures Concat(data[..i + 1]) == Concat(data[..i]) + data[i] && Concat(data[..i + 1]) <= Concat(data)
  {
    hide Concat;
    ConcatLast(data[..i + 1]);
    ConcatParts(data, i + 1);
    assert data[..i + 1][..i] == data[..i];
  }

  // Takes the logical bytes off the data shards; what is left must be zero.
  method Trim(data: seq<Bytes>, logicalBytes: nat) returns (r: Option<Bytes>)
    ensures var all := Concat(data);
      r == if |all| >= logicalBytes && (forall j :: logicalBytes <= j < |all| ==> all[j] == 0)
           then Some(all[..logicalBytes]) else None
  {
    hide Concat;
    var logical: Bytes, at := [], 0;
    ConcatStart(data);
    for i := 0 to |data|
      invariant at == |Concat(data[..i])| && logical == Concat(data[..i])[..if at < logicalBytes then at else logicalBytes]
      invariant forall j :: logicalBytes <= j < at ==> Concat(data[..i])[j] == 0
    {
      ConcatStep(data, i);
      var left := logicalBytes - at;
      var used := if left < 0 then 0 else if left < |data[i]| then left else |data[i]|;
      logical := logical + data[i][..used];
      for j := used to |data[i]|
        invariant forall m :: used <= m < j ==> data[i][m] == 0
      {
        if data[i][j] != 0 {
          assert Concat(data)[at + j] == data[i][j];
          return None;
        }
      }
      at := at + |data[i]|;
    }
    assert data[..|data|] == data;
    return if |logical| == logicalBytes then Some(logical) else None;
  }

  // The shards and the size are those of an encoded group, some of them missing.
  ghost predicate ComesFrom(p: Parameters, codec: Codec, fs: seq<Fragment>, logicalBytes: nat, input: seq<Option<Bytes>>)
    requires p.Valid()
  {
    && Encodable(p, fs) && logicalBytes == LogicalSize(fs) && PartOf(input, Shards(p, codec, fs))
    && CountOf(input) >= p.dataShards
  }

  // What the data shards of an encoded group hold.
  lemma PaddingJoins(p: Parameters, fs: seq<Fragment>)
    requires p.Valid() && Encodable(p, fs)
    ensures var all := Concat(Slices(Padding(p, fs), p.shardBytes, p.dataShards));
      && |all| >= LogicalSize(fs) >= MANIFEST_BYTES + DESCRIPTOR_BYTES && all[..LogicalSize(fs)] == Logical(fs)
      && forall j :: LogicalSize(fs) <= j < |all| ==> all[j] == 0
  {
    hide Put, Descriptor, Slices, Concat;
    LogicalBytes(fs);
    SlicesJoin(Padding(p, fs), p.shardBytes, p.dataShards);
    var pad := Padding(p, fs);
    assert pad[..p.dataShards * p.shardBytes] == pad;
  }

  // Enough shards of an encoded group bring back its data shards.
  lemma ShardsRecover(p: Parameters, codec: Codec, fs: seq<Fragment>, logicalBytes: nat, input: seq<Option<Bytes>>)
    requires p.Valid() && Recovers(codec, RS(p)) && ComesFrom(p, codec, fs, logicalBytes, input)
    ensures |input| == p.dataShards + p.parityShards
    ensures forall i :: 0 <= i < |input| && input[i].Some? ==> |input[i].value| == |Shards(p, codec, fs)[i]|
    ensures var r := codec.reconstruct(input);
      && r.Some? && |r.value| >= p.dataShards
      && r.value[..p.dataShards] == Slices(Padding(p, fs), p.shardBytes, p.dataShards)
  {
    hide Padding, Slices, Encodable;
    var data := Slices(Padding(p, fs), p.shardBytes, p.dataShards);
    assert |data| == RS(p).dataShards;
    assert PartOf(input, data + codec.parity(data));
  }

  // Parity shards are as long as data shards.
  ghost predicate SameSizes(p: Parameters, codec: Codec) {
    forall data :: |data| == p.dataShards && (forall i :: 0 <= i < |data| ==> |data[i]| == p.shardBytes) ==>
      forall i :: 0 <= i < |codec.parity(data)| ==> |codec.parity(data)[i]| == p.shardBytes
  }

  // Reconstruct fills in every missing shard and leaves the others alone.
  ghost predicate Completes(p: Parameters, codec: Codec) {
    && (forall shards :: Sized(p, shards) && codec.reconstruct(shards).Some? ==>
        Completed(p, shards, codec.reconstruct(shards).value))
    && forall data, shards ::
        |data| == p.dataShards && PartOf(shards, data + codec.parity(data)) && CountOf(shards) >= p.dataShards ==>
        codec.reconstruct(shards) == Some(data + codec.parity(data))
  }

  predicate Completed(p: Parameters, shards: seq<Option<Bytes>>, all: seq<Bytes>) {
    |all| == |shards|
    && forall i :: 0 <= i < |all| ==> |all[i]| == p.shardBytes && (shards[i].Some? ==> all[i] == shards[i].value)
  }

  // A library that keeps to the sizes of its shards, and can recover them.
  ghost predicate Reliable(codec: Codec, p: Parameters) {
    Recovers(codec, RS(p)) && SameSizes(p, codec) && Completes(p, codec)
  }

  /** Decode inverts Encode: it returns a list of fragments exactly when the shards that
      arrived are dataShards or more of the group that Encode makes of it. */
  method Decode(p: Parameters, codec: Codec, logicalBytes: nat, input: seq<Option<Bytes>>) returns (r: Decoded)
    requires p.Valid()
    ensures r.Fragments? ==> Encodable(p, r.fs) && LogicalSize(r.fs) == logicalBytes
    ensures r == Insufficient ==> CountOf(input) < p.dataShards
    ensures Reliable(codec, p) ==> forall fs :: ComesFrom(p, codec, fs, logicalBytes, input) <==> r == Fragments(fs)
  {
    hide Put, Descriptor, Descriptors, Payloads, Slices, Concat, Padding, Shards, Logical, Reliable, CountOf, ComesFrom,
      Canonical;
    Arrivals(p, codec, logicalBytes, input);
    if logicalBytes < MANIFEST_BYTES + DESCRIPTOR_BYTES || logicalBytes > p.maxLogicalBytes
      || |input| != p.dataShards + p.parityShards {
      return Invalid;
    }
    var ok, present := Present(p, input);
    if !ok {
      return Invalid;
    }
    if present < p.dataShards {
      return Insufficient;
    }
    var all := codec.reconstruct(input);
    if all == None || |all.value| < p.dataShards {
      return Invalid;
    }
    // Verify
    if all.value[p.dataShards..] != codec.parity(all.value[..p.dataShards]) {
      return Invalid;
    }
    var logical := Trim(all.value[..p.dataShards], logicalBytes);
    if logical == None {
      return Invalid;
    }
    var parsed := ParseManifest(p, logical.value);
    if parsed == None {
      return Invalid;
    }
    LogicalBytes(parsed.value);
    if Reliable(codec, p) {
      Departs(p, codec, parsed.value, logicalBytes, input);
    }
    return Fragments(parsed.value);
  }

  // What an encoded group looks like on arrival.
  lemma Arrivals(p: Parameters, codec: Codec, logicalBytes: nat, input: seq<Option<Bytes>>)
    requires p.Valid()
    ensures Reliable(codec, p) ==>
      forall fs :: ComesFrom(p, codec, fs, logicalBytes, input) ==>
        && MANIFEST_BYTES + DESCRIPTOR_BYTES <= logicalBytes <= p.maxLogicalBytes
        && |input| == p.dataShards + p.parityShards && Sized(p, input) && CountOf(input) >= p.dataShards
        && codec.reconstruct(input).Some? && |codec.reconstruct(input).value| >= p.dataShards
        && codec.reconstruct(input).value[p.dataShards..] == codec.parity(codec.reconstruct(input).value[..p.dataShards])
        && var all := Concat(codec.reconstruct(input).value[..p.dataShards]);
        && |all| >= logicalBytes && (forall j :: logicalBytes <= j < |all| ==> all[j] == 0)
        && all[..logicalBytes] == Logical(fs) && IsGroup(p, fs)
  {
    hide Put, Descriptor, Descriptors, Payloads, Slices, Concat, Padding, Logical, Recovers, CountOf, Canonical, Completes;
    if Reliable(codec, p) {
      forall fs | ComesFrom(p, codec, fs, logicalBytes, input)
        ensures MANIFEST_BYTES + DESCRIPTOR_BYTES <= logicalBytes <= p.maxLogicalBytes
        ensures |input| == p.dataShards + p.parityShards && Sized(p, input) && CountOf(input) >= p.dataShards
        ensures codec.reconstruct(input).Some? && |codec.reconstruct(input).value| >= p.dataShards
        ensures codec.reconstruct(input).value[p.dataShards..]
          == codec.parity(codec.reconstruct(input).value[..p.dataShards])
        ensures var all := Concat(codec.reconstruct(input).value[..p.dataShards]);
          && |all| >= logicalBytes && (forall j :: logicalBytes <= j < |all| ==> all[j] == 0)
          && all[..logicalBytes] == Logical(fs) && IsGroup(p, fs)
      {
        PaddingJoins(p, fs);
        ShardsRecover(p, codec, fs, logicalBytes, input);
        ShardsComplete(p, codec, fs, logicalBytes, input);
      }
    }
  }

  lemma ShardsComplete(p: Parameters, codec: Codec, fs: seq<Fragment>, logicalBytes: nat, input: seq<Option<Bytes>>)
    requires p.Valid() && Completes(p, codec) && ComesFrom(p, codec, fs, logicalBytes, input)
    ensures var all := codec.reconstruct(input);
      && all == Some(Shards(p, codec, fs)) && |all.value| >= p.dataShards
      && all.value[p.dataShards..] == codec.parity(all.value[..p.dataShards])
  {
    hide Padding, Slices, Encodable, CountOf;
    var data := Slices(Padding(p, fs), p.shardBytes, p.dataShards);
    assert PartOf(input, data + codec.parity(data));
    assert (data + codec.parity(data))[..p.dataShards] == data;
    assert (data + codec.parity(data))[p.dataShards..] == codec.parity(data);
  }

  // Equal shards are the slices of what they join to.
  lemma {:induction false} JoinSlices(data: seq<Bytes>, size: nat)
    requires forall i :: 0 <= i < |data| ==> |data[i]| == size
    ensures |Concat(data)| == |data| * size && Slices(Concat(data), size, |data|) == data
  {
    if data != [] {
      JoinSlices(data[1..], size);
      OneLess(size, |data|);
      assert Concat(data)[..size] == data[0] && Concat(data)[size..] == Concat(data[1..]);
    }
  }

  // Whatever is returned was sent: the shards are some of its own group.
  lemma Departs(p: Parameters, codec: Codec, fs: seq<Fragment>, logicalBytes: nat, input: seq<Option<Bytes>>)
    requires p.Valid() && Reliable(codec, p) && Encodable(p, fs) && LogicalSize(fs) == logicalBytes
    requires Sized(p, input) && |input| == p.dataShards + p.parityShards && CountOf(input) >= p.dataShards
    requires codec.reconstruct(input).Some?
    requires var all := codec.reconstruct(input).value;
      && |all| >= p.dataShards && all[p.dataShards..] == codec.parity(all[..p.dataShards])
      && var joined := Concat(all[..p.dataShards]);
      && |joined| >= logicalBytes && joined[..logicalBytes] == Logical(fs)
      && forall j :: logicalBytes <= j < |joined| ==> joined[j] == 0
    ensures ComesFrom(p, codec, fs, logicalBytes, input)
  {
    hide Slices, Concat, Logical, LogicalSize, CountOf, Encodable, Padding, Recovers, SameSizes, Shards;
    var all := codec.reconstruct(input).value;
    assert Completed(p, input, all);
    var data := all[..p.dataShards];
    JoinSlices(data, p.shardBytes);
    IsPadding(p, fs, logicalBytes, Concat(data));
    SameShards(p, codec, fs, all);
    assert PartOf(input, all);
  }

  lemma IsPadding(p: Parameters, fs: seq<Fragment>, n: nat, joined: Bytes)
    requires p.Valid() && Encodable(p, fs) && n == LogicalSize(fs) && |joined| == p.dataShards * p.shardBytes >= n
    requires joined[..n] == Logical(fs) && forall j :: n <= j < |joined| ==> joined[j] == 0
    ensures joined == Padding(p, fs)
  {
    hide Logical, LogicalSize, Encodable;
    LogicalBytes(fs);
  }

  lemma SameShards(p: Parameters, codec: Codec, fs: seq<Fragment>, all: seq<Bytes>)
    requires p.Valid() && Encodable(p, fs) && |all| >= p.dataShards
    requires all[..p.dataShards] == Slices(Padding(p, fs), p.shardBytes, p.dataShards)
    requires all[p.dataShards..] == codec.parity(all[..p.dataShards])
    ensures Shards(p, codec, fs) == all
  {
    hide Padding, Slices, Encodable;
    assert all == all[..p.dataShards] + all[p.dataShards..];
  }

  predicate Sized(p: Parameters, input: seq<Option<Bytes>>) {
    forall i :: 0 <= i < |input| && input[i].Some? ==> |input[i].value| == p.shardBytes
  }

  // The first loop of Decode.
  method Present(p: Parameters, input: seq<Option<Bytes>>) returns (ok: bool, present: nat)
    ensures ok <==> Sized(p, input)
    ensures ok ==> present == CountOf(input)
  {
    present := 0;
    for i := 0 to |input|
      invariant present == CountTo(input, i)
      invariant forall j :: 0 <= j < i && input[j].Some? ==> |input[j].value| == p.shardBytes
    {
      if input[i].Some? {
        if |input[i].value| != p.shardBytes {
          return false, present;
        }
        present := present + 1;
      }
    }
    ok := true;
  }
}
