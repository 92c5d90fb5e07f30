// internal/fecv2: fragments, encoding parameters and the greedy group packer.
module Packing {
  import opened Words

  const MANIFEST_BYTES := 4
  const DESCRIPTOR_BYTES := 20
  const MAX_DESCRIPTORS := 256
  const MAX_LOGICAL_BYTES := 16 * 1024 * 1024
  const MAX_DATAGRAM_BYTES := 16 * 1024 * 1024
  const MAX_SHARD_BYTES := 65507 - 94

  type Byte = x: int | 0 <= x < 256

  datatype Parameters = Parameters(
    dataShards: int, parityShards: int, shardBytes: int,
    maxDescriptors: int, maxLogicalBytes: int, maxDatagramBytes: int)
  {
    predicate Valid() {
      && 1 <= dataShards <= 255 && 1 <= parityShards <= 255 && dataShards + parityShards <= 256
      && 1 <= shardBytes <= MAX_SHARD_BYTES
      && 1 <= maxDescriptors <= MAX_DESCRIPTORS
      && MANIFEST_BYTES + DESCRIPTOR_BYTES <= maxLogicalBytes <= MAX_LOGICAL_BYTES
      && maxLogicalBytes <= dataShards * shardBytes
      && 1 <= maxDatagramBytes <= MAX_DATAGRAM_BYTES
    }

    // Payload bytes that fit a group holding a single fragment.
    function FreshCapacity(): int {
      maxLogicalBytes - MANIFEST_BYTES - DESCRIPTOR_BYTES
    }
  }

  // One range of an original Datagram.
  datatype Fragment = Fragment(id: U64, total: U32, offset: U32, payload: seq<Byte>) {
    function End(): int {
      offset + |payload|
    }

    // validateFragment
    predicate Valid(p: Parameters, previous: U64) {
      && id != 0 && id > previous
      && total <= p.maxDatagramBytes && offset <= total && |payload| <= total - offset
      && !(payload == [] && total != 0)
    }
  }

  // A canonical fragment list: every fragment valid, IDs strictly ascending.
  predicate Canonical(p: Parameters, fs: seq<Fragment>) {
    forall i :: 0 <= i < |fs| ==> ValidAt(p, fs, i)
  }

  predicate ValidAt(p: Parameters, fs: seq<Fragment>, i: nat)
    requires i < |fs|
  {
    fs[i].Valid(p, if i == 0 then 0 else fs[i - 1].id)
  }

  function LogicalSize(fs: seq<Fragment>): int {
    if fs == [] then MANIFEST_BYTES
    else LogicalSize(fs[..|fs| - 1]) + DESCRIPTOR_BYTES + |fs[|fs| - 1].payload|
  }

  // What one group may hold.
  predicate Encodable(p: Parameters, fs: seq<Fragment>) {
    && 1 <= |fs| <= p.maxDescriptors && Canonical(p, fs) && LogicalSize(fs) <= p.maxLogicalBytes
  }

  // First fragment not fully consumed, and its consumed prefix.
  datatype Cursor = Cursor(next: nat, bytes: nat)

  datatype PackErr = Packed | InvalidInput | NoPayloadCapacity

  // What is left of the input once the cursor has moved over it.
  function Consumed(fs: seq<Fragment>, c: Cursor): (taken: seq<Fragment>)
    requires c.next <= |fs| && (c.bytes > 0 ==> c.next < |fs| && c.bytes <= |fs[c.next].payload|)
  {
    if c.bytes == 0 then fs[..c.next]
    else fs[..c.next] + [fs[c.next].(payload := fs[c.next].payload[..c.bytes])]
  }

  predicate InRange(fs: seq<Fragment>, c: Cursor) {
    && c.next <= |fs|
    && (c.bytes > 0 ==> c.next < |fs| && c.bytes < |fs[c.next].payload|)
  }

  // A cursor is greedy when its group fits and nothing more would have fitted:
  // neither a byte more of a cut fragment nor the next whole fragment's start.
  predicate Greedy(p: Parameters, fs: seq<Fragment>, c: Cursor) {
    && InRange(fs, c)
    && var taken := Consumed(fs, c);
    && |taken| <= p.maxDescriptors && LogicalSize(taken) <= p.maxLogicalBytes
    && (c.bytes > 0 ==> LogicalSize(taken) == p.maxLogicalBytes)
    && (c.bytes == 0 && c.next < |fs| ==>
        var room := p.maxLogicalBytes - LogicalSize(taken) - DESCRIPTOR_BYTES;
        |taken| == p.maxDescriptors || room < 0 || (room == 0 && |fs[c.next].payload| > 0))
  }

  lemma LogicalSizeAppend(fs: seq<Fragment>, f: Fragment)
    ensures LogicalSize(fs + [f]) == LogicalSize(fs) + DESCRIPTOR_BYTES + |f.payload|
  {
    assert (fs + [f])[..|fs|] == fs;
  }

  lemma {:induction false} LogicalSizeMonotone(fs: seq<Fragment>, n: nat, m: nat)
    requires n <= m <= |fs|
    ensures LogicalSize(fs[..n]) + DESCRIPTOR_BYTES * (m - n) <= LogicalSize(fs[..m])
    decreases m
  {
    if n < m {
      LogicalSizeMonotone(fs, n, m - 1);
      assert fs[..m][..m - 1] == fs[..m - 1];
    }
  }

  lemma ConsumedWhole(fs: seq<Fragment>, n: nat)
    requires n < |fs|
    ensures LogicalSize(fs[..n + 1]) == LogicalSize(fs[..n]) + DESCRIPTOR_BYTES + |fs[n].payload|
  {
    assert fs[..n + 1][..n] == fs[..n];
  }

  /** There is at most one greedy cursor: two packers that both stop greedily on
      the same input stop at the same place. */
  lemma GreedyIsUnique(p: Parameters, fs: seq<Fragment>, a: Cursor, b: Cursor)
    requires Greedy(p, fs, a) && Greedy(p, fs, b)
    ensures a == b
  {
    GreedyNotShorter(p, fs, a, b);
    GreedyNotShorter(p, fs, b, a);
    if a.bytes > 0 {
      CutSize(fs, a);
    }
    if b.bytes > 0 {
      CutSize(fs, b);
    }
  }

  lemma CutSize(fs: seq<Fragment>, c: Cursor)
    requires InRange(fs, c) && c.bytes > 0
    ensures |Consumed(fs, c)| == c.next + 1
    ensures LogicalSize(Consumed(fs, c)) == LogicalSize(fs[..c.next]) + DESCRIPTOR_BYTES + c.bytes
  {
    LogicalSizeAppend(fs[..c.next], fs[c.next].(payload := fs[c.next].payload[..c.bytes]));
  }

  // A greedy cursor cannot stop before another one that fits.
  lemma GreedyNotShorter(p: Parameters, fs: seq<Fragment>, a: Cursor, b: Cursor)
    requires Greedy(p, fs, a) && Greedy(p, fs, b)
    ensures b.next <= a.next
  {
    if a.next < b.next {
      ConsumedWhole(fs, a.next);
      LogicalSizeMonotone(fs, a.next + 1, b.next);
      if b.bytes > 0 {
        CutSize(fs, b);
      }
      if a.bytes > 0 {
        CutSize(fs, a);
      }
    }
  }

  // Packing an admitted prefix of a canonical list gives an encodable group.
  lemma ConsumedIsEncodable(p: Parameters, fs: seq<Fragment>, c: Cursor)
    requires Canonical(p, fs) && Greedy(p, fs, c) && Consumed(fs, c) != []
    ensures Encodable(p, Consumed(fs, c))
  {
    var taken := Consumed(fs, c);
    forall i | 0 <= i < |taken|
      ensures ValidAt(p, taken, i)
    {
      assert ValidAt(p, fs, i);
      assert taken[i].id == fs[i].id && (i > 0 ==> taken[i - 1].id == fs[i - 1].id);
      assert taken[i].payload == (if i == c.next then fs[i].payload[..c.bytes] else fs[i].payload);
    }
  }

  // EncodePrefix up to the encoder: the planned fragments of one group.
  method PackPrefix(p: Parameters, input: seq<Fragment>) returns (err: PackErr, planned: seq<Fragment>, cursor: Cursor)
    requires p.Valid()
    ensures err == InvalidInput <==>
      !(1 <= |input| <= MAX_DESCRIPTORS && Canonical(p, input))
    ensures err == Packed ==> Greedy(p, input, cursor) && planned == Consumed(input, cursor)
    ensures err == Packed ==> Encodable(p, planned)
    ensures err == NoPayloadCapacity ==> p.FreshCapacity() == 0 && |input[0].payload| > 0
  {
    cursor, planned := Cursor(0, 0), [];
    if |input| == 0 || |input| > MAX_DESCRIPTORS {
      return InvalidInput, planned, cursor;
    }
    var previous := 0;
    for i := 0 to |input|
      invariant previous == if i == 0 then 0 else input[i - 1].id
      invariant forall j :: 0 <= j < i ==> ValidAt(p, input, j)
    {
      if !input[i].Valid(p, previous) {
        assert !ValidAt(p, input, i);
        return InvalidInput, planned, cursor;
      }
      previous := input[i].id;
    }
    var used := MANIFEST_BYTES;
    var i := 0;
    while i < |input|
      invariant 0 <= i <= |input| && cursor == Cursor(i, 0)
      invariant planned == input[..i] && |planned| <= p.maxDescriptors
      invariant used == LogicalSize(planned) <= p.maxLogicalBytes
    {
      var f := input[i];
      var room := p.maxLogicalBytes - used - DESCRIPTOR_BYTES;
      if |planned| == p.maxDescriptors || room < 0 || (room == 0 && |f.payload| > 0) {
        break;
      }
      var consumed := if room < |f.payload| then room else |f.payload|;
      f := f.(payload := f.payload[..consumed]);
      LogicalSizeAppend(planned, f);
      planned := planned + [f];
      used := used + DESCRIPTOR_BYTES + consumed;
      if consumed < |input[i].payload| {
        cursor := Cursor(i, consumed);
        break;
      }
      assert f == input[i] && input[..i + 1] == input[..i] + [input[i]];
      i := i + 1;
      cursor := Cursor(i, 0);
    }
    assert planned == Consumed(input, cursor);
    if planned == [] {
      return NoPayloadCapacity, planned, cursor;
    }
    ConsumedIsEncodable(p, input, cursor);
    return Packed, planned, cursor;
  }
}
