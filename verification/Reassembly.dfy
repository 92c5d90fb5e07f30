// internal/reassemblyv2: bounded reassembly of original Datagrams from the
// fragments of decoded groups.
//
// `AddOne` is the reference: what a single fragment does to the store. The code
// plans a whole group first, reserves, and only then commits; the lemmas show
// that this equals adding the fragments one by one, and `Receiver` implements it.
module Reassembly {
  import opened Words
  import opened Packing
  import opened DeadlineList
  import CreditLedger
  import RecvWindow

  type Handle = CreditLedger.Handle
  type Op = CreditLedger.Op

  const INTERVAL_BYTES := 8
  const LINK_BYTES := 16

  datatype Limits = Limits(maxDatagrams: int, maxDatagramBytes: int, maxFragments: int, span: int, timeout: int) {
    // RequiredInitialBytes; the timeout is in nanoseconds.
    predicate InBounds() {
      && 1 <= maxDatagrams <= 65536 && 1 <= maxDatagramBytes <= MAX_DATAGRAM_BYTES && 1 <= maxFragments <= 4096
      && 1 <= span <= RecvWindow.MAX_SPAN && maxDatagrams <= span
      && 100_000_000 <= timeout <= 60_000_000_000
    }

    // Payload, range storage and deadline links of one original.
    function Charge(total: int): int {
      total + maxFragments * INTERVAL_BYTES + LINK_BYTES
    }
  }

  datatype Interval = Interval(start: int, end: int) {
    function Length(): int {
      end - start
    }
  }

  datatype AssemblyRecord = Assembly(
    total: U32, admitted: int, data: seq<Byte>, ranges: seq<Interval>, received: int, lease: Handle)

  type Assembly = a: AssemblyRecord | |a.data| == a.total witness Assembly(0, 0, [], [], 0, 0)

  // The finished original, which owns its bytes and its lease.
  datatype Delivery = Delivery(id: U64, data: seq<Byte>, lease: Handle)

  datatype ReceiveErr =
    | NoErr | ReceiverClosed | ClockBackwards | Noncanonical | LengthConflict | BytesConflict | RangeOverlap
    | Credit(err: CreditLedger.Err)

  // ---------------------------------------------------------------------------
  // Interval sets

  predicate InOrder(a: Interval, b: Interval) {
    a.end <= b.start
  }

  // Nonempty ranges inside [0, total), ascending and pairwise disjoint.
  predicate RangesOk(ranges: seq<Interval>, total: int) {
    && (forall i :: 0 <= i < |ranges| ==> 0 <= ranges[i].start < ranges[i].end <= total)
    && (forall i, j :: 0 <= i < j < |ranges| ==> InOrder(ranges[i], ranges[j]))
  }

  function Covered(ranges: seq<Interval>): int {
    if ranges == [] then 0 else Covered(ranges[..|ranges| - 1]) + ranges[|ranges| - 1].Length()
  }

  predicate Holds(i: Interval, k: int) {
    i.start <= k < i.end
  }

  predicate InRanges(ranges: seq<Interval>, k: int) {
    exists i :: 0 <= i < |ranges| && Holds(ranges[i], k)
  }

  // The number of ranges that start before the offset.
  function Position(ranges: seq<Interval>, offset: int): (at: nat)
    ensures at <= |ranges|
  {
    if ranges == [] then 0
    else if ranges[|ranges| - 1].start < offset then |ranges|
    else Position(ranges[..|ranges| - 1], offset)
  }

  lemma {:induction false} PositionIs(ranges: seq<Interval>, total: int, offset: int, at: nat)
    requires RangesOk(ranges, total) && at <= |ranges|
    requires at > 0 ==> ranges[at - 1].start < offset
    requires at < |ranges| ==> ranges[at].start >= offset
    ensures Position(ranges, offset) == at
  {
    if at < |ranges| {
      var n := |ranges| - 1;
      if at < n {
        assert InOrder(ranges[at], ranges[n]);
      }
      PositionIs(ranges[..n], total, offset, at);
    }
  }

  lemma {:induction false} PositionSplits(ranges: seq<Interval>, total: int, offset: int)
    requires RangesOk(ranges, total)
    ensures var at := Position(ranges, offset);
      && (forall i :: 0 <= i < at ==> ranges[i].start < offset)
      && (forall i :: at <= i < |ranges| ==> ranges[i].start >= offset)
  {
    if ranges != [] {
      var n := |ranges| - 1;
      if ranges[n].start < offset {
        assert forall i :: 0 <= i < n ==> InOrder(ranges[i], ranges[n]);
      } else {
        PositionSplits(ranges[..n], total, offset);
        assert forall i :: 0 <= i < n ==> ranges[..n][i] == ranges[i];
      }
    }
  }

  // Disjoint ranges below `total` never cover more than `total` bytes, and they
  // cover exactly `total` bytes when, and only when, no byte is missing.
  lemma {:induction false} FullIffNothingMissing(ranges: seq<Interval>, total: int)
    requires RangesOk(ranges, total) && total >= 0
    ensures 0 <= Covered(ranges) <= total
    ensures Covered(ranges) == total <==> forall k :: 0 <= k < total ==> InRanges(ranges, k)
  {
    if ranges == [] {
      if total > 0 {
        assert !InRanges(ranges, 0);
      }
    } else {
      var n := |ranges| - 1;
      var last, front := ranges[n], ranges[..n];
      assert forall i :: 0 <= i < n ==> InOrder(ranges[i], last);
      FullIffNothingMissing(front, last.start);
      LastHolds(ranges, total);
      if last.end < total {
        assert !InRanges(ranges, last.end);
      }
    }
  }

  lemma LastHolds(ranges: seq<Interval>, total: int)
    requires RangesOk(ranges, total) && ranges != []
    ensures var last, front := ranges[|ranges| - 1], ranges[..|ranges| - 1];
      && RangesOk(front, last.start)
      && (forall k :: k < last.start ==> (InRanges(ranges, k) <==> InRanges(front, k)))
      && (forall k :: k >= last.start ==> (InRanges(ranges, k) <==> k < last.end))
  {
    var n := |ranges| - 1;
    var last, front := ranges[n], ranges[..n];
    assert forall i :: 0 <= i < n ==> InOrder(ranges[i], last) && front[i] == ranges[i];
    forall k | k < last.start && InRanges(ranges, k)
      ensures InRanges(front, k)
    {
      var i :| 0 <= i < |ranges| && Holds(ranges[i], k);
      assert Holds(front[i], k);
    }
    forall k | InRanges(front, k)
      ensures InRanges(ranges, k)
    {
      var i :| 0 <= i < n && Holds(front[i], k);
      assert Holds(ranges[i], k);
    }
    forall k | last.start <= k < last.end
      ensures InRanges(ranges, k)
    {
      assert Holds(ranges[n], k);
    }
  }

  function Inserted(ranges: seq<Interval>, at: nat, x: Interval): seq<Interval>
    requires at <= |ranges|
  {
    ranges[..at] + [x] + ranges[at..]
  }

  lemma {:induction false} CoveredInserted(ranges: seq<Interval>, at: nat, x: Interval)
    requires at <= |ranges|
    ensures Covered(Inserted(ranges, at, x)) == Covered(ranges) + x.Length()
  {
    var next := Inserted(ranges, at, x);
    if at == |ranges| {
      assert next[..|ranges|] == ranges;
    } else {
      CoveredInserted(ranges[..|ranges| - 1], at, x);
      assert next[..|ranges|] == Inserted(ranges[..|ranges| - 1], at, x);
    }
  }

  // A range that starts no earlier than its left neighbour ends and ends no
  // later than its right neighbour starts keeps the set ordered.
  lemma InsertedOk(ranges: seq<Interval>, total: int, at: nat, x: Interval)
    requires RangesOk(ranges, total) && at <= |ranges| && 0 <= x.start < x.end <= total
    requires at > 0 ==> ranges[at - 1].end <= x.start
    requires at < |ranges| ==> x.end <= ranges[at].start
    ensures RangesOk(Inserted(ranges, at, x), total)
  {
    var next := Inserted(ranges, at, x);
    assert forall i :: 0 <= i < at ==> next[i] == ranges[i];
    assert forall i :: at < i < |next| ==> next[i] == ranges[i - 1];
    forall i, j | 0 <= i < j < |next|
      ensures InOrder(next[i], next[j])
    {
      assert at > 0 && i < at - 1 ==> InOrder(ranges[i], ranges[at - 1]);
      assert at < |ranges| && j > at + 1 ==> InOrder(ranges[at], ranges[j - 1]);
      assert i < at < j ==> InOrder(ranges[i], ranges[j - 1]);
    }
  }

  // ---------------------------------------------------------------------------
  // One original

  // An incomplete original: its ranges cover `received` of its `total` bytes.
  predicate AssemblyOk(a: Assembly, limits: Limits) {
    && a.total <= limits.maxDatagramBytes
    && RangesOk(a.ranges, a.total) && |a.ranges| <= limits.maxFragments
    && a.received == Covered(a.ranges) < a.total
  }

  function Fresh(total: U32, now: int, lease: Handle): Assembly {
    Assembly(total, now, seq(total, _ => 0), [], 0, lease)
  }

  predicate Due(a: Assembly, limits: Limits, now: int) {
    now - a.admitted >= limits.timeout
  }

  datatype Inspection = Fits(at: nat) | Repeats | Contradicts | Overlaps

  function Range(f: Fragment): Interval {
    Interval(f.offset, f.End())
  }

  predicate FitsIn(f: Fragment, a: Assembly) {
    f.total == a.total && f.End() <= a.total
  }

  function Inspect(a: Assembly, f: Fragment): (r: Inspection)
    requires FitsIn(f, a)
    ensures r.Fits? ==> r.at <= |a.ranges|
  {
    var at := Position(a.ranges, f.offset);
    if at < |a.ranges| && a.ranges[at] == Range(f) then
      if a.data[f.offset..f.End()] == f.payload then Repeats else Contradicts
    else if (at > 0 && a.ranges[at - 1].end > f.offset) || (at < |a.ranges| && a.ranges[at].start < f.End()) then Overlaps
    else Fits(at)
  }

  // The bytes of one fragment copied in and its range recorded.
  function Written(a: Assembly, f: Fragment, at: nat): Assembly
    requires FitsIn(f, a) && at <= |a.ranges|
  {
    a.(data := a.data[..f.offset] + f.payload + a.data[f.End()..],
       ranges := Inserted(a.ranges, at, Range(f)),
       received := a.received + |f.payload|)
  }

  lemma WrittenOk(a: Assembly, f: Fragment, limits: Limits)
    requires AssemblyOk(a, limits) && FitsIn(f, a) && f.payload != [] && |a.ranges| < limits.maxFragments
    requires Inspect(a, f).Fits?
    ensures var b := Written(a, f, Inspect(a, f).at);
      && RangesOk(b.ranges, b.total) && |b.ranges| <= limits.maxFragments
      && b.received == Covered(b.ranges) <= b.total
  {
    var at := Inspect(a, f).at;
    PositionSplits(a.ranges, a.total, f.offset);
    InsertedOk(a.ranges, a.total, at, Range(f));
    CoveredInserted(a.ranges, at, Range(f));
    FullIffNothingMissing(Inserted(a.ranges, at, Range(f)), a.total);
  }

  // ---------------------------------------------------------------------------
  // The store and one fragment

  datatype Store = Store(pending: map<U64, Assembly>, order: seq<U64>, window: RecvWindow.History)

  predicate PendingOk(st: Store, limits: Limits, clock: int, id: U64)
    requires id in st.pending
  {
    && id != 0 && id <= st.window.highest && st.window.State(id) in {RecvWindow.Unseen, RecvWindow.Retired}
    && AssemblyOk(st.pending[id], limits) && st.pending[id].admitted <= clock
  }

  function Since(pending: map<U64, Assembly>, id: U64): int {
    if id in pending then pending[id].admitted else 0
  }

  // The pending originals are listed by time of admission.
  predicate Sorted(pending: map<U64, Assembly>, order: seq<U64>) {
    forall j, k :: 0 <= j < k < |order| ==> Since(pending, order[j]) <= Since(pending, order[k])
  }

  ghost predicate StoreOk(st: Store, limits: Limits, clock: int) {
    && st.window.Valid() && !st.window.closed && st.window.span == limits.span
    && Distinct(st.order) && (forall id :: id in st.order <==> id in st.pending)
    && (forall id :: id in st.pending ==> PendingOk(st, limits, clock, id))
    && Sorted(st.pending, st.order)
  }

  // validate: what the receiver accepts as one fragment after `previous`.
  predicate Acceptable(f: Fragment, limits: Limits, previous: U64) {
    && f.id != 0 && f.id > previous
    && f.total <= limits.maxDatagramBytes && f.offset <= f.total && |f.payload| <= f.total - f.offset
    && !(f.payload == [] && f.total != 0)
  }

  predicate AcceptableGroup(fs: seq<Fragment>, limits: Limits) {
    forall i :: 0 <= i < |fs| ==> AcceptableAt(fs, limits, i)
  }

  predicate AcceptableAt(fs: seq<Fragment>, limits: Limits, i: nat)
    requires i < |fs|
  {
    Acceptable(fs[i], limits, if i == 0 then 0 else fs[i - 1].id)
  }

  // One to MAX_DESCRIPTORS fragments under ascending IDs, each inside its original and
  // within the limit, none empty but that of an empty original.
  predicate WellFormed(fs: seq<Fragment>, limits: Limits) {
    && 0 < |fs| <= MAX_DESCRIPTORS && fs[0].id != 0 && (forall i :: 0 < i < |fs| ==> fs[i].id > fs[i - 1].id)
    && forall i :: 0 <= i < |fs| ==>
         && fs[i].offset + |fs[i].payload| <= fs[i].total <= limits.maxDatagramBytes
         && (fs[i].total > 0 ==> fs[i].payload != [])
  }

  lemma WellFormedMeans(fs: seq<Fragment>, limits: Limits)
    ensures WellFormed(fs, limits) <==> 1 <= |fs| <= MAX_DESCRIPTORS && AcceptableGroup(fs, limits)
  {
    if 1 <= |fs| <= MAX_DESCRIPTORS && AcceptableGroup(fs, limits) {
      assert AcceptableAt(fs, limits, 0);
      forall i | 0 <= i < |fs|
        ensures fs[i].offset + |fs[i].payload| <= fs[i].total <= limits.maxDatagramBytes
        ensures (fs[i].total > 0 ==> fs[i].payload != []) && (i > 0 ==> fs[i].id > fs[i - 1].id)
      {
        assert AcceptableAt(fs, limits, i);
      }
      assert WellFormed(fs, limits);
    }
    if WellFormed(fs, limits) {
      forall i | 0 <= i < |fs|
        ensures AcceptableAt(fs, limits, i)
      {
        assert fs[i].id > if i == 0 then 0 else fs[i - 1].id;
      }
    }
  }

  datatype Plan = Fail(err: ReceiveErr) | Elapsed | Skip | Duplicate | Insert(at: nat) | Admit

  // What the planning loop decides about one fragment.
  function PlanFor(st: Store, limits: Limits, now: int, f: Fragment): (p: Plan)
    requires f.End() <= f.total
    ensures p.Fail? ==> p.err != NoErr
    ensures p == Elapsed ==> f.id in st.pending
    ensures p.Insert? ==> f.id in st.pending && FitsIn(f, st.pending[f.id]) && p.at <= |st.pending[f.id].ranges|
    ensures p == Admit ==> f.id !in st.pending && st.window.State(f.id) == RecvWindow.Unseen
  {
    if f.id in st.pending then
      var a := st.pending[f.id];
      if a.total != f.total then Fail(LengthConflict)
      else if Due(a, limits, now) then Elapsed
      else
        match Inspect(a, f)
        case Repeats => Duplicate
        case Contradicts => Fail(BytesConflict)
        case Overlaps => Fail(RangeOverlap)
        case Fits(at) =>
          if |a.ranges| == limits.maxFragments then Fail(Credit(CreditLedger.ResourceLimit)) else Insert(at)
    else if st.window.State(f.id) != RecvWindow.Unseen then Skip
    else Admit
  }

  datatype Added = Added(store: Store, delivered: seq<Delivery>, ops: seq<Op>)

  // An original leaves the store with a terminal outcome.
  function Retire(st: Store, id: U64, outcome: RecvWindow.Status): Store {
    st.(pending := st.pending - {id},
        order := if id in st.order then Without(st.order, id) else st.order,
        window := st.window.Finish(id, outcome))
  }

  function ExpireOne(st: Store, id: U64): Store {
    Retire(st, id, RecvWindow.Expired)
  }

  // A pending original takes a written fragment; a full one is delivered.
  function Grow(st: Store, id: U64, a: Assembly): Added {
    if a.received == a.total then
      Added(Retire(st, id, RecvWindow.Completed), [Delivery(id, a.data, a.lease)],
            [CreditLedger.ShrinkOp(a.lease, |a.data|)])
    else Added(st.(pending := st.pending[id := a]), [], [])
  }

  function Enter(st: Store, id: U64, a: Assembly): Store {
    st.(pending := st.pending[id := a], order := st.order + [id], window := st.window.Admit(id))
  }

  function AddOne(st: Store, limits: Limits, now: int, f: Fragment, lease: Handle): Added
    requires f.End() <= f.total
  {
    match PlanFor(st, limits, now, f)
    case Elapsed => Added(ExpireOne(st, f.id), [], [CreditLedger.ReleaseOp(st.pending[f.id].lease)])
    case Insert(at) => Grow(st, f.id, Written(st.pending[f.id], f, at))
    case Admit =>
      var a := Fresh(f.total, now, lease);
      Grow(Enter(st, f.id, a), f.id, Written(a, f, 0))
    case _ => Added(st, [], [])
  }

  // ---------------------------------------------------------------------------
  // What one fragment keeps

  // Finishing an original leaves every other ID's answer alone.
  lemma FinishFrame(h: RecvWindow.History, id: nat, outcome: RecvWindow.Status)
    requires h.Valid() && id <= h.highest
    ensures h.Finish(id, outcome).Valid() && h.Finish(id, outcome).highest == h.highest
    ensures forall x: nat :: x != id ==> h.Finish(id, outcome).State(x) == h.State(x)
  {
    var next := h.Finish(id, outcome);
    assert next.completed + next.expired <= h.completed + h.expired + {id};
  }

  // Admitting an ID forgets what falls below the new floor and nothing else.
  lemma AdmitFrame(h: RecvWindow.History, id: nat)
    requires h.Valid() && h.State(id) == RecvWindow.Unseen
    ensures var next := h.Admit(id);
      && next.Valid() && next.span == h.span && next.closed == h.closed
      && next.highest == (if id > h.highest then id else h.highest) && next.Floor() <= id
      && (id <= h.highest ==> next == h)
      && forall x: nat :: next.State(x) == if 0 < x < next.Floor() then RecvWindow.Retired else h.State(x)
  {
    RecvWindow.StepIsFinal(h, RecvWindow.AdmitStep(id), id);
  }

  // What the store knows about one pending original after the window moved on.
  lemma StillPending(st: Store, next: Store, limits: Limits, clock: int, now: int, id: U64)
    requires id in st.pending && PendingOk(st, limits, clock, id) && clock <= now
    requires id in next.pending && next.pending[id] == st.pending[id] && next.window.highest >= st.window.highest
    requires next.window.State(id) == st.window.State(id) || next.window.State(id) == RecvWindow.Retired
    ensures PendingOk(next, limits, now, id)
  {
  }

  lemma LaterOk(st: Store, limits: Limits, clock: int, now: int)
    requires StoreOk(st, limits, clock) && clock <= now
    ensures StoreOk(st, limits, now)
  {
    forall id | id in st.pending
      ensures PendingOk(st, limits, now, id)
    {
      StillPending(st, st, limits, clock, now, id);
    }
  }

  lemma RetireOk(st: Store, limits: Limits, clock: int, id: U64, outcome: RecvWindow.Status)
    requires StoreOk(st, limits, clock) && id in st.pending
    ensures StoreOk(Retire(st, id, outcome), limits, clock)
  {
    assert PendingOk(st, limits, clock, id);
    DropOk(st, limits, clock, id);
    FinishFrame(st.window, id, outcome);
    hide RecvWindow.History.Finish, RecvWindow.History.State, DropOne;
    WindowMovedOk(DropOne(st, id), limits, clock, st.window.Finish(id, outcome));
  }

  // The store without one pending original, its window as it was.
  function DropOne(st: Store, id: U64): Store
    requires id in st.order
  {
    st.(pending := st.pending - {id}, order := Without(st.order, id))
  }

  lemma DropOk(st: Store, limits: Limits, clock: int, id: U64)
    requires StoreOk(st, limits, clock) && id in st.order
    ensures StoreOk(DropOne(st, id), limits, clock)
  {
    hide AssemblyOk, Sorted, Without, RecvWindow.History.State;
    WithoutKeeps(st.order, id);
    SortedWithout(st.pending, st.order, id);
    forall x | x in st.pending - {id}
      ensures PendingOk(DropOne(st, id), limits, clock, x)
    {
      assert PendingOk(st, limits, clock, x);
    }
  }

  // The window may move on under the pending originals.
  lemma WindowMovedOk(st: Store, limits: Limits, clock: int, w: RecvWindow.History)
    requires StoreOk(st, limits, clock)
    requires w.Valid() && !w.closed && w.span == st.window.span && w.highest >= st.window.highest
    requires forall x :: x in st.pending ==> w.State(x) == st.window.State(x) || w.State(x) == RecvWindow.Retired
    ensures StoreOk(st.(window := w), limits, clock)
  {
    hide AssemblyOk, Sorted, Distinct, RecvWindow.History.State;
    forall x | x in st.pending
      ensures PendingOk(st.(window := w), limits, clock, x)
    {
      StillPending(st, st.(window := w), limits, clock, clock, x);
    }
  }

  lemma SortedWithout(pending: map<U64, Assembly>, order: seq<U64>, id: U64)
    requires Distinct(order) && Sorted(pending, order) && id in order
    ensures Sorted(pending - {id}, Without(order, id))
  {
    WithoutKeeps(order, id);
    var i, rest := IndexOf(order, id), Without(order, id);
    hide Distinct, IndexOf, Without, Since;
    forall j, k | 0 <= j < k < |rest|
      ensures Since(pending - {id}, rest[j]) <= Since(pending - {id}, rest[k])
    {
      var a, b := if j < i then j else j + 1, if k < i then k else k + 1;
      WithoutAt(order, id, j);
      WithoutAt(order, id, k);
      SinceWithout(pending, id, rest[j]);
      SinceWithout(pending, id, rest[k]);
      assert Since(pending, order[a]) <= Since(pending, order[b]);
    }
  }

  lemma SinceWithout(pending: map<U64, Assembly>, id: U64, x: U64)
    requires x != id
    ensures Since(pending - {id}, x) == Since(pending, x)
  {
  }

  // A pending original is replaced by a longer, still incomplete one.
  lemma ReplaceOk(st: Store, limits: Limits, clock: int, id: U64, a: Assembly)
    requires StoreOk(st, limits, clock) && id in st.pending
    requires AssemblyOk(a, limits) && a.admitted == st.pending[id].admitted
    ensures StoreOk(st.(pending := st.pending[id := a]), limits, clock)
  {
    hide AssemblyOk, Distinct;
    var next := st.(pending := st.pending[id := a]);
    assert forall x :: Since(next.pending, x) == Since(st.pending, x);
    forall x | x in next.pending
      ensures PendingOk(next, limits, clock, x)
    {
      assert PendingOk(st, limits, clock, x);
    }
  }

  // A first fragment enters its original at the end of the list.
  lemma EnterOk(st: Store, limits: Limits, now: int, id: U64, a: Assembly)
    requires StoreOk(st, limits, now) && id != 0 && id !in st.pending
    requires st.window.State(id) == RecvWindow.Unseen && AssemblyOk(a, limits) && a.admitted == now
    ensures StoreOk(Enter(st, id, a), limits, now)
  {
    AdmitFrame(st.window, id);
    hide AssemblyOk;
    var next := Enter(st, id, a);
    forall x | x in next.pending
      ensures PendingOk(next, limits, now, x) && Since(next.pending, x) <= now
    {
      if x != id {
        StillPending(st, next, limits, now, now, x);
      }
    }
    forall j, k | 0 <= j < k < |next.order|
      ensures Since(next.pending, next.order[j]) <= Since(next.pending, next.order[k])
    {
      assert st.order[j] in st.order && st.order[j] in next.pending;
      assert k < |st.order| ==> st.order[k] in st.order;
    }
  }

  // A first fragment that is the whole original only leaves its outcome behind.
  lemma EnterAndRetire(st: Store, limits: Limits, now: int, id: U64, a: Assembly)
    requires StoreOk(st, limits, now) && id != 0 && id !in st.pending && st.window.State(id) == RecvWindow.Unseen
    ensures var next := Retire(Enter(st, id, a), id, RecvWindow.Completed);
      && next == st.(window := st.window.Admit(id).Finish(id, RecvWindow.Completed))
      && StoreOk(next, limits, now)
  {
    AdmitFrame(st.window, id);
    FinishFrame(st.window.Admit(id), id, RecvWindow.Completed);
    hide RecvWindow.History.Finish, RecvWindow.History.State, RecvWindow.History.Admit;
    WindowMovedOk(st, limits, now, st.window.Admit(id).Finish(id, RecvWindow.Completed));
    assert st.pending[id := a] - {id} == st.pending;
    WithoutLast(st.order, id);
  }

  lemma WithoutLast(order: seq<U64>, id: U64)
    requires id !in order
    ensures Without(order + [id], id) == order
  {
  }

  /** One fragment keeps the store well formed. */
  lemma AddOneOk(st: Store, limits: Limits, now: int, f: Fragment, lease: Handle)
    requires limits.InBounds() && StoreOk(st, limits, now) && Acceptable(f, limits, 0)
    ensures StoreOk(AddOne(st, limits, now, f, lease).store, limits, now)
  {
    hide StoreOk, AssemblyOk, Retire, Enter, Written;
    match PlanFor(st, limits, now, f)
    case Elapsed =>
      RetireOk(st, limits, now, f.id, RecvWindow.Expired);
    case Insert(at) => InsertOk(st, limits, now, f);
    case Admit =>
      FreshWritten(f, limits, now, lease);
      var b := Written(Fresh(f.total, now, lease), f, 0);
      if b.received == b.total {
        AdmitCompletes(st, limits, now, f, lease);
      } else {
        AdmitStays(st, limits, now, f, lease);
      }
    case _ =>
  }

  lemma InsertOk(st: Store, limits: Limits, now: int, f: Fragment)
    requires StoreOk(st, limits, now) && Acceptable(f, limits, 0) && PlanFor(st, limits, now, f).Insert?
    ensures StoreOk(Grow(st, f.id, Written(st.pending[f.id], f, PlanFor(st, limits, now, f).at)).store, limits, now)
  {
    assert PendingOk(st, limits, now, f.id);
    WrittenOk(st.pending[f.id], f, limits);
    var b := Written(st.pending[f.id], f, PlanFor(st, limits, now, f).at);
    assert b.total == st.pending[f.id].total && b.admitted == st.pending[f.id].admitted;
    hide StoreOk, Written, Retire;
    if b.received == b.total {
      InOrderList(st, limits, now);
      RetireOk(st, limits, now, f.id, RecvWindow.Completed);
    } else {
      ReplaceOk(st, limits, now, f.id, b);
    }
  }

  lemma InOrderList(st: Store, limits: Limits, now: int)
    requires StoreOk(st, limits, now)
    ensures forall id :: id in st.order <==> id in st.pending
  {
  }

  lemma FreshWritten(f: Fragment, limits: Limits, now: int, lease: Handle)
    requires limits.InBounds() && Acceptable(f, limits, 0)
    ensures var b := Written(Fresh(f.total, now, lease), f, 0);
      && b.ranges == [Range(f)] && b.total == f.total && b.admitted == now && b.lease == lease
      && b.received == |f.payload|
      && (b.received == b.total ==> f.offset == 0 && b.data == f.payload)
      && (b.received != b.total ==> AssemblyOk(b, limits))
  {
    assert Covered([Range(f)]) == |f.payload| by {
      assert [Range(f)][..0] == [];
    }
  }

  lemma AdmitCompletes(st: Store, limits: Limits, now: int, f: Fragment, lease: Handle)
    requires limits.InBounds() && StoreOk(st, limits, now) && Acceptable(f, limits, 0)
    requires f.id !in st.pending && st.window.State(f.id) == RecvWindow.Unseen && |f.payload| == f.total
    ensures var a := Fresh(f.total, now, lease);
      StoreOk(Grow(Enter(st, f.id, a), f.id, Written(a, f, 0)).store, limits, now)
  {
    FreshWritten(f, limits, now, lease);
    hide StoreOk, Written, AssemblyOk;
    EnterAndRetire(st, limits, now, f.id, Fresh(f.total, now, lease));
  }

  lemma AdmitStays(st: Store, limits: Limits, now: int, f: Fragment, lease: Handle)
    requires limits.InBounds() && StoreOk(st, limits, now) && Acceptable(f, limits, 0)
    requires f.id !in st.pending && st.window.State(f.id) == RecvWindow.Unseen && |f.payload| != f.total
    ensures var a := Fresh(f.total, now, lease);
      StoreOk(Grow(Enter(st, f.id, a), f.id, Written(a, f, 0)).store, limits, now)
  {
    FreshWritten(f, limits, now, lease);
    var a := Fresh(f.total, now, lease);
    var b := Written(a, f, 0);
    hide StoreOk, Written, AssemblyOk;
    EnterOk(st, limits, now, f.id, b);
    assert st.pending[f.id := a][f.id := b] == st.pending[f.id := b];
  }

  // Nothing above ID x looks different to a later fragment.
  ghost predicate SameAbove(st: Store, next: Store, x: int) {
    forall id: U64 :: id > x ==> SameAt(st, next, id)
  }

  ghost predicate SameAt(st: Store, next: Store, id: U64) {
    && (id in st.pending <==> id in next.pending) && (id in st.pending ==> st.pending[id] == next.pending[id])
    && (st.window.State(id) == RecvWindow.Unseen <==> next.window.State(id) == RecvWindow.Unseen)
  }

  lemma RetireFrame(st: Store, limits: Limits, now: int, id: U64, outcome: RecvWindow.Status)
    requires StoreOk(st, limits, now) && id in st.pending
    ensures SameAbove(st, Retire(st, id, outcome), id)
  {
    hide AssemblyOk, Sorted, Distinct, Without, RecvWindow.History.Finish, RecvWindow.History.State;
    assert PendingOk(st, limits, now, id);
    FinishFrame(st.window, id, outcome);
    forall x: U64 | x > id
      ensures SameAt(st, Retire(st, id, outcome), x)
    {
    }
  }

  lemma AddOneFrame(st: Store, limits: Limits, now: int, f: Fragment, lease: Handle)
    requires limits.InBounds() && StoreOk(st, limits, now) && Acceptable(f, limits, 0)
    ensures SameAbove(st, AddOne(st, limits, now, f, lease).store, f.id)
  {
    assert SameAbove(st, st, f.id);
    assert st.window.Valid();
    hide StoreOk, Written, Grow, Retire, Enter, SameAbove;
    match PlanFor(st, limits, now, f)
    case Elapsed => RetireFrame(st, limits, now, f.id, RecvWindow.Expired);
    case Insert(at) => GrowFrame(st, limits, now, f.id, Written(st.pending[f.id], f, at));
    case Admit => EnterFrame(st, f.id, Fresh(f.total, now, lease), Written(Fresh(f.total, now, lease), f, 0));
    case _ =>
  }

  lemma GrowFrame(st: Store, limits: Limits, now: int, id: U64, b: Assembly)
    requires StoreOk(st, limits, now) && id in st.pending
    ensures SameAbove(st, Grow(st, id, b).store, id)
  {
    RetireFrame(st, limits, now, id, RecvWindow.Completed);
    hide StoreOk, Retire;
  }

  lemma EnterFrame(st: Store, id: U64, a: Assembly, b: Assembly)
    requires st.window.Valid() && id !in st.pending && st.window.State(id) == RecvWindow.Unseen
    ensures SameAbove(st, Grow(Enter(st, id, a), id, b).store, id)
  {
    hide RecvWindow.History.Finish, RecvWindow.History.State, RecvWindow.History.Admit, Without;
    AdmitFrame(st.window, id);
    FinishFrame(st.window.Admit(id), id, RecvWindow.Completed);
  }

  // ---------------------------------------------------------------------------
  // A whole group

  // Go's plan array, of which every entry was filled from the same store.
  function Plans(st: Store, limits: Limits, now: int, fs: seq<Fragment>): (plans: seq<Plan>)
    requires forall i :: 0 <= i < |fs| ==> fs[i].End() <= fs[i].total
    ensures |plans| == |fs|
  {
    seq(|fs|, i requires 0 <= i < |fs| => PlanFor(st, limits, now, fs[i]))
  }

  // The fragments added one by one.
  function AddTo(
    st: Store, limits: Limits, now: int, fs: seq<Fragment>, leases: seq<Handle>, n: nat): Added
    requires n <= |fs| <= |leases| && forall i :: 0 <= i < |fs| ==> fs[i].End() <= fs[i].total
  {
    if n == 0 then Added(st, [], [])
    else
      var before := AddTo(st, limits, now, fs, leases, n - 1);
      var after := AddOne(before.store, limits, now, fs[n - 1], leases[n - 1]);
      Added(after.store, before.delivered + after.delivered, before.ops + after.ops)
  }

  lemma {:induction false} Ascending(fs: seq<Fragment>, limits: Limits, i: nat, j: nat)
    requires AcceptableGroup(fs, limits) && i <= j < |fs|
    ensures fs[i].id <= fs[j].id && (i < j ==> fs[i].id < fs[j].id) && Acceptable(fs[j], limits, 0)
    decreases j
  {
    assert AcceptableAt(fs, limits, j);
    if i < j {
      Ascending(fs, limits, i, j - 1);
    }
  }

  lemma {:induction false} AddToOk(
    st: Store, limits: Limits, now: int, fs: seq<Fragment>, leases: seq<Handle>, n: nat)
    requires limits.InBounds() && StoreOk(st, limits, now) && n <= |fs| <= |leases|
    requires AcceptableGroup(fs, limits) && forall i :: 0 <= i < |fs| ==> fs[i].End() <= fs[i].total
    ensures StoreOk(AddTo(st, limits, now, fs, leases, n).store, limits, now)
    ensures n > 0 ==> SameAbove(st, AddTo(st, limits, now, fs, leases, n).store, fs[n - 1].id)
  {
    hide StoreOk, AddOne, SameAt, AcceptableGroup, Acceptable;
    if n > 0 {
      var before := AddTo(st, limits, now, fs, leases, n - 1).store;
      AddToOk(st, limits, now, fs, leases, n - 1);
      Ascending(fs, limits, n - 1, n - 1);
      AddOneOk(before, limits, now, fs[n - 1], leases[n - 1]);
      AddOneFrame(before, limits, now, fs[n - 1], leases[n - 1]);
      if n > 1 {
        Ascending(fs, limits, n - 2, n - 1);
        SameAboveTwice(st, before, AddTo(st, limits, now, fs, leases, n).store, fs[n - 2].id, fs[n - 1].id);
      }
    }
  }

  lemma SameAboveTwice(a: Store, b: Store, c: Store, x: int, y: int)
    requires x <= y && SameAbove(a, b, x) && SameAbove(b, c, y)
    ensures SameAbove(a, c, y)
  {
    hide RecvWindow.History.State;
    forall id: U64 | id > y
      ensures SameAt(a, c, id)
    {
      assert SameAt(a, b, id) && SameAt(b, c, id);
    }
  }

  /** Planning the whole group before changing anything decides about each
      fragment exactly what adding the fragments one by one would decide. In
      particular an original admitted during the commit is still unseen then. */
  lemma PlanIsStable(
    st: Store, limits: Limits, now: int, fs: seq<Fragment>, leases: seq<Handle>, n: nat)
    requires limits.InBounds() && StoreOk(st, limits, now) && n < |fs| <= |leases|
    requires AcceptableGroup(fs, limits) && forall i :: 0 <= i < |fs| ==> fs[i].End() <= fs[i].total
    ensures PlanFor(AddTo(st, limits, now, fs, leases, n).store, limits, now, fs[n]) == PlanFor(st, limits, now, fs[n])
  {
    hide StoreOk, AddOne, AcceptableGroup, Acceptable, RecvWindow.History.State;
    if n > 0 {
      AddToOk(st, limits, now, fs, leases, n);
      Ascending(fs, limits, n - 1, n);
      assert SameAt(st, AddTo(st, limits, now, fs, leases, n).store, fs[n].id);
    }
  }

  // The originals that will be pending once n planned fragments are in, counting
  // a new one even when it completes at once.
  function CountTo(st: Store, limits: Limits, now: int, fs: seq<Fragment>, n: nat): int
    requires n <= |fs| && forall i :: 0 <= i < |fs| ==> fs[i].End() <= fs[i].total
  {
    if n == 0 then |st.pending|
    else
      CountTo(st, limits, now, fs, n - 1)
      + match PlanFor(st, limits, now, fs[n - 1])
        case Elapsed => -1
        case Admit => 1
        case _ => 0
  }

  lemma AddOneCount(st: Store, limits: Limits, now: int, f: Fragment, lease: Handle)
    requires f.End() <= f.total
    ensures var next := AddOne(st, limits, now, f, lease).store;
      match PlanFor(st, limits, now, f)
      case Elapsed => |next.pending| == |st.pending| - 1
      case Admit => |next.pending| <= |st.pending| + 1
      case _ => |next.pending| <= |st.pending|
  {
    hide Written, Inspect, Due, Grow, Without, RecvWindow.History.State, RecvWindow.History.Finish;
    match PlanFor(st, limits, now, f)
    case Elapsed => assert |st.pending - {f.id}| == |st.pending| - 1;
    case Insert(at) => GrowCount(st, f.id, Written(st.pending[f.id], f, at));
    case Admit =>
      var a := Fresh(f.total, now, lease);
      GrowCount(Enter(st, f.id, a), f.id, Written(a, f, 0));
    case _ =>
  }

  lemma GrowCount(st: Store, id: U64, a: Assembly)
    requires id in st.pending
    ensures |Grow(st, id, a).store.pending| <= |st.pending|
  {
    assert |st.pending - {id}| == |st.pending| - 1;
    assert st.pending[id := a].Keys == st.pending.Keys;
  }

  lemma {:induction false} CountBounds(
    st: Store, limits: Limits, now: int, fs: seq<Fragment>, leases: seq<Handle>, n: nat)
    requires limits.InBounds() && StoreOk(st, limits, now) && n <= |fs| <= |leases|
    requires AcceptableGroup(fs, limits) && forall i :: 0 <= i < |fs| ==> fs[i].End() <= fs[i].total
    ensures |AddTo(st, limits, now, fs, leases, n).store.pending| <= CountTo(st, limits, now, fs, n)
  {
    hide StoreOk, AddOne, AcceptableGroup, PlanFor;
    if n > 0 {
      CountBounds(st, limits, now, fs, leases, n - 1);
      PlanIsStable(st, limits, now, fs, leases, n - 1);
      AddOneCount(AddTo(st, limits, now, fs, leases, n - 1).store, limits, now, fs[n - 1], leases[n - 1]);
    }
  }

  // The first error of the planning loop.
  function PlanErr(st: Store, limits: Limits, now: int, fs: seq<Fragment>, n: nat): ReceiveErr
    requires n <= |fs| && forall i :: 0 <= i < |fs| ==> fs[i].End() <= fs[i].total
  {
    if n == 0 then NoErr
    else if PlanErr(st, limits, now, fs, n - 1) != NoErr then PlanErr(st, limits, now, fs, n - 1)
    else
      match PlanFor(st, limits, now, fs[n - 1])
      case Fail(err) => err
      case _ => NoErr
  }

  lemma {:induction false} FirstErrStays(st: Store, limits: Limits, now: int, fs: seq<Fragment>, i: nat, n: nat)
    requires i <= n <= |fs| && forall k :: 0 <= k < |fs| ==> fs[k].End() <= fs[k].total
    requires PlanErr(st, limits, now, fs, i) != NoErr
    ensures PlanErr(st, limits, now, fs, n) == PlanErr(st, limits, now, fs, i)
    decreases n
  {
    if i < n {
      FirstErrStays(st, limits, now, fs, i, n - 1);
    }
  }

  // ---------------------------------------------------------------------------
  // Delivery and expiry

  ghost predicate Whole(a: Assembly) {
    forall k :: 0 <= k < a.total ==> InRanges(a.ranges, k)
  }

  /** A fragment delivers its original exactly when it fills the last gap. */
  lemma DeliversWhenWhole(st: Store, limits: Limits, now: int, f: Fragment, lease: Handle)
    requires limits.InBounds() && StoreOk(st, limits, now) && Acceptable(f, limits, 0)
    ensures var r := AddOne(st, limits, now, f, lease);
      match PlanFor(st, limits, now, f)
      case Insert(at) =>
        var b := Written(st.pending[f.id], f, at);
        && (Whole(b) <==> r.delivered == [Delivery(f.id, b.data, b.lease)])
        && (!Whole(b) <==> r.delivered == [])
      case Admit =>
        && (|f.payload| == f.total <==> r.delivered == [Delivery(f.id, f.payload, lease)])
        && (|f.payload| < f.total <==> r.delivered == [])
      case _ => r.delivered == []
  {
    match PlanFor(st, limits, now, f)
    case Insert(at) =>
      assert PendingOk(st, limits, now, f.id);
      WrittenOk(st.pending[f.id], f, limits);
      var b := Written(st.pending[f.id], f, at);
      FullIffNothingMissing(b.ranges, b.total);
      hide StoreOk, Written, Without, AssemblyOk, Inspect;
    case Admit =>
      FreshWritten(f, limits, now, lease);
      hide StoreOk, Written, Without, AssemblyOk, Inspect;
    case _ =>
  }

  // Terminal and gone: no fragment of it can ever be admitted again.
  predicate Delivered(st: Store, id: U64) {
    id !in st.pending && st.window.State(id) in {RecvWindow.Completed, RecvWindow.Retired}
  }

  /** A delivered original has its terminal outcome and is no longer pending. */
  lemma DeliveryIsTerminal(st: Store, limits: Limits, now: int, f: Fragment, lease: Handle)
    requires limits.InBounds() && StoreOk(st, limits, now) && Acceptable(f, limits, 0)
    ensures forall d :: d in AddOne(st, limits, now, f, lease).delivered ==>
      d.id == f.id && Delivered(AddOne(st, limits, now, f, lease).store, f.id)
  {
    hide Written, Without, AssemblyOk, Inspect, Sorted, Distinct;
    match PlanFor(st, limits, now, f)
    case Insert(at) => assert PendingOk(st, limits, now, f.id);
    case Admit => AdmitFrame(st.window, f.id);
    case _ =>
  }

  // How many originals at the front of the list have run out of time.
  function DueCount(st: Store, limits: Limits, now: int, from: nat): (n: nat)
    requires from <= |st.order| && forall id :: id in st.order ==> id in st.pending
    ensures from <= n <= |st.order|
    ensures forall k :: from <= k < n ==> Due(st.pending[st.order[k]], limits, now)
    ensures n < |st.order| ==> !Due(st.pending[st.order[n]], limits, now)
    decreases |st.order| - from
  {
    if from == |st.order| || !Due(st.pending[st.order[from]], limits, now) then from
    else DueCount(st, limits, now, from + 1)
  }

  function ExpireAll(st: Store, ids: seq<U64>): Store {
    if ids == [] then st else ExpireOne(ExpireAll(st, ids[..|ids| - 1]), ids[|ids| - 1])
  }

  // Expiring from the front leaves exactly the rest of the list.
  lemma {:induction false} ExpireFront(st: Store, limits: Limits, now: int, n: nat)
    requires StoreOk(st, limits, now) && n <= |st.order|
    ensures var next := ExpireAll(st, st.order[..n]);
      && StoreOk(next, limits, now) && next.order == st.order[n..]
      && (forall id :: id in next.pending <==> id in st.order[n..])
      && (forall id :: id in next.pending ==> id in st.pending && next.pending[id] == st.pending[id])
      && next.window.highest == st.window.highest
    decreases n
  {
    hide AssemblyOk, Sorted, ExpireOne, RecvWindow.History.State;
    assert st.order[..0] == [] && st.order[0..] == st.order;
    if n > 0 {
      ExpireFront(st, limits, now, n - 1);
      var before, id := ExpireAll(st, st.order[..n - 1]), st.order[n - 1];
      assert st.order[..n][..n - 1] == st.order[..n - 1];
      assert before.order[0] == id;
      ExpireHead(before, limits, now);
      assert before.order[1..] == st.order[n..];
    }
  }

  lemma ExpireNone(st: Store)
    ensures ExpireAll(st, st.order[..0]) == st && st.order[0..] == st.order
  {
  }

  lemma ExpireSnoc(st: Store, ids: seq<U64>, id: U64)
    ensures ExpireAll(st, ids + [id]) == ExpireOne(ExpireAll(st, ids), id)
  {
    hide ExpireOne;
    assert (ids + [id])[..|ids|] == ids;
  }

  lemma DueCountStep(st: Store, limits: Limits, now: int, n: nat)
    requires n <= |st.order| && forall id :: id in st.order ==> id in st.pending
    ensures n < |st.order| && Due(st.pending[st.order[n]], limits, now) ==>
      DueCount(st, limits, now, n) == DueCount(st, limits, now, n + 1)
    ensures n == |st.order| || !Due(st.pending[st.order[n]], limits, now) ==> DueCount(st, limits, now, n) == n
  {
  }

  lemma ExpireHead(st: Store, limits: Limits, now: int)
    requires StoreOk(st, limits, now) && st.order != []
    ensures var next := ExpireOne(st, st.order[0]);
      && StoreOk(next, limits, now) && next.order == st.order[1..] && next.pending == st.pending - {st.order[0]}
      && (forall id :: id in next.pending <==> id in next.order)
      && next.window.highest == st.window.highest
  {
    RetireOk(st, limits, now, st.order[0], RecvWindow.Expired);
    hide AssemblyOk, Sorted, RecvWindow.History.State, Distinct;
  }

  lemma ElapsedAreInFront(st: Store, limits: Limits, now: int, id: U64)
    requires StoreOk(st, limits, now) && id in st.pending
    ensures var n := DueCount(st, limits, now, 0);
      && (id in st.order[..n] <==> Due(st.pending[id], limits, now))
      && (id in st.order[n..] <==> !Due(st.pending[id], limits, now))
  {
    var n, k := DueCount(st, limits, now, 0), IndexOf(st.order, id);
    FrontOrBack(st.order, n, id);
    if k >= n {
      LaterNotDue(st, limits, now, n, k);
    }
  }

  /** The list is in order of admission, so expiring from its head until one
      original still has time retires exactly the elapsed ones. */
  lemma ExpiresExactlyTheElapsed(st: Store, limits: Limits, now: int)
    requires StoreOk(st, limits, now)
    ensures var n := DueCount(st, limits, now, 0);
      var next := ExpireAll(st, st.order[..n]);
      && StoreOk(next, limits, now)
      && (forall id :: id in st.pending ==> (id in st.order[..n] <==> Due(st.pending[id], limits, now)))
      && (forall id :: id in next.pending <==> id in st.pending && !Due(st.pending[id], limits, now))
      && (forall id :: id in next.pending ==> next.pending[id] == st.pending[id])
  {
    var n := DueCount(st, limits, now, 0);
    ExpireFront(st, limits, now, n);
    forall id | id in st.pending
      ensures id in st.order[..n] <==> Due(st.pending[id], limits, now)
      ensures id in st.order[n..] <==> !Due(st.pending[id], limits, now)
    {
      ElapsedAreInFront(st, limits, now, id);
    }
    assert forall id :: id in st.order[n..] ==> id in st.order;
    hide StoreOk, ExpireAll, Due, DueCount;
  }

  lemma FrontOrBack(order: seq<U64>, n: nat, id: U64)
    requires Distinct(order) && n <= |order| && id in order
    ensures id in order[..n] <==> IndexOf(order, id) < n
    ensures id in order[n..] <==> IndexOf(order, id) >= n
  {
    var k := IndexOf(order, id);
    if k < n {
      assert order[..n][k] == id;
    } else {
      assert order[n..][k - n] == id;
    }
  }

  lemma LaterNotDue(st: Store, limits: Limits, now: int, n: nat, k: nat)
    requires n <= k < |st.order| && Sorted(st.pending, st.order)
    requires forall id :: id in st.order ==> id in st.pending
    requires !Due(st.pending[st.order[n]], limits, now)
    ensures !Due(st.pending[st.order[k]], limits, now)
  {
    assert Since(st.pending, st.order[n]) <= Since(st.pending, st.order[k]);
  }

  // ---------------------------------------------------------------------------
  // What becomes of every fragment of a group

  // The time of a pending original is over.
  predicate Over(a: Assembly, limits: Limits, now: int) {
    now >= a.admitted + limits.timeout
  }

  predicate Within(f: Fragment, k: int) {
    f.offset <= k < f.End()
  }

  ghost predicate Touches(a: Assembly, f: Fragment) {
    exists k :: Within(f, k) && InRanges(a.ranges, k)
  }

  lemma AtTouches(a: Assembly, f: Fragment, i: nat, k: int)
    requires i < |a.ranges| && Holds(a.ranges[i], k) && Within(f, k)
    ensures Touches(a, f)
  {
    assert InRanges(a.ranges, k);
  }

  // The recorded range that equals the fragment's is where the search ends.
  lemma RecordedAt(a: Assembly, f: Fragment, limits: Limits, i: nat)
    requires AssemblyOk(a, limits) && FitsIn(f, a) && f.payload != [] && i < |a.ranges| && a.ranges[i] == Range(f)
    ensures Position(a.ranges, f.offset) == i
  {
    var at := Position(a.ranges, f.offset);
    PositionSplits(a.ranges, a.total, f.offset);
    assert at < i ==> InOrder(a.ranges[at], a.ranges[i]);
  }

  // A recorded byte of the fragment lies in a range next to where the search ends.
  lemma TouchedNear(a: Assembly, f: Fragment, limits: Limits, i: nat, k: int)
    requires AssemblyOk(a, limits) && FitsIn(f, a) && i < |a.ranges| && Holds(a.ranges[i], k) && Within(f, k)
    ensures var at := Position(a.ranges, f.offset);
      (at > 0 && a.ranges[at - 1].end > f.offset) || (at < |a.ranges| && a.ranges[at].start < f.End())
  {
    var at := Position(a.ranges, f.offset);
    PositionSplits(a.ranges, a.total, f.offset);
    assert i < at - 1 ==> InOrder(a.ranges[i], a.ranges[at - 1]);
    assert at < i ==> InOrder(a.ranges[at], a.ranges[i]);
  }

  /** The search among the ranges tells exactly whether the fragment is new, the
      repetition of a recorded range with the same or with other bytes, or anything
      else that shares a byte with what is recorded. */
  lemma InspectMeans(a: Assembly, f: Fragment, limits: Limits)
    requires AssemblyOk(a, limits) && FitsIn(f, a) && f.payload != []
    ensures Inspect(a, f).Fits? <==> !Touches(a, f)
    ensures Inspect(a, f) == Repeats <==> Range(f) in a.ranges && a.data[f.offset..f.End()] == f.payload
    ensures Inspect(a, f) == Contradicts <==> Range(f) in a.ranges && a.data[f.offset..f.End()] != f.payload
    ensures Inspect(a, f) == Overlaps <==> Range(f) !in a.ranges && Touches(a, f)
  {
    var at := Position(a.ranges, f.offset);
    PositionSplits(a.ranges, a.total, f.offset);
    if Range(f) in a.ranges {
      var i :| 0 <= i < |a.ranges| && a.ranges[i] == Range(f);
      RecordedAt(a, f, limits, i);
      AtTouches(a, f, i, f.offset);
    } else if Touches(a, f) {
      var k :| Within(f, k) && InRanges(a.ranges, k);
      var i :| 0 <= i < |a.ranges| && Holds(a.ranges[i], k);
      TouchedNear(a, f, limits, i, k);
    } else if at > 0 && a.ranges[at - 1].end > f.offset {
      AtTouches(a, f, at - 1, f.offset);
    } else if at < |a.ranges| && a.ranges[at].start < f.End() {
      AtTouches(a, f, at, a.ranges[at].start);
    }
  }

  // Why a fragment fails its group.
  ghost function Trouble(st: Store, limits: Limits, now: int, f: Fragment): ReceiveErr
    requires f.End() <= f.total
  {
    if f.id !in st.pending then NoErr
    else
      var a := st.pending[f.id];
      if a.total != f.total then LengthConflict
      else if Over(a, limits, now) then NoErr
      else if Range(f) in a.ranges then if a.data[f.offset..f.End()] == f.payload then NoErr else BytesConflict
      else if Touches(a, f) then RangeOverlap
      else if |a.ranges| == limits.maxFragments then Credit(CreditLedger.ResourceLimit)
      else NoErr
  }

  /** A fragment fails its group exactly when it tells another length than the pending
      original has, or bytes other than the recorded ones, or a range that overlaps
      recorded bytes, or when the original has no range left; but never once the time
      of the original is over, unless the lengths differ. */
  lemma FailsOnTrouble(st: Store, limits: Limits, clock: int, now: int, f: Fragment)
    requires StoreOk(st, limits, clock) && Acceptable(f, limits, 0)
    ensures Trouble(st, limits, now, f) ==
      if PlanFor(st, limits, now, f).Fail? then PlanFor(st, limits, now, f).err else NoErr
  {
    hide Inspect, Touches;
    if f.id in st.pending {
      var a := st.pending[f.id];
      assert PendingOk(st, limits, clock, f.id);
      if a.total == f.total {
        InspectMeans(a, f, limits);
      }
    }
  }

  // The bytes of a with those of the fragment written over them.
  predicate Patched(a: Assembly, data: seq<Byte>, f: Fragment) {
    |data| == |a.data|
    && forall k :: 0 <= k < |data| ==> data[k] == if Within(f, k) then f.payload[k - f.offset] else a.data[k]
  }

  ghost predicate Fills(a: Assembly, f: Fragment) {
    forall k :: 0 <= k < a.total ==> InRanges(a.ranges, k) || Within(f, k)
  }

  ghost predicate Longer(a: Assembly, b: Assembly, f: Fragment) {
    && b.total == a.total && b.admitted == a.admitted && b.lease == a.lease && Patched(a, b.data, f)
    && forall k :: InRanges(b.ranges, k) <==> InRanges(a.ranges, k) || Within(f, k)
  }

  predicate Silent(delivered: seq<Delivery>, id: U64) {
    forall d :: d in delivered ==> d.id != id
  }

  predicate Hands(delivered: seq<Delivery>, a: Assembly, f: Fragment) {
    && (exists d :: d in delivered && d.id == f.id)
    && forall d :: d in delivered && d.id == f.id ==> Patched(a, d.data, f) && d.lease == a.lease
  }

  // The original a takes the fragment: it is delivered when no byte is missing any
  // more, and only then, and keeps its lease for exactly its bytes.
  ghost predicate Taken(a: Assembly, next: Store, f: Fragment, delivered: seq<Delivery>, ops: seq<Op>) {
    if Fills(a, f) then
      && f.id !in next.pending && next.window.State(f.id) in {RecvWindow.Completed, RecvWindow.Retired}
      && Hands(delivered, a, f) && CreditLedger.ShrinkOp(a.lease, a.total) in ops
    else f.id in next.pending && Longer(a, next.pending[f.id], f) && Silent(delivered, f.id)
  }

  // A pending original whose time is over leaves as expired and its lease goes back;
  // otherwise it takes the fragment, unless that repeats a recorded range; an original
  // that was seen before is left alone, and any other one is new.
  ghost predicate Placed(
    st: Store, next: Store, limits: Limits, now: int, f: Fragment, lease: Handle,
    delivered: seq<Delivery>, ops: seq<Op>)
  {
    if f.id in st.pending then
      var a := st.pending[f.id];
      if Over(a, limits, now) then
        && f.id !in next.pending && next.window.State(f.id) in {RecvWindow.Expired, RecvWindow.Retired}
        && CreditLedger.ReleaseOp(a.lease) in ops && Silent(delivered, f.id)
      else if Range(f) in a.ranges then f.id in next.pending && next.pending[f.id] == a && Silent(delivered, f.id)
      else Taken(a, next, f, delivered, ops)
    else if st.window.State(f.id) != RecvWindow.Unseen then
      f.id !in next.pending && next.window.State(f.id) != RecvWindow.Unseen && Silent(delivered, f.id)
    else Taken(Assembly(f.total, now, seq(f.total, _ => 0), [], 0, lease), next, f, delivered, ops)
  }

  lemma InsertedInRanges(ranges: seq<Interval>, at: nat, x: Interval, k: int)
    requires at <= |ranges|
    ensures InRanges(Inserted(ranges, at, x), k) <==> InRanges(ranges, k) || Holds(x, k)
  {
    var next := Inserted(ranges, at, x);
    if InRanges(ranges, k) {
      var i :| 0 <= i < |ranges| && Holds(ranges[i], k);
      assert Holds(next[if i < at then i else i + 1], k);
    }
    if Holds(x, k) {
      assert Holds(next[at], k);
    }
    if InRanges(next, k) {
      var i :| 0 <= i < |next| && Holds(next[i], k);
      assert i != at ==> Holds(ranges[if i < at then i else i - 1], k);
    }
  }

  lemma WrittenIsLonger(a: Assembly, f: Fragment, at: nat)
    requires FitsIn(f, a) && at <= |a.ranges|
    ensures Longer(a, Written(a, f, at), f)
  {
    forall k
      ensures InRanges(Written(a, f, at).ranges, k) <==> InRanges(a.ranges, k) || Within(f, k)
    {
      InsertedInRanges(a.ranges, at, Range(f), k);
    }
  }

  // Finishing tells the outcome unless the window has moved past the original.
  lemma FinishTells(h: RecvWindow.History, id: nat, outcome: RecvWindow.Status)
    requires h.Valid() && !h.closed && 0 < id <= h.highest && h.State(id) in {RecvWindow.Unseen, RecvWindow.Retired}
    requires outcome in {RecvWindow.Completed, RecvWindow.Expired}
    ensures h.Finish(id, outcome).State(id) in {outcome, RecvWindow.Retired}
  {
  }

  // Growing an original by a fragment that leaves it in good order.
  lemma GrownIsTaken(st: Store, id: U64, a: Assembly, b: Assembly, f: Fragment)
    requires st.window.Valid() && !st.window.closed && 0 < id <= st.window.highest && id == f.id
    requires st.window.State(id) in {RecvWindow.Unseen, RecvWindow.Retired}
    requires Longer(a, b, f) && RangesOk(b.ranges, b.total) && b.received == Covered(b.ranges)
    ensures var r := Grow(st, id, b); Taken(a, r.store, f, r.delivered, r.ops)
  {
    hide Without, RecvWindow.History.State, RecvWindow.History.Finish, RangesOk, Covered;
    FullIffNothingMissing(b.ranges, b.total);
    FinishTells(st.window, id, RecvWindow.Completed);
    if b.received == b.total {
      assert Grow(st, id, b).delivered[0].id == id;
      assert Grow(st, id, b).ops[0] == CreditLedger.ShrinkOp(a.lease, a.total);
    }
  }

  lemma PlacedInsert(st: Store, limits: Limits, now: int, f: Fragment)
    requires StoreOk(st, limits, now) && Acceptable(f, limits, 0) && PlanFor(st, limits, now, f).Insert?
    ensures var a := st.pending[f.id];
      var r := Grow(st, f.id, Written(a, f, PlanFor(st, limits, now, f).at));
      Range(f) !in a.ranges && Taken(a, r.store, f, r.delivered, r.ops)
  {
    var a := st.pending[f.id];
    assert PendingOk(st, limits, now, f.id);
    InspectMeans(a, f, limits);
    WrittenOk(a, f, limits);
    WrittenIsLonger(a, f, PlanFor(st, limits, now, f).at);
    hide StoreOk, AssemblyOk, Written, Inspect, Taken, Longer, Touches;
    WindowOpen(st, limits, now);
    GrownIsTaken(st, f.id, a, Written(a, f, PlanFor(st, limits, now, f).at), f);
  }

  lemma WindowOpen(st: Store, limits: Limits, now: int)
    requires StoreOk(st, limits, now)
    ensures st.window.Valid() && !st.window.closed
  {
  }

  lemma PlacedAdmit(st: Store, limits: Limits, now: int, f: Fragment, lease: Handle)
    requires limits.InBounds() && StoreOk(st, limits, now) && Acceptable(f, limits, 0)
    requires f.id !in st.pending && st.window.State(f.id) == RecvWindow.Unseen
    ensures var a := Fresh(f.total, now, lease);
      var r := Grow(Enter(st, f.id, a), f.id, Written(a, f, 0));
      Taken(a, r.store, f, r.delivered, r.ops)
  {
    var a := Fresh(f.total, now, lease);
    WrittenIsLonger(a, f, 0);
    hide StoreOk, AssemblyOk, Written, Taken, Longer, Grow, RecvWindow.History.Admit;
    FreshWritten(f, limits, now, lease);
    WindowOpen(st, limits, now);
    AdmitFrame(st.window, f.id);
    var b := Written(a, f, 0);
    assert b.ranges[..0] == [];
    if f.payload == [] {
      EmptyGrownIsTaken(Enter(st, f.id, a), f, a, b);
    } else {
      GrownIsTaken(Enter(st, f.id, a), f.id, a, b, f);
    }
  }

  // An empty original is whole with its one, empty fragment.
  lemma EmptyGrownIsTaken(st: Store, f: Fragment, a: Assembly, b: Assembly)
    requires st.window.Valid() && !st.window.closed && 0 < f.id <= st.window.highest
    requires st.window.State(f.id) in {RecvWindow.Unseen, RecvWindow.Retired}
    requires Longer(a, b, f) && b.received == b.total == 0
    ensures var r := Grow(st, f.id, b); Taken(a, r.store, f, r.delivered, r.ops)
  {
    hide Without, RecvWindow.History.State, RecvWindow.History.Finish;
    FinishTells(st.window, f.id, RecvWindow.Completed);
    assert Grow(st, f.id, b).delivered[0].id == f.id;
    assert Grow(st, f.id, b).ops[0] == CreditLedger.ShrinkOp(a.lease, a.total);
  }

  lemma AddOneIsPlaced(st: Store, limits: Limits, now: int, f: Fragment, lease: Handle)
    requires limits.InBounds() && StoreOk(st, limits, now) && Acceptable(f, limits, 0)
    requires Trouble(st, limits, now, f) == NoErr
    ensures var r := AddOne(st, limits, now, f, lease);
      Placed(st, r.store, limits, now, f, lease, r.delivered, r.ops)
  {
    hide StoreOk, AssemblyOk, Written, Taken, Grow, Inspect, Enter, Touches, Trouble;
    FailsOnTrouble(st, limits, now, now, f);
    match PlanFor(st, limits, now, f)
    case Elapsed => PlacedElapsed(st, limits, now, f, lease);
    case Insert(at) => PlacedInsert(st, limits, now, f);
    case Admit => PlacedAdmit(st, limits, now, f, lease);
    case Duplicate => PlacedRepeat(st, limits, now, f);
    case Skip => assert AddOne(st, limits, now, f, lease) == Added(st, [], []);
    case Fail(_) =>
  }

  lemma PlacedRepeat(st: Store, limits: Limits, now: int, f: Fragment)
    requires StoreOk(st, limits, now) && Acceptable(f, limits, 0) && PlanFor(st, limits, now, f) == Duplicate
    ensures f.id in st.pending && !Over(st.pending[f.id], limits, now) && Range(f) in st.pending[f.id].ranges
  {
    assert PendingOk(st, limits, now, f.id);
    InspectMeans(st.pending[f.id], f, limits);
  }

  lemma PlacedElapsed(st: Store, limits: Limits, now: int, f: Fragment, lease: Handle)
    requires StoreOk(st, limits, now) && Acceptable(f, limits, 0) && PlanFor(st, limits, now, f) == Elapsed
    ensures var r := AddOne(st, limits, now, f, lease);
      Placed(st, r.store, limits, now, f, lease, r.delivered, r.ops)
  {
    hide AssemblyOk, Written, Taken, Grow, Inspect, Enter, Touches, Without, RecvWindow.History.Finish, Sorted, Distinct;
    assert PendingOk(st, limits, now, f.id);
    FinishTells(st.window, f.id, RecvWindow.Expired);
    var r := AddOne(st, limits, now, f, lease);
    assert r.ops[0] == CreditLedger.ReleaseOp(st.pending[f.id].lease);
  }

  // An original that no fragment of the group names stays as it is.
  ghost predicate Kept(st: Store, next: Store, id: U64) {
    && (id in st.pending <==> id in next.pending) && (id in st.pending ==> st.pending[id] == next.pending[id])
    && next.window.State(id) in {st.window.State(id), RecvWindow.Retired}
  }

  lemma RetireKeeps(st: Store, limits: Limits, now: int, id: U64, outcome: RecvWindow.Status, x: U64)
    requires StoreOk(st, limits, now) && id in st.pending && x != id
    ensures Kept(st, Retire(st, id, outcome), x)
  {
    hide AssemblyOk, Sorted, Distinct, Without, RecvWindow.History.Finish, RecvWindow.History.State;
    assert PendingOk(st, limits, now, id);
    FinishFrame(st.window, id, outcome);
  }

  lemma EnterKeeps(st: Store, id: U64, a: Assembly, b: Assembly, x: U64)
    requires st.window.Valid() && id !in st.pending && st.window.State(id) == RecvWindow.Unseen && x != id
    ensures Kept(st, Grow(Enter(st, id, a), id, b).store, x)
  {
    hide RecvWindow.History.Finish, RecvWindow.History.State, RecvWindow.History.Admit, Without;
    AdmitFrame(st.window, id);
    FinishFrame(st.window.Admit(id), id, RecvWindow.Completed);
  }

  lemma AddOneKeeps(st: Store, limits: Limits, now: int, f: Fragment, lease: Handle, x: U64)
    requires limits.InBounds() && StoreOk(st, limits, now) && Acceptable(f, limits, 0) && x != f.id
    ensures Kept(st, AddOne(st, limits, now, f, lease).store, x) && Silent(AddOne(st, limits, now, f, lease).delivered, x)
  {
    hide StoreOk, Written, Retire, Enter, Inspect, AssemblyOk;
    WindowOpen(st, limits, now);
    match PlanFor(st, limits, now, f)
    case Elapsed => RetireKeeps(st, limits, now, f.id, RecvWindow.Expired, x);
    case Insert(at) => RetireKeeps(st, limits, now, f.id, RecvWindow.Completed, x);
    case Admit => EnterKeeps(st, f.id, Fresh(f.total, now, lease), Written(Fresh(f.total, now, lease), f, 0), x);
    case _ =>
  }

  lemma {:induction false} AddToKeeps(
    st: Store, limits: Limits, now: int, fs: seq<Fragment>, leases: seq<Handle>, n: nat, x: U64)
    requires limits.InBounds() && StoreOk(st, limits, now) && n <= |fs| <= |leases| && AcceptableGroup(fs, limits)
    requires (forall i :: 0 <= i < |fs| ==> fs[i].End() <= fs[i].total) && forall i :: 0 <= i < n ==> fs[i].id != x
    ensures Kept(st, AddTo(st, limits, now, fs, leases, n).store, x)
    ensures Silent(AddTo(st, limits, now, fs, leases, n).delivered, x)
  {
    hide StoreOk, AddOne, AcceptableGroup, Acceptable, RecvWindow.History.State;
    if n > 0 {
      AddToKeeps(st, limits, now, fs, leases, n - 1, x);
      AddToOk(st, limits, now, fs, leases, n - 1);
      Ascending(fs, limits, n - 1, n - 1);
      AddOneKeeps(AddTo(st, limits, now, fs, leases, n - 1).store, limits, now, fs[n - 1], leases[n - 1], x);
    }
  }

  // A fragment that was placed stays so while others follow and others went before.
  lemma PlacedStays(
    st: Store, a: Store, b: Store, limits: Limits, now: int, f: Fragment, lease: Handle,
    d: seq<Delivery>, ops: seq<Op>, more: seq<Delivery>, moreOps: seq<Op>)
    requires Placed(st, a, limits, now, f, lease, d, ops) && Kept(a, b, f.id) && Silent(more, f.id)
    ensures Placed(st, b, limits, now, f, lease, d + more, ops + moreOps)
  {
    hide Fills, Longer, Patched, RecvWindow.History.State;
  }

  lemma PlacedFrom(
    st: Store, before: Store, next: Store, limits: Limits, now: int, f: Fragment, lease: Handle,
    less: seq<Delivery>, lessOps: seq<Op>, d: seq<Delivery>, ops: seq<Op>)
    requires Placed(before, next, limits, now, f, lease, d, ops) && SameAt(st, before, f.id) && Silent(less, f.id)
    ensures Placed(st, next, limits, now, f, lease, less + d, lessOps + ops)
  {
    hide Fills, Longer, Patched, RecvWindow.History.State;
  }

  // A lease matters only to a fragment that admits its original.
  lemma PlacedLease(
    st: Store, next: Store, limits: Limits, now: int, f: Fragment, x: Handle, y: Handle, d: seq<Delivery>, ops: seq<Op>)
    requires f.End() <= f.total && Placed(st, next, limits, now, f, x, d, ops) && (PlanFor(st, limits, now, f) == Admit ==> x == y)
    ensures Placed(st, next, limits, now, f, y, d, ops)
  {
    hide Taken, Inspect, RecvWindow.History.State;
  }

  /** The fragments of a group never stand in each other's way: after the whole group
      each has been placed as if it had come alone. */
  lemma {:induction false} GroupIsPlaced(
    st: Store, limits: Limits, now: int, fs: seq<Fragment>, leases: seq<Handle>, n: nat, i: nat)
    requires limits.InBounds() && StoreOk(st, limits, now) && i < n <= |fs| <= |leases| && AcceptableGroup(fs, limits)
    requires forall k :: 0 <= k < |fs| ==> fs[k].End() <= fs[k].total
    requires Trouble(st, limits, now, fs[i]) == NoErr
    ensures var r := AddTo(st, limits, now, fs, leases, n);
      Placed(st, r.store, limits, now, fs[i], leases[i], r.delivered, r.ops)
    decreases n
  {
    hide StoreOk, AddOne, AcceptableGroup, Acceptable, Placed, Kept, Silent, SameAt, Trouble;
    var before := AddTo(st, limits, now, fs, leases, n - 1);
    var r := AddOne(before.store, limits, now, fs[n - 1], leases[n - 1]);
    AddToOk(st, limits, now, fs, leases, n - 1);
    Ascending(fs, limits, n - 1, n - 1);
    Ascending(fs, limits, i, n - 1);
    if i < n - 1 {
      GroupIsPlaced(st, limits, now, fs, leases, n - 1, i);
      AddOneKeeps(before.store, limits, now, fs[n - 1], leases[n - 1], fs[i].id);
      PlacedStays(st, before.store, r.store, limits, now, fs[i], leases[i], before.delivered, before.ops, r.delivered, r.ops);
    } else {
      FirstOf(st, limits, now, fs, leases, n - 1);
      SameTrouble(st, before.store, limits, now, fs[n - 1]);
      AddOneIsPlaced(before.store, limits, now, fs[n - 1], leases[n - 1]);
      PlacedFrom(st, before.store, r.store, limits, now, fs[n - 1], leases[n - 1], before.delivered, before.ops, r.delivered, r.ops);
    }
  }

  // The fragments before the n-th have not touched its original.
  lemma FirstOf(st: Store, limits: Limits, now: int, fs: seq<Fragment>, leases: seq<Handle>, n: nat)
    requires limits.InBounds() && StoreOk(st, limits, now) && n < |fs| <= |leases| && AcceptableGroup(fs, limits)
    requires forall k :: 0 <= k < |fs| ==> fs[k].End() <= fs[k].total
    ensures SameAt(st, AddTo(st, limits, now, fs, leases, n).store, fs[n].id)
    ensures Silent(AddTo(st, limits, now, fs, leases, n).delivered, fs[n].id)
  {
    hide StoreOk, AcceptableGroup, AddTo, SameAt, Silent, RecvWindow.History.State;
    forall i | 0 <= i < n
      ensures fs[i].id != fs[n].id
    {
      Ascending(fs, limits, i, n);
    }
    AddToKeeps(st, limits, now, fs, leases, n, fs[n].id);
    AddToOk(st, limits, now, fs, leases, n);
    if n > 0 {
      Ascending(fs, limits, n - 1, n);
    } else {
      NothingAdded(st, limits, now, fs, leases);
    }
  }

  lemma NothingAdded(st: Store, limits: Limits, now: int, fs: seq<Fragment>, leases: seq<Handle>)
    requires |fs| <= |leases| && forall k :: 0 <= k < |fs| ==> fs[k].End() <= fs[k].total
    ensures AddTo(st, limits, now, fs, leases, 0).store == st && forall x :: SameAt(st, st, x)
  {
  }

  lemma SameTrouble(st: Store, before: Store, limits: Limits, now: int, f: Fragment)
    requires SameAt(st, before, f.id) && f.End() <= f.total
    ensures Trouble(before, limits, now, f) == Trouble(st, limits, now, f)
  {
    hide RecvWindow.History.State, Touches;
  }

  // ---------------------------------------------------------------------------
  // Reservations of a group

  // The leases of the originals that a planned group admits.
  function Leases(plans: seq<Plan>, grant: nat -> Handle, n: nat): (leases: seq<Handle>)
    requires n <= |plans|
    ensures |leases| == n
  {
    seq(n, i requires 0 <= i < n => if plans[i] == Admit then grant(i) else 0)
  }

  function ReserveOps(scope: Handle, limits: Limits, fs: seq<Fragment>, plans: seq<Plan>, n: nat): seq<Op>
    requires n <= |fs| == |plans|
    requires limits.InBounds() && forall i :: 0 <= i < |fs| ==> fs[i].total <= limits.maxDatagramBytes
  {
    if n == 0 then []
    else
      ReserveOps(scope, limits, fs, plans, n - 1)
      + if plans[n - 1] == Admit then [CreditLedger.ReserveOp(scope, CreditLedger.Bytes(limits.Charge(fs[n - 1].total)))] else []
  }

  function Prepaid(scope: Handle, limits: Limits, f: Fragment): Op
    requires limits.InBounds() && f.total <= limits.maxDatagramBytes
  {
    CreditLedger.ReserveOp(scope, CreditLedger.Claim(f.total + 8 * limits.maxFragments + 16, false, false))
  }

  /** The reservation behind a new original is for its payload, eight bytes for each
      range it may fall into and sixteen for its links, and nothing else is reserved. */
  lemma {:induction false} ReservationIsFor(scope: Handle, limits: Limits, fs: seq<Fragment>, plans: seq<Plan>, n: nat, k: nat)
    requires limits.InBounds() && forall i :: 0 <= i < |fs| ==> fs[i].total <= limits.maxDatagramBytes
    requires n <= |fs| == |plans| && k < |ReserveOps(scope, limits, fs, plans, n)|
    ensures exists i :: 0 <= i < n && plans[i] == Admit && ReserveOps(scope, limits, fs, plans, n)[k] == Prepaid(scope, limits, fs[i])
  {
    if k < |ReserveOps(scope, limits, fs, plans, n - 1)| {
      ReservationIsFor(scope, limits, fs, plans, n - 1, k);
    } else {
      assert plans[n - 1] == Admit;
    }
  }

  /** It is enough: what a pending original keeps is never more than was reserved for it. */
  lemma StorageIsPaid(st: Store, limits: Limits, clock: int, id: U64)
    requires StoreOk(st, limits, clock) && id in st.pending && limits.InBounds()
    ensures var a := st.pending[id]; |a.data| + 8 * |a.ranges| + 16 <= limits.Charge(a.total)
  {
    assert PendingOk(st, limits, clock, id);
  }

  function RollbackOps(plans: seq<Plan>, grant: nat -> Handle, n: nat): seq<Op>
    requires n <= |plans|
  {
    if n == 0 then []
    else RollbackOps(plans, grant, n - 1) + if plans[n - 1] == Admit then [CreditLedger.ReleaseOp(grant(n - 1))] else []
  }

  // The first fragment whose reservation the ledger refuses, or |plans|.
  function Refused(plans: seq<Plan>, answer: nat -> CreditLedger.Err, from: nat): (n: nat)
    requires from <= |plans|
    ensures from <= n <= |plans|
    ensures forall i :: from <= i < n && plans[i] == Admit ==> answer(i) == CreditLedger.Ok
    ensures n < |plans| ==> plans[n] == Admit && answer(n) != CreditLedger.Ok
    decreases |plans| - from
  {
    if from == |plans| || (plans[from] == Admit && answer(from) != CreditLedger.Ok) then from
    else Refused(plans, answer, from + 1)
  }

  // The claims behind the first n planned reservations.
  function Claims(limits: Limits, fs: seq<Fragment>, plans: seq<Plan>, n: nat): seq<CreditLedger.Claim>
    requires n <= |fs| == |plans|
    requires limits.InBounds() && forall i :: 0 <= i < |fs| ==> fs[i].total <= limits.maxDatagramBytes
  {
    if n == 0 then []
    else
      Claims(limits, fs, plans, n - 1)
      + if plans[n - 1] == Admit then [CreditLedger.Bytes(limits.Charge(fs[n - 1].total))] else []
  }

  // The replies are those of a ledger that starts at l.
  ghost predicate Answered(
    l: CreditLedger.Ledger, scope: Handle, limits: Limits, fs: seq<Fragment>, plans: seq<Plan>,
    answer: nat -> CreditLedger.Err, grant: nat -> Handle, i: nat)
    requires i < |fs| == |plans|
    requires limits.InBounds() && forall k :: 0 <= k < |fs| ==> fs[k].total <= limits.maxDatagramBytes
  {
    var now := CreditLedger.Run(l, ReserveOps(scope, limits, fs, plans, i));
    plans[i] == Admit ==>
      && answer(i) == now.ReserveErr(scope, CreditLedger.Bytes(limits.Charge(fs[i].total)))
      && grant(i) == now.next
  }

  lemma {:induction false} BatchOfGroup(
    l: CreditLedger.Ledger, scope: Handle, limits: Limits, fs: seq<Fragment>, plans: seq<Plan>,
    answer: nat -> CreditLedger.Err, grant: nat -> Handle, n: nat)
    requires n <= |fs| == |plans| && n <= Refused(plans, answer, 0) && scope in l.sessions
    requires limits.InBounds() && forall i :: 0 <= i < |fs| ==> fs[i].total <= limits.maxDatagramBytes
    requires forall i :: 0 <= i < n ==> Answered(l, scope, limits, fs, plans, answer, grant, i)
    ensures var claims := Claims(limits, fs, plans, n);
      && ReserveOps(scope, limits, fs, plans, n) == CreditLedger.Reserves(scope, claims)
      && RollbackOps(plans, grant, n) == CreditLedger.Releases(l.next, |claims|)
      && forall i :: 0 <= i < |claims| ==>
        CreditLedger.Run(l, CreditLedger.Reserves(scope, claims)[..i]).ReserveErr(scope, claims[i]) == CreditLedger.Ok
  {
    hide CreditLedger.Run, Answered, CreditLedger.Ledger.ReserveErr, Refused;
    if n > 0 {
      BatchOfGroup(l, scope, limits, fs, plans, answer, grant, n - 1);
      var before, claims := Claims(limits, fs, plans, n - 1), Claims(limits, fs, plans, n);
      if plans[n - 1] == Admit {
        var ops := CreditLedger.Reserves(scope, claims);
        assert ops[..|before|] == CreditLedger.Reserves(scope, before);
        Granted(l, scope, limits, fs, plans, answer, grant, n - 1);
        assert CreditLedger.Releases(l.next, |claims|)
          == CreditLedger.Releases(l.next, |before|) + [CreditLedger.ReleaseOp(l.next + |before|)];
        forall i | 0 <= i < |claims|
          ensures CreditLedger.Run(l, ops[..i]).ReserveErr(scope, claims[i]) == CreditLedger.Ok
        {
          if i < |before| {
            assert ops[..i] == CreditLedger.Reserves(scope, before)[..i];
          }
        }
      } else {
        assert claims == before;
      }
    }
  }

  // The handle granted next counts the reservations made so far.
  lemma Granted(
    l: CreditLedger.Ledger, scope: Handle, limits: Limits, fs: seq<Fragment>, plans: seq<Plan>,
    answer: nat -> CreditLedger.Err, grant: nat -> Handle, n: nat)
    requires n < |fs| == |plans| && n < Refused(plans, answer, 0) && scope in l.sessions && plans[n] == Admit
    requires limits.InBounds() && forall i :: 0 <= i < |fs| ==> fs[i].total <= limits.maxDatagramBytes
    requires Answered(l, scope, limits, fs, plans, answer, grant, n)
    requires var claims := Claims(limits, fs, plans, n);
      && ReserveOps(scope, limits, fs, plans, n) == CreditLedger.Reserves(scope, claims)
      && forall i :: 0 <= i < |claims| ==>
        CreditLedger.Run(l, CreditLedger.Reserves(scope, claims)[..i]).ReserveErr(scope, claims[i]) == CreditLedger.Ok
    ensures var claims := Claims(limits, fs, plans, n);
      && grant(n) == l.next + |claims|
      && CreditLedger.Run(l, CreditLedger.Reserves(scope, claims)).ReserveErr(
        scope, CreditLedger.Bytes(limits.Charge(fs[n].total))) == CreditLedger.Ok
  {
    hide CreditLedger.Ledger.ReserveErr, Claims, ReserveOps, CreditLedger.SumTo, CreditLedger.Batch;
    var claims := Claims(limits, fs, plans, n);
    CreditLedger.ReservesAre(l, scope, claims, |claims|);
    assert CreditLedger.Reserves(scope, claims)[..|claims|] == CreditLedger.Reserves(scope, claims);
  }

  /** A group that the ledger refuses leaves every credit as it was: the leases
      taken for its earlier originals are all back, only their handles are used up. */
  lemma RefusedGroupKeepsCredit(
    l: CreditLedger.Ledger, scope: Handle, limits: Limits, fs: seq<Fragment>, plans: seq<Plan>,
    answer: nat -> CreditLedger.Err, grant: nat -> Handle)
    requires |fs| == |plans| && CreditLedger.Handles(l) && scope in l.sessions
    requires limits.InBounds() && forall i :: 0 <= i < |fs| ==> fs[i].total <= limits.maxDatagramBytes
    requires forall i :: 0 <= i < |fs| ==> Answered(l, scope, limits, fs, plans, answer, grant, i)
    ensures var n := Refused(plans, answer, 0);
      CreditLedger.Run(l, ReserveOps(scope, limits, fs, plans, n) + RollbackOps(plans, grant, n))
        == l.(next := l.next + |Claims(limits, fs, plans, n)|)
  {
    hide CreditLedger.Run, Answered, CreditLedger.Ledger.ReserveErr;
    var n := Refused(plans, answer, 0);
    BatchOfGroup(l, scope, limits, fs, plans, answer, grant, n);
    CreditLedger.RollbackRestores(l, scope, Claims(limits, fs, plans, n));
  }

  // The ledger operations that hand back the leases of some pending originals.
  ghost predicate Returned(pending: map<U64, Assembly>, ids: seq<U64>, ops: seq<Op>) {
    && |ops| == |ids|
    && forall k :: 0 <= k < |ids| ==> ids[k] in pending && ops[k] == CreditLedger.ReleaseOp(pending[ids[k]].lease)
  }

  // Expire has retired the first originals of st; cur is what is left.
  ghost predicate Expiring(st: Store, cur: Store, limits: Limits, now: int, ids: seq<U64>, ops: seq<Op>) {
    && ids <= st.order && cur == ExpireAll(st, ids) && cur.order == st.order[|ids|..] && StoreOk(cur, limits, now)
    && |cur.pending| <= |st.pending| && (forall id :: id in cur.pending ==> id in st.pending && cur.pending[id] == st.pending[id])
    && Returned(st.pending, ids, ops) && StoreOk(st, limits, now)
    && DueCount(st, limits, now, |ids|) == DueCount(st, limits, now, 0)
  }

  lemma ExpiringStarts(st: Store, limits: Limits, now: int)
    requires StoreOk(st, limits, now)
    ensures Expiring(st, st, limits, now, [], [])
  {
    hide StoreOk, ExpireOne, Due;
    InOrderList(st, limits, now);
    ExpireNone(st);
  }

  lemma ExpiringStep(st: Store, cur: Store, limits: Limits, now: int, ids: seq<U64>, ops: seq<Op>)
    requires Expiring(st, cur, limits, now, ids, ops) && cur.order != [] && cur.order[0] in cur.pending
    requires Due(cur.pending[cur.order[0]], limits, now)
    ensures var id := cur.order[0];
      && Expiring(st, ExpireOne(cur, id), limits, now, ids + [id], ops + [CreditLedger.ReleaseOp(cur.pending[id].lease)])
      && |ExpireOne(cur, id).order| < |cur.order|
  {
    hide StoreOk, ExpireOne, ExpireAll, Due, DueCount, Returned;
    var n, id := |ids|, cur.order[0];
    InOrderList(st, limits, now);
    ExpireHead(cur, limits, now);
    ExpireSnoc(st, ids, id);
    DueCountStep(st, limits, now, n);
    ReturnedMore(st.pending, ids, ops, id);
    assert id == st.order[n] && cur.order[1..] == st.order[n + 1..];
  }

  lemma NoneReturned(pending: map<U64, Assembly>)
    ensures Returned(pending, [], [])
  {
  }

  lemma ReturnedMore(pending: map<U64, Assembly>, ids: seq<U64>, ops: seq<Op>, id: U64)
    requires Returned(pending, ids, ops) && id in pending
    ensures Returned(pending, ids + [id], ops + [CreditLedger.ReleaseOp(pending[id].lease)])
  {
  }

  lemma ExpiringEnds(st: Store, cur: Store, limits: Limits, now: int, ids: seq<U64>, ops: seq<Op>)
    requires Expiring(st, cur, limits, now, ids, ops)
    requires cur.order != [] ==> cur.order[0] in cur.pending && !Due(cur.pending[cur.order[0]], limits, now)
    ensures ids == st.order[..DueCount(st, limits, now, 0)] && StoreOk(cur, limits, now) && cur == ExpireAll(st, ids)
    ensures Returned(st.pending, ids, ops) && |cur.pending| <= |st.pending|
  {
    hide StoreOk, ExpireOne, ExpireAll, Due, DueCount;
    InOrderList(st, limits, now);
    DueCountStep(st, limits, now, |ids|);
  }

  lemma ExpiringHead(st: Store, cur: Store, limits: Limits, now: int, ids: seq<U64>, ops: seq<Op>)
    requires Expiring(st, cur, limits, now, ids, ops)
    ensures cur.order != [] ==> cur.order[0] in cur.pending
  {
    hide ExpireAll, DueCount;
    InOrderList(cur, limits, now);
  }

  datatype GroupResult = GroupResult(err: ReceiveErr, added: Added)

  lemma GroupIsSound(fs: seq<Fragment>, limits: Limits)
    requires AcceptableGroup(fs, limits)
    ensures forall i :: 0 <= i < |fs| ==> fs[i].End() <= fs[i].total <= limits.maxDatagramBytes
  {
    forall i | 0 <= i < |fs|
      ensures fs[i].End() <= fs[i].total <= limits.maxDatagramBytes
    {
      assert AcceptableAt(fs, limits, i);
    }
  }

  /** A canonical group is planned, reserved and then added fragment by fragment.
      Whatever fails leaves the store as it was and the leases returned. */
  function AddAll(
    st: Store, scope: Handle, limits: Limits, now: int, fs: seq<Fragment>,
    answer: nat -> CreditLedger.Err, grant: nat -> Handle): GroupResult
    requires limits.InBounds() && AcceptableGroup(fs, limits)
  {
    GroupIsSound(fs, limits);
    var plans := Plans(st, limits, now, fs);
    var n := Refused(plans, answer, 0);
    if PlanErr(st, limits, now, fs, |fs|) != NoErr then
      GroupResult(PlanErr(st, limits, now, fs, |fs|), Added(st, [], []))
    else if CountTo(st, limits, now, fs, |fs|) > limits.maxDatagrams then
      GroupResult(Credit(CreditLedger.ResourceLimit), Added(st, [], []))
    else if n < |fs| then
      GroupResult(Credit(answer(n)), Added(st, [], ReserveOps(scope, limits, fs, plans, n) + RollbackOps(plans, grant, n)))
    else
      var r := AddTo(st, limits, now, fs, Leases(plans, grant, n), n);
      GroupResult(NoErr, r.(ops := ReserveOps(scope, limits, fs, plans, n) + r.ops))
  }

  // ---------------------------------------------------------------------------
  // When a group is accepted

  ghost predicate NoTrouble(st: Store, limits: Limits, now: int, fs: seq<Fragment>, n: nat)
    requires n <= |fs| && forall i :: 0 <= i < |fs| ==> fs[i].End() <= fs[i].total
  {
    forall i :: 0 <= i < n ==> Trouble(st, limits, now, fs[i]) == NoErr
  }

  predicate IsOver(st: Store, limits: Limits, now: int, f: Fragment) {
    f.id in st.pending && Over(st.pending[f.id], limits, now)
  }

  // The first n fragments that name an original whose time is over.
  ghost function Overdue(st: Store, limits: Limits, now: int, fs: seq<Fragment>, n: nat): set<nat>
    requires n <= |fs|
  {
    set i: nat | i < n && IsOver(st, limits, now, fs[i])
  }

  predicate IsNew(st: Store, f: Fragment) {
    f.id !in st.pending && st.window.State(f.id) == RecvWindow.Unseen
  }

  // Those that begin an original.
  ghost function Beginning(st: Store, fs: seq<Fragment>, n: nat): set<nat>
    requires n <= |fs|
  {
    set i: nat | i < n && IsNew(st, fs[i])
  }

  lemma {:induction false} CountIs(st: Store, limits: Limits, now: int, fs: seq<Fragment>, n: nat)
    requires n <= |fs| && forall i :: 0 <= i < |fs| ==> fs[i].End() <= fs[i].total
    requires PlanErr(st, limits, now, fs, n) == NoErr
    ensures CountTo(st, limits, now, fs, n) == |st.pending| - |Overdue(st, limits, now, fs, n)| + |Beginning(st, fs, n)|
  {
    hide Overdue, Beginning, IsNew, PlanFor;
    if n > 0 {
      CountIs(st, limits, now, fs, n - 1);
      OneMore(st, limits, now, fs, n - 1);
      PlanCounts(st, limits, now, fs[n - 1]);
    } else {
      NoneYet(st, limits, now, fs);
    }
  }

  lemma NoneYet(st: Store, limits: Limits, now: int, fs: seq<Fragment>)
    ensures Overdue(st, limits, now, fs, 0) == {} && Beginning(st, fs, 0) == {}
  {
  }

  lemma OneMore(st: Store, limits: Limits, now: int, fs: seq<Fragment>, n: nat)
    requires n < |fs|
    ensures |Overdue(st, limits, now, fs, n + 1)| == |Overdue(st, limits, now, fs, n)|
      + if IsOver(st, limits, now, fs[n]) then 1 else 0
    ensures |Beginning(st, fs, n + 1)| == |Beginning(st, fs, n)| + if IsNew(st, fs[n]) then 1 else 0
  {
    hide IsNew, IsOver;
    OneIndex(Overdue(st, limits, now, fs, n), Overdue(st, limits, now, fs, n + 1), n, IsOver(st, limits, now, fs[n]));
    OneIndex(Beginning(st, fs, n), Beginning(st, fs, n + 1), n, IsNew(st, fs[n]));
  }

  lemma OneIndex(a: set<nat>, b: set<nat>, n: nat, more: bool)
    requires (forall i :: i in a ==> i < n) && forall i :: i in b <==> i in a || (more && i == n)
    ensures |b| == |a| + if more then 1 else 0
  {
    assert b == if more then a + {n} else a;
  }

  lemma PlanCounts(st: Store, limits: Limits, now: int, f: Fragment)
    requires f.End() <= f.total
    ensures PlanFor(st, limits, now, f) == Admit <==> IsNew(st, f)
    ensures !PlanFor(st, limits, now, f).Fail? ==>
      (PlanFor(st, limits, now, f) == Elapsed <==> IsOver(st, limits, now, f))
  {
    hide Inspect;
  }

  lemma {:induction false} PlanErrIsFirst(st: Store, limits: Limits, clock: int, now: int, fs: seq<Fragment>, n: nat)
    requires StoreOk(st, limits, clock) && n <= |fs| && AcceptableGroup(fs, limits)
    requires forall i :: 0 <= i < |fs| ==> fs[i].End() <= fs[i].total
    ensures PlanErr(st, limits, now, fs, n) == NoErr <==> NoTrouble(st, limits, now, fs, n)
    ensures forall i :: 0 <= i < n && NoTrouble(st, limits, now, fs, i) && Trouble(st, limits, now, fs[i]) != NoErr ==>
      PlanErr(st, limits, now, fs, n) == Trouble(st, limits, now, fs[i])
  {
    hide StoreOk, PlanFor, Trouble, AcceptableGroup, Acceptable;
    if n > 0 {
      PlanErrIsFirst(st, limits, clock, now, fs, n - 1);
      Ascending(fs, limits, n - 1, n - 1);
      FailsOnTrouble(st, limits, clock, now, fs[n - 1]);
    }
  }

  // All that a group owes to its receiver: each fragment has been placed, and nothing
  // that none of them names has changed.
  ghost predicate GroupPlaced(
    st: Store, next: Store, limits: Limits, now: int, fs: seq<Fragment>, grant: nat -> Handle,
    delivered: seq<Delivery>, ops: seq<Op>)
  {
    && (forall i :: 0 <= i < |fs| ==> Placed(st, next, limits, now, fs[i], grant(i), delivered, ops))
    && forall x: U64 :: (forall i :: 0 <= i < |fs| ==> fs[i].id != x) ==> Kept(st, next, x) && Silent(delivered, x)
  }

  // The answer to a group that passed the gate: the first fragment in trouble decides,
  // then the number of originals, then the ledger.
  ghost predicate Decides(
    st: Store, limits: Limits, now: int, fs: seq<Fragment>, answer: nat -> CreditLedger.Err, err: ReceiveErr)
    requires AcceptableGroup(fs, limits)
  {
    GroupIsSound(fs, limits);
    var count := |st.pending| - |Overdue(st, limits, now, fs, |fs|)| + |Beginning(st, fs, |fs|)|;
    var refused := exists i :: 0 <= i < |fs| && IsNew(st, fs[i]) && answer(i) != CreditLedger.Ok;
    && (err == NoErr <==> NoTrouble(st, limits, now, fs, |fs|) && count <= limits.maxDatagrams && !refused)
    && (forall i :: 0 <= i < |fs| && NoTrouble(st, limits, now, fs, i) && Trouble(st, limits, now, fs[i]) != NoErr ==>
        err == Trouble(st, limits, now, fs[i]))
    && (NoTrouble(st, limits, now, fs, |fs|) && count > limits.maxDatagrams ==> err == Credit(CreditLedger.ResourceLimit))
  }

  lemma AddAllDecides(
    st: Store, scope: Handle, limits: Limits, clock: int, now: int, fs: seq<Fragment>,
    answer: nat -> CreditLedger.Err, grant: nat -> Handle)
    requires limits.InBounds() && StoreOk(st, limits, clock) && AcceptableGroup(fs, limits)
    requires forall i :: 0 <= i < |fs| ==> fs[i].End() <= fs[i].total
    ensures Decides(st, limits, now, fs, answer, AddAll(st, scope, limits, now, fs, answer, grant).err)
  {
    hide StoreOk, PlanFor, Trouble, AcceptableGroup, IsNew, AddTo, ReserveOps, RollbackOps, Leases, Overdue, Beginning;
    var plans := Plans(st, limits, now, fs);
    PlanErrIsFirst(st, limits, clock, now, fs, |fs|);
    if PlanErr(st, limits, now, fs, |fs|) == NoErr {
      CountIs(st, limits, now, fs, |fs|);
    } else {
      SomeTrouble(st, limits, now, fs, |fs|);
    }
    forall i | 0 <= i < |fs|
      ensures plans[i] == Admit <==> IsNew(st, fs[i])
    {
      PlanCounts(st, limits, now, fs[i]);
    }
    RefusedIsSome(plans, answer);
  }

  lemma RefusedIsSome(plans: seq<Plan>, answer: nat -> CreditLedger.Err)
    ensures Refused(plans, answer, 0) == |plans| <==> forall i :: 0 <= i < |plans| && plans[i] == Admit ==> answer(i) == CreditLedger.Ok
  {
  }

  // Some fragment is the first in trouble.
  lemma {:induction false} SomeTrouble(st: Store, limits: Limits, now: int, fs: seq<Fragment>, n: nat)
    requires n <= |fs| && (forall i :: 0 <= i < |fs| ==> fs[i].End() <= fs[i].total) && !NoTrouble(st, limits, now, fs, n)
    ensures exists i :: 0 <= i < n && NoTrouble(st, limits, now, fs, i) && Trouble(st, limits, now, fs[i]) != NoErr
  {
    hide Trouble;
    if !NoTrouble(st, limits, now, fs, n - 1) {
      SomeTrouble(st, limits, now, fs, n - 1);
    } else {
      assert Trouble(st, limits, now, fs[n - 1]) != NoErr;
    }
  }

  lemma AddAllIsPlaced(
    st: Store, scope: Handle, limits: Limits, now: int, fs: seq<Fragment>,
    answer: nat -> CreditLedger.Err, grant: nat -> Handle)
    requires limits.InBounds() && StoreOk(st, limits, now) && AcceptableGroup(fs, limits)
    requires forall i :: 0 <= i < |fs| ==> fs[i].End() <= fs[i].total
    requires AddAll(st, scope, limits, now, fs, answer, grant).err == NoErr
    ensures var r := AddAll(st, scope, limits, now, fs, answer, grant).added;
      GroupPlaced(st, r.store, limits, now, fs, grant, r.delivered, r.ops)
  {
    hide StoreOk, PlanFor, Trouble, AcceptableGroup, ReserveOps, RollbackOps, Placed, AddTo, Kept, Silent, PlanErr, CountTo;
    GroupIsSound(fs, limits);
    var plans := Plans(st, limits, now, fs);
    var leases := Leases(plans, grant, |fs|);
    var r := AddTo(st, limits, now, fs, leases, |fs|);
    var first := ReserveOps(scope, limits, fs, plans, |fs|);
    PlanErrIsFirst(st, limits, now, now, fs, |fs|);
    forall i | 0 <= i < |fs|
      ensures Placed(st, r.store, limits, now, fs[i], grant(i), r.delivered, first + r.ops)
    {
      GroupIsPlaced(st, limits, now, fs, leases, |fs|, i);
      PlacedLater(st, r.store, limits, now, fs[i], leases[i], first, r.delivered, r.ops);
      PlacedLease(st, r.store, limits, now, fs[i], leases[i], grant(i), r.delivered, first + r.ops);
    }
    forall x: U64 | forall i :: 0 <= i < |fs| ==> fs[i].id != x
      ensures Kept(st, r.store, x) && Silent(r.delivered, x)
    {
      AddToKeeps(st, limits, now, fs, leases, |fs|, x);
    }
  }

  // Operations before do not matter.
  lemma PlacedLater(
    st: Store, next: Store, limits: Limits, now: int, f: Fragment, lease: Handle, first: seq<Op>,
    d: seq<Delivery>, ops: seq<Op>)
    requires Placed(st, next, limits, now, f, lease, d, ops)
    ensures Placed(st, next, limits, now, f, lease, d, first + ops)
  {
    hide Fills, Longer, Hands, RecvWindow.History.State;
  }

  // ---------------------------------------------------------------------------
  // The code

  class Receiver {
    const scope: Handle
    const limits: Limits
    const windowLease: Handle
    var window: RecvWindow.History
    var pending: map<U64, Assembly>
    var links: map<U64, Link>
    var head: U64
    var tail: U64
    var last: int
    var haveTime: bool
    var closed: bool

    // The pending originals as the links enumerate them.
    ghost var order: seq<U64>

    ghost function View(): Store
      reads this
    {
      Store(pending, order, window)
    }

    ghost predicate Listed()
      reads this
    {
      Linked(links, head, tail, order)
    }

    ghost predicate Valid()
      reads this
    {
      && limits.InBounds() && Listed()
      && (closed ==> pending == map[] && order == [] && window.closed)
      && (!closed ==> StoreOk(View(), limits, last) && |pending| <= limits.maxDatagrams)
      && (!haveTime ==> pending == map[])
    }

    constructor (scope: Handle, limits: Limits, windowLease: Handle)
      requires limits.InBounds()
      ensures Valid() && View() == Store(map[], [], RecvWindow.NewHistory(limits.span)) && !closed && !haveTime
      ensures this.scope == scope && this.limits == limits && this.windowLease == windowLease
    {
      this.scope, this.limits, this.windowLease := scope, limits, windowLease;
      window, pending, links, order := RecvWindow.NewHistory(limits.span), map[], map[], [];
      head, tail, last, haveTime, closed := 0, 0, 0, false, false;
    }

    // checkTime
    function TimeErr(now: int): ReceiveErr
      reads this
    {
      if closed then ReceiverClosed else if haveTime && now < last then ClockBackwards else NoErr
    }

    // validate
    method Validate(fs: seq<Fragment>) returns (ok: bool)
      ensures ok <==> 1 <= |fs| <= MAX_DESCRIPTORS && AcceptableGroup(fs, limits)
    {
      if |fs| < 1 || |fs| > MAX_DESCRIPTORS {
        return false;
      }
      var previous := 0;
      for i := 0 to |fs|
        invariant previous == if i == 0 then 0 else fs[i - 1].id
        invariant forall j :: 0 <= j < i ==> AcceptableAt(fs, limits, j)
      {
        var f := fs[i];
        if f.id == 0 || f.id <= previous || f.total > limits.maxDatagramBytes || f.offset > f.total
          || |f.payload| > f.total - f.offset || (f.payload == [] && f.total != 0) {
          assert !AcceptableAt(fs, limits, i);
          return false;
        }
        previous := f.id;
      }
      return true;
    }

    // inspect: binary search for the fragment's place among the ranges.
    static method InspectRanges(a: Assembly, f: Fragment) returns (r: Inspection)
      requires RangesOk(a.ranges, a.total) && FitsIn(f, a)
      ensures r == Inspect(a, f)
    {
      var lo, hi := 0, |a.ranges|;
      while lo < hi
        invariant 0 <= lo <= hi <= |a.ranges|
        invariant lo > 0 ==> a.ranges[lo - 1].start < f.offset
        invariant hi < |a.ranges| ==> a.ranges[hi].start >= f.offset
      {
        var mid := (lo + hi) / 2;
        if a.ranges[mid].start < f.offset {
          lo := mid + 1;
        } else {
          hi := mid;
        }
      }
      PositionIs(a.ranges, a.total, f.offset, lo);
      var found := lo < |a.ranges| && a.ranges[lo].start == f.offset;
      if found && a.ranges[lo].end == f.End() {
        return if a.data[f.offset..f.End()] == f.payload then Repeats else Contradicts;
      }
      if (lo > 0 && a.ranges[lo - 1].end > f.offset) || (lo < |a.ranges| && a.ranges[lo].start < f.End()) {
        return Overlaps;
      }
      return Fits(lo);
    }

    method PlanOne(f: Fragment, now: int) returns (p: Plan)
      requires StoreOk(View(), limits, last) && f.End() <= f.total
      ensures p == PlanFor(View(), limits, now, f)
    {
      if f.id in pending {
        var a := pending[f.id];
        if a.total != f.total {
          return Fail(LengthConflict);
        }
        if Due(a, limits, now) {
          return Elapsed;
        }
        assert PendingOk(View(), limits, last, f.id);
        var r := InspectRanges(a, f);
        match r
        case Repeats => return Duplicate;
        case Contradicts => return Fail(BytesConflict);
        case Overlaps => return Fail(RangeOverlap);
        case Fits(at) =>
          if |a.ranges| == limits.maxFragments {
            return Fail(Credit(CreditLedger.ResourceLimit));
          }
          return Insert(at);
      }
      if window.State(f.id) != RecvWindow.Unseen {
        return Skip;
      }
      return Admit;
    }

    // The planning loop of AddGroup, which changes nothing.
    method PlanAll(fs: seq<Fragment>, now: int) returns (err: ReceiveErr, plans: seq<Plan>, count: int)
      requires StoreOk(View(), limits, last) && forall i :: 0 <= i < |fs| ==> fs[i].End() <= fs[i].total
      ensures err == PlanErr(View(), limits, now, fs, |fs|)
      ensures err == NoErr ==> plans == Plans(View(), limits, now, fs)
      ensures err == NoErr ==> count == CountTo(View(), limits, now, fs, |fs|)
    {
      hide StoreOk, PlanFor;
      err, plans, count := NoErr, [], |pending|;
      for i := 0 to |fs|
        invariant err == NoErr == PlanErr(View(), limits, now, fs, i)
        invariant plans == Plans(View(), limits, now, fs)[..i] && count == CountTo(View(), limits, now, fs, i)
      {
        var p := PlanOne(fs[i], now);
        if p.Fail? {
          FirstErrStays(View(), limits, now, fs, i + 1, |fs|);
          err := p.err;
          return;
        }
        count := count + if p == Elapsed then -1 else if p == Admit then 1 else 0;
        plans := plans + [p];
      }
    }

    // The reservations of AddGroup; a refusal returns every lease taken so far.
    method ReserveAll(fs: seq<Fragment>, plans: seq<Plan>, answer: nat -> CreditLedger.Err, grant: nat -> Handle)
      returns (err: CreditLedger.Err, leases: seq<Handle>, ops: seq<Op>)
      requires limits.InBounds() && |plans| == |fs| && forall i :: 0 <= i < |fs| ==> fs[i].total <= limits.maxDatagramBytes
      ensures var n := Refused(plans, answer, 0);
        if n == |plans| then
          && err == CreditLedger.Ok && leases == Leases(plans, grant, n)
          && ops == ReserveOps(scope, limits, fs, plans, n)
        else
          && err == answer(n) != CreditLedger.Ok
          && ops == ReserveOps(scope, limits, fs, plans, n) + RollbackOps(plans, grant, n)
    {
      err, leases, ops := CreditLedger.Ok, [], [];
      var i := 0;
      while i < |fs|
        invariant 0 <= i <= |fs| && Refused(plans, answer, i) == Refused(plans, answer, 0)
        invariant leases == Leases(plans, grant, i) && ops == ReserveOps(scope, limits, fs, plans, i)
      {
        if plans[i] == Admit {
          if answer(i) != CreditLedger.Ok {
            var undo := Rollback(plans, leases, grant, i);
            return answer(i), leases, ops + undo;
          }
          ops := ops + [CreditLedger.ReserveOp(scope, CreditLedger.Bytes(limits.Charge(fs[i].total)))];
          leases := leases + [grant(i)];
        } else {
          leases := leases + [0];
        }
        i := i + 1;
      }
    }

    static method Rollback(plans: seq<Plan>, leases: seq<Handle>, ghost grant: nat -> Handle, n: nat) returns (ops: seq<Op>)
      requires n <= |plans| && leases == Leases(plans, grant, n)
      ensures ops == RollbackOps(plans, grant, n)
    {
      ops := [];
      for j := 0 to n
        invariant ops == RollbackOps(plans, grant, j)
      {
        if plans[j] == Admit {
          ops := ops + [CreditLedger.ReleaseOp(leases[j])];
        }
      }
    }

    // addPending
    method AddPending(id: U64, a: Assembly)
      requires Listed() && id != 0 && id !in order
      modifies this`pending, this`links, this`head, this`tail, this`order
      ensures Listed() && pending == old(pending)[id := a] && order == old(order) + [id]
    {
      AppendedIsLinked(links, head, tail, order, id);
      var link := Link(tail, 0);
      if tail == 0 {
        head := id;
      } else {
        links := links[tail := links[tail].(next := id)];
      }
      links := links[id := link];
      pending, tail, order := pending[id := a], id, order + [id];
    }

    // removePending
    method RemovePending(id: U64)
      requires Listed() && id in order
      modifies this`pending, this`links, this`head, this`tail, this`order
      ensures Listed() && pending == old(pending) - {id} && order == Without(old(order), id)
    {
      NeighboursLinked(links, head, tail, order, id);
      SplicedIsLinked(links, head, tail, order, id);
      hide Linked;
      var a := links[id];
      if a.previous == 0 {
        head := a.next;
      } else {
        links := links[a.previous := links[a.previous].(next := a.next)];
      }
      if a.next == 0 {
        tail := a.previous;
      } else {
        links := links[a.next := links[a.next].(previous := a.previous)];
      }
      links := links - {id};
      pending, order := pending - {id}, Without(order, id);
    }

    // expire
    method ExpireOriginal(id: U64) returns (op: Op)
      requires Listed() && id in pending && id in order
      modifies this`window, this`pending, this`links, this`head, this`tail, this`order
      ensures Listed() && View() == ExpireOne(old(View()), id) && op == CreditLedger.ReleaseOp(old(pending)[id].lease)
    {
      op := CreditLedger.ReleaseOp(pending[id].lease);
      window := window.Finish(id, RecvWindow.Expired);
      RemovePending(id);
    }

    // Copies one fragment into its pending original and delivers a full one.
    method Write(f: Fragment, a: Assembly, at: nat) returns (delivered: seq<Delivery>, ops: seq<Op>)
      requires Listed() && f.id in order && f.id in pending && FitsIn(f, a) && at <= |a.ranges|
      modifies this`window, this`pending, this`links, this`head, this`tail, this`order
      ensures Listed() && Added(View(), delivered, ops) == Grow(old(View()), f.id, Written(a, f, at))
    {
      delivered, ops := [], [];
      var b: Assembly := a.(data := a.data[..f.offset] + f.payload + a.data[f.End()..],
                            ranges := a.ranges[..at] + [Range(f)] + a.ranges[at..],
                            received := a.received + |f.payload|);
      if b.received == b.total {
        window := window.Finish(f.id, RecvWindow.Completed);
        RemovePending(f.id);
        ops := [CreditLedger.ShrinkOp(b.lease, |b.data|)];
        delivered := [Delivery(f.id, b.data, b.lease)];
      } else {
        pending := pending[f.id := b];
      }
    }

    // One turn of the commit loop.
    method Commit(f: Fragment, plan: Plan, lease: Handle, now: int) returns (delivered: seq<Delivery>, ops: seq<Op>)
      requires Listed() && StoreOk(View(), limits, now) && limits.InBounds() && Acceptable(f, limits, 0)
      requires plan == PlanFor(View(), limits, now, f)
      modifies this`window, this`pending, this`links, this`head, this`tail, this`order
      ensures Listed() && Added(View(), delivered, ops) == AddOne(old(View()), limits, now, f, lease)
    {
      hide StoreOk, PlanFor, Linked, ExpireOne, Written, Grow, RecvWindow.History.State, RecvWindow.History.Admit;
      InOrderList(View(), limits, now);
      delivered, ops := [], [];
      if plan == Elapsed {
        var op := ExpireOriginal(f.id);
        ops := [op];
      } else if plan == Admit {
        var a := Fresh(f.total, now, lease);
        window := window.Admit(f.id);
        AddPending(f.id, a);
        delivered, ops := Write(f, a, 0);
      } else if plan.Insert? {
        delivered, ops := Write(f, pending[f.id], plan.at);
      }
    }

    method CommitAll(fs: seq<Fragment>, plans: seq<Plan>, leases: seq<Handle>, now: int)
      returns (delivered: seq<Delivery>, ops: seq<Op>)
      requires Listed() && StoreOk(View(), limits, now) && limits.InBounds() && |fs| <= |leases|
      requires AcceptableGroup(fs, limits) && forall i :: 0 <= i < |fs| ==> fs[i].End() <= fs[i].total
      requires plans == Plans(View(), limits, now, fs)
      modifies this`window, this`pending, this`links, this`head, this`tail, this`order
      ensures Listed() && Added(View(), delivered, ops) == AddTo(old(View()), limits, now, fs, leases, |fs|)
    {
      hide StoreOk, AcceptableGroup, AddOne, PlanFor, Linked;
      delivered, ops := [], [];
      for i := 0 to |fs|
        invariant Listed() && Added(View(), delivered, ops) == AddTo(old(View()), limits, now, fs, leases, i)
      {
        AddToOk(old(View()), limits, now, fs, leases, i);
        PlanIsStable(old(View()), limits, now, fs, leases, i);
        Ascending(fs, limits, i, i);
        var d, o := Commit(fs[i], plans[i], leases[i], now);
        delivered, ops := delivered + d, ops + o;
      }
    }

    // What AddGroup checks before it looks at the originals.
    function GateErr(fs: seq<Fragment>, now: int, scopeClosed: bool): ReceiveErr
      reads this
    {
      if TimeErr(now) != NoErr then TimeErr(now)
      else if scopeClosed then Credit(CreditLedger.ScopeClosed)
      else if !(1 <= |fs| <= MAX_DESCRIPTORS && AcceptableGroup(fs, limits)) then Noncanonical
      else NoErr
    }

    method Gate(fs: seq<Fragment>, now: int, scopeClosed: bool) returns (err: ReceiveErr)
      ensures err == GateErr(fs, now, scopeClosed)
      ensures err == NoErr ==> AcceptableGroup(fs, limits)
    {
      err := TimeErr(now);
      if err == NoErr {
        if scopeClosed {
          return Credit(CreditLedger.ScopeClosed);
        }
        var ok := Validate(fs);
        return if ok then NoErr else Noncanonical;
      }
    }

    // AddGroup: the whole group enters, or nothing changes. `answer` and `grant`
    // are the ledger's replies to the reservations of the new originals.
    method AddGroup(
      now: int, fs: seq<Fragment>, scopeClosed: bool, answer: nat -> CreditLedger.Err, grant: nat -> Handle)
      returns (err: ReceiveErr, delivered: seq<Delivery>, ops: seq<Op>)
      requires Valid()
      modifies this
      ensures Valid()
      ensures err != NoErr ==> unchanged(this)
      ensures err == NoErr ==> last == now && haveTime && !closed
      ensures old(GateErr(fs, now, scopeClosed)) != NoErr ==>
        err == old(GateErr(fs, now, scopeClosed)) && delivered == [] && ops == []
      ensures old(GateErr(fs, now, scopeClosed)) == NoErr ==>
        && AcceptableGroup(fs, limits)
        && GroupResult(err, Added(View(), delivered, ops)) == AddAll(old(View()), scope, limits, now, fs, answer, grant)
        && Decides(old(View()), limits, now, fs, answer, err)
      ensures err == NoErr ==> GroupPlaced(old(View()), View(), limits, now, fs, grant, delivered, ops)
      ensures old(closed) ==> err == ReceiverClosed
      ensures !old(closed) && old(haveTime) && now < old(last) ==> err == ClockBackwards
      ensures !old(closed) && !(old(haveTime) && now < old(last)) ==>
        if scopeClosed then err == Credit(CreditLedger.ScopeClosed)
        else if !WellFormed(fs, limits) then err == Noncanonical
        else AcceptableGroup(fs, limits) && Decides(old(View()), limits, now, fs, answer, err)
    {
      hide Linked, StoreOk, AddAll, Decides, GroupPlaced, AcceptableGroup, WellFormed;
      WellFormedMeans(fs, limits);
      delivered, ops := [], [];
      err := Gate(fs, now, scopeClosed);
      if err == NoErr {
        Current(now);
        GroupIsSound(fs, limits);
        AddAllDecides(View(), scope, limits, now, now, fs, answer, grant);
        ghost var st := View();
        err, delivered, ops := AddChecked(now, fs, answer, grant);
        if err == NoErr {
          AddAllIsPlaced(st, scope, limits, now, fs, answer, grant);
        }
      }
    }

    method AddChecked(now: int, fs: seq<Fragment>, answer: nat -> CreditLedger.Err, grant: nat -> Handle)
      returns (err: ReceiveErr, delivered: seq<Delivery>, ops: seq<Op>)
      requires Valid() && TimeErr(now) == NoErr && AcceptableGroup(fs, limits)
      modifies this
      ensures Valid()
      ensures err != NoErr ==> unchanged(this)
      ensures err == NoErr ==> last == now && haveTime && !closed
      ensures GroupResult(err, Added(View(), delivered, ops)) == AddAll(old(View()), scope, limits, now, fs, answer, grant)
    {
      hide StoreOk, AcceptableGroup, CountTo, AddTo, Linked, Leases, PlanErr, Refused, ReserveOps, RollbackOps, Plans;
      Current(now);
      GroupIsSound(fs, limits);
      var plans, leases;
      delivered := [];
      err, plans, leases, ops := Prepare(now, fs, answer, grant);
      if err == NoErr {
        CountBounds(View(), limits, now, fs, leases, |fs|);
        AddToOk(View(), limits, now, fs, leases, |fs|);
        var committed;
        delivered, committed := CommitAll(fs, plans, leases, now);
        last, haveTime, ops := now, true, ops + committed;
      }
    }

    // Everything of AddGroup that may fail; it changes nothing.
    method Prepare(now: int, fs: seq<Fragment>, answer: nat -> CreditLedger.Err, grant: nat -> Handle)
      returns (err: ReceiveErr, plans: seq<Plan>, leases: seq<Handle>, ops: seq<Op>)
      requires limits.InBounds() && AcceptableGroup(fs, limits) && StoreOk(View(), limits, last)
      requires forall i :: 0 <= i < |fs| ==> fs[i].End() <= fs[i].total <= limits.maxDatagramBytes
      ensures err == AddAll(View(), scope, limits, now, fs, answer, grant).err
      ensures err != NoErr ==> ops == AddAll(View(), scope, limits, now, fs, answer, grant).added.ops
      ensures err == NoErr ==> plans == Plans(View(), limits, now, fs) && leases == Leases(plans, grant, |fs|)
      ensures err == NoErr ==> ops == ReserveOps(scope, limits, fs, plans, |fs|)
      ensures err == NoErr ==> CountTo(View(), limits, now, fs, |fs|) <= limits.maxDatagrams
    {
      hide StoreOk, AcceptableGroup, PlanErr, CountTo, AddTo, Leases, Refused, ReserveOps, RollbackOps, Plans;
      var count;
      leases, ops := [], [];
      err, plans, count := PlanAll(fs, now);
      if err != NoErr {
        return;
      }
      if count > limits.maxDatagrams {
        err := Credit(CreditLedger.ResourceLimit);
        return;
      }
      var refusal;
      refusal, leases, ops := ReserveAll(fs, plans, answer, grant);
      if refusal != CreditLedger.Ok {
        err := Credit(refusal);
      }
    }

    // A live receiver is well formed at every later time.
    lemma Current(now: int)
      requires Valid() && TimeErr(now) == NoErr
      ensures StoreOk(View(), limits, last) && StoreOk(View(), limits, now)
    {
      if haveTime {
        LaterOk(View(), limits, last, now);
      }
    }

    lemma AtHead()
      requires Listed()
      ensures head != 0 <==> order != []
      ensures head != 0 ==> head == order[0]
    {
    }

    // Expire
    method Expire(now: int) returns (err: ReceiveErr, ids: seq<U64>, ops: seq<Op>)
      requires Valid()
      modifies this
      ensures Valid() && err == old(TimeErr(now))
      ensures err == NoErr <==> !old(closed) && (old(haveTime) ==> old(last) <= now)
      ensures old(closed) ==> err == ReceiverClosed
      ensures err != NoErr ==> unchanged(this) && ids == []
      ensures err == NoErr ==> last == now && haveTime && StoreOk(old(View()), limits, now)
      ensures err == NoErr ==> ids == old(order)[..DueCount(old(View()), limits, now, 0)]
      ensures err == NoErr ==> View() == ExpireAll(old(View()), ids)
      ensures err == NoErr ==> Returned(old(pending), ids, ops)
    {
      hide StoreOk, Linked, DueCount, ExpireAll;
      err, ids, ops := TimeErr(now), [], [];
      if err != NoErr {
        return;
      }
      Current(now);
      ids, ops := ExpireElapsed(now);
      last, haveTime := now, true;
    }

    method ExpireElapsed(now: int) returns (ids: seq<U64>, ops: seq<Op>)
      requires Listed() && StoreOk(View(), limits, now)
      modifies this`window, this`pending, this`links, this`head, this`tail, this`order
      ensures Listed() && StoreOk(View(), limits, now) && |pending| <= |old(pending)|
      ensures ids == old(order)[..DueCount(old(View()), limits, now, 0)]
      ensures View() == ExpireAll(old(View()), ids) && Returned(old(pending), ids, ops)
    {
      hide StoreOk, Linked, ExpireOne, ExpireAll, Due, DueCount, Expiring, Returned;
      ghost var st := View();
      ids, ops := [], [];
      ExpiringStarts(st, limits, now);
      while head != 0
        invariant Listed() && Expiring(st, View(), limits, now, ids, ops)
        decreases |order|
      {
        var id := head;
        AtHead();
        ExpiringHead(st, View(), limits, now, ids, ops);
        if !Due(pending[id], limits, now) {
          break;
        }
        ExpiringStep(st, View(), limits, now, ids, ops);
        var op := ExpireOriginal(id);
        ids, ops := ids + [id], ops + [op];
      }
      AtHead();
      ExpiringEnds(st, View(), limits, now, ids, ops);
    }

    // NextDeadline: the earliest expiry of any pending original, or none.
    method NextDeadline() returns (some: bool, deadline: int)
      requires Valid()
      ensures some <==> pending != map[]
      ensures some ==> forall id :: id in pending ==> deadline <= pending[id].admitted + limits.timeout
      ensures some ==> exists id :: id in pending && deadline == pending[id].admitted + limits.timeout
    {
      some, deadline := !closed && head != 0, 0;
      if some {
        deadline := pending[head].admitted + limits.timeout;
        forall id | id in pending
          ensures Since(pending, order[0]) <= Since(pending, id)
        {
          assert Since(pending, order[IndexOf(order, id)]) == Since(pending, id);
        }
      } else if !closed {
        assert pending == map[];
      }
    }

    // Close expires every pending original and retires the receiver for good.
    method Close() returns (ops: seq<Op>)
      requires Valid()
      modifies this
      ensures Valid() && closed && pending == map[] && last == old(last) && haveTime == old(haveTime)
      ensures old(closed) ==> unchanged(this) && ops == []
      ensures !old(closed) ==> |ops| > 0 && ops[|ops| - 1] == CreditLedger.ReleaseOp(windowLease)
      ensures !old(closed) ==> Returned(old(pending), old(order), ops[..|ops| - 1])
    {
      hide StoreOk, Linked;
      ops := [];
      if closed {
        return;
      }
      closed := true;
      ops := ExpireEvery();
      ops := ops + [CreditLedger.ReleaseOp(windowLease)];
      assert ops[..|ops| - 1] + [ops[|ops| - 1]] == ops;
      pending, window := map[], window.Close();
    }

    method ExpireEvery() returns (ops: seq<Op>)
      requires Listed() && StoreOk(View(), limits, last)
      modifies this`window, this`pending, this`links, this`head, this`tail, this`order
      ensures Listed() && order == [] && Returned(old(pending), old(order), ops)
    {
      hide StoreOk, Linked, ExpireOne, Returned;
      ghost var st := View();
      ghost var ids: seq<U64> := [];
      NoneReturned(st.pending);
      ops := [];
      while head != 0
        invariant Listed() && StoreOk(View(), limits, last) && st.order == ids + order
        invariant forall id :: id in pending ==> id in st.pending && pending[id] == st.pending[id]
        invariant Returned(st.pending, ids, ops)
        decreases |order|
      {
        AtHead();
        InOrderList(View(), limits, last);
        ExpireHead(View(), limits, last);
        ReturnedMore(st.pending, ids, ops, head);
        ids := ids + [head];
        var op := ExpireOriginal(head);
        ops := ops + [op];
      }
      AtHead();
      assert ids == st.order;
    }
  }
}
