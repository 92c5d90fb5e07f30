// internal/aggregationv2: the ring queue that cuts admitted Datagrams into
// groups of fragments.
//
// The planning loop is specified by `PlanCursor`; the lemmas show that this plan
// agrees with the group packer of fecv2, always progresses and never spends more
// fragments on an original than its admission allowed. Calls into the credit
// ledger appear as the ledger's answer (a parameter) and as the list of ledger
// operations performed (a result).
module AggregationQueue {
  import opened Words
  import opened RingMath
  import opened Packing
  import opened CreditLedger

  datatype QueueLimits = QueueLimits(
    maxQueuedDatagrams: int, maxQueuedBytes: U64, maxDatagramBytes: U32, maxFragments: int, maxDelay: int)
  {
    // RequiredInitialBytes
    predicate InBounds() {
      && 1 <= maxQueuedDatagrams <= 65536 && 0 < maxQueuedBytes <= MAX_RETAINED_BYTES
      && 0 < maxDatagramBytes <= MAX_DATAGRAM_BYTES && 1 <= maxFragments <= 4096
      && 1000 <= maxDelay <= 10_000_000
    }
  }

  // One admitted Datagram; lease 0 is the nil lease of an empty one.
  datatype EntryRecord = Entry(
    id: U64, payload: seq<Byte>, offset: U32, fragments: int, admittedAt: int, lease: Handle)
  {
    function Remaining(): int {
      |payload| - offset
    }
  }

  type Entry = e: EntryRecord | e.offset <= |e.payload| <= MAX_U32 witness Entry(0, [], 0, 0, 0, 0)

  const EMPTY_ENTRY: Entry := Entry(0, [], 0, 0, 0, 0)

  function Rest(e: Entry): Fragment {
    Fragment(e.id, |e.payload|, e.offset, e.payload[e.offset..])
  }

  function Rests(entries: seq<Entry>): seq<Fragment> {
    seq(|entries|, i requires 0 <= i < |entries| => Rest(entries[i]))
  }

  datatype QueueErr =
    | NoErr | QueueClosed | ClockRegression | IDExhausted | MessageTooLarge | Credit(err: Err)

  // ---------------------------------------------------------------------------
  // Fragment budgets

  // Fragments needed for `bytes` when each takes at most `capacity` > 0.
  function Pieces(bytes: int, capacity: int): (n: int)
    ensures n >= 0 && (bytes > 0 ==> n >= 1)
    decreases bytes
  {
    if bytes <= 0 then 0
    else if capacity <= 0 || bytes <= capacity then 1
    else 1 + Pieces(bytes - capacity, capacity)
  }

  /** fragmentCount computes the number of pieces without cutting them one by one. */
  lemma {:induction false} FragmentCount(bytes: int, capacity: int)
    requires bytes > 0 && capacity > 0
    ensures Pieces(bytes, capacity) == 1 + (bytes - 1) / capacity
    decreases bytes
  {
    if bytes <= capacity {
      ModUnique(bytes - 1, capacity, 0, bytes - 1);
    } else {
      FragmentCount(bytes - capacity, capacity);
      var q, r := (bytes - capacity - 1) / capacity, (bytes - capacity - 1) % capacity;
      assert bytes - 1 == (q + 1) * capacity + r;
      ModUnique(bytes - 1, capacity, q + 1, r);
    }
  }

  predicate TooLarge(bytes: nat, limits: QueueLimits, p: Parameters) {
    || bytes > limits.maxDatagramBytes
    || (bytes > 0 && (p.FreshCapacity() <= 0 || Pieces(bytes, p.FreshCapacity()) > limits.maxFragments))
  }

  // The payload can be cut into as many pieces of fresh groups as an original may have.
  predicate Cuttable(bytes: nat, limits: QueueLimits, p: Parameters) {
    bytes <= limits.maxDatagramBytes
    && (bytes > 0 ==> p.FreshCapacity() > 0 && bytes <= limits.maxFragments * p.FreshCapacity())
  }

  // One more Datagram leaves both bounds of the queue respected.
  predicate Room(entries: seq<Entry>, bytes: nat, limits: QueueLimits) {
    |entries| + 1 <= limits.maxQueuedDatagrams && Retained(entries) + bytes <= limits.maxQueuedBytes
  }

  lemma {:induction false} PiecesWithin(bytes: int, capacity: int, n: int)
    requires capacity > 0 && n >= 0
    ensures Pieces(bytes, capacity) <= n <==> bytes <= n * capacity
    decreases bytes
  {
    if bytes <= 0 {
      NonNegativeProduct(n, capacity);
    } else if n == 0 {
    } else if bytes <= capacity {
      NonNegativeProduct(n - 1, capacity);
      assert n * capacity == (n - 1) * capacity + capacity;
    } else {
      PiecesWithin(bytes - capacity, capacity, n - 1);
      assert n * capacity == (n - 1) * capacity + capacity;
    }
  }

  lemma NonNegativeProduct(a: int, b: int)
    requires a >= 0 && b >= 0
    ensures a * b >= 0
  {
  }

  lemma TooLargeMeans(bytes: nat, limits: QueueLimits, p: Parameters)
    requires limits.maxFragments >= 0
    ensures TooLarge(bytes, limits, p) <==> !Cuttable(bytes, limits, p)
  {
    if bytes > 0 && p.FreshCapacity() > 0 {
      PiecesWithin(bytes, p.FreshCapacity(), limits.maxFragments);
    }
  }

  // The entry can still be cut within its fragment limit.
  predicate EntryOk(e: Entry, limits: QueueLimits, p: Parameters) {
    && e.id != 0 && |e.payload| <= limits.maxDatagramBytes && e.fragments >= 0
    && (e.payload == [] ==> e.fragments == 0)
    && (e.payload != [] ==>
        && e.Remaining() > 0 && p.FreshCapacity() > 0
        && e.fragments + Pieces(e.Remaining(), p.FreshCapacity()) <= limits.maxFragments)
  }

  ghost predicate EntriesOk(entries: seq<Entry>, limits: QueueLimits, p: Parameters) {
    && limits.maxDatagramBytes <= p.maxDatagramBytes
    && (forall i :: 0 <= i < |entries| ==> EntryOk(entries[i], limits, p))
    && (forall i, j :: 0 <= i < j < |entries| ==> entries[i].id < entries[j].id)
  }

  function Retained(entries: seq<Entry>): int {
    if entries == [] then 0 else |entries[0].payload| + Retained(entries[1..])
  }

  // The queue's own accounting; next is 0 once the IDs are exhausted.
  ghost predicate QueueOk(entries: seq<Entry>, retained: int, next: U64, limits: QueueLimits, p: Parameters) {
    && EntriesOk(entries, limits, p)
    && retained == Retained(entries) <= limits.maxQueuedBytes
    && forall i :: 0 <= i < |entries| ==> next == 0 || entries[i].id < next
  }

  // ---------------------------------------------------------------------------
  // Planning

  datatype Verdict = Stop | Cut(bytes: nat) | Whole

  // What planLocked does with the next entry once n fragments fill `used` bytes.
  function Decide(e: Entry, limits: QueueLimits, p: Parameters, n: nat, used: int): Verdict {
    var remaining := e.Remaining();
    var room := p.maxLogicalBytes - used - DESCRIPTOR_BYTES;
    if n == p.maxDescriptors || room < 0 || (room == 0 && remaining > 0) then Stop
    else if remaining <= room then Whole
    // A short tail must not spend a fragment beyond the admitted limit.
    else if e.fragments + 1 + Pieces(remaining - room, p.FreshCapacity()) > limits.maxFragments then Stop
    else Cut(room)
  }

  predicate CursorIn(entries: seq<Entry>, c: Cursor) {
    && c.next <= |entries|
    && (c.bytes > 0 ==> c.next < |entries| && c.bytes < entries[c.next].Remaining())
  }

  function PlanFrom(entries: seq<Entry>, limits: QueueLimits, p: Parameters, i: nat, used: int): (c: Cursor)
    requires i <= |entries|
    ensures CursorIn(entries, c) && c.next >= i
    decreases |entries| - i
  {
    if i == |entries| then Cursor(i, 0)
    else
      match Decide(entries[i], limits, p, i, used)
      case Stop => Cursor(i, 0)
      case Cut(bytes) => Cursor(i, bytes)
      case Whole => PlanFrom(entries, limits, p, i + 1, used + DESCRIPTOR_BYTES + entries[i].Remaining())
  }

  // Where planLocked stops.
  function PlanCursor(entries: seq<Entry>, limits: QueueLimits, p: Parameters): (c: Cursor)
    ensures CursorIn(entries, c)
  {
    PlanFrom(entries, limits, p, 0, MANIFEST_BYTES)
  }

  function PlanCount(c: Cursor): nat {
    c.next + if c.bytes > 0 then 1 else 0
  }

  // The fragments offered to the packer, each with its whole remaining payload.
  function Offered(entries: seq<Entry>, c: Cursor): seq<Fragment>
    requires CursorIn(entries, c)
  {
    Rests(entries[..PlanCount(c)])
  }

  // The fragments of the group that the cursor closes.
  function Taken(entries: seq<Entry>, c: Cursor): seq<Fragment>
    requires CursorIn(entries, c)
  {
    if c.bytes == 0 then Rests(entries[..c.next])
    else
      var f := Rest(entries[c.next]);
      Rests(entries[..c.next]) + [f.(payload := f.payload[..c.bytes])]
  }

  // The queue once the group took everything before the cursor.
  function After(entries: seq<Entry>, c: Cursor): seq<Entry>
    requires CursorIn(entries, c)
  {
    if c.bytes == 0 then entries[c.next..]
    else
      var e := entries[c.next];
      [e.(offset := e.offset + c.bytes, fragments := e.fragments + 1)] + entries[c.next + 1..]
  }

  // Nothing more could join the group: it is due whatever its age.
  predicate IsFull(entries: seq<Entry>, p: Parameters, c: Cursor)
    requires CursorIn(entries, c)
  {
    c.next < |entries| || LogicalSize(Taken(entries, c)) == p.maxLogicalBytes || PlanCount(c) == p.maxDescriptors
  }

  lemma RestsAppend(entries: seq<Entry>, i: nat)
    requires i < |entries|
    ensures Rests(entries[..i + 1]) == Rests(entries[..i]) + [Rest(entries[i])]
  {
  }

  // A plan that ends at c is greedy and takes what the packer would.
  ghost predicate PlanIsGreedy(entries: seq<Entry>, p: Parameters, c: Cursor) {
    && CursorIn(entries, c)
    && Greedy(p, Offered(entries, c), c)
    && Consumed(Offered(entries, c), c) == Taken(entries, c)
  }

  lemma CutIsGreedy(entries: seq<Entry>, p: Parameters, i: nat, bytes: nat)
    requires i < |entries| && i < p.maxDescriptors && 0 < bytes < entries[i].Remaining()
    requires LogicalSize(Rests(entries[..i])) + DESCRIPTOR_BYTES + bytes == p.maxLogicalBytes
    ensures PlanIsGreedy(entries, p, Cursor(i, bytes))
  {
    var c := Cursor(i, bytes);
    RestsAppend(entries, i);
    assert Offered(entries, c)[..i] == Rests(entries[..i]);
    CutSize(Offered(entries, c), c);
  }

  lemma StopIsGreedy(entries: seq<Entry>, p: Parameters, i: nat)
    requires i <= |entries| && i <= p.maxDescriptors && LogicalSize(Rests(entries[..i])) <= p.maxLogicalBytes
    ensures PlanIsGreedy(entries, p, Cursor(i, 0))
  {
    var c := Cursor(i, 0);
    assert Offered(entries, c)[..i] == Offered(entries, c);
  }

  // The plan loop from a prefix that was packed whole.
  lemma {:induction false} PlanFromGreedy(
    entries: seq<Entry>, limits: QueueLimits, p: Parameters, i: nat, used: int)
    requires i <= |entries| && i <= p.maxDescriptors
    requires used == LogicalSize(Rests(entries[..i])) <= p.maxLogicalBytes
    ensures PlanIsGreedy(entries, p, PlanFrom(entries, limits, p, i, used))
    decreases |entries| - i
  {
    hide PlanIsGreedy, LogicalSize, Rests;
    if i == |entries| {
      StopIsGreedy(entries, p, i);
    } else {
      match Decide(entries[i], limits, p, i, used)
      case Stop => StopIsGreedy(entries, p, i);
      case Cut(bytes) => CutIsGreedy(entries, p, i, bytes);
      case Whole =>
        RestsAppend(entries, i);
        LogicalSizeAppend(Rests(entries[..i]), Rest(entries[i]));
        PlanFromGreedy(entries, limits, p, i + 1, used + DESCRIPTOR_BYTES + entries[i].Remaining());
    }
  }

  // The state of the planning loop after i whole entries.
  ghost predicate PlannedTo(
    entries: seq<Entry>, limits: QueueLimits, p: Parameters, i: nat, fragments: seq<Fragment>, used: int)
  {
    && i <= |entries| && fragments == Rests(entries[..i]) && used == LogicalSize(fragments)
    && PlanFrom(entries, limits, p, i, used) == PlanCursor(entries, limits, p)
  }

  lemma PlannedNone(entries: seq<Entry>, limits: QueueLimits, p: Parameters)
    ensures PlannedTo(entries, limits, p, 0, [], MANIFEST_BYTES)
  {
  }

  lemma PlannedOne(
    entries: seq<Entry>, limits: QueueLimits, p: Parameters, i: nat, fragments: seq<Fragment>, used: int)
    requires i < |entries| && PlannedTo(entries, limits, p, i, fragments, used)
    ensures var e := entries[i];
      match Decide(e, limits, p, i, used)
      case Stop => EndsAt(entries, limits, p, Cursor(i, 0), fragments, true)
      case Cut(bytes) => EndsAt(entries, limits, p, Cursor(i, bytes), fragments + [Rest(e)], true)
      case Whole =>
        PlannedTo(entries, limits, p, i + 1, fragments + [Rest(e)], used + DESCRIPTOR_BYTES + e.Remaining())
  {
    RestsAppend(entries, i);
    LogicalSizeAppend(fragments, Rest(entries[i]));
  }

  lemma PlannedAll(entries: seq<Entry>, limits: QueueLimits, p: Parameters, fragments: seq<Fragment>, used: int)
    requires PlannedTo(entries, limits, p, |entries|, fragments, used)
    ensures EndsAt(entries, limits, p, Cursor(|entries|, 0), fragments,
      used == p.maxLogicalBytes || |fragments| == p.maxDescriptors)
  {
  }

  // The three results of the planning loop.
  ghost predicate EndsAt(
    entries: seq<Entry>, limits: QueueLimits, p: Parameters, c: Cursor, fragments: seq<Fragment>, full: bool)
  {
    c == PlanCursor(entries, limits, p) && fragments == Offered(entries, c) && full == IsFull(entries, p, c)
  }

  lemma {:induction false} PlanKeepsBudget(
    entries: seq<Entry>, limits: QueueLimits, p: Parameters, i: nat, used: int)
    requires i <= |entries|
    ensures var c := PlanFrom(entries, limits, p, i, used);
      c.bytes > 0 ==> KeepsBudget(entries[c.next], limits, p, c.bytes)
    decreases |entries| - i
  {
    if i < |entries| && Decide(entries[i], limits, p, i, used) == Whole {
      PlanKeepsBudget(entries, limits, p, i + 1, used + DESCRIPTOR_BYTES + entries[i].Remaining());
    }
  }

  // Cutting off `bytes` leaves the entry within its fragment limit.
  predicate KeepsBudget(e: Entry, limits: QueueLimits, p: Parameters, bytes: nat) {
    e.fragments + 1 + Pieces(e.Remaining() - bytes, p.FreshCapacity()) <= limits.maxFragments
  }

  /** The planned fragments are canonical and the plan is greedy on them. So the
      packer, which is greedy too, accepts them and stops at the planned cursor:
      the two separately written packers agree for every queue. */
  lemma PackerAgrees(entries: seq<Entry>, limits: QueueLimits, p: Parameters, packed: Cursor)
    requires p.Valid() && EntriesOk(entries, limits, p)
    ensures var c := PlanCursor(entries, limits, p);
      && Canonical(p, Offered(entries, c)) && |Offered(entries, c)| <= p.maxDescriptors
      && (Greedy(p, Offered(entries, c), packed) ==>
          packed == c && Consumed(Offered(entries, c), packed) == Taken(entries, c))
  {
    var c := PlanCursor(entries, limits, p);
    var fs := Offered(entries, c);
    PlanFromGreedy(entries, limits, p, 0, MANIFEST_BYTES);
    forall i | 0 <= i < |fs|
      ensures ValidAt(p, fs, i)
    {
      assert EntryOk(entries[i], limits, p);
      if i > 0 {
        assert entries[i - 1].id < entries[i].id;
      }
    }
    if Greedy(p, fs, packed) {
      GreedyIsUnique(p, fs, c, packed);
    }
  }

  /** A forced seal of a nonempty queue always takes at least one fragment: the
      oldest entry fits a fresh group, and cutting it there costs no extra piece. */
  lemma PlansProgress(entries: seq<Entry>, limits: QueueLimits, p: Parameters)
    requires p.Valid() && entries != [] && EntriesOk(entries, limits, p)
    ensures PlanCount(PlanCursor(entries, limits, p)) >= 1
  {
    assert EntryOk(entries[0], limits, p);
  }

  /** Sealing keeps every remaining original within its fragment limit. */
  lemma AfterIsOk(entries: seq<Entry>, limits: QueueLimits, p: Parameters)
    requires p.Valid() && EntriesOk(entries, limits, p)
    ensures EntriesOk(After(entries, PlanCursor(entries, limits, p)), limits, p)
  {
    var c := PlanCursor(entries, limits, p);
    PlanKeepsBudget(entries, limits, p, 0, MANIFEST_BYTES);
    var rest := After(entries, c);
    forall i | 0 <= i < |rest|
      ensures EntryOk(rest[i], limits, p) && rest[i].id == entries[c.next + i].id
    {
      assert EntryOk(entries[c.next + i], limits, p);
    }
  }

  // ---------------------------------------------------------------------------
  // Retained bytes

  lemma {:induction false} RetainedAppend(entries: seq<Entry>, e: Entry)
    ensures Retained(entries + [e]) == Retained(entries) + |e.payload|
  {
    if entries != [] {
      RetainedAppend(entries[1..], e);
      assert (entries + [e])[1..] == entries[1..] + [e];
    }
  }

  lemma {:induction false} RetainedWithout(entries: seq<Entry>, i: nat)
    requires i < |entries|
    ensures Retained(entries[..i] + entries[i + 1..]) == Retained(entries) - |entries[i].payload|
  {
    if i > 0 {
      RetainedWithout(entries[1..], i - 1);
      assert (entries[..i] + entries[i + 1..])[1..] == entries[1..][..i - 1] + entries[1..][i..];
    } else {
      assert entries[..0] + entries[1..] == entries[1..];
    }
  }

  lemma {:induction false} RetainedSuffix(entries: seq<Entry>, n: nat)
    requires n <= |entries|
    ensures 0 <= Retained(entries[n..]) <= Retained(entries)
    decreases |entries|
  {
    if entries == [] {
      assert entries[n..] == [];
    } else if n > 0 {
      RetainedSuffix(entries[1..], n - 1);
      assert entries[1..][n - 1..] == entries[n..];
    } else {
      RetainedSuffix(entries[1..], 0);
      assert entries[0..] == entries && entries[1..][0..] == entries[1..];
    }
  }

  lemma AdmittedOk(entries: seq<Entry>, retained: int, e: Entry, limits: QueueLimits, p: Parameters)
    requires QueueOk(entries, retained, e.id, limits, p) && e.id != 0 && e.offset == 0 && e.fragments == 0
    requires !TooLarge(|e.payload|, limits, p) && |e.payload| <= limits.maxQueuedBytes - retained
    ensures QueueOk(entries + [e], retained + |e.payload|, Wrap64(e.id + 1), limits, p)
  {
    RetainedAppend(entries, e);
  }

  lemma AfterOk(entries: seq<Entry>, retained: int, next: U64, limits: QueueLimits, p: Parameters)
    requires p.Valid() && QueueOk(entries, retained, next, limits, p)
    ensures var c := PlanCursor(entries, limits, p);
      QueueOk(After(entries, c), retained - (Retained(entries) - Retained(entries[c.next..])), next, limits, p)
  {
    var c := PlanCursor(entries, limits, p);
    AfterIsOk(entries, limits, p);
    RetainedSuffix(entries, c.next);
    var rest := After(entries, c);
    if c.bytes > 0 {
      assert rest[1..] == entries[c.next..][1..];
    }
    forall i | 0 <= i < |rest|
      ensures next == 0 || rest[i].id < next
    {
      assert rest[i].id == entries[c.next + i].id;
    }
  }

  lemma CancelOk(entries: seq<Entry>, retained: int, next: U64, limits: QueueLimits, p: Parameters, i: nat)
    requires QueueOk(entries, retained, next, limits, p) && i < |entries|
    ensures QueueOk(Without(entries, i), retained - |entries[i].payload|, next, limits, p)
  {
    RetainedWithout(entries, i);
  }

  // ---------------------------------------------------------------------------
  // The code

  function Without(entries: seq<Entry>, i: nat): seq<Entry>
    requires i < |entries|
  {
    entries[..i] + entries[i + 1..]
  }

  lemma OnlyOne(entries: seq<Entry>, limits: QueueLimits, p: Parameters, i: nat)
    requires EntriesOk(entries, limits, p) && i < |entries|
    ensures forall k :: 0 <= k < |entries| && entries[k].id == entries[i].id ==> k == i
  {
    forall k | 0 <= k < |entries| && k != i
      ensures entries[k].id != entries[i].id
    {
      assert k < i ==> entries[k].id < entries[i].id;
      assert i < k ==> entries[i].id < entries[k].id;
    }
  }

  // Slots i+1..j moved down by one: the state of Cancel's loop.
  function MovedDown(entries: seq<Entry>, i: nat, j: nat): seq<Entry>
    requires i <= j < |entries|
  {
    entries[..i] + entries[i + 1..j + 1] + entries[j..]
  }

  lemma ShiftOne(entries: seq<Entry>, i: nat, j: nat)
    requires i <= j < |entries| - 1
    ensures |MovedDown(entries, i, j)| == |entries|
    ensures MovedDown(entries, i, j)[j := MovedDown(entries, i, j)[j + 1]] == MovedDown(entries, i, j + 1)
  {
  }

  lemma ShiftAll(entries: seq<Entry>, i: nat)
    requires i < |entries|
    ensures MovedDown(entries, i, i) == entries
    ensures MovedDown(entries, i, |entries| - 1)[..|entries| - 1] == Without(entries, i)
  {
  }

  // The `count` slots from `head` on, around the ring.
  ghost function RingView(slots: seq<Entry>, head: nat, count: nat): (view: seq<Entry>)
    requires count <= |slots| && (count > 0 ==> head < |slots|)
    ensures |view| == count
  {
    seq(count, i requires 0 <= i < count => slots[Ahead(head, i, |slots|)])
  }

  lemma RingUpdate(slots: seq<Entry>, head: nat, count: nat, k: nat, e: Entry)
    requires k < count <= |slots| && head < |slots|
    ensures RingView(slots[Ahead(head, k, |slots|) := e], head, count) == RingView(slots, head, count)[k := e]
  {
  }

  function NewEntry(id: U64, payload: seq<Byte>, now: int, handle: Handle): Entry
    requires |payload| <= MAX_U32
  {
    Entry(id, payload, 0, 0, now, if payload == [] then 0 else handle)
  }

  // The ledger operation behind admitting a Datagram; an empty one needs none.
  function ReserveOps(session: Handle, bytes: U64): seq<Op> {
    if bytes == 0 then [] else [ReserveOp(session, Bytes(bytes))]
  }

  // The ledger operations that return the leases of a run of entries.
  function ReleaseOps(entries: seq<Entry>): seq<Op> {
    if entries == [] then []
    else
      var n := |entries| - 1;
      ReleaseOps(entries[..n]) + (if entries[n].lease == 0 then [] else [ReleaseOp(entries[n].lease)])
  }

  // A sealed group: the fragments its encoder was given, and the lease of its
  // output storage.
  datatype Output = NoOutput | Output(groupId: U64, fragments: seq<Fragment>, lease: Handle)

  // What sealing a nonempty queue emits and leaves behind.
  function SealedGroup(entries: seq<Entry>, limits: QueueLimits, p: Parameters): seq<Fragment> {
    Taken(entries, PlanCursor(entries, limits, p))
  }

  function Remainder(entries: seq<Entry>, limits: QueueLimits, p: Parameters): seq<Entry> {
    After(entries, PlanCursor(entries, limits, p))
  }

  function SealOps(
    session: Handle, outputBytes: U64, entries: seq<Entry>, limits: QueueLimits, p: Parameters): seq<Op>
  {
    [ReserveOp(session, Bytes(outputBytes))] + ReleaseOps(entries[..PlanCursor(entries, limits, p).next])
  }

  lemma SealReleases(session: Handle, outputBytes: U64, entries: seq<Entry>, limits: QueueLimits, p: Parameters)
    ensures |Remainder(entries, limits, p)| <= |entries|
    ensures SealOps(session, outputBytes, entries, limits, p) == [ReserveOp(session, Bytes(outputBytes))]
      + ReleaseOps(entries[..|entries| - |Remainder(entries, limits, p)|])
  {
    hide PlanCursor, ReleaseOps;
  }

  /** Every sealed group is one the codec accepts: canonical, nonempty and within
      the descriptor and logical-size limits. */
  lemma SealedGroupIsEncodable(entries: seq<Entry>, limits: QueueLimits, p: Parameters)
    requires p.Valid() && entries != [] && EntriesOk(entries, limits, p)
    ensures Encodable(p, SealedGroup(entries, limits, p))
  {
    var c := PlanCursor(entries, limits, p);
    PlanFromGreedy(entries, limits, p, 0, MANIFEST_BYTES);
    PackerAgrees(entries, limits, p, c);
    PlansProgress(entries, limits, p);
    ConsumedIsEncodable(p, Offered(entries, c), c);
  }

  // Sealing now would leave something behind or fill one of the group's two limits.
  predicate GroupIsFull(entries: seq<Entry>, limits: QueueLimits, p: Parameters) {
    || Remainder(entries, limits, p) != []
    || LogicalSize(SealedGroup(entries, limits, p)) == p.maxLogicalBytes
    || |SealedGroup(entries, limits, p)| == p.maxDescriptors
  }

  lemma FullIsGroupFull(entries: seq<Entry>, limits: QueueLimits, p: Parameters)
    ensures IsFull(entries, p, PlanCursor(entries, limits, p)) <==> GroupIsFull(entries, limits, p)
  {
    hide PlanCursor, LogicalSize;
  }

  // A group is owed: the queue is not empty, and the group is full or its oldest entry
  // has waited for the longest time it may.
  predicate Owed(entries: seq<Entry>, limits: QueueLimits, p: Parameters, now: int) {
    entries != [] && (GroupIsFull(entries, limits, p) || now - entries[0].admittedAt >= limits.maxDelay)
  }

  /** A plan ends only where nothing more can join: at the descriptor limit, without room
      for a further descriptor and byte, where a cut would cost the entry one fragment too
      many, or, after a cut, at a completely filled group. */
  lemma {:induction false} PlanIsMaximal(entries: seq<Entry>, limits: QueueLimits, p: Parameters, i: nat, used: int)
    requires i <= |entries| && used == LogicalSize(Rests(entries[..i]))
    ensures var c := PlanFrom(entries, limits, p, i, used);
      var g := Taken(entries, c);
      && (c.bytes > 0 ==> LogicalSize(g) == p.maxLogicalBytes)
      && (c.bytes == 0 && c.next < |entries| ==> Barred(entries[c.next], limits, p, |g|, LogicalSize(g)))
    decreases |entries| - i
  {
    hide LogicalSize, Rests, Barred;
    var c := PlanFrom(entries, limits, p, i, used);
    if i < |entries| {
      RestsAppend(entries, i);
      LogicalSizeAppend(Rests(entries[..i]), Rest(entries[i]));
      match Decide(entries[i], limits, p, i, used)
      case Stop => StopIsBarred(entries, limits, p, i, used);
      case Cut(bytes) =>
        var f := Rest(entries[i]);
        LogicalSizeAppend(Rests(entries[..i]), f.(payload := f.payload[..bytes]));
        RestsLength(entries, i);
      case Whole => PlanIsMaximal(entries, limits, p, i + 1, used + DESCRIPTOR_BYTES + entries[i].Remaining());
    }
  }

  // The entry cannot join n fragments that fill `used` bytes, not even in part.
  predicate Barred(e: Entry, limits: QueueLimits, p: Parameters, n: nat, used: int) {
    var room := p.maxLogicalBytes - used - DESCRIPTOR_BYTES;
    || n == p.maxDescriptors || room < 0 || (room == 0 && e.Remaining() > 0)
    || (room < e.Remaining() && !KeepsBudget(e, limits, p, room))
  }

  lemma RestsLength(entries: seq<Entry>, i: nat)
    requires i <= |entries|
    ensures |Rests(entries[..i])| == i
  {
  }

  lemma StopIsBarred(entries: seq<Entry>, limits: QueueLimits, p: Parameters, i: nat, used: int)
    requires i < |entries| && used == LogicalSize(Rests(entries[..i])) && Decide(entries[i], limits, p, i, used) == Stop
    ensures Barred(entries[i], limits, p, |Taken(entries, Cursor(i, 0))|, LogicalSize(Taken(entries, Cursor(i, 0))))
  {
  }

  /** A full group is final: a further Datagram goes behind what it leaves and changes
      nothing about it. */
  lemma FullIsFinal(entries: seq<Entry>, limits: QueueLimits, p: Parameters, e: Entry)
    requires GroupIsFull(entries, limits, p) && e.Remaining() > 0
    ensures SealedGroup(entries + [e], limits, p) == SealedGroup(entries, limits, p)
    ensures Remainder(entries + [e], limits, p) == Remainder(entries, limits, p) + [e]
  {
    FullIsGroupFull(entries, limits, p);
    assert Rests(entries[..0]) == [];
    PlanWithMore(entries, limits, p, e, 0, MANIFEST_BYTES);
    var c := PlanCursor(entries, limits, p);
    assert (entries + [e])[..c.next] == entries[..c.next];
    if c.next < |entries| {
      assert (entries + [e])[c.next + 1..] == entries[c.next + 1..] + [e];
      assert (entries + [e])[c.next..] == entries[c.next..] + [e];
    } else {
      assert (entries + [e])[c.next..] == [e];
    }
  }

  lemma {:induction false} PlanWithMore(entries: seq<Entry>, limits: QueueLimits, p: Parameters, e: Entry, i: nat, used: int)
    requires i <= |entries| && used == LogicalSize(Rests(entries[..i])) && e.Remaining() > 0
    requires IsFull(entries, p, PlanFrom(entries, limits, p, i, used))
    ensures PlanFrom(entries + [e], limits, p, i, used) == PlanFrom(entries, limits, p, i, used)
    decreases |entries| - i
  {
    hide LogicalSize, Rests;
    if i < |entries| {
      RestsAppend(entries, i);
      LogicalSizeAppend(Rests(entries[..i]), Rest(entries[i]));
      if Decide(entries[i], limits, p, i, used) == Whole {
        PlanWithMore(entries, limits, p, e, i + 1, used + DESCRIPTOR_BYTES + entries[i].Remaining());
      }
    } else {
      RestsLength(entries, i);
    }
  }

  /** Releasing a run of entries hands back exactly their leases. */
  lemma {:induction false} ReleasesTheirLeases(entries: seq<Entry>, h: Handle)
    ensures ReleaseOp(h) in ReleaseOps(entries) <==> h != 0 && exists i :: 0 <= i < |entries| && entries[i].lease == h
    ensures forall op :: op in ReleaseOps(entries) ==> op.ReleaseOp?
  {
    if entries != [] {
      ReleasesTheirLeases(entries[..|entries| - 1], h);
    }
  }

  class Queue {
    const session: Handle
    const limits: QueueLimits
    const params: Parameters
    const outputBytes: U64
    var ring: array<Entry>
    var head: nat
    var count: nat
    var retainedBytes: int
    var nextDatagramID: U64
    var nextGroupID: U64
    var lastNow: int
    var haveNow: bool
    var closed: bool

    // The ring read from its head.
    ghost var entries: seq<Entry>

    ghost predicate Shape()
      reads this, ring
    {
      && count <= ring.Length && (ring.Length > 0 ==> head < ring.Length)
      && (!closed ==> ring.Length == limits.maxQueuedDatagrams)
      && entries == RingView(ring[..], head, count)
    }

    ghost predicate Valid()
      reads this, ring
    {
      && params.Valid() && limits.InBounds()
      && Shape() && QueueOk(entries, retainedBytes, nextDatagramID, limits, params)
      && (closed ==> entries == [])
    }

    constructor (session: Handle, limits: QueueLimits, params: Parameters, outputBytes: U64)
      requires params.Valid() && limits.InBounds() && limits.maxDatagramBytes <= params.maxDatagramBytes
      ensures Valid() && entries == [] && nextDatagramID == 1 && nextGroupID == 1 && !haveNow && !closed
      ensures this.session == session && this.limits == limits && this.params == params
      ensures this.outputBytes == outputBytes && fresh(ring)
    {
      this.session, this.limits, this.params, this.outputBytes := session, limits, params, outputBytes;
      ring := new Entry[limits.maxQueuedDatagrams](_ => EMPTY_ENTRY);
      head, count, retainedBytes, nextDatagramID, nextGroupID := 0, 0, 0, 1, 1;
      lastNow, haveNow, closed, entries := 0, false, false, [];
    }

    // checkLocked; `scopeClosed` is the credit scope's snapshot.
    function CheckErr(now: int, scopeClosed: bool): QueueErr
      reads this
    {
      if closed || scopeClosed then QueueClosed
      else if haveNow && now < lastNow then ClockRegression
      else NoErr
    }

    function AdmitErr(bytes: nat, now: int, scopeClosed: bool, answer: Err): QueueErr
      reads this
    {
      if CheckErr(now, scopeClosed) != NoErr then CheckErr(now, scopeClosed)
      else if nextDatagramID == 0 || nextGroupID == 0 then IDExhausted
      else if TooLarge(bytes, limits, params) then MessageTooLarge
      else if count == ring.Length || bytes > limits.maxQueuedBytes - retainedBytes then Credit(ResourceLimit)
      else if bytes > 0 && answer != Ok then Credit(answer)
      else NoErr
    }

    // Appends at the tail slot of the ring.
    method Push(e: Entry)
      requires Shape() && !closed && count < ring.Length
      modifies this`entries, this`count, ring
      ensures Shape() && entries == old(entries) + [e]
    {
      ModSmall(head + count, ring.Length);
      ghost var before := ring[..];
      ring[(head + count) % ring.Length] := e;
      count := count + 1;
      assert ring[..] == before[Ahead(head, count - 1, ring.Length) := e];
      entries := entries + [e];
    }

    // Copies and owns the whole Datagram, or changes nothing at all. `answer` and
    // `granted` are the ledger's reply to the one reservation it makes.
    method Admit(payload: seq<Byte>, now: int, scopeClosed: bool, answer: Err, granted: Handle)
      returns (err: QueueErr, id: U64, ops: seq<Op>)
      requires Valid()
      modifies this`entries, this`count, this`retainedBytes, this`nextDatagramID, this`lastNow, this`haveNow, ring
      ensures Valid() && err == old(AdmitErr(|payload|, now, scopeClosed, answer))
      ensures err == NoErr <==>
        && !old(closed) && !scopeClosed && (old(haveNow) ==> old(lastNow) <= now)
        && old(nextDatagramID) != 0 && old(nextGroupID) != 0
        && old(Room(entries, |payload|, limits)) && Cuttable(|payload|, limits, params) && (payload == [] || answer == Ok)
      ensures err == QueueClosed <==> old(closed) || scopeClosed
      ensures err == ClockRegression <==> !old(closed) && !scopeClosed && old(haveNow) && now < old(lastNow)
      ensures err == IDExhausted ==> old(nextDatagramID) == 0 || old(nextGroupID) == 0
      ensures err == MessageTooLarge ==> !Cuttable(|payload|, limits, params)
      ensures err == MessageTooLarge || err.Credit? ==> old(nextDatagramID) != 0 && old(nextGroupID) != 0
      ensures err.Credit? ==> Cuttable(|payload|, limits, params)
      ensures err.Credit? && old(Room(entries, |payload|, limits)) ==> payload != [] && err == Credit(answer)
      ensures err.Credit? && !old(Room(entries, |payload|, limits)) ==> err == Credit(ResourceLimit)
      ensures err != NoErr ==> unchanged(this) && unchanged(ring) && ops == []
      ensures err == NoErr ==> id == old(nextDatagramID) && nextDatagramID == Wrap64(id + 1)
      ensures err == NoErr ==> lastNow == now && haveNow && |payload| <= MAX_U32
      ensures err == NoErr ==> entries == old(entries) + [NewEntry(id, payload, now, granted)]
      ensures err == NoErr ==>
        entries == old(entries) + [Entry(id, payload, 0, 0, now, if payload == [] then 0 else granted)]
      ensures err == NoErr ==> ops == ReserveOps(session, |payload|)
      ensures err == NoErr ==> ops == if payload == [] then [] else [ReserveOp(session, Bytes(|payload|))]
    {
      TooLargeMeans(|payload|, limits, params);
      assert |entries| == count;
      err, id, ops := AdmitErr(|payload|, now, scopeClosed, answer), 0, [];
      if err != NoErr {
        return;
      }
      var lease := 0;
      if |payload| > 0 {
        ops := [ReserveOp(session, Bytes(|payload|))];
        lease := granted;
      }
      id := Commit(payload, now, lease);
    }

    // Gives an admitted Datagram its ID, ring slot and retained bytes.
    method Commit(payload: seq<Byte>, now: int, lease: Handle) returns (id: U64)
      requires Valid() && !closed && nextDatagramID != 0 && count < ring.Length
      requires !TooLarge(|payload|, limits, params) && |payload| <= limits.maxQueuedBytes - retainedBytes
      modifies this`entries, this`count, this`retainedBytes, this`nextDatagramID, this`lastNow, this`haveNow, ring
      ensures Valid() && id == old(nextDatagramID) && nextDatagramID == Wrap64(id + 1)
      ensures |payload| <= MAX_U32 && entries == old(entries) + [Entry(id, payload, 0, 0, now, lease)]
      ensures lastNow == now && haveNow
    {
      id := nextDatagramID;
      var e := Entry(id, payload, 0, 0, now, lease);
      AdmittedOk(entries, retainedBytes, e, limits, params);
      Push(e);
      retainedBytes := retainedBytes + |payload|;
      nextDatagramID := Wrap64(nextDatagramID + 1);
      lastNow, haveNow := now, true;
    }

    method At(i: nat) returns (e: Entry)
      requires Shape() && i < count
      ensures e == entries[i]
    {
      ModSmall(head + i, ring.Length);
      e := ring[(head + i) % ring.Length];
    }

    // planLocked
    method Plan() returns (fragments: seq<Fragment>, cursor: Cursor, full: bool)
      requires Shape()
      ensures cursor == PlanCursor(entries, limits, params)
      ensures fragments == Offered(entries, cursor) && full == IsFull(entries, params, cursor)
    {
      hide RingView, PlanCursor, PlannedTo, Offered, IsFull;
      fragments, cursor, full := [], Cursor(0, 0), false;
      var used := MANIFEST_BYTES;
      var i := 0;
      PlannedNone(entries, limits, params);
      while i < count
        invariant 0 <= i <= count && cursor == Cursor(i, 0) && |fragments| == i
        invariant PlannedTo(entries, limits, params, i, fragments, used)
      {
        var e := At(i);
        PlannedOne(entries, limits, params, i, fragments, used);
        var verdict := Decide(e, limits, params, |fragments|, used);
        if verdict == Stop {
          return fragments, cursor, true;
        }
        fragments := fragments + [Rest(e)];
        if verdict.Cut? {
          return fragments, Cursor(i, verdict.bytes), true;
        }
        used := used + DESCRIPTOR_BYTES + e.Remaining();
        i := i + 1;
        cursor := Cursor(i, 0);
      }
      PlannedAll(entries, limits, params, fragments, used);
      full := used == params.maxLogicalBytes || |fragments| == params.maxDescriptors;
    }

    // dropHeadLocked
    method DropHead() returns (lease: Handle)
      requires Shape() && count > 0
      modifies this`entries, this`head, this`count, this`retainedBytes, ring
      ensures Shape() && entries == old(entries)[1..]
      ensures lease == old(entries)[0].lease
      ensures retainedBytes == old(retainedBytes) - |old(entries)[0].payload|
    {
      var e := ring[head];
      ghost var before := ring[..];
      lease := e.lease;
      retainedBytes := retainedBytes - |e.payload|;
      ring[head] := EMPTY_ENTRY;
      ModSmall(head + 1, ring.Length);
      head := (head + 1) % ring.Length;
      count := count - 1;
      assert ring[..] == before[old(head) := EMPTY_ENTRY];
      entries := entries[1..];
    }

    method DropHeads(n: nat) returns (ops: seq<Op>)
      requires Shape() && n <= count
      modifies this`entries, this`head, this`count, this`retainedBytes, ring
      ensures Shape() && entries == old(entries)[n..]
      ensures retainedBytes == old(retainedBytes) - (Retained(old(entries)) - Retained(old(entries)[n..]))
      ensures ops == ReleaseOps(old(entries)[..n])
    {
      ghost var before := entries;
      assert before[0..] == before;
      ops := [];
      for i := 0 to n
        invariant Shape() && entries == before[i..]
        invariant retainedBytes == old(retainedBytes) - (Retained(before) - Retained(before[i..]))
        invariant ops == ReleaseOps(before[..i])
      {
        var lease := DropHead();
        if lease != 0 {
          ops := ops + [ReleaseOp(lease)];
        }
        assert before[..i + 1][..i] == before[..i];
        assert before[i..][1..] == before[i + 1..];
      }
    }

    // The head entry gave a cut fragment to the group.
    method CutHead(bytes: nat)
      requires Shape() && count > 0 && bytes <= entries[0].Remaining()
      modifies this`entries, ring
      ensures Shape()
      ensures var e := old(entries)[0];
        entries == [e.(offset := e.offset + bytes, fragments := e.fragments + 1)] + old(entries)[1..]
    {
      var e := At(0);
      SetAt(0, e.(offset := e.offset + bytes, fragments := e.fragments + 1));
    }

    // Moves the queue past the cursor of a sealed group.
    method Advance(c: Cursor) returns (ops: seq<Op>)
      requires Shape() && CursorIn(entries, c)
      modifies this`entries, this`head, this`count, this`retainedBytes, ring
      ensures Shape() && entries == After(old(entries), c)
      ensures retainedBytes == old(retainedBytes) - (Retained(old(entries)) - Retained(old(entries)[c.next..]))
      ensures ops == ReleaseOps(old(entries)[..c.next])
    {
      ops := DropHeads(c.next);
      if c.bytes > 0 {
        CutHead(c.bytes);
      }
    }

    ghost predicate Due(now: int)
      reads this
    {
      && entries != []
      && (IsFull(entries, params, PlanCursor(entries, limits, params)) || now >= entries[0].admittedAt + limits.maxDelay)
    }

    // Ready: capacity, descriptors or the oldest admission's deadline.
    method Ready(now: int, scopeClosed: bool) returns (err: QueueErr, ready: bool)
      requires Valid()
      modifies this`lastNow, this`haveNow
      ensures Valid() && err == old(CheckErr(now, scopeClosed))
      ensures if err == NoErr then ready == Due(now) && lastNow == now && haveNow else !ready && unchanged(this)
      ensures err in {NoErr, QueueClosed, ClockRegression} && (err == QueueClosed <==> closed || scopeClosed)
      ensures err == ClockRegression <==> !closed && !scopeClosed && old(haveNow) && now < old(lastNow)
      ensures err == NoErr ==> (ready <==> Owed(entries, limits, params, now))
    {
      FullIsGroupFull(entries, limits, params);
      err, ready := CheckErr(now, scopeClosed), false;
      if err == NoErr {
        lastNow, haveNow := now, true;
        ready := IsDue(now);
      }
    }

    // dueLocked
    method IsDue(now: int) returns (due: bool)
      requires Valid()
      ensures due == Due(now)
    {
      var fragments, cursor, full := Plan();
      due := count > 0;
      if due {
        var oldest := At(0);
        due := full || now >= oldest.admittedAt + limits.maxDelay;
      }
    }

    function SealErr(now: int, scopeClosed: bool): QueueErr
      reads this
    {
      if CheckErr(now, scopeClosed) != NoErr then CheckErr(now, scopeClosed)
      else if count > 0 && nextGroupID == 0 then IDExhausted
      else NoErr
    }

    // A seal with an answered reservation emits a group.
    ghost predicate Emits(now: int, force: bool, scopeClosed: bool)
      reads this
    {
      SealErr(now, scopeClosed) == NoErr && entries != [] && (force || Due(now))
    }

    // Packing a plan cannot fail, and its cursor is the planned one.
    method PackPlanned(fragments: seq<Fragment>, planned: Cursor) returns (group: seq<Fragment>)
      requires params.Valid() && EntriesOk(entries, limits, params) && entries != []
      requires planned == PlanCursor(entries, limits, params) && fragments == Offered(entries, planned)
      ensures group == Taken(entries, planned)
    {
      var packing, packed;
      packing, group, packed := PackPrefix(params, fragments);
      PlansProgress(entries, limits, params);
      PackerAgrees(entries, limits, params, packed);
      if packing != Packed || packed != planned {
        assert false;
      }
    }

    // The part of seal behind a due plan: pack it and advance the queue.
    method Emit(granted: Handle) returns (output: Output, ops: seq<Op>)
      requires Valid() && entries != []
      modifies this`entries, this`head, this`count, this`retainedBytes, this`nextGroupID, ring
      ensures Valid() && nextGroupID == Wrap64(old(nextGroupID) + 1)
      ensures output == Output(old(nextGroupID), SealedGroup(old(entries), limits, params), granted)
      ensures entries == Remainder(old(entries), limits, params)
      ensures ops == SealOps(session, outputBytes, old(entries), limits, params)
    {
      hide RingView, PlanCursor, Taken, Retained;
      var fragments, planned, _ := Plan();
      var group := PackPlanned(fragments, planned);
      AfterOk(entries, retainedBytes, nextDatagramID, limits, params);
      output := Output(nextGroupID, group, granted);
      ops := Advance(planned);
      ops := [ReserveOp(session, Bytes(outputBytes))] + ops;
      nextGroupID := Wrap64(nextGroupID + 1);
    }

    // Whether a seal may proceed and would emit a group.
    method Gate(now: int, force: bool, scopeClosed: bool) returns (err: QueueErr, emits: bool)
      requires Valid()
      ensures err == SealErr(now, scopeClosed) && emits == Emits(now, force, scopeClosed)
    {
      err := SealErr(now, scopeClosed);
      var due := IsDue(now);
      emits := err == NoErr && count > 0 && (force || due);
    }

    // seal: at most one group, from the front of the queue. `answer` and `granted`
    // are the ledger's reply to the reservation of the output.
    method Seal(now: int, force: bool, scopeClosed: bool, answer: Err, granted: Handle)
      returns (err: QueueErr, output: Output, ops: seq<Op>)
      requires Valid()
      modifies this`entries, this`head, this`count, this`retainedBytes, this`nextGroupID, this`lastNow, this`haveNow, ring
      ensures Valid()
      ensures err == if old(Emits(now, force, scopeClosed)) && answer != Ok then Credit(answer) else old(SealErr(now, scopeClosed))
      ensures err != NoErr ==> unchanged(this) && unchanged(ring)
      ensures err == NoErr ==> lastNow == now && haveNow
      ensures output.Output? <==> err == NoErr && old(Emits(now, force, scopeClosed))
      ensures output.Output? ==> ops == SealOps(session, outputBytes, old(entries), limits, params)
      ensures output.Output? ==> output == Output(old(nextGroupID), SealedGroup(old(entries), limits, params), granted)
      ensures output.Output? ==> entries == Remainder(old(entries), limits, params)
      ensures output.Output? ==> nextGroupID == Wrap64(old(nextGroupID) + 1)
      ensures !output.Output? ==> ops == [] && entries == old(entries) && nextGroupID == old(nextGroupID)
      ensures err == QueueClosed <==> closed || scopeClosed
      ensures err == ClockRegression <==> !closed && !scopeClosed && old(haveNow) && now < old(lastNow)
      ensures err == IDExhausted <==>
        !closed && !scopeClosed && (old(haveNow) ==> old(lastNow) <= now) && old(entries) != [] && old(nextGroupID) == 0
      ensures output.Output? <==> err == NoErr && old(entries) != [] && (force || Owed(old(entries), limits, params, now))
      ensures output.Output? ==>
        ops == [ReserveOp(session, Bytes(outputBytes))] + ReleaseOps(old(entries)[..|old(entries)| - |entries|])
    {
      hide QueueOk, RingView, Remainder, SealedGroup, SealOps;
      FullIsGroupFull(entries, limits, params);
      SealReleases(session, outputBytes, entries, limits, params);
      var emits;
      err, emits := Gate(now, force, scopeClosed);
      output, ops := NoOutput, [];
      if emits && answer != Ok {
        err := Credit(answer);
      }
      if err == NoErr {
        if emits {
          output, ops := Emit(granted);
        }
        lastNow, haveNow := now, true;
      }
    }

    method Find(id: U64) returns (found: bool, i: nat)
      requires Shape()
      ensures found ==> i < count && entries[i].id == id
      ensures !found ==> forall k :: 0 <= k < |entries| ==> entries[k].id != id
    {
      found, i := false, 0;
      while i < count
        invariant i <= count && forall k :: 0 <= k < i ==> entries[k].id != id
      {
        var e := At(i);
        if e.id == id {
          return true, i;
        }
        i := i + 1;
      }
    }

    // Cancel drops the queued remainder of one original and closes the gap.
    method Cancel(id: U64) returns (found: bool, ops: seq<Op>)
      requires Valid()
      modifies this`entries, this`count, this`retainedBytes, ring
      ensures Valid()
      ensures found <==> !closed && exists i :: 0 <= i < |old(entries)| && old(entries)[i].id == id
      ensures !found ==> unchanged(this) && unchanged(ring) && ops == []
      ensures found ==> forall i :: 0 <= i < |old(entries)| && old(entries)[i].id == id ==>
        entries == Without(old(entries), i) && ops == ReleaseOps([old(entries)[i]])
    {
      found, ops := false, [];
      if closed {
        return;
      }
      var i;
      found, i := Find(id);
      if found {
        OnlyOne(entries, limits, params, i);
        ops := Remove(i);
      }
    }

    // Drops the entry at position i with its retained bytes.
    method Remove(i: nat) returns (ops: seq<Op>)
      requires Valid() && i < count
      modifies this`entries, this`count, this`retainedBytes, ring
      ensures Valid() && entries == Without(old(entries), i)
      ensures ops == ReleaseOps([old(entries)[i]])
    {
      hide RingView, Without, EntriesOk, Retained;
      var e := At(i);
      CancelOk(entries, retainedBytes, nextDatagramID, limits, params, i);
      CloseGap(i);
      retainedBytes := retainedBytes - |e.payload|;
      assert [e][..0] == [];
      ops := if e.lease == 0 then [] else [ReleaseOp(e.lease)];
    }

    method CloseGap(i: nat)
      requires Shape() && i < count
      modifies this`entries, this`count, ring
      ensures Shape() && entries == Without(old(entries), i)
    {
      ghost var before := entries;
      ShiftAll(before, i);
      var j := i;
      while j < count - 1
        invariant i <= j < count == |before| && Shape()
        invariant entries == MovedDown(before, i, j)
      {
        ShiftOne(before, i, j);
        var moved := At(j + 1);
        SetAt(j, moved);
        j := j + 1;
      }
      DropLast();
    }

    method SetAt(k: nat, e: Entry)
      requires Shape() && k < count
      modifies this`entries, ring
      ensures Shape() && entries == old(entries)[k := e]
    {
      ModSmall(head + k, ring.Length);
      RingUpdate(ring[..], head, count, k, e);
      ghost var next := ring[..][Ahead(head, k, ring.Length) := e];
      ring[(head + k) % ring.Length] := e;
      assert ring[..] == next;
      entries := entries[k := e];
    }

    method DropLast()
      requires Shape() && count > 0
      modifies this`entries, this`count, ring
      ensures Shape() && entries == old(entries)[..|old(entries)| - 1]
    {
      SetAt(count - 1, EMPTY_ENTRY);
      count := count - 1;
      entries := entries[..count];
    }

    // Close discards every unsealed remainder and hands their leases back.
    method Close(ringLease: Handle) returns (ops: seq<Op>)
      requires Valid()
      modifies this
      modifies ring
      ensures Valid() && closed && entries == []
      ensures ops == if old(closed) then [] else ReleaseOps(old(entries)) + [ReleaseOp(ringLease)]
      ensures old(closed) ==> unchanged(this)
      ensures !old(closed) ==> fresh(ring) && ring.Length == 0
    {
      if closed {
        return [];
      }
      closed := true;
      ops := DropHeads(count);
      assert old(entries)[..|old(entries)|] == old(entries);
      ops := ops + [ReleaseOp(ringLease)];
      ring, head := new Entry[0], 0;
    }
  }
}
