// The sender's queue and the receiver's reassembly, joined by a network that
// may lose, duplicate and reorder the groups in between.
module EndToEnd {
  import opened Words
  import opened Packing
  import opened SenderRun
  import opened Reassembly
  import AggregationQueue
  import CreditLedger
  import RecvWindow

  // Everything the sender ever emitted, as the receiver may rely on it.
  ghost predicate SourceOk(log: seq<Fragment>, sent: map<U64, seq<Byte>>, q: AggregationQueue.QueueLimits) {
    Genuine(log, sent, q) && Forward(log) && forall id :: CountOf(log, id) <= q.maxFragments
  }

  // The receiver's limits admit whatever the queue may emit.
  predicate AtLeast(limits: Limits, q: AggregationQueue.QueueLimits) {
    limits.InBounds() && limits.maxDatagramBytes >= q.maxDatagramBytes && limits.maxFragments >= q.maxFragments
  }

  predicate IsPiece(log: seq<Fragment>, id: U64, r: Interval) {
    exists i :: 0 <= i < |log| && log[i].id == id && Range(log[i]) == r
  }

  ghost predicate AllPieces(ranges: seq<Interval>, log: seq<Fragment>, id: U64) {
    forall i :: 0 <= i < |ranges| ==> IsPiece(log, id, ranges[i])
  }

  // A pending original holds true bytes wherever it claims to hold any.
  ghost predicate Matches(a: Assembly, id: U64, log: seq<Fragment>, sent: map<U64, seq<Byte>>) {
    && id in sent && a.total == |sent[id]|
    && AllPieces(a.ranges, log, id)
    && forall k :: 0 <= k < a.total && InRanges(a.ranges, k) ==> a.data[k] == sent[id][k]
  }

  ghost predicate StoreMatches(st: Store, log: seq<Fragment>, sent: map<U64, seq<Byte>>) {
    forall id :: id in st.pending ==> Matches(st.pending[id], id, log, sent)
  }

  // ---------------------------------------------------------------------------
  // A true fragment never contradicts a store of true fragments

  // Distinct pieces of one original are no more than the fragments emitted for it.
  lemma {:induction false} PiecesAreCounted(ranges: seq<Interval>, total: int, log: seq<Fragment>, id: U64)
    requires RangesOk(ranges, total) && AllPieces(ranges, log, id)
    ensures |ranges| <= CountOf(log, id)
    decreases |log|
  {
    if ranges != [] {
      assert IsPiece(log, id, ranges[0]);
      var g, rest := log[|log| - 1], log[..|log| - 1];
      if g.id == id && Range(g) in ranges {
        var i :| 0 <= i < |ranges| && ranges[i] == Range(g);
        var others := ranges[..i] + ranges[i + 1..];
        OthersOk(ranges, total, i);
        PiecesBefore(others, log, id);
        PiecesAreCounted(others, total, rest, id);
      } else {
        PiecesBefore(ranges, log, id);
        PiecesAreCounted(ranges, total, rest, id);
      }
    }
  }

  lemma OthersOk(ranges: seq<Interval>, total: int, i: nat)
    requires RangesOk(ranges, total) && i < |ranges|
    ensures RangesOk(ranges[..i] + ranges[i + 1..], total)
    ensures ranges[i] !in ranges[..i] + ranges[i + 1..]
    ensures forall x :: x in ranges[..i] + ranges[i + 1..] ==> x in ranges
  {
    var others := ranges[..i] + ranges[i + 1..];
    assert forall k :: 0 <= k < |others| ==> others[k] == ranges[if k < i then k else k + 1];
    assert forall k :: 0 <= k < i ==> InOrder(ranges[k], ranges[i]);
    assert forall k :: i < k < |ranges| ==> InOrder(ranges[i], ranges[k]);
  }

  lemma PiecesBefore(ranges: seq<Interval>, log: seq<Fragment>, id: U64)
    requires log != [] && forall x :: x in ranges ==> IsPiece(log, id, x)
    requires log[|log| - 1].id == id ==> Range(log[|log| - 1]) !in ranges
    ensures AllPieces(ranges, log[..|log| - 1], id)
  {
    forall i | 0 <= i < |ranges|
      ensures IsPiece(log[..|log| - 1], id, ranges[i])
    {
      assert ranges[i] in ranges;
      var j :| 0 <= j < |log| && log[j].id == id && Range(log[j]) == ranges[i];
      assert log[..|log| - 1][j] == log[j];
    }
  }

  // Two pieces of one original are the same piece or do not touch.
  lemma PiecesApart(log: seq<Fragment>, f: Fragment, r: Interval)
    requires Forward(log) && f in log && IsPiece(log, f.id, r)
    ensures r == Range(f) || r.end <= f.offset || f.End() <= r.start
  {
    var m :| 0 <= m < |log| && log[m] == f;
    var j :| 0 <= j < |log| && log[j].id == f.id && Range(log[j]) == r;
    if j < m {
      assert Before(log[j], log[m]);
    } else if m < j {
      assert Before(log[m], log[j]);
    }
  }

  lemma InspectTrue(a: Assembly, f: Fragment, limits: Limits, log: seq<Fragment>, sent: map<U64, seq<Byte>>,
                    q: AggregationQueue.QueueLimits)
    requires SourceOk(log, sent, q) && f in log && AssemblyOk(a, limits) && Matches(a, f.id, log, sent) && FitsIn(f, a)
    ensures Inspect(a, f) == Repeats || (Inspect(a, f).Fits? && |a.ranges| < q.maxFragments)
    ensures Inspect(a, f) == Repeats ==> Range(f) in a.ranges
  {
    hide CountOf, Covered;
    var at := Position(a.ranges, f.offset);
    PositionSplits(a.ranges, a.total, f.offset);
    if at > 0 {
      PiecesApart(log, f, a.ranges[at - 1]);
    }
    if at < |a.ranges| {
      PiecesApart(log, f, a.ranges[at]);
    }
    if at < |a.ranges| && a.ranges[at] == Range(f) {
      TrueBytes(a, f, at, log, sent, q);
    } else {
      NonemptyRange(a, f, limits, log, sent, q);
      InsertedOk(a.ranges, a.total, at, Range(f));
      InsertedPieces(a.ranges, at, f, log);
      PiecesAreCounted(Inserted(a.ranges, at, Range(f)), a.total, log, f.id);
    }
  }

  lemma TrueBytes(a: Assembly, f: Fragment, at: nat, log: seq<Fragment>, sent: map<U64, seq<Byte>>,
                  q: AggregationQueue.QueueLimits)
    requires SourceOk(log, sent, q) && f in log && Matches(a, f.id, log, sent) && FitsIn(f, a)
    requires at < |a.ranges| && a.ranges[at] == Range(f)
    ensures a.data[f.offset..f.End()] == f.payload
  {
    forall k | f.offset <= k < f.End()
      ensures a.data[k] == sent[f.id][k]
    {
      assert Holds(a.ranges[at], k);
      assert InRanges(a.ranges, k);
    }
  }

  // Pending originals are never empty, so neither are their pieces.
  lemma NonemptyRange(a: Assembly, f: Fragment, limits: Limits, log: seq<Fragment>, sent: map<U64, seq<Byte>>,
                      q: AggregationQueue.QueueLimits)
    requires Genuine(log, sent, q) && f in log && AssemblyOk(a, limits) && FitsIn(f, a)
    ensures f.offset < f.End() <= a.total
  {
    FullIffNothingMissing(a.ranges, a.total);
  }

  lemma InsertedPieces(ranges: seq<Interval>, at: nat, f: Fragment, log: seq<Fragment>)
    requires at <= |ranges| && AllPieces(ranges, log, f.id) && f in log
    ensures AllPieces(Inserted(ranges, at, Range(f)), log, f.id)
  {
    var next := Inserted(ranges, at, Range(f));
    assert IsPiece(log, f.id, Range(f)) by {
      var m :| 0 <= m < |log| && log[m] == f;
      assert log[m].id == f.id;
    }
    assert forall i :: 0 <= i < |next| ==> next[i] == if i < at then ranges[i] else if i == at then Range(f) else ranges[i - 1];
  }

  // A Datagram's fragments never fail at a receiver that heard only true ones.
  lemma PlanNeverFails(st: Store, limits: Limits, now: int, f: Fragment, log: seq<Fragment>,
                       sent: map<U64, seq<Byte>>, q: AggregationQueue.QueueLimits)
    requires SourceOk(log, sent, q) && AtLeast(limits, q) && f in log
    requires StoreOk(st, limits, now) && StoreMatches(st, log, sent)
    ensures f.End() <= f.total && !PlanFor(st, limits, now, f).Fail?
  {
    hide AssemblyOk, CountOf, Sorted, Inspect;
    if f.id in st.pending {
      assert PendingOk(st, limits, now, f.id);
      assert Matches(st.pending[f.id], f.id, log, sent);
      InspectTrue(st.pending[f.id], f, limits, log, sent, q);
    }
  }

  // ---------------------------------------------------------------------------
  // One true fragment

  predicate TrueDelivery(d: Delivery, sent: map<U64, seq<Byte>>) {
    d.id in sent && d.data == sent[d.id]
  }

  lemma InLog(log: seq<Fragment>, sent: map<U64, seq<Byte>>, q: AggregationQueue.QueueLimits, f: Fragment)
    requires Genuine(log, sent, q) && f in log
    ensures f.id != 0 && f.id in sent && PieceOf(f, sent[f.id]) && f.total <= q.maxDatagramBytes
  {
  }

  // Copying a true fragment in keeps the original true.
  lemma WrittenMatches(a: Assembly, f: Fragment, at: nat, log: seq<Fragment>, sent: map<U64, seq<Byte>>,
                       q: AggregationQueue.QueueLimits)
    requires SourceOk(log, sent, q) && f in log && Matches(a, f.id, log, sent) && FitsIn(f, a) && at <= |a.ranges|
    ensures Matches(Written(a, f, at), f.id, log, sent)
  {
    hide SourceOk, IsPiece, Inserted;
    FullPiece(log, sent, q, f);
    InsertedPieces(a.ranges, at, f, log);
    var b := Written(a, f, at);
    forall k | 0 <= k < b.total && InRanges(b.ranges, k)
      ensures b.data[k] == sent[f.id][k]
    {
      if f.offset <= k < f.End() {
        assert b.data[k] == f.payload[k - f.offset];
      } else {
        InsertedHolds(a.ranges, at, Range(f), k);
        assert b.data[k] == a.data[k];
      }
    }
  }

  lemma InsertedHolds(ranges: seq<Interval>, at: nat, x: Interval, k: int)
    requires at <= |ranges| && InRanges(Inserted(ranges, at, x), k)
    ensures Holds(x, k) || InRanges(ranges, k)
  {
    var next := Inserted(ranges, at, x);
    var i :| 0 <= i < |next| && Holds(next[i], k);
    if i != at {
      assert next[i] == ranges[if i < at then i else i - 1];
    }
  }

  lemma FreshMatches(f: Fragment, now: int, lease: Handle, log: seq<Fragment>, sent: map<U64, seq<Byte>>,
                     q: AggregationQueue.QueueLimits)
    requires SourceOk(log, sent, q) && f in log && f.End() <= f.total
    ensures Matches(Written(Fresh(f.total, now, lease), f, 0), f.id, log, sent)
  {
    InLog(log, sent, q, f);
    var a := Fresh(f.total, now, lease);
    assert forall k :: !InRanges(a.ranges, k);
    WrittenMatches(a, f, 0, log, sent, q);
  }

  // A full true original is the Datagram itself.
  lemma WholeIsSent(b: Assembly, id: U64, log: seq<Fragment>, sent: map<U64, seq<Byte>>)
    requires Matches(b, id, log, sent) && Whole(b)
    ensures b.data == sent[id]
  {
    assert forall k :: 0 <= k < b.total ==> InRanges(b.ranges, k);
  }

  lemma AddTrue(st: Store, limits: Limits, now: int, f: Fragment, lease: Handle, log: seq<Fragment>,
                sent: map<U64, seq<Byte>>, q: AggregationQueue.QueueLimits)
    requires SourceOk(log, sent, q) && AtLeast(limits, q) && f in log && Acceptable(f, limits, 0)
    requires StoreOk(st, limits, now) && StoreMatches(st, log, sent)
    ensures StoreMatches(AddOne(st, limits, now, f, lease).store, log, sent)
    ensures forall d :: d in AddOne(st, limits, now, f, lease).delivered ==> d.id == f.id && TrueDelivery(d, sent)
  {
    hide SourceOk, StoreOk, Matches, Written, Whole, RecvWindow.History.State, RecvWindow.History.Admit,
      RecvWindow.History.Finish, DeadlineList.Without, Inspect;
    DeliversWhenWhole(st, limits, now, f, lease);
    match PlanFor(st, limits, now, f)
    case Insert(at) =>
      var b := Written(st.pending[f.id], f, at);
      WrittenMatches(st.pending[f.id], f, at, log, sent, q);
      if Whole(b) {
        InSent(b, f.id, log, sent);
        WholeIsSent(b, f.id, log, sent);
      }
    case Admit =>
      FreshMatches(f, now, lease, log, sent, q);
      FullPiece(log, sent, q, f);
    case _ =>
  }

  lemma InSent(b: Assembly, id: U64, log: seq<Fragment>, sent: map<U64, seq<Byte>>)
    requires Matches(b, id, log, sent)
    ensures id in sent
  {
  }

  lemma FullPiece(log: seq<Fragment>, sent: map<U64, seq<Byte>>, q: AggregationQueue.QueueLimits, f: Fragment)
    requires SourceOk(log, sent, q) && f in log
    ensures f.id in sent && f.total == |sent[f.id]| && f.End() <= f.total
    ensures f.payload == sent[f.id][f.offset..f.End()]
    ensures |f.payload| == f.total ==> f.payload == sent[f.id]
  {
    InLog(log, sent, q, f);
  }

  // ---------------------------------------------------------------------------
  // Receptions

  // A receiver together with all it has delivered so far.
  datatype Reception = Reception(store: Store, clock: int, delivered: seq<Delivery>)

  predicate Once(ds: seq<Delivery>) {
    forall i, j :: 0 <= i < j < |ds| ==> ds[i].id != ds[j].id
  }

  predicate Settled(st: Store, sent: map<U64, seq<Byte>>, d: Delivery) {
    TrueDelivery(d, sent) && Delivered(st, d.id)
  }

  ghost predicate ReceptionOk(r: Reception, limits: Limits, log: seq<Fragment>, sent: map<U64, seq<Byte>>) {
    && StoreOk(r.store, limits, r.clock) && StoreMatches(r.store, log, sent)
    && (forall i :: 0 <= i < |r.delivered| ==> Settled(r.store, sent, r.delivered[i]))
    && Once(r.delivered)
  }

  function Absorb(r: Reception, limits: Limits, now: int, f: Fragment, lease: Handle): Reception
    requires f.End() <= f.total
  {
    var a := AddOne(r.store, limits, now, f, lease);
    Reception(a.store, now, r.delivered + a.delivered)
  }

  // A delivered original stays terminal, and none of its fragments has an effect.
  lemma DeliveredStays(st: Store, limits: Limits, now: int, f: Fragment, lease: Handle, x: U64)
    requires limits.InBounds() && StoreOk(st, limits, now) && Acceptable(f, limits, 0) && Delivered(st, x)
    ensures Delivered(AddOne(st, limits, now, f, lease).store, x)
    ensures f.id == x ==> AddOne(st, limits, now, f, lease).delivered == []
  {
    hide Written, Inspect, AssemblyOk, DeadlineList.Without, Sorted, DeadlineList.Distinct,
      RecvWindow.History.Admit, RecvWindow.History.Finish, RecvWindow.History.State;
    if f.id != x {
      match PlanFor(st, limits, now, f)
      case Elapsed => RetireOther(st, limits, now, f.id, RecvWindow.Expired);
      case Insert(at) => RetireOther(st, limits, now, f.id, RecvWindow.Completed);
      case Admit =>
        AdmitFrame(st.window, f.id);
        FinishFrame(st.window.Admit(f.id), f.id, RecvWindow.Completed);
      case _ =>
    }
  }

  lemma RetireOther(st: Store, limits: Limits, now: int, id: U64, outcome: RecvWindow.Status)
    requires StoreOk(st, limits, now) && id in st.pending
    ensures forall x: nat :: x != id ==> Retire(st, id, outcome).window.State(x) == st.window.State(x)
  {
    hide AssemblyOk, Sorted, DeadlineList.Distinct, DeadlineList.Without, RecvWindow.History.Finish, RecvWindow.History.State;
    assert PendingOk(st, limits, now, id);
    FinishFrame(st.window, id, outcome);
  }

  // What a fragment delivers was not delivered before, and now is terminal.
  lemma DeliversAnew(st: Store, limits: Limits, now: int, f: Fragment, lease: Handle)
    requires limits.InBounds() && StoreOk(st, limits, now) && Acceptable(f, limits, 0)
    ensures |AddOne(st, limits, now, f, lease).delivered| <= 1
    ensures AddOne(st, limits, now, f, lease).delivered != [] ==>
      AddOne(st, limits, now, f, lease).delivered[0].id == f.id && !Delivered(st, f.id)
      && Delivered(AddOne(st, limits, now, f, lease).store, f.id)
  {
    hide Written, StoreOk, Inspect, AssemblyOk, Retire, Enter, RecvWindow.History.State;
    DeliveryIsTerminal(st, limits, now, f, lease);
  }

  /** A true fragment keeps every reception true: what is delivered is the payload
      that was sent, and nothing is delivered twice. */
  lemma AbsorbKeeps(r: Reception, limits: Limits, now: int, f: Fragment, lease: Handle, log: seq<Fragment>,
                    sent: map<U64, seq<Byte>>, q: AggregationQueue.QueueLimits)
    requires SourceOk(log, sent, q) && AtLeast(limits, q) && f in log && Acceptable(f, limits, 0)
    requires ReceptionOk(r, limits, log, sent) && r.clock <= now
    ensures ReceptionOk(Absorb(r, limits, now, f, lease), limits, log, sent)
    ensures Absorb(r, limits, now, f, lease).clock == now
  {
    hide SourceOk, StoreOk, StoreMatches, AddOne, Delivered, TrueDelivery;
    LaterOk(r.store, limits, r.clock, now);
    AddOneOk(r.store, limits, now, f, lease);
    AddTrue(r.store, limits, now, f, lease, log, sent, q);
    DeliversAnew(r.store, limits, now, f, lease);
    var a := AddOne(r.store, limits, now, f, lease);
    var next := r.delivered + a.delivered;
    forall i | 0 <= i < |next|
      ensures Settled(a.store, sent, next[i])
    {
      if i < |r.delivered| {
        assert Settled(r.store, sent, r.delivered[i]);
        DeliveredStays(r.store, limits, now, f, lease, r.delivered[i].id);
      } else {
        assert next[i] == a.delivered[0];
        assert next[i] in a.delivered;
      }
    }
    forall i, j | 0 <= i < j < |next|
      ensures next[i].id != next[j].id
    {
      assert i < |r.delivered| ==> Settled(r.store, sent, r.delivered[i]);
    }
  }

  // ---------------------------------------------------------------------------
  // Runs of the receiver

  // A group arrives, with the ledger's replies, or the owner lets time pass.
  datatype Event =
    | Arrive(now: int, group: seq<Fragment>, answer: nat -> CreditLedger.Err, grant: nat -> CreditLedger.Handle)
    | Tick(now: int)

  // The state of Receiver after AddGroup or Expire.
  ghost function Next(r: Reception, scope: CreditLedger.Handle, limits: Limits, e: Event): (next: Reception)
    requires limits.InBounds() && StoreOk(r.store, limits, r.clock)
    ensures StoreOk(next.store, limits, next.clock) && next.clock >= r.clock
  {
    if e.now < r.clock then r
    else
      LaterOk(r.store, limits, r.clock, e.now);
      match e
      case Arrive(now, group, answer, grant) =>
        if !(1 <= |group| <= MAX_DESCRIPTORS && AcceptableGroup(group, limits)) then r
        else
          var a := AddAll(r.store, scope, limits, now, group, answer, grant);
          AddAllOk(r.store, scope, limits, now, group, answer, grant);
          if a.err != NoErr then r else Reception(a.added.store, now, r.delivered + a.added.delivered)
      case Tick(now) =>
        ExpiresExactlyTheElapsed(r.store, limits, now);
        Reception(ExpireAll(r.store, r.store.order[..DueCount(r.store, limits, now, 0)]), now, r.delivered)
  }

  lemma AddAllOk(st: Store, scope: CreditLedger.Handle, limits: Limits, now: int, fs: seq<Fragment>,
                 answer: nat -> CreditLedger.Err, grant: nat -> CreditLedger.Handle)
    requires limits.InBounds() && StoreOk(st, limits, now) && AcceptableGroup(fs, limits)
    ensures StoreOk(AddAll(st, scope, limits, now, fs, answer, grant).added.store, limits, now)
  {
    hide StoreOk, AddOne, PlanErr, CountTo, ReserveOps, RollbackOps, AcceptableGroup, Refused;
    GroupIsSound(fs, limits);
    var plans := Plans(st, limits, now, fs);
    AddToOk(st, limits, now, fs, Leases(plans, grant, |fs|), |fs|);
  }

  ghost function RunReceiver(
    limits: Limits, scope: CreditLedger.Handle, clock: int, events: seq<Event>): (r: Reception)
    requires limits.InBounds()
    ensures StoreOk(r.store, limits, r.clock)
  {
    if events == [] then Reception(Store(map[], [], RecvWindow.NewHistory(limits.span)), clock, [])
    else Next(RunReceiver(limits, scope, clock, events[..|events| - 1]), scope, limits, events[|events| - 1])
  }

  // The fragments of a group, absorbed one after the other.
  function AbsorbTo(r: Reception, limits: Limits, now: int, fs: seq<Fragment>, leases: seq<CreditLedger.Handle>, n: nat): Reception
    requires n <= |fs| <= |leases| && forall i :: 0 <= i < |fs| ==> fs[i].End() <= fs[i].total
  {
    if n == 0 then r else Absorb(AbsorbTo(r, limits, now, fs, leases, n - 1), limits, now, fs[n - 1], leases[n - 1])
  }

  lemma {:induction false} AbsorbToIsAddTo(
    r: Reception, limits: Limits, now: int, fs: seq<Fragment>, leases: seq<CreditLedger.Handle>, n: nat)
    requires 0 < n <= |fs| <= |leases| && forall i :: 0 <= i < |fs| ==> fs[i].End() <= fs[i].total
    ensures var a := AddTo(r.store, limits, now, fs, leases, n);
      AbsorbTo(r, limits, now, fs, leases, n) == Reception(a.store, now, r.delivered + a.delivered)
  {
    hide AddOne;
    if n == 1 {
      assert AddTo(r.store, limits, now, fs, leases, 0) == Added(r.store, [], []);
    } else {
      AbsorbToIsAddTo(r, limits, now, fs, leases, n - 1);
    }
  }

  // A group emitted by the sender.
  ghost predicate TrueGroup(group: seq<Fragment>, limits: Limits, log: seq<Fragment>) {
    1 <= |group| <= MAX_DESCRIPTORS && AcceptableGroup(group, limits) && forall f :: f in group ==> f in log
  }

  lemma {:induction false} AbsorbToKeeps(
    r: Reception, limits: Limits, now: int, fs: seq<Fragment>, leases: seq<CreditLedger.Handle>, n: nat,
    log: seq<Fragment>, sent: map<U64, seq<Byte>>, q: AggregationQueue.QueueLimits)
    requires SourceOk(log, sent, q) && AtLeast(limits, q) && TrueGroup(fs, limits, log)
    requires n <= |fs| <= |leases| && forall i :: 0 <= i < |fs| ==> fs[i].End() <= fs[i].total
    requires ReceptionOk(r, limits, log, sent) && r.clock <= now
    ensures ReceptionOk(AbsorbTo(r, limits, now, fs, leases, n), limits, log, sent)
    ensures AbsorbTo(r, limits, now, fs, leases, n).clock <= now
  {
    hide SourceOk, ReceptionOk, AcceptableGroup, Absorb, Acceptable;
    if n > 0 {
      AbsorbToKeeps(r, limits, now, fs, leases, n - 1, log, sent, q);
      Ascending(fs, limits, n - 1, n - 1);
      AbsorbKeeps(AbsorbTo(r, limits, now, fs, leases, n - 1), limits, now, fs[n - 1], leases[n - 1], log, sent, q);
    }
  }

  lemma {:induction false} NoConflict(
    st: Store, limits: Limits, now: int, fs: seq<Fragment>, n: nat, log: seq<Fragment>,
    sent: map<U64, seq<Byte>>, q: AggregationQueue.QueueLimits)
    requires SourceOk(log, sent, q) && AtLeast(limits, q) && TrueGroup(fs, limits, log) && n <= |fs|
    requires forall i :: 0 <= i < |fs| ==> fs[i].End() <= fs[i].total
    requires StoreOk(st, limits, now) && StoreMatches(st, log, sent)
    ensures PlanErr(st, limits, now, fs, n) == NoErr
  {
    hide SourceOk, StoreOk, StoreMatches, PlanFor;
    if n > 0 {
      NoConflict(st, limits, now, fs, n - 1, log, sent, q);
      PlanNeverFails(st, limits, now, fs[n - 1], log, sent, q);
    }
  }

  /** A group the sender emitted is never answered with a conflict or an overlap:
      the receiver may only refuse it for want of storage. */
  lemma TrueGroupOnlyRefused(
    r: Reception, scope: CreditLedger.Handle, limits: Limits, e: Event, log: seq<Fragment>,
    sent: map<U64, seq<Byte>>, q: AggregationQueue.QueueLimits)
    requires SourceOk(log, sent, q) && AtLeast(limits, q) && ReceptionOk(r, limits, log, sent)
    requires e.Arrive? && e.now >= r.clock && TrueGroup(e.group, limits, log)
    ensures var err := AddAll(r.store, scope, limits, e.now, e.group, e.answer, e.grant).err;
      err == NoErr || err.Credit?
  {
    hide SourceOk, AcceptableGroup, StoreOk, StoreMatches, PlanErr, Settled, AddTo, CountTo, Refused;
    GroupIsSound(e.group, limits);
    LaterOk(r.store, limits, r.clock, e.now);
    NoConflict(r.store, limits, e.now, e.group, |e.group|, log, sent, q);
  }

  predicate Accepted(r: Reception, scope: CreditLedger.Handle, limits: Limits, e: Event)
    requires limits.InBounds()
  {
    && e.Arrive? && e.now >= r.clock && 1 <= |e.group| <= MAX_DESCRIPTORS && AcceptableGroup(e.group, limits)
    && AddAll(r.store, scope, limits, e.now, e.group, e.answer, e.grant).err == NoErr
  }

  // An accepted group is absorbed fragment by fragment.
  lemma AcceptedIsAbsorbed(r: Reception, scope: CreditLedger.Handle, limits: Limits, e: Event)
    returns (leases: seq<CreditLedger.Handle>)
    requires limits.InBounds() && StoreOk(r.store, limits, r.clock) && Accepted(r, scope, limits, e)
    ensures |leases| == |e.group| && forall i :: 0 <= i < |e.group| ==> e.group[i].End() <= e.group[i].total
    ensures Next(r, scope, limits, e) == AbsorbTo(r, limits, e.now, e.group, leases, |e.group|)
  {
    hide AcceptableGroup, StoreOk, PlanErr, AddTo, CountTo, Refused, AbsorbTo;
    GroupIsSound(e.group, limits);
    leases := Leases(Plans(r.store, limits, e.now, e.group), e.grant, |e.group|);
    AbsorbToIsAddTo(r, limits, e.now, e.group, leases, |e.group|);
  }

  lemma RefusedKeeps(r: Reception, scope: CreditLedger.Handle, limits: Limits, e: Event)
    requires limits.InBounds() && StoreOk(r.store, limits, r.clock) && e.Arrive? && !Accepted(r, scope, limits, e)
    ensures Next(r, scope, limits, e) == r
  {
    hide AcceptableGroup, StoreOk, AddAll;
  }

  lemma ArriveKeeps(
    r: Reception, scope: CreditLedger.Handle, limits: Limits, e: Event, log: seq<Fragment>,
    sent: map<U64, seq<Byte>>, q: AggregationQueue.QueueLimits)
    requires SourceOk(log, sent, q) && AtLeast(limits, q) && ReceptionOk(r, limits, log, sent)
    requires e.Arrive? && TrueGroup(e.group, limits, log)
    ensures ReceptionOk(Next(r, scope, limits, e), limits, log, sent)
  {
    hide SourceOk, StoreOk, StoreMatches, Settled, Accepted, TrueGroup, AbsorbTo;
    if Accepted(r, scope, limits, e) {
      var leases := AcceptedIsAbsorbed(r, scope, limits, e);
      InTimeOrder(r, scope, limits, e);
      AbsorbToKeeps(r, limits, e.now, e.group, leases, |e.group|, log, sent, q);
    } else {
      RefusedKeeps(r, scope, limits, e);
    }
  }

  lemma InTimeOrder(r: Reception, scope: CreditLedger.Handle, limits: Limits, e: Event)
    requires limits.InBounds() && Accepted(r, scope, limits, e)
    ensures r.clock <= e.now
  {
  }

  lemma {:induction false} ExpireFrame(st: Store, limits: Limits, now: int, n: nat)
    requires StoreOk(st, limits, now) && n <= |st.order|
    ensures forall x: nat :: x !in st.order[..n] ==> ExpireAll(st, st.order[..n]).window.State(x) == st.window.State(x)
    decreases n
  {
    hide StoreOk, RecvWindow.History.State, ExpireOne, ExpireAll;
    if n == 0 {
      ExpireNone(st);
    } else {
      ExpireFrame(st, limits, now, n - 1);
      ExpireFront(st, limits, now, n - 1);
      ExpireSnoc(st, st.order[..n - 1], st.order[n - 1]);
      assert st.order[..n] == st.order[..n - 1] + [st.order[n - 1]];
      var before := ExpireAll(st, st.order[..n - 1]);
      assert before.order[0] == st.order[n - 1];
      ExpireOneFrame(before, limits, now);
      forall x: nat | x !in st.order[..n]
        ensures ExpireAll(st, st.order[..n]).window.State(x) == st.window.State(x)
      {
        assert st.order[..n][n - 1] == st.order[n - 1];
        assert x !in st.order[..n - 1];
      }
    }
  }

  lemma ExpireOneFrame(st: Store, limits: Limits, now: int)
    requires StoreOk(st, limits, now) && st.order != []
    ensures forall x: nat :: x != st.order[0] ==> ExpireOne(st, st.order[0]).window.State(x) == st.window.State(x)
  {
    hide StoreOk, RecvWindow.History.State, Retire;
    InOrderList(st, limits, now);
    assert st.order[0] in st.order;
    RetireOther(st, limits, now, st.order[0], RecvWindow.Expired);
  }

  lemma TickKeeps(r: Reception, scope: CreditLedger.Handle, limits: Limits, now: int, log: seq<Fragment>,
                  sent: map<U64, seq<Byte>>)
    requires limits.InBounds() && ReceptionOk(r, limits, log, sent)
    ensures ReceptionOk(Next(r, scope, limits, Tick(now)), limits, log, sent)
  {
    hide AssemblyOk, Sorted, DeadlineList.Distinct, Matches, RecvWindow.History.State, ExpireAll, TrueDelivery, Due;
    if now >= r.clock {
      LaterOk(r.store, limits, r.clock, now);
      ExpiresExactlyTheElapsed(r.store, limits, now);
      ExpireFrame(r.store, limits, now, DueCount(r.store, limits, now, 0));
      var next := Next(r, scope, limits, Tick(now));
      forall i | 0 <= i < |r.delivered|
        ensures Settled(next.store, sent, r.delivered[i])
      {
        assert Settled(r.store, sent, r.delivered[i]);
      }
    }
  }

  ghost predicate Truthful(events: seq<Event>, limits: Limits, log: seq<Fragment>) {
    forall n :: 0 <= n < |events| && events[n].Arrive? ==> TrueGroup(events[n].group, limits, log)
  }

  lemma {:induction false} ReceptionIsOk(
    limits: Limits, scope: CreditLedger.Handle, clock: int, events: seq<Event>, log: seq<Fragment>,
    sent: map<U64, seq<Byte>>, q: AggregationQueue.QueueLimits)
    requires SourceOk(log, sent, q) && AtLeast(limits, q) && Truthful(events, limits, log)
    ensures ReceptionOk(RunReceiver(limits, scope, clock, events), limits, log, sent)
  {
    hide SourceOk, Next, TrueGroup;
    if events != [] {
      var n := |events| - 1;
      var before := RunReceiver(limits, scope, clock, events[..n]);
      ReceptionIsOk(limits, scope, clock, events[..n], log, sent, q);
      hide ReceptionOk;
      match events[n]
      case Arrive(_, _, _, _) => ArriveKeeps(before, scope, limits, events[n], log, sent, q);
      case Tick(now) => TickKeeps(before, scope, limits, now, log, sent);
    }
  }

  // ---------------------------------------------------------------------------
  // Sender and receiver together

  lemma {:induction false} GroupInLog(groups: seq<seq<Fragment>>, g: nat, f: Fragment)
    requires g < |groups| && f in groups[g]
    ensures f in Log(groups)
  {
    if g < |groups| - 1 {
      GroupInLog(groups[..|groups| - 1], g, f);
    }
  }

  lemma SourceOfRun(q: AggregationQueue.QueueLimits, p: Parameters, actions: seq<Action>)
    requires p.Valid() && q.InBounds() && q.maxDatagramBytes <= p.maxDatagramBytes
    ensures var s := RunSender(q, p, actions);
      SourceOk(Log(s.groups), s.sent, q) && forall g :: 0 <= g < |s.groups| ==> Encodable(p, s.groups[g])
  {
    hide RunSender, Genuine, Forward, CountOf, AggregationQueue.EntriesOk, Encodable, QueuedOk, SealedOk;
    EveryRunIsOk(q, p, actions);
  }

  lemma SentGroupIsTrue(s: Sender, q: AggregationQueue.QueueLimits, p: Parameters, limits: Limits, g: nat)
    requires p.Valid() && SourceOk(Log(s.groups), s.sent, q) && AtLeast(limits, q)
    requires g < |s.groups| && Encodable(p, s.groups[g])
    ensures TrueGroup(s.groups[g], limits, Log(s.groups))
  {
    var fs := s.groups[g];
    forall f | f in fs
      ensures f in Log(s.groups)
    {
      GroupInLog(s.groups, g, f);
    }
    hide Forward, CountOf, PieceOf, Log;
    forall i | 0 <= i < |fs|
      ensures AcceptableAt(fs, limits, i)
    {
      assert ValidAt(p, fs, i);
      assert fs[i] in fs;
      InLog(Log(s.groups), s.sent, q, fs[i]);
    }
  }

  ghost predicate FromGroups(events: seq<Event>, groups: seq<seq<Fragment>>) {
    forall n :: 0 <= n < |events| && events[n].Arrive? ==> events[n].group in groups
  }

  /** End-to-end identity. Whatever groups of a run of the queue reach a receiver
      with at least the queue's limits, in whatever order and however often: each
      delivered Datagram is the payload admitted under its ID, and no ID is
      delivered twice. */
  lemma DeliveredIsAdmitted(
    q: AggregationQueue.QueueLimits, p: Parameters, actions: seq<Action>,
    limits: Limits, scope: CreditLedger.Handle, clock: int, events: seq<Event>)
    requires p.Valid() && q.InBounds() && q.maxDatagramBytes <= p.maxDatagramBytes && AtLeast(limits, q)
    requires FromGroups(events, RunSender(q, p, actions).groups)
    ensures var s, r := RunSender(q, p, actions), RunReceiver(limits, scope, clock, events);
      && (forall d :: d in r.delivered ==> d.id in s.sent && d.data == s.sent[d.id])
      && (forall i, j :: 0 <= i < j < |r.delivered| ==> r.delivered[i].id != r.delivered[j].id)
  {
    hide RunSender, SourceOk, TrueGroup, StoreOk, StoreMatches, Encodable;
    var s := RunSender(q, p, actions);
    SourceOfRun(q, p, actions);
    forall n | 0 <= n < |events| && events[n].Arrive?
      ensures TrueGroup(events[n].group, limits, Log(s.groups))
    {
      var g :| 0 <= g < |s.groups| && s.groups[g] == events[n].group;
      SentGroupIsTrue(s, q, p, limits, g);
    }
    ReceptionIsOk(limits, scope, clock, events, Log(s.groups), s.sent, q);
  }

  /** In the same setting no arrival is ever answered with a conflict. */
  lemma ArrivalsNeverConflict(
    q: AggregationQueue.QueueLimits, p: Parameters, actions: seq<Action>,
    limits: Limits, scope: CreditLedger.Handle, clock: int, events: seq<Event>, n: nat)
    requires p.Valid() && q.InBounds() && q.maxDatagramBytes <= p.maxDatagramBytes && AtLeast(limits, q)
    requires FromGroups(events, RunSender(q, p, actions).groups) && n < |events| && events[n].Arrive?
    ensures var r, e := RunReceiver(limits, scope, clock, events[..n]), events[n];
      e.now >= r.clock && AcceptableGroup(e.group, limits) ==>
        var err := AddAll(r.store, scope, limits, e.now, e.group, e.answer, e.grant).err;
        err == NoErr || err.Credit?
    ensures AcceptableGroup(events[n].group, limits) && 1 <= |events[n].group| <= MAX_DESCRIPTORS
  {
    hide RunSender, SourceOk, StoreOk, StoreMatches, Encodable, RunReceiver, AddAll, AcceptableGroup;
    var s := RunSender(q, p, actions);
    SourceOfRun(q, p, actions);
    forall m | 0 <= m < |events| && events[m].Arrive?
      ensures TrueGroup(events[m].group, limits, Log(s.groups))
    {
      var g :| 0 <= g < |s.groups| && s.groups[g] == events[m].group;
      SentGroupIsTrue(s, q, p, limits, g);
    }
    ReceptionIsOk(limits, scope, clock, events[..n], Log(s.groups), s.sent, q);
    var r := RunReceiver(limits, scope, clock, events[..n]);
    if events[n].now >= r.clock {
      TrueGroupOnlyRefused(r, scope, limits, events[n], Log(s.groups), s.sent, q);
    }
  }
}
