// When a Datagram is delivered: all of its groups arrived in span, in time and
// within resources.
module Completion {
  import opened Words
  import opened Packing
  import opened SenderRun
  import opened Reassembly
  import opened EndToEnd
  import AggregationQueue
  import CreditLedger
  import DeadlineList
  import RecvWindow

  predicate Has(ds: seq<Delivery>, x: U64) {
    exists i :: 0 <= i < |ds| && ds[i].id == x
  }

  lemma HasMore(ds: seq<Delivery>, more: seq<Delivery>, x: U64)
    ensures Has(ds, x) || Has(more, x) ==> Has(ds + more, x)
  {
    if Has(ds, x) {
      var i :| 0 <= i < |ds| && ds[i].id == x;
      assert (ds + more)[i].id == x;
    }
    if Has(more, x) {
      var i :| 0 <= i < |more| && more[i].id == x;
      assert (ds + more)[|ds| + i].id == x;
    }
  }

  // The receiver still has, or no longer needs, the bytes of this fragment.
  predicate Holding(r: Reception, f: Fragment) {
    Has(r.delivered, f.id) || (f.id in r.store.pending && Range(f) in r.store.pending[f.id].ranges)
  }

  // The original was neither expired nor refused so far.
  predicate Alive(r: Reception, x: U64) {
    || Has(r.delivered, x) || x in r.store.pending
    || r.store.window.State(x) in {RecvWindow.Unseen, RecvWindow.Retired}
  }

  // A fragment of the original would be taken now.
  predicate Ready(r: Reception, limits: Limits, now: int, x: U64) {
    || Has(r.delivered, x) || (x in r.store.pending && !Due(r.store.pending[x], limits, now))
    || (x !in r.store.pending && r.store.window.State(x) == RecvWindow.Unseen)
  }

  predicate InTime(r: Reception, limits: Limits, now: int, x: U64) {
    x in r.store.pending ==> !Due(r.store.pending[x], limits, now)
  }

  // ---------------------------------------------------------------------------
  // One fragment

  // Another original's fragment changes nothing that matters here.
  lemma AbsorbOther(r: Reception, limits: Limits, now: int, g: Fragment, lease: CreditLedger.Handle, x: U64)
    requires limits.InBounds() && StoreOk(r.store, limits, now) && Acceptable(g, limits, 0) && g.id != x && x != 0
    ensures var next := Absorb(r, limits, now, g, lease);
      && (x in next.store.pending <==> x in r.store.pending)
      && (x in r.store.pending ==> next.store.pending[x] == r.store.pending[x])
      && (next.store.window.State(x) == r.store.window.State(x) || next.store.window.State(x) == RecvWindow.Retired)
      && (Has(r.delivered, x) ==> Has(next.delivered, x))
  {
    hide Written, Inspect, AssemblyOk, DeadlineList.Without, Sorted, DeadlineList.Distinct, Has,
      RecvWindow.History.Admit, RecvWindow.History.Finish, RecvWindow.History.State;
    HasMore(r.delivered, AddOne(r.store, limits, now, g, lease).delivered, x);
    match PlanFor(r.store, limits, now, g)
    case Elapsed => RetireOther(r.store, limits, now, g.id, RecvWindow.Expired);
    case Insert(at) => RetireOther(r.store, limits, now, g.id, RecvWindow.Completed);
    case Admit =>
      AdmitFrame(r.store.window, g.id);
      FinishFrame(r.store.window.Admit(g.id), g.id, RecvWindow.Completed);
    case _ =>
  }

  lemma GrowHolds(st: Store, id: U64, b: Assembly, x: Interval)
    requires x in b.ranges
    ensures var g := Grow(st, id, b);
      Has(g.delivered, id) || (id in g.store.pending && x in g.store.pending[id].ranges)
  {
    hide Retire;
    if b.received == b.total {
      assert Grow(st, id, b).delivered[0].id == id;
    }
  }

  // A fragment that arrives while its original is ready is held from then on.
  lemma AbsorbOwn(r: Reception, limits: Limits, now: int, f: Fragment, lease: CreditLedger.Handle)
    requires limits.InBounds() && StoreOk(r.store, limits, now) && Acceptable(f, limits, 0)
    requires Ready(r, limits, now, f.id) && !PlanFor(r.store, limits, now, f).Fail?
    ensures Holding(Absorb(r, limits, now, f, lease), f)
  {
    hide Has, Grow, Due, AssemblyOk, StoreOk, RecvWindow.History.State, Enter, Position;
    var a := AddOne(r.store, limits, now, f, lease);
    HasMore(r.delivered, a.delivered, f.id);
    match PlanFor(r.store, limits, now, f)
    case Insert(at) =>
      var b := Written(r.store.pending[f.id], f, at);
      assert b.ranges[at] == Range(f);
      GrowHolds(r.store, f.id, b, Range(f));
    case Admit =>
      var b := Written(Fresh(f.total, now, lease), f, 0);
      assert b.ranges[0] == Range(f);
      GrowHolds(Enter(r.store, f.id, Fresh(f.total, now, lease)), f.id, b, Range(f));
    case _ =>
  }

  // What was held stays held.
  lemma AbsorbHeld(r: Reception, limits: Limits, now: int, g: Fragment, lease: CreditLedger.Handle, f: Fragment)
    requires limits.InBounds() && StoreOk(r.store, limits, now) && Acceptable(g, limits, 0) && f.id != 0
    requires Holding(r, f) && InTime(r, limits, now, f.id)
    ensures Holding(Absorb(r, limits, now, g, lease), f)
  {
    hide Has, Grow, Due, AssemblyOk, StoreOk, RecvWindow.History.State, Enter, Inspect;
    var a := AddOne(r.store, limits, now, g, lease);
    HasMore(r.delivered, a.delivered, f.id);
    if g.id != f.id {
      AbsorbOther(r, limits, now, g, lease, f.id);
    } else if f.id in r.store.pending {
      match PlanFor(r.store, limits, now, g)
      case Insert(at) =>
        var b := Written(r.store.pending[f.id], g, at);
        assert forall x :: x in r.store.pending[f.id].ranges ==> x in b.ranges by {
          InsertedHas(r.store.pending[f.id].ranges, at, Range(g));
        }
        if Range(f) in r.store.pending[f.id].ranges {
          GrowHolds(r.store, f.id, b, Range(f));
        }
      case _ =>
    }
  }

  lemma InsertedHas(ranges: seq<Interval>, at: nat, x: Interval)
    requires at <= |ranges|
    ensures forall y :: y in ranges ==> y in Inserted(ranges, at, x)
  {
    forall y | y in ranges
      ensures y in Inserted(ranges, at, x)
    {
      var i :| 0 <= i < |ranges| && ranges[i] == y;
      assert Inserted(ranges, at, x)[if i < at then i else i + 1] == y;
    }
  }

  // An original in time stays alive and in time under any fragment.
  lemma AbsorbAlive(r: Reception, limits: Limits, now: int, g: Fragment, lease: CreditLedger.Handle, x: U64)
    requires limits.InBounds() && StoreOk(r.store, limits, now) && Acceptable(g, limits, 0) && x != 0
    requires Alive(r, x) && InTime(r, limits, now, x)
    ensures Alive(Absorb(r, limits, now, g, lease), x) && InTime(Absorb(r, limits, now, g, lease), limits, now, x)
  {
    hide Has, AssemblyOk, StoreOk, RecvWindow.History.State, RecvWindow.History.Admit, RecvWindow.History.Finish,
      Inspect, Inserted, DeadlineList.Without;
    var a := AddOne(r.store, limits, now, g, lease);
    HasMore(r.delivered, a.delivered, x);
    if g.id != x {
      AbsorbOther(r, limits, now, g, lease, x);
    } else {
      assert a.delivered != [] && a.delivered[0].id == x ==> Has(a.delivered, x) by {
        HasFirst(a.delivered);
      }
    }
  }

  lemma HasFirst(ds: seq<Delivery>)
    ensures ds != [] ==> Has(ds, ds[0].id)
  {
  }

  // ---------------------------------------------------------------------------
  // A whole group

  lemma {:induction false} NoErrNoFail(st: Store, limits: Limits, now: int, fs: seq<Fragment>, n: nat, i: nat)
    requires i < n <= |fs| && forall k :: 0 <= k < |fs| ==> fs[k].End() <= fs[k].total
    requires PlanErr(st, limits, now, fs, n) == NoErr
    ensures !PlanFor(st, limits, now, fs[i]).Fail?
    decreases n
  {
    hide PlanFor;
    if i < n - 1 {
      NoErrNoFail(st, limits, now, fs, n - 1, i);
    }
  }

  // The parts of an accepted group's reception that the proofs below share.
  ghost predicate Absorbing(r: Reception, limits: Limits, now: int, fs: seq<Fragment>, leases: seq<CreditLedger.Handle>) {
    && limits.InBounds() && StoreOk(r.store, limits, now) && |fs| <= |leases| && AcceptableGroup(fs, limits)
    && forall i :: 0 <= i < |fs| ==> fs[i].End() <= fs[i].total
  }

  lemma AbsorbToStoreOk(
    r: Reception, limits: Limits, now: int, fs: seq<Fragment>, leases: seq<CreditLedger.Handle>, n: nat)
    requires Absorbing(r, limits, now, fs, leases) && n <= |fs|
    ensures StoreOk(AbsorbTo(r, limits, now, fs, leases, n).store, limits, now)
    ensures n < |fs| ==> Acceptable(fs[n], limits, 0)
  {
    hide StoreOk, Acceptable, AcceptableGroup, AddTo, AbsorbTo;
    if n == 0 {
      NoneAbsorbed(r, limits, now, fs, leases);
    } else {
      AddToOk(r.store, limits, now, fs, leases, n);
      AbsorbToIsAddTo(r, limits, now, fs, leases, n);
    }
    if n < |fs| {
      Ascending(fs, limits, n, n);
    }
  }

  lemma NoneAbsorbed(r: Reception, limits: Limits, now: int, fs: seq<Fragment>, leases: seq<CreditLedger.Handle>)
    requires |fs| <= |leases| && forall i :: 0 <= i < |fs| ==> fs[i].End() <= fs[i].total
    ensures AbsorbTo(r, limits, now, fs, leases, 0) == r
  {
  }

  lemma {:induction false} GroupAlive(
    r: Reception, limits: Limits, now: int, fs: seq<Fragment>, leases: seq<CreditLedger.Handle>, n: nat, x: U64)
    requires Absorbing(r, limits, now, fs, leases) && n <= |fs| && x != 0
    requires Alive(r, x) && InTime(r, limits, now, x)
    ensures var next := AbsorbTo(r, limits, now, fs, leases, n);
      Alive(next, x) && InTime(next, limits, now, x) && (Has(r.delivered, x) ==> Has(next.delivered, x))
  {
    hide StoreOk, Acceptable, AcceptableGroup, Has, Alive, InTime, AddOne;
    if n > 0 {
      var before := AbsorbTo(r, limits, now, fs, leases, n - 1);
      GroupAlive(r, limits, now, fs, leases, n - 1, x);
      AbsorbToStoreOk(r, limits, now, fs, leases, n - 1);
      AbsorbAlive(before, limits, now, fs[n - 1], leases[n - 1], x);
      HasMore(before.delivered, AddOne(before.store, limits, now, fs[n - 1], leases[n - 1]).delivered, x);
    }
  }

  lemma {:induction false} GroupHeld(
    r: Reception, limits: Limits, now: int, fs: seq<Fragment>, leases: seq<CreditLedger.Handle>, m: nat, n: nat, f: Fragment)
    requires Absorbing(r, limits, now, fs, leases) && m <= n <= |fs| && f.id != 0
    requires Alive(r, f.id) && InTime(r, limits, now, f.id)
    requires Holding(AbsorbTo(r, limits, now, fs, leases, m), f)
    ensures Holding(AbsorbTo(r, limits, now, fs, leases, n), f)
    decreases n
  {
    hide StoreOk, Acceptable, AcceptableGroup, Holding, Alive, InTime, Absorb;
    if m < n {
      var before := AbsorbTo(r, limits, now, fs, leases, n - 1);
      GroupHeld(r, limits, now, fs, leases, m, n - 1, f);
      GroupAlive(r, limits, now, fs, leases, n - 1, f.id);
      AbsorbToStoreOk(r, limits, now, fs, leases, n - 1);
      AbsorbHeld(before, limits, now, fs[n - 1], leases[n - 1], f);
    }
  }

  // The fragments before fs[n] leave its original as ready as it was.
  lemma StillReady(
    r: Reception, limits: Limits, now: int, fs: seq<Fragment>, leases: seq<CreditLedger.Handle>, n: nat)
    requires Absorbing(r, limits, now, fs, leases) && n < |fs|
    requires Ready(r, limits, now, fs[n].id)
    ensures Ready(AbsorbTo(r, limits, now, fs, leases, n), limits, now, fs[n].id)
  {
    hide StoreOk, Acceptable, AcceptableGroup, Has, AddTo, Due, AbsorbTo, RecvWindow.History.State;
    if n == 0 {
      NoneAbsorbed(r, limits, now, fs, leases);
    } else {
      AddToOk(r.store, limits, now, fs, leases, n);
      AbsorbToIsAddTo(r, limits, now, fs, leases, n);
      Ascending(fs, limits, n - 1, n);
      assert SameAt(r.store, AddTo(r.store, limits, now, fs, leases, n).store, fs[n].id);
      HasMore(r.delivered, AddTo(r.store, limits, now, fs, leases, n).delivered, fs[n].id);
    }
  }

  // Every fragment of a ready original is held once the group is in.
  lemma GroupHolds(
    r: Reception, limits: Limits, now: int, fs: seq<Fragment>, leases: seq<CreditLedger.Handle>, i: nat)
    requires Absorbing(r, limits, now, fs, leases) && i < |fs| && PlanErr(r.store, limits, now, fs, |fs|) == NoErr
    requires Ready(r, limits, now, fs[i].id) && Alive(r, fs[i].id) && InTime(r, limits, now, fs[i].id)
    ensures Holding(AbsorbTo(r, limits, now, fs, leases, |fs|), fs[i])
  {
    hide StoreOk, AcceptableGroup, Holding, Alive, InTime, Absorb, Ready, PlanFor, PlanErr;
    var before := AbsorbTo(r, limits, now, fs, leases, i);
    StillReady(r, limits, now, fs, leases, i);
    AbsorbToStoreOk(r, limits, now, fs, leases, i);
    NoErrNoFail(r.store, limits, now, fs, |fs|, i);
    SamePlan(r, limits, now, fs, leases, i);
    AbsorbOwn(before, limits, now, fs[i], leases[i]);
    GroupHeld(r, limits, now, fs, leases, i + 1, |fs|, fs[i]);
  }

  lemma SamePlan(r: Reception, limits: Limits, now: int, fs: seq<Fragment>, leases: seq<CreditLedger.Handle>, i: nat)
    requires Absorbing(r, limits, now, fs, leases) && i < |fs|
    ensures PlanFor(AbsorbTo(r, limits, now, fs, leases, i).store, limits, now, fs[i]) == PlanFor(r.store, limits, now, fs[i])
  {
    hide StoreOk, AcceptableGroup, PlanFor, AddTo, AbsorbTo;
    if i == 0 {
      NoneAbsorbed(r, limits, now, fs, leases);
    } else {
      AbsorbToIsAddTo(r, limits, now, fs, leases, i);
      PlanIsStable(r.store, limits, now, fs, leases, i);
    }
  }

  // ---------------------------------------------------------------------------
  // Whole runs

  predicate Carries(e: Event, x: U64) {
    e.Arrive? && exists i :: 0 <= i < |e.group| && e.group[i].id == x
  }

  // At this event the original has not run out of time, and when one of its
  // fragments arrives it is known, delivered or above the floor of the window.
  predicate Timely(r: Reception, limits: Limits, e: Event, x: U64) {
    && InTime(r, limits, e.now, x)
    && (Carries(e, x) ==>
        Has(r.delivered, x) || x in r.store.pending || x >= r.store.window.Floor())
  }

  ghost function At(limits: Limits, scope: CreditLedger.Handle, clock: int, events: seq<Event>, n: nat): (r: Reception)
    requires limits.InBounds() && n <= |events|
    ensures StoreOk(r.store, limits, r.clock)
  {
    RunReceiver(limits, scope, clock, events[..n])
  }

  lemma AtNext(limits: Limits, scope: CreditLedger.Handle, clock: int, events: seq<Event>, n: nat)
    requires limits.InBounds() && n < |events|
    ensures At(limits, scope, clock, events, n + 1) == Next(At(limits, scope, clock, events, n), scope, limits, events[n])
  {
    hide Next, StoreOk;
    assert events[..n + 1][..n] == events[..n];
  }

  lemma AliveIsReady(r: Reception, limits: Limits, e: Event, x: U64)
    requires Alive(r, x) && Timely(r, limits, e, x) && Carries(e, x)
    ensures Ready(r, limits, e.now, x)
  {
    hide Has, Due;
  }

  lemma AcceptedIsAbsorbing(r: Reception, scope: CreditLedger.Handle, limits: Limits, e: Event)
    returns (leases: seq<CreditLedger.Handle>)
    requires limits.InBounds() && StoreOk(r.store, limits, r.clock) && Accepted(r, scope, limits, e)
    ensures Absorbing(r, limits, e.now, e.group, leases)
    ensures PlanErr(r.store, limits, e.now, e.group, |e.group|) == NoErr
    ensures Next(r, scope, limits, e) == AbsorbTo(r, limits, e.now, e.group, leases, |e.group|)
  {
    hide StoreOk, AcceptableGroup, PlanErr, AddTo, CountTo, Refused, AbsorbTo, Next, Plans, ReserveOps, RollbackOps;
    LaterOk(r.store, limits, r.clock, e.now);
    leases := AcceptedIsAbsorbed(r, scope, limits, e);
  }

  // One accepted group.
  lemma ArriveTracks(r: Reception, scope: CreditLedger.Handle, limits: Limits, e: Event, x: U64)
    requires e.Arrive? && limits.InBounds() && StoreOk(r.store, limits, r.clock) && Accepted(r, scope, limits, e) && x != 0
    requires Alive(r, x) && Timely(r, limits, e, x)
    ensures Alive(Next(r, scope, limits, e), x)
    ensures forall f: Fragment :: f.id == x && Holding(r, f) ==> Holding(Next(r, scope, limits, e), f)
    ensures forall f :: f in e.group && f.id == x ==> Holding(Next(r, scope, limits, e), f)
  {
    hide StoreOk, Alive, InTime, Holding, Ready, Accepted, Absorbing, PlanErr, AbsorbTo, Next, Carries;
    var leases := AcceptedIsAbsorbing(r, scope, limits, e);
    GroupAliveAll(r, limits, e.now, e.group, leases, x);
    forall f: Fragment | f.id == x && Holding(r, f)
      ensures Holding(Next(r, scope, limits, e), f)
    {
      HeldThrough(r, limits, e.now, e.group, leases, f);
    }
    forall f | f in e.group && f.id == x
      ensures Holding(Next(r, scope, limits, e), f)
    {
      var i :| 0 <= i < |e.group| && e.group[i] == f;
      CarriesAt(e, i);
      AliveIsReady(r, limits, e, x);
      HeldFrom(r, limits, e.now, e.group, leases, i);
    }
  }

  lemma CarriesAt(e: Event, i: nat)
    requires e.Arrive? && i < |e.group|
    ensures Carries(e, e.group[i].id)
  {
  }

  lemma GroupAliveAll(
    r: Reception, limits: Limits, now: int, fs: seq<Fragment>, leases: seq<CreditLedger.Handle>, x: U64)
    requires Absorbing(r, limits, now, fs, leases) && x != 0 && Alive(r, x) && InTime(r, limits, now, x)
    ensures Alive(AbsorbTo(r, limits, now, fs, leases, |fs|), x)
  {
    hide StoreOk, AcceptableGroup, Alive, InTime, AbsorbTo;
    GroupAlive(r, limits, now, fs, leases, |fs|, x);
  }

  lemma HeldThrough(
    r: Reception, limits: Limits, now: int, fs: seq<Fragment>, leases: seq<CreditLedger.Handle>, f: Fragment)
    requires Absorbing(r, limits, now, fs, leases) && f.id != 0 && Holding(r, f)
    requires Alive(r, f.id) && InTime(r, limits, now, f.id)
    ensures Holding(AbsorbTo(r, limits, now, fs, leases, |fs|), f)
  {
    hide StoreOk, AcceptableGroup, Alive, InTime, AbsorbTo, Holding;
    NoneAbsorbed(r, limits, now, fs, leases);
    GroupHeld(r, limits, now, fs, leases, 0, |fs|, f);
  }

  lemma HeldFrom(
    r: Reception, limits: Limits, now: int, fs: seq<Fragment>, leases: seq<CreditLedger.Handle>, i: nat)
    requires Absorbing(r, limits, now, fs, leases) && i < |fs| && PlanErr(r.store, limits, now, fs, |fs|) == NoErr
    requires Ready(r, limits, now, fs[i].id) && Alive(r, fs[i].id) && InTime(r, limits, now, fs[i].id)
    ensures Holding(AbsorbTo(r, limits, now, fs, leases, |fs|), fs[i])
  {
    hide StoreOk, AcceptableGroup, Alive, InTime, AbsorbTo, Holding, Ready, PlanErr;
    GroupHolds(r, limits, now, fs, leases, i);
  }

  lemma TickTracks(r: Reception, scope: CreditLedger.Handle, limits: Limits, now: int, x: U64)
    requires limits.InBounds() && StoreOk(r.store, limits, r.clock) && Alive(r, x) && InTime(r, limits, now, x)
    ensures Alive(Next(r, scope, limits, Tick(now)), x)
    ensures forall f: Fragment :: f.id == x && Holding(r, f) ==> Holding(Next(r, scope, limits, Tick(now)), f)
  {
    hide AssemblyOk, Sorted, DeadlineList.Distinct, RecvWindow.History.State, ExpireAll, Has, Due;
    if now >= r.clock {
      LaterOk(r.store, limits, r.clock, now);
      ExpiresExactlyTheElapsed(r.store, limits, now);
      ExpireFrame(r.store, limits, now, DueCount(r.store, limits, now, 0));
    }
  }

  // The group of this event holds the fragment and is accepted.
  predicate Fed(r: Reception, scope: CreditLedger.Handle, limits: Limits, e: Event, f: Fragment)
    requires limits.InBounds()
  {
    e.Arrive? && f in e.group && Accepted(r, scope, limits, e)
  }

  // The original was in time and in span at every event so far, and every one of
  // its fragments in an accepted group is still held or was delivered.
  lemma {:induction false} Tracks(
    limits: Limits, scope: CreditLedger.Handle, clock: int, events: seq<Event>, n: nat, x: U64)
    requires limits.InBounds() && n <= |events| && x != 0
    requires forall k :: 0 <= k < n ==> Timely(At(limits, scope, clock, events, k), limits, events[k], x)
    ensures Alive(At(limits, scope, clock, events, n), x)
    ensures forall k, f: Fragment ::
      0 <= k < n && f.id == x && Fed(At(limits, scope, clock, events, k), scope, limits, events[k], f)
      ==> Holding(At(limits, scope, clock, events, n), f)
  {
    hide StoreOk, Alive, Timely, Accepted, At, Next, Holding;
    if n == 0 {
      StartsAlive(limits, scope, clock, events, x);
    } else {
      var r, e := At(limits, scope, clock, events, n - 1), events[n - 1];
      Tracks(limits, scope, clock, events, n - 1, x);
      AtNext(limits, scope, clock, events, n - 1);
      EventTracks(r, scope, limits, e, x);
    }
  }

  lemma StartsAlive(limits: Limits, scope: CreditLedger.Handle, clock: int, events: seq<Event>, x: U64)
    requires limits.InBounds() && x != 0
    ensures Alive(At(limits, scope, clock, events, 0), x)
  {
    assert events[..0] == [];
  }

  lemma EventTracks(r: Reception, scope: CreditLedger.Handle, limits: Limits, e: Event, x: U64)
    requires limits.InBounds() && StoreOk(r.store, limits, r.clock) && x != 0
    requires Alive(r, x) && Timely(r, limits, e, x)
    ensures Alive(Next(r, scope, limits, e), x)
    ensures forall f: Fragment :: f.id == x && Holding(r, f) ==> Holding(Next(r, scope, limits, e), f)
    ensures forall f: Fragment :: f.id == x && Fed(r, scope, limits, e, f) ==> Holding(Next(r, scope, limits, e), f)
  {
    hide StoreOk, Alive, Accepted, Next, Holding, Carries, InTime;
    match e
    case Arrive(_, _, _, _) =>
      if Accepted(r, scope, limits, e) {
        ArriveTracks(r, scope, limits, e, x);
      } else {
        RefusedKeeps(r, scope, limits, e);
      }
    case Tick(now) =>
      OnlyGroupsAreAccepted(r, scope, limits, e);
      TickTracks(r, scope, limits, now, x);
  }

  lemma OnlyGroupsAreAccepted(r: Reception, scope: CreditLedger.Handle, limits: Limits, e: Event)
    requires limits.InBounds()
    ensures Accepted(r, scope, limits, e) ==> e.Arrive?
  {
  }

  // ---------------------------------------------------------------------------
  // Completion

  // If every fragment of a Datagram is held, the Datagram was delivered.
  lemma HeldIsDelivered(
    r: Reception, limits: Limits, log: seq<Fragment>, sent: map<U64, seq<Byte>>, x: U64)
    requires ReceptionOk(r, limits, log, sent) && x in sent && SealedOk(x, log, sent)
    requires forall f :: f in log && f.id == x ==> Holding(r, f)
    ensures Has(r.delivered, x)
  {
    hide StoreOk, Has, Covered, RecvWindow.History.State;
    if !Has(r.delivered, x) {
      SomeFragment(log, x);
      var f :| f in log && f.id == x;
      assert Holding(r, f);
      var a := r.store.pending[x];
      assert Matches(a, x, log, sent);
      forall k | 0 <= k < a.total
        ensures InRanges(a.ranges, k)
      {
        assert Emitted(log, x, k);
        var i :| 0 <= i < |log| && log[i].id == x && log[i].offset <= k < log[i].End();
        assert Holding(r, log[i]);
        var j :| 0 <= j < |a.ranges| && a.ranges[j] == Range(log[i]);
        assert Holds(a.ranges[j], k);
      }
      IncompleteIsPending(r.store, limits, r.clock, x);
      assert false;
    }
  }

  lemma IncompleteIsPending(st: Store, limits: Limits, clock: int, x: U64)
    requires StoreOk(st, limits, clock) && x in st.pending
    ensures !Whole(st.pending[x])
  {
    assert PendingOk(st, limits, clock, x);
    FullIffNothingMissing(st.pending[x].ranges, st.pending[x].total);
  }

  lemma {:induction false} SomeFragment(log: seq<Fragment>, x: U64)
    requires CountOf(log, x) >= 1
    ensures exists f :: f in log && f.id == x
  {
    var n := |log| - 1;
    if log[n].id == x {
      assert log[n] in log;
    } else {
      SomeFragment(log[..n], x);
      var f :| f in log[..n] && f.id == x;
      assert f in log;
    }
  }

  lemma DeliveredIsSent(r: Reception, limits: Limits, log: seq<Fragment>, sent: map<U64, seq<Byte>>, x: U64)
    requires ReceptionOk(r, limits, log, sent) && Has(r.delivered, x) && x in sent
    ensures exists d :: d in r.delivered && d.id == x && d.data == sent[x]
  {
    var i :| 0 <= i < |r.delivered| && r.delivered[i].id == x;
    assert Settled(r.store, sent, r.delivered[i]);
    assert r.delivered[i] in r.delivered;
  }

  lemma TrueEvents(
    q: AggregationQueue.QueueLimits, p: Parameters, actions: seq<Action>, limits: Limits, events: seq<Event>)
    requires p.Valid() && q.InBounds() && q.maxDatagramBytes <= p.maxDatagramBytes && AtLeast(limits, q)
    requires FromGroups(events, RunSender(q, p, actions).groups)
    ensures var s := RunSender(q, p, actions);
      && SourceOk(Log(s.groups), s.sent, q) && Truthful(events, limits, Log(s.groups))
      && forall x :: x in s.sent && !Queued(s.entries, x) && x !in s.cancelled ==>
        SealedOk(x, Log(s.groups), s.sent) && x != 0
  {
    hide RunSender, TrueGroup, Encodable, Genuine, Forward, QueuedOk, SealedOk, CountOf, AggregationQueue.EntriesOk;
    var s := RunSender(q, p, actions);
    EveryRunIsOk(q, p, actions);
    forall n | 0 <= n < |events| && events[n].Arrive?
      ensures TrueGroup(events[n].group, limits, Log(s.groups))
    {
      var g :| 0 <= g < |s.groups| && s.groups[g] == events[n].group;
      SentGroupIsTrue(s, q, p, limits, g);
    }
    forall x | x in s.sent && SealedOk(x, Log(s.groups), s.sent)
      ensures x != 0
    {
      SealedIsNonzero(s, q, x);
    }
  }

  lemma SealedIsNonzero(s: Sender, q: AggregationQueue.QueueLimits, x: U64)
    requires Genuine(Log(s.groups), s.sent, q) && x in s.sent && SealedOk(x, Log(s.groups), s.sent)
    ensures x != 0
  {
    SomeFragment(Log(s.groups), x);
    var f :| f in Log(s.groups) && f.id == x;
  }

  /** A Datagram that the sender emitted completely is delivered, with its own
      bytes, once each of its fragments came in an accepted group, provided that
      it never ran out of time and never arrived below the floor of the window. */
  lemma CompleteIsDelivered(
    q: AggregationQueue.QueueLimits, p: Parameters, actions: seq<Action>,
    limits: Limits, scope: CreditLedger.Handle, clock: int, events: seq<Event>, x: U64)
    requires p.Valid() && q.InBounds() && q.maxDatagramBytes <= p.maxDatagramBytes && AtLeast(limits, q)
    requires FromGroups(events, RunSender(q, p, actions).groups)
    requires var s := RunSender(q, p, actions);
      && x in s.sent && !Queued(s.entries, x) && x !in s.cancelled
      && forall f :: f in Log(s.groups) && f.id == x ==>
        exists k :: 0 <= k < |events| && Fed(At(limits, scope, clock, events, k), scope, limits, events[k], f)
    requires forall k :: 0 <= k < |events| ==> Timely(At(limits, scope, clock, events, k), limits, events[k], x)
    ensures var s, r := RunSender(q, p, actions), RunReceiver(limits, scope, clock, events);
      exists d :: d in r.delivered && d.id == x && d.data == s.sent[x]
  {
    hide RunSender, SourceOk, Truthful, FromGroups, StoreOk, Holding, Fed, Timely, Alive, SealedOk, ReceptionOk, Has,
      RunReceiver;
    var s := RunSender(q, p, actions);
    var r := RunReceiver(limits, scope, clock, events);
    TrueEvents(q, p, actions, limits, events);
    ReceptionIsOk(limits, scope, clock, events, Log(s.groups), s.sent, q);
    Tracks(limits, scope, clock, events, |events|, x);
    assert events[..|events|] == events;
    HeldIsDelivered(r, limits, Log(s.groups), s.sent, x);
    DeliveredIsSent(r, limits, Log(s.groups), s.sent, x);
  }
}
