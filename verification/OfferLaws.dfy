// What one step does to the offer of the encoding context and to each path, said
// without the functions that the code is proved against.
module OfferLaws {
  import E = HandshakeEngine
  import opened ContextExchange
  import RingMath

  // ---------------------------------------------------------------------------
  // The attempts of a run

  // How many attempts were counted: those made of an offer that was still allowed one.
  ghost function Sent(s: State, events: seq<Event>): nat {
    if events == [] then 0
    else
      var front, e := events[..|events| - 1], events[|events| - 1];
      Sent(s, front) +
      if e.AttemptEvent? && e.counts && After(s, front).retry.Pending? && Sent(s, front) < 8 then 1 else 0
  }

  lemma {:induction false} SentIsCounted(s: State, events: seq<Event>)
    requires StateOk(s) && s.retry == Idle && !s.acknowledged
    ensures var t := After(s, events);
      && StateOk(t) && (t.retry.Pending? ==> t.retry.sends == Sent(s, events))
      && (t.retry == Idle && !t.acknowledged ==> Sent(s, events) == 0) && Sent(s, events) <= 8
  {
    hide Step, StateOk, Keeps;
    AfterOk(s, events);
    KeepsIsOk(s, After(s, events));
    if events != [] {
      var front := events[..|events| - 1];
      SentIsCounted(s, front);
      OneAttempt(After(s, front), events[|events| - 1]);
      AfterOk(s, front);
    }
  }

  lemma OneAttempt(s: State, e: Event)
    requires StateOk(s)
    ensures var t := Step(s, e);
      && (s.retry.Pending? && t.retry.Pending? ==>
          t.retry.sends == s.retry.sends + if e.AttemptEvent? && e.counts && s.retry.sends < 8 then 1 else 0)
      && (!s.retry.Pending? && t.retry.Pending? ==> t.retry.sends == 0 && !s.acknowledged)
      && (s.acknowledged ==> t.acknowledged && t.retry == Idle) && (s.retry.Pending? && t.retry == Idle ==> t.acknowledged)
  {
    hide State.NextEligible, State.WorkPending, State.AnyEligible;
    match e
    case AdvanceEvent(now) => StartsOnly(s, now); DrivesOnly(s.Expire(now), now);
    case FailEvent(now, at) => FailsOnly(s, now, at); DrivesOnly(s.Rerouted(now, at), now);
    case DriveEvent(now) => DrivesOnly(s, now);
    case _ =>
  }

  // A started offer is new, or goes on with its deadline and its count.
  predicate Restarted(before: Retry, after: Retry, now: int) {
    after == if before.Pending? then Pending(before.deadline, now, before.sends, true) else Pending(now + 5_000_000_000, now, 0, true)
  }

  lemma StartsOnly(s: State, now: int)
    requires StateOk(s)
    ensures var t := s.Expire(now);
      t.acknowledged == s.acknowledged && t.owned == s.owned && (t.retry == s.retry || (!s.acknowledged && Restarted(s.retry, t.retry, now)))
  {
    hide State.NextEligible;
    FirstEligibleIs(s.Aged(now));
  }

  lemma FailsOnly(s: State, now: int, at: nat)
    requires StateOk(s)
    ensures var t := s.Rerouted(now, at);
      t.acknowledged == s.acknowledged && t.owned == s.owned && (t.retry == s.retry || (!s.acknowledged && Restarted(s.retry, t.retry, now)))
  {
    hide State.NextEligible;
    FirstEligibleIs(s.Torn(at));
  }

  lemma DrivesOnly(s: State, now: int)
    ensures var t := s.Driven(now);
      && t.acknowledged == s.acknowledged && t.paths == s.paths
      && (t.retry == s.retry || (s.retry.Pending? && t.retry.Pending? && t.retry.sends == s.retry.sends))
  {
    hide State.NextEligible;
    NextEligibleIs(s, s.contextPath, |s.paths|);
  }

  /** Over every run an offer's counter is the number of attempts that were made of it,
      whatever paths it went over, and no more than eight ever are. */
  lemma OffersAreCounted(owned: bool, n: nat, bootstrap: nat, start: int, events: seq<Event>)
    requires bootstrap < n
    ensures var s := Start(owned, n, bootstrap, start);
      && (Run(owned, n, bootstrap, start, events).retry.Pending? ==>
          Run(owned, n, bootstrap, start, events).retry.sends == Sent(s, events))
      && Sent(s, events) <= 8
  {
    SentIsCounted(Start(owned, n, bootstrap, start), events);
  }

  // ---------------------------------------------------------------------------
  // The offer

  /** The acknowledgement of a path's budget puts the offer on that path when the path
      carries it already, when no path does or when nothing was offered yet; a late
      offer stays as it is. */
  lemma BudgetMeans(s: State, k: nat, now: int)
    requires k < |s.paths|
    ensures var t := s.BudgetDone(k, now);
      if !s.acknowledged && (s.retry == Idle || s.contextPath in {0, k + 1}) && (s.retry == Idle || now < s.retry.deadline)
      then t.contextPath == k + 1 && Restarted(s.retry, t.retry, now)
      else t.contextPath == s.contextPath && t.retry == s.retry
  {
  }

  /** An acknowledgement ends the offer exactly while it is in time. */
  lemma AcknowledgeMeans(s: State, now: int)
    requires StateOk(s)
    ensures s.Acknowledge(now).acknowledged <==> s.acknowledged || (s.retry.Pending? && now < s.retry.deadline)
    ensures s.Acknowledge(now).retry == if s.Acknowledge(now).acknowledged then Idle else s.retry
  {
  }

  // Path k is the first that can carry the offer.
  predicate FirstUsable(s: State, k: nat) {
    k < |s.paths| && s.paths[k].Eligible() && forall i :: 0 <= i < k ==> !s.paths[i].Eligible()
  }

  // An offer that its carrier lost goes to the first path that can carry it, or to none.
  ghost predicate Rehomed(s: State, t: State, now: int) {
    && (forall k: nat :: FirstUsable(t, k) ==> t.contextPath == k + 1 && Restarted(s.retry, t.retry, now))
    && (!t.AnyEligible() ==> t.contextPath == 0 && t.retry == s.retry)
  }

  predicate Stayed(s: State, t: State) {
    t.contextPath == s.contextPath && t.retry == s.retry
  }

  lemma MovedIs(s: State, now: int)
    requires s.contextPath == 0
    ensures Rehomed(s, s.Moved(now), now) && s.Moved(now).paths == s.paths
  {
    hide State.NextEligible;
    var t := s.Moved(now);
    FirstEligibleIs(s);
    MovedSame(s, now);
    forall k: nat | FirstUsable(t, k)
      ensures t.contextPath == k + 1 && Restarted(s.retry, t.retry, now)
    {
      FirstIs(s, 0, k);
    }
  }

  /** expireControl moves the offer exactly when no path carries it or the budget of the
      one that does was not acknowledged in time. */
  lemma ExpireMeans(s: State, now: int)
    requires StateOk(s)
    ensures s.retry.Pending? && now >= s.retry.deadline ==> s.Expire(now) == s
    ensures var carrier := s.contextPath - 1;
      var lost := !s.acknowledged
        && (s.contextPath == 0 || (s.paths[carrier].budget.Some? && now >= s.paths[carrier].budget.value));
      !(s.retry.Pending? && now >= s.retry.deadline) ==>
        if lost then Rehomed(s, s.Expire(now), now) else Stayed(s, s.Expire(now))
  {
    hide State.NextEligible, State.Moved, State.AnyEligible, FirstUsable;
    if s.Aged(now).contextPath == 0 {
      MovedIs(s.Aged(now), now);
    }
  }

  /** FailPath moves it exactly when its carrier was bound to the failed binding; of a
      late offer nothing is carried on. */
  lemma FailMeans(s: State, now: int, at: nat)
    requires StateOk(s)
    ensures var carrier := s.contextPath - 1;
      var lost := !s.acknowledged && s.contextPath != 0 && s.paths[carrier].binding == at;
      if !lost then Stayed(s, s.Rerouted(now, at))
      else if s.retry.Pending? && now >= s.retry.deadline then
        s.Rerouted(now, at).contextPath == 0 && s.Rerouted(now, at).retry == s.retry
      else Rehomed(s, s.Rerouted(now, at), now)
  {
    hide State.NextEligible, State.Moved, State.AnyEligible, FirstUsable;
    if s.Torn(at).contextPath == 0 {
      MovedIs(s.Torn(at), now);
    }
  }

  // The path at position i, counted round about, can carry the offer.
  predicate Usable(s: State, i: nat) {
    s.paths != [] && s.paths[i % |s.paths|].Eligible()
  }

  // j places behind the carrier is the first path that can carry the offer.
  predicate NextRound(s: State, j: nat) {
    j < |s.paths| && Usable(s, s.contextPath + j) && forall i :: s.contextPath <= i < s.contextPath + j ==> !Usable(s, i)
  }

  lemma {:induction false} RoundIs(s: State, from: nat, tries: nat, at: nat)
    requires tries <= |s.paths| && from <= at < from + tries && Usable(s, at) && forall i :: from <= i < at ==> !Usable(s, i)
    ensures s.NextEligible(from, tries) == at % |s.paths|
    decreases tries
  {
    if from < at {
      assert !Usable(s, from);
      RoundIs(s, from + 1, tries - 1, at);
    }
  }

  lemma EligibleIsFound(s: State, from: nat)
    ensures var k := s.NextEligible(from, |s.paths|);
      k <= |s.paths| && (k < |s.paths| <==> s.AnyEligible()) && (k < |s.paths| ==> s.paths[k].Eligible())
  {
    hide State.NextEligible;
    NextEligibleIs(s, from, |s.paths|);
    if s.AnyEligible() {
      var k :| 0 <= k < |s.paths| && s.paths[k].Eligible();
      var i := RoundHits(from, k, |s.paths|);
    }
  }

  // Every path is met on the way round.
  lemma RoundHits(from: nat, k: nat, n: nat) returns (i: nat)
    requires k < n
    ensures from <= i < from + n && i % n == k
  {
    var q, r := from / n, from % n;
    assert from == n * q + r;
    if k >= r {
      i := from - r + k;
      RingMath.ModUnique(i, n, q, k);
    } else {
      i := from - r + n + k;
      assert n * (q + 1) == n * q + n;
      RingMath.ModUnique(i, n, q + 1, k);
    }
  }

  // The offer may be driven: an adapter has none of its packets and may get one more,
  // or a packet has been sent and its retry time has come.
  predicate MayDrive(s: State, now: int) {
    && s.retry.Pending? && s.retry.next <= now < s.retry.deadline
    && if s.owned then !s.retry.framed && s.retry.sends < 8 else s.retry.sends > 0
  }

  /** A drive moves an offer that may be driven to the next path round about that can
      carry it; without one an adapter gets it again where it is. Nothing else moves. */
  lemma DriveMeans(s: State, now: int, j: nat)
    requires StateOk(s)
    ensures !MayDrive(s, now) ==> s.Driven(now) == s
    ensures MayDrive(s, now) && NextRound(s, j) ==>
      && s.Driven(now).contextPath == (s.contextPath + j) % |s.paths| + 1
      && Restarted(s.retry, s.Driven(now).retry, now)
    ensures MayDrive(s, now) && !s.AnyEligible() ==>
      && s.Driven(now).contextPath == s.contextPath
      && s.Driven(now).retry == (if s.owned && s.contextPath != 0 then s.retry.(framed := true) else s.retry)
  {
    hide State.NextEligible, State.AnyEligible;
    if NextRound(s, j) {
      RoundIs(s, s.contextPath, |s.paths|, s.contextPath + j);
    }
    EligibleIsFound(s, s.contextPath);
  }

  /** An attempt that settles puts the offer off for a quarter of a second, in which no
      drive touches it; one that does not leaves the newer frame alone. */
  lemma AttemptMeans(s: State, now: int, counts: bool, settles: bool, later: int)
    requires s.retry.Pending? && (counts ==> s.retry.sends < 8)
    ensures var t := s.Attempted(now, counts, settles);
      && t.retry.Pending? && t.retry.deadline == s.retry.deadline && t.contextPath == s.contextPath && t.paths == s.paths
      && t.retry.sends == s.retry.sends + (if counts then 1 else 0)
      && (settles ==> t.retry.next == now + 250_000_000 && !t.retry.framed)
      && (!settles ==> t.retry.next == s.retry.next && t.retry.framed == s.retry.framed)
      && (settles && later < now + 250_000_000 ==> t.Driven(later) == t)
  {
  }

  /** A lost offer is made again: a settled attempt with budget and time left may be
      driven from its retry time on, and on whatever eligible path comes next or, for
      an adapter, on the carrier itself, its frame is there again. */
  lemma LostOfferIsRepeated(s: State, now: int, counts: bool, later: int)
    requires StateOk(s) && s.retry.Pending? && (counts ==> s.retry.sends < 8) && s.contextPath != 0
    requires var t := s.Attempted(now, counts, true); if s.owned then t.retry.sends < 8 else t.retry.sends > 0
    requires now + 250_000_000 <= later < s.retry.deadline && (s.owned || s.AnyEligible())
    ensures var t := s.Attempted(now, counts, true);
      && t.Driven(later).retry.Pending? && t.Driven(later).retry.framed
      && (s.AnyEligible() ==> 0 < t.Driven(later).contextPath <= |s.paths| && s.paths[t.Driven(later).contextPath - 1].Eligible())
  {
    hide State.NextEligible;
    var t := s.Attempted(now, counts, true);
    assert t.AnyEligible() == s.AnyEligible();
    EligibleIsFound(t, t.contextPath);
  }

  // ---------------------------------------------------------------------------
  // The paths

  // What became of path k in one step.
  predicate PathStep(p: Path, q: Path, s: State, k: nat, e: Event) {
    var commits := e.CommitEvent? && e.k == k && Joining(p) && e.now < p.join.value.deadline;
    var acknowledges := e.BudgetEvent? && e.k == k && p.active && p.budget.Some? && e.now < p.budget.value;
    var ages := e.AdvanceEvent? && !(s.retry.Pending? && e.now >= s.retry.deadline);
    var late := ages && p.budget.Some? && e.now >= p.budget.value;
    var fails := e.FailEvent? && p.active && p.binding == e.at;
    var joins := e.JoinEvent? && e.k == k && !(p.join.Some? && p.join.value.pending);
    var joinEnds := p.join.Some?
      && ((ages && e.now >= p.join.value.deadline) || (e.FailEvent? && p.join.value.binding == e.at));
    && (q.active <==> commits || (p.active && !late && !fails))
    && q.binding == (if commits then p.join.value.binding else p.binding)
    && (q.published <==> acknowledges || (p.published && !commits))
    && (q.available <==> commits || if e.SenderEvent? && e.k == k then e.available else p.available && !fails)
    && q.budget == (if commits then E.Some(e.now + 5_000_000_000) else if late || fails || acknowledges then E.None else p.budget)
    && (if joins then q.join == E.Some(Join(true, false, e.at, e.now + 5_000_000_000))
        else if commits then q.join == E.Some(Join(e.answered, true, p.join.value.binding, p.join.value.deadline))
        else q.join == if joinEnds then E.None else p.join)
  }

  predicate Joining(p: Path) {
    p.join.Some? && p.join.value.pending && !p.join.value.committed
  }

  /** A path becomes usable by the commit of an open join and the acknowledgement of its
      budget, each in time, and stops by the failure of its binding or by a budget that
      is not acknowledged within five seconds; nothing else touches it. */
  lemma PathLife(s: State, e: Event, k: nat)
    requires k < |s.paths|
    ensures |Step(s, e).paths| == |s.paths| && PathStep(s.paths[k], Step(s, e).paths[k], s, k, e)
  {
    hide PathStep, Step;
    PathAfter(s, e, k);
    PathSteps(s, e, k);
  }

  // What a step makes of path k, in the words of the code.
  function Became(s: State, e: Event, k: nat): Path
    requires k < |s.paths|
  {
    var p := s.paths[k];
    match e
    case AdvanceEvent(now) => if s.Overdue(now) then p else p.Expired(now)
    case FailEvent(now, at) => p.Failed(at)
    case JoinEvent(i, at, now) =>
      if i != k || (p.join.Some? && p.join.value.pending) then p
      else p.(join := E.Some(Join(true, false, at, now + CONTROL_LIFETIME)))
    case CommitEvent(i, now, answered) => if i == k && p.Commits(now) then s.Committed(k, now, answered).paths[k] else p
    case BudgetEvent(i, now) => if i == k && p.Publishes(now) then p.(published := true, budget := E.None) else p
    case SenderEvent(i, available) => if i == k then p.(available := available) else p
    case _ => p
  }

  lemma PathSteps(s: State, e: Event, k: nat)
    requires k < |s.paths|
    ensures PathStep(s.paths[k], Became(s, e, k), s, k, e)
  {
  }

  lemma PathAfter(s: State, e: Event, k: nat)
    requires k < |s.paths|
    ensures |Step(s, e).paths| == |s.paths| && Step(s, e).paths[k] == Became(s, e, k)
  {
    hide State.NextEligible, State.WorkPending, State.AnyEligible, Path.Expired, Path.Failed;
    match e
    case AdvanceEvent(now) => DrivesOnly(s.Expire(now), now); AgedPath(s, now, k);
    case FailEvent(now, at) => DrivesOnly(s.Rerouted(now, at), now); TornPath(s, now, at, k);
    case DriveEvent(now) => DrivesOnly(s, now);
    case _ =>
  }

  lemma AgedPath(s: State, now: int, k: nat)
    requires k < |s.paths|
    ensures |s.Expire(now).paths| == |s.paths|
    ensures s.Expire(now).paths[k] == if s.Overdue(now) then s.paths[k] else s.paths[k].Expired(now)
  {
    hide State.NextEligible;
    NextEligibleIs(s.Aged(now), 0, |s.paths|);
  }

  lemma TornPath(s: State, now: int, at: nat, k: nat)
    requires k < |s.paths|
    ensures |s.Rerouted(now, at).paths| == |s.paths| && s.Rerouted(now, at).paths[k] == s.paths[k].Failed(at)
  {
    hide State.NextEligible;
    NextEligibleIs(s.Torn(at), 0, |s.paths|);
  }
}
