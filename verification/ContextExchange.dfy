// internal/sessionv2: which path carries the exchange of the encoding context, and
// when a Session without usable paths gives up.
//
// Of a path only what decides this is kept. Whether its sender can be used is an
// input, and so are the packets that commit a path or publish its budget, and what
// became of an attempt to send the offer.
module ContextExchange {
  import E = HandshakeEngine

  const CONTROL_LIFETIME := 5_000_000_000
  const CONTROL_RETRY := 250_000_000
  const CONTROL_SENDS := 8

  // A join until it expires, is finished or fails.
  datatype Join = Join(pending: bool, committed: bool, binding: nat, deadline: int)

  // `published`: the peer has acknowledged a budget that holds a full shard;
  // `available`: the sender can be used.
  datatype Path = Path(active: bool, binding: nat, published: bool, available: bool, join: E.Option<Join>, budget: E.Option<int>) {
    predicate Eligible() {
      active && published && available
    }

    // pendingPathWork for this path
    predicate Works() {
      (join.Some? && join.value.pending && !join.value.committed) || (active && budget.Some?)
    }

    predicate BudgetDue(now: int) {
      budget.Some? && now >= budget.value
    }

    // An open join becomes this path's incarnation.
    predicate Commits(now: int) {
      join.Some? && join.value.pending && !join.value.committed && now < join.value.deadline
    }

    predicate Publishes(now: int) {
      active && budget.Some? && now < budget.value
    }

    // What expireControl leaves of the path.
    function Expired(now: int): Path {
      var left := if BudgetDue(now) then this.(active := false, budget := E.None) else this;
      if join.Some? && now >= join.value.deadline then left.(join := E.None) else left
    }

    // What FailPath leaves of it.
    function Failed(at: nat): Path {
      var left := if active && binding == at then this.(active := false, available := false, budget := E.None) else this;
      if join.Some? && join.value.binding == at then left.(join := E.None) else left
    }
  }

  // The retry state of ENCODING_CONTEXT: attempts made or under way, and whether its
  // frame waits for one or is being sent.
  datatype Retry = Idle | Pending(deadline: int, next: int, sends: nat, framed: bool)

  datatype Answer = Fine | ErrExpired | ErrNoAvailablePaths

  // Path k has ID k + 1; contextPath 0 is none. `begun` counts the exchanges begun;
  // `owned`: an adapter sends the packets.
  datatype State = State(owned: bool, paths: seq<Path>, contextPath: nat, acknowledged: bool, retry: Retry, begun: nat) {
    predicate WorkPending() {
      exists k :: 0 <= k < |paths| && paths[k].Works()
    }

    predicate AnyEligible() {
      exists k :: 0 <= k < |paths| && paths[k].Eligible()
    }

    predicate Overdue(now: int) {
      retry.Pending? && now >= retry.deadline
    }

    // startEncoding on path k
    function Start(k: nat, now: int): State
      requires k < |paths|
    {
      this.(contextPath := k + 1,
            retry := if retry.Pending? then retry.(next := now, framed := true)
                     else Pending(now + CONTROL_LIFETIME, now, 0, true),
            begun := begun + if retry.Pending? then 0 else 1)
    }

    // The first eligible path from `from`, round about; |paths| if there is none.
    function NextEligible(from: nat, tries: nat): nat
      requires tries <= |paths|
      decreases tries
    {
      if tries == 0 then |paths|
      else if paths[from % |paths|].Eligible() then from % |paths|
      else NextEligible(from + 1, tries - 1)
    }

    // The exchange moves to an eligible path, if there is one.
    function Moved(now: int): State {
      var k := NextEligible(0, |paths|);
      if k < |paths| then Start(k, now) else this
    }

    // The path that carries the offer loses its budget exchange.
    predicate CarrierExpires(now: int) {
      !acknowledged && 0 < contextPath <= |paths| && paths[contextPath - 1].BudgetDue(now)
    }

    function Aged(now: int): State {
      this.(paths := seq(|paths|, k requires 0 <= k < |paths| => paths[k].Expired(now)),
            contextPath := if CarrierExpires(now) then 0 else contextPath)
    }

    // expireControl
    function Expire(now: int): State {
      if Overdue(now) then this
      else if Aged(now).contextPath == 0 && !acknowledged then Aged(now).Moved(now)
      else Aged(now)
    }

    function ExpireAnswer(now: int): Answer {
      var s := Expire(now);
      if Overdue(now) then ErrExpired
      else if s.contextPath == 0 && !acknowledged && !s.WorkPending() then ErrNoAvailablePaths
      else Fine
    }

    // FailPath; the exchange may be overdue.
    predicate CarrierFails(at: nat) {
      0 < contextPath <= |paths| && paths[contextPath - 1].active && paths[contextPath - 1].binding == at
    }

    function Torn(at: nat): State {
      this.(paths := seq(|paths|, k requires 0 <= k < |paths| => paths[k].Failed(at)),
            contextPath := if CarrierFails(at) && !acknowledged then 0 else contextPath)
    }

    // FailPath before it drives
    function Rerouted(now: int, at: nat): State {
      if !CarrierFails(at) || acknowledged || Overdue(now) then Torn(at) else Torn(at).Moved(now)
    }

    function FailAnswer(now: int, at: nat): Answer {
      var s := Rerouted(now, at);
      if CarrierFails(at) && !acknowledged then
        if Overdue(now) && s.AnyEligible() then ErrExpired
        else if s.contextPath == 0 && !s.WorkPending() then ErrNoAvailablePaths
        else Fine
      else if acknowledged && s.Deserted() then ErrNoAvailablePaths
      else Fine
    }

    function Fail(now: int, at: nat): State {
      if FailAnswer(now, at) == Fine then Rerouted(now, at).Driven(now) else Rerouted(now, at)
    }

    predicate Deserted() {
      !AnyEligible() && !WorkPending()
    }

    // Advance: expireControl, and drive if that succeeds.
    function Advance(now: int): State {
      if ExpireAnswer(now) == Fine then Expire(now).Driven(now) else Expire(now)
    }

    function AdvanceAnswer(now: int): Answer {
      if ExpireAnswer(now) != Fine then ExpireAnswer(now)
      else if acknowledged && Expire(now).Deserted() then ErrNoAvailablePaths
      else Fine
    }

    // receiveBudget starts the exchange on the path.
    predicate TakesOffer(k: nat) {
      !acknowledged && (retry == Idle || contextPath == k + 1 || contextPath == 0)
    }

    // The acknowledgement of the published budget of path k.
    function BudgetDone(k: nat, now: int): State
      requires k < |paths|
    {
      var s := this.(paths := paths[k := paths[k].(published := true, budget := E.None)]);
      if TakesOffer(k) && !Overdue(now) then s.Start(k, now) else s
    }

    // The peer acknowledges the context.
    function Acknowledge(now: int): State {
      if acknowledged || retry == Idle || Overdue(now) then this else this.(acknowledged := true, retry := Idle)
    }

    // A retry that may move to another path.
    predicate Due(now: int) {
      retry.Pending? && retry.next <= now < retry.deadline && if owned then !retry.framed && retry.sends < CONTROL_SENDS else retry.sends > 0
    }

    // What drive does to the offer: a due retry moves to the next eligible path; an
    // adapter gets its frame again where it is if there is none.
    function Driven(now: int): State {
      if !Due(now) then this
      else
        var k := NextEligible(contextPath, |paths|);
        if k < |paths| then Start(k, now)
        else if owned && 0 < contextPath <= |paths| && paths[contextPath - 1].active then this.(retry := retry.(framed := true))
        else this
    }

    // An attempt to send the offer. `counts`: something was sent; `settles`: the frame
    // has not been replaced meanwhile.
    function Attempted(now: int, counts: bool, settles: bool): State {
      if !retry.Pending? || (counts && retry.sends >= CONTROL_SENDS) then this
      else
        var sent := if counts then retry.(sends := retry.sends + 1) else retry;
        this.(retry := if settles then sent.(next := now + CONTROL_RETRY, framed := false) else sent)
    }

    // commitPath; the end that answered the join keeps it pending.
    function Committed(k: nat, now: int, answered: bool): State
      requires k < |paths| && paths[k].join.Some?
    {
      var j := paths[k].join.value;
      var kept := E.Some(j.(committed := true, pending := answered));
      this.(paths := paths[k := Path(true, j.binding, false, true, kept, E.Some(now + CONTROL_LIFETIME))])
    }
  }

  // While the context is not acknowledged, the path that carries it is active. It was
  // offered at most once and sent no more often than is allowed; before it is offered,
  // its path is publishing a budget.
  predicate StateOk(s: State) {
    && s.contextPath <= |s.paths| && s.begun == (if s.retry.Pending? || s.acknowledged then 1 else 0)
    && (s.acknowledged ==> s.retry == Idle)
    && (s.retry.Pending? ==> s.retry.sends <= CONTROL_SENDS)
    && (!s.acknowledged && s.contextPath != 0 ==>
         s.paths[s.contextPath - 1].active && (s.retry == Idle ==> s.paths[s.contextPath - 1].budget.Some?))
  }

  lemma {:induction false} NextEligibleIs(s: State, from: nat, tries: nat)
    requires tries <= |s.paths|
    ensures var k := s.NextEligible(from, tries);
      && k <= |s.paths| && (k < |s.paths| ==> s.paths[k].Eligible())
      && (k == |s.paths| ==> forall i :: from <= i < from + tries ==> !s.paths[i % |s.paths|].Eligible())
    decreases tries
  {
    if tries > 0 && !s.paths[from % |s.paths|].Eligible() {
      NextEligibleIs(s, from + 1, tries - 1);
    }
  }

  lemma FirstEligibleIs(s: State)
    ensures var k := s.NextEligible(0, |s.paths|);
      && k <= |s.paths| && (k < |s.paths| <==> s.AnyEligible()) && (k < |s.paths| ==> s.paths[k].Eligible())
  {
    NextEligibleIs(s, 0, |s.paths|);
    if s.AnyEligible() {
      var i :| 0 <= i < |s.paths| && s.paths[i].Eligible();
      assert i % |s.paths| == i;
    }
  }

  // The search from the first path finds the first eligible one.
  lemma {:induction false} FirstIs(s: State, i: nat, k: nat)
    requires i <= k <= |s.paths| && (forall j :: i <= j < k ==> !s.paths[j].Eligible())
    requires k < |s.paths| ==> s.paths[k].Eligible()
    ensures s.NextEligible(i, |s.paths| - i) == k
    decreases k - i
  {
    if i < |s.paths| {
      SmallModulo(i, |s.paths|);
      if i < k {
        FirstIs(s, i + 1, k);
      }
    }
  }

  lemma SmallModulo(i: nat, n: nat)
    requires i < n
    ensures i % n == i
  {
  }

  // ---------------------------------------------------------------------------
  // Runs

  // Time passes, a binding fails, a join begins, a path commits, its budget is
  // acknowledged, its sender comes or goes, the context is acknowledged, the offer was
  // sent or could not be, or another call drives.
  datatype Event =
    | AdvanceEvent(now: int) | FailEvent(now: int, at: nat) | JoinEvent(k: nat, at: nat, now: int)
    | CommitEvent(k: nat, now: int, answered: bool) | BudgetEvent(k: nat, now: int) | SenderEvent(k: nat, available: bool)
    | AckEvent(now: int) | AttemptEvent(now: int, counts: bool, settles: bool) | DriveEvent(now: int)

  function Step(s: State, e: Event): State {
    match e
    case AdvanceEvent(now) => s.Advance(now)
    case FailEvent(now, at) => s.Fail(now, at)
    case JoinEvent(k, at, now) =>
      if k >= |s.paths| || (s.paths[k].join.Some? && s.paths[k].join.value.pending) then s
      else
        var joining := s.paths[k].(join := E.Some(Join(true, false, at, now + CONTROL_LIFETIME)));
        s.(paths := s.paths[k := joining])
    case CommitEvent(k, now, answered) =>
      if k < |s.paths| && s.paths[k].Commits(now) then s.Committed(k, now, answered) else s
    case BudgetEvent(k, now) =>
      if k < |s.paths| && s.paths[k].Publishes(now) then s.BudgetDone(k, now) else s
    case SenderEvent(k, available) =>
      if k < |s.paths| then s.(paths := s.paths[k := s.paths[k].(available := available)]) else s
    case AckEvent(now) => s.Acknowledge(now)
    case AttemptEvent(now, counts, settles) => s.Attempted(now, counts, settles)
    case DriveEvent(now) => s.Driven(now)
  }

  // A Session starts on its bootstrap path, whose budget is being published.
  function Start(owned: bool, n: nat, bootstrap: nat, now: int): State
    requires bootstrap < n
  {
    var idle := Path(false, 0, false, false, E.None, E.None);
    var paths := seq(n, k => idle);
    State(owned, paths[bootstrap := Path(true, 0, false, true, E.None, E.Some(now + CONTROL_LIFETIME))], bootstrap + 1, false, Idle, 0)
  }

  function After(s: State, events: seq<Event>): State {
    if events == [] then s else Step(After(s, events[..|events| - 1]), events[|events| - 1])
  }

  function Run(owned: bool, n: nat, bootstrap: nat, start: int, events: seq<Event>): State
    requires bootstrap < n
  {
    After(Start(owned, n, bootstrap, start), events)
  }

  lemma MovedOk(s: State, now: int)
    requires StateOk(s) && !s.acknowledged
    ensures StateOk(s.Moved(now)) && (s.Moved(now).contextPath == 0 <==> s.contextPath == 0 && !s.AnyEligible())
  {
    FirstEligibleIs(s);
  }

  // What a step keeps.
  predicate Keeps(s: State, t: State) {
    && StateOk(t) && |t.paths| == |s.paths| && t.owned == s.owned && (s.acknowledged ==> t.acknowledged)
    && (s.retry.Pending? ==> t.acknowledged || (t.retry.Pending? && t.retry.deadline == s.retry.deadline && s.retry.sends <= t.retry.sends))
  }

  lemma KeepsBoth(s: State, t: State, u: State)
    requires Keeps(s, t) && Keeps(t, u)
    ensures Keeps(s, u)
  {
  }

  lemma StepOk(s: State, e: Event)
    requires StateOk(s)
    ensures Keeps(s, Step(s, e))
  {
    hide StateOk, Keeps, State.Expire, State.Rerouted, State.Driven;
    match e
    case AdvanceEvent(now) =>
      ExpireKeeps(s, now);
      DriveAfter(s, s.Expire(now), now);
    case FailEvent(now, at) =>
      FailKeeps(s, now, at);
      DriveAfter(s, s.Rerouted(now, at), now);
    case DriveEvent(now) => DrivenKeeps(s, now);
    case _ => OtherKeeps(s, e);
  }

  lemma DriveAfter(s: State, t: State, now: int)
    requires Keeps(s, t)
    ensures Keeps(s, t.Driven(now))
  {
    hide State.Driven;
    DrivenKeeps(t, now);
    KeepsBoth(s, t, t.Driven(now));
  }

  lemma ExpireKeeps(s: State, now: int)
    requires StateOk(s)
    ensures Keeps(s, s.Expire(now))
  {
    if !s.Overdue(now) && !s.acknowledged {
      MovedOk(s.Aged(now), now);
    }
  }

  lemma FailKeeps(s: State, now: int, at: nat)
    requires StateOk(s)
    ensures Keeps(s, s.Rerouted(now, at))
  {
    if !s.acknowledged {
      MovedOk(s.Torn(at), now);
    }
  }

  // Driving moves the offer between active paths and changes no path.
  lemma DrivenKeeps(s: State, now: int)
    requires StateOk(s)
    ensures Keeps(s, s.Driven(now)) && s.Driven(now).paths == s.paths && s.Driven(now).acknowledged == s.acknowledged
    ensures !s.AnyEligible() ==> s.Driven(now).contextPath == s.contextPath
    ensures s.contextPath != 0 ==> s.Driven(now).contextPath != 0
  {
    NextEligibleIs(s, s.contextPath, |s.paths|);
  }

  lemma OtherKeeps(s: State, e: Event)
    requires StateOk(s) && !e.AdvanceEvent? && !e.FailEvent? && !e.DriveEvent?
    ensures Keeps(s, Step(s, e))
  {
  }

  lemma {:induction false} AfterOk(s: State, events: seq<Event>)
    requires StateOk(s)
    ensures Keeps(s, After(s, events))
  {
    hide Step, StateOk, Keeps;
    if events == [] {
      KeepsSelf(s);
    } else {
      AfterOk(s, events[..|events| - 1]);
      var t := After(s, events[..|events| - 1]);
      KeepsIsOk(s, t);
      StepOk(t, events[|events| - 1]);
      KeepsBoth(s, t, Step(t, events[|events| - 1]));
    }
  }

  lemma KeepsSelf(s: State)
    requires StateOk(s)
    ensures Keeps(s, s)
  {
  }

  lemma KeepsIsOk(s: State, t: State)
    requires Keeps(s, t)
    ensures StateOk(t)
  {
  }

  lemma {:induction false} AfterJoins(s: State, events: seq<Event>, m: nat)
    requires m <= |events|
    ensures After(s, events) == After(After(s, events[..m]), events[m..])
    decreases |events| - m
  {
    hide Step;
    if m < |events| {
      var last := |events| - 1;
      AfterJoins(s, events[..last], m);
      assert events[..last][..m] == events[..m] && events[..last][m..] == events[m..][..last - m];
    } else {
      assert events[..m] == events;
    }
  }

  /** Over every run: until the context is acknowledged the path that carries it is
      active, and it is offered at most once and sent at most eight times, however
      often the offer moves. */
  lemma EveryRunIsOk(owned: bool, n: nat, bootstrap: nat, start: int, events: seq<Event>)
    requires bootstrap < n
    ensures var s := Run(owned, n, bootstrap, start, events);
      && StateOk(s) && |s.paths| == n && s.owned == owned && s.begun <= 1
      && (s.retry.Pending? ==> s.retry.sends <= 8)
  {
    AfterOk(Start(owned, n, bootstrap, start), events);
  }

  /** An offer keeps its first deadline, and its attempts are counted on, until it is
      acknowledged: it never lasts longer than its lifetime. */
  lemma OneDeadline(owned: bool, n: nat, bootstrap: nat, start: int, events: seq<Event>, m: nat)
    requires bootstrap < n && m <= |events|
    ensures var s, t := Run(owned, n, bootstrap, start, events[..m]), Run(owned, n, bootstrap, start, events);
      s.retry.Pending? ==> t.acknowledged || (t.retry.Pending? && t.retry.deadline == s.retry.deadline && s.retry.sends <= t.retry.sends)
  {
    hide Step;
    EveryRunIsOk(owned, n, bootstrap, start, events[..m]);
    AfterJoins(Start(owned, n, bootstrap, start), events, m);
    AfterOk(Run(owned, n, bootstrap, start, events[..m]), events[m..]);
  }

  // ---------------------------------------------------------------------------
  // Giving up

  // A path can be used, or one may become usable, or the offer is under way and will
  // be acknowledged or expire.
  predicate Progressing(s: State) {
    s.AnyEligible() || s.WorkPending() || (!s.acknowledged && s.contextPath != 0)
  }

  /** expireControl fails exactly when the offer is late or nothing is left that could
      make the Session usable. */
  lemma ExpireIsExact(s: State, now: int)
    requires StateOk(s)
    ensures s.ExpireAnswer(now) == ErrExpired <==> s.Overdue(now)
    ensures s.ExpireAnswer(now) == Fine <==> !s.Overdue(now) && (s.acknowledged || Progressing(s.Expire(now)))
  {
    ExpireKeeps(s, now);
    FirstEligibleIs(s.Aged(now));
  }

  /** Advance never leaves a Session stranded without saying so: it succeeds exactly
      when the offer is in time and the Session is making progress. */
  lemma AdvanceIsExact(s: State, now: int)
    requires StateOk(s)
    ensures s.AdvanceAnswer(now) == ErrExpired <==> s.Overdue(now)
    ensures s.AdvanceAnswer(now) == Fine <==> !s.Overdue(now) && Progressing(s.Advance(now))
  {
    hide State.Expire, State.Driven, StateOk, State.WorkPending, State.AnyEligible;
    ExpireIsExact(s, now);
    ExpireKeeps(s, now);
    KeepsIsOk(s, s.Expire(now));
    DrivenKeeps(s.Expire(now), now);
    DrivenProgress(s.Expire(now), now);
    AcknowledgedStays(s, now);
  }

  lemma AcknowledgedStays(s: State, now: int)
    ensures s.Expire(now).acknowledged == s.acknowledged
  {
  }

  lemma DrivenSame(s: State, now: int)
    ensures s.Driven(now).paths == s.paths && s.Driven(now).acknowledged == s.acknowledged
    ensures s.Driven(now).AnyEligible() == s.AnyEligible() && s.Driven(now).WorkPending() == s.WorkPending()
  {
    NextEligibleIs(s, s.contextPath, |s.paths|);
  }

  lemma DrivenProgress(s: State, now: int)
    requires StateOk(s)
    ensures Progressing(s.Driven(now)) <==> Progressing(s)
  {
    hide State.Driven, StateOk;
    DrivenKeeps(s, now);
  }

  // What FailPath would leave to go on with, seen before the call.
  predicate LeftEligible(s: State, at: nat) {
    exists k :: 0 <= k < |s.paths| && s.paths[k].Failed(at).Eligible()
  }

  predicate LeftWorking(s: State, at: nat) {
    exists k :: 0 <= k < |s.paths| && s.paths[k].Failed(at).Works()
  }

  lemma TornLeaves(s: State, at: nat)
    ensures s.Torn(at).AnyEligible() <==> LeftEligible(s, at)
    ensures s.Torn(at).WorkPending() <==> LeftWorking(s, at)
  {
    var t := s.Torn(at);
    assert forall k :: 0 <= k < |s.paths| ==> t.paths[k] == s.paths[k].Failed(at);
  }

  /** FailPath leaves a Session stranded without saying so in exactly one case: the
      offer is carried by no path already, and the failed binding took the last path
      that was usable or might have become so. */
  lemma FailIsExact(s: State, now: int, at: nat)
    requires StateOk(s)
    ensures s.FailAnswer(now, at) == Fine && !Progressing(s.Fail(now, at)) <==>
      !s.acknowledged && s.contextPath == 0 && !LeftEligible(s, at) && !LeftWorking(s, at)
  {
    hide State.Torn, State.Driven, StateOk, State.WorkPending, State.AnyEligible, LeftEligible, LeftWorking, State.NextEligible;
    TornLeaves(s, at);
    TornKeeps(s, at);
    FirstEligibleIs(s.Torn(at));
    FailKeeps(s, now, at);
    KeepsIsOk(s, s.Rerouted(now, at));
    DrivenProgress(s.Rerouted(now, at), now);
    MovedSame(s.Torn(at), now);
  }

  lemma MovedSame(s: State, now: int)
    ensures s.Moved(now).paths == s.paths && s.Moved(now).acknowledged == s.acknowledged
    ensures s.Moved(now).AnyEligible() <==> s.AnyEligible()
    ensures s.Moved(now).WorkPending() <==> s.WorkPending()
  {
  }

  /** A late offer is reported by FailPath exactly when its carrier fails and another
      path could take it; with nothing left to go on with the answer is that no path
      is available, and otherwise the next Advance has to report it. */
  lemma FailOnLateOffer(s: State, now: int, at: nat)
    requires StateOk(s) && s.Overdue(now)
    ensures s.FailAnswer(now, at) == ErrExpired <==> s.CarrierFails(at) && LeftEligible(s, at)
    ensures s.FailAnswer(now, at) == ErrNoAvailablePaths <==> s.CarrierFails(at) && !LeftEligible(s, at) && !LeftWorking(s, at)
    ensures s.Fail(now, at).Overdue(now) && s.Fail(now, at).AdvanceAnswer(now) == ErrExpired
  {
    hide State.Torn, State.WorkPending, State.AnyEligible, LeftEligible, LeftWorking, State.NextEligible;
    TornLeaves(s, at);
    TornKeeps(s, at);
  }

  // A new join, or a sender that can be used again.
  predicate Revives(e: Event) {
    e.JoinEvent? || (e.SenderEvent? && e.available)
  }

  lemma StrandedStep(s: State, e: Event)
    requires StateOk(s) && !Progressing(s) && !Revives(e)
    ensures !Progressing(Step(s, e))
  {
    match e
    case AdvanceEvent(now) =>
      StrandedExpires(s, now);
    case FailEvent(now, at) =>
      StrandedFails(s, now, at);
    case DriveEvent(now) =>
      DrivenProgress(s, now);
    case CommitEvent(k, now, answered) =>
      assert k < |s.paths| ==> !s.paths[k].Works();
    case BudgetEvent(k, now) =>
      assert k < |s.paths| ==> !s.paths[k].Works();
    case SenderEvent(k, available) =>
      assert k < |s.paths| ==> !s.paths[k].Works() && !s.paths[k].Eligible();
      var t := Step(s, e);
      assert forall i :: 0 <= i < |t.paths| ==> (t.paths[i].Works() ==> s.paths[i].Works()) && !t.paths[i].Eligible();
    case AckEvent(now) =>
    case AttemptEvent(now, counts, settles) =>
  }

  lemma StrandedExpires(s: State, now: int)
    requires StateOk(s) && !Progressing(s)
    ensures !Progressing(s.Advance(now))
  {
    hide State.Driven, State.NextEligible;
    var a := s.Aged(now);
    forall k | 0 <= k < |a.paths|
      ensures !a.paths[k].Eligible() && !a.paths[k].Works()
    {
      assert !s.paths[k].Eligible() && !s.paths[k].Works();
    }
    FirstEligibleIs(a);
    ExpireKeeps(s, now);
    DrivenProgress(s.Expire(now), now);
  }

  lemma StrandedFails(s: State, now: int, at: nat)
    requires StateOk(s) && !Progressing(s)
    ensures !Progressing(s.Fail(now, at))
  {
    hide State.Driven, State.NextEligible;
    var t := s.Torn(at);
    forall k | 0 <= k < |t.paths|
      ensures !t.paths[k].Eligible() && !t.paths[k].Works()
    {
      assert !s.paths[k].Eligible() && !s.paths[k].Works();
    }
    FirstEligibleIs(t);
    FailKeeps(s, now, at);
    DrivenProgress(s.Rerouted(now, at), now);
  }

  /** A stranded Session stays stranded, whatever happens short of a new join or a
      sender that comes back, and every Advance from then on says so. */
  lemma {:induction false} StrandedIsReported(s: State, events: seq<Event>, now: int)
    requires StateOk(s) && !Progressing(s) && forall i :: 0 <= i < |events| ==> !Revives(events[i])
    ensures !Progressing(After(s, events)) && After(s, events).AdvanceAnswer(now) != Fine
  {
    hide Step, StateOk, Progressing, State.Advance, State.AdvanceAnswer, Revives, Keeps;
    AfterOk(s, events);
    KeepsIsOk(s, After(s, events));
    if events != [] {
      var front := events[..|events| - 1];
      assert forall i :: 0 <= i < |front| ==> front[i] == events[i];
      StrandedIsReported(s, front, now);
      AfterOk(s, front);
      KeepsIsOk(s, After(s, front));
      StrandedStep(After(s, front), events[|events| - 1]);
    }
    StrandedExpires(After(s, events), now);
    AdvanceIsExact(After(s, events), now);
  }

  // A run that ends so: the bootstrap path loses its budget exchange while path 2 joins on
  // binding 7, and then that binding fails.
  lemma FailMayStrand(owned: bool)
    ensures var s := Run(owned, 2, 0, 0, [JoinEvent(1, 7, 1), AdvanceEvent(CONTROL_LIFETIME)]);
      s.FailAnswer(CONTROL_LIFETIME, 7) == Fine && !Progressing(s.Fail(CONTROL_LIFETIME, 7))
  {
    var a := JoinEvent(1, 7, 1);
    var b := AdvanceEvent(CONTROL_LIFETIME);
    var start := Start(owned, 2, 0, 0);
    assert [a, b][..1] == [a] && [a][..0] == [];
    var r := Step(start, a);
    assert After(start, []) == start && After(start, [a]) == r;
    assert r.paths[0] == Path(true, 0, false, true, E.None, E.Some(CONTROL_LIFETIME));
    assert r.paths[1] == Path(false, 0, false, false, E.Some(Join(true, false, 7, 1 + CONTROL_LIFETIME)), E.None);
    var t := r.Aged(CONTROL_LIFETIME);
    FirstEligibleIs(t);
    assert t.paths[0] == Path(false, 0, false, true, E.None, E.None) && t.paths[1] == r.paths[1];
    assert !t.AnyEligible() && r.Expire(CONTROL_LIFETIME) == t;
    assert t.paths[1].Works();
    assert Step(r, b) == t;
    FailIsExact(t, CONTROL_LIFETIME, 7);
  }

  // ---------------------------------------------------------------------------
  // The code

  class Exchange {
    const owned: bool
    const paths: array<Path>
    var contextPath: nat
    var acknowledged: bool
    var retry: Retry
    ghost var begun: nat

    ghost function View(): State
      reads this, paths
    {
      State(owned, paths[..], contextPath, acknowledged, retry, begun)
    }

    constructor (owned: bool, n: nat, bootstrap: nat, now: int)
      requires bootstrap < n
      ensures View() == Run(owned, n, bootstrap, now, []) && fresh(paths)
    {
      var idle := Path(false, 0, false, false, E.None, E.None);
      this.owned := owned;
      paths := new Path[n](_ => idle);
      contextPath, acknowledged, retry, begun := bootstrap + 1, false, Idle, 0;
      new;
      paths[bootstrap] := Path(true, 0, false, true, E.None, E.Some(now + CONTROL_LIFETIME));
      assert paths[..] == Start(owned, n, bootstrap, now).paths;
    }

    // startEncoding
    method StartEncoding(k: nat, now: int) returns (answer: Answer)
      requires k < paths.Length
      modifies this
      ensures View().Overdue(now) == old(View()).Overdue(now) == (answer == ErrExpired) && answer != ErrNoAvailablePaths
      ensures View() == if answer == ErrExpired then old(View()) else old(View()).Start(k, now)
    {
      if retry.Pending? && now >= retry.deadline {
        return ErrExpired;
      }
      if retry == Idle {
        retry := Pending(now + CONTROL_LIFETIME, now, 0, false);
        begun := begun + 1;
      }
      retry := retry.(next := now, framed := true);
      contextPath := k + 1;
      return Fine;
    }

    // The first eligible path.
    method FindEligible() returns (k: nat)
      ensures k == View().NextEligible(0, paths.Length) && k <= paths.Length
    {
      hide State.NextEligible;
      k := 0;
      while k < paths.Length && !paths[k].Eligible()
        invariant k <= paths.Length && forall j :: 0 <= j < k ==> !paths[j].Eligible()
      {
        k := k + 1;
      }
      FirstIs(View(), 0, k);
    }

    // pendingPathWork
    method PendingPathWork() returns (works: bool)
      ensures works == View().WorkPending()
    {
      for i := 0 to paths.Length
        invariant forall k :: 0 <= k < i ==> !paths[k].Works()
      {
        if paths[i].Works() {
          assert View().paths[i].Works();
          return true;
        }
      }
      return false;
    }

    method AgePaths(now: int)
      modifies this`contextPath, paths
      ensures View() == old(View()).Aged(now)
    {
      var lost := false;
      for i := 0 to paths.Length
        invariant contextPath == old(contextPath)
        invariant forall k :: 0 <= k < i ==> paths[k] == old(paths[k]).Expired(now)
        invariant forall k :: i <= k < paths.Length ==> paths[k] == old(paths[k])
        invariant lost <==> !acknowledged && 0 < contextPath <= i && old(paths[..])[contextPath - 1].BudgetDue(now)
      {
        var p := paths[i];
        if p.join.Some? && now >= p.join.value.deadline {
          p := p.(join := E.None);
        }
        if p.BudgetDue(now) {
          p := p.(active := false, budget := E.None);
          if i + 1 == contextPath && !acknowledged {
            lost := true;
          }
        }
        paths[i] := p;
      }
      if lost {
        contextPath := 0;
      }
      assert paths[..] == old(View()).Aged(now).paths;
    }

    // The exchange moves to an eligible path, if there is one.
    method Move(now: int) returns (answer: Answer)
      modifies this
      ensures answer == if View().AnyEligible() && old(View()).Overdue(now) then ErrExpired else Fine
      ensures View() == if old(View()).Overdue(now) then old(View()) else old(View()).Moved(now)
    {
      hide State.NextEligible;
      FirstEligibleIs(View());
      var k := FindEligible();
      answer := Fine;
      if k < paths.Length {
        answer := StartEncoding(k, now);
      }
    }

    /** expireControl */
    method ExpireControl(now: int) returns (answer: Answer)
      modifies this, paths
      ensures View() == old(View()).Expire(now) && answer == old(View()).ExpireAnswer(now)
    {
      hide State.Aged, State.Moved, State.WorkPending;
      if retry.Pending? && now >= retry.deadline {
        return ErrExpired;
      }
      AgedKeeps(View(), now);
      AgePaths(now);
      MovedSame(View(), now);
      if contextPath == 0 && !acknowledged {
        var _ := Move(now);
      }
      var works := PendingPathWork();
      return if contextPath == 0 && !acknowledged && !works then ErrNoAvailablePaths else Fine;
    }

    method TearPaths(at: nat)
      modifies this`contextPath, paths
      ensures View() == old(View()).Torn(at)
    {
      var torn := false;
      for i := 0 to paths.Length
        invariant contextPath == old(contextPath)
        invariant forall k :: 0 <= k < i ==> paths[k] == old(paths[k]).Failed(at)
        invariant forall k :: i <= k < paths.Length ==> paths[k] == old(paths[k])
        invariant torn <==> 0 < contextPath <= i && old(paths[..])[contextPath - 1].active && old(paths[..])[contextPath - 1].binding == at
      {
        var p := paths[i];
        if p.active && p.binding == at {
          p := p.(active := false, available := false, budget := E.None);
          torn := torn || i + 1 == contextPath;
        }
        if p.join.Some? && p.join.value.binding == at {
          p := p.(join := E.None);
        }
        paths[i] := p;
      }
      if torn && !acknowledged {
        contextPath := 0;
      }
      assert paths[..] == old(View()).Torn(at).paths;
    }

    /** FailPath */
    method FailPath(now: int, at: nat) returns (answer: Answer)
      modifies this, paths
      ensures View() == old(View()).Fail(now, at) && answer == old(View()).FailAnswer(now, at)
    {
      hide State.Torn, State.WorkPending, State.NextEligible, State.Moved, State.Driven;
      TornKeeps(View(), at);
      var was := contextPath;
      TearPaths(at);
      MovedSame(View(), now);
      if was != 0 && contextPath == 0 && !acknowledged {
        answer := Move(now);
        if answer != Fine {
          return;
        }
        var works := PendingPathWork();
        if contextPath == 0 && !works {
          return ErrNoAvailablePaths;
        }
      }
      FirstEligibleIs(View());
      var k := FindEligible();
      var works := PendingPathWork();
      if acknowledged && k == paths.Length && !works {
        return ErrNoAvailablePaths;
      }
      answer := Drive(now);
    }

    // Looks for an eligible path from the one behind the carrier on, round about.
    method NextEligible() returns (k: nat)
      ensures k == View().NextEligible(contextPath, paths.Length) && k <= paths.Length
    {
      k := contextPath;
      var tries: nat := paths.Length;
      while tries > 0 && !paths[k % paths.Length].Eligible()
        invariant 0 <= tries <= paths.Length && k == contextPath + paths.Length - tries
        invariant View().NextEligible(contextPath, paths.Length) == View().NextEligible(k, tries)
      {
        k, tries := k + 1, tries - 1;
      }
      k := if tries == 0 then paths.Length else k % paths.Length;
    }

    // The control part of drive: prepareOwnedControls or driveControl, and the answer
    // if no path is left.
    method Drive(now: int) returns (answer: Answer)
      modifies this
      ensures View() == old(View()).Driven(now)
      ensures answer == if old(acknowledged) && old(View()).Deserted() then ErrNoAvailablePaths else Fine
    {
      hide State.NextEligible, State.WorkPending, State.AnyEligible;
      DrivenSame(View(), now);
      if retry.Pending? && retry.next <= now < retry.deadline && (if owned then !retry.framed && retry.sends < CONTROL_SENDS else retry.sends > 0) {
        var k := NextEligible();
        if k < paths.Length {
          var _ := StartEncoding(k, now);
        } else if owned && 0 < contextPath <= paths.Length && paths[contextPath - 1].active {
          retry := retry.(framed := true);
        }
      }
      FirstEligibleIs(View());
      var k := FindEligible();
      var works := PendingPathWork();
      answer := if acknowledged && k == paths.Length && !works then ErrNoAvailablePaths else Fine;
    }

    /** Advance, as far as it concerns the offer. */
    method Advance(now: int) returns (answer: Answer)
      modifies this, paths
      ensures View() == old(View()).Advance(now) && answer == old(View()).AdvanceAnswer(now)
    {
      hide State.Expire, State.Driven, State.Deserted;
      AcknowledgedStays(View(), now);
      answer := ExpireControl(now);
      if answer == Fine {
        answer := Drive(now);
      }
    }

    // The end of receiveBudget: path k has its budget acknowledged.
    method BudgetAcknowledged(k: nat, now: int) returns (answer: Answer)
      requires k < paths.Length
      modifies this, paths
      ensures View() == old(View()).BudgetDone(k, now)
      ensures answer == if old(View()).TakesOffer(k) && old(View()).Overdue(now) then ErrExpired else Fine
    {
      paths[k] := paths[k].(published := true, budget := E.None);
      if !acknowledged && (retry == Idle || contextPath == k + 1 || contextPath == 0) {
        answer := StartEncoding(k, now);
      } else {
        answer := Fine;
      }
    }

    // receiveEncoding of a valid ENCODING_CONTEXT_ACK
    method ContextAcknowledged(now: int) returns (ok: bool)
      modifies this
      ensures View() == old(View()).Acknowledge(now)
      ensures ok <==> old(acknowledged) || (old(retry).Pending? && !old(View()).Overdue(now))
    {
      if acknowledged {
        return true;
      }
      if retry == Idle || now >= retry.deadline {
        return false;
      }
      acknowledged, retry := true, Idle;
      return true;
    }
  }

  lemma AgedKeeps(s: State, now: int)
    ensures var t := s.Aged(now); t.acknowledged == s.acknowledged && t.retry == s.retry && |t.paths| == |s.paths|
  {
  }

  lemma TornKeeps(s: State, at: nat)
    ensures var t := s.Torn(at);
      && t.acknowledged == s.acknowledged && t.retry == s.retry && |t.paths| == |s.paths|
      && (s.CarrierFails(at) && !s.acknowledged <==> s.contextPath != 0 && t.contextPath == 0)
      && (t.contextPath == 0 || t.contextPath == s.contextPath)
  {
  }
}
