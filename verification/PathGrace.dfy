// internal/sessionv2: how long a path goes on admitting what was sent before it
// changed, and what it takes to open one.
//
// PathProtocol proves what two ends can never disagree on. Here one end is watched
// from the moment it commits an incarnation or takes an update, through any further
// messages, timeouts and failures: data of the former route is admitted with its
// former budget for exactly the grace time.
module PathGrace {
  import opened Words
  import opened PathProtocol

  // ---------------------------------------------------------------------------
  // Anything that may happen to one end

  datatype Act =
    | Joining(now: int, nonce: nat, at: nat) | Hearing(now: int, m: Message, at: nat, nonce: nat)
    | Publishing(now: int) | Aging(now: int) | Failing(at: nat)

  function Did(e: End, a: Act): End {
    match a
    case Joining(now, nonce, at) => StartJoin(e, now, nonce, at).end
    case Hearing(now, m, at, nonce) => Receive(e, m, now, at, nonce).end
    case Publishing(now) => Publish(e, now).end
    case Aging(now) => PathProtocol.Expire(e, now)
    case Failing(at) => PathProtocol.Fail(e, at)
  }

  function DidAll(e: End, acts: seq<Act>): End {
    if acts == [] then e else Did(DidAll(e, acts[..|acts| - 1]), acts[|acts| - 1])
  }

  predicate By(a: Act, t: int) {
    !a.Failing? ==> a.now <= t
  }

  // Nothing happens after t, and the route of `at` does not fail.
  predicate Quiet(acts: seq<Act>, t: int, at: nat) {
    forall i :: 0 <= i < |acts| ==> By(acts[i], t) && acts[i] != Failing(at)
  }

  // Generations only grow, and every kept route has its own, smaller one.
  predicate Ordered(e: End) {
    && e.generation <= e.floor
    && (e.join.pending && !e.join.committed ==> e.generation < e.join.generation <= e.floor)
    && (forall k :: 0 <= k < |e.routes| ==> Earlier(e.routes[k], e.generation))
    && forall j, k :: 0 <= j < k < |e.routes| ==> Apart(e.routes[j], e.routes[k])
  }

  predicate Earlier(o: OldRoute, generation: nat) {
    o.OldRoute? ==> o.generation < generation
  }

  predicate Apart(o: OldRoute, p: OldRoute) {
    o.OldRoute? && p.OldRoute? ==> o.generation != p.generation
  }

  // The incarnation that e begins when a message makes it commit.
  lemma CommitIsCommit(e: End, a: Act)
    requires Ordered(e) && Did(e, a).generation != e.generation
    ensures a.Hearing? && e.join.pending && !e.join.committed && CanCommit(e, a.now)
    ensures var c := Commit(e, a.now);
      && Did(e, a) == c.(join := Did(e, a).join) && Did(e, a).join.committed
  {
    hide FreeOld, ValidRoute, AllowRetry, CanCommit, Unexpired, Elsewhere;
  }

  // A kept route after an act that commits nothing.
  function After(o: OldRoute, a: Act): OldRoute {
    if a.Aging? then Aged(o, a.now) else if a.Failing? then Torn(o, a.at) else o
  }

  // Every other act leaves a generation alone, and each route as it was or gone.
  lemma OtherwiseKept(e: End, a: Act)
    requires Did(e, a).generation == e.generation && Ordered(e)
    ensures |Did(e, a).routes| == |e.routes| && Did(e, a).terms == e.terms
    ensures forall k :: 0 <= k < |e.routes| ==> Did(e, a).routes[k] == After(e.routes[k], a)
  {
    hide FreeOld, Receive, Torn, Aged, Earlier, Apart;
    if a.Hearing? {
      HearingKept(e, a.m, a.now, a.at, a.nonce);
    }
  }

  lemma HearingKept(e: End, m: Message, now: int, at: nat, nonce: nat)
    requires Ordered(e) && Receive(e, m, now, at, nonce).end.generation == e.generation
    ensures Receive(e, m, now, at, nonce).end.routes == e.routes && Receive(e, m, now, at, nonce).end.terms == e.terms
  {
    hide FreeOld, ValidRoute, AllowRetry, CanCommit, Earlier, Apart;
  }

  lemma OtherwiseJoins(e: End, a: Act)
    requires Did(e, a).generation == e.generation && Ordered(e)
    ensures Did(e, a).generation <= Did(e, a).floor
    ensures var j := Did(e, a).join; j.pending && !j.committed ==> e.generation < j.generation <= Did(e, a).floor
  {
    hide FreeOld, ValidRoute, AllowRetry, CanCommit, Unexpired, Elsewhere, Earlier, Apart;
  }

  lemma StartIsOrdered(terms: Terms, bootstrap: bool, binding: nat)
    ensures Ordered(PathProtocol.Start(terms, bootstrap, binding))
  {
  }

  lemma DidIsOrdered(e: End, a: Act)
    requires Ordered(e)
    ensures Ordered(Did(e, a)) && Did(e, a).generation >= e.generation && Did(e, a).terms == e.terms
  {
    hide Did, FreeOld;
    if Did(e, a).generation != e.generation {
      CommitIsCommit(e, a);
      CommitIsOrdered(e, a.now);
    } else {
      OtherwiseKept(e, a);
      OtherwiseJoins(e, a);
      assert forall k :: 0 <= k < |e.routes| ==> Did(e, a).routes[k] in {e.routes[k], NoRoute};
      assert forall j, k :: 0 <= j < k < |e.routes| ==> Apart(e.routes[j], e.routes[k]);
    }
  }

  lemma CommitIsOrdered(e: End, now: int)
    requires Ordered(e) && e.join.pending && !e.join.committed && CanCommit(e, now)
    ensures Ordered(Commit(e, now)) && Commit(e, now).generation == e.join.generation > e.generation
  {
    hide FreeOld;
    var c := Commit(e, now);
    forall k | 0 <= k < |c.routes|
      ensures Earlier(c.routes[k], c.generation)
    {
      assert Earlier(e.routes[k], e.generation);
    }
    forall j, k | 0 <= j < k < |c.routes|
      ensures Apart(c.routes[j], c.routes[k])
    {
      assert Apart(e.routes[j], e.routes[k]) && Earlier(e.routes[j], e.generation) && Earlier(e.routes[k], e.generation);
    }
  }

  // ---------------------------------------------------------------------------
  // The grace of a route that was left

  /** A path cannot be committed exactly while it is active and every slot for a former
      route is still in its grace. */
  lemma {:induction false} CommitNeedsASlot(routes: seq<OldRoute>, maxOld: nat, now: int)
    ensures FreeOld(routes, maxOld, now) < |routes| && FreeOld(routes, maxOld, now) < maxOld <==>
      exists k :: 0 <= k < |routes| && k < maxOld && (routes[k].NoRoute? || routes[k].until <= now)
  {
    if routes != [] && maxOld > 0 && !routes[0].NoRoute? && now < routes[0].until {
      CommitNeedsASlot(routes[1..], maxOld - 1, now);
      if k :| 0 <= k < |routes| && k < maxOld && (routes[k].NoRoute? || routes[k].until <= now) {
        assert routes[1..][k - 1] == routes[k];
      }
      if k :| 0 <= k < |routes[1..]| && k < maxOld - 1 && (routes[1..][k].NoRoute? || routes[1..][k].until <= now) {
        assert routes[k + 1] == routes[1..][k];
      }
    }
  }

  // The former route o is kept; before `until` no slot but its own holds it, and no
  // other route ever has its generation.
  predicate Past(e: End, o: OldRoute) {
    && o.OldRoute? && o.generation < e.generation
    && forall k :: 0 <= k < |e.routes| ==> e.routes[k].OldRoute? && e.routes[k].generation == o.generation ==> e.routes[k] == o
  }

  predicate KeptAt(e: End, o: OldRoute, k: nat) {
    k < |e.routes| && e.routes[k] == o
  }

  lemma CommitKeepsRoute(e: End, now: int) returns (k: nat)
    requires Ordered(e) && e.active && e.join.pending && !e.join.committed && CanCommit(e, now)
    ensures var o := OldRoute(e.binding, e.generation, e.receiveEpoch, e.receiveBudget, now + e.terms.grace);
      Past(Commit(e, now), o) && KeptAt(Commit(e, now), o, k)
  {
    hide FreeOld;
    k := FreeOld(e.routes, e.terms.maxOld, now);
    assert forall i :: 0 <= i < |e.routes| ==> Earlier(e.routes[i], e.generation);
  }

  lemma PastStays(e: End, a: Act, o: OldRoute)
    requires Ordered(e) && Past(e, o)
    ensures Past(Did(e, a), o)
  {
    hide Did, FreeOld;
    if Did(e, a).generation != e.generation {
      CommitIsCommit(e, a);
    } else {
      OtherwiseKept(e, a);
    }
  }

  // Only its own grace and the failure of its binding end a former route.
  lemma RouteStays(e: End, a: Act, o: OldRoute, k: nat)
    requires Ordered(e) && o.OldRoute? && KeptAt(e, o, k) && a != Failing(o.binding) && (!a.Failing? ==> a.now < o.until)
    ensures KeptAt(Did(e, a), o, k)
  {
    hide Did, FreeOld, CanCommit, Ordered;
    if Did(e, a).generation != e.generation {
      CommitIsCommit(e, a);
      if e.active {
        FreeIsOver(e, a.now);
      }
    } else {
      OtherwiseKept(e, a);
    }
  }

  lemma FreeIsOver(e: End, now: int)
    requires CanCommit(e, now) && e.active
    ensures var k := FreeOld(e.routes, e.terms.maxOld, now); k < |e.routes| && (e.routes[k].NoRoute? || e.routes[k].until <= now)
  {
  }

  lemma {:induction false} FoundOld(routes: seq<OldRoute>, o: OldRoute, now: int)
    requires o.OldRoute?
    requires forall k :: 0 <= k < |routes| ==> routes[k].OldRoute? && routes[k].generation == o.generation ==> routes[k] == o
    ensures o in routes && now < o.until ==>
      OldBudget(routes, o.binding, o.generation, o.epoch, now) == Admitted(o.budget, true)
    ensures o.until <= now ==> forall binding, epoch :: OldBudget(routes, binding, o.generation, epoch, now) == Refused
  {
    if routes != [] {
      FoundOld(routes[1..], o, now);
    }
  }

  lemma {:induction false} RouteOverActs(e: End, o: OldRoute, k: nat, acts: seq<Act>, t: int)
    requires Ordered(e) && Past(e, o) && KeptAt(e, o, k) && Quiet(acts, t, o.binding)
    ensures var r := DidAll(e, acts); Ordered(r) && Past(r, o) && (t < o.until ==> KeptAt(r, o, k))
  {
    hide Did, Ordered, Past, KeptAt;
    if acts != [] {
      var front, a := acts[..|acts| - 1], acts[|acts| - 1];
      assert forall i :: 0 <= i < |front| ==> front[i] == acts[i];
      RouteOverActs(e, o, k, front, t);
      var r := DidAll(e, front);
      DidIsOrdered(r, a);
      PastStays(r, a, o);
      IsOldRoute(r, o);
      assert By(a, t) && a != Failing(o.binding);
      if t < o.until {
        RouteStays(r, a, o, k);
      }
    }
  }

  lemma IsOldRoute(e: End, o: OldRoute)
    requires Past(e, o)
    ensures o.OldRoute?
  {
  }

  /** An active path that commits a new incarnation at some time goes on admitting data
      of its former binding, generation and epoch with the former budget, restricted, at
      every time before the grace is over and at none from then on, whatever happens in
      between short of the failure of that binding. */
  lemma FormerRouteHasItsGrace(e: End, a: Act, acts: seq<Act>, t: int)
    requires Ordered(e) && e.active && Did(e, a).generation != e.generation
    requires Quiet(acts, t, e.binding)
    ensures ValidRoute(DidAll(Did(e, a), acts), e.binding, e.generation, e.receiveEpoch, t) ==
      if t < a.now + e.terms.grace then Admitted(e.receiveBudget, true) else Refused
  {
    hide Did, DidAll, FreeOld, CanCommit, Commit;
    CommitIsCommit(e, a);
    var o := OldRoute(e.binding, e.generation, e.receiveEpoch, e.receiveBudget, a.now + e.terms.grace);
    var k := CommitKeepsRoute(e, a.now);
    DidIsOrdered(e, a);
    RouteOverActs(Did(e, a), o, k, acts, t);
    FoundOld(DidAll(Did(e, a), acts).routes, o, t);
  }

  // ---------------------------------------------------------------------------
  // The grace of the epoch before an update

  // The update has been taken and the incarnation is still the same.
  predicate Updated(e: End, generation: nat, budget: nat, until: int) {
    && e.generation == generation
    && (e.active ==> e.receiveEpoch == 2 && e.oldEpoch == 1 && e.oldBudget == budget && e.oldUntil == until)
  }

  lemma UpdatedStays(e: End, a: Act, generation: nat, budget: nat, until: int)
    requires Ordered(e) && Updated(e, generation, budget, until)
    ensures Did(e, a).generation == generation ==> Updated(Did(e, a), generation, budget, until)
  {
    hide FreeOld, ValidRoute, AllowRetry, CanCommit, Unexpired, Elsewhere;
  }

  lemma {:induction false} UpdatedOverActs(e: End, acts: seq<Act>, generation: nat, budget: nat, until: int)
    requires Ordered(e) && Updated(e, generation, budget, until)
    ensures var r := DidAll(e, acts);
      && Ordered(r) && r.generation >= generation
      && (r.generation == generation ==> Updated(r, generation, budget, until))
  {
    hide Did, Ordered;
    if acts != [] {
      UpdatedOverActs(e, acts[..|acts| - 1], generation, budget, until);
      var r, a := DidAll(e, acts[..|acts| - 1]), acts[|acts| - 1];
      DidIsOrdered(r, a);
      if r.generation == generation {
        UpdatedStays(r, a, generation, budget, until);
      }
    }
  }

  lemma {:induction false} NoneOfGeneration(routes: seq<OldRoute>, binding: nat, generation: nat, epoch: nat, now: int)
    requires forall k :: 0 <= k < |routes| ==> Earlier(routes[k], generation)
    ensures OldBudget(routes, binding, generation, epoch, now) == Refused
  {
    if routes != [] {
      assert Earlier(routes[0], generation);
      NoneOfGeneration(routes[1..], binding, generation, epoch, now);
    }
  }

  /** An update of the peer's budget that is taken makes epoch 2 current with that
      budget, and while the incarnation stays active epoch 1 is admitted with the former
      budget, restricted, before the grace is over and refused from then on. */
  lemma FormerEpochHasItsGrace(e: End, budget: nat, now: int, acts: seq<Act>, t: int)
    requires Ordered(e) && e.active && e.receiveEpoch == 1 && BASE_BUDGET <= budget <= e.terms.cap
    ensures var r := DidAll(UpdateTaken(e, budget, now).end, acts);
      r.active && r.generation == e.generation ==>
        ValidRoute(r, r.binding, r.generation, 1, t) ==
          if t < now + e.terms.grace then Admitted(e.receiveBudget, true) else Refused
    ensures var u := UpdateTaken(e, budget, now);
      && u.sent == {AckMessage(e.generation, e.sendEpoch, budget)}
      && ValidRoute(u.end, e.binding, e.generation, 2, t) == Admitted(budget, false)
  {
    hide Did, DidAll, FreeOld;
    var u := UpdateTaken(e, budget, now).end;
    assert Ordered(u);
    UpdatedOverActs(u, acts, e.generation, e.receiveBudget, now + e.terms.grace);
    var r := DidAll(u, acts);
    NoneOfGeneration(r.routes, r.binding, r.generation, 1, t);
  }

  // ---------------------------------------------------------------------------
  // Failures

  /** A binding that failed admits nothing, whatever the generation, epoch and time. */
  lemma {:induction false} FailedIsRefused(routes: seq<OldRoute>, at: nat, generation: nat, epoch: nat, now: int)
    requires forall k :: 0 <= k < |routes| ==> routes[k].OldRoute? ==> routes[k].binding != at
    ensures OldBudget(routes, at, generation, epoch, now) == Refused
  {
    if routes != [] {
      FailedIsRefused(routes[1..], at, generation, epoch, now);
    }
  }

  /** FailPath ends the route, the join and every former route of its binding, and
      touches nothing else. */
  lemma FailEndsTheBinding(e: End, at: nat, other: nat, generation: nat, epoch: nat, now: int)
    requires other != at
    ensures var f := PathProtocol.Fail(e, at);
      && ValidRoute(f, at, generation, epoch, now) == Refused
      && (e.join.binding == at ==> f.join == NO_JOIN) && (e.join.binding != at ==> f.join == e.join)
      && ValidRoute(f, other, generation, epoch, now) == ValidRoute(e, other, generation, epoch, now)
  {
    FailedIsRefused(PathProtocol.Fail(e, at).routes, at, generation, epoch, now);
    TornElsewhere(e.routes, at, other, generation, epoch, now);
  }

  lemma {:induction false} TornElsewhere(routes: seq<OldRoute>, at: nat, other: nat, generation: nat, epoch: nat, now: int)
    requires other != at
    ensures OldBudget(Elsewhere(routes, at), other, generation, epoch, now) == OldBudget(routes, other, generation, epoch, now)
  {
    if routes != [] {
      TornElsewhere(routes[1..], at, other, generation, epoch, now);
      assert Elsewhere(routes, at)[1..] == Elsewhere(routes[1..], at);
    }
  }

  /** Expiry changes no answer about data that arrives then or later, except for a path
      whose own publication was never acknowledged in time: that one is given up, and
      so is a join past its deadline. */
  lemma ExpiryOnlyEndsWhatIsOver(e: End, now: int, binding: nat, generation: nat, epoch: nat, t: int)
    requires now <= t
    ensures var x := PathProtocol.Expire(e, now);
      var late := e.budgetPending && e.budgetDeadline <= now;
      && (x.active <==> e.active && !late) && (x.budgetPending <==> e.budgetPending && !late)
      && x.join == (if e.join.deadline <= now then NO_JOIN else e.join)
      && (forall k :: 0 <= k < |e.routes| ==>
          x.routes[k] == if e.routes[k].OldRoute? && e.routes[k].until <= now then NoRoute else e.routes[k])
      && (!late ==> ValidRoute(x, binding, generation, epoch, t) == ValidRoute(e, binding, generation, epoch, t))
      && (late ==> ValidRoute(x, binding, generation, epoch, t) == OldBudget(e.routes, binding, generation, epoch, t))
  {
    AgedSame(e.routes, now, binding, generation, epoch, t);
  }

  lemma {:induction false} AgedSame(routes: seq<OldRoute>, now: int, binding: nat, generation: nat, epoch: nat, t: int)
    requires now <= t
    ensures OldBudget(Unexpired(routes, now), binding, generation, epoch, t) == OldBudget(routes, binding, generation, epoch, t)
  {
    if routes != [] {
      AgedSame(routes[1..], now, binding, generation, epoch, t);
      assert Unexpired(routes, now)[1..] == Unexpired(routes[1..], now);
    }
  }

  // ---------------------------------------------------------------------------
  // Opening a path

  // An end that has just entered a generation and waits to hear its peer's budget.
  predicate HasEntered(e: End, before: End, g: nat, at: nat, now: int) {
    && e.active && e.generation == g && e.binding == at && e.sendEpoch == e.receiveEpoch == 1 && e.terms == before.terms
    && e.receiveBudget == BASE_BUDGET && e.budgetPending && e.budgetDeadline == now + 5_000_000_000
  }

  /** Four join messages in time bring both ends into the next generation of the
      initiator, and each end publishes its budget there. */
  lemma JoinOpens(i: End, r: End, nonce: nat, reply: nat, here: nat, there: nat, t: seq<int>)
    requires i.terms.role == Initiator && r.terms.role == Responder && !i.join.pending && !r.join.pending
    requires r.floor <= i.floor < MAX_U64 && nonce != 0 && reply != 0 && |t| == 5
    requires t[2] < t[0] + 5_000_000_000 && t[4] < t[0] + 5_000_000_000 && t[3] < t[1] + 5_000_000_000
    requires CanCommit(r, t[3]) && CanCommit(i, t[4])
    ensures var g := i.floor + 1;
      var asked := StartJoin(i, t[0], nonce, here);
      var challenged := Receive(r, JoinMessage(JoinKind, g, nonce, 0), t[1], there, reply);
      var confirmed := Receive(asked.end, JoinMessage(ChallengeKind, g, nonce, reply), t[2], here, 0);
      var ready := Receive(challenged.end, JoinMessage(ConfirmKind, g, nonce, reply), t[3], there, 0);
      var done := Receive(confirmed.end, JoinMessage(ReadyKind, g, nonce, reply), t[4], here, 0);
      && asked.sent == {JoinMessage(JoinKind, g, nonce, 0)}
      && challenged.sent == {JoinMessage(ChallengeKind, g, nonce, reply)}
      && confirmed.sent == {JoinMessage(ConfirmKind, g, nonce, reply)}
      && ready.sent == {JoinMessage(ReadyKind, g, nonce, reply), UpdateMessage(g, 1, r.terms.fixed)}
      && done.sent == {UpdateMessage(g, 1, i.terms.fixed)}
      && HasEntered(ready.end, r, g, there, t[3]) && HasEntered(done.end, i, g, here, t[4])
      && ready.end.join.committed && done.end.join.committed && !done.end.join.pending
  {
    hide FreeOld;
  }

  /** One update and its acknowledgement in time give the sender of the update its full
      budget under epoch 2 and the receiver the same, and every packet of data that the
      sender then sends is admitted without restriction. */
  lemma UpdateOpens(e: End, peer: End, g: nat, at: nat, there: nat, u: int, v: int)
    requires e.active && e.generation == g && e.binding == at && e.sendEpoch == 1 && e.budgetPending && v < e.budgetDeadline
    requires peer.active && peer.generation == g && peer.binding == there && peer.receiveEpoch == peer.sendEpoch == 1
    requires BASE_BUDGET <= e.terms.fixed <= peer.terms.cap
    ensures var taken := Receive(peer, UpdateMessage(g, 1, e.terms.fixed), u, there, 0);
      var acked := Receive(e, AckMessage(g, 1, e.terms.fixed), v, at, 0);
      && taken.sent == {AckMessage(g, 1, e.terms.fixed)}
      && taken.end == peer.(receiveBudget := e.terms.fixed, receiveEpoch := 2, oldBudget := peer.receiveBudget, oldEpoch := 1,
                            oldUntil := u + peer.terms.grace, peerDeadline := u + CONTROL_LIFETIME)
      && acked.end == e.(sendBudget := e.terms.fixed, sendEpoch := 2, budgetPending := false)
      && (forall now: int :: ValidRoute(taken.end, there, g, 2, now) == Admitted(e.terms.fixed, false))
      && forall size: nat :: size <= e.terms.fixed ==> SendData(acked.end, size).sent == {DataMessage(g, 2, size)}
  {
    hide OldBudget;
  }

  /** Start publishes the budget of a path that is active, still on its first epoch and
      not publishing, under a deadline five seconds ahead, and does nothing else. */
  lemma PublishMeans(e: End, now: int)
    ensures Publish(e, now) ==
      if e.active && e.sendEpoch == 1 && !e.budgetPending
      then Reaction(e.(budgetPending := true, budgetDeadline := now + 5_000_000_000), {UpdateMessage(e.generation, 1, e.terms.fixed)})
      else Reaction(e, {})
  {
  }

  /** While the acknowledgement of an update may be lost the update is acknowledged again:
      for five seconds, or for the grace of its epoch if that is longer. Afterwards the
      same message is no longer heard. */
  lemma LostAcknowledgementIsRepeated(e: End, budget: nat, now: int, later: int)
    requires Ordered(e) && e.active && e.receiveEpoch == 1 && BASE_BUDGET <= budget <= e.terms.cap
    ensures var taken, m := UpdateTaken(e, budget, now).end, UpdateMessage(e.generation, 1, budget);
      if later < now + 5_000_000_000 || later < now + e.terms.grace
      then ReceiveBudget(taken, m, later, e.binding) == Reaction(taken, {AckMessage(e.generation, e.sendEpoch, budget)})
      else ReceiveBudget(taken, m, later, e.binding) == Reaction(taken, {}) && BudgetAnswer(taken, m, later, e.binding) == Ignored
  {
    hide OldBudget;
    NoneOfGeneration(e.routes, e.binding, e.generation, 1, later);
  }

  // ---------------------------------------------------------------------------
  // Errors

  /** A join message fails for want of a slot exactly when it would commit an inactive
      path, and for want of entropy exactly when a nonce would open the exchange. */
  lemma JoinErrors(e: End, m: Message, now: int, binding: nat, nonce: nat)
    requires m.JoinMessage?
    ensures JoinAnswer(e, m, now, binding, nonce) == ErrNotReady <==>
      m.kind in {ConfirmKind, ReadyKind} && !CanCommit(e, now) && JoinAnswer(e.(active := false), m, now, binding, nonce) == Done
    ensures JoinAnswer(e, m, now, binding, nonce) == ErrEntropy <==>
      m.kind == JoinKind && nonce == 0 && forall n: nat :: n != 0 ==> JoinAnswer(e, m, now, binding, n) == Done
    ensures JoinAnswer(e, m, now, binding, nonce) == Ignored ==>
      e.join.binding == binding && e.join.generation == m.generation && e.join.client == m.client != 0
  {
    hide FreeOld;
    assert m.kind == JoinKind && nonce == 0 ==>
      (JoinAnswer(e, m, now, binding, nonce) == ErrEntropy <==> JoinAnswer(e, m, now, binding, 1) == Done);
  }

  // The message arrives on a route of the current incarnation, or may be a retry of it.
  predicate Heard(e: End, m: Message, now: int, binding: nat)
    requires m.UpdateMessage? || m.AckMessage?
  {
    m.generation == e.generation
    && (ValidRoute(e, binding, m.generation, m.epoch, now) != Refused || AllowRetry(e, binding, m, now))
  }

  /** A budget message that is heard is an error exactly when it contradicts the limits or
      what was agreed before, or acknowledges what is not being published in time. */
  lemma BudgetErrors(e: End, m: Message, now: int, binding: nat)
    requires m.UpdateMessage? || m.AckMessage?
    ensures BudgetAnswer(e, m, now, binding) in {Done, Ignored, ErrProtocol}
    ensures !Heard(e, m, now, binding) ==> BudgetAnswer(e, m, now, binding) == Ignored
    ensures Heard(e, m, now, binding) && m.UpdateMessage? ==>
      (BudgetAnswer(e, m, now, binding) == Done <==>
       512 <= m.budget <= e.terms.cap && (e.receiveEpoch == 2 ==> m.budget == e.receiveBudget))
      && BudgetAnswer(e, m, now, binding) != Ignored
    ensures Heard(e, m, now, binding) && m.AckMessage? ==>
      && (BudgetAnswer(e, m, now, binding) == Ignored <==> m.budget == e.terms.fixed && e.sendEpoch == 2)
      && (BudgetAnswer(e, m, now, binding) == Done <==>
          m.budget == e.terms.fixed && e.sendEpoch != 2 && e.budgetPending && now < e.budgetDeadline)
  {
    hide ValidRoute, AllowRetry;
  }
}
