// internal/sessionv2: what the counters of the control retries count.
//
// The history of a run of `OwnedSends` is read off its moves alone: a packet of a
// control transaction went out when a live slot of that transaction completed as
// attempted, whether or not its place still held the transaction. The law of eight
// sends is proved about this history.
module ControlHistory {
  import opened Words
  import opened SendFence
  import opened OwnedSends
  import AggregationQueue
  import Packing

  // ---------------------------------------------------------------------------
  // The history

  predicate Flies(s: Slot, id: U64) {
    Live(s) && IsRetry(s.source) && s.transaction == id
  }

  // The packets of a transaction that workers hold.
  function Flying(slots: seq<Slot>, id: U64): nat {
    if slots == [] then 0
    else Flying(slots[..|slots| - 1], id) + if Flies(slots[|slots| - 1], id) then 1 else 0
  }

  // The move is the end of an attempted send of the transaction.
  predicate EndsAttempt(v: Sends, m: Move, id: U64) {
    && m.CompleteMove? && m.attempted && m.slot < |v.slots| && m.token != 0
    && v.slots[m.slot].token == m.token && Flies(v.slots[m.slot], id)
  }

  // How many packets of the transaction went out in a run.
  function Attempts(
    slots: nat, paths: nat, limits: AggregationQueue.QueueLimits, prm: Packing.Parameters, moves: seq<Move>, id: U64): nat
    requires limits.InBounds()
  {
    if moves == [] then 0
    else
      var front, m := moves[..|moves| - 1], moves[|moves| - 1];
      Attempts(slots, paths, limits, prm, front, id)
      + if EndsAttempt(RunMoves(slots, paths, limits, prm, front), m, id) then 1 else 0
  }

  lemma {:induction false} FlyingUpdate(slots: seq<Slot>, id: U64, i: nat, x: Slot)
    requires i < |slots|
    ensures Flying(slots[i := x], id)
      == Flying(slots, id) - (if Flies(slots[i], id) then 1 else 0) + (if Flies(x, id) then 1 else 0)
  {
    hide Flies;
    var n := |slots| - 1;
    if i == n {
      assert slots[i := x][..n] == slots[..n];
    } else {
      FlyingUpdate(slots[..n], id, i, x);
      assert slots[i := x][..n] == slots[..n][i := x];
    }
  }

  // Where only packets of one place serve a transaction, both counts are the same.
  lemma {:induction false} FlyingIsCount(slots: seq<Slot>, p: nat, source: Source, id: U64)
    requires IsRetry(source)
    requires forall i :: 0 <= i < |slots| && Flies(slots[i], id) ==> SamePlace(p, source, slots[i].path, slots[i].source)
    ensures Flying(slots, id) == Count(slots, ControlRole(p, source, id))
  {
    if slots != [] {
      FlyingIsCount(slots[..|slots| - 1], p, source, id);
    }
  }

  lemma {:induction false} NoneFlies(slots: seq<Slot>, id: U64)
    requires forall i :: 0 <= i < |slots| ==> !Flies(slots[i], id)
    ensures Flying(slots, id) == 0
  {
    if slots != [] {
      NoneFlies(slots[..|slots| - 1], id);
    }
  }

  // ---------------------------------------------------------------------------
  // The invariant

  // The encoding context has one place for all paths.
  predicate SamePlace(p: nat, source: Source, q: nat, other: Source) {
    source == other && (source == Context || p == q)
  }

  predicate Place(v: Sends, p: nat, source: Source) {
    p < |v.paths| && IsRetry(source)
  }

  function IdAt(v: Sends, p: nat, source: Source): U64
    requires p < |v.paths|
  {
    GetRetry(v, p, source).id
  }

  predicate OwnId(v: Sends, p: nat, source: Source, q: nat, other: Source)
    requires p < |v.paths| && q < |v.paths|
  {
    IdAt(v, p, source) == IdAt(v, q, other) != 0 ==> SamePlace(p, source, q, other)
  }

  predicate HomeOf(v: Sends, i: nat, p: nat, source: Source)
    requires i < |v.slots| && p < |v.paths|
  {
    IdAt(v, p, source) != 0 && Flies(v.slots[i], IdAt(v, p, source)) ==> SamePlace(p, source, v.slots[i].path, v.slots[i].source)
  }

  ghost predicate OwnIds(v: Sends) {
    && (forall p, source, q, other :: Place(v, p, source) && Place(v, q, other) ==> OwnId(v, p, source, q, other))
    && forall p, source :: Place(v, p, source) ==> IdAt(v, p, source) <= v.nextControl
  }

  // Every packet in flight belongs to the place that holds its transaction.
  ghost predicate AtHome(v: Sends) {
    forall i, p, source :: 0 <= i < |v.slots| && Place(v, p, source) ==> HomeOf(v, i, p, source)
  }

  predicate WithinEight(v: Sends, id: U64, out: nat) {
    id != 0 ==> out + Flying(v.slots, id) <= CONTROL_SENDS && (id > v.nextControl ==> out == 0)
  }

  ghost predicate Bounded(v: Sends, out: U64 -> nat) {
    forall id: U64 :: WithinEight(v, id, out(id))
  }

  predicate CountedAt(v: Sends, p: nat, source: Source, out: U64 -> nat)
    requires p < |v.paths|
  {
    IdAt(v, p, source) != 0 ==> GetRetry(v, p, source).sends == out(IdAt(v, p, source))
  }

  ghost predicate Counted(v: Sends, out: U64 -> nat) {
    forall p, source :: Place(v, p, source) ==> CountedAt(v, p, source, out)
  }

  // `out` tells how many packets of each transaction went out so far.
  ghost predicate Truthful(v: Sends, out: U64 -> nat) {
    OwnIds(v) && AtHome(v) && Bounded(v, out) && (!v.closing ==> Counted(v, out))
  }

  lemma InFlightIsFlying(v: Sends, p: nat, source: Source)
    requires Inv(v) && !v.closing && AtHome(v) && Place(v, p, source) && IdAt(v, p, source) != 0
    ensures GetRetry(v, p, source).inflight == Flying(v.slots, IdAt(v, p, source))
  {
    assert RetryOk(v, p, source);
    forall i | 0 <= i < |v.slots| && Flies(v.slots[i], IdAt(v, p, source))
      ensures SamePlace(p, source, v.slots[i].path, v.slots[i].source)
    {
      assert HomeOf(v, i, p, source);
    }
    FlyingIsCount(v.slots, p, source, IdAt(v, p, source));
  }

  // ---------------------------------------------------------------------------
  // Moves that leave the slots alone

  // A place keeps its transaction, is cleared or gets a fresh one.
  predicate KeptAt(v: Sends, w: Sends, p: nat, source: Source)
    requires p < |v.paths| == |w.paths|
  {
    var r, r' := GetRetry(v, p, source), GetRetry(w, p, source);
    (r'.id == r.id && r'.sends == r.sends) || r'.id == 0 || (v.nextControl < r'.id <= w.nextControl && r'.sends == 0)
  }

  predicate OneFresh(v: Sends, w: Sends, p: nat, source: Source, q: nat, other: Source)
    requires p < |w.paths| && q < |w.paths|
  {
    IdAt(w, p, source) > v.nextControl && IdAt(w, q, other) > v.nextControl ==> SamePlace(p, source, q, other)
  }

  ghost predicate PlacesKept(v: Sends, w: Sends) {
    && w.slots == v.slots && |w.paths| == |v.paths| && w.nextControl >= v.nextControl && (v.closing ==> w.closing)
    && (forall p, source :: Place(v, p, source) ==> KeptAt(v, w, p, source))
    && forall p, source, q, other :: Place(v, p, source) && Place(v, q, other) ==> OneFresh(v, w, p, source, q, other)
  }

  lemma FlownAreOld(v: Sends, i: nat, id: U64)
    requires PathsOk(v) && i < |v.slots| && Flies(v.slots[i], id)
    ensures 0 < id <= v.nextControl
  {
    assert SlotOwned(v, i);
  }

  lemma QuietMove(v: Sends, w: Sends, out: U64 -> nat)
    requires Inv(v) && Truthful(v, out) && PlacesKept(v, w)
    ensures Truthful(w, out)
  {
    hide Flying, SamePlace, TokensOk, ControlsOk, ShardsOk, PathsOk, Flies, GetRetry;
    forall p, source, q, other | Place(w, p, source) && Place(w, q, other)
      ensures OwnId(w, p, source, q, other)
    {
      assert OwnId(v, p, source, q, other) && OneFresh(v, w, p, source, q, other);
      assert KeptAt(v, w, p, source) && KeptAt(v, w, q, other);
    }
    forall i, p, source | 0 <= i < |w.slots| && Place(w, p, source)
      ensures HomeOf(w, i, p, source)
    {
      assert HomeOf(v, i, p, source) && KeptAt(v, w, p, source);
      if Flies(v.slots[i], IdAt(w, p, source)) {
        FlownAreOld(v, i, IdAt(w, p, source));
      }
    }
    forall id: U64
      ensures WithinEight(w, id, out(id))
    {
      assert WithinEight(v, id, out(id));
    }
    forall p, source | Place(w, p, source)
      ensures (!w.closing ==> CountedAt(w, p, source, out)) && IdAt(w, p, source) <= w.nextControl
    {
      assert KeptAt(v, w, p, source) && IdAt(v, p, source) <= v.nextControl;
      var id := IdAt(w, p, source);
      assert WithinEight(v, id, out(id));
      if !w.closing {
        assert CountedAt(v, p, source, out);
        assert id == IdAt(v, p, source) ==> CountedAt(w, p, source, out);
      }
    }
  }

  // ---------------------------------------------------------------------------
  // Dispatching and completing

  ghost predicate SameIds(v: Sends, w: Sends) {
    && |w.paths| == |v.paths| && w.nextControl == v.nextControl && w.closing == v.closing
    && forall p, source :: Place(v, p, source) ==> IdAt(w, p, source) == IdAt(v, p, source)
  }

  lemma SlotChanges(v: Sends, w: Sends, i: nat, s: Slot)
    requires OwnIds(v) && AtHome(v) && SameIds(v, w) && i < |v.slots| && w.slots == v.slots[i := s]
    requires Live(s) && IsRetry(s.source) ==> Place(v, s.path, s.source) && IdAt(v, s.path, s.source) == s.transaction != 0
    ensures OwnIds(w) && AtHome(w)
  {
    hide SamePlace, GetRetry, IdAt;
    forall p, source, q, other | Place(w, p, source) && Place(w, q, other)
      ensures OwnId(w, p, source, q, other)
    {
      assert OwnId(v, p, source, q, other);
    }
    forall j, p, source | 0 <= j < |w.slots| && Place(w, p, source)
      ensures HomeOf(w, j, p, source)
    {
      assert HomeOf(v, j, p, source);
      if j == i && Live(s) && IsRetry(s.source) {
        assert OwnId(v, p, source, s.path, s.source);
      }
    }
  }

  lemma InstallMove(v: Sends, w: Sends, i: nat, s: Slot, out: U64 -> nat)
    requires Inv(v) && !v.closing && Truthful(v, out) && SameIds(v, w) && i < |v.slots| && w.slots == v.slots[i := s]
    requires !Live(v.slots[i])
    requires forall p, source :: Place(v, p, source) ==> GetRetry(w, p, source).sends == GetRetry(v, p, source).sends
    requires IsRetry(s.source) ==>
      && Place(v, s.path, s.source) && IdAt(v, s.path, s.source) == s.transaction != 0
      && GetRetry(v, s.path, s.source).sends + GetRetry(v, s.path, s.source).inflight < CONTROL_SENDS
    ensures Truthful(w, out)
  {
    hide Inv, Flying, SamePlace, GetRetry, OwnIds, AtHome, SameIds;
    SlotChanges(v, w, i, s);
    if IsRetry(s.source) {
      InFlightIsFlying(v, s.path, s.source);
      assert CountedAt(v, s.path, s.source, out);
    }
    forall id: U64
      ensures WithinEight(w, id, out(id))
    {
      assert WithinEight(v, id, out(id));
      FlyingUpdate(v.slots, id, i, s);
      SameLast(v, w);
    }
    forall p, source | Place(w, p, source)
      ensures CountedAt(w, p, source, out)
    {
      SameLast(v, w);
      SameId(v, w, p, source);
      assert CountedAt(v, p, source, out);
    }
    SameLast(v, w);
  }

  lemma SameLast(v: Sends, w: Sends)
    requires SameIds(v, w)
    ensures w.nextControl == v.nextControl && |w.paths| == |v.paths| && w.closing == v.closing
  {
  }

  lemma SameId(v: Sends, w: Sends, p: nat, source: Source)
    requires SameIds(v, w) && Place(v, p, source)
    ensures p < |w.paths| && IdAt(w, p, source) == IdAt(v, p, source)
  {
  }

  // The place whose packet ended counts one attempt more when there was one.
  predicate SettledAt(v: Sends, w: Sends, s: Slot, attempted: bool, p: nat, source: Source)
    requires p < |v.paths| == |w.paths|
  {
    GetRetry(w, p, source).sends == GetRetry(v, p, source).sends
      + if SamePlace(p, source, s.path, s.source) && IdAt(v, p, source) == s.transaction && attempted then 1 else 0
  }

  predicate OneMore(s: Slot, attempted: bool, out: U64 -> nat, out': U64 -> nat, id: U64) {
    out'(id) == out(id) + if attempted && Flies(s, id) then 1 else 0
  }

  lemma EndMove(v: Sends, w: Sends, i: nat, attempted: bool, out: U64 -> nat, out': U64 -> nat)
    requires PathsOk(v) && Truthful(v, out) && SameIds(v, w) && i < |v.slots| && w.slots == v.slots[i := FREE] && Live(v.slots[i])
    requires forall p, source :: Place(v, p, source) && !v.closing ==> SettledAt(v, w, v.slots[i], attempted, p, source)
    requires forall id: U64 :: OneMore(v.slots[i], attempted, out, out', id)
    ensures Truthful(w, out')
  {
    hide Flying, GetRetry, OwnIds, AtHome, SameIds, PathsOk;
    var s := v.slots[i];
    SlotChanges(v, w, i, FREE);
    SameLast(v, w);
    forall id: U64
      ensures WithinEight(w, id, out'(id))
    {
      assert WithinEight(v, id, out(id)) && OneMore(s, attempted, out, out', id);
      FlyingUpdate(v.slots, id, i, FREE);
      if Flies(s, id) {
        FlownAreOld(v, i, id);
      }
    }
    forall p, source | Place(w, p, source) && !w.closing
      ensures CountedAt(w, p, source, out')
    {
      SameId(v, w, p, source);
      HomeAt(v, i, p, source);
      assert CountedAt(v, p, source, out) && SettledAt(v, w, s, attempted, p, source);
      assert OneMore(s, attempted, out, out', IdAt(v, p, source));
    }
  }

  lemma HomeAt(v: Sends, i: nat, p: nat, source: Source)
    requires AtHome(v) && i < |v.slots| && Place(v, p, source)
    ensures HomeOf(v, i, p, source)
  {
  }

  // ---------------------------------------------------------------------------
  // Every move

  lemma TakeControlMoves(v: Sends, i: nat, s: Slot)
    requires ControlsOk(v) && CanInstall(v, i, s.path) && ControlReady(v, s)
    ensures var w := TakeControl(v, i, s);
      && SameIds(v, w) && w.slots == v.slots[i := s.(token := v.nextToken + 1)]
      && (forall p, source :: Place(v, p, source) ==> GetRetry(w, p, source).sends == GetRetry(v, p, source).sends)
      && (IsRetry(s.source) ==>
          && IdAt(v, s.path, s.source) == s.transaction != 0
          && GetRetry(v, s.path, s.source).sends + GetRetry(v, s.path, s.source).inflight < CONTROL_SENDS)
  {
    hide PutRetry, ControlReady;
    ReadyIdOk(v, s);
    ReadyId(v, s);
    Marked(v, s);
  }

  lemma ReadyId(v: Sends, s: Slot)
    requires s.path < |v.paths| && ControlReady(v, s)
    ensures s.source != Data && !v.closing && (IsRetry(s.source) ==> IdAt(v, s.path, s.source) == s.transaction != 0)
  {
  }

  lemma TakeDataMoves(v: Sends, i: nat, s: Slot)
    requires CanInstall(v, i, s.path) && DataReady(v, s)
    ensures var w := TakeData(v, i, s);
      && SameIds(v, w) && w.slots == v.slots[i := s.(token := v.nextToken + 1)]
      && forall p, source :: Place(v, p, source) ==> GetRetry(w, p, source) == GetRetry(v, p, source)
  {
    hide DispatchShard;
  }

  lemma CompleteMoves(v: Sends, i: nat, attempted: bool, failure: bool, finishedAt: int)
    requires i < |v.slots| && Live(v.slots[i]) && v.slots[i].path < |v.paths|
    ensures var w := Complete(v, i, attempted, failure, finishedAt);
      && SameIds(v, w) && w.slots == v.slots[i := FREE]
      && forall p, source :: Place(v, p, source) && !v.closing ==> SettledAt(v, w, v.slots[i], attempted, p, source)
  {
    hide Settle, FinishShard, GetRetry;
    var s := v.slots[i];
    VacateFrame(v, i);
    if !v.closing && s.source != Data {
      Settled(Vacate(v, i), s, attempted, finishedAt);
    } else if !v.closing {
      FrontierOnly(Vacate(v, i), Complete(v, i, attempted, failure, finishedAt));
    }
  }

  lemma FrontierOnly(v: Sends, w: Sends)
    requires w == v.(frontier := w.frontier)
    ensures forall p, source :: Place(v, p, source) ==> GetRetry(w, p, source) == GetRetry(v, p, source)
  {
  }

  predicate ControlOnly(m: Move) {
    m.RenewMove? || m.FrameMove? || m.FailMove? || m.RequeueMove? || m.PaceMove? || m.ClearMove? || m.RouteMove? || m.CloseMove?
  }

  // Only one place, if any, gets a fresh transaction.
  lemma AtMostOneFresh(v: Sends, w: Sends, x: nat, fresh_: Source)
    requires w.slots == v.slots && |w.paths| == |v.paths| && w.nextControl >= v.nextControl && (v.closing ==> w.closing)
    requires forall p, source :: Place(v, p, source) ==> KeptAt(v, w, p, source)
    requires forall p, source :: Place(v, p, source) && IdAt(w, p, source) > v.nextControl ==> SamePlace(p, source, x, fresh_)
    ensures PlacesKept(v, w)
  {
    hide GetRetry, IdAt, KeptAt;
    forall p, source, q, other | Place(v, p, source) && Place(v, q, other)
      ensures OneFresh(v, w, p, source, q, other)
    {
      if IdAt(w, p, source) > v.nextControl && IdAt(w, q, other) > v.nextControl {
        assert SamePlace(p, source, x, fresh_) && SamePlace(q, other, x, fresh_);
      }
    }
  }

  lemma RenewMoves(v: Sends, p: nat, source: Source, now: int)
    requires OwnIds(v) && p < |v.paths|
    ensures PlacesKept(v, Renew(v, p, source, now))
  {
    hide OwnIds;
    PlacesFit(v);
    AtMostOneFresh(v, Renew(v, p, source, now), p, source);
  }

  lemma FrameMoves(v: Sends, p: nat, source: Source, now: int, length: nat)
    requires OwnIds(v) && p < |v.paths|
    ensures PlacesKept(v, SetFrame(v, p, source, now, length))
  {
    hide OwnIds;
    PlacesFit(v);
    AtMostOneFresh(v, SetFrame(v, p, source, now, length), p, source);
  }

  lemma FailMoves(v: Sends, p: nat, source: Source, now: int)
    requires OwnIds(v) && p < |v.paths|
    ensures PlacesKept(v, FailFrame(v, p, source, now))
  {
    hide OwnIds;
    PlacesFit(v);
    AtMostOneFresh(v, FailFrame(v, p, source, now), p, source);
  }

  lemma RequeueMoves(v: Sends, p: nat, source: Source)
    requires OwnIds(v) && p < |v.paths|
    ensures PlacesKept(v, Requeue(v, p, source))
  {
    hide OwnIds;
    PlacesFit(v);
    AtMostOneFresh(v, Requeue(v, p, source), p, source);
  }

  lemma ClearMoves(v: Sends, p: nat, source: Source)
    requires OwnIds(v) && p < |v.paths|
    ensures PlacesKept(v, Clear(v, p, source))
  {
    hide OwnIds;
    PlacesFit(v);
    AtMostOneFresh(v, Clear(v, p, source), p, source);
  }

  lemma OtherMoves(v: Sends, limits: AggregationQueue.QueueLimits, prm: Packing.Parameters, m: Move)
    requires limits.InBounds() && (m.PaceMove? || m.RouteMove? || m.CloseMove?) && OwnIds(v)
    ensures PlacesKept(v, Make(v, limits, prm, m))
  {
    hide OwnIds;
    PlacesFit(v);
    AtMostOneFresh(v, Make(v, limits, prm, m), 0, Join);
  }

  lemma ControlMoves(v: Sends, limits: AggregationQueue.QueueLimits, prm: Packing.Parameters, m: Move)
    requires limits.InBounds() && ControlOnly(m) && OwnIds(v)
    ensures PlacesKept(v, Make(v, limits, prm, m))
  {
    hide OwnIds, PlacesKept, Renew, SetFrame, FailFrame, Requeue, Pace, Clear, GetRetry;
    StaysKept(v);
    match m
    case RenewMove(p, source, now) => if p < |v.paths| { RenewMoves(v, p, source, now); }
    case FrameMove(p, source, now, length) => if p < |v.paths| { FrameMoves(v, p, source, now, length); }
    case FailMove(p, source, now) => if p < |v.paths| { FailMoves(v, p, source, now); }
    case RequeueMove(p, source) => if p < |v.paths| { RequeueMoves(v, p, source); }
    case ClearMove(p, source) => if p < |v.paths| { ClearMoves(v, p, source); }
    case _ => OtherMoves(v, limits, prm, m);
  }

  lemma StaysKept(v: Sends)
    requires OwnIds(v)
    ensures PlacesKept(v, v)
  {
    hide GetRetry;
    assert forall p, source :: Place(v, p, source) ==> IdAt(v, p, source) <= v.nextControl;
  }

  lemma PlacesFit(v: Sends)
    requires OwnIds(v)
    ensures forall p, source :: Place(v, p, source) ==> IdAt(v, p, source) <= v.nextControl
  {
  }

  lemma FrontierMoves(v: Sends, limits: AggregationQueue.QueueLimits, prm: Packing.Parameters, m: Move)
    requires limits.InBounds() && (m.AcceptMove? || m.SendMove? || m.ExpireMove?) && OwnIds(v)
    ensures PlacesKept(v, Make(v, limits, prm, m))
  {
    hide OwnIds, AcceptOne, SendGroup, FinishShard, GetRetry;
    PlacesFit(v);
    FrontierOnly(v, Make(v, limits, prm, m));
  }

  lemma MoveIsTruthful(
    v: Sends, limits: AggregationQueue.QueueLimits, prm: Packing.Parameters, m: Move, out: U64 -> nat, out': U64 -> nat)
    requires prm.Valid() && limits.InBounds() && Inv(v) && Truthful(v, out)
    requires forall id: U64 :: out'(id) == out(id) + if EndsAttempt(v, m, id) then 1 else 0
    ensures Truthful(Make(v, limits, prm, m), out')
  {
    hide Inv, OwnIds, AtHome, Bounded, Counted, PlacesKept, SameIds, TakeControl, TakeData, Complete, GetRetry;
    if ControlOnly(m) || m.AcceptMove? || m.SendMove? || m.ExpireMove? {
      if ControlOnly(m) {
        ControlMoves(v, limits, prm, m);
      } else {
        FrontierMoves(v, limits, prm, m);
      }
      QuietMove(v, Make(v, limits, prm, m), out);
      SameOut(Make(v, limits, prm, m), out, out');
    } else if m.CompleteMove? {
      EndIsTruthful(v, limits, prm, m, out, out');
    } else {
      StartIsTruthful(v, limits, prm, m, out);
      SameOut(Make(v, limits, prm, m), out, out');
    }
  }

  lemma SameOut(v: Sends, out: U64 -> nat, out': U64 -> nat)
    requires Truthful(v, out) && forall id: U64 :: out'(id) == out(id)
    ensures Truthful(v, out')
  {
    hide OwnIds, AtHome, Flying, GetRetry;
    forall id: U64
      ensures WithinEight(v, id, out'(id))
    {
      assert WithinEight(v, id, out(id));
    }
    assert !v.closing ==> forall p, source :: Place(v, p, source) ==> CountedAt(v, p, source, out) && CountedAt(v, p, source, out');
  }

  lemma StartIsTruthful(v: Sends, limits: AggregationQueue.QueueLimits, prm: Packing.Parameters, m: Move, out: U64 -> nat)
    requires limits.InBounds() && Inv(v) && Truthful(v, out) && (m.TakeDataMove? || m.TakeControlMove?)
    ensures Truthful(Make(v, limits, prm, m), out)
  {
    hide TokensOk, PathsOk, ControlsOk, ShardsOk, OwnIds, AtHome, Bounded, Counted, SameIds, TakeControl, TakeData, GetRetry, ControlReady;
    if CanInstall(v, m.slot, m.s.path) {
      var s := m.s.(token := v.nextToken + 1);
      if m.TakeDataMove? && DataReady(v, m.s) {
        TakeDataMoves(v, m.slot, m.s);
        InstallMove(v, Make(v, limits, prm, m), m.slot, s, out);
      } else if m.TakeControlMove? && ControlReady(v, m.s) {
        ReadyId(v, m.s);
        TakeControlMoves(v, m.slot, m.s);
        InstallMove(v, Make(v, limits, prm, m), m.slot, s, out);
      }
    }
  }

  lemma EndIsTruthful(
    v: Sends, limits: AggregationQueue.QueueLimits, prm: Packing.Parameters, m: Move, out: U64 -> nat, out': U64 -> nat)
    requires limits.InBounds() && Inv(v) && Truthful(v, out) && m.CompleteMove?
    requires forall id: U64 :: out'(id) == out(id) + if EndsAttempt(v, m, id) then 1 else 0
    ensures Truthful(Make(v, limits, prm, m), out')
  {
    hide TokensOk, PathsOk, ControlsOk, ShardsOk, Truthful, SameIds, Complete, GetRetry;
    if m.slot < |v.slots| && m.token != 0 && v.slots[m.slot].token == m.token {
      LiveTransaction(v, m.slot);
      CompleteMoves(v, m.slot, m.attempted, m.failure, m.finishedAt);
      forall id: U64
        ensures OneMore(v.slots[m.slot], m.attempted, out, out', id)
      {
      }
      EndMove(v, Make(v, limits, prm, m), m.slot, m.attempted, out, out');
    } else {
      SameOut(v, out, out');
    }
  }

  lemma InitialIsTruthful(slots: nat, paths: nat, out: U64 -> nat)
    requires forall id: U64 :: out(id) == 0
    ensures Truthful(Initial(slots, paths), out)
  {
    hide Flying;
    var v := Initial(slots, paths);
    forall id: U64
      ensures WithinEight(v, id, out(id))
    {
      NoneFlies(v.slots, id);
    }
  }

  ghost function Out(
    slots: nat, paths: nat, limits: AggregationQueue.QueueLimits, prm: Packing.Parameters, moves: seq<Move>): U64 -> nat
    requires limits.InBounds()
  {
    (id: U64) => Attempts(slots, paths, limits, prm, moves, id)
  }

  lemma {:induction false} EveryRunIsTruthful(
    slots: nat, paths: nat, limits: AggregationQueue.QueueLimits, prm: Packing.Parameters, moves: seq<Move>)
    requires prm.Valid() && limits.InBounds() && limits.maxDatagramBytes <= prm.maxDatagramBytes
    ensures Truthful(RunMoves(slots, paths, limits, prm, moves), Out(slots, paths, limits, prm, moves))
  {
    hide Truthful, Make, SendsOk, EndsAttempt;
    if moves == [] {
      InitialIsTruthful(slots, paths, Out(slots, paths, limits, prm, moves));
    } else {
      var front, m := moves[..|moves| - 1], moves[|moves| - 1];
      EveryRunIsTruthful(slots, paths, limits, prm, front);
      RunHasInv(slots, paths, limits, prm, front);
      MoveIsTruthful(RunMoves(slots, paths, limits, prm, front), limits, prm, m,
                     Out(slots, paths, limits, prm, front), Out(slots, paths, limits, prm, moves));
    }
  }

  lemma RunHasInv(slots: nat, paths: nat, limits: AggregationQueue.QueueLimits, prm: Packing.Parameters, moves: seq<Move>)
    requires prm.Valid() && limits.InBounds() && limits.maxDatagramBytes <= prm.maxDatagramBytes
    ensures Inv(RunMoves(slots, paths, limits, prm, moves))
  {
    hide Inv, RunMoves;
    EveryRunKeeps(slots, paths, limits, prm, moves);
  }

  /** Over every run, with replaced and cleared transactions, lost outcomes and closing:
      at most eight packets of one control transaction ever go out, those that workers
      still hold included. */
  lemma AtMostEightGoOut(
    slots: nat, paths: nat, limits: AggregationQueue.QueueLimits, prm: Packing.Parameters, moves: seq<Move>, id: U64)
    requires prm.Valid() && limits.InBounds() && limits.maxDatagramBytes <= prm.maxDatagramBytes && id != 0
    ensures Attempts(slots, paths, limits, prm, moves, id) + Flying(RunMoves(slots, paths, limits, prm, moves).slots, id)
      <= CONTROL_SENDS
  {
    hide RunMoves, Attempts, Flying;
    EveryRunIsTruthful(slots, paths, limits, prm, moves);
    var v := RunMoves(slots, paths, limits, prm, moves);
    assert WithinEight(v, id, Out(slots, paths, limits, prm, moves)(id));
  }

  /** While the controller is open the counters of every retry are true: `sends` is the
      number of packets of its transaction that went out, `inflight` the number that
      workers hold. */
  lemma CountersAreTrue(
    slots: nat, paths: nat, limits: AggregationQueue.QueueLimits, prm: Packing.Parameters, moves: seq<Move>,
    p: nat, source: Source)
    requires prm.Valid() && limits.InBounds() && limits.maxDatagramBytes <= prm.maxDatagramBytes && IsRetry(source)
    ensures var v := RunMoves(slots, paths, limits, prm, moves);
      !v.closing && p < |v.paths| && GetRetry(v, p, source).id != 0 ==>
        var r := GetRetry(v, p, source);
        && r.sends == Attempts(slots, paths, limits, prm, moves, r.id) && r.inflight == Flying(v.slots, r.id)
  {
    hide RunMoves, Attempts, Flying, GetRetry, Inv;
    EveryRunIsTruthful(slots, paths, limits, prm, moves);
    RunHasInv(slots, paths, limits, prm, moves);
    var v := RunMoves(slots, paths, limits, prm, moves);
    if !v.closing && p < |v.paths| && GetRetry(v, p, source).id != 0 {
      assert Place(v, p, source);
      InFlightIsFlying(v, p, source);
      assert CountedAt(v, p, source, Out(slots, paths, limits, prm, moves));
    }
  }
}
