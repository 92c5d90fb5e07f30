// internal/handshakev2: the engine and its credits, from the reservation of an
// attempt or a prepared dial to the disposer.
//
// Time enters only through dial deadlines. Which packets arrive, which attempts
// are due, how an installation ends and what entropy and encoding give the attempts
// of a dial are inputs of the calls.
module HandshakeCustody {
  import opened CreditLedger
  import opened HandshakeCredits
  import opened CreditHolders
  import opened AttemptTables
  import E = HandshakeEngine
  import Words

  // Symbolic size of the record of a prepared dial.
  const PREPARED_BYTES := 512

  datatype Answer =
    | Done | ErrClosed | ErrInvalid | ErrExpired | ErrEntropy | ErrInstallation | ErrExhausted | ErrLimit
    | Refused(err: Err)

  // What an attempt of a dial is given: a SessionID, if entropy gave one, and whether
  // its values can be encoded.
  datatype Draw = Draw(id: nat, drawn: bool, encodes: bool)

  // How an installer answers, and whether a failed one returns a disposer.
  datatype Verdict = Accepts | Declines(disposer: bool) | ClosesScope(disposer: bool) {
    predicate Disposes() {
      this == Accepts || disposer
    }
  }

  class Engine {
    const peer: Peer
    // Config.InstallDeferred is set.
    const deferred: bool
    var sessions: map<nat, Attempt>
    var dials: map<nat, Dial>
    var preparations: set<Handle>
    var prepared: map<Handle, Phase>
    var holds: map<Holder, Held>
    var pending: int
    var nextDial: nat
    var closed: bool

    // The scopes the engine reserved successfully, the leases it reserved for them with
    // 0 for nil, and the scopes whose holders are done, in order.
    ghost var begun: set<Handle>
    ghost var issued: set<Handle>
    ghost var handed: seq<Handle>

    ghost function Table(): Tables
      reads this
    {
      Tables(sessions, dials, prepared, holds.Keys, pending, nextDial)
    }

    // The engine's credits are accounted for, whatever the tables say.
    ghost predicate Accounted()
      reads this, peer
    {
      && peer.Valid() && Partition(peer.View(), holds, begun, issued, Elements(handed)) && Distinct(handed)
      && prepared.Keys <= begun && 0 in issued
    }

    // What others have at the ledger.
    ghost function Others(): map<Handle, LeaseState>
      reads this, peer
    {
      Foreign(peer.leases, issued)
    }

    // What holds between any two steps of a call.
    ghost predicate Core()
      reads this, peer
    {
      Accounted() && Linked(Table()) && preparations == WaitingOf(prepared) && NoBacklog()
    }

    // Without disposers no storage waits for its release function.
    ghost predicate NoBacklog()
      reads this
    {
      !deferred ==>
        && (forall a :: a in holds ==> !a.ByStorage?) && prepared == map[]
        && (forall id :: id in sessions ==> !sessions[id].disposer)
    }

    // A disposer is there for what a deferred installer has installed.
    ghost predicate Disposing()
      reads this
    {
      forall id :: id in sessions ==> (sessions[id].disposer <==> sessions[id].established && deferred)
    }

    // What holds between calls: besides, every dial has an attempt.
    ghost predicate Valid()
      reads this, peer
    {
      && Core() && Disposing() && (forall d :: d in dials ==> dials[d].running > 0)
      && (closed ==> sessions == map[] && dials == map[] && preparations == {})
    }

    constructor (peer: Peer, deferred: bool)
      requires peer.Valid()
      ensures Valid() && this.peer == peer && this.deferred == deferred
      ensures sessions == map[] && holds == map[] && begun == {} && issued == {0} && handed == [] && !closed
    {
      this.peer, this.deferred := peer, deferred;
      sessions, dials, preparations, prepared, holds := map[], map[], {}, map[], map[];
      pending, nextDial, closed := 0, 0, false;
      begun, issued, handed := {}, {0}, [];
      new;
      assert OpenIds(map[]) == {};
      LedgerIsSound(peer);
    }

    // retiredStorage.release, which the disposer may call any number of times and at any
    // time. The scope retires when its Session has nothing left on it either.
    method ReleaseStorage(s: Handle)
      requires Accounted()
      modifies peer, this`holds
      ensures Accounted() && holds == old(holds) - {ByStorage(s)} && Others() == old(Others())
      ensures old(Core()) ==> Core()
      ensures old(Valid()) ==> Valid()
      ensures ByStorage(s) in old(holds) ==>
        && Shrunk(old(peer.View()), peer.View(), s, old(holds)[ByStorage(s)].Leases())
        && s in peer.sessions && (peer.sessions[s].retired <==> Unowned(peer.View(), s))
      ensures ByStorage(s) !in old(holds) ==> peer.View() == old(peer.View())
    {
      hide Peer.Valid, Partition, Shrunk, Inv, Resolved, Distinct, Sound, Held.Leases, Reserved.Leases, Cleared, Unowned, Linked;
      ghost var t := Table();
      if ByStorage(s) in holds {
        ghost var l, x := peer.View(), holds[ByStorage(s)];
        PartitionSound(l, holds, begun, issued, Elements(handed), ByStorage(s));
        StorageOwns(l, ByStorage(s), x, begun, issued, Elements(handed));
        ReturnStorage(peer, holds[ByStorage(s)], begun, issued, Elements(handed));
        ShrunkLoosens(l, peer.View(), holds, begun, issued, Elements(handed), ByStorage(s), x.Leases());
        LoosenedStays(l, peer.View(), holds, begun, issued, Elements(handed));
        Drops(peer.View(), holds, begun, issued, Elements(handed), ByStorage(s));
        holds := holds - {ByStorage(s)};
      } else {
        assert holds == holds - {ByStorage(s)};
      }
      if Linked(t) {
        StoragesIgnored(t, holds.Keys);
      }
    }

    // The scope closes, the packets go back and the rest passes to the disposer or, where
    // there is none, goes back at once.
    method HandOver(a: Holder, waits: bool)
      requires Accounted() && a in holds && !a.ByStorage?
      modifies peer, this`holds, this`handed
      ensures Accounted() && Others() == old(Others())
      ensures handed == old(handed) + [old(holds)[a].Scope()]
      ensures ByStorage(old(holds)[a].Scope()) !in old(holds)
      ensures holds == Passed(old(holds), a, waits)
      ensures GaveBack(old(peer.View()), peer.View(), old(holds)[a], waits)
    {
      hide Peer.Valid, Partition, Shrunk, Inv, Resolved, Distinct, Sound, Held.Leases, Reserved.Leases;
      var x := holds[a];
      var s := x.Scope();
      ghost var l, given := peer.View(), Elements(handed);
      PartitionSound(l, holds, begun, issued, given, a);
      LeavesOpen(l, a, holds, begun, issued, given);
      CloseShrinks(l, s);
      peer.CloseSession(s);
      ReleaseOne(peer, x.r.packet, s, l, {});
      ShrunkLoosens(l, peer.View(), holds, begun, issued, given, a, {} + {x.r.packet});
      LoosenedStays(l, peer.View(), holds, begun, issued, given);
      PacketGone(l, peer.View(), s, x.r.packet);
      ghost var n := peer.View();
      Moves(peer.View(), holds, begun, issued, given, a, ByStorage(s));
      holds := (holds - {a})[ByStorage(s) := x];
      HandedMore(handed, s);
      handed := handed + [s];
      if !waits {
        ReleaseStorage(s);
        assert (old(holds) - {a})[ByStorage(s) := x] - {ByStorage(s)} == old(holds) - {a};
        ShrunkTwice(l, n, peer.View(), x);
      }
    }

    // retire: does something only while the preparation holds storage.
    method Retire(p: Handle)
      requires Accounted()
      modifies peer, this`holds, this`handed
      ensures Accounted() && Others() == old(Others())
      ensures ByPreparation(p) in old(holds) ==>
        && old(holds)[ByPreparation(p)].Scope() == p && handed == old(handed) + [p]
        && holds == Passed(old(holds), ByPreparation(p), true)
        && GaveBack(old(peer.View()), peer.View(), old(holds)[ByPreparation(p)], true)
      ensures ByPreparation(p) !in old(holds) ==>
        holds == old(holds) && handed == old(handed) && peer.View() == old(peer.View())
    {
      hide Peer.Valid, Peer.View, Partition, Distinct, Foreign, Elements, GaveBack, Passed;
      if ByPreparation(p) in holds {
        PreparationScope(this, p);
        HandOver(ByPreparation(p), true);
      }
    }

    // disposeAttempt, of an attempt that is not or no longer in the table.
    method DisposeAttempt(id: nat, a: Attempt)
      requires Accounted() && HolderOf(id, a) in holds
      modifies peer, this`dials, this`holds, this`handed
      ensures Accounted() && Others() == old(Others())
      ensures dials == if a.preparation == 0 then old(dials) else old(dials) - {a.dial}
      ensures handed == old(handed) + [old(holds)[HolderOf(id, a)].Scope()]
      ensures holds == Passed(old(holds), HolderOf(id, a), a.Waits())
      ensures GaveBack(old(peer.View()), peer.View(), old(holds)[HolderOf(id, a)], a.Waits())
    {
      hide Peer.Valid, Peer.View, Partition, Distinct, Foreign, Elements, GaveBack, Passed;
      if a.preparation != 0 {
        dials := dials - {a.dial};
        Retire(a.preparation);
      } else {
        HandOver(ByAttempt(id), a.disposer);
      }
    }

    // recyclePreparedAttempt: the preparation may carry another attempt.
    predicate Recycles(now: int, a: Attempt)
      reads this, peer
    {
      && a.preparation != 0 && !closed && a.dial in dials && dials[a.dial].next < dials[a.dial].carriers
      && a.preparation in peer.sessions && !peer.sessions[a.preparation].closed
      && peer.sessions[a.preparation].pendingHandshake && !dials[a.dial].Expired(now)
    }

    // A preparation outlives its attempt: its dial has a Carrier and time left, and its
    // scope is still open and pending.
    ghost predicate GoesOn(now: int, id: nat)
      requires id in sessions
      reads this, peer
    {
      var p, d := sessions[id].preparation, sessions[id].dial;
      && p != 0 && !closed && d in dials && dials[d].next + 1 <= dials[d].carriers
      && (dials[d].deadline.Some? ==> now < dials[d].deadline.value)
      && p in peer.sessions && peer.sessions[p].pendingHandshake && !peer.sessions[p].closed
    }

    // failAttempt
    method FailAttempt(now: int, id: nat)
      requires Core() && id in sessions
      modifies peer, this`sessions, this`dials, this`pending, this`holds, this`handed
      ensures Core() && Others() == old(Others()) && sessions == old(sessions) - {id}
      ensures dials.Keys <= old(dials).Keys
      ensures forall d :: d in dials && d != old(sessions)[id].dial ==> dials[d] == old(dials)[d]
      ensures old(sessions)[id].dial !in old(dials) ==> dials == old(dials)
      ensures old(GoesOn(now, id)) ==>
        dials.Keys == old(dials).Keys && holds == old(holds) && handed == old(handed) && peer.View() == old(peer.View())
      ensures !old(GoesOn(now, id)) ==>
        && HolderOf(id, old(sessions)[id]) in old(holds)
        && handed == old(handed) + [old(holds)[HolderOf(id, old(sessions)[id])].Scope()]
        && holds == Passed(old(holds), HolderOf(id, old(sessions)[id]), old(sessions)[id].Waits())
        && GaveBack(old(peer.View()), peer.View(), old(holds)[HolderOf(id, old(sessions)[id])], old(sessions)[id].Waits())
    {
      hide Peer.Valid, Peer.View, Partition, Distinct, Foreign, Elements, Linked, GaveBack;
      var a := sessions[id];
      var recycles := Recycles(now, a);
      RemovedLinked(Table(), id, !recycles);
      AttemptHolds(Table(), id);
      NoDisposers(this, id);
      sessions := sessions - {id};
      if !a.established {
        pending := pending - 1;
        dials := Rerun(dials, a.dial, -1);
      }
      if !recycles {
        DisposeAttempt(id, a);
        StoragesIgnored(Removed(old(Table()), id, true), holds.Keys);
      }
      assert Linked(Table());
    }

    // reserve: the leases are there, but nobody holds them yet.
    method Admit(receive: Claim, initial: seq<Claim>) returns (err: Err, r: Reserved)
      requires Accounted() && pending >= 0
      modifies peer
      ensures peer.Valid() && (pending + |preparations| >= MAX_PENDING ==> err == ResourceLimit)
      ensures err == Ok <==> pending + |preparations| < MAX_PENDING && HasRoom(old(peer.View()), receive, initial, deferred)
      ensures err == Ok ==>
        && r.scope in peer.sessions && peer.usage == old(peer.usage).Plus(Wanted(receive, initial, deferred))
        && peer.sessions[r.scope].usage == Wanted(receive, initial, deferred)
      ensures err != Ok ==> Accounted() && SameCredits(old(peer.View()), peer.View()) && Others() == old(Others())
      ensures err == Ok ==>
        && Waits(peer.View(), r.scope) && Holds(peer.leases, r, receive, initial, deferred)
        && Grown(old(peer.View()), peer.View(), r.scope, r.Leases() - {0})
    {
      hide Peer.Valid, Partition, Distinct, Elements, SameCredits, Grown, Waits, Holds, Reserved.Leases, Foreign, HasRoom, Wanted;
      BegunKnown(peer.View(), holds, begun, issued, Elements(handed));
      err, r := Reserve(peer, pending, |preparations|, receive, initial, deferred);
      if err != Ok {
        SameCreditsLoosens(old(peer.View()), peer.View(), begun, issued);
        LoosenedStays(old(peer.View()), peer.View(), holds, begun, issued, Elements(handed));
      }
    }

    // A holder for what was just reserved.
    method Enroll(a: Holder, x: Held, ghost l: Ledger)
      requires peer.Valid() && Distinct(handed) && prepared.Keys <= begun
      requires Partition(l, holds, begun, issued, Elements(handed)) && Resolved(l) && 0 in issued
      requires Grown(l, peer.View(), x.Scope(), x.Leases() - {0})
      requires a !in holds && !a.ByStorage? && (a.ByPreparation? ==> a.scope == x.Scope())
      modifies this`holds, this`begun, this`issued
      ensures Accounted() && holds == old(holds)[a := x]
      ensures begun == old(begun) + {x.Scope()} && issued == old(issued) + x.Leases()
      ensures x.Scope() !in old(begun) && x.Scope() in begun && Others() == Foreign(l.leases, old(issued))
    {
      hide Peer.Valid, Peer.View, Inv, Resolved, Partition, Distinct, Elements, Grown, Held.Leases, Foreign;
      LedgerIsSound(peer);
      LeasesSeen(peer);
      GrownAdds(l, peer.View(), holds, begun, issued, Elements(handed), a, x);
      holds := holds[a := x];
      begun := begun + {x.Scope()};
      issued := issued + x.Leases();
    }

    // There is storage for one more attempt: that of the preparation p, still held and its
    // scope open, or else a free slot and the credits.
    ghost predicate CanProvide(p: Handle, receive: Claim, initial: seq<Claim>)
      reads this, peer
    {
      if p != 0 then ByPreparation(p) in holds && p in peer.sessions && !peer.sessions[p].closed
      else pending + |preparations| < MAX_PENDING && HasRoom(peer.View(), receive, initial, deferred)
    }

    // The dial could start an attempt with what it is given.
    ghost predicate MayStart(dial: Dial, draw: Draw)
      reads this, peer
    {
      && draw.drawn && draw.id !in sessions && draw.encodes
      && CanProvide(dial.preparation, dial.receive, dial.initial)
    }

    // The storage of a new attempt: that of the dial's preparation or its own.
    method Provide(id: nat, a: Attempt, receive: Claim, initial: seq<Claim>) returns (ans: Answer)
      requires Accounted() && ByAttempt(id) !in holds && pending >= 0
      modifies peer, this`holds, this`begun, this`issued
      ensures Accounted() && Others() == old(Others())
      ensures ans != Done ==> holds == old(holds) && begun == old(begun) && issued == old(issued)
      ensures ans == Done ==>
        HolderOf(id, a) in holds && holds == old(holds)[HolderOf(id, a) := holds[HolderOf(id, a)]]
      ensures ans == Done <==> old(CanProvide(a.preparation, receive, initial))
      ensures ans != Done ==> !CanProvide(a.preparation, receive, initial) && ans !in {ErrEntropy, ErrInvalid, ErrExpired}
      ensures ans == ErrClosed ==> a.preparation != 0
      ensures ans == Done && a.preparation == 0 ==> pending + |preparations| < MAX_PENDING
      ensures a.preparation != 0 ==> begun == old(begun) && holds == old(holds) && peer.View() == old(peer.View())
    {
      hide Peer.Valid, Peer.View, Partition, Distinct, Foreign, Elements, HasRoom;
      if a.preparation != 0 {
        if ByPreparation(a.preparation) !in holds {
          return ErrClosed;
        }
        PreparationScope(this, a.preparation);
        if peer.sessions[a.preparation].closed {
          return ErrClosed;
        }
        assert holds == holds[HolderOf(id, a) := holds[HolderOf(id, a)]];
        ans := Done;
      } else {
        ans := ProvideOwn(id, receive, initial);
      }
    }

    // Storage of an attempt's own.
    method ProvideOwn(id: nat, receive: Claim, initial: seq<Claim>) returns (ans: Answer)
      requires Accounted() && ByAttempt(id) !in holds && pending >= 0
      modifies peer, this`holds, this`begun, this`issued
      ensures Accounted() && Others() == old(Others())
      ensures ans != Done ==> holds == old(holds) && begun == old(begun) && issued == old(issued) && ans.Refused?
      ensures ans == Done ==> ByAttempt(id) in holds && holds == old(holds)[ByAttempt(id) := holds[ByAttempt(id)]]
      ensures ans == Done <==> old(CanProvide(0, receive, initial))
      ensures ans != Done ==> !CanProvide(0, receive, initial)
    {
      hide Peer.Valid, Peer.View, Inv, Resolved, Partition, Distinct, Foreign, Elements, Grown, Waits, Holds, SameCredits,
        Held.Leases, Reserved.Leases, HasRoom, Usage.Plus, Wanted;
      ghost var l := peer.View();
      LedgerIsSound(peer);
      LeasesSeen(peer);
      LimitsSeen(peer);
      var err, r := Admit(receive, initial);
      if err != Ok {
        StillNoRoom(l, peer, receive, initial, deferred);
        return Refused(err);
      }
      SoleLeases(r);
      Enroll(ByAttempt(id), Held(r, 0), l);
      ans := Done;
    }

    // startAttempt for the dial d. A SessionID that is in use, lost entropy and
    // values that cannot be encoded are failures.
    method StartAttempt(d: nat, draw: Draw) returns (ans: Answer, id: nat)
      requires Core() && d in dials && dials[d].running < dials[d].concurrent
      modifies peer, this`sessions, this`dials, this`pending, this`holds, this`handed, this`begun, this`issued
      ensures Core() && Others() == old(Others())
      ensures ans == Done ==>
        && id !in old(sessions) && sessions == old(sessions)[id := Attempt(false, d, old(dials)[d].preparation, false)]
        && dials == Rerun(old(dials), d, 1) && handed == old(handed) && pending == old(pending) + 1
        && (old(dials)[d].preparation == 0 ==> old(pending) + |preparations| < MAX_PENDING)
      ensures ans == Done <==> old(MayStart(dials[d], draw))
      ensures ans == ErrEntropy <==> !draw.drawn || draw.id in old(sessions)
      ensures ans == ErrInvalid <==>
        draw.drawn && draw.id !in old(sessions) && !draw.encodes
        && old(CanProvide(dials[d].preparation, dials[d].receive, dials[d].initial))
      ensures ans != ErrExpired && (ans == ErrClosed ==> old(dials)[d].preparation != 0)
      ensures ans == Done ==> id == draw.id
      ensures ans != Done ==> sessions == old(sessions) && (d in dials ==> !MayStart(dials[d], draw))
      ensures ans != Done ==> dials == old(dials) || (dials == old(dials) - {d} && old(dials)[d].preparation != 0)
      ensures d !in dials ==> !draw.encodes
      ensures 0 <= old(dials)[d].running && (old(dials)[d].preparation != 0 ==> old(dials)[d].running == 0)
      ensures old(handed) <= handed
      ensures var p := old(dials)[d].preparation;
        p != 0 ==> if d in dials then holds == old(holds) && handed == old(handed)
          else ByPreparation(p) in old(holds) && ByPreparation(p) !in holds && handed == old(handed) + [p]
    {
      hide Peer.Valid, Peer.View, Partition, Distinct, Foreign, Elements, Linked, GaveBack, WaitingOf, Engine.CanProvide;
      ghost var t := Table();
      NobodyRunsYet(t, d);
      id := draw.id;
      if !draw.drawn || id in sessions {
        return ErrEntropy, 0;
      }
      var dial := dials[d];
      var a := Attempt(false, d, dial.preparation, false);
      DialStarts(t, d, id);
      ans := Provide(id, a, dial.receive, dial.initial);
      if ans != Done {
        return;
      }
      if !draw.encodes {
        Abandon(id, a, t);
        return ErrInvalid, 0;
      }
      Publish(id, a, t);
    }

    // An attempt whose values cannot be encoded is disposed of.
    method Abandon(id: nat, a: Attempt, ghost t: Tables)
      requires Accounted() && NoBacklog() && Linked(t) && id !in sessions && Table() == t.(held := holds.Keys)
      requires a.dial in dials && a == Attempt(false, a.dial, dials[a.dial].preparation, false) && ByAttempt(id) !in t.held
      requires a.preparation != 0 ==> RunsOf(t.sessions, a.preparation) == {} && a.preparation in prepared
      requires HolderOf(id, a) in holds && holds.Keys == t.held + {HolderOf(id, a)} && preparations == WaitingOf(prepared)
      modifies peer, this`dials, this`holds, this`handed
      ensures Core() && Others() == old(Others()) && old(handed) <= handed
      ensures dials == if a.preparation == 0 then old(dials) else old(dials) - {a.dial}
      ensures a.preparation != 0 ==>
        ByPreparation(a.preparation) !in holds && handed == old(handed) + [a.preparation]
    {
      hide Peer.Valid, Peer.View, Partition, Distinct, Foreign, Elements, Linked, GaveBack, WaitingOf;
      PreparationScope(this, a.preparation);
      DisposeAttempt(id, a);
      Abandoned(t, a.dial, a, id, holds.Keys);
    }

    // A started attempt enters the table.
    method Publish(id: nat, a: Attempt, ghost t: Tables)
      requires Accounted() && NoBacklog() && Linked(t) && Startable(t, a) && id !in sessions && Table() == t.(held := holds.Keys)
      requires holds.Keys == t.held + if a.preparation == 0 then {ByAttempt(id)} else {}
      requires preparations == WaitingOf(prepared) && !a.disposer
      modifies this`sessions, this`pending, this`dials
      ensures Core() && Others() == old(Others()) && sessions == old(sessions)[id := a]
      ensures dials == Rerun(old(dials), a.dial, 1) && pending == old(pending) + 1
    {
      hide Peer.Valid, Peer.View, Partition, Distinct, Foreign, Elements, Linked;
      AddedLinked(t, id, a);
      sessions := sessions[id := a];
      pending := pending + 1;
      dials := Rerun(dials, a.dial, 1);
      assert Table() == Added(t, id, a);
    }

    // One turn of fillDial.
    method StartNext(d: nat, draw: Draw) returns (ans: Answer)
      requires Core() && d in dials && dials[d].running < dials[d].concurrent
      modifies peer, this`sessions, this`dials, this`pending, this`holds, this`handed, this`begun, this`issued
      ensures Core() && Others() == old(Others()) && Extended(old(sessions), sessions, {d}) && old(handed) <= handed
      ensures ans == Done <==> old(MayStart(dials[d], draw))
      ensures ans == Done ==>
        dials == old(dials)[d := old(dials)[d].(running := old(dials)[d].running + 1, next := old(dials)[d].next + 1)]
      ensures ans != Done ==> sessions == old(sessions) && (d in dials ==> !MayStart(dials[d], draw))
      ensures ans != ErrExpired && (ans == ErrClosed ==> old(dials)[d].preparation != 0) && (d !in dials ==> !draw.encodes)
      ensures ans != Done ==> dials == old(dials) || (dials == old(dials) - {d} && old(dials)[d].preparation != 0)
      ensures 0 <= old(dials)[d].running && (old(dials)[d].preparation != 0 ==> old(dials)[d].running == 0)
      ensures var p := old(dials)[d].preparation;
        p != 0 ==> if d in dials then holds == old(holds) && handed == old(handed)
          else ByPreparation(p) in old(holds) && ByPreparation(p) !in holds && handed == old(handed) + [p]
    {
      hide Engine.Core, Engine.Others, Engine.MayStart;
      var id;
      ans, id := StartAttempt(d, draw);
      if ans == Done {
        NextCarrier(d);
      }
    }

    // The next attempt of the dial could start.
    ghost predicate StartsNext(d: nat, draws: nat -> Draw)
      requires d in dials
      reads this, peer
    {
      MayStart(dials[d], draws(dials[d].next))
    }

    // Why a dial has been filled no further: it runs what it may or is out of Carriers, or
    // its next attempt could not start.
    ghost predicate Stops(dial: Dial, ans: Answer, draw: Draw)
      reads this, peer
    {
      && (ans == Done ==> dial.running >= dial.concurrent || dial.next >= dial.carriers)
      && (ans !in {Done, ErrExpired} ==>
          dial.running < dial.concurrent && dial.next < dial.carriers && !MayStart(dial, draw))
    }

    // fillDial: disposing of a prepared attempt ends its dial.
    method FillDial(now: int, d: nat, draws: nat -> Draw) returns (ans: Answer)
      requires Core() && d in dials
      modifies peer, this`sessions, this`dials, this`pending, this`holds, this`handed, this`begun, this`issued
      ensures Core() && Others() == old(Others())
      ensures forall x :: x in dials && x != d ==> x in old(dials) && dials[x] == old(dials)[x]
      ensures dials.Keys == old(dials).Keys || (dials.Keys == old(dials).Keys - {d} && old(dials)[d].preparation != 0)
      ensures d in dials ==> dials[d].SameAs(old(dials)[d]) && old(dials)[d].running <= dials[d].running
      ensures ans == ErrExpired <==> old(dials)[d].Expired(now)
      ensures ans == ErrClosed ==> old(dials)[d].preparation != 0
      ensures d in dials ==> dials[d].next - old(dials)[d].next == dials[d].running - old(dials)[d].running
      ensures d in dials ==> Stops(dials[d], ans, draws(dials[d].next))
      ensures ans !in {Done, ErrExpired} && (d in dials ==> dials[d].next == old(dials)[d].next) ==> !old(StartsNext(d, draws))
      ensures d in dials && dials[d].next != old(dials)[d].next ==> old(StartsNext(d, draws))
      ensures d !in dials ==> ans !in {Done, ErrExpired} && old(dials)[d].running == 0
      ensures ans == ErrExpired ==> dials == old(dials)
      ensures d !in dials || dials[d].running == old(dials)[d].running ==> sessions == old(sessions)
      ensures Extended(old(sessions), sessions, {d}) && old(handed) <= handed
      ensures var p := old(dials)[d].preparation;
        p != 0 ==> if d in dials then holds == old(holds) && handed == old(handed)
          else ByPreparation(p) in old(holds) && ByPreparation(p) !in holds && handed == old(handed) + [p]
    {
      hide Engine.Core, Engine.Others, Extended, Engine.MayStart;
      ExtendedNot(sessions, d);
      DialsRun(this);
      if dials[d].Expired(now) {
        return ErrExpired;
      }
      while dials[d].running < dials[d].concurrent && dials[d].next < dials[d].carriers
        invariant Core() && Others() == old(Others()) && dials.Keys == old(dials).Keys
        invariant forall x :: x in dials && x != d ==> dials[x] == old(dials)[x]
        invariant dials[d].SameAs(old(dials)[d]) && old(dials)[d].running <= dials[d].running
        invariant dials[d].running == old(dials)[d].running ==> sessions == old(sessions)
        invariant Extended(old(sessions), sessions, {d}) && old(handed) <= handed
        invariant old(dials)[d].preparation != 0 ==> holds == old(holds) && handed == old(handed)
        invariant dials[d].next - old(dials)[d].next == dials[d].running - old(dials)[d].running
        invariant dials[d].next != old(dials)[d].next ==> old(StartsNext(d, draws))
        invariant dials[d].next == old(dials)[d].next ==> unchanged(this) && unchanged(peer)
        decreases dials[d].carriers - dials[d].next
      {
        ghost var m, n := sessions, handed;
        ans := StartNext(d, draws(dials[d].next));
        ExtendedTwice(old(sessions), m, sessions, d);
        assert old(handed) <= n <= handed;
        if ans != Done {
          return;
        }
      }
      ans := Done;
    }

    method NextCarrier(d: nat)
      requires Core() && d in dials
      modifies this`dials
      ensures Core() && Others() == old(Others()) && dials == old(dials)[d := old(dials)[d].(next := old(dials)[d].next + 1)]
    {
      hide Peer.Valid, Peer.View, Partition, Distinct, Foreign, Elements, Linked;
      NextIgnored(Table(), d, dials[d].next + 1);
      dials := dials[d := dials[d].(next := dials[d].next + 1)];
    }

    // A dial without attempts is forgotten and its preparation retired.
    method DropDial(d: nat, p: Handle)
      requires Core() && (d in dials ==> dials[d].running == 0 && dials[d].preparation == p)
      requires d !in dials ==> ByPreparation(p) !in holds
      modifies peer, this`dials, this`holds, this`handed
      ensures Core() && Others() == old(Others()) && dials == old(dials) - {d} && ByPreparation(p) !in holds
      ensures handed == old(handed) + if ByPreparation(p) in old(holds) then [p] else []
    {
      hide Peer.Valid, Peer.View, Partition, Distinct, Foreign, Elements, Linked, GaveBack;
      ghost var t := Table();
      if d in dials {
        RunningIsCount(t);
        NobodyRunsYet(t, d);
        DialDropped(t, d);
      } else {
        assert t == t.(dials := dials - {d}, held := t.held - {ByPreparation(p)});
      }
      dials := dials - {d};
      if p != 0 {
        Retire(p);
      }
      StoragesIgnored(t.(dials := dials, held := t.held - {ByPreparation(p)}), holds.Keys);
    }

    // A dial that has no attempt afterwards is dropped.
    method FillOrDrop(now: int, d: nat, draws: nat -> Draw) returns (ans: Answer)
      requires Core() && d in dials
      modifies peer, this`sessions, this`dials, this`pending, this`holds, this`handed, this`begun, this`issued
      ensures Core() && Others() == old(Others())
      ensures forall x :: x in dials && x != d ==> x in old(dials) && dials[x] == old(dials)[x]
      ensures dials.Keys == old(dials).Keys - if d in dials then {} else {d}
      ensures d in dials ==> dials[d].SameAs(old(dials)[d]) && dials[d].running > 0
      ensures d !in dials && old(dials)[d].running == 0 ==> sessions == old(sessions)
      ensures ans == ErrExpired <==> old(dials)[d].Expired(now)
      ensures ans == ErrClosed ==> old(dials)[d].preparation != 0
      ensures old(dials)[d].running > 0 ==> d in dials
      ensures old(dials)[d].running == 0 && old(dials)[d].next < old(dials)[d].carriers ==>
        (d in dials <==> !old(dials)[d].Expired(now) && old(StartsNext(d, draws)))
      ensures d in dials ==> Stops(dials[d], ans, draws(dials[d].next))
      ensures Extended(old(sessions), sessions, {d}) && old(handed) <= handed
      ensures var p := old(dials)[d].preparation;
        && (d !in dials ==> ByPreparation(p) !in holds)
        && (p != 0 ==> if d in dials then holds == old(holds) && handed == old(handed)
          else handed == old(handed) + if ByPreparation(p) in old(holds) then [p] else [])
    {
      hide Engine.Core, Engine.Others, Extended, Engine.MayStart;
      var p := dials[d].preparation;
      DialsRun(this);
      ans := FillDial(now, d, draws);
      DialsRun(this);
      if d !in dials || dials[d].running == 0 {
        DropDial(d, p);
      }
    }

    method FillDials(now: int, draws: (nat, nat) -> Draw)
      requires Core()
      modifies peer, this`sessions, this`dials, this`pending, this`holds, this`handed, this`begun, this`issued
      ensures Core() && Others() == old(Others()) && dials.Keys <= old(dials).Keys
      ensures forall d :: d in dials ==> dials[d].running > 0
      ensures forall d :: d in old(dials) && old(dials)[d].running > 0 ==> d in dials
      ensures Extended(old(sessions), sessions, old(dials).Keys) && old(handed) <= handed
    {
      hide Engine.Core, Engine.Others, Engine.MayStart;
      var todo := dials.Keys;
      while todo != {}
        invariant Core() && Others() == old(Others()) && todo <= dials.Keys <= old(dials).Keys
        invariant forall d :: d in dials && d !in todo ==> dials[d].running > 0
        invariant forall d :: d in old(dials) && old(dials)[d].running > 0 ==> d in dials
        invariant forall d :: d in todo ==> dials[d] == old(dials)[d]
        invariant Extended(old(sessions), sessions, old(dials).Keys) && old(handed) <= handed
        decreases todo
      {
        var d :| d in todo;
        var _ := FillOrDrop(now, d, (k: nat) => draws(d, k));
        todo := todo - {d};
      }
    }

    /** PrepareDial: the reservation of one future attempt and its record, or, wherever
        it fails, exactly the credits there were. */
    method PrepareDial(receive: Claim, initial: seq<Claim>, valid: bool) returns (ans: Answer, p: Handle)
      requires Valid()
      modifies peer, this`preparations, this`prepared, this`holds, this`begun, this`issued
      ensures Valid() && Others() == old(Others())
      ensures ans != Done ==>
        && SameCredits(old(peer.View()), peer.View()) && Table() == old(Table()) && begun == old(begun)
        && issued == old(issued) && holds == old(holds) && preparations == old(preparations)
      ensures closed ==> ans == ErrClosed
      ensures !closed && (!deferred || !valid) ==> ans == ErrInvalid
      ensures ans == Done <==>
        && !closed && deferred && valid && pending + |old(preparations)| < MAX_PENDING
        && HasRoom(old(peer.View()), receive, initial, true)
        && Affords(peer.limits, old(peer.usage).Plus(Wanted(receive, initial, true)), Wanted(receive, initial, true),
                   Charge(Bytes(PREPARED_BYTES)))
      ensures ans == Done ==>
        && p !in old(begun) && begun == old(begun) + {p} && preparations == old(preparations) + {p}
        && ByPreparation(p) in holds && holds == old(holds)[ByPreparation(p) := holds[ByPreparation(p)]]
        && Waits(peer.View(), p) && Holds(peer.leases, holds[ByPreparation(p)].r, receive, initial, true)
        && Holding(peer.leases, holds[ByPreparation(p)].extra, Bytes(PREPARED_BYTES))
    {
      hide Peer.Valid, Peer.View, Inv, Resolved, Partition, Distinct, Foreign, Elements, Linked, Grown, Waits, Holds, Holding,
        SameCredits, Held.Leases, Reserved.Leases, Affords, HasRoom, Wanted, Charge;
      Unchanged(peer.View());
      if closed {
        return ErrClosed, 0;
      }
      if !deferred || !valid {
        return ErrInvalid, 0;
      }
      ghost var l := peer.View();
      LedgerIsSound(peer);
      LeasesSeen(peer);
      PendingCounts(Table());
      var err, r := Admit(receive, initial);
      if err != Ok {
        return Refused(err), 0;
      }
      var metadata;
      err, metadata := Extend(r, receive, initial, l);
      if err != Ok {
        return Refused(err), 0;
      }
      p := r.scope;
      Enlist(Held(r, metadata), l);
      ans := Done;
    }

    // A preparation begins to wait.
    method Enlist(x: Held, ghost l: Ledger)
      requires peer.Valid() && Distinct(handed) && prepared.Keys <= begun && NoBacklog()
      requires Partition(l, holds, begun, issued, Elements(handed)) && Resolved(l) && 0 < l.next && 0 in issued && deferred
      requires Grown(l, peer.View(), x.Scope(), x.Leases() - {0})
      requires Linked(Table()) && preparations == WaitingOf(prepared) && Room(Table())
      modifies this`holds, this`begun, this`issued, this`prepared, this`preparations
      ensures Core() && holds == old(holds)[ByPreparation(x.Scope()) := x] && begun == old(begun) + {x.Scope()}
      ensures x.Scope() !in old(begun) && Others() == Foreign(l.leases, old(issued))
      ensures preparations == old(preparations) + {x.Scope()} && prepared == old(prepared)[x.Scope() := Waiting]
    {
      hide Peer.Valid, Peer.View, Inv, Resolved, Partition, Distinct, Foreign, Elements, Linked, Grown, Held.Leases, Room, WaitingOf;
      var p := x.Scope();
      NewScope(l, peer.View(), x, holds, begun, issued, Elements(handed));
      WaitingAdded(Table(), p);
      WaitsMore(prepared, p);
      Enroll(ByPreparation(p), x, l);
      prepared := prepared[p := Waiting];
      preparations := preparations + {p};
      assert Table() == old(Table()).(prepared := prepared, held := old(holds).Keys + {ByPreparation(p)});
    }

    // The record of the preparation, or everything back.
    method Extend(r: Reserved, receive: Claim, initial: seq<Claim>, ghost l: Ledger) returns (err: Err, metadata: Handle)
      requires peer.Valid() && Inv(l) && Resolved(l) && 0 !in l.leases && Waits(peer.View(), r.scope)
      requires Grown(l, peer.View(), r.scope, r.Leases() - {0}) && Holds(peer.leases, r, receive, initial, true)
      requires Partition(l, holds, begun, issued, Elements(handed)) && Distinct(handed) && prepared.Keys <= begun && 0 in issued
      modifies peer
      ensures peer.Valid() && r.scope in old(peer.sessions)
      ensures err == Ok <==>
        Affords(peer.limits, old(peer.usage), old(peer.sessions[r.scope].usage), Charge(Bytes(PREPARED_BYTES)))
      ensures err != Ok ==> SameCredits(l, peer.View()) && Accounted() && Others() == Foreign(l.leases, issued)
      ensures err == Ok ==>
        && Grown(l, peer.View(), r.scope, Held(r, metadata).Leases() - {0}) && Waits(peer.View(), r.scope)
        && Holds(peer.leases, r, receive, initial, true) && Holding(peer.leases, metadata, Bytes(PREPARED_BYTES))
    {
      hide Peer.Valid, Peer.View, Inv, Resolved, Partition, Distinct, Foreign, Elements, Grown, Waits, Holds, Holding,
        SameCredits, Kept, Held.Leases, Reserved.Leases, Affords, Charge;
      err, metadata := ReserveOne(peer, r.scope, Bytes(PREPARED_BYTES), l, r.Leases() - {0});
      if err != Ok {
        Rollback(peer, r, l);
        BegunKnown(l, holds, begun, issued, Elements(handed));
        SameCreditsLoosens(l, peer.View(), begun, issued);
        LoosenedStays(l, peer.View(), holds, begun, issued, Elements(handed));
        LeasesSeen(peer);
      } else {
        HoldsStay(old(peer.leases), peer.leases, r, receive, initial);
        assert Held(r, metadata).Leases() - {0} == r.Leases() - {0} + {metadata} by {
          TwoSets(r, metadata);
        }
      }
    }

    // A new dial under the next ID and what its first attempts come to.
    method OpenDial(now: int, dial: Dial, draws: nat -> Draw) returns (ans: Answer, d: nat)
      requires Valid() && !closed && dial.running == 0 && dial.concurrent > 0 && dial.next == 0 < dial.carriers && !dial.Expired(now)
      requires dial.preparation != 0 ==> dial.concurrent == 1 && dial.preparation in preparations
      modifies peer, this
      ensures Valid() && !closed && Others() == old(Others())
      ensures dial.preparation == 0 ==> preparations == old(preparations) && prepared == old(prepared)
      ensures dial.preparation != 0 ==>
        && preparations == old(preparations) - {dial.preparation}
        && prepared == old(prepared)[dial.preparation := Adopted(old(nextDial) + 1)]
      ensures ans == Done ==>
        && d == old(nextDial) + 1 && d !in old(dials) && dials.Keys == old(dials).Keys + {d}
        && dials[d].SameAs(dial) && dials[d].running > 0
      ensures ans == Done <==> old(MayStart(dial, draws(0)))
      ensures ans != ErrExpired && (ans == ErrClosed ==> dial.preparation != 0)
      ensures ans != Done ==> sessions == old(sessions) && dials == old(dials)
      ensures dial.preparation != 0 ==>
        if ans == Done then holds == old(holds) && handed == old(handed)
        else ByPreparation(dial.preparation) !in holds && handed == old(handed) + [dial.preparation]
    {
      hide Engine.Core, Engine.Others, Engine.MayStart, Engine.Stops, Peer.Valid, OpenIds, OpenOf, Rerun;
      d := Register(dial);
      ans := FillOrDrop(now, d, draws);
      if d !in dials {
        assert dials == old(dials);
        ans := if ans == Done then ErrInvalid else ans;
      } else {
        ans := Done;
      }
    }

    method Register(dial: Dial) returns (d: nat)
      requires Core() && dial.running == 0 && dial.concurrent > 0
      requires dial.preparation != 0 ==> dial.concurrent == 1 && dial.preparation in preparations
      modifies this`dials, this`preparations, this`prepared, this`nextDial
      ensures Core() && Others() == old(Others()) && d == old(nextDial) + 1
      ensures d !in old(dials) && dials == old(dials)[d := dial]
      ensures forall draw :: MayStart(dial, draw) == old(MayStart(dial, draw))
      ensures dial.preparation == 0 ==> preparations == old(preparations) && prepared == old(prepared)
      ensures dial.preparation != 0 ==>
        && ByPreparation(dial.preparation) in holds && preparations == old(preparations) - {dial.preparation}
        && prepared == old(prepared)[dial.preparation := Adopted(d)]
    {
      hide Peer.Valid, Peer.View, Partition, Distinct, Foreign, Elements, Linked;
      BegunLinked(Table(), dial);
      WaitingHolds(Table(), dial.preparation);
      nextDial := nextDial + 1;
      d := nextDial;
      dials := dials[d := dial];
      if dial.preparation != 0 {
        preparations := preparations - {dial.preparation};
        prepared := prepared[dial.preparation := Adopted(d)];
      }
      assert Table() == Begun(old(Table()), dial);
    }

    // BeginDial; a dial that cannot start an attempt leaves none behind.
    method BeginDial(
      now: int, carriers: nat, concurrent: nat, deadline: E.Option<int>, receive: Claim, initial: seq<Claim>, draws: nat -> Draw)
      returns (ans: Answer, d: nat)
      requires Valid()
      modifies peer, this
      ensures Valid() && Others() == old(Others()) && preparations == old(preparations) && prepared == old(prepared)
      ensures ans == Done ==>
        d !in old(dials) && dials.Keys == old(dials).Keys + {d} && dials[d].preparation == 0 && dials[d].running > 0
      ensures ans != Done ==> sessions == old(sessions) && dials == old(dials)
      ensures var sound := 1 <= carriers <= MAX_PENDING && concurrent <= carriers;
        var late := deadline.Some? && deadline.value <= now;
        && (ans == Done <==>
            && !old(closed) && sound && !late && |old(dials)| < MAX_PENDING && old(nextDial) != Words.MAX_U64
            && draws(0).drawn && draws(0).id !in old(sessions) && draws(0).encodes
            && old(pending) + |old(preparations)| < MAX_PENDING && HasRoom(old(peer.View()), receive, initial, deferred))
        && (ans == ErrClosed <==> old(closed)) && (ans == ErrExpired <==> !old(closed) && sound && late)
        && (!old(closed) && !sound ==> ans == ErrInvalid)
    {
      hide Peer.Valid, Peer.View, Partition, Distinct, Foreign, Elements, Linked, HasRoom;
      if closed {
        return ErrClosed, 0;
      }
      if carriers < 1 || carriers > MAX_PENDING {
        return ErrInvalid, 0;
      }
      var atOnce := if concurrent == 0 then 1 else concurrent;
      if atOnce > carriers {
        return ErrInvalid, 0;
      }
      var dial := Dial(carriers, atOnce, deadline, 0, 0, 0, receive, initial);
      assert MayStart(dial, draws(0)) == MayStart(dial.(concurrent := 1), draws(0));
      if dial.Expired(now) {
        return ErrExpired, 0;
      }
      if |dials| >= MAX_PENDING {
        return ErrLimit, 0;
      }
      if nextDial == Words.MAX_U64 {
        return ErrExhausted, 0;
      }
      ans, d := OpenDial(now, dial, draws);
    }

    /** BeginPreparedDial: a preparation is adopted once. Until the carriers and the
        deadline are found valid nothing changes; from then on the preparation carries
        a running attempt or has been handed over. */
    method BeginPreparedDial(now: int, p: Handle, carriers: nat, fits: bool, bound: bool, deadline: E.Option<int>,
                             receive: Claim, initial: seq<Claim>, draws: nat -> Draw)
      returns (ans: Answer, d: nat)
      requires Valid()
      modifies peer, this
      ensures Valid() && Others() == old(Others())
      ensures p !in old(preparations) ==> ans == ErrClosed || ans == ErrInvalid
      ensures var sound := p in old(preparations) && 1 <= carriers <= MAX_PENDING && fits && bound;
        var late := deadline.Some? && deadline.value <= now;
        && (sound ==> p in old(peer.sessions))
        && var adopted := !old(closed) && sound && !late && !old(peer.sessions)[p].closed && |old(dials)| < MAX_PENDING;
          && (ans == Done <==>
              adopted && old(nextDial) != Words.MAX_U64 && draws(0).drawn && draws(0).id !in old(sessions) && draws(0).encodes)
          && preparations == old(preparations) - if adopted then {p} else {}
      ensures ans == Done ==>
        && p in old(preparations) && preparations == old(preparations) - {p} && prepared == old(prepared)[p := Adopted(d)]
        && d !in old(dials) && dials.Keys == old(dials).Keys + {d} && dials[d].preparation == p && dials[d].running > 0
        && holds == old(holds) && handed == old(handed)
      ensures ans != Done ==> sessions == old(sessions) && dials == old(dials)
      ensures ans != Done && preparations == old(preparations) ==>
        Table() == old(Table()) && holds == old(holds) && handed == old(handed) && peer.View() == old(peer.View())
      ensures ans != Done && preparations != old(preparations) ==>
        && preparations == old(preparations) - {p} && p in prepared && prepared[p].Adopted?
        && ByPreparation(p) !in holds && handed == old(handed) + [p]
    {
      hide Peer.Valid, Peer.View, Partition, Distinct, Foreign, Elements, Linked, GaveBack, HasRoom;
      PreparationScope(this, p);
      WaitingHolds(Table(), p);
      if closed {
        return ErrClosed, 0;
      }
      if p !in preparations || carriers < 1 || carriers > MAX_PENDING || !fits {
        return ErrInvalid, 0;
      }
      var dial := Dial(carriers, 1, deadline, 0, 0, p, receive, initial);
      if dial.Expired(now) {
        return ErrExpired, 0;
      }
      if !bound {
        return ErrInvalid, 0;
      }
      if peer.sessions[p].closed {
        return ErrClosed, 0;
      }
      if |dials| >= MAX_PENDING {
        return ErrLimit, 0;
      }
      if nextDial == Words.MAX_U64 {
        GiveUp(p, Adopted(0));
        return ErrExhausted, 0;
      }
      ans, d := OpenDial(now, dial, draws);
    }

    // A waiting preparation ends without a dial.
    method GiveUp(p: Handle, phase: Phase)
      requires Core() && p in preparations && (phase == Aborted || phase == Adopted(0))
      modifies peer, this`preparations, this`prepared, this`holds, this`handed
      ensures Core() && Others() == old(Others()) && preparations == old(preparations) - {p}
      ensures prepared == old(prepared)[p := phase] && ByPreparation(p) !in holds && handed == old(handed) + [p]
    {
      hide Peer.Valid, Peer.View, Partition, Distinct, Foreign, Elements, Linked, GaveBack;
      ghost var t := Table();
      WaitingHolds(t, p);
      WaitingRetired(t, p, phase);
      preparations := preparations - {p};
      prepared := prepared[p := phase];
      Retire(p);
      StoragesIgnored(t.(prepared := prepared, held := t.held - {ByPreparation(p)}), holds.Keys);
    }

    // AbortPreparedDial: harmless when repeated, and after Close.
    method AbortPreparedDial(p: Handle) returns (ans: Answer)
      requires Valid()
      modifies peer, this`preparations, this`prepared, this`holds, this`handed
      ensures Valid() && Others() == old(Others())
      ensures ans == Done <==> p in old(prepared) && (old(prepared)[p] == Waiting || old(prepared)[p] == Aborted)
      ensures ans == Done ==> prepared == old(prepared)[p := Aborted] && ByPreparation(p) !in holds
      ensures handed == old(handed) + if p in old(preparations) then [p] else []
      ensures p !in old(preparations) ==> prepared == old(prepared) && holds == old(holds) && peer.View() == old(peer.View())
    {
      hide Peer.Valid, Peer.View, Partition, Distinct, Foreign, Elements, Linked;
      if p !in prepared {
        return ErrInvalid;
      }
      if prepared[p] == Aborted {
        AbortedHoldsNothing(Table(), p);
        assert prepared == prepared[p := Aborted];
        return Done;
      }
      if prepared[p] != Waiting {
        return ErrInvalid;
      }
      GiveUp(p, Aborted);
      ans := Done;
    }

    // install: what the ledger and the installer make of it. A scope that could not
    // be installed is closed or promoted, so it is never recycled.
    method Install(id: nat, verdict: Verdict) returns (ans: Answer)
      requires Core() && id in sessions && HolderOf(id, sessions[id]) in holds
      modifies peer, this`sessions
      ensures Core() && Others() == old(Others()) && peer.leases == old(peer.leases)
      ensures var s := holds[HolderOf(id, old(sessions)[id])].Scope();
        && s in old(peer.sessions) && s in peer.sessions
        && (ans == Done <==> verdict == Accepts && !old(peer.sessions)[s].closed)
        && (ans == Done ==> !peer.sessions[s].closed && !peer.sessions[s].pendingHandshake)
        && (ans != Done ==> peer.sessions[s].closed || !peer.sessions[s].pendingHandshake)
        && sessions == old(sessions)[id := Returned(old(sessions)[id], !old(peer.sessions)[s].closed && verdict.Disposes())]
    {
      hide Peer.Valid, Inv, Resolved, Partition, Distinct, Foreign, Elements, Linked, Sound;
      ghost var l, given := peer.View(), Elements(handed);
      var a := HolderOf(id, sessions[id]);
      var s := holds[a].Scope();
      PartitionSound(l, holds, begun, issued, given, a);
      ScopeKnown(l, a, holds[a], begun, issued, given);
      LedgerIsSound(peer);
      PromoteOutcome(l, s);
      PromoteLoosens(l, s, begun, issued);
      var err := peer.Promote(s);
      LoosenedStays(l, peer.View(), holds, begun, issued, given);
      if err != Ok {
        assert sessions == sessions[id := Returned(sessions[id], false)];
        return Refused(err);
      }
      TakeDisposer(id, verdict.Disposes());
      if verdict.ClosesScope? {
        ghost var n := peer.View();
        LedgerIsSound(peer);
        CloseAllLoosens(n, {s}, begun, issued);
        CloseOne(n, s);
        peer.CloseSession(s);
        LoosenedStays(n, peer.View(), holds, begun, issued, given);
      }
      ans := if verdict == Accepts then Done else ErrInstallation;
    }

    // The attempt with what a deferred installer returned for it.
    function Returned(a: Attempt, disposer: bool): Attempt {
      if deferred && disposer then a.(disposer := true) else a
    }

    method TakeDisposer(id: nat, disposer: bool)
      requires Core() && id in sessions
      modifies this`sessions
      ensures Core() && Others() == old(Others()) && sessions == old(sessions)[id := Returned(old(sessions)[id], disposer)]
    {
      hide Peer.Valid, Peer.View, Partition, Distinct, Foreign, Elements, Linked;
      DisposerIgnored(Table(), id, Returned(sessions[id], disposer).disposer);
      sessions := sessions[id := Returned(sessions[id], disposer)];
      assert Table() == Relabelled(old(Table()), id, sessions[id].disposer);
    }

    // The installed attempt owns its storage, and its dial is over.
    method Establish(id: nat)
      requires Core() && id in sessions && !sessions[id].established
      modifies this`sessions, this`dials, this`pending, this`holds
      ensures Core() && Others() == old(Others()) && dials == old(dials) - {old(sessions)[id].dial}
      ensures sessions == old(sessions)[id := old(sessions)[id].(established := true, preparation := 0)]
      ensures HolderOf(id, old(sessions)[id]) in old(holds) && ByAttempt(id) in holds
      ensures holds == (old(holds) - {HolderOf(id, old(sessions)[id])})[ByAttempt(id) := old(holds)[HolderOf(id, old(sessions)[id])]]
    {
      hide Peer.Valid, Peer.View, Partition, Distinct, Foreign, Elements, Linked;
      var a := sessions[id];
      ghost var t := Table();
      AttemptHolds(t, id);
      InstalledLinked(t, id);
      WaitingHolds(t, 0);
      if a.preparation != 0 {
        AttemptIsPrepared(t, id);
        Moves(peer.View(), holds, begun, issued, Elements(handed), ByPreparation(a.preparation), ByAttempt(id));
        holds := (holds - {ByPreparation(a.preparation)})[ByAttempt(id) := holds[ByPreparation(a.preparation)]];
      } else {
        assert holds == (holds - {ByAttempt(id)})[ByAttempt(id) := holds[ByAttempt(id)]];
      }
      sessions := sessions[id := a.(established := true, preparation := 0)];
      pending := pending - 1;
      dials := dials - {a.dial};
      assert Table() == Installed(t, id);
    }

    // releasePackets
    method ReleasePackets(id: nat)
      requires Core() && ByAttempt(id) in holds
      modifies peer
      ensures Core() && Others() == old(Others())
      ensures var x := holds[ByAttempt(id)];
        Shrunk(old(peer.View()), peer.View(), x.Scope(), {x.r.packet}) && x.r.packet !in peer.leases
    {
      hide Peer.Valid, Partition, Distinct, Elements, Linked, Shrunk, Held.Leases;
      ghost var l, given := peer.View(), Elements(handed);
      var x := holds[ByAttempt(id)];
      LeavesOpen(l, ByAttempt(id), holds, begun, issued, given);
      NothingGone(l, x.Scope());
      ReleaseOne(peer, x.r.packet, x.Scope(), l, {});
      ShrunkLoosens(l, peer.View(), holds, begun, issued, given, ByAttempt(id), {} + {x.r.packet});
      LoosenedStays(l, peer.View(), holds, begun, issued, given);
      PacketGone(l, peer.View(), x.Scope(), x.r.packet);
    }

    method FailAll(now: int, ids: set<nat>)
      requires Core() && ids <= sessions.Keys
      modifies peer, this`sessions, this`dials, this`pending, this`holds, this`handed
      ensures Core() && Others() == old(Others())
      ensures sessions == old(sessions) - ids && dials.Keys <= old(dials).Keys && old(handed) <= handed
      ensures (forall id :: id in ids ==> old(sessions)[id].dial !in old(dials)) ==> dials == old(dials)
    {
      hide Engine.Core, Engine.Others, GaveBack;
      var todo := ids;
      while todo != {}
        invariant Core() && Others() == old(Others()) && todo <= ids
        invariant sessions == old(sessions) - (ids - todo) && dials.Keys <= old(dials).Keys && old(handed) <= handed
        invariant (forall id :: id in ids ==> old(sessions)[id].dial !in old(dials)) ==> dials == old(dials)
        decreases todo
      {
        var id :| id in todo;
        FailAttempt(now, id);
        todo := todo - {id};
        assert sessions == old(sessions) - (ids - todo);
      }
    }

    // receiveHello: an attempt of the listener, unless the HELLO belongs to one that
    // has not expired. `ready` says whether its CHALLENGE can be made.
    method ReceiveHello(now: int, id: nat, expired: bool, ready: bool, receive: Claim, initial: seq<Claim>) returns (ans: Answer)
      requires Valid()
      modifies peer, this`sessions, this`dials, this`pending, this`holds, this`handed, this`begun, this`issued
      ensures Valid() && Others() == old(Others()) && dials == old(dials)
      ensures ans == Done ==> sessions == old(sessions) || sessions == old(sessions)[id := Attempt(false, 0, 0, false)]
      ensures ans != Done ==> sessions == old(sessions) || sessions == old(sessions) - {id}
      ensures ans == ErrClosed <==> closed
      ensures !closed && id !in old(sessions) ==>
        && (ans == Done <==>
            ready && old(pending) + |preparations| < MAX_PENDING && HasRoom(old(peer.View()), receive, initial, deferred))
        && sessions == if ans == Done then old(sessions)[id := Attempt(false, 0, 0, false)] else old(sessions)
      ensures !closed && id in old(sessions) && (old(sessions)[id].established || old(sessions)[id].dial != 0 || !expired) ==>
        ans == Done && sessions == old(sessions)
    {
      hide Engine.Core, Engine.Others, GaveBack, HasRoom, Engine.GoesOn;
      if closed {
        return ErrClosed;
      }
      if id in sessions {
        if sessions[id].established || sessions[id].dial != 0 || !expired {
          return Done;
        }
        NoDialZero(this);
        FailAttempt(now, id);
      }
      ans := AcceptHello(id, ready, receive, initial);
    }

    method AcceptHello(id: nat, ready: bool, receive: Claim, initial: seq<Claim>) returns (ans: Answer)
      requires Core() && id !in sessions
      modifies peer, this`sessions, this`dials, this`pending, this`holds, this`handed, this`begun, this`issued
      ensures Core() && Others() == old(Others()) && dials == old(dials)
      ensures sessions == if ans == Done then old(sessions)[id := Attempt(false, 0, 0, false)] else old(sessions)
      ensures ans == Done <==>
        ready && old(pending) + |preparations| < MAX_PENDING && HasRoom(old(peer.View()), receive, initial, deferred)
      ensures ans != ErrClosed
    {
      hide Peer.Valid, Peer.View, Partition, Distinct, Foreign, Elements, Linked, GaveBack, HasRoom;
      ghost var t := Table();
      ListenerIsPlain(t, id);
      var a := Attempt(false, 0, 0, false);
      ans := Provide(id, a, receive, initial);
      if ans != Done {
        return;
      }
      if !ready {
        DisposeAttempt(id, a);
        StoragesIgnored(t, holds.Keys);
        return ErrEntropy;
      }
      Publish(id, a, t);
    }

    // An attempt whose installation fails is disposed of for good.
    method TryInstall(now: int, id: nat, verdict: Verdict) returns (ans: Answer)
      requires Valid() && id in sessions && !sessions[id].established
      modifies peer, this`sessions, this`dials, this`pending, this`holds, this`handed
      ensures Core() && Others() == old(Others()) && HolderOf(id, old(sessions)[id]) in old(holds)
      ensures var scope := old(holds)[HolderOf(id, old(sessions)[id])].Scope();
        scope in old(peer.sessions) && (ans == Done <==> verdict == Accepts && !old(peer.sessions)[scope].closed)
      ensures ans == Done ==>
        && dials == old(dials) && holds == old(holds) && handed == old(handed)
        && sessions == old(sessions)[id := old(sessions)[id].(disposer := deferred)]
      ensures ans != Done ==>
        && sessions == old(sessions) - {id} && dials.Keys <= old(dials).Keys
        && (old(sessions)[id].dial !in old(dials) ==> dials == old(dials))
        && handed == old(handed) + [old(holds)[HolderOf(id, old(sessions)[id])].Scope()]
        && old(holds)[HolderOf(id, old(sessions)[id])].Scope() in old(peer.sessions)
        && var open := !old(peer.sessions)[old(holds)[HolderOf(id, old(sessions)[id])].Scope()].closed;
          holds == Passed(old(holds), HolderOf(id, old(sessions)[id]),
                          old(sessions)[id].preparation != 0 || (deferred && open && verdict.Disposes()))
    {
      hide Engine.Core, Engine.Others, GaveBack, Passed;
      HolderExists(this, id);
      PreparedScope(this, id);
      ghost var were := sessions;
      ans := Install(id, verdict);
      if ans != Done {
        assert HolderOf(id, sessions[id]) == HolderOf(id, were[id]);
        FailAttempt(now, id);
        assert sessions == were - {id};
      }
    }

    // The attempt wins: its dial ends, its rivals fail and its packets go back.
    method Win(now: int, id: nat)
      requires Core() && id in sessions && !sessions[id].established && sessions[id].disposer == deferred
      modifies peer, this`sessions, this`dials, this`pending, this`holds, this`handed
      ensures Core() && Others() == old(Others()) && old(handed) <= handed && dials == old(dials) - {old(sessions)[id].dial}
      ensures id in sessions && sessions[id] == Attempt(true, old(sessions)[id].dial, 0, deferred)
      ensures forall x :: x in sessions ==> x in old(sessions) && (x != id ==> sessions[x] == old(sessions)[x])
      ensures old(sessions)[id].dial in old(dials) ==> OpenOf(sessions, old(sessions)[id].dial) == {}
    {
      hide Engine.Core, Engine.Others, GaveBack, Passed;
      var d := sessions[id].dial;
      var dialing := d in dials;
      Establish(id);
      if dialing {
        FailAll(now, OpenOf(sessions, d));
      }
      HolderExists(this, id);
      ReleasePackets(id);
    }

    // receiveFinish of a waiting attempt of the listener.
    method ReceiveFinish(now: int, id: nat, verdict: Verdict, draws: (nat, nat) -> Draw) returns (ans: Answer)
      requires Valid()
      modifies peer, this`sessions, this`dials, this`pending, this`holds, this`handed, this`begun, this`issued
      ensures Valid() && Others() == old(Others()) && old(handed) <= handed
      ensures !closed && id in old(sessions) && !old(sessions)[id].established && old(sessions)[id].dial == 0 ==>
        && HolderOf(id, old(sessions)[id]) in old(holds)
        && old(holds)[HolderOf(id, old(sessions)[id])].Scope() in old(peer.sessions)
        && (ans == Done <==>
            verdict == Accepts && !old(peer.sessions)[old(holds)[HolderOf(id, old(sessions)[id])].Scope()].closed)
        && (ans == Done ==> id in sessions && sessions[id] == Attempt(true, 0, 0, deferred))
        && (ans != Done ==> old(holds)[HolderOf(id, old(sessions)[id])].Scope() in handed)
    {
      hide Engine.Core, Engine.Others, Engine.GoesOn;
      if closed {
        return ErrClosed;
      }
      ans := Done;
      if id in sessions && !sessions[id].established && sessions[id].dial == 0 {
        ans := TryInstall(now, id, verdict);
        if ans == Done {
          Establish(id);
        } else {
          assert handed[|old(handed)|] == old(holds)[HolderOf(id, old(sessions)[id])].Scope();
        }
      }
      FillDials(now, draws);
    }

    // receiveReady of a waiting attempt of a dial.
    method ReceiveReady(now: int, id: nat, verdict: Verdict, draws: (nat, nat) -> Draw) returns (ans: Answer)
      requires Valid()
      modifies peer, this`sessions, this`dials, this`pending, this`holds, this`handed, this`begun, this`issued
      ensures Valid() && Others() == old(Others()) && old(handed) <= handed
      ensures !closed && id in old(sessions) && !old(sessions)[id].established && old(sessions)[id].dial != 0 ==>
        && HolderOf(id, old(sessions)[id]) in old(holds)
        && old(holds)[HolderOf(id, old(sessions)[id])].Scope() in old(peer.sessions)
        && (ans == Done <==>
            verdict == Accepts && !old(peer.sessions)[old(holds)[HolderOf(id, old(sessions)[id])].Scope()].closed)
        && (ans == Done ==>
            && id in sessions && sessions[id] == Attempt(true, old(sessions)[id].dial, 0, deferred)
            && old(sessions)[id].dial !in dials
            && (old(sessions)[id].dial in old(dials) ==> OpenOf(sessions, old(sessions)[id].dial) == {}))
        && (ans != Done ==> old(holds)[HolderOf(id, old(sessions)[id])].Scope() in handed)
    {
      hide Engine.Core, Engine.Others, Engine.GoesOn;
      if closed {
        return ErrClosed;
      }
      ans := Done;
      if id in sessions && !sessions[id].established && sessions[id].dial != 0 {
        ans := TryInstall(now, id, verdict);
        if ans == Done {
          Win(now, id);
        } else {
          assert handed[|old(handed)|] == old(holds)[HolderOf(id, old(sessions)[id])].Scope();
        }
      }
      FillDials(now, draws);
    }

    // What ends one attempt or Session: REJECT, CLOSE, a late packet, CloseSession.
    method End(now: int, id: nat, draws: (nat, nat) -> Draw) returns (ans: Answer)
      requires Valid()
      modifies peer, this`sessions, this`dials, this`pending, this`holds, this`handed, this`begun, this`issued
      ensures Valid() && Others() == old(Others()) && old(handed) <= handed && (ans == Done <==> !closed)
      ensures ans != Done ==> sessions == old(sessions) && dials == old(dials) && holds == old(holds)
      ensures ans == Done ==> Extended(old(sessions) - {id}, sessions, old(dials).Keys)
      ensures ans == Done && id in old(sessions) && !old(GoesOn(now, id)) ==>
        && HolderOf(id, old(sessions)[id]) in old(holds)
        && old(holds)[HolderOf(id, old(sessions)[id])].Scope() in handed
    {
      hide Engine.Core, Engine.Others, Engine.GoesOn, GaveBack, Passed;
      if closed {
        return ErrClosed;
      }
      if id in sessions {
        FailAttempt(now, id);
      } else {
        assert sessions == sessions - {id};
      }
      ghost var given := handed;
      FillDials(now, draws);
      assert forall s :: s in given ==> s in handed;
      ans := Done;
    }

    // What Advance ends: attempts and Sessions whose scope is closed, and unestablished
    // attempts that are due to expire.
    ghost predicate Ends(id: nat, due: set<nat>)
      reads this, peer
    {
      && id in sessions && HolderOf(id, sessions[id]) in holds
      && var s := holds[HolderOf(id, sessions[id])].Scope();
        s in peer.sessions && (peer.sessions[s].closed || (id in due && !sessions[id].established))
    }

    ghost function Ending(due: set<nat>): set<nat>
      reads this, peer
    {
      set id | id in sessions && Ends(id, due)
    }

    /** Advance ends exactly those; every other attempt and Session stays. */
    method Advance(now: int, due: set<nat>, draws: (nat, nat) -> Draw) returns (ans: Answer)
      requires Valid()
      modifies peer, this`sessions, this`dials, this`pending, this`holds, this`handed, this`begun, this`issued
      ensures Valid() && Others() == old(Others()) && old(handed) <= handed && (ans == Done <==> !closed)
      ensures ans != Done ==> sessions == old(sessions) && dials == old(dials) && holds == old(holds)
      ensures ans == Done ==> Extended(old(sessions) - old(Ending(due)), sessions, old(dials).Keys)
    {
      hide Engine.Core, Engine.Others, Engine.Ends, GaveBack, Passed, Engine.GoesOn;
      if closed {
        return ErrClosed;
      }
      var todo := sessions.Keys;
      ghost var ending := Ending(due);
      assert sessions == sessions - (ending - todo);
      while todo != {}
        invariant Core() && Others() == old(Others()) && todo <= sessions.Keys && dials.Keys <= old(dials).Keys
        invariant sessions == old(sessions) - (ending - todo) && old(handed) <= handed
        invariant forall id :: id in todo ==> (Ends(id, due) <==> id in ending)
        decreases todo
      {
        var id :| id in todo;
        Visit(now, id, due, todo);
        assert ending - (todo - {id}) == (ending - todo) + (if id in ending then {id} else {});
        todo := todo - {id};
      }
      FillDials(now, draws);
      ans := Done;
    }

    // One attempt of Advance.
    method Visit(now: int, id: nat, due: set<nat>, ghost todo: set<nat>)
      requires Core() && id in sessions && todo <= sessions.Keys
      modifies peer, this`sessions, this`dials, this`pending, this`holds, this`handed
      ensures Core() && Others() == old(Others()) && dials.Keys <= old(dials).Keys && old(handed) <= handed
      ensures sessions == old(sessions) - if old(Ends(id, due)) then {id} else {}
      ensures forall x :: x in todo && x != id ==> Ends(x, due) == old(Ends(x, due))
    {
      hide Engine.Core, Engine.Others, GaveBack, Passed, Engine.GoesOn, Peer.View, Shrunk;
      HolderExists(this, id);
      SessionsSeen(peer);
      var s := holds[HolderOf(id, sessions[id])].Scope();
      ghost var l, before, table := peer.View(), holds, sessions;
      assert forall x :: x in sessions && x != id ==> Untouched(this, id, x) by {
        forall x | x in sessions && x != id
          ensures Untouched(this, id, x)
        {
          HoldersApart(this, id, x);
        }
      }
      if peer.sessions[s].closed || (id in due && !sessions[id].established) {
        ghost var recycles := GoesOn(now, id);
        FailAttempt(now, id);
        if !recycles {
          ShrunkElsewhere(l, peer.View(), before[HolderOf(id, table[id])], table[id].Waits());
          PassedElsewhere(before, HolderOf(id, table[id]), table[id].Waits());
        }
      } else {
        if id in due {
          ReleasePackets(id);
          ScopesElsewhere(l, peer.View(), s, {before[ByAttempt(id)].r.packet});
        }
        assert sessions == sessions - {};
      }
      SessionsSeen(peer);
      forall x | x in todo && x != id
        ensures Ends(x, due) == old(Ends(x, due))
      {
        assert old(Untouched(this, id, x));
      }
    }

    method CancelDial(now: int, d: nat) returns (ans: Answer)
      requires Valid()
      modifies peer, this`sessions, this`dials, this`pending, this`holds, this`handed
      ensures Valid() && Others() == old(Others())
      ensures ans == Done <==> !closed
      ensures ans == Done && d in old(dials) ==> dials == old(dials) - {d} && sessions == old(sessions) - OpenOf(old(sessions), d)
      ensures ans != Done || d !in old(dials) ==> sessions == old(sessions) && dials == old(dials)
    {
      hide Engine.Others, GaveBack, Peer.Valid, Peer.View, Partition, Distinct, Foreign, Elements, Linked;
      if closed {
        return ErrClosed;
      }
      if d in dials {
        Forget({d});
        FailAll(now, OpenOf(sessions, d));
      }
      ans := Done;
    }

    method Forget(gone: set<nat>)
      requires Core() && forall d :: d in gone && d in dials ==> dials[d].running > 0
      modifies this`dials
      ensures Core() && Others() == old(Others()) && dials == old(dials) - gone
    {
      hide Peer.Valid, Peer.View, Partition, Distinct, Foreign, Elements, Linked;
      DialsCancelled(Table(), gone);
      dials := dials - gone;
    }

    /** Close: every attempt and preparation ends, and only storages that wait for
        their release function still hold anything. */
    method Close(now: int)
      requires Valid()
      modifies peer, this
      ensures Valid() && Others() == old(Others()) && closed && begun == old(begun) && issued == old(issued) && pending == 0
      ensures forall a :: a in holds ==> a.ByStorage?
      ensures !deferred ==> holds == map[]
      ensures old(closed) ==> holds == old(holds) && handed == old(handed) && peer.View() == old(peer.View())
    {
      hide Peer.Valid, Peer.View, Partition, Distinct, Foreign, Elements, Linked;
      if !closed {
        closed := true;
        while preparations != {}
          invariant Core() && Others() == old(Others()) && dials == old(dials) && sessions == old(sessions) && closed
          invariant begun == old(begun) && issued == old(issued)
          decreases preparations
        {
          var p :| p in preparations;
          GiveUp(p, Aborted);
        }
        Forget(dials.Keys);
        assert dials == map[];
        FailAll(now, sessions.Keys);
        assert sessions == map[];
      }
      NoneWaits(this);
      OnlyStorages(Table());
      assert !deferred ==> holds.Keys == {};
    }

    /** Close, and then every disposer calls its release function: nothing that the
        engine has ever reserved is leased any more, and its scopes have retired unless
        a Session still has something of its own there. */
    method Drain(now: int)
      requires Valid()
      modifies peer, this
      ensures Valid() && closed && holds == map[] && pending == 0 && Others() == old(Others()) == peer.leases
      ensures begun == old(begun) && issued == old(issued)
      ensures forall s :: s in begun ==>
        s in handed && s in peer.sessions && peer.sessions[s].closed && (peer.sessions[s].retired <==> Unowned(peer.View(), s))
    {
      hide Engine.Others, Peer.View, Peer.Valid, Partition, Distinct, Linked, Unowned;
      Close(now);
      while holds != map[]
        invariant Valid() && closed && Others() == old(Others()) && begun == old(begun) && issued == old(issued)
        invariant forall a :: a in holds ==> a.ByStorage?
        decreases holds.Keys
      {
        assert holds.Keys != {};
        var a :| a in holds.Keys;
        ReleaseStorage(a.scope);
      }
      ClosedIsDrained(this);
    }
  }

  // What a release function does at the ledger.
  method ReturnStorage(peer: Peer, x: Held, ghost begun: set<Handle>, ghost issued: set<Handle>, ghost given: set<Handle>)
    requires peer.Valid() && Sound(peer.View(), ByStorage(x.Scope()), x, begun, issued, given)
    modifies peer
    ensures peer.Valid() && Shrunk(old(peer.View()), peer.View(), x.Scope(), x.Leases())
    ensures Cleared(peer.View(), x.Scope(), issued) && x.Scope() in peer.sessions
    ensures peer.sessions[x.Scope()].retired <==> Unowned(peer.View(), x.Scope())
  {
    hide Peer.Valid, Shrunk, Inv, Resolved, Sound, Held.Leases, Reserved.Leases, Cleared, Unowned;
    var s := x.Scope();
    ghost var l := peer.View();
    StorageOwns(l, ByStorage(s), x, begun, issued, given);
    NothingGone(l, s);
    ReleaseAll(peer, x.r.initial, s, l, {});
    ReleaseOne(peer, x.r.receive, s, l, {} + Elements(x.r.initial));
    ReleaseOne(peer, x.extra, s, l, {} + Elements(x.r.initial) + {x.r.receive});
    ReleaseOne(peer, x.r.metadata, s, l, {} + Elements(x.r.initial) + {x.r.receive} + {x.extra});
    StorageEmpty(peer, l, x, begun, issued, given);
  }

  lemma LimitsSeen(peer: Peer)
    ensures peer.View().limits == peer.limits
  {
  }

  // A refused reservation leaves no more room than there was.
  lemma StillNoRoom(l: Ledger, peer: Peer, receive: Claim, initial: seq<Claim>, deferred: bool)
    requires SameCredits(l, peer.View()) && l.limits == peer.limits && Resolved(l)
    ensures HasRoom(peer.View(), receive, initial, deferred) <==> HasRoom(l, receive, initial, deferred)
  {
    hide HasRoom, SameCredits;
    LimitsSeen(peer);
    SameRoom(l, peer.View(), receive, initial, deferred);
  }

  lemma DialsRun(e: Engine)
    requires e.Core()
    ensures forall d :: d in e.dials ==> e.dials[d].running >= 0 && e.dials[d].concurrent > 0
  {
    hide Linked, Partition, Peer.Valid;
    RunningIsCount(e.Table());
  }

  // The preparation p is a holder for its own scope.
  lemma PreparationScope(e: Engine, p: Handle)
    requires e.Accounted()
    ensures ByPreparation(p) in e.holds ==> e.holds[ByPreparation(p)].Scope() == p && p in e.peer.sessions
  {
    hide Reachable, Peer.Valid;
  }

  lemma HolderExists(e: Engine, id: nat)
    requires e.Core() && id in e.sessions
    ensures HolderOf(id, e.sessions[id]) in e.holds && (e.sessions[id].established ==> e.sessions[id].preparation == 0)
    ensures e.holds[HolderOf(id, e.sessions[id])].Scope() in e.peer.sessions
  {
    hide Peer.Valid, Linked, Sound;
    AttemptHolds(e.Table(), id);
    var a := HolderOf(id, e.sessions[id]);
    PartitionSound(e.peer.View(), e.holds, e.begun, e.issued, Elements(e.handed), a);
    ScopeKnown(e.peer.View(), a, e.holds[a], e.begun, e.issued, Elements(e.handed));
  }

  // A synchronous installer leaves nothing that waits.
  lemma NoDisposers(e: Engine, id: nat)
    requires e.Core() && id in e.sessions
    ensures e.sessions[id].Waits() ==> e.deferred
  {
    hide Peer.Valid, Partition, AttemptTables.Counted, DialsLinked, PhasesLinked;
    assert AttemptLinked(e.Table(), e.sessions[id]);
  }

  // The holder of x is another one than that of id and has another scope.
  ghost predicate Untouched(e: Engine, id: nat, x: nat)
    reads e
  {
    && id in e.sessions && x in e.sessions && HolderOf(id, e.sessions[id]) in e.holds && HolderOf(x, e.sessions[x]) in e.holds
    && HolderOf(x, e.sessions[x]) != HolderOf(id, e.sessions[id]) && !HolderOf(x, e.sessions[x]).ByStorage?
    && e.holds[HolderOf(x, e.sessions[x])].Scope() != e.holds[HolderOf(id, e.sessions[id])].Scope()
  }

  lemma HoldersApart(e: Engine, id: nat, x: nat)
    requires e.Core() && id in e.sessions && x in e.sessions && x != id
    ensures Untouched(e, id, x)
  {
    hide Peer.Valid, Linked, Sound, Reachable;
    AttemptHolds(e.Table(), id);
    AttemptHolds(e.Table(), x);
    RunsApart(e.Table(), id, x);
  }

  lemma RunsApart(t: Tables, id: nat, x: nat)
    requires Linked(t) && id in t.sessions && x in t.sessions && x != id
    ensures HolderOf(id, t.sessions[id]) != HolderOf(x, t.sessions[x])
  {
    hide AttemptTables.Counted, DialsLinked, PhasesLinked;
  }

  lemma ScopesElsewhere(l: Ledger, n: Ledger, s: Handle, gone: set<Handle>)
    requires Shrunk(l, n, s, gone)
    ensures n.sessions.Keys == l.sessions.Keys && forall x :: x in l.sessions && x != s ==> n.sessions[x] == l.sessions[x]
  {
  }

  lemma ShrunkElsewhere(l: Ledger, n: Ledger, x: Held, waits: bool)
    requires GaveBack(l, n, x, waits)
    ensures n.sessions.Keys == l.sessions.Keys && forall y :: y in l.sessions && y != x.Scope() ==> n.sessions[y] == l.sessions[y]
  {
  }

  lemma PassedElsewhere(m: map<Holder, Held>, a: Holder, waits: bool)
    requires a in m
    ensures forall b :: b in m && b != a && !b.ByStorage? ==> b in Passed(m, a, waits) && Passed(m, a, waits)[b] == m[b]
  {
  }

  lemma SessionsSeen(peer: Peer)
    ensures peer.View().sessions == peer.sessions
  {
  }

  lemma NoneWaits(e: Engine)
    requires e.Core() && e.preparations == {}
    ensures forall p :: p in e.prepared ==> e.prepared[p] != Waiting
  {
    hide Peer.Valid, Linked, Partition;
    assert forall p :: p in e.prepared && e.prepared[p] == Waiting ==> p in e.preparations;
  }

  /** In every reachable engine each live lease that it reserved is in the hands of
      exactly one holder: an attempt in the table, a preparation that waits or carries
      an attempt in the table, or a storage that was handed to its disposer; and each
      scope is handed over at most once, namely when its holder is done with it. */
  lemma NothingLeaks(e: Engine)
    requires e.Valid()
    ensures forall h :: h in e.peer.leases && h in e.issued ==>
      exists a :: a in e.holds && e.holds[a].Scope() == e.peer.leases[h].owner && h in e.holds[a].Leases()
    ensures forall a, b :: a in e.holds && b in e.holds && a != b ==>
      forall h :: h in e.peer.leases ==> !(h in e.holds[a].Leases() && h in e.holds[b].Leases())
    ensures forall a :: a in e.holds ==> InUse(e, a) && e.holds[a].Leases() <= e.issued
    ensures Distinct(e.handed)
    ensures forall s :: s in e.begun ==>
      (s in e.handed <==> forall a :: a in e.holds && e.holds[a].Scope() == s ==> a.ByStorage?)
  {
    hide Peer.Valid, Linked, Partition;
    EachIsReachable(e);
    forall a | a in e.holds
      ensures InUse(e, a) && e.holds[a].Leases() <= e.issued
    {
      HolderInUse(e, a);
      PartitionSound(e.peer.View(), e.holds, e.begun, e.issued, Elements(e.handed), a);
    }
    HandedIffStorage(e);
  }

  // What the engine can get at the holder by.
  ghost predicate InUse(e: Engine, a: Holder)
    reads e
  {
    match a
    case ByAttempt(id) => id in e.sessions
    case ByPreparation(p) => p in e.preparations || exists id :: id in e.sessions && e.sessions[id].preparation == p
    case ByStorage(s) => s in e.handed
  }

  lemma EachIsReachable(e: Engine)
    requires e.Valid()
    ensures forall h :: h in e.peer.leases && h in e.issued ==>
      exists a :: a in e.holds && e.holds[a].Scope() == e.peer.leases[h].owner && h in e.holds[a].Leases()
    ensures forall a, b :: a in e.holds && b in e.holds && a != b ==>
      forall h :: h in e.peer.leases ==> !(h in e.holds[a].Leases() && h in e.holds[b].Leases())
  {
    hide Peer.Valid, Linked, Held.Leases;
    forall h | h in e.peer.leases && h in e.issued
      ensures exists a :: a in e.holds && e.holds[a].Scope() == e.peer.leases[h].owner && h in e.holds[a].Leases()
    {
      var s := e.peer.leases[h].owner;
      assert Reachable(e.peer.View(), e.holds, s, e.issued, Elements(e.handed));
      var a :| a in e.holds && e.holds[a].Scope() == s;
      assert Sound(e.peer.View(), a, e.holds[a], e.begun, e.issued, Elements(e.handed));
    }
    forall a, b, h | a in e.holds && b in e.holds && a != b && h in e.peer.leases
      ensures !(h in e.holds[a].Leases() && h in e.holds[b].Leases())
    {
      assert Sound(e.peer.View(), a, e.holds[a], e.begun, e.issued, Elements(e.handed));
      assert Sound(e.peer.View(), b, e.holds[b], e.begun, e.issued, Elements(e.handed));
    }
  }

  lemma HolderInUse(e: Engine, a: Holder)
    requires e.Valid() && a in e.holds
    ensures InUse(e, a)
  {
    hide Peer.Valid, AttemptTables.Counted;
    PartitionSound(e.peer.View(), e.holds, e.begun, e.issued, Elements(e.handed), a);
    hide Partition;
    var t := e.Table();
    if a.ByPreparation? && a.scope !in e.preparations {
      assert PhaseLinked(t, a.scope);
      if RunsOf(t.sessions, a.scope) == {} {
        DialCarries(t, t.prepared[a.scope].dial);
      }
      var id :| id in RunsOf(t.sessions, a.scope);
    }
  }

  lemma HandedIffStorage(e: Engine)
    requires e.Valid()
    ensures Distinct(e.handed)
    ensures forall s :: s in e.begun ==>
      (s in e.handed <==> forall a :: a in e.holds && e.holds[a].Scope() == s ==> a.ByStorage?)
  {
    hide Peer.Valid, Linked, Held.Leases;
    forall s | s in e.begun
      ensures s in e.handed <==> forall a :: a in e.holds && e.holds[a].Scope() == s ==> a.ByStorage?
    {
      assert Reachable(e.peer.View(), e.holds, s, e.issued, Elements(e.handed));
      assert forall a :: a in e.holds ==> Sound(e.peer.View(), a, e.holds[a], e.begun, e.issued, Elements(e.handed));
    }
  }

  /** Once a closed engine's disposers have all run, no lease that it ever reserved is
      left and every scope it began is handed over and closed; each has retired as soon
      as its Session has nothing there either. What is in use at the ledger is in use
      by others. */
  lemma ClosedIsDrained(e: Engine)
    requires e.Valid() && e.closed && forall s :: ByStorage(s) !in e.holds
    ensures e.pending == 0 && e.holds == map[] && e.Others() == e.peer.leases
    ensures forall s :: s in e.begun ==>
      && s in e.handed && s in e.peer.sessions && e.peer.sessions[s].closed
      && (e.peer.sessions[s].retired <==> Unowned(e.peer.View(), s))
      && e.peer.sessions[s].usage == Shares(e.Others())(s)
    ensures e.peer.usage == Total(e.Others())
  {
    hide Peer.Valid, Linked, Inv, Shares, Partition, Peer.View, Distinct, Unowned;
    LedgerIsSound(e.peer);
    LeasesSeen(e.peer);
    NoneWaits(e);
    OnlyStorages(e.Table());
    assert e.holds.Keys == {};
    UnheldIsCleared(e.peer.View(), e.holds, e.begun, e.issued, Elements(e.handed));
    forall s | s in e.begun
      ensures e.peer.sessions[s].retired <==> Unowned(e.peer.View(), s)
      ensures e.peer.sessions[s].usage == Shares(e.peer.leases)(s)
    {
      ClosedRetires(e.peer.View(), s);
      UsageIsShare(e.peer.View(), s);
    }
    UsageIsTotal(e.peer.View());
  }

  lemma UsageIsShare(l: Ledger, s: Handle)
    requires Inv(l) && s in l.sessions
    ensures l.sessions[s].usage == Shares(l.leases)(s)
  {
    hide Total, Bounded, Slots, Handles, Shares, Settled;
    assert CreditLedger.Counted(l, s, Shares(l.leases));
  }

  /** Ordinary attempts, the listener's among them, and waiting preparations never exceed
      the limit together; each preparation that carries an attempt adds at most one. */
  lemma PendingIsLimited(e: Engine)
    requires e.Valid()
    ensures |OpenIds(e.sessions)| + |e.preparations| <= MAX_PENDING + |Carried(e.sessions)|
    ensures Carried(e.sessions) <= OpenIds(e.sessions) && |OpenIds(e.sessions) - Carried(e.sessions)| + |e.preparations| <= MAX_PENDING
  {
    hide Peer.Valid, Partition, DialsLinked, PhasesLinked, OpenOf, Distinct;
    PendingCounts(e.Table());
    CarriedAreOpen(e.Table());
    assert OpenIds(e.sessions) == (OpenIds(e.sessions) - Carried(e.sessions)) + Carried(e.sessions);
  }

  lemma CarriedAreOpen(t: Tables)
    requires Linked(t)
    ensures Carried(t.sessions) <= OpenIds(t.sessions)
  {
    hide AttemptTables.Counted, DialsLinked, PhasesLinked;
    assert forall id :: id in t.sessions ==> AttemptLinked(t, t.sessions[id]);
  }

  lemma NoDialZero(e: Engine)
    requires e.Core()
    ensures 0 !in e.dials
  {
    hide Peer.Valid, Partition, AttemptTables.Counted, AttemptsLinked, PhasesLinked;
    DialsAreNumbered(e.Table());
  }

  lemma PreparedScope(e: Engine, id: nat)
    requires e.Core() && id in e.sessions && HolderOf(id, e.sessions[id]) in e.holds
    ensures e.sessions[id].preparation != 0 ==> e.holds[HolderOf(id, e.sessions[id])].Scope() == e.sessions[id].preparation
  {
    hide Linked, Peer.Valid, Partition;
    PreparationScope(e, e.sessions[id].preparation);
  }

  /** Between two calls others may use the ledger: the engine stays valid. */
  twostate lemma ElsewhereKeeps(e: Engine, op: Op)
    requires old(e.Valid()) && unchanged(e) && e.peer.Valid() && Elsewhere(op, e.issued)
    requires e.peer.View() == Apply(old(e.peer.View()), op)
    ensures e.Valid()
  {
    hide Peer.Valid, Partition, Linked, Inv, Resolved, Apply, Elsewhere;
    LedgerWasSound(e);
    OthersKeep(old(e.peer.View()), op, e.holds, e.begun, e.issued, Elements(e.handed));
  }

  twostate lemma LedgerWasSound(e: Engine)
    requires old(e.peer.Valid())
    ensures Inv(old(e.peer.View())) && Resolved(old(e.peer.View()))
  {
    hide Inv, Run;
    Conservation(e.peer.limits, old(e.peer.ops));
  }
}
