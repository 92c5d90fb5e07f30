// internal/handshakev2: which part of the engine answers for which leases of the
// credit ledger, and what the ledger's operations do to that.
module CreditHolders {
  import opened CreditLedger
  import opened HandshakeCredits
  import Words

  // Who must see to it that credits are given back: an attempt in the table, a
  // preparation or the dial that adopted it, or a retired storage whose release
  // function its disposer has. A preparation and a storage are named by their scope.
  datatype Holder = ByAttempt(id: nat) | ByPreparation(scope: Handle) | ByStorage(scope: Handle)

  // The record of a preparation is one lease more than an attempt has; 0 is nil.
  datatype Held = Held(r: Reserved, extra: Handle) {
    function Scope(): Handle {
      r.scope
    }

    function Leases(): set<Handle> {
      r.Leases() + {extra}
    }
  }

  // ---------------------------------------------------------------------------
  // The ledger seen from the engine

  // `issued` are the leases that the engine has reserved, 0 for nil among them; x holds
  // exactly those of its scope that are live. The Session installed on the scope may
  // have leases of its own there.
  ghost predicate Sound(l: Ledger, a: Holder, x: Held, begun: set<Handle>, issued: set<Handle>, handed: set<Handle>) {
    && x.Scope() in begun && x.Scope() in l.sessions && (a.ByStorage? <==> x.Scope() in handed)
    && (!a.ByAttempt? ==> a.scope == x.Scope())
    && (a.ByStorage? ==> l.sessions[x.Scope()].closed && x.r.packet !in l.leases)
    && x.Leases() <= issued
    && (forall h :: h in l.leases && h in issued ==> (l.leases[h].owner == x.Scope() <==> h in x.Leases()))
  }

  // A scope was handed over and nothing reserved for it is left, or somebody holds it.
  ghost predicate Reachable(l: Ledger, holds: map<Holder, Held>, s: Handle, issued: set<Handle>, handed: set<Handle>) {
    || (s in handed && Cleared(l, s, issued))
    || exists a :: a in holds && holds[a].Scope() == s
  }

  ghost predicate Cleared(l: Ledger, s: Handle, issued: set<Handle>) {
    s in l.sessions && l.sessions[s].closed && forall h :: h in l.leases && h in issued ==> l.leases[h].owner != s
  }

  // Every scope the engine has begun has one holder or is over.
  ghost predicate Partition(l: Ledger, holds: map<Holder, Held>, begun: set<Handle>, issued: set<Handle>, handed: set<Handle>) {
    && begun <= l.sessions.Keys && handed <= begun && (forall h :: h in issued ==> h < l.next)
    && (forall h :: h in l.leases && h in issued ==> l.leases[h].owner in begun)
    && (forall a :: a in holds ==> Sound(l, a, holds[a], begun, issued, handed))
    && (forall a, b :: a in holds && b in holds && a != b ==> holds[a].Scope() != holds[b].Scope())
    && (forall s :: s in begun ==> Reachable(l, holds, s, issued, handed))
  }

  // The leases of everybody else.
  function Foreign(m: map<Handle, LeaseState>, issued: set<Handle>): map<Handle, LeaseState> {
    m - issued
  }

  // From l to n no scope in begun reopened, and what is left of the leases in issued
  // stayed where it was.
  ghost predicate Loosened(l: Ledger, n: Ledger, begun: set<Handle>, issued: set<Handle>) {
    && l.sessions.Keys <= n.sessions.Keys && l.next <= n.next
    && (forall s :: s in begun && s in l.sessions && l.sessions[s].closed ==> n.sessions[s].closed)
    && (forall h :: h in n.leases && h in issued ==> h in l.leases && l.leases[h].owner == n.leases[h].owner)
  }

  lemma LoosenedStays(l: Ledger, n: Ledger, holds: map<Holder, Held>, begun: set<Handle>, issued: set<Handle>, handed: set<Handle>)
    requires Partition(l, holds, begun, issued, handed) && Loosened(l, n, begun, issued)
    ensures Partition(n, holds, begun, issued, handed)
  {
    hide *;
    SoundStays(l, n, holds, begun, issued, handed);
    ReachStays(l, n, holds, begun, issued, handed);
    PartitionFrom(l, n, holds, begun, issued, handed);
  }

  lemma SoundStays(l: Ledger, n: Ledger, holds: map<Holder, Held>, begun: set<Handle>, issued: set<Handle>, handed: set<Handle>)
    requires Partition(l, holds, begun, issued, handed) && Loosened(l, n, begun, issued)
    ensures forall a :: a in holds ==> Sound(n, a, holds[a], begun, issued, handed)
  {
    hide Partition, Reachable, Held.Leases, Loosened;
    forall a | a in holds
      ensures Sound(n, a, holds[a], begun, issued, handed)
    {
      PartitionSound(l, holds, begun, issued, handed, a);
      OneStays(l, n, a, holds[a], begun, issued, handed);
    }
  }

  lemma PartitionSound(l: Ledger, holds: map<Holder, Held>, begun: set<Handle>, issued: set<Handle>, handed: set<Handle>, a: Holder)
    requires Partition(l, holds, begun, issued, handed) && a in holds
    ensures Sound(l, a, holds[a], begun, issued, handed)
  {
  }

  lemma OneStays(l: Ledger, n: Ledger, a: Holder, x: Held, begun: set<Handle>, issued: set<Handle>, handed: set<Handle>)
    requires Sound(l, a, x, begun, issued, handed) && Loosened(l, n, begun, issued)
    ensures Sound(n, a, x, begun, issued, handed)
  {
    hide Held.Leases;
    assert x.r.packet in x.Leases() by {
      LeasesAre(x);
    }
  }

  lemma LeasesAre(x: Held)
    ensures x.Leases() == Elements(x.r.initial) + {x.r.receive, x.r.packet, x.r.metadata, x.extra}
  {
  }

  lemma ReachStays(l: Ledger, n: Ledger, holds: map<Holder, Held>, begun: set<Handle>, issued: set<Handle>, handed: set<Handle>)
    requires Partition(l, holds, begun, issued, handed) && Loosened(l, n, begun, issued)
    ensures forall s :: s in begun ==> Reachable(n, holds, s, issued, handed)
  {
    hide Sound;
  }

  lemma PartitionFrom(l: Ledger, n: Ledger, holds: map<Holder, Held>, begun: set<Handle>, issued: set<Handle>, handed: set<Handle>)
    requires Partition(l, holds, begun, issued, handed) && Loosened(l, n, begun, issued)
    requires forall a :: a in holds ==> Sound(n, a, holds[a], begun, issued, handed)
    requires forall s :: s in begun ==> Reachable(n, holds, s, issued, handed)
    ensures Partition(n, holds, begun, issued, handed)
  {
    hide Sound, Reachable;
  }

  // ---------------------------------------------------------------------------
  // What the engine does to the ledger

  lemma ShrunkLoosens(
    l: Ledger, n: Ledger, holds: map<Holder, Held>, begun: set<Handle>, issued: set<Handle>, handed: set<Handle>, a: Holder, gone: set<Handle>)
    requires Partition(l, holds, begun, issued, handed) && a in holds && gone <= holds[a].Leases()
    requires Shrunk(l, n, holds[a].Scope(), gone)
    ensures Loosened(l, n, begun, issued) && Foreign(n.leases, issued) == Foreign(l.leases, issued)
  {
    hide Partition, Reachable, Held.Leases;
    PartitionSound(l, holds, begun, issued, handed, a);
  }

  lemma SameCreditsLoosens(l: Ledger, n: Ledger, begun: set<Handle>, issued: set<Handle>)
    requires SameCredits(l, n) && begun <= l.sessions.Keys
    ensures Loosened(l, n, begun, issued) && Foreign(n.leases, issued) == Foreign(l.leases, issued)
  {
  }

  lemma PromoteLoosens(l: Ledger, s: Handle, begun: set<Handle>, issued: set<Handle>)
    ensures Loosened(l, l.Promote(s), begun, issued) && Foreign(l.Promote(s).leases, issued) == Foreign(l.leases, issued)
  {
  }

  // A new scope and its holder.
  lemma GrownAdds(
    l: Ledger, n: Ledger, holds: map<Holder, Held>, begun: set<Handle>, issued: set<Handle>, handed: set<Handle>, a: Holder, x: Held)
    requires Partition(l, holds, begun, issued, handed) && Resolved(l) && 0 !in n.leases && 0 in issued
    requires Grown(l, n, x.Scope(), x.Leases() - {0}) && a !in holds
    requires !a.ByStorage? && (a.ByPreparation? ==> a.scope == x.Scope())
    ensures Partition(n, holds[a := x], begun + {x.Scope()}, issued + x.Leases(), handed)
    ensures Foreign(n.leases, issued + x.Leases()) == Foreign(l.leases, issued) && x.Scope() !in begun
  {
    hide Reachable, Held.Leases, Partition, Sound;
    BegunKnown(l, holds, begun, issued, handed);
    GrownLoosens(l, n, begun, issued, x);
    LoosenedStays(l, n, holds, begun, issued, handed);
    IssuesMore(n, holds, begun, issued, handed, x);
    NewIsSound(l, n, a, x, begun, issued, handed);
    Joins(n, holds, begun, issued + x.Leases(), handed, a, x);
  }

  lemma GrownLoosens(l: Ledger, n: Ledger, begun: set<Handle>, issued: set<Handle>, x: Held)
    requires Resolved(l) && Grown(l, n, x.Scope(), x.Leases() - {0}) && begun <= l.sessions.Keys
    requires 0 !in n.leases && 0 in issued && forall h :: h in issued ==> h < l.next
    ensures Loosened(l, n, begun, issued) && x.Scope() !in begun
    ensures Foreign(n.leases, issued + x.Leases()) == Foreign(l.leases, issued)
    ensures forall h :: h in x.Leases() ==> h < n.next && (h in n.leases ==> h !in issued && n.leases[h].owner == x.Scope())
  {
    hide Held.Leases;
    assert forall h :: h in x.Leases() ==> h == 0 || h in x.Leases() - {0};
  }

  lemma BegunKnown(l: Ledger, holds: map<Holder, Held>, begun: set<Handle>, issued: set<Handle>, handed: set<Handle>)
    requires Partition(l, holds, begun, issued, handed)
    ensures begun <= l.sessions.Keys && handed <= begun && forall h :: h in issued ==> h < l.next
    ensures forall h :: h in l.leases && h in issued ==> l.leases[h].owner in begun
  {
  }

  // The leases of a scope that nobody holds yet.
  lemma IssuesMore(l: Ledger, holds: map<Holder, Held>, begun: set<Handle>, issued: set<Handle>, handed: set<Handle>, x: Held)
    requires Partition(l, holds, begun, issued, handed) && x.Scope() !in begun
    requires forall h :: h in x.Leases() ==> h < l.next && (h in l.leases ==> l.leases[h].owner == x.Scope())
    ensures forall a :: a in holds ==>
      Sound(l, a, holds[a], begun + {x.Scope()}, issued + x.Leases(), handed) && holds[a].Scope() in begun
    ensures Settles(l, holds, begun, issued + x.Leases(), handed)
  {
    hide Held.Leases;
    forall a | a in holds
      ensures Sound(l, a, holds[a], begun + {x.Scope()}, issued + x.Leases(), handed)
    {
      assert Sound(l, a, holds[a], begun, issued, handed);
    }
    forall s | s in begun
      ensures Reachable(l, holds, s, issued + x.Leases(), handed)
    {
      assert Reachable(l, holds, s, issued, handed);
    }
  }

  // The part of Partition that concerns each scope.
  ghost predicate Settles(l: Ledger, holds: map<Holder, Held>, begun: set<Handle>, issued: set<Handle>, handed: set<Handle>) {
    && begun <= l.sessions.Keys && handed <= begun && (forall h :: h in issued ==> h < l.next)
    && (forall s :: s in begun ==> Reachable(l, holds, s, issued, handed))
    && (forall a, b :: a in holds && b in holds && a != b ==> holds[a].Scope() != holds[b].Scope())
  }

  lemma NewIsSound(l: Ledger, n: Ledger, a: Holder, x: Held, begun: set<Handle>, issued: set<Handle>, handed: set<Handle>)
    requires Resolved(l) && 0 !in n.leases && x.Scope() !in handed
    requires forall h :: h in l.leases && h in issued ==> l.leases[h].owner in begun
    requires x.Scope() !in begun && begun <= l.sessions.Keys && forall h :: h in issued ==> h < l.next
    requires Grown(l, n, x.Scope(), x.Leases() - {0})
    requires !a.ByStorage? && (a.ByPreparation? ==> a.scope == x.Scope())
    ensures Sound(n, a, x, begun + {x.Scope()}, issued + x.Leases(), handed)
    ensures forall h :: h in n.leases && h in issued + x.Leases() ==> n.leases[h].owner in begun + {x.Scope()}
  {
    hide Held.Leases;
    var mine := x.Leases() - {0};
    assert forall h :: h in x.Leases() ==> h == 0 || h in mine;
    assert forall h :: h in n.leases ==> h in l.leases || h in mine;
  }

  lemma Joins(
    l: Ledger, holds: map<Holder, Held>, begun: set<Handle>, issued: set<Handle>, handed: set<Handle>, a: Holder, x: Held)
    requires Settles(l, holds, begun, issued, handed) && a !in holds && x.Scope() !in begun
    requires forall b :: b in holds ==> Sound(l, b, holds[b], begun + {x.Scope()}, issued, handed) && holds[b].Scope() in begun
    requires forall h :: h in l.leases && h in issued ==> l.leases[h].owner in begun + {x.Scope()}
    requires Sound(l, a, x, begun + {x.Scope()}, issued, handed)
    ensures Partition(l, holds[a := x], begun + {x.Scope()}, issued, handed)
  {
    hide Held.Leases, Cleared;
    var more := holds[a := x];
    forall s | s in begun + {x.Scope()}
      ensures Reachable(l, more, s, issued, handed)
    {
      if s == x.Scope() {
        assert more[a].Scope() == s;
      } else if !(s in handed && Cleared(l, s, issued)) {
        assert Reachable(l, holds, s, issued, handed);
        var b :| b in holds && holds[b].Scope() == s;
        assert more[b].Scope() == s;
      }
    }
  }

  // The holder of a scope changes.
  lemma Moves(
    l: Ledger, holds: map<Holder, Held>, begun: set<Handle>, issued: set<Handle>, handed: set<Handle>, a: Holder, b: Holder)
    requires Partition(l, holds, begun, issued, handed) && a in holds && b !in holds && !a.ByStorage?
    requires !b.ByAttempt? ==> b.scope == holds[a].Scope()
    requires b.ByStorage? ==> l.sessions[holds[a].Scope()].closed && holds[a].r.packet !in l.leases
    ensures var late := if b.ByStorage? then handed + {holds[a].Scope()} else handed;
      Partition(l, (holds - {a})[b := holds[a]], begun, issued, late)
  {
    hide Held.Leases;
    var late := if b.ByStorage? then handed + {holds[a].Scope()} else handed;
    var more := (holds - {a})[b := holds[a]];
    forall s | s in begun
      ensures Reachable(l, more, s, issued, late)
    {
      if !(s in handed && Cleared(l, s, issued)) {
        assert Reachable(l, holds, s, issued, handed);
        var c :| c in holds && holds[c].Scope() == s;
        assert more[if c == a then b else c].Scope() == s;
      }
    }
  }

  // A storage has given everything back.
  lemma Drops(l: Ledger, holds: map<Holder, Held>, begun: set<Handle>, issued: set<Handle>, handed: set<Handle>, a: Holder)
    requires Partition(l, holds, begun, issued, handed) && a in holds && a.ByStorage? && Cleared(l, a.scope, issued)
    ensures Partition(l, holds - {a}, begun, issued, handed)
  {
    hide Held.Leases;
    forall s | s in begun
      ensures Reachable(l, holds - {a}, s, issued, handed)
    {
      if !(s in handed && Cleared(l, s, issued)) {
        assert Reachable(l, holds, s, issued, handed);
        var c :| c in holds && holds[c].Scope() == s;
        assert c != a && (holds - {a})[c].Scope() == s;
      }
    }
  }

  // ---------------------------------------------------------------------------
  // What others do to the ledger

  // Others use the ledger as they like. An installed Session reserves on its scope and
  // moves its own leases; only the leases that the engine reserved are not to be moved,
  // because the engine keeps its copies.
  predicate Elsewhere(op: Op, issued: set<Handle>) {
    op.TransferOp? ==> op.l !in issued
  }

  /** Whatever others do to the ledger, closing scopes of the engine, reserving on them
      and releasing, shrinking or binding its leases included, the engine still answers
      for exactly the leases it reserved. */
  lemma OthersKeep(
    l: Ledger, op: Op, holds: map<Holder, Held>, begun: set<Handle>, issued: set<Handle>, handed: set<Handle>)
    requires Inv(l) && Resolved(l) && Partition(l, holds, begun, issued, handed) && Elsewhere(op, issued)
    ensures Partition(Apply(l, op), holds, begun, issued, handed)
  {
    hide *;
    BegunKnown(l, holds, begun, issued, handed);
    OthersLoosen(l, op, begun, issued);
    LoosenedStays(l, Apply(l, op), holds, begun, issued, handed);
  }

  lemma OthersLoosen(l: Ledger, op: Op, begun: set<Handle>, issued: set<Handle>)
    requires Inv(l) && Resolved(l) && begun <= l.sessions.Keys && Elsewhere(op, issued)
    requires forall h :: h in issued ==> h < l.next
    ensures Loosened(l, Apply(l, op), begun, issued)
  {
    hide Inv, Resolved, Loosened, Ledger.CloseAll, Ledger.ClosePeer, Ledger.Begin, Ledger.Promote, Ledger.Reserve,
      Ledger.Bind, Ledger.Transfer, Ledger.Accept, Ledger.Shrink, Ledger.Release, Ledger.CloseSession;
    match op {
      case TransferOp(h, target) => TransferLoosens(l, h, target, begun, issued);
      case ReleaseOp(h) => ReleaseLoosens(l, h, begun, issued);
      case BeginOp(initial, pending) => BeginLoosens(l, initial, pending, begun, issued);
      case ReserveOp(s, claim) => ReserveLoosens(l, s, claim, begun, issued);
      case PromoteOp(s) => PromoteLoosens(l, s, begun, issued);
      case BindOp(s, h, required) => BindLoosens(l, s, h, required, begun, issued);
      case AcceptOp(h) => ReclaimLoosens(l, h, begun, issued);
      case ShrinkOp(h, bytes) => ReclaimLoosens(l, h, begun, issued);
      case CloseSessionOp(s) => CloseAllLoosens(l, {s}, begun, issued); CloseOne(l, s);
      case ClosePeerOp => ClosePeerLoosens(l, begun, issued);
    }
  }

  lemma BeginLoosens(l: Ledger, initial: Claim, pending: bool, begun: set<Handle>, issued: set<Handle>)
    requires Resolved(l) && begun <= l.sessions.Keys && forall h :: h in issued ==> h < l.next
    ensures Loosened(l, l.Begin(initial, pending), begun, issued)
  {
    hide Ledger.Fits, Usage.Plus;
  }

  lemma ReserveLoosens(l: Ledger, s: Handle, claim: Claim, begun: set<Handle>, issued: set<Handle>)
    requires Resolved(l) && forall h :: h in issued ==> h < l.next
    ensures Loosened(l, l.Reserve(s, claim), begun, issued)
  {
    hide Ledger.Fits, Usage.Plus;
  }

  lemma BindLoosens(l: Ledger, s: Handle, h: Handle, required: Words.U64, begun: set<Handle>, issued: set<Handle>)
    requires Resolved(l)
    ensures Loosened(l, l.Bind(s, h, required), begun, issued)
  {
  }

  lemma ReclaimLoosens(l: Ledger, h: Handle, begun: set<Handle>, issued: set<Handle>)
    requires Resolved(l)
    ensures Loosened(l, l.Accept(h), begun, issued) && forall bytes :: Loosened(l, l.Shrink(h, bytes), begun, issued)
  {
    hide Usage.Minus;
  }

  lemma CloseOne(l: Ledger, s: Handle)
    ensures l.CloseAll({s}) == l.CloseSession(s)
  {
    hide Ledger.CloseSession;
    assert PickScope({s}) == s && {s} - {s} == {};
  }

  lemma ClosePeerLoosens(l: Ledger, begun: set<Handle>, issued: set<Handle>)
    requires Resolved(l)
    ensures Loosened(l, l.ClosePeer(), begun, issued)
  {
    hide Ledger.CloseAll;
    if !l.closed {
      CloseAllLoosens(l.(closed := true), l.registered, begun, issued);
    }
  }

  lemma ReleaseLoosens(l: Ledger, h: Handle, begun: set<Handle>, issued: set<Handle>)
    requires Resolved(l)
    ensures Loosened(l, l.Release(h), begun, issued)
  {
  }

  lemma TransferLoosens(l: Ledger, h: Handle, target: Handle, begun: set<Handle>, issued: set<Handle>)
    requires Resolved(l) && h !in issued
    ensures Loosened(l, l.Transfer(h, target), begun, issued)
  {
    hide Ledger.FitsSession;
    if l.Transfer(h, target) != l {
      var n := l.Debited(h).Credited(h, l.leases[h].(owner := target));
      assert forall k :: k in n.leases <==> k in l.leases;
    }
  }

  lemma {:induction false} CloseAllLoosens(l: Ledger, todo: set<Handle>, begun: set<Handle>, issued: set<Handle>)
    requires Resolved(l)
    ensures Loosened(l, l.CloseAll(todo), begun, issued)
    decreases todo
  {
    if todo != {} {
      var n := l.CloseSession(PickScope(todo));
      CloseAllLoosens(n, todo - {PickScope(todo)}, begun, issued);
    }
  }

  // What a held passes to a storage, unless it goes back at once.
  function Passed(m: map<Holder, Held>, a: Holder, waits: bool): map<Holder, Held>
    requires a in m
  {
    if waits then (m - {a})[ByStorage(m[a].Scope()) := m[a]] else m - {a}
  }

  // Its scope closed and gave back the packets, or everything.
  ghost predicate GaveBack(l: Ledger, n: Ledger, x: Held, waits: bool) {
    Shrunk(l, n, x.Scope(), if waits then {x.r.packet} else x.Leases())
  }

  predicate Distinct(s: seq<Handle>) {
    forall i, j :: 0 <= i < j < |s| ==> s[i] != s[j]
  }

  lemma TwoSets(r: Reserved, extra: Handle)
    requires extra != 0
    ensures Held(r, extra).Leases() - {0} == r.Leases() - {0} + {extra}
  {
  }

  // A new scope is not nil and nobody holds it.
  lemma NewScope(
    l: Ledger, n: Ledger, x: Held, holds: map<Holder, Held>, begun: set<Handle>, issued: set<Handle>, handed: set<Handle>)
    requires Partition(l, holds, begun, issued, handed) && 0 < l.next && Grown(l, n, x.Scope(), x.Leases() - {0})
    ensures x.Scope() != 0 && x.Scope() !in begun && ByPreparation(x.Scope()) !in holds
  {
    hide Reachable, Held.Leases;
  }

  lemma LedgerIsSound(peer: Peer)
    requires peer.Valid()
    ensures Resolved(peer.View()) && 0 < peer.View().next && Inv(peer.View()) && 0 !in peer.View().leases
  {
    hide Peer.Valid, Inv, Resolved;
    ValidBalances(peer);
  }

  lemma LeasesSeen(peer: Peer)
    ensures peer.View().leases == peer.leases && peer.View().sessions == peer.sessions && peer.View().usage == peer.usage
  {
  }

  lemma SoleLeases(r: Reserved)
    ensures Held(r, 0).Leases() - {0} == r.Leases() - {0}
  {
  }

  lemma NothingGone(l: Ledger, s: Handle)
    ensures Shrunk(l, l, s, {})
  {
  }

  lemma StorageOwns(l: Ledger, a: Holder, x: Held, begun: set<Handle>, issued: set<Handle>, handed: set<Handle>)
    requires Sound(l, a, x, begun, issued, handed) && a.ByStorage?
    ensures x.Scope() in l.sessions && l.sessions[x.Scope()].closed
    ensures forall h :: h in x.r.initial && h in l.leases ==> l.leases[h].owner == x.Scope()
    ensures forall h :: h in {x.r.receive, x.r.metadata, x.extra} && h in l.leases ==> l.leases[h].owner == x.Scope()
    ensures {} + Elements(x.r.initial) + {x.r.receive} + {x.extra} + {x.r.metadata} <= x.Leases()
  {
    LeasesAre(x);
    assert forall h :: h in x.r.initial ==> h in Elements(x.r.initial);
  }

  // All that a storage held is gone, so its scope retires once its Session has given
  // back the rest.
  lemma StorageEmpty(peer: Peer, l: Ledger, x: Held, begun: set<Handle>, issued: set<Handle>, handed: set<Handle>)
    requires peer.Valid() && Sound(l, ByStorage(x.Scope()), x, begun, issued, handed)
    requires x.Scope() in peer.sessions && peer.sessions[x.Scope()].closed
    requires Shrunk(l, peer.View(), x.Scope(),
                    {} + Elements(x.r.initial) + {x.r.receive} + {x.extra} + {x.r.metadata})
    ensures Cleared(peer.View(), x.Scope(), issued) && Shrunk(l, peer.View(), x.Scope(), x.Leases())
    ensures peer.sessions[x.Scope()].retired <==> Unowned(peer.View(), x.Scope())
  {
    hide Peer.Valid, Peer.View, Inv, Resolved, Held.Leases, Reserved.Leases, Unowned;
    LedgerIsSound(peer);
    LeasesSeen(peer);
    AllReturned(l, peer.View(), x, begun, issued, handed);
    ClosedRetires(peer.View(), x.Scope());
  }

  predicate Unowned(l: Ledger, s: Handle) {
    forall h :: h in l.leases ==> l.leases[h].owner != s
  }

  // A closed scope has retired exactly when no lease is left on it.
  lemma ClosedRetires(l: Ledger, s: Handle)
    requires Inv(l) && s in l.sessions && l.sessions[s].closed
    ensures l.sessions[s].retired <==> Unowned(l, s)
  {
    hide Inv;
    if Unowned(l, s) {
      EmptyRetires(l, s);
    }
    if l.sessions[s].retired {
      RetiredOwnsNothing(l, s);
    }
  }

  lemma AllReturned(l: Ledger, n: Ledger, x: Held, begun: set<Handle>, issued: set<Handle>, handed: set<Handle>)
    requires Sound(l, ByStorage(x.Scope()), x, begun, issued, handed)
    requires Shrunk(l, n, x.Scope(), {} + Elements(x.r.initial) + {x.r.receive} + {x.extra} + {x.r.metadata})
    ensures Shrunk(l, n, x.Scope(), x.Leases())
    ensures forall h :: h in n.leases && h in issued ==> n.leases[h].owner != x.Scope()
  {
    hide Held.Leases, Elements;
    LeasesAre(x);
  }

  // The scope of a holder that is not a storage has not been handed over.
  lemma LeavesOpen(l: Ledger, a: Holder, holds: map<Holder, Held>, begun: set<Handle>, issued: set<Handle>, handed: set<Handle>)
    requires Partition(l, holds, begun, issued, handed) && a in holds && !a.ByStorage?
    ensures var s := holds[a].Scope();
      && s in l.sessions && s !in handed && s in begun && ByStorage(s) !in holds
      && {} + {holds[a].r.packet} <= holds[a].Leases()
      && (holds[a].r.packet in l.leases ==> l.leases[holds[a].r.packet].owner == s)
  {
    hide Reachable;
    LeasesAre(holds[a]);
  }

  lemma PacketGone(l: Ledger, n: Ledger, s: Handle, packet: Handle)
    requires Shrunk(l, n, s, {} + {packet})
    ensures packet !in n.leases && Shrunk(l, n, s, {packet})
  {
    assert {} + {packet} == {packet};
  }

  lemma ShrunkTwice(l: Ledger, m: Ledger, n: Ledger, x: Held)
    requires Shrunk(l, m, x.Scope(), {x.r.packet}) && Shrunk(m, n, x.Scope(), x.Leases())
    ensures Shrunk(l, n, x.Scope(), x.Leases())
  {
    hide Reserved.Leases;
    LeasesAre(x);
  }

  lemma HandedMore(handed: seq<Handle>, s: Handle)
    requires Distinct(handed) && s !in Elements(handed)
    ensures Distinct(handed + [s]) && Elements(handed + [s]) == Elements(handed) + {s}
  {
  }

  lemma ScopeKnown(l: Ledger, a: Holder, x: Held, begun: set<Handle>, issued: set<Handle>, handed: set<Handle>)
    requires Sound(l, a, x, begun, issued, handed)
    ensures x.Scope() in l.sessions
  {
  }

  // A closed ledger has no open scope, so only a closed scope cannot be promoted.
  lemma PromoteOutcome(l: Ledger, s: Handle)
    requires Inv(l) && s in l.sessions
    ensures l.PromoteErr(s) == Ok <==> !l.sessions[s].closed
    ensures var n := l.Promote(s);
      && n.leases == l.leases && s in n.sessions && n.sessions[s].closed == l.sessions[s].closed
      && (l.PromoteErr(s) == Ok ==> !n.sessions[s].pendingHandshake)
  {
  }

  lemma UnheldIsCleared(l: Ledger, holds: map<Holder, Held>, begun: set<Handle>, issued: set<Handle>, handed: set<Handle>)
    requires Partition(l, holds, begun, issued, handed) && holds == map[]
    ensures forall s :: s in begun ==> s in handed && Cleared(l, s, issued)
    ensures Foreign(l.leases, issued) == l.leases
  {
    assert forall s :: s in begun ==> Reachable(l, holds, s, issued, handed);
  }

  lemma UsageIsTotal(l: Ledger)
    requires Inv(l)
    ensures l.usage == Total(l.leases)
  {
  }

  lemma HoldsStay(m: map<Handle, LeaseState>, n: map<Handle, LeaseState>, r: Reserved, receive: Claim, initial: seq<Claim>)
    requires Holds(m, r, receive, initial, true) && Kept(m, n)
    ensures Holds(n, r, receive, initial, true)
  {
  }
}
