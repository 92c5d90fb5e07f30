// internal/handshakev2: what one bootstrap attempt reserves at the credit
// ledger, and how a failed reservation gives it back.
module HandshakeCredits {
  import opened CreditLedger
  import CreditLaws

  const MAX_PENDING := 256
  // Symbolic sizes of the packet storage and of the deferred disposal record.
  const PACKET_BYTES := 4 * 512
  const DISPOSAL_BYTES := 512

  // The handles of one attempt; 0 is a nil lease, which no ledger ever issues.
  datatype Reserved = Reserved(scope: Handle, receive: Handle, initial: seq<Handle>, packet: Handle, metadata: Handle) {
    function Leases(): set<Handle> {
      Elements(initial) + {receive, packet, metadata}
    }
  }

  function Elements(handles: seq<Handle>): set<Handle> {
    set h | h in handles
  }

  const NONE := Reserved(0, 0, [], 0, 0)

  // l is l0 with one more scope s, whose leases are `mine`.
  ghost predicate Grown(l0: Ledger, l: Ledger, s: Handle, mine: set<Handle>) {
    && l.limits == l0.limits && l.closed == l0.closed
    && l0.next <= s && s !in l0.sessions && l.sessions.Keys == l0.sessions.Keys + {s}
    && (forall x :: x in l0.sessions ==> l.sessions[x] == l0.sessions[x])
    && l.registered - {s} == l0.registered && mine !! l0.leases.Keys && l.leases.Keys == l0.leases.Keys + mine
    && (forall h :: h in l0.leases ==> l.leases[h] == l0.leases[h])
    && (forall h :: h in mine ==> l.leases[h].owner == s)
    && l0.next <= l.next && (forall h :: h in mine ==> l0.next <= h < l.next)
  }

  // l is l1 without the leases `gone` of its scope s, which may have closed.
  ghost predicate Shrunk(l1: Ledger, l: Ledger, s: Handle, gone: set<Handle>) {
    && l.limits == l1.limits && l.closed == l1.closed && l.sessions.Keys == l1.sessions.Keys
    && (forall x :: x in l1.sessions && x != s ==> l.sessions[x] == l1.sessions[x])
    && l.registered - {s} == l1.registered - {s} && l.leases.Keys == l1.leases.Keys - gone
    && (forall h :: h in l.leases ==> l.leases[h] == l1.leases[h]) && l.next == l1.next
    && (s in l1.sessions ==>
        && (l1.sessions[s].closed ==> l.sessions[s].closed) && (l1.sessions[s].retired ==> l.sessions[s].retired))
  }

  // The same credits are in use and by the same leases; scopes that l has in
  // addition are retired.
  ghost predicate SameCredits(l0: Ledger, l: Ledger) {
    && l.usage == l0.usage && l.leases == l0.leases && l.registered == l0.registered
    && l.sessionSlots == l0.sessionSlots && l.pendingHandshakes == l0.pendingHandshakes
    && l.establishedSessions == l0.establishedSessions && l.closed == l0.closed
    && (forall x :: x in l0.sessions ==> x in l.sessions && l.sessions[x] == l0.sessions[x])
    && (forall x :: x in l.sessions && x !in l0.sessions ==> l.sessions[x].retired) && l0.next <= l.next
  }

  // An open scope that waits for its handshake.
  predicate Waits(l: Ledger, s: Handle) {
    s in l.sessions && !l.sessions[s].closed && l.sessions[s].pendingHandshake && s in l.registered
  }

  lemma BeginGrows(l0: Ledger, receive: Claim)
    requires Resolved(l0) && l0.BeginErr(receive, true) == Ok
    ensures var l := l0.Begin(receive, true);
      && Grown(l0, l, l0.next, if receive.Empty() then {} else {l0.next + 1}) && Waits(l, l0.next)
      && (!receive.Empty() ==> l.leases[l0.next + 1].claim == receive)
  {
  }

  lemma ReserveGrows(l0: Ledger, l: Ledger, s: Handle, mine: set<Handle>, claim: Claim)
    requires Grown(l0, l, s, mine) && Waits(l, s) && Handles(l) && l.ReserveErr(s, claim) == Ok
    ensures Grown(l0, l.Reserve(s, claim), s, mine + {l.next}) && Waits(l.Reserve(s, claim), s)
    ensures l.next !in l.leases && l.next !in mine
  {
  }

  lemma CloseShrinks(l: Ledger, s: Handle)
    requires s in l.sessions
    ensures Shrunk(l, l.CloseSession(s), s, {}) && l.CloseSession(s).sessions[s].closed
  {
  }

  lemma ReleaseShrinks(l1: Ledger, l: Ledger, s: Handle, gone: set<Handle>, h: Handle)
    requires Shrunk(l1, l, s, gone) && s in l.sessions && (h in l.leases ==> l.leases[h].owner == s)
    ensures Shrunk(l1, l.Release(h), s, gone + {h})
    ensures l.Release(h).sessions[s].closed == l.sessions[s].closed
  {
    assert (l.leases - {h}).Keys == l.leases.Keys - {h};
  }

  // A closed scope without leases has retired.
  lemma EmptyRetires(l: Ledger, s: Handle)
    requires Inv(l) && s in l.sessions && l.sessions[s].closed && forall h :: h in l.leases ==> l.leases[h].owner != s
    ensures l.sessions[s].retired && s !in l.registered
  {
    hide Total, Bounded, Slots, Handles;
    assert OwnedBy(l.leases, s) == map[];
    assert Counted(l, s, Shares(l.leases)) && Settled(l.sessions[s]);
    NothingShared(l, s);
  }

  lemma NothingShared(l: Ledger, s: Handle)
    requires OwnedBy(l.leases, s) == map[]
    ensures Shares(l.leases)(s) == NOTHING
  {
  }

  // What grew and shrank again is back where it was.
  lemma GrownAndGone(l0: Ledger, l1: Ledger, l: Ledger, s: Handle, mine: set<Handle>, gone: set<Handle>)
    requires Inv(l0) && Inv(l) && Grown(l0, l1, s, mine) && Shrunk(l1, l, s, gone) && mine <= gone
    requires gone !! l0.leases.Keys && l.sessions[s].retired && s !in l.registered
    ensures SameCredits(l0, l)
  {
    hide Inv, Resolved;
    SameTotals(l0, l);
    SameSlots(l0, l);
  }

  lemma SameTotals(l0: Ledger, l: Ledger)
    requires Inv(l0) && Inv(l) && l.leases.Keys == l0.leases.Keys
    requires forall h :: h in l0.leases ==> l.leases[h] == l0.leases[h]
    ensures l.leases == l0.leases && l.usage == l0.usage
  {
    hide Total, Bounded, Slots, Handles, Counted, Settled;
    assert l.leases == l0.leases;
  }

  lemma SameSlots(l0: Ledger, l: Ledger)
    requires Inv(l0) && Inv(l) && l.registered == l0.registered
    requires forall x :: x in l0.sessions ==> x in l.sessions && l.sessions[x] == l0.sessions[x]
    ensures l.sessionSlots == l0.sessionSlots && l.pendingHandshakes == l0.pendingHandshakes
    ensures l.establishedSessions == l0.establishedSessions
  {
    hide Total, Bounded, Handles, Counted, Settled;
    assert Pending(l) == Pending(l0);
  }

  lemma ValidBalances(peer: Peer)
    requires peer.Valid()
    ensures Inv(peer.View()) && Resolved(peer.View()) && peer.next > 0 && 0 !in peer.leases
  {
    hide Inv, Run;
    Conservation(peer.limits, peer.ops);
    NoNilHandle(peer.limits, peer.ops);
  }

  // No lease is ever handle 0, which stands for nil.
  lemma {:induction false} NoNilHandle(limits: Limits, ops: seq<Op>)
    ensures Run(NewLedger(limits), ops).next > 0 && 0 !in Run(NewLedger(limits), ops).leases
  {
    if ops != [] {
      NoNilHandle(limits, ops[..|ops| - 1]);
      NilStays(Run(NewLedger(limits), ops[..|ops| - 1]), ops[|ops| - 1]);
    }
  }

  lemma NilStays(l: Ledger, op: Op)
    requires l.next > 0 && 0 !in l.leases
    ensures Apply(l, op).next > 0 && 0 !in Apply(l, op).leases
  {
    if op == ClosePeerOp && !l.closed {
      CloseAllHandles(l.(closed := true), l.registered);
    }
  }

  lemma {:induction false} CloseAllHandles(l: Ledger, todo: set<Handle>)
    ensures l.CloseAll(todo).next == l.next && l.CloseAll(todo).leases == l.leases
    decreases todo
  {
    if todo != {} {
      CloseAllHandles(l.CloseSession(PickScope(todo)), todo - {PickScope(todo)});
    }
  }

  // ---------------------------------------------------------------------------
  // Giving back

  // Release of a lease that may be nil or released already.
  method ReleaseOne(peer: Peer, h: Handle, ghost s: Handle, ghost l1: Ledger, ghost gone: set<Handle>)
    requires peer.Valid() && s in peer.sessions && Shrunk(l1, peer.View(), s, gone)
    requires h in l1.leases ==> l1.leases[h].owner == s
    modifies peer
    ensures peer.Valid() && s in peer.sessions && peer.sessions[s].closed == old(peer.sessions[s].closed)
    ensures Shrunk(l1, peer.View(), s, gone + {h})
  {
    ValidBalances(peer);
    hide Peer.Valid, Inv, Resolved;
    ReleaseShrinks(l1, peer.View(), s, gone, h);
    if h != 0 {
      peer.Release(h);
    }
  }

  method ReleaseAll(peer: Peer, handles: seq<Handle>, ghost s: Handle, ghost l1: Ledger, ghost gone: set<Handle>)
    requires peer.Valid() && s in peer.sessions && Shrunk(l1, peer.View(), s, gone)
    requires forall h :: h in handles && h in l1.leases ==> l1.leases[h].owner == s
    modifies peer
    ensures peer.Valid() && s in peer.sessions && peer.sessions[s].closed == old(peer.sessions[s].closed)
    ensures Shrunk(l1, peer.View(), s, gone + Elements(handles))
  {
    hide Shrunk, Peer.Valid;
    var i := 0;
    assert gone + Elements(handles[..0]) == gone;
    while i < |handles|
      invariant 0 <= i <= |handles| && peer.Valid()
      invariant s in peer.sessions && peer.sessions[s].closed == old(peer.sessions[s].closed)
      invariant Shrunk(l1, peer.View(), s, gone + Elements(handles[..i]))
    {
      ReleaseOne(peer, handles[i], s, l1, gone + Elements(handles[..i]));
      assert handles[..i + 1] == handles[..i] + [handles[i]];
      assert gone + Elements(handles[..i + 1]) == gone + Elements(handles[..i]) + {handles[i]};
      i := i + 1;
    }
    assert handles[..i] == handles;
  }

  // The scope of an attempt owns what the attempt holds and nothing else.
  ghost predicate Owns(l: Ledger, r: Reserved) {
    && r.scope in l.sessions
    && forall h :: h in l.leases ==> (l.leases[h].owner == r.scope <==> h in r.Leases())
  }

  // What is left to do once the scope has closed and the packets are gone.
  method ReleaseStorage(peer: Peer, r: Reserved, ghost l1: Ledger)
    requires peer.Valid() && Owns(l1, r) && r.scope in peer.sessions && peer.sessions[r.scope].closed
    requires Shrunk(l1, peer.View(), r.scope, {r.packet})
    modifies peer
    ensures peer.Valid() && Shrunk(l1, peer.View(), r.scope, r.Leases())
    ensures r.scope in peer.sessions && peer.sessions[r.scope].retired && r.scope !in peer.registered
  {
    hide Peer.Valid, Shrunk, Inv;
    OwnsEach(l1, r);
    hide Owns;
    ReleaseAll(peer, r.initial, r.scope, l1, {r.packet});
    ReleaseOne(peer, r.receive, r.scope, l1, {r.packet} + Elements(r.initial));
    ReleaseOne(peer, r.metadata, r.scope, l1, {r.packet} + Elements(r.initial) + {r.receive});
    AllGone(l1, peer.View(), r);
    ValidBalances(peer);
    EmptyRetires(peer.View(), r.scope);
  }

  lemma OwnsEach(l: Ledger, r: Reserved)
    requires Owns(l, r)
    ensures forall h :: h in r.initial && h in l.leases ==> l.leases[h].owner == r.scope
    ensures forall h :: h in {r.receive, r.packet, r.metadata} && h in l.leases ==> l.leases[h].owner == r.scope
  {
    assert forall h :: h in r.initial ==> h in r.Leases();
  }

  lemma AllGone(l1: Ledger, l: Ledger, r: Reserved)
    requires Shrunk(l1, l, r.scope, {r.packet} + Elements(r.initial) + {r.receive} + {r.metadata}) && Owns(l1, r)
    ensures Shrunk(l1, l, r.scope, r.Leases())
    ensures forall h :: h in l.leases ==> l.leases[h].owner != r.scope
  {
  }

  /** A reservation that is not needed after all: the scope closes and retires,
      exactly its leases go back, and no other scope notices. */
  method Dispose(peer: Peer, r: Reserved)
    requires peer.Valid() && Owns(peer.View(), r)
    modifies peer
    ensures peer.Valid() && Shrunk(old(peer.View()), peer.View(), r.scope, r.Leases())
    ensures r.scope in peer.sessions && peer.sessions[r.scope].retired && r.scope !in peer.registered
  {
    hide Peer.Valid;
    CloseShrinks(peer.View(), r.scope);
    OwnsEach(peer.View(), r);
    peer.CloseSession(r.scope);
    ReleaseOne(peer, r.packet, r.scope, old(peer.View()), {});
    assert {} + {r.packet} == {r.packet};
    ReleaseStorage(peer, r, old(peer.View()));
  }

  // ---------------------------------------------------------------------------
  // Reserving

  // The attempt r holds its scope and exactly the leases it was to reserve.
  predicate Holds(m: map<Handle, LeaseState>, r: Reserved, receive: Claim, initial: seq<Claim>, deferred: bool) {
    && (r.receive == 0 <==> receive.Empty()) && (r.receive != 0 ==> Holding(m, r.receive, receive))
    && |r.initial| == |initial| && HoldsInitial(m, r.initial, initial) && Holding(m, r.packet, Bytes(PACKET_BYTES))
    && (r.metadata == 0 <==> !deferred) && (r.metadata != 0 ==> Holding(m, r.metadata, Bytes(DISPOSAL_BYTES)))
  }

  predicate Holding(m: map<Handle, LeaseState>, h: Handle, claim: Claim) {
    h in m && m[h].claim == claim
  }

  // Distinct leases for each of the first claims.
  predicate HoldsInitial(m: map<Handle, LeaseState>, leases: seq<Handle>, claims: seq<Claim>) {
    && |leases| <= |claims| && (forall i :: 0 <= i < |leases| ==> Holding(m, leases[i], claims[i]))
    && (forall i, j :: 0 <= i < j < |leases| ==> leases[i] != leases[j])
  }

  // Nothing that was leased has changed.
  predicate Kept(m: map<Handle, LeaseState>, n: map<Handle, LeaseState>) {
    forall h :: h in m ==> h in n && n[h] == m[h]
  }

  lemma HoldsMore(m: map<Handle, LeaseState>, n: map<Handle, LeaseState>, leases: seq<Handle>, claims: seq<Claim>)
    requires Kept(m, n) && HoldsInitial(m, leases, claims)
    ensures HoldsInitial(n, leases, claims)
    ensures forall h :: |leases| < |claims| && h !in m && Holding(n, h, claims[|leases|]) ==>
      HoldsInitial(n, leases + [h], claims)
  {
  }

  // The limits allow `more` on top of what the Peer and one of its scopes have.
  predicate Affords(limits: Limits, peer: Usage, scope: Usage, more: Usage) {
    CreditLaws.WithinLimits(limits, peer.Plus(more), scope.Plus(more))
  }

  function ReceiveUsage(receive: Claim): Usage {
    if receive.Empty() then NOTHING else Charge(receive)
  }

  // A scope may begin, with its first claim if there is one.
  ghost predicate MayBegin(l: Ledger, receive: Claim) {
    && !l.closed && |l.registered| < l.limits.maxSessions && |Pending(l)| < l.limits.maxPendingHandshakes
    && (receive.Empty() || CreditLaws.WithinLimits(l.limits, l.usage.Plus(Charge(receive)), Charge(receive)))
  }

  // What an attempt has at the ledger.
  function Wanted(receive: Claim, initial: seq<Claim>, deferred: bool): Usage {
    ReceiveUsage(receive).Plus(SumTo(initial, |initial|)).Plus(Rest(deferred))
  }

  function Rest(deferred: bool): Usage {
    Charge(Bytes(PACKET_BYTES)).Plus(if deferred then Charge(Bytes(DISPOSAL_BYTES)) else NOTHING)
  }

  // The ledger has room for an attempt that wants all this.
  ghost predicate HasRoom(l: Ledger, receive: Claim, initial: seq<Claim>, deferred: bool) {
    && !l.closed && |l.registered| < l.limits.maxSessions && |Pending(l)| < l.limits.maxPendingHandshakes
    && (forall i :: 0 <= i < |initial| ==> !initial[i].Empty())
    && CreditLaws.WithinLimits(l.limits, l.usage.Plus(Wanted(receive, initial, deferred)), Wanted(receive, initial, deferred))
  }

  // The sums over a list of claims.
  function BytesOf(claims: seq<Claim>): nat {
    if claims == [] then 0 else BytesOf(claims[..|claims| - 1]) + claims[|claims| - 1].bytes
  }

  function StreamsOf(claims: seq<Claim>): nat {
    if claims == [] then 0
    else StreamsOf(claims[..|claims| - 1]) + if claims[|claims| - 1].businessStream then 1 else 0
  }

  function AcceptsOf(claims: seq<Claim>): nat {
    if claims == [] then 0
    else AcceptsOf(claims[..|claims| - 1]) + if claims[|claims| - 1].pendingAccept then 1 else 0
  }

  lemma {:induction false} SumIsSums(claims: seq<Claim>)
    ensures SumTo(claims, |claims|) == Usage(BytesOf(claims), |claims|, StreamsOf(claims), AcceptsOf(claims))
  {
    if claims != [] {
      SumIsSums(claims[..|claims| - 1]);
      SumOfPrefix(claims, |claims| - 1);
    }
  }

  lemma {:induction false} SumOfPrefix(claims: seq<Claim>, n: nat)
    requires n <= |claims|
    ensures SumTo(claims[..n], n) == SumTo(claims, n)
    decreases n
  {
    if n > 0 {
      SumOfPrefix(claims, n - 1);
      SumOfPrefix(claims[..n], n - 1);
      assert claims[..n][..n - 1] == claims[..n - 1];
    }
  }

  /** There is room for an attempt exactly when the Peer is open, a scope and a pending
      handshake are free, none of the initial claims is empty, and the bytes, leases,
      streams and accepts that it wants in all are within each of the limits. */
  lemma RoomIsExact(l: Ledger, receive: Claim, initial: seq<Claim>, deferred: bool)
    ensures HasRoom(l, receive, initial, deferred) <==>
      && !l.closed && |l.registered| < l.limits.maxSessions && |Pending(l)| < l.limits.maxPendingHandshakes
      && (forall c :: c in initial ==> !c.Empty())
      && (var bytes := receive.bytes + BytesOf(initial) + if deferred then 2560 else 2048;
          bytes <= l.limits.maxSessionBytes && l.usage.bytes + bytes <= l.limits.maxPeerBytes)
      && l.usage.reservations + |initial| + (if receive.Empty() then 1 else 2) + (if deferred then 1 else 0)
         <= l.limits.maxReservations
      && (var streams := StreamsOf(initial) + if receive.businessStream then 1 else 0;
          streams <= l.limits.maxStreamsPerSession && l.usage.businessStreams + streams <= l.limits.maxPeerStreams)
      && l.usage.pendingAccepts + AcceptsOf(initial) + (if receive.pendingAccept then 1 else 0) <= l.limits.maxPendingAccepts
  {
    hide Pending, Wanted, BytesOf, StreamsOf, AcceptsOf;
    WantedIsSums(receive, initial, deferred);
    assert (forall c :: c in initial ==> !c.Empty()) <==> (forall i :: 0 <= i < |initial| ==> !initial[i].Empty());
  }

  lemma WantedIsSums(receive: Claim, initial: seq<Claim>, deferred: bool)
    ensures Wanted(receive, initial, deferred) == Usage(
      receive.bytes + BytesOf(initial) + (if deferred then 2560 else 2048),
      |initial| + (if receive.Empty() then 1 else 2) + (if deferred then 1 else 0),
      StreamsOf(initial) + (if receive.businessStream then 1 else 0),
      AcceptsOf(initial) + (if receive.pendingAccept then 1 else 0))
  {
    hide SumTo, BytesOf, StreamsOf, AcceptsOf, ReceiveUsage, Rest;
    SumIsSums(initial);
    EndsAre(receive, deferred);
    ThreeSums(ReceiveUsage(receive), SumTo(initial, |initial|), Rest(deferred));
  }

  lemma EndsAre(receive: Claim, deferred: bool)
    ensures ReceiveUsage(receive) == Usage(
      receive.bytes, if receive.Empty() then 0 else 1, if receive.businessStream then 1 else 0,
      if receive.pendingAccept then 1 else 0)
    ensures Rest(deferred) == if deferred then Usage(2560, 2, 0, 0) else Usage(2048, 1, 0, 0)
  {
    hide Rest;
    RestIs(deferred);
  }

  lemma RestIs(deferred: bool)
    ensures Rest(deferred) == if deferred then Usage(2560, 2, 0, 0) else Usage(2048, 1, 0, 0)
  {
    hide Usage.Plus;
    assert Charge(Bytes(PACKET_BYTES)) == Usage(2048, 1, 0, 0);
    assert Charge(Bytes(DISPOSAL_BYTES)) == Usage(512, 1, 0, 0);
    PlusFigures();
  }

  lemma PlusFigures()
    ensures Usage(2048, 1, 0, 0).Plus(Usage(512, 1, 0, 0)) == Usage(2560, 2, 0, 0)
    ensures Usage(2048, 1, 0, 0).Plus(NOTHING) == Usage(2048, 1, 0, 0)
  {
  }

  lemma ThreeSums(a: Usage, b: Usage, c: Usage)
    ensures a.Plus(b).Plus(c) == Usage(
      a.bytes + b.bytes + c.bytes, a.reservations + b.reservations + c.reservations,
      a.businessStreams + b.businessStreams + c.businessStreams, a.pendingAccepts + b.pendingAccepts + c.pendingAccepts)
  {
  }

  // The same credits leave the same room.
  lemma SameRoom(l: Ledger, n: Ledger, receive: Claim, initial: seq<Claim>, deferred: bool)
    requires SameCredits(l, n) && n.limits == l.limits && l.registered <= l.sessions.Keys
    ensures HasRoom(n, receive, initial, deferred) <==> HasRoom(l, receive, initial, deferred)
  {
    hide Wanted, CreditLaws.WithinLimits;
    assert Pending(n) == Pending(l);
  }

  lemma AffordsLess(limits: Limits, peer: Usage, scope: Usage, less: Usage, more: Usage)
    requires less.NonNegative() && more.NonNegative() && Affords(limits, peer, scope, less.Plus(more))
    ensures Affords(limits, peer, scope, less) && Affords(limits, peer.Plus(less), scope.Plus(less), more)
  {
  }

  lemma AffordsBoth(limits: Limits, peer: Usage, scope: Usage, less: Usage, more: Usage)
    requires Affords(limits, peer.Plus(less), scope.Plus(less), more)
    ensures Affords(limits, peer, scope, less.Plus(more))
  {
  }

  lemma {:induction false} SumSplits(claims: seq<Claim>, n: nat)
    requires n <= |claims|
    ensures SumTo(claims, n).NonNegative()
    ensures exists rest: Usage :: rest.NonNegative() && SumTo(claims, |claims|) == SumTo(claims, n).Plus(rest)
    decreases |claims| - n
  {
    SumIsNonNegative(claims, n);
    if n == |claims| {
      assert SumTo(claims, n) == SumTo(claims, n).Plus(NOTHING) && NOTHING.NonNegative();
    } else {
      SumSplits(claims, n + 1);
      var rest: Usage :| rest.NonNegative() && SumTo(claims, |claims|) == SumTo(claims, n + 1).Plus(rest);
      var more := Charge(claims[n]).Plus(rest);
      assert SumTo(claims, |claims|) == SumTo(claims, n).Plus(more) && more.NonNegative();
    }
  }

  lemma {:induction false} SumIsNonNegative(claims: seq<Claim>, n: nat)
    requires n <= |claims|
    ensures SumTo(claims, n).NonNegative()
  {
    if n > 0 {
      SumIsNonNegative(claims, n - 1);
    }
  }

  lemma ChargeIsNonNegative(claim: Claim)
    ensures Charge(claim).NonNegative()
  {
  }

  // A claim that is not afforded now is not afforded with others either.
  lemma SumRefused(limits: Limits, peer: Usage, scope: Usage, claims: seq<Claim>, n: nat)
    requires n < |claims| && Affords(limits, peer, scope, SumTo(claims, |claims|))
    ensures Affords(limits, peer.Plus(SumTo(claims, n)), scope.Plus(SumTo(claims, n)), Charge(claims[n]))
  {
    hide Affords, Usage.Plus, Charge, Usage.NonNegative;
    SumSplits(claims, n + 1);
    SumIsNonNegative(claims, n);
    ChargeIsNonNegative(claims[n]);
    var rest: Usage :| rest.NonNegative() && SumTo(claims, |claims|) == SumTo(claims, n + 1).Plus(rest);
    AffordsLess(limits, peer, scope, SumTo(claims, n + 1), rest);
    AffordsLess(limits, peer, scope, SumTo(claims, n), Charge(claims[n]));
  }

  // A reservation in a scope that waits is granted exactly when it is afforded.
  lemma ReserveAfforded(l: Ledger, s: Handle, claim: Claim)
    requires Inv(l) && Waits(l, s)
    ensures var n := l.Reserve(s, claim);
      var granted := !claim.Empty() && Affords(l.limits, l.usage, l.sessions[s].usage, Charge(claim));
      && (l.ReserveErr(s, claim) == Ok <==> granted) && s in n.sessions
      && (if granted then n.usage == l.usage.Plus(Charge(claim)) && n.sessions[s].usage == l.sessions[s].usage.Plus(Charge(claim))
          else n == l)
  {
    hide Inv, Total, OwnedBy, Ledger.Fits, Charge, Usage.Plus;
    CreditLaws.ReserveIsExact(l, s, claim);
    CreditLaws.ScopeUsage(l, s);
    CreditLaws.PeerUsage(l);
    CreditLaws.ScopeFacts(l, s);
  }

  // Rolls back what a failed reserve holds so far.
  method Rollback(peer: Peer, r: Reserved, ghost l0: Ledger)
    requires peer.Valid() && Inv(l0) && Resolved(l0) && 0 !in l0.leases
    requires Grown(l0, peer.View(), r.scope, r.Leases() - {0})
    modifies peer
    ensures peer.Valid() && SameCredits(l0, peer.View())
  {
    ValidBalances(peer);
    hide Peer.Valid, Inv;
    GrownOwns(l0, peer.View(), r);
    ghost var l1 := peer.View();
    hide Shrunk;
    Dispose(peer, r);
    ValidBalances(peer);
    hide Grown, Resolved;
    GrownAndGone(l0, l1, peer.View(), r.scope, r.Leases() - {0}, r.Leases());
  }

  lemma GrownOwns(l0: Ledger, l: Ledger, r: Reserved)
    requires Grown(l0, l, r.scope, r.Leases() - {0}) && Resolved(l0) && 0 !in l0.leases && 0 !in l.leases
    ensures Owns(l, r) && r.Leases() !! l0.leases.Keys
  {
  }

  // One more lease for the scope of an attempt.
  method ReserveOne(peer: Peer, scope: Handle, claim: Claim, ghost l0: Ledger, ghost mine: set<Handle>)
    returns (err: Err, lease: Handle)
    requires peer.Valid() && Waits(peer.View(), scope) && Grown(l0, peer.View(), scope, mine)
    modifies peer
    ensures peer.Valid() && Waits(peer.View(), scope) && Kept(old(peer.leases), peer.leases)
    ensures err != Ok ==> lease == 0 && Grown(l0, peer.View(), scope, mine) && peer.View() == old(peer.View())
    ensures scope in old(peer.sessions) && scope in peer.sessions
    ensures err == Ok <==>
      !claim.Empty() && Affords(peer.limits, old(peer.usage), old(peer.sessions[scope].usage), Charge(claim))
    ensures err == Ok ==>
      && peer.usage == old(peer.usage).Plus(Charge(claim))
      && peer.sessions[scope].usage == old(peer.sessions[scope].usage).Plus(Charge(claim))
    ensures err == Ok ==>
      && lease != 0 && lease !in old(peer.leases) && lease !in mine && Holding(peer.leases, lease, claim)
      && Grown(l0, peer.View(), scope, mine + {lease})
  {
    hide *;
    ValidBalances(peer);
    ViewFields(peer);
    ReserveEffect(l0, peer.View(), scope, mine, claim);
    ReserveAfforded(peer.View(), scope, claim);
    ScopeWaits(peer.View(), scope);
    err, lease := peer.Reserve(scope, claim);
    ViewFields(peer);
  }

  lemma ViewFields(peer: Peer)
    ensures peer.View().leases == peer.leases && peer.View().next == peer.next && peer.View().sessions == peer.sessions
    ensures peer.View().usage == peer.usage && peer.View().limits == peer.limits
  {
  }

  lemma ScopeWaits(l: Ledger, s: Handle)
    requires Waits(l, s)
    ensures s in l.sessions
  {
  }

  lemma ReserveEffect(l0: Ledger, l: Ledger, s: Handle, mine: set<Handle>, claim: Claim)
    requires Grown(l0, l, s, mine) && Waits(l, s) && Resolved(l) && l.next > 0
    ensures var n := l.Reserve(s, claim);
      && Waits(n, s) && Kept(l.leases, n.leases)
      && (l.ReserveErr(s, claim) != Ok ==> Grown(l0, n, s, mine))
      && (l.ReserveErr(s, claim) == Ok ==>
          && l.next !in l.leases && l.next !in mine
          && Holding(n.leases, l.next, claim) && Grown(l0, n, s, mine + {l.next}))
  {
    hide Grown;
    if l.ReserveErr(s, claim) == Ok {
      ReserveGrows(l0, l, s, mine, claim);
    }
  }

  // The initial reservations, one by one, until one fails.
  method ReserveInitial(peer: Peer, scope: Handle, initial: seq<Claim>, ghost l0: Ledger, ghost mine: set<Handle>)
    returns (err: Err, leases: seq<Handle>)
    requires peer.Valid() && Waits(peer.View(), scope) && Grown(l0, peer.View(), scope, mine)
    modifies peer
    ensures peer.Valid() && Waits(peer.View(), scope) && Kept(old(peer.leases), peer.leases)
    ensures Grown(l0, peer.View(), scope, mine + Elements(leases))
    ensures HoldsInitial(peer.leases, leases, initial) && 0 !in leases
    ensures err == Ok <==> |leases| == |initial|
    ensures scope in old(peer.sessions) && scope in peer.sessions
    ensures var more := SumTo(initial, |initial|);
      && (err == Ok <==>
          (forall i :: 0 <= i < |initial| ==> !initial[i].Empty())
          && (initial != [] ==> Affords(peer.limits, old(peer.usage), old(peer.sessions[scope].usage), more)))
      && (err == Ok ==>
          peer.usage == old(peer.usage).Plus(more) && peer.sessions[scope].usage == old(peer.sessions[scope].usage).Plus(more))
  {
    hide Peer.Valid, Grown, Waits, HoldsInitial, Holding, Affords, Charge, Usage.Plus, Peer.View;
    var i := 0;
    leases := [];
    NoneHeld(peer.leases, initial);
    ScopeWaits(peer.View(), scope);
    ViewFields(peer);
    ghost var used, held := peer.usage, peer.sessions[scope].usage;
    PlusNothing(used);
    PlusNothing(held);
    assert mine + Elements(leases) == mine;
    while i < |initial|
      invariant 0 <= i == |leases| <= |initial| && peer.Valid() && Waits(peer.View(), scope)
      invariant Grown(l0, peer.View(), scope, mine + Elements(leases))
      invariant HoldsInitial(peer.leases, leases, initial) && 0 !in leases
      invariant Kept(old(peer.leases), peer.leases) && scope in peer.sessions
      invariant peer.usage == used.Plus(SumTo(initial, i)) && peer.sessions[scope].usage == held.Plus(SumTo(initial, i))
      invariant forall k :: 0 <= k < i ==> !initial[k].Empty()
      invariant i > 0 ==> Affords(peer.limits, used, held, SumTo(initial, i))
    {
      ghost var before := peer.leases;
      SumStep(peer.limits, used, held, initial, i);
      var lease;
      err, lease := ReserveOne(peer, scope, initial[i], l0, mine + Elements(leases));
      HoldsMore(before, peer.leases, leases, initial);
      if err != Ok {
        return;
      }
      assert mine + Elements(leases) + {lease} == mine + Elements(leases + [lease]);
      leases := leases + [lease];
      i := i + 1;
    }
    err := Ok;
  }

  lemma PlusNothing(u: Usage)
    ensures u.Plus(NOTHING) == u
  {
  }

  // One claim more, afforded or not.
  lemma SumStep(limits: Limits, peer: Usage, scope: Usage, claims: seq<Claim>, n: nat)
    requires n < |claims|
    ensures SumTo(claims, 0) == NOTHING
    ensures peer.Plus(SumTo(claims, n)).Plus(Charge(claims[n])) == peer.Plus(SumTo(claims, n + 1))
    ensures scope.Plus(SumTo(claims, n)).Plus(Charge(claims[n])) == scope.Plus(SumTo(claims, n + 1))
    ensures Affords(limits, peer.Plus(SumTo(claims, n)), scope.Plus(SumTo(claims, n)), Charge(claims[n]))
      <==> Affords(limits, peer, scope, SumTo(claims, n + 1))
    ensures Affords(limits, peer, scope, SumTo(claims, |claims|)) ==>
      Affords(limits, peer.Plus(SumTo(claims, n)), scope.Plus(SumTo(claims, n)), Charge(claims[n]))
  {
    if Affords(limits, peer, scope, SumTo(claims, |claims|)) {
      SumRefused(limits, peer, scope, claims, n);
    }
  }

  lemma NoneHeld(m: map<Handle, LeaseState>, claims: seq<Claim>)
    ensures HoldsInitial(m, [], claims)
  {
  }

  // The packet storage and, for a deferred installer, the disposal record.
  method ReserveRest(peer: Peer, r: Reserved, deferred: bool, ghost l0: Ledger)
    returns (err: Err, packet: Handle, metadata: Handle)
    requires peer.Valid() && Waits(peer.View(), r.scope) && r.packet == r.metadata == 0
    requires Grown(l0, peer.View(), r.scope, r.Leases() - {0})
    modifies peer
    ensures peer.Valid() && Waits(peer.View(), r.scope) && (err == Ok ==> Kept(old(peer.leases), peer.leases))
    ensures Grown(l0, peer.View(), r.scope, r.(packet := packet, metadata := metadata).Leases() - {0})
    ensures err == Ok ==>
      && packet != 0 && Holding(peer.leases, packet, Bytes(PACKET_BYTES)) && (metadata == 0 <==> !deferred)
      && (metadata != 0 ==> Holding(peer.leases, metadata, Bytes(DISPOSAL_BYTES)))
    ensures r.scope in old(peer.sessions)
    ensures err == Ok <==> Affords(peer.limits, old(peer.usage), old(peer.sessions[r.scope].usage), Rest(deferred))
    ensures err == Ok ==>
      && r.scope in peer.sessions && peer.usage == old(peer.usage).Plus(Rest(deferred))
      && peer.sessions[r.scope].usage == old(peer.sessions[r.scope].usage).Plus(Rest(deferred))
  {
    hide Peer.Valid, Grown, Waits, Affords, Charge, Usage.Plus, Peer.View;
    ghost var mine := r.Leases() - {0};
    metadata := 0;
    ScopeWaits(peer.View(), r.scope);
    ViewFields(peer);
    RestAfforded(peer.limits, peer.usage, peer.sessions[r.scope].usage);
    RestAdds(peer.usage);
    RestAdds(peer.sessions[r.scope].usage);
    err, packet := ReserveOne(peer, r.scope, Bytes(PACKET_BYTES), l0, mine);
    assert r.(packet := packet).Leases() - {0} == if packet == 0 then mine else mine + {packet};
    if err != Ok || !deferred {
      return;
    }
    err, metadata := ReserveOne(peer, r.scope, Bytes(DISPOSAL_BYTES), l0, mine + {packet});
    assert r.(packet := packet, metadata := metadata).Leases() - {0}
      == if metadata == 0 then mine + {packet} else mine + {packet} + {metadata};
    if err != Ok {
      GiveBack(peer, packet, r.scope, l0, mine + {packet});
      assert mine + {packet} - {packet} == mine;
      packet := 0;
    }
  }

  lemma RestAdds(u: Usage)
    ensures u.Plus(Rest(false)) == u.Plus(Charge(Bytes(PACKET_BYTES)))
    ensures u.Plus(Rest(true)) == u.Plus(Charge(Bytes(PACKET_BYTES))).Plus(Charge(Bytes(DISPOSAL_BYTES)))
  {
    hide Charge, Usage.Plus;
    PlusNothing(Charge(Bytes(PACKET_BYTES)));
    PlusOne(u, Charge(Bytes(PACKET_BYTES)), Charge(Bytes(DISPOSAL_BYTES)));
  }

  lemma PlusOne(u: Usage, a: Usage, b: Usage)
    ensures u.Plus(a.Plus(b)) == u.Plus(a).Plus(b)
  {
  }

  lemma RestAfforded(limits: Limits, peer: Usage, scope: Usage)
    ensures var packet, record := Charge(Bytes(PACKET_BYTES)), Charge(Bytes(DISPOSAL_BYTES));
      && (Affords(limits, peer, scope, Rest(false)) <==> Affords(limits, peer, scope, packet))
      && (Affords(limits, peer, scope, Rest(true)) <==>
          Affords(limits, peer, scope, packet) && Affords(limits, peer.Plus(packet), scope.Plus(packet), record))
  {
    hide Affords, Charge, Usage.Plus, Usage.NonNegative;
    var packet, record := Charge(Bytes(PACKET_BYTES)), Charge(Bytes(DISPOSAL_BYTES));
    PlusNothing(packet);
    ChargeIsNonNegative(Bytes(PACKET_BYTES));
    ChargeIsNonNegative(Bytes(DISPOSAL_BYTES));
    if Affords(limits, peer, scope, packet.Plus(record)) {
      AffordsLess(limits, peer, scope, packet, record);
    }
    if Affords(limits, peer.Plus(packet), scope.Plus(packet), record) {
      AffordsBoth(limits, peer, scope, packet, record);
    }
  }

  // Returns one lease of a scope that is still open.
  method GiveBack(peer: Peer, h: Handle, ghost s: Handle, ghost l0: Ledger, ghost mine: set<Handle>)
    requires peer.Valid() && Grown(l0, peer.View(), s, mine) && Waits(peer.View(), s) && h in mine
    modifies peer
    ensures peer.Valid() && Grown(l0, peer.View(), s, mine - {h}) && Waits(peer.View(), s)
  {
    hide *;
    ReleaseGrown(l0, peer.View(), s, mine, h);
    peer.Release(h);
  }

  lemma ReleaseGrown(l0: Ledger, l: Ledger, s: Handle, mine: set<Handle>, h: Handle)
    requires Grown(l0, l, s, mine) && Waits(l, s) && h in mine
    ensures Grown(l0, l.Release(h), s, mine - {h}) && Waits(l.Release(h), s)
  {
    assert (l.leases - {h}).Keys == l.leases.Keys - {h};
  }

  /** reserve: all of an attempt's credits or none. A failure, wherever it happens,
      leaves the usage, the leases and the scopes in use exactly as they were. */
  method Reserve(peer: Peer, pending: nat, prepared: nat, receive: Claim, initial: seq<Claim>, deferred: bool)
    returns (err: Err, r: Reserved)
    requires peer.Valid()
    modifies peer
    ensures peer.Valid()
    ensures pending + prepared >= MAX_PENDING ==> err == ResourceLimit
    ensures err == Ok <==> pending + prepared < MAX_PENDING && HasRoom(old(peer.View()), receive, initial, deferred)
    ensures err != Ok ==> r == NONE && SameCredits(old(peer.View()), peer.View())
    ensures err == Ok ==>
      && r.scope in peer.sessions && peer.usage == old(peer.usage).Plus(Wanted(receive, initial, deferred))
      && peer.sessions[r.scope].usage == Wanted(receive, initial, deferred)
    ensures err == Ok ==> Waits(peer.View(), r.scope) && Holds(peer.leases, r, receive, initial, deferred)
    ensures err == Ok ==> Grown(old(peer.View()), peer.View(), r.scope, r.Leases() - {0})
  {
    hide *;
    ghost var l0 := peer.View();
    ValidBalances(peer);
    ViewFields(peer);
    Unchanged(l0);
    if pending + prepared >= MAX_PENDING {
      return ResourceLimit, NONE;
    }
    RoomSplits(l0, receive, initial, deferred);
    WantedAdds(l0.usage, receive, initial, deferred);
    PlusFields(peer);
    var scope, lease;
    err, scope, lease := BeginHandshake(peer, receive);
    if err != Ok {
      return err, NONE;
    }
    r := Reserved(scope, lease, [], 0, 0);
    HandlesOf(r);
    ghost var begun := peer.leases;
    var leases, packet, metadata;
    err, leases := ReserveInitial(peer, scope, initial, l0, {lease} - {0});
    r := r.(initial := leases);
    HandlesOf(r);
    if err == Ok {
      ghost var before := peer.leases;
      err, packet, metadata := ReserveRest(peer, r, deferred, l0);
      r := r.(packet := packet, metadata := metadata);
      if err == Ok {
        AllHeld(begun, before, peer.leases, r, receive, initial, deferred);
      }
    }
    if err != Ok {
      Rollback(peer, r, l0);
      r := NONE;
    }
  }

  lemma PlusFields(peer: Peer)
    ensures peer.View().limits == peer.limits && peer.View().usage == peer.usage
  {
  }

  // An attempt is afforded exactly when each of its stages is.
  lemma RoomSplits(l: Ledger, receive: Claim, initial: seq<Claim>, deferred: bool)
    ensures var a, b := ReceiveUsage(receive), SumTo(initial, |initial|);
      HasRoom(l, receive, initial, deferred) <==>
        && MayBegin(l, receive) && (forall i :: 0 <= i < |initial| ==> !initial[i].Empty())
        && (initial != [] ==> Affords(l.limits, l.usage.Plus(a), a, b))
        && Affords(l.limits, l.usage.Plus(a).Plus(b), a.Plus(b), Rest(deferred))
  {
    hide SumTo, Pending, Usage.Plus, Usage.NonNegative, CreditLaws.WithinLimits, Rest, Charge;
    var a, b, c := ReceiveUsage(receive), SumTo(initial, |initial|), Rest(deferred);
    SumIsNonNegative(initial, |initial|);
    RestIsNonNegative(deferred);
    PlusAssociates(l.usage, a, b, c);
    if Affords(l.limits, l.usage.Plus(a).Plus(b), a.Plus(b), c) {
      WithinLess(l.limits, l.usage.Plus(a).Plus(b), a.Plus(b), c);
      WithinLess(l.limits, l.usage.Plus(a), a, b);
    }
  }

  lemma WantedAdds(u: Usage, receive: Claim, initial: seq<Claim>, deferred: bool)
    ensures var a, b, c := ReceiveUsage(receive), SumTo(initial, |initial|), Rest(deferred);
      u.Plus(a).Plus(b).Plus(c) == u.Plus(Wanted(receive, initial, deferred)) && a.Plus(b).Plus(c) == Wanted(receive, initial, deferred)
  {
    hide Usage.Plus;
    PlusAssociates(u, ReceiveUsage(receive), SumTo(initial, |initial|), Rest(deferred));
  }

  lemma RestIsNonNegative(deferred: bool)
    ensures Rest(deferred).NonNegative()
  {
    hide Charge, Usage.Plus, Usage.NonNegative;
    ChargeIsNonNegative(Bytes(PACKET_BYTES));
    ChargeIsNonNegative(Bytes(DISPOSAL_BYTES));
    SumOfTwo(Charge(Bytes(PACKET_BYTES)), Charge(Bytes(DISPOSAL_BYTES)));
    SumOfTwo(Charge(Bytes(PACKET_BYTES)), NOTHING);
  }

  lemma SumOfTwo(a: Usage, b: Usage)
    requires a.NonNegative()
    ensures NOTHING.NonNegative() && (b.NonNegative() ==> a.Plus(b).NonNegative())
  {
  }

  lemma PlusAssociates(u: Usage, a: Usage, b: Usage, c: Usage)
    ensures u.Plus(a).Plus(b).Plus(c) == u.Plus(a.Plus(b).Plus(c))
  {
  }

  lemma WithinLess(limits: Limits, peer: Usage, scope: Usage, more: Usage)
    requires more.NonNegative() && CreditLaws.WithinLimits(limits, peer.Plus(more), scope.Plus(more))
    ensures CreditLaws.WithinLimits(limits, peer, scope)
  {
  }

  lemma HandlesOf(r: Reserved)
    requires r.packet == r.metadata == 0 && 0 !in r.initial
    ensures r.Leases() - {0} == {r.receive} - {0} + Elements(r.initial)
  {
  }

  // Later reservations take nothing away from earlier ones.
  lemma AllHeld(
    m: map<Handle, LeaseState>, n: map<Handle, LeaseState>, o: map<Handle, LeaseState>,
    r: Reserved, receive: Claim, initial: seq<Claim>, deferred: bool)
    requires Kept(m, n) && Kept(n, o) && (r.receive == 0 <==> receive.Empty())
    requires r.receive != 0 ==> Holding(m, r.receive, receive)
    requires |r.initial| == |initial| && HoldsInitial(n, r.initial, initial) && Holding(o, r.packet, Bytes(PACKET_BYTES))
    requires (r.metadata == 0 <==> !deferred) && (r.metadata != 0 ==> Holding(o, r.metadata, Bytes(DISPOSAL_BYTES)))
    ensures Holds(o, r, receive, initial, deferred)
  {
    HoldsMore(n, o, r.initial, initial);
  }

  method BeginHandshake(peer: Peer, receive: Claim) returns (err: Err, scope: Handle, lease: Handle)
    requires peer.Valid()
    modifies peer
    ensures peer.Valid() && (err != Ok ==> peer.View() == old(peer.View()))
    ensures err == Ok <==> old(MayBegin(peer.View(), receive))
    ensures err == Ok ==>
      && scope in peer.sessions && peer.usage == old(peer.usage).Plus(ReceiveUsage(receive))
      && peer.sessions[scope].usage == ReceiveUsage(receive)
    ensures err == Ok ==>
      && Waits(peer.View(), scope) && (lease == 0 <==> receive.Empty())
      && (lease != 0 ==> Holding(peer.leases, lease, receive))
      && Grown(old(peer.View()), peer.View(), scope, {lease} - {0})
  {
    hide *;
    ValidBalances(peer);
    ViewFields(peer);
    BeginEffect(peer.View(), receive);
    BeginAfforded(peer.View(), receive);
    err, scope, lease := peer.Begin(receive, true);
    ViewFields(peer);
    assert {lease} - {0} == if lease == 0 then {} else {lease};
  }

  lemma BeginAfforded(l: Ledger, receive: Claim)
    requires Inv(l) && l.next > 0
    ensures var n := l.Begin(receive, true);
      && (l.BeginErr(receive, true) == Ok <==> MayBegin(l, receive))
      && (l.BeginErr(receive, true) == Ok ==>
          && l.next in n.sessions && n.usage == l.usage.Plus(ReceiveUsage(receive))
          && n.sessions[l.next].usage == ReceiveUsage(receive))
  {
    hide Inv, Total, OwnedBy, Ledger.Fits, Pending;
    CreditLaws.BeginIsExact(l, receive, true);
    CreditLaws.PeerUsage(l);
    PlusNothing(l.usage);
  }

  lemma BeginEffect(l: Ledger, receive: Claim)
    requires Resolved(l) && l.next > 0
    ensures var n := l.Begin(receive, true);
      && (l.BeginErr(receive, true) != Ok ==> n == l)
      && (l.BeginErr(receive, true) == Ok ==>
          && Waits(n, l.next)
          && (receive.Empty() ==> Grown(l, n, l.next, {}))
          && (!receive.Empty() ==> Holding(n.leases, l.next + 1, receive) && Grown(l, n, l.next, {l.next + 1})))
  {
    hide Grown;
    if l.BeginErr(receive, true) == Ok {
      BeginGrows(l, receive);
    }
  }

  lemma Unchanged(l: Ledger)
    ensures SameCredits(l, l)
  {
  }
}
