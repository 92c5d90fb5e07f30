// internal/creditv2: what a caller of the credit ledger may rely on.
//
// `CreditLedger` proves that the books balance. Here the answers and effects of
// the operations are told in terms of those balanced sums: which requests are
// granted, what may happen to a lease and to a scope, and that bound storage
// stays with its Session for good.
module CreditLaws {
  import opened Words
  import opened CreditLedger

  // ---------------------------------------------------------------------------
  // Which requests are granted

  // Books of a Peer and of one of its scopes that no limit forbids.
  predicate WithinLimits(limits: Limits, peer: Usage, scope: Usage) {
    && peer.bytes <= limits.maxPeerBytes && peer.reservations <= limits.maxReservations
    && peer.businessStreams <= limits.maxPeerStreams && peer.pendingAccepts <= limits.maxPendingAccepts
    && WithinSession(limits, scope)
  }

  predicate WithinSession(limits: Limits, scope: Usage) {
    scope.bytes <= limits.maxSessionBytes && scope.businessStreams <= limits.maxStreamsPerSession
  }

  lemma ScopeUsage(l: Ledger, s: Handle)
    requires Inv(l) && s in l.sessions
    ensures l.sessions[s].usage == Total(OwnedBy(l.leases, s))
    ensures l.sessions[s].usage.businessStreams <= l.limits.maxStreamsPerSession
  {
    assert Counted(l, s, Shares(l.leases));
  }

  lemma PeerUsage(l: Ledger)
    requires Inv(l)
    ensures l.usage == Total(l.leases) && Bounded(l)
  {
  }

  /** A reservation is granted exactly when the sums over the live leases stay
      within every limit with it, and each refusal has its own reason. */
  lemma ReserveIsExact(l: Ledger, s: Handle, claim: Claim)
    requires Inv(l)
    ensures l.ReserveErr(s, claim) == Ok <==>
      && s in l.sessions && !l.sessions[s].closed && !l.closed && !claim.Empty()
      && WithinLimits(l.limits, Total(l.leases).Plus(Charge(claim)), Total(OwnedBy(l.leases, s)).Plus(Charge(claim)))
    ensures l.ReserveErr(s, claim) == Invalid <==> s !in l.sessions || claim.Empty()
    ensures l.ReserveErr(s, claim) == ScopeClosed <==>
      s in l.sessions && !claim.Empty() && (l.sessions[s].closed || l.closed)
    ensures l.ReserveErr(s, claim) != LeaseReleased
  {
    hide Inv, Books, Total, OwnedBy;
    PeerUsage(l);
    if s in l.sessions {
      ScopeUsage(l, s);
    }
  }

  /** A Session begins exactly when the Peer is open, a slot of its kind is free
      and its first claim, if any, stays within every limit. */
  lemma BeginIsExact(l: Ledger, initial: Claim, pending: bool)
    requires Inv(l)
    ensures l.BeginErr(initial, pending) == Ok <==>
      && !l.closed && |l.registered| < l.limits.maxSessions
      && (pending ==> |Pending(l)| < l.limits.maxPendingHandshakes)
      && (initial.Empty() || WithinLimits(l.limits, Total(l.leases).Plus(Charge(initial)), Charge(initial)))
    ensures l.BeginErr(initial, pending) == ScopeClosed <==> l.closed
    ensures l.BeginErr(initial, pending) in {Ok, ScopeClosed, ResourceLimit}
  {
  }

  /** A live lease moves to another open scope of the Peer exactly when it is not
      bound and the scope's own sums stay within its limits with it; moving it to
      the scope that has it already is no error. */
  lemma TransferIsExact(l: Ledger, h: Handle, target: Handle)
    requires Inv(l)
    ensures l.TransferErr(h, target) == Ok <==>
      && target in l.sessions && h in l.leases && !l.sessions[target].closed && !l.closed
      && (l.leases[h].owner == target
          || (!l.leases[h].bound
              && WithinSession(l.limits, Total(OwnedBy(l.leases, target)).Plus(Charge(l.leases[h].claim)))))
    ensures l.TransferErr(h, target) == LeaseReleased <==> target in l.sessions && h !in l.leases
    ensures l.TransferErr(h, target) == ScopeClosed <==>
      target in l.sessions && h in l.leases && (l.sessions[target].closed || l.closed)
    ensures l.TransferErr(h, target) == Invalid <==>
      || target !in l.sessions
      || (h in l.leases && l.leases[h].bound && l.leases[h].owner != target && !l.sessions[target].closed && !l.closed)
  {
    hide Inv, Books, Total, OwnedBy;
    if target in l.sessions {
      ScopeUsage(l, target);
    }
  }

  /** Binding needs storage of an established open scope's own that is large enough and
      not bound yet; acceptance a reserved accept of such a scope; shrinking no more bytes
      than there are; promotion an open scope. */
  lemma ChangesAreExact(l: Ledger, s: Handle, h: Handle, bytes: U64)
    requires Inv(l)
    ensures l.BindErr(s, h, bytes) == Ok <==>
      && Working(l, s) && h in l.leases && l.leases[h].owner == s && !l.leases[h].bound
      && !l.leases[h].claim.businessStream && !l.leases[h].claim.pendingAccept
      && 0 < bytes <= l.leases[h].claim.bytes && bytes <= MAX_RETAINED_BYTES
    ensures l.AcceptErr(h) == Ok <==> h in l.leases && Working(l, l.leases[h].owner) && l.leases[h].acceptReserved
    ensures l.ShrinkErr(h, bytes) == Ok <==> h in l.leases && bytes <= l.leases[h].claim.bytes
    ensures l.PromoteErr(s) == Ok <==> s in l.sessions && !l.sessions[s].closed && !l.closed
  {
    assert Resolved(l);
  }

  // The scope is established and open.
  predicate Working(l: Ledger, s: Handle) {
    s in l.sessions && !l.sessions[s].closed && !l.closed && !l.sessions[s].pendingHandshake
  }

  // The leases with a stream, and those with an accept still outstanding.
  ghost function Streams(m: map<Handle, LeaseState>): set<Handle> {
    set h | h in m && m[h].claim.businessStream
  }

  ghost function Accepts(m: map<Handle, LeaseState>): set<Handle> {
    set h | h in m && m[h].claim.pendingAccept
  }

  lemma OneMore(s: set<Handle>, t: set<Handle>, h: Handle)
    requires h in s && h !in t && forall x :: x != h ==> (x in s <==> x in t)
    ensures |s| == |t| + 1
  {
    assert s == t + {h};
  }

  lemma StreamsStep(m: map<Handle, LeaseState>, h: Handle)
    requires h in m
    ensures |Streams(m)| == |Streams(m - {h})| + if m[h].claim.businessStream then 1 else 0
  {
    if m[h].claim.businessStream {
      OneMore(Streams(m), Streams(m - {h}), h);
    } else {
      assert Streams(m) == Streams(m - {h});
    }
  }

  lemma AcceptsStep(m: map<Handle, LeaseState>, h: Handle)
    requires h in m
    ensures |Accepts(m)| == |Accepts(m - {h})| + if m[h].claim.pendingAccept then 1 else 0
  {
    if m[h].claim.pendingAccept {
      OneMore(Accepts(m), Accepts(m - {h}), h);
    } else {
      assert Accepts(m) == Accepts(m - {h});
    }
  }

  /** What the limits speak of: the number of live leases, of streams and of accepts that
      are outstanding among them, and the sum of their bytes, whichever is taken first. */
  lemma {:induction false} TotalIsCount(m: map<Handle, LeaseState>)
    ensures Total(m).reservations == |m|
    ensures Total(m).businessStreams == |Streams(m)| && Total(m).pendingAccepts == |Accepts(m)|
    decreases |m|
  {
    hide Streams, Accepts;
    if m == map[] {
      NoneCounted();
    } else {
      var p := Pick(m);
      StreamsStep(m, p);
      AcceptsStep(m, p);
      TotalCounts(m);
      TotalIsCount(m - {p});
    }
  }

  lemma NoneCounted()
    ensures Streams(map[]) == {} && Accepts(map[]) == {}
  {
  }

  lemma BytesAddUp(m: map<Handle, LeaseState>, h: Handle)
    ensures Total(m).bytes == if h in m then m[h].claim.bytes + Total(m - {h}).bytes else Total(m - {h}).bytes
    ensures Total(map[]).bytes == 0
  {
    if h in m {
      TotalRemove(m, h);
    } else {
      assert m - {h} == m;
    }
  }

  // ---------------------------------------------------------------------------
  // What may happen to a lease

  function Answer(l: Ledger, op: Op): Err {
    match op
    case BeginOp(initial, pending) => l.BeginErr(initial, pending)
    case PromoteOp(s) => l.PromoteErr(s)
    case ReserveOp(s, claim) => l.ReserveErr(s, claim)
    case BindOp(s, h, required) => l.BindErr(s, h, required)
    case TransferOp(h, s) => l.TransferErr(h, s)
    case AcceptOp(h) => l.AcceptErr(h)
    case ShrinkOp(h, bytes) => l.ShrinkErr(h, bytes)
    case ReleaseOp(h) => Ok
    case CloseSessionOp(s) => Ok
    case ClosePeerOp => Ok
  }

  // What became of a lease that was live before an operation.
  ghost predicate Continues(x: LeaseState, y: LeaseState, h: Handle, op: Op, ok: bool) {
    && y.acceptReserved == x.acceptReserved && y.claim.businessStream == x.claim.businessStream
    && y.owner == (if ok && op.TransferOp? && op.l == h then op.s else x.owner)
    && y.claim.bytes == (if ok && op.ShrinkOp? && op.l == h then op.bytes else x.claim.bytes) <= x.claim.bytes
    && y.claim.pendingAccept == (x.claim.pendingAccept && !(ok && op == AcceptOp(h)))
    && y.bound == (x.bound || (ok && op.BindOp? && op.l == h))
  }

  // A lease that an operation brought into being.
  predicate Issued(y: LeaseState, h: Handle, l: Ledger, op: Op) {
    && !y.bound && y.acceptReserved == y.claim.pendingAccept
    && ((op.ReserveOp? && h == l.next && y.owner == op.s && y.claim == op.claim)
        || (op.BeginOp? && h == l.next + 1 && y.owner == l.next && y.claim == op.initial && !y.claim.Empty()))
  }

  lemma {:induction false} CloseAllLeases(l: Ledger, todo: set<Handle>)
    ensures l.CloseAll(todo).leases == l.leases && l.CloseAll(todo).next == l.next
    decreases todo
  {
    if todo != {} {
      CloseAllLeases(l.CloseSession(PickScope(todo)), todo - {PickScope(todo)});
    }
  }

  // The leases after a transfer, and after a change of one claim.
  lemma TransferLeases(l: Ledger, h: Handle, target: Handle)
    requires Resolved(l)
    ensures l.Transfer(h, target).leases ==
      if l.TransferErr(h, target) == Ok then l.leases[h := l.leases[h].(owner := target)] else l.leases
    ensures l.Transfer(h, target).next == l.next
  {
  }

  lemma ReleaseLeases(l: Ledger, h: Handle)
    requires Resolved(l)
    ensures l.Release(h).next == l.next && l.Release(h).leases == l.leases - {h}
  {
    if h !in l.leases {
      assert l.leases - {h} == l.leases;
    }
  }

  lemma ClaimLeases(l: Ledger, h: Handle, bytes: U64)
    requires Resolved(l)
    ensures l.Accept(h).next == l.Shrink(h, bytes).next == l.next
    ensures l.Accept(h).leases == if l.AcceptErr(h) != Ok then l.leases
      else l.leases[h := l.leases[h].(claim := l.leases[h].claim.(pendingAccept := false))]
    ensures l.Shrink(h, bytes).leases == if l.ShrinkErr(h, bytes) != Ok then l.leases
      else l.leases[h := l.leases[h].(claim := l.leases[h].claim.(bytes := bytes))]
  {
  }

  /** A lease ends by its own release only and always by it. Until then its owner
      changes by a transfer, its bytes by shrinking, its accept by acceptance and
      its binding by BindBytes, each of this very lease and each as requested. */
  lemma LeaseLife(l: Ledger, op: Op, h: Handle)
    requires Resolved(l) && h in l.leases
    ensures h in Apply(l, op).leases <==> op != ReleaseOp(h)
    ensures h in Apply(l, op).leases ==>
      Continues(l.leases[h], Apply(l, op).leases[h], h, op, Answer(l, op) == Ok)
    ensures Apply(l, op).next >= l.next
  {
    hide Charge, Usage.Plus, Usage.Minus, Ledger.Fits, Ledger.FitsSession, Ledger.Transfer, Ledger.Accept, Ledger.Shrink,
      Ledger.Release, Ledger.BeginErr, Ledger.ReserveErr, Ledger.TransferErr, Ledger.AcceptErr;
    match op
    case TransferOp(x, s) => TransferLeases(l, x, s);
    case AcceptOp(x) => ClaimLeases(l, x, 0);
    case ShrinkOp(x, bytes) => ClaimLeases(l, x, bytes);
    case ReleaseOp(x) => ReleaseLeases(l, x);
    case ClosePeerOp => if !l.closed { CloseAllLeases(l.(closed := true), l.registered); }
    case _ =>
  }

  /** A lease comes into being by a granted request only, under a number never
      used before, with the owner and the claim that were asked for. */
  lemma LeaseBirth(l: Ledger, op: Op, h: Handle)
    requires Resolved(l) && h !in l.leases
    ensures h in Apply(l, op).leases ==> Answer(l, op) == Ok && Issued(Apply(l, op).leases[h], h, l, op)
    ensures op.ReserveOp? && Answer(l, op) == Ok && h == l.next ==> h in Apply(l, op).leases
    ensures op.BeginOp? && Answer(l, op) == Ok && !op.initial.Empty() && h == l.next + 1 ==> h in Apply(l, op).leases
    ensures Apply(l, op).next >= l.next && (h in Apply(l, op).leases ==> l.next <= h < Apply(l, op).next)
  {
    hide Charge, Usage.Plus, Usage.Minus, Ledger.Fits, Ledger.FitsSession;
    if op == ClosePeerOp && !l.closed {
      CloseAllLeases(l.(closed := true), l.registered);
    }
  }

  /** A refused operation changes nothing at all. */
  lemma RefusedChangesNothing(l: Ledger, op: Op)
    requires Answer(l, op) != Ok
    ensures Apply(l, op) == l
  {
  }

  // ---------------------------------------------------------------------------
  // What may happen to a scope

  lemma {:induction false} CloseAllScopes(l: Ledger, todo: set<Handle>, s: Handle)
    requires s in l.sessions && todo <= l.sessions.Keys
    ensures s in l.CloseAll(todo).sessions && l.CloseAll(todo).closed == l.closed
    ensures l.CloseAll(todo).sessions[s].closed == (l.sessions[s].closed || s in todo)
    ensures l.CloseAll(todo).sessions[s].pendingHandshake == l.sessions[s].pendingHandshake
    decreases todo
  {
    if todo != {} {
      CloseAllScopes(l.CloseSession(PickScope(todo)), todo - {PickScope(todo)}, s);
    }
  }

  lemma ScopeFacts(l: Ledger, s: Handle)
    requires Inv(l) && s in l.sessions
    ensures l.registered <= l.sessions.Keys && s < l.next
    ensures s !in l.registered || l.closed ==> l.sessions[s].closed
  {
    assert Counted(l, s, Shares(l.leases));
  }

  /** A scope closes by its own Close or by that of the Peer and never reopens; it
      is established by its promotion and never pending again. */
  lemma ScopeLife(l: Ledger, op: Op, s: Handle)
    requires Inv(l) && s in l.sessions
    ensures s in Apply(l, op).sessions
    ensures Apply(l, op).sessions[s].closed <==> l.sessions[s].closed || op == CloseSessionOp(s) || op == ClosePeerOp
    ensures Apply(l, op).sessions[s].pendingHandshake <==>
      l.sessions[s].pendingHandshake && !(op == PromoteOp(s) && !l.sessions[s].closed && !l.closed)
    ensures Apply(l, op).closed <==> l.closed || op == ClosePeerOp
  {
    hide Inv, Books, Charge, Usage.Plus, Usage.Minus, Ledger.Fits, Ledger.FitsSession;
    ScopeFacts(l, s);
    if op == ClosePeerOp && !l.closed {
      CloseAllScopes(l.(closed := true), l.registered, s);
    }
  }

  /** A new scope is open, of the kind that was asked for and gets the next number. */
  lemma ScopeBirth(l: Ledger, op: Op, s: Handle)
    requires Inv(l) && s !in l.sessions
    ensures s in Apply(l, op).sessions <==> op.BeginOp? && Answer(l, op) == Ok && s == l.next
    ensures s in Apply(l, op).sessions ==>
      && !Apply(l, op).sessions[s].closed && Apply(l, op).sessions[s].pendingHandshake == op.pending
  {
    hide Inv, Books;
    if op == ClosePeerOp && !l.closed {
      ClosedScopesStay(l.(closed := true), l.registered);
    }
  }

  lemma {:induction false} ClosedScopesStay(l: Ledger, todo: set<Handle>)
    ensures l.CloseAll(todo).sessions.Keys == l.sessions.Keys
    decreases todo
  {
    if todo != {} {
      ClosedScopesStay(l.CloseSession(PickScope(todo)), todo - {PickScope(todo)});
    }
  }

  // ---------------------------------------------------------------------------
  // Bound storage

  lemma {:induction false} RunResolves(l: Ledger, ops: seq<Op>)
    requires Resolved(l)
    ensures Resolved(Run(l, ops))
  {
    if ops != [] {
      RunResolves(l, ops[..|ops| - 1]);
      ApplyResolves(Run(l, ops[..|ops| - 1]), ops[|ops| - 1]);
    }
  }

  /** A number that is not live and was given out before is never live again. */
  lemma {:induction false} ReleasedForGood(l: Ledger, ops: seq<Op>, h: Handle)
    requires Resolved(l) && h < l.next && h !in l.leases
    ensures h !in Run(l, ops).leases && h < Run(l, ops).next
  {
    if ops != [] {
      RunResolves(l, ops[..|ops| - 1]);
      ReleasedForGood(l, ops[..|ops| - 1], h);
      LeaseBirth(Run(l, ops[..|ops| - 1]), ops[|ops| - 1], h);
    }
  }

  /** Storage that was bound once stays bound and stays with its Session for as
      long as it is live, whatever the operations that follow. */
  lemma {:induction false} BoundForGood(l: Ledger, ops: seq<Op>, h: Handle)
    requires Resolved(l) && h in l.leases && l.leases[h].bound
    ensures var r := Run(l, ops);
      h in r.leases ==> r.leases[h].bound && r.leases[h].owner == l.leases[h].owner
    ensures h < Run(l, ops).next
  {
    if ops != [] {
      var before, op := Run(l, ops[..|ops| - 1]), ops[|ops| - 1];
      RunResolves(l, ops[..|ops| - 1]);
      BoundForGood(l, ops[..|ops| - 1], h);
      if h in before.leases {
        LeaseLife(before, op, h);
        BoundStays(before, h);
      } else {
        LeaseBirth(before, op, h);
      }
    }
  }

  lemma BoundStays(l: Ledger, h: Handle)
    requires h in l.leases && l.leases[h].bound
    ensures forall s, required :: l.BindErr(s, h, required) != Ok
    ensures forall s :: l.TransferErr(h, s) == Ok ==> s == l.leases[h].owner
  {
  }

  /** After any run a successful BindBytes dedicates the lease for good: from then
      on a second one fails, and so does a transfer to any other Session. */
  lemma BindOnce(limits: Limits, before: seq<Op>, s: Handle, h: Handle, required: U64, after: seq<Op>)
    requires limits.InBounds() && Run(NewLedger(limits), before).BindErr(s, h, required) == Ok
    ensures var r := Run(Apply(Run(NewLedger(limits), before), BindOp(s, h, required)), after);
      && (h in r.leases ==> r.leases[h].bound && r.leases[h].owner == s)
      && (forall s', required' :: r.BindErr(s', h, required') != Ok)
      && (forall s' :: r.TransferErr(h, s') == Ok ==> s' == s)
  {
    var l := Run(NewLedger(limits), before);
    RunResolves(NewLedger(limits), before);
    ApplyResolves(l, BindOp(s, h, required));
    var bound := Apply(l, BindOp(s, h, required));
    BoundForGood(bound, after, h);
    var r := Run(bound, after);
    if h in r.leases {
      BoundStays(r, h);
    }
  }
}
