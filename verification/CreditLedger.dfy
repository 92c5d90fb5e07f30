// internal/creditv2: the credit ledger of one Peer, its Session scopes and
// their leases.
//
// `Ledger` is the reference: one pure transition per operation, with the
// conservation law proved over every run. `Peer` is the code, updated in place
// and tied to the transitions. Session and Lease pointers are handles: numbers
// that the Peer never issues twice.
module CreditLedger {
  import opened Words

  const MAX_RETAINED_BYTES := 0x4000_0000
  const MAX_RESERVATIONS := 0x10_0000

  type Handle = nat

  datatype Err = Ok | Invalid | ResourceLimit | ScopeClosed | LeaseReleased

  datatype Limits = Limits(
    maxPeerBytes: U64, maxSessionBytes: U64, maxSessions: int, maxPendingHandshakes: int,
    maxPendingAccepts: int, maxStreamsPerSession: int, maxPeerStreams: int, maxReservations: int)
  {
    predicate InBounds() {
      && 0 < maxPeerBytes <= MAX_RETAINED_BYTES && 0 < maxSessionBytes <= maxPeerBytes
      && 1 <= maxSessions <= 65536 && 1 <= maxPendingHandshakes <= 4096 && 1 <= maxPendingAccepts <= 65536
      && 1 <= maxStreamsPerSession <= 4096 && 1 <= maxPeerStreams <= 65536
      && 1 <= maxReservations <= MAX_RESERVATIONS
    }
  }

  datatype Claim = Claim(bytes: U64, businessStream: bool, pendingAccept: bool) {
    predicate Empty() {
      bytes == 0 && !businessStream && !pendingAccept
    }
  }

  function Bytes(n: U64): Claim {
    Claim(n, false, false)
  }

  datatype Usage = Usage(bytes: int, reservations: int, businessStreams: int, pendingAccepts: int) {
    function Plus(u: Usage): Usage {
      Usage(bytes + u.bytes, reservations + u.reservations,
            businessStreams + u.businessStreams, pendingAccepts + u.pendingAccepts)
    }

    function Minus(u: Usage): Usage {
      Usage(bytes - u.bytes, reservations - u.reservations,
            businessStreams - u.businessStreams, pendingAccepts - u.pendingAccepts)
    }

    predicate NonNegative() {
      bytes >= 0 && reservations >= 0 && businessStreams >= 0 && pendingAccepts >= 0
    }
  }

  const NOTHING := Usage(0, 0, 0, 0)

  function Charge(claim: Claim): Usage {
    Usage(claim.bytes, 1, if claim.businessStream then 1 else 0, if claim.pendingAccept then 1 else 0)
  }

  datatype SessionState = SessionState(usage: Usage, pendingHandshake: bool, closed: bool, retired: bool)

  // An unreleased lease.
  datatype LeaseState = LeaseState(owner: Handle, claim: Claim, acceptReserved: bool, bound: bool)

  datatype Ledger = Ledger(
    limits: Limits, usage: Usage, sessionSlots: int, pendingHandshakes: int, establishedSessions: int,
    closed: bool, registered: set<Handle>, sessions: map<Handle, SessionState>,
    leases: map<Handle, LeaseState>, next: Handle)
  {
    predicate FitsSession(used: Usage, claim: Claim) {
      && claim.bytes <= limits.maxSessionBytes - used.bytes
      && !(claim.businessStream && used.businessStreams == limits.maxStreamsPerSession)
    }

    predicate Fits(used: Usage, claim: Claim) {
      && FitsSession(used, claim)
      && claim.bytes <= limits.maxPeerBytes - usage.bytes
      && usage.reservations != limits.maxReservations
      && !(claim.businessStream && usage.businessStreams == limits.maxPeerStreams)
      && !(claim.pendingAccept && usage.pendingAccepts == limits.maxPendingAccepts)
    }

    // A scope retires once, when it is closed and owns no lease.
    function Retire(s: Handle): Ledger
      requires s in sessions
    {
      var x := sessions[s];
      if !x.closed || x.retired || x.usage.reservations != 0 then this
      else this.(
        sessions := sessions[s := x.(retired := true)],
        registered := registered - {s},
        sessionSlots := sessionSlots - 1,
        pendingHandshakes := pendingHandshakes - (if x.pendingHandshake then 1 else 0),
        establishedSessions := establishedSessions - (if x.pendingHandshake then 0 else 1))
    }

    function BeginErr(initial: Claim, pending: bool): Err {
      if closed then ScopeClosed
      else if sessionSlots == limits.maxSessions || (pending && pendingHandshakes == limits.maxPendingHandshakes)
        then ResourceLimit
      else if !initial.Empty() && !Fits(NOTHING, initial) then ResourceLimit
      else Ok
    }

    function Opened(pending: bool): Ledger {
      this.(
        sessions := sessions[next := SessionState(NOTHING, pending, false, false)],
        registered := registered + {next},
        sessionSlots := sessionSlots + 1,
        pendingHandshakes := pendingHandshakes + (if pending then 1 else 0),
        establishedSessions := establishedSessions + (if pending then 0 else 1),
        next := next + 1)
    }

    // The new Session is handle `next`; its initial lease, if any, `next + 1`.
    function Begin(initial: Claim, pending: bool): Ledger {
      if BeginErr(initial, pending) != Ok then this
      else if initial.Empty() then Opened(pending)
      else Opened(pending).Charged(next, initial)
    }

    function Charged(s: Handle, claim: Claim): Ledger
      requires s in sessions
    {
      this.(
        usage := usage.Plus(Charge(claim)),
        sessions := sessions[s := sessions[s].(usage := sessions[s].usage.Plus(Charge(claim)))],
        leases := leases[next := LeaseState(s, claim, claim.pendingAccept, false)],
        next := next + 1)
    }

    function PromoteErr(s: Handle): Err {
      if s !in sessions then Invalid else if sessions[s].closed || closed then ScopeClosed else Ok
    }

    function Promote(s: Handle): Ledger {
      if PromoteErr(s) != Ok || !sessions[s].pendingHandshake then this
      else this.(
        sessions := sessions[s := sessions[s].(pendingHandshake := false)],
        pendingHandshakes := pendingHandshakes - 1,
        establishedSessions := establishedSessions + 1)
    }

    function ReserveErr(s: Handle, claim: Claim): Err {
      if s !in sessions || claim.Empty() then Invalid
      else if sessions[s].closed || closed then ScopeClosed
      else if !Fits(sessions[s].usage, claim) then ResourceLimit
      else Ok
    }

    // The new lease is handle `next`.
    function Reserve(s: Handle, claim: Claim): Ledger {
      if ReserveErr(s, claim) != Ok then this else Charged(s, claim)
    }

    function BindErr(s: Handle, l: Handle, required: U64): Err {
      if s !in sessions || required == 0 || required > MAX_RETAINED_BYTES then Invalid
      else if sessions[s].closed || closed then ScopeClosed
      else if sessions[s].pendingHandshake then Invalid
      else if l !in leases then LeaseReleased
      else if leases[l].owner != s || leases[l].bound || leases[l].claim.businessStream
        || leases[l].claim.pendingAccept || leases[l].claim.bytes < required then Invalid
      else Ok
    }

    function Bind(s: Handle, l: Handle, required: U64): Ledger {
      if BindErr(s, l, required) != Ok then this
      else this.(leases := leases[l := leases[l].(bound := true)])
    }

    function TransferErr(l: Handle, target: Handle): Err {
      if target !in sessions then Invalid
      else if l !in leases then LeaseReleased
      else if sessions[target].closed || closed then ScopeClosed
      else if leases[l].owner == target then Ok
      else if leases[l].bound then Invalid
      else if !FitsSession(sessions[target].usage, leases[l].claim) then ResourceLimit
      else Ok
    }

    // The claim of a lease leaves its owner's books.
    function Debited(l: Handle): Ledger
      requires l in leases && leases[l].owner in sessions
    {
      var s, c := leases[l].owner, Charge(leases[l].claim);
      this.(
        usage := usage.Minus(c),
        sessions := sessions[s := sessions[s].(usage := sessions[s].usage.Minus(c))],
        leases := leases - {l})
    }

    // The claim enters the books of its new owner.
    function Credited(l: Handle, x: LeaseState): Ledger
      requires x.owner in sessions
    {
      var s, c := x.owner, Charge(x.claim);
      this.(
        usage := usage.Plus(c),
        sessions := sessions[s := sessions[s].(usage := sessions[s].usage.Plus(c))],
        leases := leases[l := x])
    }

    // The whole obligation moves; the Peer's usage stays as it was.
    function Transfer(l: Handle, target: Handle): Ledger {
      if TransferErr(l, target) != Ok || leases[l].owner == target || leases[l].owner !in sessions then this
      else Debited(l).Credited(l, leases[l].(owner := target)).Retire(leases[l].owner)
    }

    function AcceptErr(l: Handle): Err {
      if l !in leases || leases[l].owner !in sessions then LeaseReleased
      else if sessions[leases[l].owner].closed || closed then ScopeClosed
      else if sessions[leases[l].owner].pendingHandshake || !leases[l].acceptReserved then Invalid
      else Ok
    }

    function Accept(l: Handle): Ledger {
      if AcceptErr(l) != Ok then this else Reclaimed(l, leases[l].claim.(pendingAccept := false))
    }

    function ShrinkErr(l: Handle, bytes: U64): Err {
      if l !in leases || leases[l].owner !in sessions then LeaseReleased
      else if bytes > leases[l].claim.bytes then Invalid
      else Ok
    }

    function Shrink(l: Handle, bytes: U64): Ledger {
      if ShrinkErr(l, bytes) != Ok then this else Reclaimed(l, leases[l].claim.(bytes := bytes))
    }

    // A live lease keeps its owner and changes its claim.
    function Reclaimed(l: Handle, claim: Claim): Ledger
      requires l in leases && leases[l].owner in sessions
    {
      var s, x := leases[l].owner, sessions[leases[l].owner];
      var freed := Charge(leases[l].claim).Minus(Charge(claim));
      this.(
        usage := usage.Minus(freed),
        sessions := sessions[s := x.(usage := x.usage.Minus(freed))],
        leases := leases[l := leases[l].(claim := claim)])
    }

    function Release(l: Handle): Ledger {
      if l !in leases || leases[l].owner !in sessions then this
      else Debited(l).Retire(leases[l].owner)
    }

    function CloseSession(s: Handle): Ledger {
      if s !in sessions then this
      else this.(sessions := sessions[s := sessions[s].(closed := true)]).Retire(s)
    }

    ghost function CloseAll(todo: set<Handle>): Ledger
      decreases todo
    {
      if todo == {} then this
      else
        var s := PickScope(todo);
        CloseSession(s).CloseAll(todo - {s})
    }

    ghost function ClosePeer(): Ledger {
      if closed then this else this.(closed := true).CloseAll(registered)
    }
  }

  ghost function PickScope(todo: set<Handle>): (s: Handle)
    requires todo != {}
    ensures s in todo
  {
    var s :| s in todo;
    s
  }

  function NewLedger(limits: Limits): Ledger {
    Ledger(limits, NOTHING, 0, 0, 0, false, {}, map[], map[], 1)
  }

  // ---------------------------------------------------------------------------
  // Sums over leases

  ghost function Pick(m: map<Handle, LeaseState>): Handle
    requires m != map[]
    ensures Pick(m) in m
  {
    assert m.Keys != {};
    var l :| l in m;
    l
  }

  ghost function Total(m: map<Handle, LeaseState>): Usage
    decreases |m|
  {
    if m == map[] then NOTHING
    else Charge(m[Pick(m)].claim).Plus(Total(m - {Pick(m)}))
  }

  ghost function OwnedBy(m: map<Handle, LeaseState>, s: Handle): map<Handle, LeaseState> {
    map l | l in m && m[l].owner == s :: m[l]
  }

  lemma {:induction false} TotalRemove(m: map<Handle, LeaseState>, l: Handle)
    requires l in m
    ensures Total(m) == Charge(m[l].claim).Plus(Total(m - {l}))
    decreases |m|
  {
    var p := Pick(m);
    if p != l {
      TotalRemove(m - {p}, l);
      TotalRemove(m - {l}, p);
      assert m - {p} - {l} == m - {l} - {p};
    }
  }

  lemma TotalAdd(m: map<Handle, LeaseState>, l: Handle, x: LeaseState)
    requires l !in m
    ensures Total(m[l := x]) == Total(m).Plus(Charge(x.claim))
  {
    TotalRemove(m[l := x], l);
    assert m[l := x] - {l} == m;
  }

  lemma {:induction false} TotalCounts(m: map<Handle, LeaseState>)
    ensures Total(m).NonNegative() && Total(m).reservations == |m|
    decreases |m|
  {
    if m != map[] {
      TotalCounts(m - {Pick(m)});
    }
  }

  // A lease belongs to exactly one share.
  lemma ShareAdd(m: map<Handle, LeaseState>, l: Handle, x: LeaseState, s: Handle)
    requires l !in m
    ensures Total(OwnedBy(m[l := x], s))
      == if s == x.owner then Total(OwnedBy(m, s)).Plus(Charge(x.claim)) else Total(OwnedBy(m, s))
  {
    if s == x.owner {
      TotalAdd(OwnedBy(m, s), l, x);
      assert OwnedBy(m[l := x], s) == OwnedBy(m, s)[l := x];
    } else {
      assert OwnedBy(m[l := x], s) == OwnedBy(m, s);
    }
  }

  lemma ShareRemove(m: map<Handle, LeaseState>, l: Handle, s: Handle)
    requires l in m
    ensures Total(OwnedBy(m - {l}, s))
      == if s == m[l].owner then Total(OwnedBy(m, s)).Minus(Charge(m[l].claim)) else Total(OwnedBy(m, s))
  {
    ShareAdd(m - {l}, l, m[l], s);
    assert (m - {l})[l := m[l]] == m;
  }

  lemma ReplaceTotal(m: map<Handle, LeaseState>, l: Handle, x: LeaseState)
    requires l in m
    ensures Total(m[l := x]) == Total(m).Minus(Charge(m[l].claim)).Plus(Charge(x.claim))
  {
    assert m[l := x] == (m - {l})[l := x];
    TotalRemove(m, l);
    TotalAdd(m - {l}, l, x);
  }

  lemma ReplaceShare(m: map<Handle, LeaseState>, l: Handle, x: LeaseState, s: Handle)
    requires l in m
    ensures var moved := Charge(x.claim).Minus(Charge(m[l].claim));
      Total(OwnedBy(m[l := x], s)) ==
        if s == m[l].owner && s == x.owner then Total(OwnedBy(m, s)).Plus(moved)
        else if s == m[l].owner then Total(OwnedBy(m, s)).Minus(Charge(m[l].claim))
        else if s == x.owner then Total(OwnedBy(m, s)).Plus(Charge(x.claim))
        else Total(OwnedBy(m, s))
  {
    ShareRemove(m, l, s);
    ShareAdd(m - {l}, l, x, s);
    ReplaceIsMove(m, l, x);
  }

  lemma ReplaceIsMove(m: map<Handle, LeaseState>, l: Handle, x: LeaseState)
    ensures m[l := x] == (m - {l})[l := x]
  {
  }

  // ---------------------------------------------------------------------------
  // The conservation law
  //
  // The bookkeeping is proved for any total and shares; the sums over the live
  // leases are put in afterwards.

  ghost predicate Counted(l: Ledger, s: Handle, share: Handle -> Usage)
    requires s in l.sessions
  {
    var x := l.sessions[s];
    && x.usage == share(s) && x.usage.NonNegative()
    && x.usage.bytes <= l.limits.maxSessionBytes
    && x.usage.businessStreams <= l.limits.maxStreamsPerSession
    && (s in l.registered <==> !x.retired)
    && (x.retired ==> x.closed && x.usage.reservations == 0)
  }

  // The registered scopes that still wait for their handshake.
  ghost function Pending(l: Ledger): set<Handle> {
    set s | s in l.registered && s in l.sessions && l.sessions[s].pendingHandshake
  }

  ghost predicate Slots(l: Ledger) {
    && l.registered <= l.sessions.Keys
    && l.sessionSlots == |l.registered| <= l.limits.maxSessions
    && l.pendingHandshakes == |Pending(l)| <= l.limits.maxPendingHandshakes
    && l.sessionSlots == l.pendingHandshakes + l.establishedSessions
  }

  predicate Bounded(l: Ledger) {
    && l.limits.InBounds() && l.usage.NonNegative()
    && l.usage.bytes <= l.limits.maxPeerBytes && l.usage.reservations <= l.limits.maxReservations
    && l.usage.businessStreams <= l.limits.maxPeerStreams && l.usage.pendingAccepts <= l.limits.maxPendingAccepts
  }

  ghost predicate Handles(l: Ledger) {
    && (forall s :: s in l.sessions ==> s < l.next)
    && (forall x :: x in l.leases ==> x < l.next && l.leases[x].owner in l.sessions)
  }

  // A closed scope without leases is retired.
  predicate Settled(x: SessionState) {
    x.closed && x.usage.reservations == 0 ==> x.retired
  }

  // The books balance, except that the scopes `open` need not be closed yet when
  // the Peer is, and that a closed scope in `full` may still have to be retired.
  ghost predicate Books(
    l: Ledger, total: Usage, share: Handle -> Usage, open: set<Handle>, full: set<Handle>)
  {
    && Bounded(l) && Slots(l) && Handles(l) && l.usage == total
    && (forall s :: s in l.sessions ==> Counted(l, s, share))
    && (forall s :: s in l.sessions && s !in open && l.closed ==> l.sessions[s].closed)
    && (forall s :: s in l.sessions && s !in full ==> Settled(l.sessions[s]))
  }

  ghost function Shares(m: map<Handle, LeaseState>): Handle -> Usage {
    (s: Handle) => Total(OwnedBy(m, s))
  }

  // One scope's share moves by delta and no other share changes.
  ghost predicate Shifted(share': Handle -> Usage, share: Handle -> Usage, s: Handle, delta: Usage) {
    forall y :: share'(y) == if y == s then share(y).Plus(delta) else share(y)
  }

  ghost predicate Inv(l: Ledger) {
    Books(l, Total(l.leases), Shares(l.leases), {}, {})
  }

  // A step that touches one scope only has to balance that scope.
  lemma OneScope(
    l: Ledger, r: Ledger, s: Handle, share: Handle -> Usage, share': Handle -> Usage,
    open: set<Handle>, full: set<Handle>, open': set<Handle>, full': set<Handle>)
    requires Books(l, l.usage, share, open, full)
    requires open <= open' + {s} && full <= full' + {s}
    requires r.sessions.Keys == l.sessions.Keys + {s} && r.limits == l.limits && (r.closed ==> l.closed)
    requires forall x :: x in l.sessions && x != s ==> r.sessions[x] == l.sessions[x] && share'(x) == share(x)
    requires forall x :: x != s ==> (x in r.registered <==> x in l.registered)
    requires Bounded(r) && Slots(r) && Handles(r) && Counted(r, s, share')
    requires s !in open' && r.closed ==> r.sessions[s].closed
    requires s !in full' ==> Settled(r.sessions[s])
    ensures Books(r, r.usage, share', open', full')
  {
    forall x | x in r.sessions && x != s
      ensures Counted(r, x, share')
    {
      assert Counted(l, x, share);
    }
  }

  lemma RetireSlots(l: Ledger, s: Handle)
    requires s in l.sessions && Slots(l) && (l.sessions[s].retired <==> s !in l.registered)
    ensures Slots(l.Retire(s))
  {
    var r := l.Retire(s);
    if r != l {
      assert Pending(r) == Pending(l) - {s};
    }
  }

  lemma RetireBooks(l: Ledger, s: Handle, share: Handle -> Usage, open: set<Handle>, full: set<Handle>)
    requires s in l.sessions && Books(l, l.usage, share, open, full)
    ensures Books(l.Retire(s), l.usage, share, open, full - {s})
  {
    assert Counted(l, s, share);
    RetireSlots(l, s);
    if l.Retire(s) != l {
      OneScope(l, l.Retire(s), s, share, share, open, full, open, full - {s});
    }
  }

  predicate HasSlot(l: Ledger, pending: bool) {
    && !l.closed && l.sessionSlots != l.limits.maxSessions
    && !(pending && l.pendingHandshakes == l.limits.maxPendingHandshakes)
  }

  lemma OpenedBooks(l: Ledger, pending: bool, share: Handle -> Usage)
    requires Books(l, l.usage, share, {}, {}) && HasSlot(l, pending) && share(l.next) == NOTHING
    ensures Books(l.Opened(pending), l.usage, share, {}, {})
  {
    OpenedSlots(l, pending);
    forall x | x in l.Opened(pending).sessions
      ensures Counted(l.Opened(pending), x, share)
    {
      assert x != l.next ==> Counted(l, x, share);
    }
  }

  lemma OpenedSlots(l: Ledger, pending: bool)
    requires Slots(l) && Handles(l) && HasSlot(l, pending)
    ensures Slots(l.Opened(pending)) && Handles(l.Opened(pending))
  {
    assert l.next !in l.registered;
    assert Pending(l.Opened(pending)) == if pending then Pending(l) + {l.next} else Pending(l);
  }

  lemma PromoteBooks(l: Ledger, s: Handle, share: Handle -> Usage)
    requires Books(l, l.usage, share, {}, {})
    ensures Books(l.Promote(s), l.usage, share, {}, {})
  {
    var r := l.Promote(s);
    if r != l {
      assert Counted(l, s, share);
      assert Pending(r) == Pending(l) - {s};
      OneScope(l, r, s, share, share, {}, {}, {}, {});
    }
  }

  lemma CloseSessionBooks(l: Ledger, s: Handle, share: Handle -> Usage, open: set<Handle>)
    requires Books(l, l.usage, share, open, {}) && s in l.sessions
    ensures Books(l.CloseSession(s), l.usage, share, open - {s}, {})
  {
    var shut := l.(sessions := l.sessions[s := l.sessions[s].(closed := true)]);
    assert Pending(shut) == Pending(l);
    assert Counted(l, s, share);
    OneScope(l, shut, s, share, share, open, {}, open - {s}, {s});
    RetireBooks(shut, s, share, open - {s}, {s});
  }

  // The usage of one scope and of the Peer moves by the same amount.
  lemma AdjustBooks(
    l: Ledger, r: Ledger, s: Handle, share: Handle -> Usage, share': Handle -> Usage)
    requires Books(l, l.usage, share, {}, {}) && s in l.sessions && s in r.sessions
    requires r == l.(usage := r.usage, sessions := l.sessions[s := l.sessions[s].(usage := r.sessions[s].usage)],
                     leases := r.leases, next := r.next)
    requires Bounded(r) && Handles(r) && r.sessions[s].usage.NonNegative()
    requires r.sessions[s].usage.bytes <= l.limits.maxSessionBytes
    requires r.sessions[s].usage.businessStreams <= l.limits.maxStreamsPerSession
    requires l.sessions[s].retired ==> r.sessions[s].usage.reservations == 0
    requires forall x :: x in l.sessions && x != s ==> share'(x) == share(x)
    requires share'(s) == r.sessions[s].usage
    ensures Books(r, r.usage, share', {}, {s})
  {
    assert Pending(r) == Pending(l);
    assert Counted(l, s, share);
    OneScope(l, r, s, share, share', {}, {}, {}, {s});
  }

  lemma {:induction false} CloseAllBooks(l: Ledger, todo: set<Handle>, share: Handle -> Usage)
    requires Books(l, l.usage, share, todo, {}) && todo <= l.sessions.Keys
    ensures Books(l.CloseAll(todo), l.usage, share, {}, {})
    ensures l.CloseAll(todo).leases == l.leases && l.CloseAll(todo).closed == l.closed
    decreases todo
  {
    if todo != {} {
      var s := PickScope(todo);
      CloseSessionBooks(l, s, share, todo);
      CloseAllBooks(l.CloseSession(s), todo - {s}, share);
    }
  }

  lemma ClosePeerBooks(l: Ledger, share: Handle -> Usage)
    requires Books(l, l.usage, share, {}, {})
    ensures Books(l.ClosePeer(), l.usage, share, {}, {}) && l.ClosePeer().leases == l.leases && l.ClosePeer().closed
  {
    if !l.closed {
      var shut := l.(closed := true);
      assert Pending(shut) == Pending(l);
      assert forall x :: x in shut.sessions ==> Counted(l, x, share);
      CloseAllBooks(shut, shut.registered, share);
    }
  }

  // The next four lemmas are the book entries of the lease operations, for any
  // shares that move the way the operation says.

  lemma ChargedBooks(l: Ledger, s: Handle, claim: Claim, share: Handle -> Usage, share': Handle -> Usage)
    requires Books(l, l.usage, share, {}, {})
    requires s in l.sessions && !l.sessions[s].closed && l.Fits(l.sessions[s].usage, claim)
    requires Shifted(share', share, s, Charge(claim))
    ensures Books(l.Charged(s, claim), l.usage.Plus(Charge(claim)), share', {}, {})
  {
    assert Counted(l, s, share);
    AdjustBooks(l, l.Charged(s, claim), s, share, share');
  }

  lemma BoundBooks(
    l: Ledger, s: Handle, x: Handle, required: U64, share: Handle -> Usage, share': Handle -> Usage)
    requires Books(l, l.usage, share, {}, {}) && l.BindErr(s, x, required) == Ok
    requires forall y :: share'(y) == share(y)
    ensures Books(l.Bind(s, x, required), l.usage, share', {}, {})
  {
    var r := l.Bind(s, x, required);
    assert Counted(l, s, share);
    assert r.sessions == l.sessions[s := l.sessions[s]];
    AdjustBooks(l, r, s, share, share');
  }

  lemma ReclaimedBooks(l: Ledger, h: Handle, claim: Claim, share: Handle -> Usage, share': Handle -> Usage)
    requires Books(l, l.usage, share, {}, {}) && h in l.leases
    requires var c := l.leases[h].claim;
      claim.bytes <= c.bytes && claim.businessStream == c.businessStream && (claim.pendingAccept ==> c.pendingAccept)
    requires var c := Charge(l.leases[h].claim);
      l.usage.Minus(c).NonNegative() && share(l.leases[h].owner).Minus(c).NonNegative()
    requires Shifted(share', share, l.leases[h].owner, Charge(claim).Minus(Charge(l.leases[h].claim)))
    ensures Books(l.Reclaimed(h, claim), l.usage.Plus(Charge(claim).Minus(Charge(l.leases[h].claim))), share', {}, {})
  {
    var s := l.leases[h].owner;
    assert Counted(l, s, share);
    AdjustBooks(l, l.Reclaimed(h, claim), s, share, share');
  }

  lemma DebitedBooks(l: Ledger, h: Handle, share: Handle -> Usage, share': Handle -> Usage)
    requires Books(l, l.usage, share, {}, {}) && h in l.leases
    requires var c := Charge(l.leases[h].claim);
      l.usage.Minus(c).NonNegative() && share(l.leases[h].owner).Minus(c).NonNegative()
    requires Shifted(share', share, l.leases[h].owner, NOTHING.Minus(Charge(l.leases[h].claim)))
    ensures Books(l.Debited(h), l.usage.Minus(Charge(l.leases[h].claim)), share', {}, {l.leases[h].owner})
  {
    var s := l.leases[h].owner;
    assert Counted(l, s, share);
    AdjustBooks(l, l.Debited(h), s, share, share');
  }

  lemma CreditedBooks(
    l: Ledger, h: Handle, x: LeaseState, source: Handle, share: Handle -> Usage, share': Handle -> Usage)
    requires Books(l, l.usage, share, {}, {source}) && h < l.next
    requires x.owner in l.sessions && x.owner != source && !l.sessions[x.owner].closed
    requires l.FitsSession(l.sessions[x.owner].usage, x.claim) && Bounded(l.Credited(h, x))
    requires Shifted(share', share, x.owner, Charge(x.claim))
    ensures Books(l.Credited(h, x), l.usage.Plus(Charge(x.claim)), share', {}, {source})
  {
    var r := l.Credited(h, x);
    assert Pending(r) == Pending(l);
    assert Counted(l, x.owner, share);
    OneScope(l, r, x.owner, share, share', {}, {source}, {}, {source});
  }

  lemma CreditedThenRetired(
    l: Ledger, h: Handle, x: LeaseState, source: Handle, share: Handle -> Usage, share': Handle -> Usage)
    requires Books(l, l.usage, share, {}, {source}) && h < l.next && source in l.sessions
    requires x.owner in l.sessions && x.owner != source && !l.sessions[x.owner].closed
    requires l.FitsSession(l.sessions[x.owner].usage, x.claim) && Bounded(l.Credited(h, x))
    requires Shifted(share', share, x.owner, Charge(x.claim))
    ensures Books(l.Credited(h, x).Retire(source), l.usage.Plus(Charge(x.claim)), share', {}, {})
    ensures l.Credited(h, x).Retire(source).leases == l.leases[h := x]
  {
    CreditedBooks(l, h, x, source, share, share');
    RetireBooks(l.Credited(h, x), source, share', {}, {source});
  }

  // ---------------------------------------------------------------------------
  // Each operation keeps the books of the live leases

  lemma SharesAdd(m: map<Handle, LeaseState>, h: Handle, x: LeaseState)
    requires h !in m
    ensures Shifted(Shares(m[h := x]), Shares(m), x.owner, Charge(x.claim))
  {
    forall y {
      ShareAdd(m, h, x, y);
    }
  }

  lemma SharesRemove(m: map<Handle, LeaseState>, h: Handle)
    requires h in m
    ensures Shifted(Shares(m - {h}), Shares(m), m[h].owner, NOTHING.Minus(Charge(m[h].claim)))
    ensures Total(m - {h}) == Total(m).Minus(Charge(m[h].claim))
    ensures Total(m).Minus(Charge(m[h].claim)).NonNegative()
    ensures Shares(m)(m[h].owner).Minus(Charge(m[h].claim)).NonNegative()
  {
    ShareRemoveAll(m, h);
    TotalRemove(m, h);
    TotalCounts(m - {h});
    TotalCounts(OwnedBy(m - {h}, m[h].owner));
  }

  lemma ShareRemoveAll(m: map<Handle, LeaseState>, h: Handle)
    requires h in m
    ensures Shifted(Shares(m - {h}), Shares(m), m[h].owner, NOTHING.Minus(Charge(m[h].claim)))
  {
    forall y {
      ShareRemove(m, h, y);
    }
  }

  // A live lease changes in place, with the same owner.
  lemma SharesReplace(m: map<Handle, LeaseState>, h: Handle, x: LeaseState)
    requires h in m && x.owner == m[h].owner
    ensures Shifted(Shares(m[h := x]), Shares(m), x.owner, Charge(x.claim).Minus(Charge(m[h].claim)))
    ensures Total(m[h := x]) == Total(m).Plus(Charge(x.claim).Minus(Charge(m[h].claim)))
  {
    forall y {
      ReplaceShare(m, h, x, y);
    }
    ReplaceTotal(m, h, x);
  }

  lemma ChargedKeeps(l: Ledger, s: Handle, claim: Claim)
    requires Inv(l) && s in l.sessions && !l.sessions[s].closed && l.Fits(l.sessions[s].usage, claim)
    ensures Inv(l.Charged(s, claim))
  {
    var x := LeaseState(s, claim, claim.pendingAccept, false);
    TotalAdd(l.leases, l.next, x);
    SharesAdd(l.leases, l.next, x);
    ChargedBooks(l, s, claim, Shares(l.leases), Shares(l.Charged(s, claim).leases));
  }

  lemma BeginKeeps(l: Ledger, initial: Claim, pending: bool)
    requires Inv(l)
    ensures Inv(l.Begin(initial, pending))
  {
    if l.BeginErr(initial, pending) == Ok {
      assert OwnedBy(l.leases, l.next) == map[];
      OpenedBooks(l, pending, Shares(l.leases));
      if !initial.Empty() {
        ChargedKeeps(l.Opened(pending), l.next, initial);
      }
    }
  }

  lemma SharesSame(m: map<Handle, LeaseState>, h: Handle, x: LeaseState)
    requires h in m && x.owner == m[h].owner && x.claim == m[h].claim
    ensures forall y :: Shares(m[h := x])(y) == Shares(m)(y)
    ensures Total(m[h := x]) == Total(m)
  {
    SharesReplace(m, h, x);
  }

  lemma BindKeeps(l: Ledger, s: Handle, x: Handle, required: U64)
    requires Inv(l)
    ensures Inv(l.Bind(s, x, required))
  {
    if l.BindErr(s, x, required) == Ok {
      var bound := l.leases[x := l.leases[x].(bound := true)];
      SharesSame(l.leases, x, l.leases[x].(bound := true));
      BoundBooks(l, s, x, required, Shares(l.leases), Shares(bound));
    }
  }

  lemma ReclaimedKeeps(l: Ledger, h: Handle, claim: Claim)
    requires Inv(l) && h in l.leases
    requires var c := l.leases[h].claim;
      claim.bytes <= c.bytes && claim.businessStream == c.businessStream && (claim.pendingAccept ==> c.pendingAccept)
    ensures Inv(l.Reclaimed(h, claim))
  {
    var x := l.leases[h].(claim := claim);
    SharesRemove(l.leases, h);
    SharesReplace(l.leases, h, x);
    ReclaimedBooks(l, h, claim, Shares(l.leases), Shares(l.leases[h := x]));
  }

  lemma ReleaseBooks(l: Ledger, h: Handle, share: Handle -> Usage, rest: Handle -> Usage)
    requires Books(l, l.usage, share, {}, {}) && h in l.leases
    requires var c := Charge(l.leases[h].claim);
      l.usage.Minus(c).NonNegative() && share(l.leases[h].owner).Minus(c).NonNegative()
    requires Shifted(rest, share, l.leases[h].owner, NOTHING.Minus(Charge(l.leases[h].claim)))
    ensures Books(l.Release(h), l.usage.Minus(Charge(l.leases[h].claim)), rest, {}, {})
    ensures l.Release(h).leases == l.leases - {h}
  {
    DebitedBooks(l, h, share, rest);
    RetireBooks(l.Debited(h), l.leases[h].owner, rest, {}, {l.leases[h].owner});
  }

  lemma ReleaseKeeps(l: Ledger, h: Handle)
    requires Inv(l)
    ensures Inv(l.Release(h))
  {
    if h in l.leases {
      SharesRemove(l.leases, h);
      ReleaseBooks(l, h, Shares(l.leases), Shares(l.leases - {h}));
    }
  }

  lemma TransferBooks(
    l: Ledger, h: Handle, target: Handle, share: Handle -> Usage, rest: Handle -> Usage, moved: Handle -> Usage)
    requires Books(l, l.usage, share, {}, {})
    requires l.TransferErr(h, target) == Ok && l.leases[h].owner != target
    requires var c := Charge(l.leases[h].claim);
      l.usage.Minus(c).NonNegative() && share(l.leases[h].owner).Minus(c).NonNegative()
    requires Shifted(rest, share, l.leases[h].owner, NOTHING.Minus(Charge(l.leases[h].claim)))
    requires Shifted(moved, rest, target, Charge(l.leases[h].claim))
    ensures var r := l.Debited(h).Credited(h, l.leases[h].(owner := target)).Retire(l.leases[h].owner);
      Books(r, l.usage, moved, {}, {}) && r.leases == (l.leases - {h})[h := l.leases[h].(owner := target)]
  {
    hide Books, Shifted, Bounded, Ledger.FitsSession, Ledger.Credited, Ledger.Retire;
    TransferFits(l, h, target, share);
    DebitedBooks(l, h, share, rest);
    CreditedThenRetired(l.Debited(h), h, l.leases[h].(owner := target), l.leases[h].owner, rest, moved);
    UsageBack(l.usage, Charge(l.leases[h].claim));
  }

  lemma UsageBack(u: Usage, c: Usage)
    ensures u.Minus(c).Plus(c) == u
  {
  }

  // The target has room for what the source gives up.
  lemma TransferFits(l: Ledger, h: Handle, target: Handle, share: Handle -> Usage)
    requires Books(l, l.usage, share, {}, {}) && l.TransferErr(h, target) == Ok && l.leases[h].owner != target
    ensures h < l.next && l.leases[h].owner in l.sessions
    ensures var d, x := l.Debited(h), l.leases[h].(owner := target);
      && l.leases[h].owner in d.sessions && x.owner in d.sessions && !d.sessions[x.owner].closed
      && d.FitsSession(d.sessions[x.owner].usage, x.claim) && Bounded(d.Credited(h, x))
  {
  }

  lemma TransferShares(m: map<Handle, LeaseState>, h: Handle, target: Handle)
    returns (share: Handle -> Usage, rest: Handle -> Usage, moved: Handle -> Usage)
    requires h in m
    ensures var n := (m - {h})[h := m[h].(owner := target)];
      share == Shares(m) && moved == Shares(n) && Total(n) == Total(m)
    ensures Shifted(rest, share, m[h].owner, NOTHING.Minus(Charge(m[h].claim)))
    ensures Shifted(moved, rest, target, Charge(m[h].claim))
    ensures Total(m).Minus(Charge(m[h].claim)).NonNegative()
    ensures share(m[h].owner).Minus(Charge(m[h].claim)).NonNegative()
  {
    var x := m[h].(owner := target);
    share, rest, moved := Shares(m), Shares(m - {h}), Shares((m - {h})[h := x]);
    SharesRemove(m, h);
    SharesAdd(m - {h}, h, x);
    TotalAdd(m - {h}, h, x);
  }

  /** Moving a lease keeps the Peer's usage; only the two owners' shares change. */
  lemma TransferKeeps(l: Ledger, h: Handle, target: Handle)
    requires Inv(l)
    ensures Inv(l.Transfer(h, target)) && l.Transfer(h, target).usage == l.usage
  {
    if l.TransferErr(h, target) == Ok && l.leases[h].owner != target {
      var share, rest, moved := TransferShares(l.leases, h, target);
      TransferBooks(l, h, target, share, rest, moved);
    }
  }

  // ---------------------------------------------------------------------------
  // Runs

  datatype Op =
    | BeginOp(initial: Claim, pending: bool) | PromoteOp(s: Handle) | ReserveOp(s: Handle, claim: Claim)
    | BindOp(s: Handle, l: Handle, required: U64) | TransferOp(l: Handle, s: Handle) | AcceptOp(l: Handle)
    | ShrinkOp(l: Handle, bytes: U64) | ReleaseOp(l: Handle) | CloseSessionOp(s: Handle) | ClosePeerOp

  ghost function Apply(l: Ledger, op: Op): Ledger {
    match op
    case BeginOp(initial, pending) => l.Begin(initial, pending)
    case PromoteOp(s) => l.Promote(s)
    case ReserveOp(s, claim) => l.Reserve(s, claim)
    case BindOp(s, x, required) => l.Bind(s, x, required)
    case TransferOp(x, s) => l.Transfer(x, s)
    case AcceptOp(x) => l.Accept(x)
    case ShrinkOp(x, bytes) => l.Shrink(x, bytes)
    case ReleaseOp(x) => l.Release(x)
    case CloseSessionOp(s) => l.CloseSession(s)
    case ClosePeerOp => l.ClosePeer()
  }

  ghost function Run(l: Ledger, ops: seq<Op>): Ledger {
    if ops == [] then l else Apply(Run(l, ops[..|ops| - 1]), ops[|ops| - 1])
  }

  lemma ApplyKeeps(l: Ledger, op: Op)
    requires Inv(l)
    ensures Inv(Apply(l, op))
  {
    match op
    case BeginOp(initial, pending) => BeginKeeps(l, initial, pending);
    case PromoteOp(s) => PromoteBooks(l, s, Shares(l.leases));
    case ReserveOp(s, claim) =>
      if l.ReserveErr(s, claim) == Ok {
        ChargedKeeps(l, s, claim);
      }
    case BindOp(s, x, required) => BindKeeps(l, s, x, required);
    case TransferOp(x, s) => TransferKeeps(l, x, s);
    case AcceptOp(x) =>
      if l.AcceptErr(x) == Ok {
        ReclaimedKeeps(l, x, l.leases[x].claim.(pendingAccept := false));
      }
    case ShrinkOp(x, bytes) =>
      if l.ShrinkErr(x, bytes) == Ok {
        ReclaimedKeeps(l, x, l.leases[x].claim.(bytes := bytes));
      }
    case ReleaseOp(x) => ReleaseKeeps(l, x);
    case CloseSessionOp(s) =>
      if s in l.sessions {
        CloseSessionBooks(l, s, Shares(l.leases), {});
      }
    case ClosePeerOp => ClosePeerBooks(l, Shares(l.leases));
  }

  lemma {:induction false} RunKeeps(l: Ledger, ops: seq<Op>)
    requires Inv(l)
    ensures Inv(Run(l, ops))
  {
    if ops != [] {
      RunKeeps(l, ops[..|ops| - 1]);
      ApplyKeeps(Run(l, ops[..|ops| - 1]), ops[|ops| - 1]);
    }
  }

  /** After any sequence of operations the counters equal the sums over the live
      leases, every limit holds and the slots count the unretired scopes. */
  lemma Conservation(limits: Limits, ops: seq<Op>)
    requires limits.InBounds()
    ensures var l := Run(NewLedger(limits), ops);
      && Inv(l)
      && l.usage == Total(l.leases)
      && (forall s :: s in l.sessions ==> l.sessions[s].usage == Total(OwnedBy(l.leases, s)))
      && (forall s :: s in l.sessions ==>
          (l.sessions[s].retired <==> l.sessions[s].closed && l.sessions[s].usage.reservations == 0))
      && l.sessionSlots == |l.registered| == l.pendingHandshakes + l.establishedSessions
      && (forall s :: s in l.registered <==> s in l.sessions && !l.sessions[s].retired)
  {
    assert Pending(NewLedger(limits)) == {};
    RunKeeps(NewLedger(limits), ops);
    var l := Run(NewLedger(limits), ops);
    assert forall s :: s in l.sessions ==> Counted(l, s, Shares(l.leases));
  }

  /** Once a Peer is closed and every lease is back, nothing is left charged. */
  lemma Drained(l: Ledger)
    requires Inv(l) && l.closed && l.leases == map[]
    ensures l.usage == NOTHING && l.registered == {} && l.sessionSlots == 0
    ensures l.pendingHandshakes == 0 && l.establishedSessions == 0
  {
    forall s | s in l.sessions
      ensures s !in l.registered
    {
      assert Counted(l, s, Shares(l.leases));
      assert OwnedBy(l.leases, s) == map[];
    }
    assert l.registered == {};
    assert Pending(l) == {};
  }

  /** Releasing a lease that was just reserved restores the ledger; only the
      handle stays used up. */
  lemma ReserveThenRelease(l: Ledger, s: Handle, claim: Claim)
    requires Handles(l) && l.ReserveErr(s, claim) == Ok
    ensures l.Reserve(s, claim).Release(l.next) == l.(next := l.next + 1)
  {
    var r := l.Reserve(s, claim).Debited(l.next);
    assert r.leases == l.leases;
    assert r.sessions == l.sessions;
  }

  lemma RetiredOwnsNothing(l: Ledger, s: Handle)
    requires Inv(l) && s in l.sessions && l.sessions[s].retired
    ensures l.sessions[s].closed
    ensures forall x :: x in l.leases ==> l.leases[x].owner != s
  {
    assert Counted(l, s, Shares(l.leases));
    TotalCounts(OwnedBy(l.leases, s));
    assert forall x :: x in l.leases && l.leases[x].owner == s ==> x in OwnedBy(l.leases, s);
  }

  // A retired scope stays retired, keeps no lease and is given none.
  lemma RetiredForGood(l: Ledger, op: Op, s: Handle)
    requires s in l.sessions && l.sessions[s].retired && l.sessions[s].closed
    requires forall x :: x in l.leases ==> l.leases[x].owner != s
    requires Handles(l) && l.registered <= l.sessions.Keys
    ensures s in Apply(l, op).sessions && Apply(l, op).sessions[s].retired
    ensures forall x :: x in Apply(l, op).leases ==> Apply(l, op).leases[x].owner != s
  {
    if op == ClosePeerOp && !l.closed {
      CloseAllFrame(l.(closed := true), l.registered, s);
    }
  }

  lemma {:induction false} CloseAllFrame(l: Ledger, todo: set<Handle>, s: Handle)
    requires s in l.sessions && l.sessions[s].retired && todo <= l.sessions.Keys
    ensures l.CloseAll(todo).leases == l.leases
    ensures s in l.CloseAll(todo).sessions && l.CloseAll(todo).sessions[s].retired
    decreases todo
  {
    if todo != {} {
      CloseAllFrame(l.CloseSession(PickScope(todo)), todo - {PickScope(todo)}, s);
    }
  }

  // What closing one scope does: its record is replaced and, when it held no
  // lease, one slot of its kind is given back.
  function Shut(l: Ledger, s: Handle, x: SessionState): Ledger {
    var gone := !x.retired && x.usage.reservations == 0;
    l.(sessions := l.sessions[s := x.(closed := true, retired := x.retired || gone)],
       registered := l.registered - (if gone then {s} else {}),
       sessionSlots := l.sessionSlots - (if gone then 1 else 0),
       pendingHandshakes := l.pendingHandshakes - (if gone && x.pendingHandshake then 1 else 0),
       establishedSessions := l.establishedSessions - (if gone && !x.pendingHandshake then 1 else 0))
  }

  lemma CloseSessionShuts(l: Ledger, s: Handle)
    requires s in l.sessions
    ensures l.CloseSession(s) == Shut(l, s, l.sessions[s])
  {
    var shut := l.sessions[s := l.sessions[s].(closed := true)];
    assert shut[s := shut[s].(retired := true)] == l.sessions[s := l.sessions[s].(closed := true, retired := true)];
  }

  lemma ShutsCommute(l: Ledger, a: Handle, x: SessionState, b: Handle, y: SessionState)
    requires a != b
    ensures Shut(Shut(l, a, x), b, y) == Shut(Shut(l, b, y), a, x)
  {
    var p, q := Shut(Shut(l, a, x), b, y), Shut(Shut(l, b, y), a, x);
    assert p.sessions == q.sessions;
    assert p.registered == q.registered;
  }

  // Closing scopes commutes, so Peer.Close may visit them in any order.
  lemma ClosesCommute(l: Ledger, a: Handle, b: Handle)
    requires a != b
    ensures l.CloseSession(a).CloseSession(b) == l.CloseSession(b).CloseSession(a)
  {
    if a in l.sessions && b in l.sessions {
      var x, y := l.sessions[a], l.sessions[b];
      CloseSessionShuts(l, a);
      CloseSessionShuts(l, b);
      CloseSessionShuts(Shut(l, a, x), b);
      CloseSessionShuts(Shut(l, b, y), a);
      ShutsCommute(l, a, x, b, y);
    }
  }

  lemma {:induction false} CloseAllInAnyOrder(l: Ledger, todo: set<Handle>, s: Handle)
    requires s in todo
    ensures l.CloseAll(todo) == l.CloseSession(s).CloseAll(todo - {s})
    decreases todo
  {
    var p := PickScope(todo);
    if p != s {
      CloseAllInAnyOrder(l.CloseSession(p), todo - {p}, s);
      CloseAllInAnyOrder(l.CloseSession(s), todo - {s}, p);
      ClosesCommute(l, p, s);
      assert todo - {p} - {s} == todo - {s} - {p};
    }
  }

  // ---------------------------------------------------------------------------
  // Rolling back a batch of reservations

  function Reserves(s: Handle, claims: seq<Claim>): seq<Op> {
    seq(|claims|, i requires 0 <= i < |claims| => ReserveOp(s, claims[i]))
  }

  function Releases(first: Handle, n: nat): seq<Op> {
    seq(n, i requires 0 <= i < n => ReleaseOp(first + i))
  }

  function SumTo(claims: seq<Claim>, n: nat): Usage
    requires n <= |claims|
  {
    if n == 0 then NOTHING else SumTo(claims, n - 1).Plus(Charge(claims[n - 1]))
  }

  // The ledger with further leases of one scope and what they weigh.
  function Laden(l: Ledger, s: Handle, u: Usage, m: map<Handle, LeaseState>, next: Handle): Ledger
    requires s in l.sessions
  {
    l.(usage := l.usage.Plus(u),
       sessions := l.sessions[s := l.sessions[s].(usage := l.sessions[s].usage.Plus(u))],
       leases := l.leases + m, next := next)
  }

  // The leases first + k .. first + n - 1 of a batch.
  function Batch(first: Handle, s: Handle, claims: seq<Claim>, k: nat, n: nat): (m: map<Handle, LeaseState>)
    requires k <= n <= |claims|
    ensures forall h :: h in m <==> first + k <= h < first + n
    ensures forall h :: h in m ==> m[h] == LeaseState(s, claims[h - first], claims[h - first].pendingAccept, false)
  {
    if n == k then map[]
    else Batch(first, s, claims, k, n - 1)[first + n - 1 := LeaseState(s, claims[n - 1], claims[n - 1].pendingAccept, false)]
  }

  // The ledger once n claims were reserved and the first k of them released.
  function Held(l: Ledger, s: Handle, claims: seq<Claim>, k: nat, n: nat): Ledger
    requires s in l.sessions && k <= n <= |claims|
  {
    Laden(l, s, SumTo(claims, n).Minus(SumTo(claims, k)), Batch(l.next, s, claims, k, n), l.next + n)
  }

  lemma LadenCharge(l: Ledger, s: Handle, u: Usage, m: map<Handle, LeaseState>, next: Handle, claim: Claim)
    requires s in l.sessions
    ensures Laden(l, s, u, m, next).Charged(s, claim)
      == Laden(l, s, u.Plus(Charge(claim)), m[next := LeaseState(s, claim, claim.pendingAccept, false)], next + 1)
  {
    var a := Laden(l, s, u, m, next).Charged(s, claim);
    var x := m[next := LeaseState(s, claim, claim.pendingAccept, false)];
    var b := Laden(l, s, u.Plus(Charge(claim)), x, next + 1);
    assert a.leases == b.leases;
    assert a.sessions == b.sessions;
  }

  lemma LadenRelease(l: Ledger, s: Handle, u: Usage, m: map<Handle, LeaseState>, next: Handle, h: Handle)
    requires s in l.sessions && !l.sessions[s].closed && h in m && m[h].owner == s && h !in l.leases
    ensures Laden(l, s, u, m, next).Release(h) == Laden(l, s, u.Minus(Charge(m[h].claim)), m - {h}, next)
  {
    var a := Laden(l, s, u, m, next).Debited(h);
    var b := Laden(l, s, u.Minus(Charge(m[h].claim)), m - {h}, next);
    assert a.leases == b.leases;
    assert a.sessions == b.sessions;
  }

  lemma HeldCharge(l: Ledger, s: Handle, claims: seq<Claim>, n: nat)
    requires s in l.sessions && n < |claims|
    ensures Held(l, s, claims, 0, n).Charged(s, claims[n]) == Held(l, s, claims, 0, n + 1)
  {
    hide Laden, Charge;
    LadenCharge(l, s, SumTo(claims, n), Batch(l.next, s, claims, 0, n), l.next + n, claims[n]);
    assert SumTo(claims, n).Minus(NOTHING) == SumTo(claims, n);
    assert SumTo(claims, n + 1).Minus(NOTHING) == SumTo(claims, n + 1);
  }

  lemma HeldRelease(l: Ledger, s: Handle, claims: seq<Claim>, k: nat, n: nat)
    requires Handles(l) && s in l.sessions && !l.sessions[s].closed && k < n <= |claims|
    ensures Held(l, s, claims, k, n).Release(l.next + k) == Held(l, s, claims, k + 1, n)
  {
    hide Laden, Charge;
    LadenRelease(l, s, SumTo(claims, n).Minus(SumTo(claims, k)), Batch(l.next, s, claims, k, n), l.next + n, l.next + k);
    BatchDrop(l.next, s, claims, k, n);
  }

  lemma {:induction false} BatchDrop(first: Handle, s: Handle, claims: seq<Claim>, k: nat, n: nat)
    requires k < n <= |claims|
    ensures Batch(first, s, claims, k, n) - {first + k} == Batch(first, s, claims, k + 1, n)
  {
    if n > k + 1 {
      BatchDrop(first, s, claims, k, n - 1);
    }
  }

  lemma HeldNone(l: Ledger, s: Handle, claims: seq<Claim>, n: nat)
    requires s in l.sessions && n <= |claims|
    ensures Held(l, s, claims, n, n) == l.(next := l.next + n)
  {
    assert l.sessions[s := l.sessions[s]] == l.sessions;
    assert l.leases + map[] == l.leases;
  }

  lemma {:induction false} ReservesAre(l: Ledger, s: Handle, claims: seq<Claim>, n: nat)
    requires s in l.sessions && n <= |claims|
    requires forall i :: 0 <= i < n ==> Run(l, Reserves(s, claims)[..i]).ReserveErr(s, claims[i]) == Ok
    ensures Run(l, Reserves(s, claims)[..n]) == Held(l, s, claims, 0, n)
  {
    hide Held, Charge;
    var ops := Reserves(s, claims);
    if n == 0 {
      HeldNone(l, s, claims, 0);
    } else {
      ReservesAre(l, s, claims, n - 1);
      assert ops[..n][..n - 1] == ops[..n - 1];
      HeldCharge(l, s, claims, n - 1);
    }
  }

  lemma {:induction false} ReleasesAre(l: Ledger, s: Handle, claims: seq<Claim>, k: nat)
    requires Handles(l) && s in l.sessions && !l.sessions[s].closed && k <= |claims|
    requires Run(l, Reserves(s, claims)) == Held(l, s, claims, 0, |claims|)
    ensures Run(l, Reserves(s, claims) + Releases(l.next, k)) == Held(l, s, claims, k, |claims|)
  {
    hide Held, Handles;
    if k == 0 {
      assert Reserves(s, claims) + Releases(l.next, 0) == Reserves(s, claims);
    } else {
      ReleasesAre(l, s, claims, k - 1);
      var ops := Reserves(s, claims) + Releases(l.next, k);
      assert ops[..|ops| - 1] == Reserves(s, claims) + Releases(l.next, k - 1);
      HeldRelease(l, s, claims, k - 1, |claims|);
    }
  }

  /** Reserving a batch and releasing it again, oldest first, restores the ledger:
      only the handles stay used up. */
  lemma RollbackRestores(l: Ledger, s: Handle, claims: seq<Claim>)
    requires Handles(l) && s in l.sessions
    requires forall i :: 0 <= i < |claims| ==> Run(l, Reserves(s, claims)[..i]).ReserveErr(s, claims[i]) == Ok
    ensures Run(l, Reserves(s, claims) + Releases(l.next, |claims|)) == l.(next := l.next + |claims|)
  {
    hide Held, Handles;
    var n := |claims|;
    HeldNone(l, s, claims, n);
    if n == 0 {
      assert Reserves(s, claims) + Releases(l.next, 0) == [];
    } else {
      assert Run(l, Reserves(s, claims)[..0]).ReserveErr(s, claims[0]) == Ok;
      ReservesAre(l, s, claims, n);
      assert Reserves(s, claims)[..n] == Reserves(s, claims);
      ReleasesAre(l, s, claims, n);
    }
  }

  // ---------------------------------------------------------------------------
  // Handles resolve after every operation

  ghost predicate Resolved(l: Ledger) {
    Handles(l) && l.registered <= l.sessions.Keys
  }

  lemma {:induction false} CloseAllResolves(l: Ledger, todo: set<Handle>)
    requires Resolved(l)
    ensures Resolved(l.CloseAll(todo))
    decreases todo
  {
    if todo != {} {
      CloseAllResolves(l.CloseSession(PickScope(todo)), todo - {PickScope(todo)});
    }
  }

  lemma ApplyResolves(l: Ledger, op: Op)
    requires Resolved(l)
    ensures Resolved(Apply(l, op))
  {
    if op == ClosePeerOp && !l.closed {
      CloseAllResolves(l.(closed := true), l.registered);
    }
  }

  // ---------------------------------------------------------------------------
  // The code

  class Peer {
    const limits: Limits
    var usage: Usage
    var sessionSlots: int
    var pendingHandshakes: int
    var establishedSessions: int
    var closed: bool
    var registered: set<Handle>
    var sessions: map<Handle, SessionState>
    var leases: map<Handle, LeaseState>
    var next: Handle

    // The operations that succeeded so far.
    ghost var ops: seq<Op>

    ghost function View(): Ledger
      reads this
    {
      Ledger(limits, usage, sessionSlots, pendingHandshakes, establishedSessions,
             closed, registered, sessions, leases, next)
    }

    // The Peer is in the state its successful operations lead to, so
    // `Conservation` holds of it.
    ghost predicate Valid()
      reads this
    {
      limits.InBounds() && Resolved(View()) && View() == Run(NewLedger(limits), ops)
    }

    ghost method Log(op: Op, before: Ledger)
      requires limits.InBounds() && Resolved(before) && before == Run(NewLedger(limits), ops) && View() == Apply(before, op)
      modifies this`ops
      ensures Valid() && ops == old(ops) + [op]
    {
      ApplyResolves(before, op);
      assert (ops + [op])[..|ops|] == ops;
      ops := ops + [op];
    }

    constructor (limits: Limits)
      requires limits.InBounds()
      ensures Valid() && View() == NewLedger(limits) && ops == []
    {
      this.limits := limits;
      usage, sessionSlots, pendingHandshakes, establishedSessions := NOTHING, 0, 0, 0;
      closed, registered, sessions, leases, next := false, {}, map[], map[], 1;
      ops := [];
    }

    // New: null stands for ErrInvalid.
    static method New(limits: Limits) returns (p: Peer?)
      ensures p == null <==> !limits.InBounds()
      ensures p != null ==> fresh(p) && p.Valid() && p.View() == NewLedger(limits)
    {
      if !limits.InBounds() {
        return null;
      }
      p := new Peer(limits);
    }

    // begin: handle 0 stands for a nil Session or Lease.
    method BeginUnlogged(initial: Claim, pending: bool) returns (err: Err, session: Handle, lease: Handle)
      requires Resolved(View())
      modifies this
      ensures ops == old(ops)
      ensures View() == old(View()).Begin(initial, pending)
      ensures err == old(View()).BeginErr(initial, pending)
      ensures session == (if err == Ok then old(next) else 0)
      ensures lease == (if err == Ok && !initial.Empty() then old(next) + 1 else 0)
    {
      hide Ledger.Fits, Ledger.FitsSession, Peer.Fits, Peer.FitsSession, Usage.Plus, Charge, Resolved;
      if closed {
        return ScopeClosed, 0, 0;
      }
      if sessionSlots == limits.maxSessions || (pending && pendingHandshakes == limits.maxPendingHandshakes) {
        return ResourceLimit, 0, 0;
      }
      if !initial.Empty() && !Fits(NOTHING, initial) {
        return ResourceLimit, 0, 0;
      }
      session, lease := next, 0;
      sessions := sessions[session := SessionState(NOTHING, pending, false, false)];
      next := next + 1;
      if !initial.Empty() {
        lease := ChargeLease(session, initial);
      }
      registered := registered + {session};
      sessionSlots := sessionSlots + 1;
      if pending {
        pendingHandshakes := pendingHandshakes + 1;
      } else {
        establishedSessions := establishedSessions + 1;
      }
      return Ok, session, lease;
    }

    method Begin(initial: Claim, pending: bool) returns (err: Err, session: Handle, lease: Handle)
      requires Valid()
      modifies this
      ensures Valid() && View() == old(View()).Begin(initial, pending)
      ensures err == old(View()).BeginErr(initial, pending)
      ensures session == (if err == Ok then old(next) else 0)
      ensures lease == (if err == Ok && !initial.Empty() then old(next) + 1 else 0)
      ensures ops == old(ops) + (if err == Ok then [BeginOp(initial, pending)] else [])
    {
      err, session, lease := BeginUnlogged(initial, pending);
      if err == Ok {
        Log(BeginOp(initial, pending), old(View()));
      }
    }

    predicate FitsSession(used: Usage, claim: Claim) {
      && claim.bytes <= limits.maxSessionBytes - used.bytes
      && !(claim.businessStream && used.businessStreams == limits.maxStreamsPerSession)
    }

    predicate Fits(used: Usage, claim: Claim)
      reads this
      ensures Fits(used, claim) == View().Fits(used, claim)
    {
      && FitsSession(used, claim)
      && claim.bytes <= limits.maxPeerBytes - usage.bytes
      && usage.reservations != limits.maxReservations
      && !(claim.businessStream && usage.businessStreams == limits.maxPeerStreams)
      && !(claim.pendingAccept && usage.pendingAccepts == limits.maxPendingAccepts)
    }

    method ChargeLease(s: Handle, claim: Claim) returns (lease: Handle)
      requires s in sessions
      modifies this`usage, this`sessions, this`leases, this`next
      ensures View() == old(View()).Charged(s, claim) && lease == old(next)
    {
      lease := next;
      usage := usage.Plus(Charge(claim));
      sessions := sessions[s := sessions[s].(usage := sessions[s].usage.Plus(Charge(claim)))];
      leases := leases[lease := LeaseState(s, claim, claim.pendingAccept, false)];
      next := next + 1;
    }

    method Promote(s: Handle) returns (err: Err)
      requires Valid()
      modifies this
      ensures Valid() && View() == old(View()).Promote(s) && err == old(View()).PromoteErr(s)
      ensures ops == old(ops) + (if err == Ok then [PromoteOp(s)] else [])
    {
      if s !in sessions {
        return Invalid;
      }
      if sessions[s].closed || closed {
        return ScopeClosed;
      }
      if sessions[s].pendingHandshake {
        sessions := sessions[s := sessions[s].(pendingHandshake := false)];
        pendingHandshakes := pendingHandshakes - 1;
        establishedSessions := establishedSessions + 1;
      }
      Log(PromoteOp(s), old(View()));
      return Ok;
    }

    method Reserve(s: Handle, claim: Claim) returns (err: Err, lease: Handle)
      requires Valid()
      modifies this
      ensures Valid() && View() == old(View()).Reserve(s, claim) && err == old(View()).ReserveErr(s, claim)
      ensures lease == if err == Ok then old(next) else 0
      ensures ops == old(ops) + (if err == Ok then [ReserveOp(s, claim)] else [])
    {
      if s !in sessions || claim.Empty() {
        return Invalid, 0;
      }
      if sessions[s].closed || closed {
        return ScopeClosed, 0;
      }
      if !Fits(sessions[s].usage, claim) {
        return ResourceLimit, 0;
      }
      lease := ChargeLease(s, claim);
      Log(ReserveOp(s, claim), old(View()));
      return Ok, lease;
    }

    method BindBytes(s: Handle, l: Handle, required: U64) returns (err: Err)
      requires Valid()
      modifies this
      ensures Valid() && View() == old(View()).Bind(s, l, required) && err == old(View()).BindErr(s, l, required)
      ensures ops == old(ops) + (if err == Ok then [BindOp(s, l, required)] else [])
    {
      if s !in sessions || required == 0 || required > MAX_RETAINED_BYTES {
        return Invalid;
      }
      if sessions[s].closed || closed {
        return ScopeClosed;
      }
      if sessions[s].pendingHandshake {
        return Invalid;
      }
      if l !in leases {
        return LeaseReleased;
      }
      var x := leases[l];
      if x.owner != s || x.bound || x.claim.businessStream || x.claim.pendingAccept || x.claim.bytes < required {
        return Invalid;
      }
      leases := leases[l := x.(bound := true)];
      Log(BindOp(s, l, required), old(View()));
      return Ok;
    }

    method TransferUnlogged(l: Handle, target: Handle) returns (err: Err)
      requires Resolved(View())
      modifies this
      ensures ops == old(ops)
      ensures View() == old(View()).Transfer(l, target) && err == old(View()).TransferErr(l, target)
      ensures usage == old(usage)
    {
      hide Usage.Minus, Usage.Plus, Charge;
      if target !in sessions {
        return Invalid;
      }
      if l !in leases {
        return LeaseReleased;
      }
      if sessions[target].closed || closed {
        return ScopeClosed;
      }
      var x := leases[l];
      var source, charge := x.owner, Charge(x.claim);
      if source == target {
        return Ok;
      }
      if x.bound {
        return Invalid;
      }
      if !FitsSession(sessions[target].usage, x.claim) {
        return ResourceLimit;
      }
      sessions := sessions[source := sessions[source].(usage := sessions[source].usage.Minus(charge))];
      sessions := sessions[target := sessions[target].(usage := sessions[target].usage.Plus(charge))];
      leases := leases[l := x.(owner := target)];
      ReplaceIsMove(old(leases), l, x.(owner := target));
      UsageBack(old(usage), charge);
      Retire(source);
      return Ok;
    }

    method Transfer(l: Handle, target: Handle) returns (err: Err)
      requires Valid()
      modifies this
      ensures Valid() && View() == old(View()).Transfer(l, target) && err == old(View()).TransferErr(l, target)
      ensures usage == old(usage)
      ensures ops == old(ops) + (if err == Ok then [TransferOp(l, target)] else [])
    {
      err := TransferUnlogged(l, target);
      if err == Ok {
        Log(TransferOp(l, target), old(View()));
      }
    }

    method MarkAccepted(l: Handle) returns (err: Err)
      requires Valid()
      modifies this
      ensures Valid() && View() == old(View()).Accept(l) && err == old(View()).AcceptErr(l)
      ensures ops == old(ops) + (if err == Ok then [AcceptOp(l)] else [])
    {
      if l !in leases {
        return LeaseReleased;
      }
      var x := leases[l];
      var s := x.owner;
      if sessions[s].closed || closed {
        return ScopeClosed;
      }
      if sessions[s].pendingHandshake || !x.acceptReserved {
        return Invalid;
      }
      if x.claim.pendingAccept {
        var used := sessions[s].usage;
        leases := leases[l := x.(claim := x.claim.(pendingAccept := false))];
        sessions := sessions[s := sessions[s].(usage := used.(pendingAccepts := used.pendingAccepts - 1))];
        usage := usage.(pendingAccepts := usage.pendingAccepts - 1);
      } else {
        assert View() == View().Reclaimed(l, x.claim) by {
          assert leases == leases[l := x] && sessions == sessions[s := sessions[s]];
        }
      }
      Log(AcceptOp(l), old(View()));
      return Ok;
    }

    method ShrinkBytes(l: Handle, bytes: U64) returns (err: Err)
      requires Valid()
      modifies this
      ensures Valid() && View() == old(View()).Shrink(l, bytes) && err == old(View()).ShrinkErr(l, bytes)
      ensures ops == old(ops) + (if err == Ok then [ShrinkOp(l, bytes)] else [])
    {
      if l !in leases {
        return LeaseReleased;
      }
      var x := leases[l];
      if bytes > x.claim.bytes {
        return Invalid;
      }
      var freed, used := x.claim.bytes - bytes, sessions[x.owner].usage;
      leases := leases[l := x.(claim := x.claim.(bytes := bytes))];
      sessions := sessions[x.owner := sessions[x.owner].(usage := used.(bytes := used.bytes - freed))];
      usage := usage.(bytes := usage.bytes - freed);
      Log(ShrinkOp(l, bytes), old(View()));
      return Ok;
    }

    method Release(l: Handle)
      requires Valid()
      modifies this
      ensures Valid() && View() == old(View()).Release(l)
      ensures ops == old(ops) + [ReleaseOp(l)]
    {
      if l !in leases {
        Log(ReleaseOp(l), old(View()));
        return;
      }
      var s, charge := leases[l].owner, Charge(leases[l].claim);
      sessions := sessions[s := sessions[s].(usage := sessions[s].usage.Minus(charge))];
      usage := usage.Minus(charge);
      leases := leases - {l};
      Retire(s);
      Log(ReleaseOp(l), old(View()));
    }

    method CloseSession(s: Handle)
      requires Valid()
      modifies this
      ensures Valid() && View() == old(View()).CloseSession(s)
      ensures ops == old(ops) + [CloseSessionOp(s)]
    {
      if s in sessions {
        sessions := sessions[s := sessions[s].(closed := true)];
        Retire(s);
      }
      Log(CloseSessionOp(s), old(View()));
    }

    method CloseScope(s: Handle)
      requires s in sessions
      modifies this`sessions, this`registered, this`sessionSlots, this`pendingHandshakes, this`establishedSessions
      ensures View() == old(View()).CloseSession(s) && sessions.Keys == old(sessions).Keys
    {
      sessions := sessions[s := sessions[s].(closed := true)];
      Retire(s);
    }

    // Peer.Close: the loop over the registered scopes runs in map order.
    method CloseUnlogged()
      requires Resolved(View())
      modifies this
      ensures ops == old(ops)
      ensures View() == old(View()).ClosePeer()
    {
      hide Ledger.CloseSession;
      if closed {
        return;
      }
      closed := true;
      var todo := registered;
      while todo != {}
        invariant todo <= sessions.Keys && sessions.Keys == old(sessions).Keys && ops == old(ops)
        invariant View().CloseAll(todo) == old(View()).ClosePeer()
        decreases todo
      {
        var s :| s in todo;
        CloseAllInAnyOrder(View(), todo, s);
        CloseScope(s);
        todo := todo - {s};
      }
    }

    method Close()
      requires Valid()
      modifies this
      ensures Valid() && View() == old(View()).ClosePeer()
      ensures ops == old(ops) + [ClosePeerOp]
    {
      CloseUnlogged();
      Log(ClosePeerOp, old(View()));
    }

    // retireLocked
    method Retire(s: Handle)
      requires s in sessions
      modifies this`sessions, this`registered, this`sessionSlots, this`pendingHandshakes, this`establishedSessions
      ensures View() == old(View()).Retire(s)
    {
      var x := sessions[s];
      if !x.closed || x.retired || x.usage.reservations != 0 {
        return;
      }
      sessions := sessions[s := x.(retired := true)];
      sessionSlots := sessionSlots - 1;
      if x.pendingHandshake {
        pendingHandshakes := pendingHandshakes - 1;
      } else {
        establishedSessions := establishedSessions - 1;
      }
      registered := registered - {s};
    }
  }
}
