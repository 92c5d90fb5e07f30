// internal/sessionv2: how the two ends of one path agree on its incarnation and
// on the payload budget of each direction.
//
// `End` is the state one Controller keeps for the path, with its transitions.
// `System` joins two of them by a network that only ever delivers authenticated
// messages, but may lose, repeat, delay and reorder them and bring them in on
// any local binding. Nonces are numbers, 0 being the zero nonce.
module PathProtocol {
  import opened Words

  const CONTROL_LIFETIME := 5_000_000_000
  const BASE_BUDGET := 512

  datatype Role = Initiator | Responder

  datatype Kind = NoKind | JoinKind | ChallengeKind | ConfirmKind | ReadyKind

  datatype Message =
    | JoinMessage(kind: Kind, generation: nat, client: nat, server: nat)
    | UpdateMessage(generation: nat, epoch: nat, budget: nat)
    | AckMessage(generation: nat, epoch: nat, budget: nat)
    | DataMessage(generation: nat, epoch: nat, size: nat)

  // pathJoin; its zero value is NO_JOIN.
  datatype Join = Join(
    pending: bool, deadline: int, kind: Kind, client: nat, server: nat, binding: nat, generation: nat, committed: bool)

  const NO_JOIN := Join(false, 0, NoKind, 0, 0, 0, 0, false)

  datatype OldRoute = NoRoute | OldRoute(binding: nat, generation: nat, epoch: nat, budget: nat, until: int)

  // What the two ends agreed on in the handshake, and this end's own budget.
  datatype Terms = Terms(role: Role, fixed: nat, cap: nat, maxOld: nat, grace: int)

  datatype End = End(
    terms: Terms, active: bool, generation: nat, floor: nat, binding: nat,
    sendBudget: nat, receiveBudget: nat, sendEpoch: nat, receiveEpoch: nat,
    oldBudget: nat, oldEpoch: nat, oldUntil: int, peerDeadline: int, routes: seq<OldRoute>,
    join: Join, budgetPending: bool, budgetDeadline: int)

  // What a transition leaves behind and hands to the network.
  datatype Reaction = Reaction(end: End, sent: set<Message>)

  // How Receive answers its caller.
  datatype Answer = Done | Ignored | ErrProtocol | ErrNotReady | ErrEntropy

  // ---------------------------------------------------------------------------
  // Routes

  datatype Admission = Refused | Admitted(budget: nat, restricted: bool)

  predicate OldRouteMatches(o: OldRoute, binding: nat, generation: nat, epoch: nat, now: int) {
    o.OldRoute? && o.generation == generation && o.epoch == epoch && o.binding == binding && now < o.until
  }

  function OldBudget(routes: seq<OldRoute>, binding: nat, generation: nat, epoch: nat, now: int): Admission {
    if routes == [] then Refused
    else if OldRouteMatches(routes[0], binding, generation, epoch, now) then Admitted(routes[0].budget, true)
    else OldBudget(routes[1..], binding, generation, epoch, now)
  }

  // validRoute
  function ValidRoute(e: End, binding: nat, generation: nat, epoch: nat, now: int): Admission {
    if e.active && e.binding == binding && e.generation == generation && e.receiveEpoch == epoch
    then Admitted(e.receiveBudget, false)
    else if e.active && e.binding == binding && e.generation == generation && e.oldEpoch == epoch && now < e.oldUntil
    then Admitted(e.oldBudget, true)
    else OldBudget(e.routes, binding, generation, epoch, now)
  }

  // allowBudgetRetry
  predicate AllowRetry(e: End, binding: nat, m: Message, now: int) {
    && e.active && e.binding == binding
    && match m
       case UpdateMessage(generation, epoch, budget) =>
         generation == e.generation && epoch == 1 && now < e.peerDeadline && budget == e.receiveBudget
       case AckMessage(generation, epoch, budget) =>
         generation == e.generation && epoch == 1 && e.budgetPending && now < e.budgetDeadline && budget == e.terms.fixed
       case _ => false
  }

  // ---------------------------------------------------------------------------
  // Joining

  // startJoin
  function StartJoin(e: End, now: int, nonce: nat, binding: nat): Reaction {
    if e.terms.role != Initiator || e.join.pending || e.floor == MAX_U64 || nonce == 0 then Reaction(e, {})
    else
      var g := e.floor + 1;
      Reaction(e.(floor := g, join := Join(true, now + CONTROL_LIFETIME, JoinKind, nonce, 0, binding, g, false)),
               {JoinMessage(JoinKind, g, nonce, 0)})
  }

  function FreeOld(routes: seq<OldRoute>, maxOld: nat, now: int): (i: nat)
    ensures i <= |routes| && i <= maxOld
    ensures i < |routes| && i < maxOld ==> routes[i].NoRoute? || now >= routes[i].until
  {
    if routes == [] || maxOld == 0 || routes[0].NoRoute? || now >= routes[0].until then 0
    else 1 + FreeOld(routes[1..], maxOld - 1, now)
  }

  predicate CanCommit(e: End, now: int) {
    e.active ==> FreeOld(e.routes, e.terms.maxOld, now) < |e.routes| && FreeOld(e.routes, e.terms.maxOld, now) < e.terms.maxOld
  }

  // The path begins the incarnation of its join on the given old routes.
  function Renewed(e: End, routes: seq<OldRoute>, now: int): End {
    e.(routes := routes,
       active := true, generation := e.join.generation, binding := e.join.binding,
       sendBudget := BASE_BUDGET, receiveBudget := BASE_BUDGET, sendEpoch := 1, receiveEpoch := 1,
       oldBudget := 0, oldEpoch := 0, oldUntil := 0, peerDeadline := 0,
       join := e.join.(committed := true), budgetPending := true, budgetDeadline := now + CONTROL_LIFETIME)
  }

  // commitPath: an active route is kept for the data still on its way.
  function Commit(e: End, now: int): End
    requires CanCommit(e, now)
  {
    var slot := FreeOld(e.routes, e.terms.maxOld, now);
    Renewed(e, if e.active
               then e.routes[slot := OldRoute(e.binding, e.generation, e.receiveEpoch, e.receiveBudget, now + e.terms.grace)]
               else e.routes, now)
  }

  // startBudget
  function Publication(e: End): Message {
    UpdateMessage(e.generation, e.sendEpoch, e.terms.fixed)
  }

  // The message belongs to the join that this end is running.
  predicate ForJoin(e: End, m: Message, now: int, binding: nat) {
    m.JoinMessage? && e.join.pending && now < e.join.deadline && e.join.binding == binding
    && e.join.generation == m.generation && e.join.client == m.client && m.server != 0
  }

  // receiveJoin; `nonce` is the entropy the responder draws.
  function ReceiveJoin(e: End, m: Message, now: int, binding: nat, nonce: nat): Reaction
    requires m.JoinMessage?
  {
    if m.client == 0 then Reaction(e, {})
    else
      match m.kind
      case JoinKind =>
        if e.terms.role != Responder || m.server != 0 || e.join.pending || m.generation <= e.floor || nonce == 0
        then Reaction(e, {})
        else
          Reaction(e.(floor := m.generation,
                      join := Join(true, now + CONTROL_LIFETIME, ChallengeKind, m.client, nonce, binding, m.generation, false)),
                   {JoinMessage(ChallengeKind, m.generation, m.client, nonce)})
      case ChallengeKind =>
        if !ForJoin(e, m, now, binding) || e.terms.role != Initiator || e.join.kind != JoinKind then Reaction(e, {})
        else
          Reaction(e.(join := e.join.(server := m.server, kind := ConfirmKind)),
                   {JoinMessage(ConfirmKind, m.generation, m.client, m.server)})
      case ConfirmKind =>
        if !ForJoin(e, m, now, binding) || e.terms.role != Responder || e.join.server != m.server
          || e.join.committed || !CanCommit(e, now) then Reaction(e, {})
        else
          var c := Commit(e, now);
          Reaction(c.(join := c.join.(kind := ReadyKind)),
                   {JoinMessage(ReadyKind, m.generation, m.client, m.server), Publication(c)})
      case ReadyKind =>
        if !ForJoin(e, m, now, binding) || e.terms.role != Initiator || e.join.kind != ConfirmKind
          || e.join.server != m.server || e.join.committed || !CanCommit(e, now) then Reaction(e, {})
        else
          var c := Commit(e, now);
          Reaction(c.(join := c.join.(pending := false)), {Publication(c)})
      case NoKind => Reaction(e, {})
  }

  // The errors of receiveJoin; a message that repeats one already taken is ignored.
  function JoinAnswer(e: End, m: Message, now: int, binding: nat, nonce: nat): Answer
    requires m.JoinMessage?
  {
    var current := e.join.binding == binding && e.join.generation == m.generation && e.join.client == m.client;
    if m.client == 0 then ErrProtocol
    else if m.kind == JoinKind then
      if e.terms.role != Responder || m.server != 0 then ErrProtocol
      else if e.join.pending then if current && now < e.join.deadline then Ignored else ErrProtocol
      else if m.generation <= e.floor then ErrProtocol
      else if nonce == 0 then ErrEntropy else Done
    else if m.kind == ReadyKind && e.join.committed && current && e.join.server == m.server then Ignored
    else if !ForJoin(e, m, now, binding) then ErrProtocol
    else
      match m.kind
      case ChallengeKind =>
        if e.terms.role != Initiator then ErrProtocol
        else if e.join.kind == ConfirmKind && e.join.server == m.server then Ignored
        else if e.join.kind != JoinKind then ErrProtocol else Done
      case ConfirmKind =>
        if e.terms.role != Responder || e.join.server != m.server then ErrProtocol
        else if e.join.committed then Ignored
        else if CanCommit(e, now) then Done else ErrNotReady
      case ReadyKind =>
        if e.terms.role != Initiator || e.join.kind != ConfirmKind || e.join.server != m.server then ErrProtocol
        else if CanCommit(e, now) then Done else ErrNotReady
      case _ => ErrProtocol
  }

  /** The end reacts to a message exactly when it answers that it is done. */
  lemma JoinAnswerMeans(e: End, m: Message, now: int, binding: nat, nonce: nat)
    requires m.JoinMessage?
    ensures ReceiveJoin(e, m, now, binding, nonce) == Reaction(e, {}) <==> JoinAnswer(e, m, now, binding, nonce) != Done
  {
    hide FreeOld;
  }

  /** A message of a join that was taken is ignored when it comes again in time. */
  lemma RepeatIsIgnored(e: End, m: Message, now: int, binding: nat, nonce: nat, later: int, again: nat)
    requires m.JoinMessage? && JoinAnswer(e, m, now, binding, nonce) == Done && later < now + CONTROL_LIFETIME
    requires m.kind != JoinKind ==> later < e.join.deadline
    ensures var next := ReceiveJoin(e, m, now, binding, nonce).end;
      JoinAnswer(next, m, later, binding, again) == Ignored && ReceiveJoin(next, m, later, binding, again) == Reaction(next, {})
  {
    hide FreeOld;
  }

  // ---------------------------------------------------------------------------
  // Budgets and data

  // The peer publishes its budget: it takes effect under epoch 2, while packets
  // under the previous epoch are admitted for a grace time.
  function UpdateTaken(e: End, budget: nat, now: int): Reaction {
    if budget < BASE_BUDGET || budget > e.terms.cap || (e.receiveEpoch == 2 && e.receiveBudget != budget)
    then Reaction(e, {})
    else
      var next := if e.receiveEpoch == 2 then e
        else e.(oldBudget := e.receiveBudget, oldEpoch := e.receiveEpoch, oldUntil := now + e.terms.grace,
                peerDeadline := now + CONTROL_LIFETIME, receiveBudget := budget, receiveEpoch := 2);
      Reaction(next, {AckMessage(e.generation, e.sendEpoch, budget)})
  }

  // The peer acknowledges this end's budget.
  function AckTaken(e: End, budget: nat, now: int): End {
    if budget != e.terms.fixed || e.sendEpoch == 2 || !e.budgetPending || now >= e.budgetDeadline then e
    else e.(sendBudget := budget, sendEpoch := 2, budgetPending := false)
  }

  // Receive and receiveBudget for a budget message.
  function ReceiveBudget(e: End, m: Message, now: int, binding: nat): Reaction
    requires m.UpdateMessage? || m.AckMessage?
  {
    if ValidRoute(e, binding, m.generation, m.epoch, now) == Refused && !AllowRetry(e, binding, m, now) then Reaction(e, {})
    // A route kept for old data only may not change the path.
    else if m.generation != e.generation then Reaction(e, {})
    else
      match m
      case UpdateMessage(_, _, budget) => UpdateTaken(e, budget, now)
      case AckMessage(_, _, budget) => Reaction(AckTaken(e, budget, now), {})
  }

  // The errors of receiveBudget; what comes on no route, or on one kept for old data, is
  // ignored.
  function BudgetAnswer(e: End, m: Message, now: int, binding: nat): Answer
    requires m.UpdateMessage? || m.AckMessage?
  {
    if ValidRoute(e, binding, m.generation, m.epoch, now) == Refused && !AllowRetry(e, binding, m, now) then Ignored
    else if m.generation != e.generation then Ignored
    else
      match m
      case UpdateMessage(_, _, budget) =>
        if budget < BASE_BUDGET || budget > e.terms.cap || (e.receiveEpoch == 2 && e.receiveBudget != budget)
        then ErrProtocol else Done
      case AckMessage(_, _, budget) =>
        if budget != e.terms.fixed then ErrProtocol
        else if e.sendEpoch == 2 then Ignored
        else if !e.budgetPending || now >= e.budgetDeadline then ErrProtocol
        else Done
  }

  /** A budget message has an effect exactly when the answer is that it is done; an
      update that is taken again is acknowledged again, an acknowledgement ignored. */
  lemma BudgetAnswerMeans(e: End, m: Message, now: int, binding: nat, later: int)
    requires m.UpdateMessage? || m.AckMessage?
    ensures BudgetAnswer(e, m, now, binding) != Done ==> ReceiveBudget(e, m, now, binding) == Reaction(e, {})
    ensures BudgetAnswer(e, m, now, binding) == Done && m.UpdateMessage? ==>
      UpdateTaken(ReceiveBudget(e, m, now, binding).end, m.budget, later)
      == Reaction(ReceiveBudget(e, m, now, binding).end, {AckMessage(e.generation, e.sendEpoch, m.budget)})
    ensures BudgetAnswer(e, m, now, binding) == Done && m.AckMessage? ==>
      var next := ReceiveBudget(e, m, now, binding).end;
      && next.sendEpoch == 2 && next.sendBudget == m.budget && !next.budgetPending
      && BudgetAnswer(next, m, later, binding) == Ignored
  {
    hide ValidRoute, AllowRetry;
  }

  // A packet of data leaves on the live route once its budget is acknowledged.
  function SendData(e: End, size: nat): Reaction {
    if e.active && e.sendEpoch == 2 && size <= e.sendBudget
    then Reaction(e, {DataMessage(e.generation, e.sendEpoch, size)}) else Reaction(e, {})
  }

  // A route kept for old data, after its grace or its tuple is gone.
  function Aged(o: OldRoute, now: int): OldRoute {
    if o.OldRoute? && now >= o.until then NoRoute else o
  }

  function Unexpired(routes: seq<OldRoute>, now: int): (kept: seq<OldRoute>)
    ensures |kept| == |routes| && forall k :: 0 <= k < |kept| ==> kept[k] == Aged(routes[k], now)
  {
    if routes == [] then [] else [Aged(routes[0], now)] + Unexpired(routes[1..], now)
  }

  function Torn(o: OldRoute, binding: nat): OldRoute {
    if o.OldRoute? && o.binding == binding then NoRoute else o
  }

  function Elsewhere(routes: seq<OldRoute>, binding: nat): (kept: seq<OldRoute>)
    ensures |kept| == |routes| && forall k :: 0 <= k < |kept| ==> kept[k] == Torn(routes[k], binding)
  {
    if routes == [] then [] else [Torn(routes[0], binding)] + Elsewhere(routes[1..], binding)
  }

  // expireControl
  function Expire(e: End, now: int): End {
    var j := if e.join != NO_JOIN && now >= e.join.deadline then e.(join := NO_JOIN) else e;
    var b := if j.budgetPending && now >= j.budgetDeadline then j.(active := false, budgetPending := false) else j;
    b.(routes := Unexpired(b.routes, now))
  }

  // FailPath
  function Fail(e: End, binding: nat): End {
    var a := if e.active && e.binding == binding then e.(active := false, budgetPending := false) else e;
    var j := if a.join.binding == binding then a.(join := NO_JOIN) else a;
    j.(routes := Elsewhere(j.routes, binding))
  }

  function Receive(e: End, m: Message, now: int, binding: nat, nonce: nat): Reaction {
    match m
    case JoinMessage(_, _, _, _) => ReceiveJoin(e, m, now, binding, nonce)
    case UpdateMessage(_, _, _) => ReceiveBudget(e, m, now, binding)
    case AckMessage(_, _, _) => ReceiveBudget(e, m, now, binding)
    case DataMessage(_, _, _) => Reaction(e, {})
  }

  // ---------------------------------------------------------------------------
  // Two ends and a network

  // One agreed incarnation: its generation and both nonces.
  datatype Incarnation = Incarnation(generation: nat, client: nat, server: nat)

  // `sentI` and `sentR` are what each end ever handed to the network, and the
  // commits are all incarnations that each end ever entered.
  datatype System = System(
    i: End, r: End, sentI: set<Message>, sentR: set<Message>,
    commitsI: set<Incarnation>, commitsR: set<Incarnation>)

  datatype Step =
    | JoinStep(now: int, nonce: nat, binding: nat)
    | DeliverI(m: Message, now: int, binding: nat)
    | DeliverR(m: Message, now: int, binding: nat, nonce: nat)
    | PublishI(now: int) | PublishR(now: int)
    | DataI(size: nat) | DataR(size: nat)
    | ExpireI(now: int) | ExpireR(now: int) | FailI(binding: nat) | FailR(binding: nat)

  // The incarnation that a transition entered, if it committed one.
  function Entered(before: End, after: End): set<Incarnation> {
    if after.generation == before.generation then {}
    else {Incarnation(after.join.generation, after.join.client, after.join.server)}
  }

  function ReactI(s: System, x: Reaction): System {
    s.(i := x.end, sentI := s.sentI + x.sent, commitsI := s.commitsI + Entered(s.i, x.end))
  }

  function ReactR(s: System, x: Reaction): System {
    s.(r := x.end, sentR := s.sentR + x.sent, commitsR := s.commitsR + Entered(s.r, x.end))
  }

  // Start publishes the budget of the bootstrap path.
  function Publish(e: End, now: int): Reaction {
    if e.active && e.sendEpoch == 1 && !e.budgetPending
    then Reaction(e.(budgetPending := true, budgetDeadline := now + CONTROL_LIFETIME), {Publication(e)})
    else Reaction(e, {})
  }

  // A delivery needs a message that the other end sent; everything else in the
  // network is dropped by authentication.
  function Take(s: System, step: Step): System {
    match step
    case JoinStep(now, nonce, binding) => ReactI(s, StartJoin(s.i, now, nonce, binding))
    case DeliverI(m, now, binding) => if m in s.sentR then ReactI(s, Receive(s.i, m, now, binding, 0)) else s
    case DeliverR(m, now, binding, nonce) => if m in s.sentI then ReactR(s, Receive(s.r, m, now, binding, nonce)) else s
    case PublishI(now) => ReactI(s, Publish(s.i, now))
    case PublishR(now) => ReactR(s, Publish(s.r, now))
    case DataI(size) => ReactI(s, SendData(s.i, size))
    case DataR(size) => ReactR(s, SendData(s.r, size))
    case ExpireI(now) => ReactI(s, Reaction(Expire(s.i, now), {}))
    case ExpireR(now) => ReactR(s, Reaction(Expire(s.r, now), {}))
    case FailI(binding) => ReactI(s, Reaction(Fail(s.i, binding), {}))
    case FailR(binding) => ReactR(s, Reaction(Fail(s.r, binding), {}))
  }

  const NO_ROUTES := [NoRoute, NoRoute, NoRoute, NoRoute, NoRoute, NoRoute, NoRoute, NoRoute]

  // A path starts unused, or as the bootstrap path of the handshake.
  function Start(terms: Terms, bootstrap: bool, binding: nat): End {
    if bootstrap then
      End(terms, true, 1, 1, binding, BASE_BUDGET, BASE_BUDGET, 1, 1, 0, 0, 0, 0, NO_ROUTES, NO_JOIN, false, 0)
    else End(terms, false, 0, 0, 0, 0, 0, 0, 0, 0, 0, 0, 0, NO_ROUTES, NO_JOIN, false, 0)
  }

  function Begin(a: Terms, b: Terms, bootstrap: bool, bindingA: nat, bindingB: nat): System {
    var first := if bootstrap then {Incarnation(1, 0, 0)} else {};
    System(Start(a, bootstrap, bindingA), Start(b, bootstrap, bindingB), {}, {}, first, first)
  }

  function Run(s: System, steps: seq<Step>): System {
    if steps == [] then s else Take(Run(s, steps[..|steps| - 1]), steps[|steps| - 1])
  }

  // ---------------------------------------------------------------------------
  // Invariants of one end

  // What the path owes the budget published by its peer.
  predicate RouteOk(o: OldRoute, peer: nat, generation: nat) {
    o.OldRoute? ==>
      && o.generation < generation
      && (o.epoch == 1 ==> o.budget == BASE_BUDGET) && (o.epoch == 2 ==> o.budget == peer)
  }

  predicate EndOk(e: End, peer: nat) {
    && e.generation <= e.floor && e.join.generation <= e.floor && |e.routes| == 8
    && (e.join.pending && !e.join.committed ==> e.generation < e.join.generation)
    && (e.join.committed ==> e.join.generation == e.generation)
    && (e.active ==> e.generation > 0 && e.sendEpoch in {1, 2} && e.receiveEpoch in {1, 2})
    && (e.receiveEpoch == 1 ==> e.receiveBudget == BASE_BUDGET)
    && (e.receiveEpoch == 2 ==> e.receiveBudget == peer)
    && (e.oldEpoch == 1 ==> e.oldBudget == BASE_BUDGET) && e.oldEpoch <= 1 && e.receiveEpoch <= 2 && e.sendEpoch <= 2
    && (e.sendEpoch == 2 ==> e.sendBudget == e.terms.fixed)
    && (forall k :: 0 <= k < |e.routes| ==> RouteOk(e.routes[k], peer, e.generation))
  }

  // Messages an end may have sent, given what it has been through.
  predicate SentOk(m: Message, e: End, commits: set<Incarnation>, heard: set<Message>) {
    match m
    case JoinMessage(kind, g, c, s) =>
      && g <= e.floor && (kind == JoinKind <==> s == 0)
      && (e.terms.role == Initiator ==>
          && kind in {JoinKind, ConfirmKind}
          && (kind == ConfirmKind ==> JoinMessage(ChallengeKind, g, c, s) in heard))
      && (e.terms.role == Responder ==>
          && kind in {ChallengeKind, ReadyKind}
          && JoinMessage(JoinKind, g, c, 0) in heard
          && (kind == ReadyKind ==> Incarnation(g, c, s) in commits && JoinMessage(ConfirmKind, g, c, s) in heard))
    case UpdateMessage(g, epoch, budget) => g <= e.generation && budget == e.terms.fixed
    case AckMessage(g, epoch, budget) =>
      g <= e.generation && (g == e.generation ==> e.receiveEpoch == 2 && e.receiveBudget == budget)
    case DataMessage(g, epoch, size) => g <= e.generation && epoch == 2 && size <= e.terms.fixed
  }

  ghost predicate AllSentOk(sent: set<Message>, e: End, commits: set<Incarnation>, heard: set<Message>) {
    forall m :: m in sent ==> SentOk(m, e, commits, heard)
  }

  // Incarnations are entered in increasing order, one per generation.
  ghost predicate CommitsOk(commits: set<Incarnation>, e: End) {
    && (forall c :: c in commits ==> c.generation <= e.generation)
    && (forall c, d :: c in commits && d in commits && c.generation == d.generation ==> c == d)
    && (e.generation > 0 ==> exists c :: c in commits && c.generation == e.generation)
  }

  // An acknowledged budget was acknowledged by the peer, for this generation.
  ghost predicate AckedOk(e: End, heard: set<Message>) {
    e.sendEpoch == 2 ==> exists epoch :: AckMessage(e.generation, epoch, e.sendBudget) in heard
  }

  // The join that an end is running rests on messages it sent and heard.
  predicate JoinOk(e: End, sent: set<Message>, heard: set<Message>) {
    e.join.pending ==>
      match e.terms.role
      case Initiator =>
        && e.join.kind in {JoinKind, ConfirmKind} && !e.join.committed
        && (e.join.kind == JoinKind ==> JoinMessage(JoinKind, e.join.generation, e.join.client, 0) in sent)
        && (e.join.kind == ConfirmKind ==>
            && e.join.server != 0
            && JoinMessage(ChallengeKind, e.join.generation, e.join.client, e.join.server) in heard)
      case Responder =>
        && e.join.server != 0
        && JoinMessage(JoinKind, e.join.generation, e.join.client, 0) in heard
  }

  ghost predicate SideOk(e: End, peer: nat, sent: set<Message>, heard: set<Message>, commits: set<Incarnation>) {
    && EndOk(e, peer) && AllSentOk(sent, e, commits, heard) && CommitsOk(commits, e)
    && AckedOk(e, heard) && JoinOk(e, sent, heard)
  }

  ghost predicate SystemOk(s: System) {
    && s.i.terms.role == Initiator && s.r.terms.role == Responder
    && s.i.terms.fixed >= BASE_BUDGET && s.r.terms.fixed >= BASE_BUDGET
    && SideOk(s.i, s.r.terms.fixed, s.sentI, s.sentR, s.commitsI)
    && SideOk(s.r, s.i.terms.fixed, s.sentR, s.sentI, s.commitsR)
    && s.commitsI <= s.commitsR && Confirmed(s.commitsR, s.sentI)
  }

  // The responder only entered what the initiator confirmed; client nonce 0 is
  // the incarnation that both ends got from the handshake.
  ghost predicate Confirmed(commits: set<Incarnation>, sent: set<Message>) {
    forall c :: c in commits ==> c.client == 0 || JoinMessage(ConfirmKind, c.generation, c.client, c.server) in sent
  }

  // ---------------------------------------------------------------------------
  // Every transition of one end keeps its invariant

  // The end only moved forward: what it said before still stands.
  predicate Forward(e: End, next: End) {
    && next.terms == e.terms && next.floor >= e.floor && next.generation >= e.generation
    && (next.generation == e.generation && e.receiveEpoch == 2 ==>
        next.receiveEpoch == 2 && next.receiveBudget == e.receiveBudget)
  }

  lemma SentStays(sent: set<Message>, e: End, next: End, commits: set<Incarnation>, commits': set<Incarnation>, heard: set<Message>)
    requires AllSentOk(sent, e, commits, heard) && Forward(e, next) && commits <= commits'
    ensures AllSentOk(sent, next, commits', heard)
  {
    forall m | m in sent
      ensures SentOk(m, next, commits', heard)
    {
      assert SentOk(m, e, commits, heard);
    }
  }

  // More messages from the peer change nothing.
  lemma HeardMore(e: End, peer: nat, sent: set<Message>, heard: set<Message>, heard': set<Message>, commits: set<Incarnation>)
    requires SideOk(e, peer, sent, heard, commits) && heard <= heard'
    ensures SideOk(e, peer, sent, heard', commits)
  {
    forall m | m in sent
      ensures SentOk(m, e, commits, heard')
    {
      assert SentOk(m, e, commits, heard);
    }
    if e.sendEpoch == 2 {
      var epoch :| AckMessage(e.generation, epoch, e.sendBudget) in heard;
      assert AckMessage(e.generation, epoch, e.sendBudget) in heard';
    }
  }

  lemma SameCommits(commits: set<Incarnation>, e: End, next: End)
    requires CommitsOk(commits, e) && next.generation == e.generation
    ensures CommitsOk(commits + Entered(e, next), next) && commits + Entered(e, next) == commits
  {
  }

  lemma NewCommit(commits: set<Incarnation>, e: End, next: End)
    requires CommitsOk(commits, e) && next.generation > e.generation && next.join.generation == next.generation
    ensures CommitsOk(commits + Entered(e, next), next)
  {
    var c := Incarnation(next.join.generation, next.join.client, next.join.server);
    assert c in commits + Entered(e, next);
  }

  // The effect of a transition that commits nothing.
  lemma QuietOk(e: End, x: Reaction, peer: nat, sent: set<Message>, heard: set<Message>, commits: set<Incarnation>)
    requires SideOk(e, peer, sent, heard, commits) && Forward(e, x.end) && x.end.generation == e.generation
    requires EndOk(x.end, peer) && AckedOk(x.end, heard) && JoinOk(x.end, sent + x.sent, heard)
    requires forall m :: m in x.sent ==> SentOk(m, x.end, commits, heard)
    ensures SideOk(x.end, peer, sent + x.sent, heard, commits + Entered(e, x.end))
  {
    hide EndOk, CommitsOk, AckedOk, JoinOk, SentOk;
    SameCommits(commits, e, x.end);
    SentStays(sent, e, x.end, commits, commits, heard);
  }

  lemma StartJoinKeeps(e: End, now: int, nonce: nat, binding: nat, peer: nat, sent: set<Message>, heard: set<Message>, commits: set<Incarnation>)
    requires SideOk(e, peer, sent, heard, commits)
    ensures var x := StartJoin(e, now, nonce, binding);
      SideOk(x.end, peer, sent + x.sent, heard, commits + Entered(e, x.end))
  {
    hide CommitsOk, AllSentOk, RouteOk;
    QuietOk(e, StartJoin(e, now, nonce, binding), peer, sent, heard, commits);
  }

  lemma ChallengeKeeps(e: End, m: Message, now: int, binding: nat, nonce: nat, peer: nat, sent: set<Message>, heard: set<Message>, commits: set<Incarnation>)
    requires SideOk(e, peer, sent, heard, commits) && m in heard && m.JoinMessage? && m.kind in {NoKind, JoinKind, ChallengeKind}
    ensures var x := ReceiveJoin(e, m, now, binding, nonce);
      SideOk(x.end, peer, sent + x.sent, heard, commits + Entered(e, x.end))
  {
    hide CommitsOk, AllSentOk, RouteOk;
    QuietOk(e, ReceiveJoin(e, m, now, binding, nonce), peer, sent, heard, commits);
  }

  lemma CommitOk(e: End, now: int, peer: nat)
    requires EndOk(e, peer) && e.join.pending && !e.join.committed && CanCommit(e, now)
    ensures EndOk(Commit(e, now), peer) && Forward(e, Commit(e, now))
    ensures Commit(e, now).generation == e.join.generation > e.generation
  {
    var c := Commit(e, now);
    forall k | 0 <= k < |c.routes|
      ensures RouteOk(c.routes[k], peer, c.generation)
    {
      assert RouteOk(e.routes[k], peer, e.generation);
    }
  }

  lemma ConfirmKeeps(e: End, m: Message, now: int, binding: nat, nonce: nat, peer: nat, sent: set<Message>, heard: set<Message>, commits: set<Incarnation>)
    requires SideOk(e, peer, sent, heard, commits) && m in heard && m.JoinMessage? && m.kind in {ConfirmKind, ReadyKind}
    ensures var x := ReceiveJoin(e, m, now, binding, nonce);
      && SideOk(x.end, peer, sent + x.sent, heard, commits + Entered(e, x.end))
      && (x.end.generation != e.generation ==>
          Entered(e, x.end) == {Incarnation(m.generation, m.client, m.server)} && x.end.generation > e.generation)
  {
    hide CommitsOk, AllSentOk, RouteOk;
    var x := ReceiveJoin(e, m, now, binding, nonce);
    if x == Reaction(e, {}) {
      QuietOk(e, x, peer, sent, heard, commits);
    } else {
      CommitOk(e, now, peer);
      CommitSent(e, m, now, binding, nonce, peer, sent, heard, commits);
    }
  }

  lemma CommitSent(e: End, m: Message, now: int, binding: nat, nonce: nat, peer: nat, sent: set<Message>, heard: set<Message>, commits: set<Incarnation>)
    requires SideOk(e, peer, sent, heard, commits) && m in heard && m.JoinMessage? && m.kind in {ConfirmKind, ReadyKind}
    requires ReceiveJoin(e, m, now, binding, nonce) != Reaction(e, {})
    requires EndOk(Commit(e, now), peer) && Forward(e, Commit(e, now)) && Commit(e, now).generation > e.generation
    ensures var x := ReceiveJoin(e, m, now, binding, nonce);
      SideOk(x.end, peer, sent + x.sent, heard, commits + Entered(e, x.end))
  {
    hide RouteOk, FreeOld;
    var x := ReceiveJoin(e, m, now, binding, nonce);
    NewCommit(commits, e, x.end);
    SentStays(sent, e, x.end, commits, commits + Entered(e, x.end), heard);
    hide CommitsOk;
    assert forall y :: y in x.sent ==> SentOk(y, x.end, commits + Entered(e, x.end), heard);
    hide SentOk;
  }

  lemma BudgetKeeps(e: End, m: Message, now: int, binding: nat, peer: nat, sent: set<Message>, heard: set<Message>, commits: set<Incarnation>)
    requires SideOk(e, peer, sent, heard, commits) && m in heard && (m.UpdateMessage? || m.AckMessage?)
    requires m.UpdateMessage? ==> m.budget == peer
    ensures var x := ReceiveBudget(e, m, now, binding);
      SideOk(x.end, peer, sent + x.sent, heard, commits + Entered(e, x.end))
  {
    hide CommitsOk, AllSentOk, RouteOk, ValidRoute, AllowRetry;
    QuietOk(e, ReceiveBudget(e, m, now, binding), peer, sent, heard, commits);
  }

  lemma DataKeeps(e: End, size: nat, peer: nat, sent: set<Message>, heard: set<Message>, commits: set<Incarnation>)
    requires SideOk(e, peer, sent, heard, commits)
    ensures var x := SendData(e, size); SideOk(x.end, peer, sent + x.sent, heard, commits + Entered(e, x.end))
  {
    hide CommitsOk, AllSentOk, RouteOk;
    QuietOk(e, SendData(e, size), peer, sent, heard, commits);
  }

  lemma PublishKeeps(e: End, now: int, peer: nat, sent: set<Message>, heard: set<Message>, commits: set<Incarnation>)
    requires SideOk(e, peer, sent, heard, commits)
    ensures var x := Publish(e, now); SideOk(x.end, peer, sent + x.sent, heard, commits + Entered(e, x.end))
  {
    hide CommitsOk, AllSentOk, RouteOk;
    QuietOk(e, Publish(e, now), peer, sent, heard, commits);
  }

  lemma ExpireKeeps(e: End, now: int, peer: nat, sent: set<Message>, heard: set<Message>, commits: set<Incarnation>)
    requires SideOk(e, peer, sent, heard, commits)
    ensures SideOk(Expire(e, now), peer, sent + {}, heard, commits + Entered(e, Expire(e, now)))
  {
    hide CommitsOk, AllSentOk, RouteOk, Unexpired;
    RoutesKept(e.routes, Unexpired(e.routes, now), peer, e.generation);
    QuietOk(e, Reaction(Expire(e, now), {}), peer, sent, heard, commits);
  }

  lemma FailKeeps(e: End, binding: nat, peer: nat, sent: set<Message>, heard: set<Message>, commits: set<Incarnation>)
    requires SideOk(e, peer, sent, heard, commits)
    ensures SideOk(Fail(e, binding), peer, sent + {}, heard, commits + Entered(e, Fail(e, binding)))
  {
    hide CommitsOk, AllSentOk, RouteOk, Elsewhere;
    RoutesKept(e.routes, Elsewhere(e.routes, binding), peer, e.generation);
    QuietOk(e, Reaction(Fail(e, binding), {}), peer, sent, heard, commits);
  }

  lemma RoutesKept(routes: seq<OldRoute>, kept: seq<OldRoute>, peer: nat, generation: nat)
    requires |kept| == |routes| && forall k :: 0 <= k < |kept| ==> kept[k] == NoRoute || kept[k] == routes[k]
    requires forall k :: 0 <= k < |routes| ==> RouteOk(routes[k], peer, generation)
    ensures forall k :: 0 <= k < |kept| ==> RouteOk(kept[k], peer, generation)
  {
    forall k | 0 <= k < |kept|
      ensures RouteOk(kept[k], peer, generation)
    {
      assert RouteOk(routes[k], peer, generation);
    }
  }

  lemma ReceiveKeeps(e: End, m: Message, now: int, binding: nat, nonce: nat, peer: nat, sent: set<Message>, heard: set<Message>, commits: set<Incarnation>)
    requires SideOk(e, peer, sent, heard, commits) && m in heard && (m.UpdateMessage? ==> m.budget == peer)
    ensures var x := Receive(e, m, now, binding, nonce);
      && SideOk(x.end, peer, sent + x.sent, heard, commits + Entered(e, x.end))
      && (x.end.generation != e.generation ==>
          m.JoinMessage? && Entered(e, x.end) == {Incarnation(m.generation, m.client, m.server)})
  {
    hide SideOk, ReceiveJoin, ReceiveBudget;
    match m
    case JoinMessage(kind, _, _, _) =>
      if kind == ConfirmKind || kind == ReadyKind {
        ConfirmKeeps(e, m, now, binding, nonce, peer, sent, heard, commits);
      } else {
        ChallengeKeeps(e, m, now, binding, nonce, peer, sent, heard, commits);
        ChallengeIsQuiet(e, m, now, binding, nonce);
      }
    case UpdateMessage(_, _, _) =>
      BudgetKeeps(e, m, now, binding, peer, sent, heard, commits);
      BudgetIsQuiet(e, m, now, binding);
    case AckMessage(_, _, _) =>
      BudgetKeeps(e, m, now, binding, peer, sent, heard, commits);
      BudgetIsQuiet(e, m, now, binding);
    case DataMessage(_, _, _) => NothingKeeps(e, peer, sent, heard, commits);
  }

  lemma ChallengeIsQuiet(e: End, m: Message, now: int, binding: nat, nonce: nat)
    requires m.JoinMessage? && m.kind in {NoKind, JoinKind, ChallengeKind}
    ensures ReceiveJoin(e, m, now, binding, nonce).end.generation == e.generation
  {
  }

  lemma BudgetIsQuiet(e: End, m: Message, now: int, binding: nat)
    requires m.UpdateMessage? || m.AckMessage?
    ensures ReceiveBudget(e, m, now, binding).end.generation == e.generation
  {
  }

  lemma NothingKeeps(e: End, peer: nat, sent: set<Message>, heard: set<Message>, commits: set<Incarnation>)
    requires SideOk(e, peer, sent, heard, commits)
    ensures SideOk(e, peer, sent + {}, heard, commits + Entered(e, e))
  {
    hide EndOk, CommitsOk, AllSentOk, AckedOk, JoinOk;
    assert sent + {} == sent && commits + {} == commits;
  }

  // ---------------------------------------------------------------------------
  // Every run of the system

  lemma ReactIOk(s: System, x: Reaction)
    requires SystemOk(s) && x.end.terms == s.i.terms
    requires SideOk(x.end, s.r.terms.fixed, s.sentI + x.sent, s.sentR, s.commitsI + Entered(s.i, x.end))
    requires Entered(s.i, x.end) <= s.commitsR
    ensures SystemOk(ReactI(s, x))
  {
    hide SideOk;
    HeardMore(s.r, s.i.terms.fixed, s.sentR, s.sentI, s.sentI + x.sent, s.commitsR);
  }

  lemma ReactROk(s: System, x: Reaction)
    requires SystemOk(s) && x.end.terms == s.r.terms
    requires SideOk(x.end, s.i.terms.fixed, s.sentR + x.sent, s.sentI, s.commitsR + Entered(s.r, x.end))
    requires Confirmed(Entered(s.r, x.end), s.sentI)
    ensures SystemOk(ReactR(s, x))
  {
    hide SideOk;
    HeardMore(s.i, s.r.terms.fixed, s.sentI, s.sentR, s.sentR + x.sent, s.commitsI);
  }

  // What a message says about the end that sent it.
  lemma HeardIsSent(e: End, peer: nat, sent: set<Message>, heard: set<Message>, commits: set<Incarnation>, m: Message)
    requires SideOk(e, peer, sent, heard, commits) && m in sent
    ensures SentOk(m, e, commits, heard)
  {
  }

  lemma DeliverIKeeps(s: System, m: Message, now: int, binding: nat)
    requires SystemOk(s) && m in s.sentR
    ensures SystemOk(ReactI(s, Receive(s.i, m, now, binding, 0)))
  {
    hide SideOk;
    HeardIsSent(s.r, s.i.terms.fixed, s.sentR, s.sentI, s.commitsR, m);
    ReceiveKeeps(s.i, m, now, binding, 0, s.r.terms.fixed, s.sentI, s.sentR, s.commitsI);
    CommitsOnReady(s.i, m, now, binding, 0);
    ReactIOk(s, Receive(s.i, m, now, binding, 0));
  }

  // The initiator only commits on READY, the responder only on CONFIRM.
  lemma CommitsOnReady(e: End, m: Message, now: int, binding: nat, nonce: nat)
    ensures Receive(e, m, now, binding, nonce).end.terms == e.terms
    ensures e.terms.role == Initiator && Receive(e, m, now, binding, nonce).end.generation != e.generation ==>
      m.JoinMessage? && m.kind == ReadyKind
    ensures e.terms.role == Responder && Receive(e, m, now, binding, nonce).end.generation != e.generation ==>
      m.JoinMessage? && m.kind == ConfirmKind
    ensures Entered(e, Receive(e, m, now, binding, nonce).end) != {} ==>
      Receive(e, m, now, binding, nonce).end.generation != e.generation
  {
    hide ForJoin, FreeOld, ValidRoute, AllowRetry;
  }

  lemma DeliverRKeeps(s: System, m: Message, now: int, binding: nat, nonce: nat)
    requires SystemOk(s) && m in s.sentI
    ensures SystemOk(ReactR(s, Receive(s.r, m, now, binding, nonce)))
  {
    hide SideOk;
    HeardIsSent(s.i, s.r.terms.fixed, s.sentI, s.sentR, s.commitsI, m);
    ReceiveKeeps(s.r, m, now, binding, nonce, s.i.terms.fixed, s.sentR, s.sentI, s.commitsR);
    CommitsOnReady(s.r, m, now, binding, nonce);
    ReactROk(s, Receive(s.r, m, now, binding, nonce));
  }

  lemma LocalIKeeps(s: System, step: Step)
    requires SystemOk(s) && !step.DeliverI? && !step.DeliverR?
    ensures SystemOk(Take(s, step))
  {
    hide SideOk, StartJoin, SendData, Publish, Expire, Fail;
    var pi, pr := s.r.terms.fixed, s.i.terms.fixed;
    match step
    case JoinStep(now, nonce, binding) =>
      StartJoinKeeps(s.i, now, nonce, binding, pi, s.sentI, s.sentR, s.commitsI);
      StartJoinIsQuiet(s.i, now, nonce, binding);
      ReactIOk(s, StartJoin(s.i, now, nonce, binding));
    case PublishI(now) =>
      PublishKeeps(s.i, now, pi, s.sentI, s.sentR, s.commitsI);
      LocalIsQuiet(s.i, now, 0, 0);
      ReactIOk(s, Publish(s.i, now));
    case PublishR(now) =>
      PublishKeeps(s.r, now, pr, s.sentR, s.sentI, s.commitsR);
      LocalIsQuiet(s.r, now, 0, 0);
      ReactROk(s, Publish(s.r, now));
    case DataI(size) =>
      DataKeeps(s.i, size, pi, s.sentI, s.sentR, s.commitsI);
      LocalIsQuiet(s.i, 0, 0, size);
      ReactIOk(s, SendData(s.i, size));
    case DataR(size) =>
      DataKeeps(s.r, size, pr, s.sentR, s.sentI, s.commitsR);
      LocalIsQuiet(s.r, 0, 0, size);
      ReactROk(s, SendData(s.r, size));
    case ExpireI(now) =>
      ExpireKeeps(s.i, now, pi, s.sentI, s.sentR, s.commitsI);
      LocalIsQuiet(s.i, now, 0, 0);
      ReactIOk(s, Reaction(Expire(s.i, now), {}));
    case ExpireR(now) =>
      ExpireKeeps(s.r, now, pr, s.sentR, s.sentI, s.commitsR);
      LocalIsQuiet(s.r, now, 0, 0);
      ReactROk(s, Reaction(Expire(s.r, now), {}));
    case FailI(binding) =>
      FailKeeps(s.i, binding, pi, s.sentI, s.sentR, s.commitsI);
      LocalIsQuiet(s.i, 0, binding, 0);
      ReactIOk(s, Reaction(Fail(s.i, binding), {}));
    case FailR(binding) =>
      FailKeeps(s.r, binding, pr, s.sentR, s.sentI, s.commitsR);
      LocalIsQuiet(s.r, 0, binding, 0);
      ReactROk(s, Reaction(Fail(s.r, binding), {}));
  }

  lemma StartJoinIsQuiet(e: End, now: int, nonce: nat, binding: nat)
    ensures StartJoin(e, now, nonce, binding).end.generation == e.generation
    ensures StartJoin(e, now, nonce, binding).end.terms == e.terms
  {
  }

  lemma LocalIsQuiet(e: End, now: int, binding: nat, size: nat)
    ensures Publish(e, now).end.generation == SendData(e, size).end.generation == e.generation
    ensures Expire(e, now).generation == Fail(e, binding).generation == e.generation
    ensures Publish(e, now).end.terms == SendData(e, size).end.terms == e.terms
    ensures Expire(e, now).terms == Fail(e, binding).terms == e.terms
  {
    hide Unexpired, Elsewhere;
  }

  lemma StepKeeps(s: System, step: Step)
    requires SystemOk(s)
    ensures SystemOk(Take(s, step))
  {
    hide SystemOk, Receive;
    match step
    case DeliverI(m, now, binding) =>
      if m in s.sentR {
        DeliverIKeeps(s, m, now, binding);
      }
    case DeliverR(m, now, binding, nonce) =>
      if m in s.sentI {
        DeliverRKeeps(s, m, now, binding, nonce);
      }
    case _ => LocalIKeeps(s, step);
  }

  lemma BeginOk(a: Terms, b: Terms, bootstrap: bool, bindingA: nat, bindingB: nat)
    requires a.role == Initiator && b.role == Responder && a.fixed >= BASE_BUDGET && b.fixed >= BASE_BUDGET
    ensures SystemOk(Begin(a, b, bootstrap, bindingA, bindingB))
  {
    var s := Begin(a, b, bootstrap, bindingA, bindingB);
    if bootstrap {
      assert Incarnation(1, 0, 0) in s.commitsI && Incarnation(1, 0, 0) in s.commitsR;
    }
  }

  lemma {:induction false} EveryRunIsOk(s: System, steps: seq<Step>)
    requires SystemOk(s)
    ensures SystemOk(Run(s, steps))
  {
    hide SystemOk, Take;
    if steps != [] {
      EveryRunIsOk(s, steps[..|steps| - 1]);
      StepKeeps(Run(s, steps[..|steps| - 1]), steps[|steps| - 1]);
    }
  }

  // ---------------------------------------------------------------------------
  // What the ends agree on

  /** The ends enter the same incarnations: whatever the initiator commits, the
      responder had committed with the same generation and nonces, the responder
      committed nothing that the initiator had not confirmed, and each end enters a
      generation at most once. */
  lemma IncarnationsAgree(s: System)
    requires SystemOk(s)
    ensures forall c, d :: c in s.commitsI && d in s.commitsR && c.generation == d.generation ==> c == d
    ensures forall c :: c in s.commitsI ==> c in s.commitsR
    ensures forall c :: c in s.commitsR && c.client != 0 ==>
      JoinMessage(ConfirmKind, c.generation, c.client, c.server) in s.sentI
    ensures s.i.generation <= s.r.generation
  {
    hide EndOk, AllSentOk, AckedOk, JoinOk;
    if s.i.generation > 0 {
      var c :| c in s.commitsI && c.generation == s.i.generation;
      assert c in s.commitsR;
    }
  }

  /** Both ends only ever move to a larger generation. */
  lemma GenerationsIncrease(s: System, step: Step)
    requires SystemOk(s)
    ensures var t := Take(s, step);
      && t.i.generation >= s.i.generation && t.r.generation >= s.r.generation
      && (forall c :: c in t.commitsI && c !in s.commitsI ==> s.i.generation < c.generation == t.i.generation)
      && (forall c :: c in t.commitsR && c !in s.commitsR ==> s.r.generation < c.generation == t.r.generation)
  {
    hide SystemOk, EndOk, Receive, StartJoin, SendData, Publish, Expire, Fail;
    EndsOk(s);
    match step
    case DeliverI(m, now, binding) => ReceiveForward(s.i, m, now, binding, 0, s.r.terms.fixed);
    case DeliverR(m, now, binding, nonce) => ReceiveForward(s.r, m, now, binding, nonce, s.i.terms.fixed);
    case JoinStep(now, nonce, binding) => StartJoinIsQuiet(s.i, now, nonce, binding);
    case PublishI(now) => LocalIsQuiet(s.i, now, 0, 0);
    case PublishR(now) => LocalIsQuiet(s.r, now, 0, 0);
    case DataI(size) => LocalIsQuiet(s.i, 0, 0, size);
    case DataR(size) => LocalIsQuiet(s.r, 0, 0, size);
    case ExpireI(now) => LocalIsQuiet(s.i, now, 0, 0);
    case ExpireR(now) => LocalIsQuiet(s.r, now, 0, 0);
    case FailI(binding) => LocalIsQuiet(s.i, 0, binding, 0);
    case FailR(binding) => LocalIsQuiet(s.r, 0, binding, 0);
  }

  lemma EndsOk(s: System)
    requires SystemOk(s)
    ensures EndOk(s.i, s.r.terms.fixed) && EndOk(s.r, s.i.terms.fixed)
  {
    hide EndOk, CommitsOk, AllSentOk, AckedOk, JoinOk;
  }

  lemma ReceiveForward(e: End, m: Message, now: int, binding: nat, nonce: nat, peer: nat)
    requires EndOk(e, peer)
    ensures var next := Receive(e, m, now, binding, nonce).end;
      next.generation >= e.generation && (next.generation != e.generation ==> next.join.generation == next.generation)
  {
    hide ValidRoute, AllowRetry, FreeOld, RouteOk;
  }

  /** An end that sends under epoch 2 has the very budget that its peer receives
      with, as long as the peer is still on the same generation. */
  lemma BudgetsAgree(s: System)
    requires SystemOk(s)
    ensures s.i.sendEpoch == 2 && s.r.generation == s.i.generation ==>
      s.r.receiveEpoch == 2 && s.r.receiveBudget == s.i.sendBudget == s.i.terms.fixed
    ensures s.r.sendEpoch == 2 && s.i.generation == s.r.generation ==>
      s.i.receiveEpoch == 2 && s.i.receiveBudget == s.r.sendBudget == s.r.terms.fixed
  {
    hide CommitsOk, JoinOk;
    if s.i.sendEpoch == 2 {
      var epoch :| AckMessage(s.i.generation, epoch, s.i.sendBudget) in s.sentR;
      assert SentOk(AckMessage(s.i.generation, epoch, s.i.sendBudget), s.r, s.commitsR, s.sentI);
    }
    if s.r.sendEpoch == 2 {
      var epoch :| AckMessage(s.r.generation, epoch, s.r.sendBudget) in s.sentI;
      assert SentOk(AckMessage(s.r.generation, epoch, s.r.sendBudget), s.i, s.commitsI, s.sentR);
    }
  }

  lemma {:induction false} OldBudgetFits(routes: seq<OldRoute>, binding: nat, generation: nat, now: int, peer: nat, limit: nat)
    requires forall k :: 0 <= k < |routes| ==> RouteOk(routes[k], peer, limit)
    ensures OldBudget(routes, binding, generation, 2, now) in {Refused, Admitted(peer, true)}
  {
    if routes != [] {
      assert RouteOk(routes[0], peer, limit);
      OldBudgetFits(routes[1..], binding, generation, now, peer, limit);
    }
  }

  /** A data packet never exceeds the budget of any route, live or kept for old
      data, on which the receiver admits it, however late it arrives. */
  lemma DataFitsItsRoute(s: System, generation: nat, epoch: nat, size: nat, binding: nat, now: int)
    requires SystemOk(s)
    ensures DataMessage(generation, epoch, size) in s.sentI ==>
      var a := ValidRoute(s.r, binding, generation, epoch, now); a == Refused || size <= a.budget
    ensures DataMessage(generation, epoch, size) in s.sentR ==>
      var a := ValidRoute(s.i, binding, generation, epoch, now); a == Refused || size <= a.budget
  {
    hide CommitsOk, JoinOk, AckedOk, OldBudget;
    var m := DataMessage(generation, epoch, size);
    if m in s.sentI {
      assert SentOk(m, s.i, s.commitsI, s.sentR);
      OldBudgetFits(s.r.routes, binding, generation, now, s.i.terms.fixed, s.r.generation);
    }
    if m in s.sentR {
      assert SentOk(m, s.r, s.commitsR, s.sentI);
      OldBudgetFits(s.i.routes, binding, generation, now, s.r.terms.fixed, s.i.generation);
    }
  }

  /** Over every run of both ends and every behaviour of the network: what the
      initiator commits the responder has committed alike, an end that sends under
      epoch 2 has its peer's receive budget while both are on one generation, and no
      data packet on an admitted route exceeds the receiver's budget. */
  lemma EveryRunAgrees(
    a: Terms, b: Terms, bootstrap: bool, bindingA: nat, bindingB: nat, steps: seq<Step>,
    generation: nat, epoch: nat, size: nat, binding: nat, now: int)
    requires a.role == Initiator && b.role == Responder && a.fixed >= BASE_BUDGET && b.fixed >= BASE_BUDGET
    ensures var s := Run(Begin(a, b, bootstrap, bindingA, bindingB), steps);
      && (forall c :: c in s.commitsI ==> c in s.commitsR)
      && (forall c, d :: c in s.commitsI && d in s.commitsR && c.generation == d.generation ==> c == d)
      && (s.i.sendEpoch == 2 && s.r.generation == s.i.generation ==>
          s.r.receiveEpoch == 2 && s.r.receiveBudget == s.i.sendBudget)
      && (s.r.sendEpoch == 2 && s.i.generation == s.r.generation ==>
          s.i.receiveEpoch == 2 && s.i.receiveBudget == s.r.sendBudget)
      && (DataMessage(generation, epoch, size) in s.sentI ==>
          var x := ValidRoute(s.r, binding, generation, epoch, now); x == Refused || size <= x.budget)
      && (DataMessage(generation, epoch, size) in s.sentR ==>
          var x := ValidRoute(s.i, binding, generation, epoch, now); x == Refused || size <= x.budget)
  {
    hide Run, Begin, SystemOk, ValidRoute;
    var s := Run(Begin(a, b, bootstrap, bindingA, bindingB), steps);
    BeginOk(a, b, bootstrap, bindingA, bindingB);
    EveryRunIsOk(Begin(a, b, bootstrap, bindingA, bindingB), steps);
    IncarnationsAgree(s);
    BudgetsAgree(s);
    DataFitsItsRoute(s, generation, epoch, size, binding, now);
  }

  // ---------------------------------------------------------------------------
  // The code

  class PathState {
    const terms: Terms
    const routes: array<OldRoute>
    var active: bool
    var generation: nat
    var floor: nat
    var binding: nat
    var sendBudget: nat
    var receiveBudget: nat
    var sendEpoch: nat
    var receiveEpoch: nat
    var oldBudget: nat
    var oldEpoch: nat
    var oldUntil: int
    var peerDeadline: int
    var join: Join
    var budgetPending: bool
    var budgetDeadline: int

    ghost function View(): End
      reads this, routes
    {
      End(terms, active, generation, floor, binding, sendBudget, receiveBudget, sendEpoch, receiveEpoch,
          oldBudget, oldEpoch, oldUntil, peerDeadline, routes[..], join, budgetPending, budgetDeadline)
    }

    constructor (terms: Terms, bootstrap: bool, binding: nat)
      ensures View() == Start(terms, bootstrap, binding) && fresh(routes)
    {
      this.terms := terms;
      routes := new OldRoute[8](_ => NoRoute);
      active, generation, floor, this.binding := bootstrap, 0, 0, 0;
      sendBudget, receiveBudget, sendEpoch, receiveEpoch := 0, 0, 0, 0;
      oldBudget, oldEpoch, oldUntil, peerDeadline := 0, 0, 0, 0;
      join, budgetPending, budgetDeadline := NO_JOIN, false, 0;
      new;
      assert routes[..] == NO_ROUTES;
      if bootstrap {
        generation, floor, this.binding := 1, 1, binding;
        sendBudget, receiveBudget, sendEpoch, receiveEpoch := BASE_BUDGET, BASE_BUDGET, 1, 1;
      }
    }

    // validRoute
    method AdmitRoute(at: nat, generation: nat, epoch: nat, now: int) returns (a: Admission)
      ensures a == ValidRoute(View(), at, generation, epoch, now)
    {
      if active && binding == at && this.generation == generation {
        if receiveEpoch == epoch {
          return Admitted(receiveBudget, false);
        }
        if oldEpoch == epoch && now < oldUntil {
          return Admitted(oldBudget, true);
        }
      }
      var k := 0;
      while k < routes.Length
        invariant k <= routes.Length
        invariant OldBudget(routes[..], at, generation, epoch, now) == OldBudget(routes[k..], at, generation, epoch, now)
      {
        assert routes[k..][1..] == routes[k + 1..];
        if OldRouteMatches(routes[k], at, generation, epoch, now) {
          return Admitted(routes[k].budget, true);
        }
        k := k + 1;
      }
      return Refused;
    }

    // startJoin, once the entropy gave a nonce
    method BeginJoin(now: int, nonce: nat, at: nat) returns (sent: set<Message>)
      modifies this`floor, this`join
      ensures Reaction(View(), sent) == StartJoin(old(View()), now, nonce, at)
    {
      if terms.role != Initiator || join.pending || floor == MAX_U64 || nonce == 0 {
        return {};
      }
      floor := floor + 1;
      join := Join(true, now + CONTROL_LIFETIME, JoinKind, nonce, 0, at, floor, false);
      return {JoinMessage(JoinKind, floor, nonce, 0)};
    }

    method FreeRoute(now: int) returns (slot: nat)
      ensures slot == FreeOld(routes[..], terms.maxOld, now)
    {
      slot := 0;
      while slot < routes.Length && slot < terms.maxOld
        invariant slot <= routes.Length && slot <= terms.maxOld
        invariant FreeOld(routes[..], terms.maxOld, now) == slot + FreeOld(routes[slot..], terms.maxOld - slot, now)
      {
        assert routes[slot..][1..] == routes[slot + 1..];
        if routes[slot].NoRoute? || now >= routes[slot].until {
          return;
        }
        slot := slot + 1;
      }
    }

    // commitPath; it fails while every old route is still in its grace.
    method CommitPath(now: int) returns (ok: bool)
      modifies this, routes
      ensures ok == CanCommit(old(View()), now)
      ensures View() == if ok then Commit(old(View()), now) else old(View())
    {
      hide FreeOld;
      ok := true;
      if active {
        ok := KeepOldRoute(now);
        if !ok {
          return;
        }
      }
      EnterIncarnation(now);
    }

    method EnterIncarnation(now: int)
      modifies this
      ensures View() == Renewed(old(View()), old(routes[..]), now)
    {
      active, generation, binding := true, join.generation, join.binding;
      join := join.(committed := true);
      ResetBudgets(now);
    }

    // A new incarnation starts with the base budget and publishes its own anew.
    method ResetBudgets(now: int)
      modifies this`sendBudget, this`receiveBudget, this`sendEpoch, this`receiveEpoch, this`oldBudget, this`oldEpoch,
        this`oldUntil, this`peerDeadline, this`budgetPending, this`budgetDeadline
      ensures sendBudget == receiveBudget == BASE_BUDGET && sendEpoch == receiveEpoch == 1
      ensures oldBudget == oldEpoch == 0 && oldUntil == peerDeadline == 0
      ensures budgetPending && budgetDeadline == now + CONTROL_LIFETIME
    {
      sendBudget, receiveBudget, sendEpoch, receiveEpoch := BASE_BUDGET, BASE_BUDGET, 1, 1;
      oldBudget, oldEpoch, oldUntil, peerDeadline := 0, 0, 0, 0;
      budgetPending, budgetDeadline := true, now + CONTROL_LIFETIME;
    }

    // The current route is kept for data still on its way.
    method KeepOldRoute(now: int) returns (ok: bool)
      requires active
      modifies routes
      ensures ok == CanCommit(old(View()), now)
      ensures View() == old(View()).(routes := routes[..]) && (!ok ==> View() == old(View()))
      ensures ok ==> Renewed(old(View()), routes[..], now) == Commit(old(View()), now)
    {
      hide FreeOld;
      var slot := FreeRoute(now);
      ok := slot < routes.Length && slot < terms.maxOld;
      if ok {
        routes[slot] := OldRoute(binding, generation, receiveEpoch, receiveBudget, now + terms.grace);
      }
    }

    // receiveJoin
    method TakeJoin(m: Message, now: int, at: nat, nonce: nat) returns (sent: set<Message>, answer: Answer)
      requires m.JoinMessage?
      modifies this, routes
      ensures Reaction(View(), sent) == ReceiveJoin(old(View()), m, now, at, nonce)
      ensures answer == JoinAnswer(old(View()), m, now, at, nonce)
    {
      hide FreeOld, CanCommit;
      if m.client == 0 {
        return {}, ErrProtocol;
      }
      if m.kind == JoinKind {
        sent, answer := Challenge(m, now, at, nonce);
        return;
      }
      if m.kind == ReadyKind && join.committed && join.binding == at && join.generation == m.generation
        && join.client == m.client && join.server == m.server {
        return {}, Ignored;
      }
      if !join.pending || now >= join.deadline || join.binding != at || join.generation != m.generation
        || join.client != m.client || m.server == 0 {
        return {}, ErrProtocol;
      }
      match m.kind {
        case ChallengeKind =>
          if terms.role != Initiator {
            return {}, ErrProtocol;
          }
          if join.kind == ConfirmKind {
            return {}, if join.server != m.server then ErrProtocol else Ignored;
          }
          if join.kind != JoinKind {
            return {}, ErrProtocol;
          }
          join := join.(server := m.server, kind := ConfirmKind);
          return {JoinMessage(ConfirmKind, m.generation, m.client, m.server)}, Done;
        case ConfirmKind =>
          if terms.role != Responder || join.server != m.server {
            return {}, ErrProtocol;
          }
          if join.committed {
            return {}, Ignored;
          }
          var ok := CommitPath(now);
          if !ok {
            return {}, ErrNotReady;
          }
          join := join.(kind := ReadyKind);
          return {JoinMessage(ReadyKind, m.generation, m.client, m.server), UpdateMessage(generation, sendEpoch, terms.fixed)}, Done;
        case ReadyKind =>
          if terms.role != Initiator || join.kind != ConfirmKind || join.server != m.server {
            return {}, ErrProtocol;
          }
          var ok := CommitPath(now);
          if !ok {
            return {}, ErrNotReady;
          }
          join := join.(pending := false);
          return {UpdateMessage(generation, sendEpoch, terms.fixed)}, Done;
        case _ => return {}, ErrProtocol;
      }
    }

    // A PATH_JOIN opens the exchange at the responder.
    method Challenge(m: Message, now: int, at: nat, nonce: nat) returns (sent: set<Message>, answer: Answer)
      requires m.JoinMessage? && m.kind == JoinKind && m.client != 0
      modifies this`floor, this`join
      ensures Reaction(View(), sent) == ReceiveJoin(old(View()), m, now, at, nonce)
      ensures answer == JoinAnswer(old(View()), m, now, at, nonce)
    {
      if terms.role != Responder || m.server != 0 {
        return {}, ErrProtocol;
      }
      if join.pending {
        if now >= join.deadline || join.binding != at || join.generation != m.generation || join.client != m.client {
          return {}, ErrProtocol;
        }
        return {}, Ignored;
      }
      if m.generation <= floor {
        return {}, ErrProtocol;
      }
      if nonce == 0 {
        return {}, ErrEntropy;
      }
      floor := m.generation;
      join := Join(true, now + CONTROL_LIFETIME, ChallengeKind, m.client, nonce, at, m.generation, false);
      return {JoinMessage(ChallengeKind, m.generation, m.client, nonce)}, Done;
    }

    // Receive and receiveBudget
    method TakeBudget(m: Message, now: int, at: nat) returns (sent: set<Message>, answer: Answer)
      requires m.UpdateMessage? || m.AckMessage?
      modifies this`oldBudget, this`oldEpoch, this`oldUntil, this`peerDeadline, this`receiveBudget, this`receiveEpoch,
        this`sendBudget, this`sendEpoch, this`budgetPending
      ensures Reaction(View(), sent) == ReceiveBudget(old(View()), m, now, at)
      ensures answer == BudgetAnswer(old(View()), m, now, at)
    {
      hide ValidRoute, AllowRetry;
      var a := AdmitRoute(at, m.generation, m.epoch, now);
      var retry := MayRetry(m, now, at);
      if (a == Refused && !retry) || m.generation != generation {
        return {}, Ignored;
      }
      if m.UpdateMessage? {
        sent := TakeUpdate(m.budget, now);
        answer := if sent == {} then ErrProtocol else Done;
      } else {
        sent := {};
        answer := TakeAck(m.budget, now);
      }
    }

    method TakeUpdate(budget: nat, now: int) returns (sent: set<Message>)
      modifies this`oldBudget, this`oldEpoch, this`oldUntil, this`peerDeadline, this`receiveBudget, this`receiveEpoch
      ensures Reaction(View(), sent) == UpdateTaken(old(View()), budget, now)
    {
      if budget < BASE_BUDGET || budget > terms.cap || (receiveEpoch == 2 && receiveBudget != budget) {
        return {};
      }
      if receiveEpoch != 2 {
        oldBudget, oldEpoch, oldUntil := receiveBudget, receiveEpoch, now + terms.grace;
        peerDeadline, receiveBudget, receiveEpoch := now + CONTROL_LIFETIME, budget, 2;
      }
      return {AckMessage(generation, sendEpoch, budget)};
    }

    method TakeAck(budget: nat, now: int) returns (answer: Answer)
      modifies this`sendBudget, this`sendEpoch, this`budgetPending
      ensures View() == AckTaken(old(View()), budget, now)
      ensures answer == if budget != terms.fixed then ErrProtocol else if old(sendEpoch) == 2 then Ignored
        else if !old(budgetPending) || now >= budgetDeadline then ErrProtocol else Done
    {
      if budget != terms.fixed {
        return ErrProtocol;
      }
      if sendEpoch == 2 {
        return Ignored;
      }
      if !budgetPending || now >= budgetDeadline {
        return ErrProtocol;
      }
      sendBudget, sendEpoch, budgetPending := budget, 2, false;
      return Done;
    }

    // allowBudgetRetry
    method MayRetry(m: Message, now: int, at: nat) returns (ok: bool)
      requires m.UpdateMessage? || m.AckMessage?
      ensures ok == AllowRetry(View(), at, m, now)
    {
      if !active || binding != at || m.generation != generation || m.epoch != 1 {
        return false;
      }
      if m.UpdateMessage? {
        return now < peerDeadline && m.budget == receiveBudget;
      }
      return budgetPending && now < budgetDeadline && m.budget == terms.fixed;
    }

    // expireControl for this path
    method ExpireControl(now: int)
      modifies this`join, this`active, this`budgetPending, routes
      ensures View() == Expire(old(View()), now)
    {
      hide Unexpired;
      if join != NO_JOIN && now >= join.deadline {
        join := NO_JOIN;
      }
      if budgetPending && now >= budgetDeadline {
        active, budgetPending := false, false;
      }
      AgeRoutes(now);
    }

    method AgeRoutes(now: int)
      modifies routes
      ensures routes[..] == Unexpired(old(routes[..]), now)
    {
      hide Unexpired;
      for k := 0 to routes.Length
        invariant forall i :: 0 <= i < k ==> routes[i] == Aged(old(routes[i]), now)
        invariant forall i :: k <= i < routes.Length ==> routes[i] == old(routes[i])
      {
        if routes[k].OldRoute? && now >= routes[k].until {
          routes[k] := NoRoute;
        }
      }
    }

    // FailPath for this path
    method FailPath(at: nat)
      modifies this`join, this`active, this`budgetPending, routes
      ensures View() == Fail(old(View()), at)
    {
      hide Elsewhere;
      if active && binding == at {
        active, budgetPending := false, false;
      }
      if join.binding == at {
        join := NO_JOIN;
      }
      TearRoutes(at);
    }

    method TearRoutes(at: nat)
      modifies routes
      ensures routes[..] == Elsewhere(old(routes[..]), at)
    {
      hide Elsewhere;
      for k := 0 to routes.Length
        invariant forall i :: 0 <= i < k ==> routes[i] == Torn(old(routes[i]), at)
        invariant forall i :: k <= i < routes.Length ==> routes[i] == old(routes[i])
      {
        if routes[k].OldRoute? && routes[k].binding == at {
          routes[k] := NoRoute;
        }
      }
    }
  }
}
