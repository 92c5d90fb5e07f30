// internal/handshakev2: the retry and expiry schedule of the bootstrap engine.
//
// SessionIDs are serial numbers, so an ID is never drawn twice. Whether a packet
// authenticates, matches its transcript or installs, what becomes of an attempt that a
// dial is to start on a Carrier, which scopes have closed and which attempts leave a
// scope that is fit for another are inputs of the calls. What the engine owes the
// ledger for all this is in HandshakeCustody.
module HandshakeEngine {
  const LIFETIME := 10_000_000_000
  const RETRY_INTERVAL := 1_000_000_000
  const MAX_SENDS := 8
  const MAX_PENDING := 256
  const MAX_REJECTIONS := 256

  datatype Err = Ok | ErrClosed | ErrTime | ErrInvalid | ErrExpired | ErrLimit

  datatype State = WaitChallenge | WaitFinish | WaitReady | Established

  // The retried packets are those of the first phase, HELLO and CHALLENGE, and
  // those of the last, FINISH and READY. An attempt counts what it emitted; `prepared`:
  // it runs on a preparation.
  datatype Attempt = Attempt(
    initiator: bool, state: State, deadline: int, nextSend: int, sends: nat, packets: bool, closeSent: bool, dial: nat,
    firsts: nat, lasts: nat, closes: nat, prepared: bool)
  {
    predicate Keyed() {
      state != WaitChallenge
    }

    predicate FirstPhase() {
      state == WaitChallenge || state == WaitFinish
    }

    predicate Exhausted() {
      sends >= MAX_SENDS || (FirstPhase() && sends >= MAX_SENDS - 1)
    }

    // send
    predicate MaySend(first: bool, now: int, transition: bool) {
      !(sends >= MAX_SENDS || (!transition && now < nextSend)) && !(first && sends >= MAX_SENDS - 1)
    }

    function Send(first: bool, now: int, transition: bool): Attempt {
      if !MaySend(first, now, transition) then this
      else
        this.(sends := sends + 1, nextSend := now + RETRY_INTERVAL,
              firsts := firsts + if first then 1 else 0, lasts := lasts + if first then 0 else 1)
    }

    // sendClose
    function Notify(): Attempt {
      if closeSent || !Keyed() then this else this.(closeSent := true, closes := closes + 1)
    }

    // The times at which the attempt has work to do.
    function Wakes(): set<int> {
      if state == Established && !packets then {}
      else {deadline} + if Exhausted() then {} else {nextSend}
    }
  }

  datatype Option<T> = None | Some(value: T)

  // What Advance makes of one attempt; None when the attempt fails.
  function Advanced(a: Attempt, now: int, scopeClosed: bool): Option<Attempt> {
    if scopeClosed then None
    else if now >= a.deadline then
      if a.state == Established then Some(a.(packets := false)) else None
    else if !a.packets || (a.state == Established && a.initiator) then Some(a)
    else Some(a.Send(a.FirstPhase(), now, false))
  }

  // A retransmission is owed: the attempt is not over, still waits for an answer or
  // may be asked again for READY, its interval has passed and its budget is not spent.
  predicate Owes(a: Attempt, now: int) {
    && now < a.deadline && a.packets && !(a.state == Established && a.initiator) && a.nextSend <= now
    && a.sends < if a.state in {WaitChallenge, WaitFinish} then MAX_SENDS - 1 else MAX_SENDS
  }

  predicate OwesChallenge(a: Attempt, now: int) {
    a.state == WaitFinish && !a.initiator && Owes(a, now)
  }

  // One packet more went out at `now`: HELLO or CHALLENGE in the first phase, else
  // FINISH or READY.
  predicate Resent(a: Attempt, b: Attempt, now: int) {
    var n := if a.state in {WaitChallenge, WaitFinish} then 1 else 0;
    b == a.(sends := a.sends + 1, firsts := a.firsts + n, lasts := a.lasts + 1 - n, nextSend := now + RETRY_INTERVAL)
  }

  // What becomes of an attempt a of the table when time is advanced: an attempt that
  // owes a retransmission sends exactly one and any other sends nothing; at its
  // deadline an established one gives up its packets and another ends, and so does
  // any attempt whose scope was closed.
  predicate Treated(a: Attempt, b: Option<Attempt>, now: int, scopeClosed: bool) {
    && (!scopeClosed && Owes(a, now) ==> b.Some? && Resent(a, b.value, now))
    && (!scopeClosed && !Owes(a, now) && now < a.deadline ==> b == Some(a))
    && (!scopeClosed && a.deadline <= now && a.state == Established ==> b == Some(a.(packets := false)))
    && (scopeClosed || (a.deadline <= now && a.state != Established) ==> b == None)
  }

  predicate Budgeted(a: Attempt) {
    a.sends == a.firsts + a.lasts <= MAX_SENDS && a.firsts <= MAX_SENDS - 1 && a.closes <= 1
  }

  // An attempt in the table.
  predicate AttemptOk(a: Attempt) {
    && Budgeted(a) && !a.closeSent && a.closes == 0 && a.firsts >= 1 && (!a.initiator ==> a.dial == 0)
    && (a.state == WaitFinish ==> !a.initiator) && (a.state == WaitChallenge || a.state == WaitReady ==> a.initiator)
    && (a.state != Established ==> a.packets) && (a.state == Established && a.initiator ==> !a.packets)
    && (a.FirstPhase() ==> a.lasts == 0)
    && (a.state == WaitReady || (a.state == Established && !a.initiator) ==> a.lasts >= 1)
    && (a.prepared ==> a.initiator && a.state != Established && a.dial > 0)
  }

  /** An attempt changes only at one of its own wake times. */
  lemma QuietBetweenWakes(a: Attempt, now: int)
    requires AttemptOk(a) && forall t :: t in a.Wakes() ==> now < t
    ensures Advanced(a, now, false) == Some(a)
  {
    if a.state != Established || a.packets {
      assert a.deadline in a.Wakes();
      assert !a.Exhausted() ==> a.nextSend in a.Wakes();
    }
  }

  /** After Advance every wake time of an attempt lies in the future and the attempt is
      still within its budget; a retransmission that is owed goes out, exactly one, and
      nothing goes out that is not owed. */
  lemma AdvancedIsOk(a: Attempt, now: int, scopeClosed: bool)
    requires AttemptOk(a)
    ensures Treated(a, Advanced(a, now, scopeClosed), now, scopeClosed)
    ensures Advanced(a, now, scopeClosed).Some? ==>
      var b := Advanced(a, now, scopeClosed).value;
      && AttemptOk(b) && b.state == a.state && b.dial == a.dial && b.sends <= a.sends + 1
      && forall t :: t in b.Wakes() ==> now < t
  {
  }

  // The attempt after k further calls of Advance, one interval apart.
  function Awaited(a: Attempt, start: int, k: nat): Option<Attempt> {
    if k == 0 then Some(a)
    else
      var b := Awaited(a, start, k - 1);
      if b == None then None else Advanced(b.value, start + k * RETRY_INTERVAL, false)
  }

  // The attempt b still asks for the same answer and has sent n packets, one in each
  // interval since `start`, or all that its first phase may send.
  predicate AskedSince(a: Attempt, b: Attempt, start: int, n: nat) {
    && AttemptOk(b) && b.state == a.state && b.deadline == a.deadline
    && b.firsts == b.sends == (if n < MAX_SENDS - 1 then n else MAX_SENDS - 1)
    && (n <= MAX_SENDS - 1 ==> b.nextSend == start + n * RETRY_INTERVAL)
  }

  /** An attempt that is never answered asks again once in every interval, until its
      first phase has used up its seven packets, and ends at its deadline. */
  lemma {:induction false} LostIsResent(a: Attempt, start: int, k: nat)
    requires AttemptOk(a) && a.FirstPhase() && a.sends == 1 && a.nextSend == start + RETRY_INTERVAL
    ensures start + k * RETRY_INTERVAL < a.deadline ==>
      Awaited(a, start, k).Some? && AskedSince(a, Awaited(a, start, k).value, start, k + 1)
    ensures a.deadline <= start + k * RETRY_INTERVAL && k > 0 ==> Awaited(a, start, k) == None
  {
    if k > 0 {
      LostIsResent(a, start, k - 1);
      var b := Awaited(a, start, k - 1);
      if b.Some? && (k == 1 || start + (k - 1) * RETRY_INTERVAL < a.deadline) {
        AdvancedIsOk(b.value, start + k * RETRY_INTERVAL, false);
      }
    }
  }

  /** The budget never suppresses the first FINISH or READY of an attempt. */
  lemma LastPhaseStarts(a: Attempt, now: int)
    requires AttemptOk(a) && a.FirstPhase()
    ensures a.Send(false, now, true).lasts == 1
  {
  }

  lemma NotifyStaysBudgeted(a: Attempt)
    requires AttemptOk(a)
    ensures Budgeted(a) && Budgeted(a.Notify()) && a.Notify().state == a.state && a.Notify().dial == a.dial
    ensures a.Notify().prepared == a.prepared && (a.prepared ==> a.state != Established)
  {
  }

  // A prepared dial starts its attempts on the storage of one preparation.
  datatype Dial = Dial(carriers: nat, concurrent: nat, deadline: Option<int>, next: nat, running: int, prepared: bool) {
    predicate Expired(now: int) {
      deadline.Some? && now >= deadline.value
    }

    // Another attempt may follow on the same preparation.
    predicate MayRecycle(now: int) {
      next < carriers && !Expired(now)
    }
  }

  // Whether an attempt of a dial can be made: entropy and credit may be missing, or its
  // HELLO cannot be encoded.
  datatype Making = Fine | NoCredit | NoHello

  // The attempts started since a dial was first looked at: one for each Carrier passed,
  // and each of these could be made.
  ghost predicate Passed(before: Dial, dial: Dial, makes: nat -> Making) {
    && dial == before.(next := dial.next, running := dial.running)
    && dial.next - before.next == dial.running - before.running >= 0
    && forall k :: before.next <= k < dial.next ==> makes(k) == Fine
  }

  // The HELLO for Carrier k is the first that cannot be made.
  ghost predicate EndsAt(before: Dial, makes: nat -> Making, k: nat) {
    && before.next <= k < before.carriers && before.running + (k - before.next) < before.concurrent
    && makes(k) == NoHello && forall j :: before.next <= j < k ==> makes(j) == Fine
  }

  lemma PassedNone(dial: Dial, makes: nat -> Making)
    ensures Passed(dial, dial, makes)
  {
  }

  lemma PassedMore(before: Dial, dial: Dial, makes: nat -> Making)
    requires Passed(before, dial, makes)
    ensures makes(dial.next) == Fine ==> Passed(before, dial.(next := dial.next + 1, running := dial.running + 1), makes)
    ensures makes(dial.next) == NoHello && dial.next < dial.carriers && dial.running < dial.concurrent ==>
      EndsAt(before, makes, dial.next)
  {
  }

  lemma PassedFacts(before: Dial, dial: Dial, makes: nat -> Making)
    requires Passed(before, dial, makes)
    ensures dial.next - before.next == dial.running - before.running >= 0
    ensures dial == before.(next := dial.next, running := dial.running)
  {
  }

  lemma PlaceIsFine(made: Making, prepared: bool, closed: bool, load: int)
    ensures HasPlace(made, prepared, closed, load) ==> made == Fine
    ensures prepared && !closed && !HasPlace(made, prepared, closed, load) ==> made != Fine
  {
  }

  lemma NothingStarted(dial: Dial, now: int, made: Making, closed: bool, load: int)
    requires Exhausts(dial, now, made, closed, load)
    ensures dial.Expired(now) || dial.running >= dial.concurrent || dial.next >= dial.carriers
      || !HasPlace(made, dial.prepared, closed, load)
  {
  }

  lemma EndsFirst(before: Dial, makes: nat -> Making, k: nat)
    requires EndsAt(before, makes, k) && before.running == 0 && before.concurrent == 1
    ensures makes(before.next) == NoHello && k == before.next
  {
  }

  // An attempt that could be made has its place: an ordinary one needs a free slot.
  predicate HasPlace(made: Making, prepared: bool, closed: bool, load: int) {
    made == Fine && !closed && (prepared || load < MAX_PENDING)
  }

  // Nothing more can be started for the dial now.
  predicate Exhausts(dial: Dial, now: int, made: Making, closed: bool, load: int) {
    || dial.Expired(now) || dial.running >= dial.concurrent || dial.next >= dial.carriers
    || !HasPlace(made, dial.prepared, closed, load)
  }

  lemma StaysExhausted(dial: Dial, now: int, made: Making, closed: bool, load: int, more: int)
    requires Exhausts(dial, now, made, closed, load) && load <= more
    ensures Exhausts(dial, now, made, closed, more)
  {
  }

  // Every dial but those in `todo` runs an attempt, and none of them could run one more.
  ghost predicate Filled(
    dials: map<nat, Dial>, todo: set<nat>, now: int, makes: (nat, nat) -> Making, closed: bool, load: int)
  {
    forall d :: d in dials && d !in todo ==>
      dials[d].running > 0 && Exhausts(dials[d], now, makes(d, dials[d].next), closed, load)
  }

  lemma NoneFilled(dials: map<nat, Dial>, now: int, makes: (nat, nat) -> Making, closed: bool, load: int)
    ensures Filled(dials, dials.Keys, now, makes, closed, load)
  {
  }

  lemma FilledMore(
    before: map<nat, Dial>, after: map<nat, Dial>, todo: set<nat>, d: nat, now: int, makes: (nat, nat) -> Making,
    closed: bool, load: int, more: int)
    requires Filled(before, todo, now, makes, closed, load) && load <= more
    requires forall x :: x in after && x != d ==> x in before && after[x] == before[x]
    requires d in after ==> after[d].running > 0 && Exhausts(after[d], now, makes(d, after[d].next), closed, more)
    ensures Filled(after, todo - {d}, now, makes, closed, more)
  {
    hide Exhausts;
    forall x | x in after && x !in todo && x != d
      ensures Exhausts(after[x], now, makes(x, after[x].next), closed, more)
    {
      StaysExhausted(before[x], now, makes(x, before[x].next), closed, load, more);
    }
  }

  datatype Rejection = Free | Rejected(id: nat, digest: nat, deadline: int) {
    predicate Live(now: int) {
      Rejected? && now < deadline
    }

    // The same HELLO was rejected already.
    predicate Stops(id: nat, digest: nat, now: int) {
      Live(now) && this.id == id && this.digest == digest
    }
  }

  // ---------------------------------------------------------------------------
  // Counting unestablished attempts

  function OpenIds(m: map<nat, Attempt>): set<nat> {
    set id | id in m && m[id].state != Established
  }

  function OpenOf(m: map<nat, Attempt>, d: nat): set<nat> {
    set id | id in m && m[id].state != Established && m[id].dial == d
  }

  function Carried(m: map<nat, Attempt>): set<nat> {
    set id | id in m && m[id].prepared
  }

  // Ordinary attempts and waiting preparations stay within the limit; each attempt on
  // a preparation may come on top.
  predicate Limited(m: map<nat, Attempt>, pending: int, preparations: nat) {
    pending + preparations <= MAX_PENDING + |Carried(m)|
  }

  lemma CarriedLess(m: map<nat, Attempt>, id: nat)
    requires id in m
    ensures |Carried(m - {id})| == |Carried(m)| - if m[id].prepared then 1 else 0
  {
    assert Carried(m - {id}) == Carried(m) - {id};
  }

  lemma CarriedSet(m: map<nat, Attempt>, id: nat, a: Attempt)
    requires id in m
    ensures |Carried(m[id := a])| == |Carried(m)| - (if m[id].prepared then 1 else 0) + (if a.prepared then 1 else 0)
  {
    CarriedLess(m, id);
    CarriedLess(m[id := a], id);
    assert m[id := a] - {id} == m - {id};
  }

  lemma CarriedMore(m: map<nat, Attempt>, id: nat, a: Attempt)
    requires id !in m
    ensures |Carried(m[id := a])| == |Carried(m)| + if a.prepared then 1 else 0
  {
    CarriedLess(m[id := a], id);
    assert m[id := a] - {id} == m;
  }

  predicate Counted(m: map<nat, Attempt>, dials: map<nat, Dial>, pending: int) {
    pending == |OpenIds(m)| && forall d :: d in dials ==> dials[d].running == |OpenOf(m, d)|
  }

  lemma RemoveCounts(m: map<nat, Attempt>, id: nat)
    requires id in m
    ensures |OpenIds(m - {id})| == |OpenIds(m)| - if m[id].state != Established then 1 else 0
    ensures forall d :: |OpenOf(m - {id}, d)| == |OpenOf(m, d)| - if m[id].state != Established && m[id].dial == d then 1 else 0
  {
    assert OpenIds(m - {id}) == OpenIds(m) - {id};
    forall d
      ensures |OpenOf(m - {id}, d)| == |OpenOf(m, d)| - if m[id].state != Established && m[id].dial == d then 1 else 0
    {
      assert OpenOf(m - {id}, d) == OpenOf(m, d) - {id};
    }
  }

  lemma SetCounts(m: map<nat, Attempt>, id: nat, a: Attempt)
    requires id in m && m[id].dial == a.dial && m[id].state != Established
    ensures var gone := if a.state == Established then 1 else 0;
      && |OpenIds(m[id := a])| == |OpenIds(m)| - gone
      && forall d :: |OpenOf(m[id := a], d)| == |OpenOf(m, d)| - if d == a.dial then gone else 0
  {
    var n := m[id := a];
    assert n - {id} == m - {id};
    RemoveCounts(n, id);
    RemoveCounts(m, id);
  }

  // A change that keeps which attempts are open keeps the counts.
  lemma SameCounts(m: map<nat, Attempt>, id: nat, a: Attempt)
    requires id in m && m[id].dial == a.dial && (m[id].state == Established <==> a.state == Established)
    ensures OpenIds(m[id := a]) == OpenIds(m) && forall d :: OpenOf(m[id := a], d) == OpenOf(m, d)
  {
  }

  lemma AddCounts(m: map<nat, Attempt>, id: nat, a: Attempt)
    requires id !in m && a.state != Established
    ensures |OpenIds(m[id := a])| == |OpenIds(m)| + 1
    ensures forall d :: |OpenOf(m[id := a], d)| == |OpenOf(m, d)| + if d == a.dial then 1 else 0
  {
    RemoveCounts(m[id := a], id);
    assert m[id := a] - {id} == m;
  }

  // A HELLO just sent for a dial.
  function Started(now: int, dial: Dial, d: nat): Attempt {
    var deadline := if dial.deadline.Some? && dial.deadline.value < now + LIFETIME then dial.deadline.value else now + LIFETIME;
    Attempt(true, WaitChallenge, deadline, now, 0, true, false, d, 0, 0, 0, dial.prepared).Send(true, now, true)
  }

  // A CHALLENGE just sent in answer to a HELLO.
  function Answered(now: int): Attempt {
    Attempt(false, WaitFinish, now + LIFETIME, now, 0, true, false, 0, 0, 0, 0, false).Send(true, now, true)
  }

  // An authenticated packet for an attempt, and whether it is the one expected and
  // leads to an installation.
  datatype Event =
    | ChallengeEvent(same: bool, accepted: bool) | RejectEvent(matches: bool)
    | FinishEvent(matches: bool, installs: bool) | ReadyEvent(matches: bool, installs: bool) | CloseEvent(valid: bool)

  // Packets that an attempt of this role and state ignores.
  predicate Ignores(a: Attempt, e: Event) {
    match e
    case ChallengeEvent(_, _) => !a.initiator || a.state == Established
    case RejectEvent(_) => !a.initiator || a.state == Established
    case FinishEvent(_, _) => a.initiator || !a.packets
    case ReadyEvent(_, _) => !a.initiator || a.state != WaitReady
    case CloseEvent(_) => !a.Keyed()
  }

  // What the packet makes of its attempt; None when the attempt ends.
  function Received(a: Attempt, now: int, e: Event): Option<Attempt> {
    if Ignores(a, e) then Some(a)
    else if e.CloseEvent? then if e.valid then None else Some(a)
    else if now >= a.deadline then if a.state == Established then Some(a.(packets := false)) else None
    else
      match e
      case ChallengeEvent(same, accepted) =>
        if a.state == WaitReady then Some(if same then a.Send(false, now, false) else a)
        else Some(if accepted then a.(state := WaitReady).Send(false, now, true) else a)
      case RejectEvent(matches) => if a.state == WaitChallenge && matches then None else Some(a)
      case FinishEvent(matches, installs) =>
        if !matches then Some(a)
        else if a.state == Established then Some(a.Send(false, now, false))
        else if installs then Some(a.(state := Established).Send(false, now, true))
        else None
      case ReadyEvent(matches, installs) =>
        if !matches then Some(a) else if installs then Some(a.(state := Established, packets := false, prepared := false)) else None
      case CloseEvent(_) => Some(a)
  }

  // The packet establishes the Session of a dial's attempt.
  predicate Wins(a: Attempt, now: int, e: Event) {
    a.state == WaitReady && e.ReadyEvent? && e.matches && e.installs && now < a.deadline
  }

  /** A packet takes an attempt forward at most one state, keeps it within its budget,
      and what starts the last phase always goes out: the new state WaitReady comes with
      the first FINISH, a newly established responder with its first READY. */
  lemma ReceivedIsOk(a: Attempt, now: int, e: Event)
    requires AttemptOk(a) && Received(a, now, e).Some?
    ensures var b := Received(a, now, e).value;
      && AttemptOk(b) && b.dial == a.dial && b.initiator == a.initiator && b.sends <= a.sends + 1
      && (b.prepared <==> a.prepared && b.state != Established)
      && (a.state == Established ==> b.state == Established)
      && (b.state != a.state && b.initiator ==> (a.state == WaitChallenge && b.state == WaitReady && b.lasts == 1) || Wins(a, now, e))
      && (b.state != a.state && !b.initiator ==> a.state == WaitFinish && b.state == Established && b.lasts == 1)
  {
  }

  // What a packet must do to the attempt a it is for, told by the states of the
  // handshake: the expected packets take it to the next state and out goes what the
  // other end then waits for; their repetitions get the same answer again when it is
  // owed; a rejection, a refused installation, CLOSE and any packet after the deadline
  // end it; and nothing else changes it.
  predicate Replied(a: Attempt, b: Option<Attempt>, now: int, e: Event) {
    var early := now < a.deadline;
    var asked := e.FinishEvent? || e.ReadyEvent?;
    var expected := early && asked && e.matches &&
      ((e.FinishEvent? && a.state == WaitFinish) || (e.ReadyEvent? && a.state == WaitReady));
    var challenged := early && e.ChallengeEvent? && a.state == WaitChallenge && e.accepted;
    var repeated := early && a.packets &&
      ((e.ChallengeEvent? && a.state == WaitReady && e.same)
       || (e.FinishEvent? && a.state == Established && !a.initiator && e.matches));
    var late := !early && !e.CloseEvent? && a.packets && !(e.ReadyEvent? && a.state == WaitChallenge)
      && (if a.initiator then a.state != Established && !e.FinishEvent? else e.FinishEvent?);
    var ended :=
      || (e.CloseEvent? && e.valid && a.state != WaitChallenge)
      || (early && e.RejectEvent? && e.matches && a.state == WaitChallenge)
      || (expected && !e.installs) || (late && a.state != Established);
    && (challenged ==> b.Some? && Resent(a.(state := WaitReady), b.value, now))
    && (expected && e.installs && e.FinishEvent? ==> b.Some? && Resent(a.(state := Established), b.value, now))
    && (expected && e.installs && e.ReadyEvent? ==> b == Some(a.(state := Established, packets := false, prepared := false)))
    && (repeated && Owes(a, now) ==> b.Some? && Resent(a, b.value, now))
    && (late && a.state == Established ==> b == Some(a.(packets := false)))
    && (ended <==> b == None)
    && (!challenged && !expected && !(repeated && Owes(a, now)) && !late && !ended ==> b == Some(a))
  }

  /** Every packet has exactly the effect that the state of its attempt gives it. */
  lemma ReceivedIsReplied(a: Attempt, now: int, e: Event)
    requires AttemptOk(a)
    ensures Replied(a, Received(a, now, e), now, e)
  {
  }

  /** Four packets that arrive in time establish both ends, however often they were sent
      before and whatever was spent on retries: the dialling end sends FINISH, the
      listening end sends READY, and each end sends nothing else for them. */
  lemma ExchangeEstablishes(c: Attempt, s: Attempt, t: int, u: int, v: int, same: bool)
    requires AttemptOk(c) && AttemptOk(s) && c.state == WaitChallenge && s.state == WaitFinish
    requires t < c.deadline && u < s.deadline && v < c.deadline
    ensures var c1 := Received(c, t, ChallengeEvent(same, true));
      var s1 := Received(s, u, FinishEvent(true, true));
      && c1.Some? && s1.Some? && c1.value.lasts == 1 && s1.value.lasts == 1
      && c1.value.firsts == c.firsts && s1.value.firsts == s.firsts && s1.value.state == Established
      && var c2 := Received(c1.value, v, ReadyEvent(true, true));
         c2.Some? && c2.value.state == Established && c2.value.sends == c1.value.sends && !c2.value.packets
  {
    hide Received;
    ReceivedIsReplied(c, t, ChallengeEvent(same, true));
    ReceivedIsReplied(s, u, FinishEvent(true, true));
    ReceivedIsOk(c, t, ChallengeEvent(same, true));
    ReceivedIsReplied(Received(c, t, ChallengeEvent(same, true)).value, v, ReadyEvent(true, true));
  }

  // An attempt that cannot be due at the time it was started.
  predicate FreshAt(a: Attempt, now: int) {
    AttemptOk(a) && a.state == WaitChallenge && a.sends == 1 && a.nextSend == now + RETRY_INTERVAL && now < a.deadline
  }

  lemma StartedIsFresh(now: int, dial: Dial, d: nat)
    requires !dial.Expired(now) && d > 0
    ensures FreshAt(Started(now, dial, d), now) && Started(now, dial, d).dial == d && Started(now, dial, d).prepared == dial.prepared
    ensures forall t :: t in Started(now, dial, d).Wakes() ==> now < t
    ensures Started(now, dial, d).deadline <= now + LIFETIME
    ensures dial.deadline.Some? ==> Started(now, dial, d).deadline <= dial.deadline.value
    ensures Started(now, dial, d).deadline == now + LIFETIME || dial.deadline == Some(Started(now, dial, d).deadline)
  {
  }

  // n is m with some attempts started at `now` under IDs from `issued` on.
  ghost predicate Extended(m: map<nat, Attempt>, n: map<nat, Attempt>, issued: nat, now: int) {
    && (forall id :: id in m ==> id in n && n[id] == m[id])
    && forall id :: id in n && id !in m ==> id >= issued && FreshAt(n[id], now)
  }

  lemma NothingNew(m: map<nat, Attempt>, issued: nat, now: int)
    ensures Extended(m, m, issued, now)
  {
  }

  lemma ExtendedBy(m: map<nat, Attempt>, n: map<nat, Attempt>, issued: nat, id: nat, now: int, a: Attempt)
    requires Extended(m, n, issued, now) && issued <= id && id !in n && FreshAt(a, now)
    ensures Extended(m, n[id := a], issued, now)
  {
  }

  lemma ExtendedTwice(m: map<nat, Attempt>, n: map<nat, Attempt>, o: map<nat, Attempt>, i: nat, j: nat, now: int)
    requires Extended(m, n, i, now) && Extended(n, o, j, now) && i <= j
    ensures Extended(m, o, i, now)
  {
  }

  // The next Carrier does not count.
  lemma NextCounts(m: map<nat, Attempt>, dials: map<nat, Dial>, pending: int, d: nat)
    requires Counted(m, dials, pending) && d in dials
    ensures Counted(m, dials[d := dials[d].(next := dials[d].next + 1)], pending)
  {
  }

  lemma RunningIsCount(m: map<nat, Attempt>, dials: map<nat, Dial>, pending: int)
    requires Counted(m, dials, pending)
    ensures forall d :: d in dials ==> dials[d].running >= 0
  {
  }

  // Neither does a dial that is gone.
  lemma FewerDialsCount(m: map<nat, Attempt>, dials: map<nat, Dial>, pending: int, d: nat)
    requires Counted(m, dials, pending)
    ensures Counted(m, dials - {d}, pending)
  {
  }

  // The loop of Advance after it has treated all old attempts but those in todo.
  ghost predicate AdvancedTo(m: map<nat, Attempt>, n: map<nat, Attempt>, todo: set<nat>, now: int, scopesClosed: set<nat>) {
    && n.Keys <= m.Keys
    && (forall id :: id in todo ==> id in n && n[id] == m[id])
    && (forall id :: id in m && id !in todo && id in n ==> Advanced(m[id], now, id in scopesClosed) == Some(n[id]))
    && (forall id :: id in m && id !in todo && id !in n ==> Advanced(m[id], now, id in scopesClosed) == None)
  }

  // The other attempts of the dial of attempt id.
  function Rivals(m: map<nat, Attempt>, id: nat): set<nat>
    requires id in m
  {
    set x | x in m && x != id && m[x].dial == m[id].dial
  }

  function Next(m: map<nat, Attempt>, id: nat, b: Option<Attempt>): map<nat, Attempt> {
    if b == None then m - {id} else m[id := b.value]
  }

  // What each kind of packet needs to know of its attempt.
  lemma Facts(a: Attempt, now: int, e: Event)
    requires AttemptOk(a)
    ensures Received(a, now, e).Some? ==> AttemptOk(Received(a, now, e).value) && Received(a, now, e).value.dial == a.dial
    ensures !a.initiator ==> !a.prepared
    ensures !Ignores(a, e) && e.FinishEvent? ==> !a.initiator && a.dial == 0
    ensures !a.initiator ==> a.state == Established || a.state == WaitFinish
    ensures a.initiator && a.state != Established ==> a.state == WaitChallenge || a.state == WaitReady
  {
  }

  // Attempt id has become b, and whatever is new has just started.
  ghost predicate AfterPacket(m: map<nat, Attempt>, o: map<nat, Attempt>, id: nat, b: Option<Attempt>, now: int) {
    && (b == None ==> id !in o) && (b.Some? ==> id in o && o[id] == b.value)
    && forall x :: x in o && x !in m ==> FreshAt(o[x], now)
  }

  // Attempts in the table and attempts that have left it.
  ghost predicate TableOk(m: map<nat, Attempt>, issued: nat, nextDial: nat, gone: seq<Attempt>) {
    && (forall id :: id in m ==> id < issued && m[id].dial <= nextDial && AttemptOk(m[id]))
    && (forall a :: a in gone ==> Budgeted(a))
  }

  // The dials once an attempt has left the table.
  function Left(dials: map<nat, Dial>, a: Attempt): map<nat, Dial> {
    if a.state != Established && a.dial in dials then dials[a.dial := dials[a.dial].(running := dials[a.dial].running - 1)] else dials
  }

  function Fewer(pending: int, a: Attempt): int {
    if a.state != Established then pending - 1 else pending
  }

  lemma LeaveCounts(m: map<nat, Attempt>, dials: map<nat, Dial>, pending: int, id: nat)
    requires Counted(m, dials, pending) && id in m
    ensures Counted(m - {id}, Left(dials, m[id]), Fewer(pending, m[id]))
  {
    hide OpenIds, OpenOf;
    RemoveCounts(m, id);
  }

  lemma LeaveLimited(
    m: map<nat, Attempt>, pending: int, preparations: nat, issued: nat, nextDial: nat, gone: seq<Attempt>, id: nat)
    requires Limited(m, pending, preparations) && TableOk(m, issued, nextDial, gone) && id in m
    ensures Limited(m - {id}, Fewer(pending, m[id]), preparations)
  {
    hide Carried;
    CarriedLess(m, id);
    assert AttemptOk(m[id]);
  }

  lemma LeaveTable(m: map<nat, Attempt>, issued: nat, nextDial: nat, gone: seq<Attempt>, id: nat)
    requires TableOk(m, issued, nextDial, gone) && id in m
    ensures TableOk(m - {id}, issued, nextDial, gone + [m[id]]) && TableOk(m - {id}, issued, nextDial, gone + [m[id].Notify()])
  {
    hide AttemptOk;
    NotifyStaysBudgeted(m[id]);
  }

  lemma NotifyFrame(a: Attempt)
    ensures a.Notify().state == a.state && a.Notify().dial == a.dial
  {
  }

  // Every wake time of the table lies after `now`.
  ghost predicate AllLater(m: map<nat, Attempt>, now: int) {
    forall id, t :: id in m && t in m[id].Wakes() ==> now < t
  }

  lemma AdvancedAreLater(m: map<nat, Attempt>, n: map<nat, Attempt>, o: map<nat, Attempt>, issued: nat, now: int, closed: set<nat>)
    requires (forall id :: id in m ==> AttemptOk(m[id])) && AdvancedTo(m, n, {}, now, closed) && Extended(n, o, issued, now)
    ensures AllLater(o, now)
  {
    hide Advanced, AttemptOk;
    forall id, t | id in o && t in o[id].Wakes()
      ensures now < t
    {
      if id in n {
        AdvancedIsOk(m[id], now, id in closed);
      } else {
        FreshIsLater(o[id], now);
      }
    }
  }

  // What Advance did with every attempt of the old table m.
  ghost predicate AllTreated(m: map<nat, Attempt>, o: map<nat, Attempt>, now: int, scopesClosed: set<nat>) {
    forall id :: id in m ==> Treated(m[id], if id in o then Some(o[id]) else None, now, id in scopesClosed)
  }

  lemma AdvancedAreTreated(m: map<nat, Attempt>, o: map<nat, Attempt>, now: int, closed: set<nat>)
    requires (forall id :: id in m ==> AttemptOk(m[id])) && AdvancedFrom(m, o, now, closed)
    ensures AllTreated(m, o, now, closed)
  {
    hide Advanced, AttemptOk, Treated;
    forall id | id in m
      ensures Treated(m[id], if id in o then Some(o[id]) else None, now, id in closed)
    {
      AdvancedIsOk(m[id], now, id in closed);
    }
  }

  lemma FreshIsLater(a: Attempt, now: int)
    requires FreshAt(a, now)
    ensures forall t :: t in a.Wakes() ==> now < t
  {
  }

  // What Advance has made of the old table m, and what it has started.
  ghost predicate AdvancedFrom(m: map<nat, Attempt>, o: map<nat, Attempt>, now: int, scopesClosed: set<nat>) {
    && (forall id :: id in m && id in o ==> Advanced(m[id], now, id in scopesClosed) == Some(o[id]))
    && (forall id :: id in m && id !in o ==> Advanced(m[id], now, id in scopesClosed) == None)
    && (forall id :: id in o && id !in m ==> FreshAt(o[id], now))
  }

  lemma AdvancedThenExtended(m: map<nat, Attempt>, n: map<nat, Attempt>, o: map<nat, Attempt>, issued: nat, now: int, closed: set<nat>)
    requires AdvancedTo(m, n, {}, now, closed) && Extended(n, o, issued, now) && forall id :: id in m ==> id < issued
    ensures AdvancedFrom(m, o, now, closed)
  {
    hide Advanced, FreshAt;
  }

  predicate TakesSlot(before: seq<Rejection>, after: seq<Rejection>, i: nat, id: nat, digest: nat, now: int)
    requires i < |before|
  {
    (before[i] == Free || before[i].deadline <= now) && after == before[i := Rejected(id, digest, now + LIFETIME)]
  }

  // One REJECT goes out for a HELLO, into a free slot of the cache, unless the same HELLO
  // was rejected within its lifetime or no slot is free.
  ghost predicate RejectedOnce(before: seq<Rejection>, after: seq<Rejection>, id: nat, digest: nat, now: int) {
    if (exists i :: 0 <= i < |before| && before[i].Rejected? && now < before[i].deadline && before[i].id == id && before[i].digest == digest)
      || (forall i :: 0 <= i < |before| ==> before[i].Rejected? && now < before[i].deadline)
    then after == before
    else exists i :: 0 <= i < |before| && TakesSlot(before, after, i, id, digest, now)
  }

  // ---------------------------------------------------------------------------
  // The engine

  class Engine {
    const rejections: array<Rejection>
    var sessions: map<nat, Attempt>
    var dials: map<nat, Dial>
    var pending: int
    var preparations: nat
    var nextDial: nat
    var lastNow: Option<int>
    var closed: bool

    // IDs drawn so far.
    var issued: nat

    // The attempts that have left the table.
    ghost var gone: seq<Attempt>

    ghost predicate Valid()
      reads this
    {
      && rejections.Length == MAX_REJECTIONS && TableOk(sessions, issued, nextDial, gone) && Counted(sessions, dials, pending)
      && Limited(sessions, pending, preparations)
      && (forall d :: d in dials ==> 1 <= d <= nextDial && dials[d].running <= dials[d].concurrent)
      && (closed ==> sessions == map[] && dials == map[] && preparations == 0)
    }

    constructor ()
      ensures Valid() && sessions == map[] && !closed && fresh(rejections)
      ensures forall i :: 0 <= i < MAX_REJECTIONS ==> rejections[i] == Free
    {
      rejections := new Rejection[MAX_REJECTIONS](_ => Free);
      sessions, dials, pending, preparations, nextDial, lastNow, closed, issued := map[], map[], 0, 0, 0, None, false, 0;
      gone := [];
    }

    // How a call that a closed engine refuses begins.
    predicate Runs(now: int)
      reads this
    {
      !closed && (lastNow == None || lastNow.value <= now)
    }

    function EntryErr(now: int): Err
      reads this
    {
      if closed then ErrClosed else if Runs(now) then Ok else ErrTime
    }

    // enter; callbacks that reenter the engine are not part of this model.
    method Enter(now: int, allowClosed: bool) returns (err: Err)
      modifies this`lastNow
      ensures err ==
        if closed && !allowClosed then ErrClosed
        else if old(lastNow).Some? && now < old(lastNow).value then ErrTime else Ok
      ensures lastNow == if err == Ok then Some(now) else old(lastNow)
    {
      if closed && !allowClosed {
        return ErrClosed;
      }
      if lastNow.Some? && now < lastNow.value {
        return ErrTime;
      }
      lastNow := Some(now);
      return Ok;
    }

    // The attempt leaves the table.
    method Leave(id: nat, notify: bool)
      requires Valid() && id in sessions
      modifies this`sessions, this`pending, this`dials, this`gone
      ensures Valid() && sessions == old(sessions) - {id} && dials.Keys == old(dials).Keys
      ensures gone == old(gone) + [if notify then old(sessions)[id].Notify() else old(sessions)[id]]
      ensures forall d :: d in dials ==> dials[d] == old(dials)[d].(running := dials[d].running)
      ensures pending == Fewer(old(pending), old(sessions)[id])
      ensures old(sessions)[id].dial !in old(dials) ==> dials == old(dials)
    {
      hide Counted, TableOk, Limited, Attempt.Notify;
      LeaveCounts(sessions, dials, pending, id);
      LeaveLimited(sessions, pending, preparations, issued, nextDial, gone, id);
      LeaveTable(sessions, issued, nextDial, gone, id);
      NotifyFrame(sessions[id]);
      var a := sessions[id];
      if notify {
        a := a.Notify();
      }
      sessions := sessions - {id};
      if a.state != Established {
        pending := pending - 1;
        if a.dial in dials {
          dials := dials[a.dial := dials[a.dial].(running := dials[a.dial].running - 1)];
        }
      }
      gone := gone + [a];
    }

    // A prepared dial ends with its attempt unless the scope is fit for another one, a
    // Carrier is left and there is time.
    ghost predicate EndsItsDial(now: int, id: nat, fit: bool)
      requires id in sessions
      reads this
    {
      var a := sessions[id];
      && a.prepared && a.dial in dials
      && (!fit || dials[a.dial].next >= dials[a.dial].carriers
          || (dials[a.dial].deadline.Some? && dials[a.dial].deadline.value <= now))
    }

    // failAttempt and recyclePreparedAttempt: a prepared dial goes on only with a
    // Carrier and time left, on a scope that is still pending; otherwise it ends with
    // its attempt.
    method FailAttempt(now: int, id: nat, notify: bool, fit: bool)
      requires Valid() && id in sessions
      modifies this`sessions, this`pending, this`dials, this`gone
      ensures Valid() && sessions == old(sessions) - {id}
      ensures gone == old(gone) + [if notify then old(sessions)[id].Notify() else old(sessions)[id]]
      ensures dials.Keys == old(dials).Keys - if old(EndsItsDial(now, id, fit)) then {old(sessions)[id].dial} else {}
      ensures forall d :: d in dials ==> d in old(dials) && dials[d] == old(dials)[d].(running := dials[d].running)
      ensures pending == Fewer(old(pending), old(sessions)[id])
      ensures old(sessions)[id].dial !in old(dials) ==> dials == old(dials)
    {
      hide Counted, TableOk, Limited, Attempt.Notify;
      var a := sessions[id];
      Leave(id, notify);
      if a.prepared && a.dial in dials && !(fit && dials[a.dial].MayRecycle(now)) {
        FewerDialsCount(sessions, dials, pending, a.dial);
        dials := dials - {a.dial};
      }
    }

    // send on an attempt in the table
    method Send(id: nat, first: bool, now: int, transition: bool)
      requires Valid() && id in sessions && (first <==> sessions[id].FirstPhase())
      modifies this`sessions
      ensures Valid() && sessions == old(sessions)[id := old(sessions)[id].Send(first, now, transition)]
    {
      hide Engine.Valid, AttemptOk;
      InTable(this, id);
      var a := sessions[id];
      SentIsOk(a, first, now, transition);
      if a.sends >= MAX_SENDS || (!transition && now < a.nextSend) {
        assert sessions == sessions[id := a];
        return;
      }
      if first && a.sends >= MAX_SENDS - 1 {
        assert sessions == sessions[id := a];
        return;
      }
      a := a.(sends := a.sends + 1, nextSend := now + RETRY_INTERVAL);
      a := if first then a.(firsts := a.firsts + 1) else a.(lasts := a.lasts + 1);
      Become(id, a);
    }

    // An attempt that could be made has its place.
    predicate MayStart(made: Making, prepared: bool)
      reads this
    {
      HasPlace(made, prepared, closed, pending + preparations)
    }

    // startAttempt. An attempt on a preparation needs no reservation, but when its HELLO
    // cannot be made the dial ends.
    method StartAttempt(now: int, d: nat, made: Making) returns (ok: bool)
      requires Valid() && d in dials && !dials[d].Expired(now)
      requires dials[d].running < dials[d].concurrent && dials[d].next < dials[d].carriers
      modifies this`sessions, this`pending, this`dials, this`issued
      ensures Valid() && issued >= old(issued) && (ok <==> old(MayStart(made, dials[d].prepared)))
      ensures !ok ==> sessions == old(sessions) && issued == old(issued) && pending == old(pending)
      ensures !ok ==> dials == old(dials) - if old(dials)[d].prepared && made == NoHello && !closed then {d} else {}
      ensures ok ==>
        && old(issued) !in old(sessions) && sessions == old(sessions)[old(issued) := Started(now, old(dials)[d], d)]
        && dials == old(dials)[d := old(dials)[d].(running := old(dials)[d].running + 1)] && pending == old(pending) + 1
    {
      hide OpenIds, OpenOf, AttemptOk, Carried;
      if made == NoCredit || closed || (!dials[d].prepared && pending + preparations >= MAX_PENDING) {
        assert dials == dials - {};
        return false;
      }
      if made == NoHello {
        assert dials == dials - {};
        if dials[d].prepared {
          FewerDialsCount(sessions, dials, pending, d);
          dials := dials - {d};
        }
        return false;
      }
      var a := Started(now, dials[d], d);
      StartedIsFresh(now, dials[d], d);
      AddCounts(sessions, issued, a);
      CarriedMore(sessions, issued, a);
      sessions := sessions[issued := a];
      pending := pending + 1;
      dials := dials[d := dials[d].(running := dials[d].running + 1)];
      issued := issued + 1;
      return true;
    }

    // One turn of fillDial.
    method StartNext(now: int, d: nat, made: Making) returns (ok: bool)
      requires Valid() && d in dials && !dials[d].Expired(now)
      requires 0 <= dials[d].running < dials[d].concurrent && dials[d].next < dials[d].carriers
      modifies this`sessions, this`pending, this`dials, this`issued
      ensures Valid() && issued >= old(issued) && Extended(old(sessions), sessions, old(issued), now)
      ensures ok <==> old(MayStart(made, dials[d].prepared))
      ensures ok ==>
        && pending == old(pending) + 1
        && dials == old(dials)[d := old(dials)[d].(next := old(dials)[d].next + 1, running := old(dials)[d].running + 1)]
      ensures !ok ==>
        && sessions == old(sessions) && pending == old(pending)
        && dials == old(dials) - if old(dials)[d].prepared && made == NoHello && !closed then {d} else {}
    {
      hide Counted, TableOk, Extended, FreshAt, Limited;
      NothingNew(sessions, issued, now);
      ghost var m, n, dial := sessions, issued, dials[d];
      ok := StartAttempt(now, d, made);
      if ok {
        StartedIsFresh(now, dial, d);
        ExtendedBy(m, m, n, n, now, Started(now, dial, d));
        NextCounts(sessions, dials, pending, d);
        dials := dials[d := dials[d].(next := dials[d].next + 1)];
      }
    }

    // fillDial; `last` is the Carrier where it ended.
    method FillDial(now: int, d: nat, makes: nat -> Making) returns (err: Err, ghost last: nat)
      requires Valid() && d in dials
      modifies this`sessions, this`pending, this`dials, this`issued
      ensures Valid() && issued >= old(issued) && pending >= old(pending)
      ensures Extended(old(sessions), sessions, old(issued), now)
      ensures forall x :: x in dials && x != d ==> x in old(dials) && dials[x] == old(dials)[x]
      ensures dials.Keys == old(dials).Keys || (old(dials)[d].prepared && dials.Keys == old(dials).Keys - {d})
      ensures err == ErrExpired <==> old(dials)[d].Expired(now)
      ensures d in dials ==>
        && last == dials[d].next && Passed(old(dials)[d], dials[d], makes) && dials[d].running >= 0
        && Exhausts(dials[d], now, makes(last), closed, pending + preparations)
      ensures d !in dials ==> EndsAt(old(dials)[d], makes, last) && !closed
      ensures last == old(dials)[d].next ==> pending == old(pending) && sessions == old(sessions)
      ensures last != old(dials)[d].next ==> old(MayStart(makes(dials[d].next), dials[d].prepared))
    {
      hide Engine.Valid, Extended, Passed, EndsAt, HasPlace;
      NothingNew(sessions, issued, now);
      DialsRun(this);
      PassedNone(dials[d], makes);
      last := dials[d].next;
      if dials[d].Expired(now) {
        return ErrExpired, last;
      }
      while dials[d].running < dials[d].concurrent && dials[d].next < dials[d].carriers
        invariant Valid() && issued >= old(issued) && pending >= old(pending) && dials.Keys == old(dials).Keys
        invariant Extended(old(sessions), sessions, old(issued), now)
        invariant forall x :: x in dials && x != d ==> dials[x] == old(dials)[x]
        invariant dials[d].running >= 0 && Passed(old(dials)[d], dials[d], makes) && last == dials[d].next
        invariant dials[d] == old(dials)[d].(next := last, running := dials[d].running)
        invariant last == old(dials)[d].next ==> pending == old(pending) && sessions == old(sessions)
        invariant last != old(dials)[d].next ==>
          last > old(dials)[d].next && old(MayStart(makes(dials[d].next), dials[d].prepared))
        decreases dials[d].carriers - dials[d].next
      {
        ghost var m, n := sessions, issued;
        PassedMore(old(dials)[d], dials[d], makes);
        PlaceIsFine(makes(last), dials[d].prepared, closed, pending + preparations);
        var ok := StartNext(now, d, makes(dials[d].next));
        ExtendedTwice(old(sessions), m, sessions, old(issued), n, now);
        if !ok {
          return ErrLimit, last;
        }
        last := last + 1;
      }
      return Ok, last;
    }

    // One turn of fillDials: a dial without attempts ends.
    method FillOrDrop(now: int, d: nat, makes: nat -> Making)
      requires Valid() && d in dials
      modifies this`sessions, this`pending, this`dials, this`issued
      ensures Valid() && issued >= old(issued) && pending >= old(pending)
      ensures Extended(old(sessions), sessions, old(issued), now)
      ensures forall x :: x in dials && x != d ==> x in old(dials) && dials[x] == old(dials)[x]
      ensures dials.Keys == old(dials).Keys - if d in dials then {} else {d}
      ensures d in dials ==>
        && dials[d].running > 0 && Passed(old(dials)[d], dials[d], makes)
        && Exhausts(dials[d], now, makes(dials[d].next), closed, pending + preparations)
      ensures d !in dials ==> old(dials)[d].running <= 0 || old(dials)[d].prepared
    {
      hide Engine.Valid, Extended, Passed, EndsAt, Exhausts;
      DialsRun(this);
      var err, last := FillDial(now, d, makes);
      if d in dials {
        PassedFacts(old(dials)[d], dials[d], makes);
        if dials[d].running == 0 {
          DropDial(d);
        }
      }
    }

    method DropDial(d: nat)
      requires Valid()
      modifies this`dials
      ensures Valid() && dials == old(dials) - {d}
    {
      hide Counted, TableOk, Limited;
      FewerDialsCount(sessions, dials, pending, d);
      dials := dials - {d};
    }

    // fillDials: every dial gets what it may run; one without attempts ends.
    method FillDials(now: int, makes: (nat, nat) -> Making)
      requires Valid()
      modifies this`sessions, this`pending, this`dials, this`issued
      ensures Valid() && issued >= old(issued)
      ensures Extended(old(sessions), sessions, old(issued), now)
      ensures dials.Keys <= old(dials).Keys && Filled(dials, {}, now, makes, closed, pending + preparations)
      ensures forall d :: d in old(dials) && d !in dials ==> old(dials)[d].running <= 0 || old(dials)[d].prepared
    {
      hide Engine.Valid, Extended, Passed, EndsAt, Exhausts, Filled;
      NothingNew(sessions, issued, now);
      var todo := dials.Keys;
      NoneFilled(dials, now, makes, closed, pending + preparations);
      while todo != {}
        invariant Valid() && issued >= old(issued) && todo <= dials.Keys <= old(dials).Keys
        invariant Extended(old(sessions), sessions, old(issued), now)
        invariant forall d :: d in todo ==> dials[d] == old(dials)[d]
        invariant Filled(dials, todo, now, makes, closed, pending + preparations)
        invariant forall d :: d in old(dials) && d !in dials ==> old(dials)[d].running <= 0 || old(dials)[d].prepared
        decreases todo
      {
        ghost var m, n, before, load := sessions, issued, dials, pending + preparations;
        var d :| d in todo;
        FillOrDrop(now, d, (k: nat) => makes(d, k));
        ExtendedTwice(old(sessions), m, sessions, old(issued), n, now);
        FilledMore(before, dials, todo, d, now, makes, closed, load, pending + preparations);
        todo := todo - {d};
      }
    }

    // A time at which the engine has work to do.
    ghost predicate IsWake(t: int)
      reads this, rejections
    {
      || (exists id :: id in sessions && t in sessions[id].Wakes())
      || (exists i :: 0 <= i < rejections.Length && rejections[i].Rejected? && rejections[i].deadline == t)
    }

    method ExpireRejections(now: int)
      requires Valid()
      modifies rejections
      ensures Valid()
      ensures forall i :: 0 <= i < rejections.Length ==>
        rejections[i] == if old(rejections[i]).Live(now) then old(rejections[i]) else Free
    {
      for i := 0 to rejections.Length
        invariant forall j :: i <= j < rejections.Length ==> rejections[j] == old(rejections[j])
        invariant forall j :: 0 <= j < i ==>
          rejections[j] == if old(rejections[j]).Live(now) then old(rejections[j]) else Free
      {
        if !rejections[i].Live(now) {
          rejections[i] := Free;
        }
      }
    }

    method AdvanceOne(now: int, id: nat, scopeClosed: bool, fit: bool)
      requires Valid() && id in sessions
      modifies this`sessions, this`pending, this`dials, this`gone
      ensures Valid()
      ensures var b := Advanced(old(sessions)[id], now, scopeClosed);
        sessions == if b.Some? then old(sessions)[id := b.value] else old(sessions) - {id}
    {
      hide OpenIds, OpenOf, AttemptOk, Carried;
      var a := sessions[id];
      if scopeClosed {
        FailAttempt(now, id, false, fit);
      } else if now >= a.deadline {
        if a.state == Established {
          AdvancedIsOk(a, now, false);
          SameCounts(sessions, id, a.(packets := false));
          CarriedSet(sessions, id, a.(packets := false));
          sessions := sessions[id := a.(packets := false)];
        } else {
          FailAttempt(now, id, true, fit);
        }
      } else if a.packets && (a.state != Established || !a.initiator) {
        Send(id, a.FirstPhase(), now, false);
      } else {
        assert sessions[id := a] == sessions;
      }
    }

    method AdvanceAll(now: int, scopesClosed: set<nat>, fit: set<nat>)
      requires Valid()
      modifies this`sessions, this`pending, this`dials, this`gone
      ensures Valid() && AdvancedTo(old(sessions), sessions, {}, now, scopesClosed)
    {
      hide Counted, TableOk, Advanced;
      var todo := sessions.Keys;
      while todo != {}
        invariant Valid() && todo <= old(sessions).Keys
        invariant AdvancedTo(old(sessions), sessions, todo, now, scopesClosed)
        decreases todo
      {
        var id :| id in todo;
        AdvanceOne(now, id, id in scopesClosed, id in fit);
        todo := todo - {id};
      }
    }

    // Advance: due work once for each attempt, then the dials.
    method Advance(now: int, scopesClosed: set<nat>, fit: set<nat>, makes: (nat, nat) -> Making) returns (err: Err)
      requires Valid()
      modifies this, rejections
      ensures Valid()
      ensures err == ErrClosed <==> old(closed)
      ensures err == ErrTime <==> !old(closed) && old(lastNow).Some? && now < old(lastNow).value
      ensures err == Ok ==> forall t :: IsWake(t) ==> now < t
      ensures err == Ok ==> AdvancedFrom(old(sessions), sessions, now, scopesClosed)
      ensures err == Ok ==> AllTreated(old(sessions), sessions, now, scopesClosed)
      ensures err == Ok ==> Filled(dials, {}, now, makes, closed, pending + preparations)
    {
      hide Counted, AttemptOk, Advanced, AdvancedTo, Extended, AdvancedFrom, AllTreated;
      err := Enter(now, false);
      if err != Ok {
        return;
      }
      ExpireRejections(now);
      AdvanceAll(now, scopesClosed, fit);
      ghost var m, n := sessions, issued;
      FillDials(now, makes);
      AdvancedAreLater(old(sessions), m, sessions, n, now, scopesClosed);
      AdvancedThenExtended(old(sessions), m, sessions, n, now, scopesClosed);
      AdvancedAreTreated(old(sessions), sessions, now, scopesClosed);
    }

    // NextDeadline: the earliest time at which there is work, if any.
    method NextDeadline() returns (next: Option<int>)
      requires Valid()
      ensures closed ==> next == None
      ensures !closed && next == None ==> forall t :: !IsWake(t)
      ensures next.Some? ==> IsWake(next.value) && forall t :: IsWake(t) ==> next.value <= t
    {
      hide Counted, TableOk, Attempt.Wakes;
      next := None;
      if closed {
        return;
      }
      var todo := sessions.Keys;
      while todo != {}
        invariant todo <= sessions.Keys
        invariant next.Some? ==> IsWake(next.value)
        invariant forall id, t :: id in sessions && id !in todo && t in sessions[id].Wakes() ==> next.Some? && next.value <= t
        decreases todo
      {
        var id :| id in todo;
        todo := todo - {id};
        next := Include(sessions[id], next);
      }
      for i := 0 to rejections.Length
        invariant next.Some? ==> IsWake(next.value)
        invariant forall id, t :: id in sessions && t in sessions[id].Wakes() ==> next.Some? && next.value <= t
        invariant forall j :: 0 <= j < i && rejections[j].Rejected? ==> next.Some? && next.value <= rejections[j].deadline
      {
        if rejections[i].Rejected? && (next == None || rejections[i].deadline < next.value) {
          next := Some(rejections[i].deadline);
        }
      }
    }

    // One attempt's part of NextDeadline.
    method Include(a: Attempt, before: Option<int>) returns (next: Option<int>)
      ensures next == before || (next.Some? && next.value in a.Wakes())
      ensures before.Some? ==> next.Some? && next.value <= before.value
      ensures forall t :: t in a.Wakes() ==> next.Some? && next.value <= t
    {
      next := before;
      if a.state == Established && !a.packets {
        return;
      }
      if next == None || a.deadline < next.value {
        next := Some(a.deadline);
      }
      if a.sends >= MAX_SENDS || (a.FirstPhase() && a.sends >= MAX_SENDS - 1) {
        return;
      }
      if a.nextSend < next.value {
        next := Some(a.nextSend);
      }
    }

    // The attempt changes and stays as open or as established as it was.
    method Become(id: nat, b: Attempt)
      requires Valid() && id in sessions && AttemptOk(b) && b.dial == sessions[id].dial
      requires (b.state == Established <==> sessions[id].state == Established) && b.prepared == sessions[id].prepared
      modifies this`sessions
      ensures Valid() && sessions == old(sessions)[id := b]
    {
      hide OpenIds, OpenOf, AttemptOk, Carried;
      SameCounts(sessions, id, b);
      CarriedSet(sessions, id, b);
      sessions := sessions[id := b];
    }

    // A responder's installation.
    method Serve(id: nat, b: Attempt)
      requires Valid() && id in sessions && AttemptOk(b) && b.dial == sessions[id].dial == 0
      requires b.state == Established && sessions[id].state != Established && !sessions[id].prepared && !b.prepared
      modifies this`sessions, this`pending
      ensures Valid() && sessions == old(sessions)[id := b]
    {
      hide OpenIds, OpenOf, AttemptOk, Carried;
      SetCounts(sessions, id, b);
      CarriedSet(sessions, id, b);
      sessions := sessions[id := b];
      pending := pending - 1;
    }

    // An initiator's installation ends its dial and every rival attempt.
    method Win(now: int, id: nat, b: Attempt)
      requires Valid() && id in sessions && AttemptOk(b) && b.dial == sessions[id].dial && !b.prepared
      requires b.state == Established && sessions[id].state != Established
      modifies this`sessions, this`pending, this`dials, this`gone
      ensures Valid() && b.dial !in dials
      ensures b.dial in old(dials) ==> sessions == old(sessions)[id := b] - Rivals(old(sessions), id)
      ensures b.dial !in old(dials) ==> sessions == old(sessions)[id := b]
    {
      hide OpenIds, OpenOf, AttemptOk, Carried;
      SetCounts(sessions, id, b);
      CarriedSet(sessions, id, b);
      var ended := b.dial in dials;
      sessions, pending, dials := sessions[id := b], pending - 1, dials - {b.dial};
      if ended {
        assert Rivals(sessions, id) == Rivals(old(sessions), id);
        FailAll(now, Rivals(sessions, id), true, {});
      }
    }

    // A packet that is not ignored leads on to the dials, unless it comes after the
    // deadline of an established attempt.
    predicate LooksOn(a: Attempt, now: int, e: Event) {
      !Ignores(a, e) && (e.CloseEvent? || now < a.deadline || a.state != Established)
    }

    // One authenticated packet; `fill` tells whether the dials are looked at next.
    method Handle(now: int, id: nat, e: Event, fit: bool) returns (fill: bool)
      requires Valid() && id in sessions
      modifies this`sessions, this`pending, this`dials, this`gone
      ensures Valid() && (fill <==> LooksOn(old(sessions)[id], now, e))
      ensures sessions == Next(old(sessions), id, Received(old(sessions)[id], now, e))
        - if Wins(old(sessions)[id], now, e) && old(sessions)[id].dial in old(dials) then Rivals(old(sessions), id) else {}
    {
      hide Engine.Valid, AttemptOk, Rivals;
      InTable(this, id);
      var a := sessions[id];
      Facts(a, now, e);
      assert sessions[id := a] == sessions && sessions - {} == sessions;
      if Ignores(a, e) {
        return false;
      }
      if e.CloseEvent? {
        if e.valid {
          FailAttempt(now, id, false, fit);
        }
        return true;
      }
      if now >= a.deadline {
        if a.state != Established {
          FailAttempt(now, id, true, fit);
          return true;
        }
        Become(id, a.(packets := false));
        return false;
      }
      fill := true;
      match e {
        case ChallengeEvent(same, accepted) =>
          if a.state == WaitReady {
            if same {
              Send(id, false, now, false);
            }
          } else if accepted {
            Become(id, a.(state := WaitReady).Send(false, now, true));
          }
        case RejectEvent(matches) =>
          if a.state == WaitChallenge && matches {
            FailAttempt(now, id, false, fit);
          }
        case FinishEvent(matches, installs) =>
          if matches {
            if a.state == Established {
              Send(id, false, now, false);
            } else if !installs {
              FailAttempt(now, id, true, fit);
            } else {
              Serve(id, a.(state := Established).Send(false, now, true));
            }
          }
        case ReadyEvent(matches, installs) =>
          if matches {
            if installs {
              Win(now, id, a.(state := Established, packets := false, prepared := false));
            } else {
              FailAttempt(now, id, true, fit);
            }
          }
        case CloseEvent(_) => {}
      }
    }

    // Receive of an authenticated packet with the binding of its attempt.
    method Receive(now: int, id: nat, e: Event, fit: bool, makes: (nat, nat) -> Making) returns (err: Err)
      requires Valid()
      modifies this
      ensures Valid() && err == old(EntryErr(now)) && (err == Ok <==> !old(closed) && (old(lastNow).Some? ==> old(lastNow).value <= now))
      ensures err == Ok && id in old(sessions) && LooksOn(old(sessions)[id], now, e) ==>
        Filled(dials, {}, now, makes, closed, pending + preparations)
      ensures err == Ok && id in old(sessions) ==>
        && AfterPacket(old(sessions), sessions, id, Received(old(sessions)[id], now, e), now)
        && forall x :: x in old(sessions) && x != id ==>
            if Wins(old(sessions)[id], now, e) && x in Rivals(old(sessions), id) && old(sessions)[id].dial in old(dials)
            then x !in sessions else x in sessions && sessions[x] == old(sessions)[x]
    {
      hide Counted, AttemptOk, FreshAt, Received;
      err := Enter(now, false);
      if err != Ok || id !in sessions {
        return;
      }
      var fill := Handle(now, id, e, fit);
      NothingNew(sessions, issued, now);
      if fill {
        FillDials(now, makes);
      }
    }

    // reject: one REJECT for a HELLO per lifetime, from a bounded cache.
    method Reject(now: int, id: nat, digest: nat) returns (sent: bool)
      requires Valid()
      modifies rejections
      ensures Valid()
      ensures sent <==>
        && (forall i :: 0 <= i < rejections.Length ==> !old(rejections[i]).Stops(id, digest, now))
        && (exists i :: 0 <= i < rejections.Length && !old(rejections[i]).Live(now))
      ensures !sent ==> rejections[..] == old(rejections[..])
      ensures sent ==> exists i | 0 <= i < rejections.Length ::
        && !old(rejections[i]).Live(now)
        && rejections[..] == old(rejections[..])[i := Rejected(id, digest, now + LIFETIME)]
      ensures RejectedOnce(old(rejections[..]), rejections[..], id, digest, now)
    {
      var slot, i := -1, 0;
      while i < rejections.Length
        invariant 0 <= i <= rejections.Length
        invariant forall j :: 0 <= j < i ==> !rejections[j].Stops(id, digest, now)
        invariant slot == -1 ==> forall j :: 0 <= j < i ==> rejections[j].Live(now)
        invariant slot != -1 ==> 0 <= slot < i && !rejections[slot].Live(now)
      {
        if !rejections[i].Live(now) {
          if slot < 0 {
            slot := i;
          }
        } else if rejections[i].id == id && rejections[i].digest == digest {
          return false;
        }
        i := i + 1;
      }
      if slot < 0 {
        return false;
      }
      ghost var before := rejections[..];
      rejections[slot] := Rejected(id, digest, now + LIFETIME);
      assert TakesSlot(before, rejections[..], slot, id, digest, now);
      return true;
    }

    // A HELLO that opens a new attempt, or is rejected; `drawn`: there is entropy for it.
    method Answer(now: int, digest: nat, selected: bool, granted: bool, drawn: bool)
      requires Valid() && !closed
      modifies this`sessions, this`pending, this`issued, rejections
      ensures Valid() && issued >= old(issued) && old(issued) !in old(sessions)
      ensures var admitted := selected && granted && old(pending) + preparations < MAX_PENDING;
        && sessions == (if admitted && drawn then old(sessions)[old(issued) := Answered(now)] else old(sessions))
        && (if admitted then rejections[..] == old(rejections[..])
            else RejectedOnce(old(rejections[..]), rejections[..], old(issued), digest, now))
    {
      hide OpenIds, OpenOf, AttemptOk, Carried, RejectedOnce;
      if !selected || !granted || pending + preparations >= MAX_PENDING {
        var _ := Reject(now, issued, digest);
        return;
      }
      if drawn {
        AnsweredIsOk(now);
        AddCounts(sessions, issued, Answered(now));
        CarriedMore(sessions, issued, Answered(now));
        sessions := sessions[issued := Answered(now)];
        pending := pending + 1;
        issued := issued + 1;
      }
    }

    // receiveHello: a HELLO for attempt id, or for an ID not in the table.
    method ReceiveHello(
      now: int, id: Option<nat>, bound: bool, same: bool, digest: nat, selected: bool, granted: bool, drawn: bool)
      returns (err: Err)
      requires Valid() && (id.Some? ==> id.value in sessions)
      modifies this, rejections
      ensures Valid() && err == old(EntryErr(now)) && (err == Ok <==> !old(closed) && (old(lastNow).Some? ==> old(lastNow).value <= now))
      ensures err == Ok && id.Some? ==>
        var a := old(sessions)[id.value];
        if a.state == Established || a.initiator || !bound then sessions == old(sessions) && rejections[..] == old(rejections[..])
        else if now < a.deadline then
          if same then sessions == old(sessions)[id.value := a.Send(true, now, false)] && rejections[..] == old(rejections[..])
          else sessions == old(sessions) && RejectedOnce(old(rejections[..]), rejections[..], id.value, digest, now)
        else
          sessions == if selected && granted && drawn && old(pending) - 1 + old(preparations) < MAX_PENDING
            then (old(sessions) - {id.value})[old(issued) := Answered(now)] else old(sessions) - {id.value}
      ensures err == Ok && id.Some? && bound && same && OwesChallenge(old(sessions)[id.value], now) ==>
        id.value in sessions && Resent(old(sessions)[id.value], sessions[id.value], now)
      ensures err == Ok && id == None ==>
        && old(issued) !in old(sessions)
        && var admitted := selected && granted && old(pending) + old(preparations) < MAX_PENDING;
          && sessions == (if admitted && drawn then old(sessions)[old(issued) := Answered(now)] else old(sessions))
          && (if admitted then rejections[..] == old(rejections[..])
              else RejectedOnce(old(rejections[..]), rejections[..], old(issued), digest, now))
    {
      hide Counted, TableOk, RejectedOnce;
      TableFacts(this);
      err := Enter(now, false);
      if err != Ok {
        return;
      }
      if id.Some? {
        var a := sessions[id.value];
        if a.state == Established || a.initiator || !bound {
          return;
        }
        if now < a.deadline {
          if same {
            Send(id.value, true, now, false);
          } else {
            var _ := Reject(now, id.value, digest);
          }
          return;
        }
        FailAttempt(now, id.value, true, false);
      }
      Answer(now, digest, selected, granted, drawn);
    }

    // BeginDial of a checked request: it begins exactly when its first attempt does.
    method BeginDial(now: int, carriers: nat, concurrent: nat, deadline: Option<int>, makes: nat -> Making)
      returns (err: Err, id: nat)
      requires Valid()
      modifies this
      ensures Valid() && Extended(old(sessions), sessions, old(issued), now)
      ensures var sound := 1 <= carriers <= MAX_PENDING && concurrent <= carriers;
        var late := deadline.Some? && deadline.value <= now;
        && (err == Ok <==> old(Runs(now)) && sound && !late && |old(dials)| < MAX_PENDING && old(MayStart(makes(0), false)))
        && (err == ErrClosed <==> old(closed)) && (err == ErrTime <==> !old(closed) && !old(Runs(now)))
        && (err == ErrInvalid <==> old(Runs(now)) && !sound) && (err == ErrExpired <==> old(Runs(now)) && sound && late)
      ensures err == Ok <==>
        && !old(closed) && (old(lastNow).Some? ==> old(lastNow).value <= now)
        && 1 <= carriers <= MAX_PENDING && concurrent <= carriers && !(deadline.Some? && deadline.value <= now)
        && |old(dials)| < MAX_PENDING && makes(0) == Fine && old(pending) + old(preparations) < MAX_PENDING
      ensures err == Ok ==>
        && id !in old(dials) && dials.Keys == old(dials).Keys + {id} && dials[id].running > 0
        && Passed(Dial(carriers, if concurrent == 0 then 1 else concurrent, deadline, 0, 0, false), dials[id], makes)
        && Exhausts(dials[id], now, makes(dials[id].next), closed, pending + preparations)
      ensures err != Ok ==> dials == old(dials) && sessions == old(sessions)
    {
      hide Counted, TableOk, Extended, Limited;
      NothingNew(sessions, issued, now);
      id := 0;
      err := Enter(now, false);
      if err != Ok {
        return;
      }
      if carriers < 1 || carriers > MAX_PENDING || concurrent > carriers {
        return ErrInvalid, 0;
      }
      if deadline.Some? && now >= deadline.value {
        return ErrExpired, 0;
      }
      if |dials| >= MAX_PENDING {
        return ErrLimit, 0;
      }
      err, id := OpenDial(now, Dial(carriers, if concurrent == 0 then 1 else concurrent, deadline, 0, 0, false), makes);
    }

    // PrepareDial reserves for one future attempt; `granted` is the ledger's answer.
    method PrepareDial(now: int, valid: bool, granted: bool) returns (err: Err)
      requires Valid()
      modifies this`lastNow, this`preparations
      ensures Valid() && preparations == old(preparations) + if err == Ok then 1 else 0
      ensures err == Ok <==> old(Runs(now)) && valid && granted && pending + old(preparations) < MAX_PENDING
      ensures err == ErrClosed <==> closed
      ensures err == ErrInvalid <==> old(Runs(now)) && !valid
    {
      hide Counted, TableOk;
      err := Enter(now, false);
      if err != Ok {
        return;
      }
      if !valid {
        return ErrInvalid;
      }
      if pending + preparations >= MAX_PENDING || !granted {
        return ErrLimit;
      }
      preparations := preparations + 1;
    }

    // AbortPreparedDial of a waiting preparation
    method AbortPreparedDial(now: int) returns (err: Err)
      requires Valid() && preparations > 0
      modifies this`lastNow, this`preparations
      ensures Valid() && preparations == if err == Ok then old(preparations) - 1 else old(preparations)
      ensures err == Ok <==> old(lastNow) == None || old(lastNow).value <= now
    {
      hide Counted, TableOk;
      err := Enter(now, true);
      if err == Ok {
        preparations := preparations - 1;
      }
    }

    /** BeginPreparedDial on a waiting preparation: its attempts run one at a time, each
        with its own lifetime and budget. Once the request is found sound the preparation
        is used up, and the dial begins exactly when its first attempt does. */
    method BeginPreparedDial(
      now: int, carriers: nat, fits: bool, deadline: Option<int>, scopeClosed: bool, makes: nat -> Making)
      returns (err: Err, id: nat)
      requires Valid() && preparations > 0
      modifies this
      ensures Valid() && Extended(old(sessions), sessions, old(issued), now)
      ensures var sound := 1 <= carriers <= MAX_PENDING && fits;
        var late := deadline.Some? && deadline.value <= now;
        var adopted := old(Runs(now)) && sound && !late && !scopeClosed && |old(dials)| < MAX_PENDING;
        && (err == Ok <==> adopted && makes(0) == Fine)
        && preparations == old(preparations) - (if adopted then 1 else 0)
        && (err == ErrInvalid <==> old(Runs(now)) && !sound) && (err == ErrExpired <==> old(Runs(now)) && sound && late)
      ensures err == Ok ==>
        && id !in old(dials) && dials.Keys == old(dials).Keys + {id}
        && dials[id] == Dial(carriers, 1, deadline, 1, 1, true)
      ensures err != Ok ==> dials == old(dials) && sessions == old(sessions)
    {
      hide Counted, TableOk, Extended, Limited;
      NothingNew(sessions, issued, now);
      id := 0;
      err := Enter(now, false);
      if err != Ok {
        return;
      }
      if carriers < 1 || carriers > MAX_PENDING || !fits {
        return ErrInvalid, 0;
      }
      if deadline.Some? && now >= deadline.value {
        return ErrExpired, 0;
      }
      if scopeClosed {
        return ErrClosed, 0;
      }
      if |dials| >= MAX_PENDING {
        return ErrLimit, 0;
      }
      FewerPreparations(sessions, pending, preparations);
      preparations := preparations - 1;
      err, id := OpenDial(now, Dial(carriers, 1, deadline, 0, 0, true), makes);
    }

    // A dial that cannot start any attempt is dropped again.
    method OpenDial(now: int, dial: Dial, makes: nat -> Making) returns (err: Err, id: nat)
      requires Valid() && dial.running == 0 && dial.next == 0 && !closed && !dial.Expired(now)
      requires dial.carriers > 0 && dial.concurrent > 0 && (dial.prepared ==> dial.concurrent == 1)
      modifies this`sessions, this`pending, this`dials, this`issued, this`nextDial
      ensures Valid() && Extended(old(sessions), sessions, old(issued), now)
      ensures err in {Ok, ErrLimit} && (err == Ok <==> old(MayStart(makes(0), dial.prepared)))
      ensures err == Ok ==>
        && id !in old(dials) && dials.Keys == old(dials).Keys + {id} && dials[id].running > 0
        && Passed(dial, dials[id], makes) && Exhausts(dials[id], now, makes(dials[id].next), closed, pending + preparations)
      ensures err != Ok ==> dials == old(dials) && sessions == old(sessions)
    {
      hide Engine.Valid, Extended, EndsAt, Passed, Exhausts;
      id := Register(dial);
      assert id !in old(dials);
      ghost var last;
      err, last := FillDial(now, id, makes);
      if id in dials {
        PassedFacts(dial, dials[id], makes);
        NothingStarted(dials[id], now, makes(last), closed, pending + preparations);
      } else {
        EndsFirst(dial, makes, last);
      }
      if id !in dials || dials[id].running == 0 {
        DropDial(id);
        assert dials == old(dials);
        return ErrLimit, 0;
      }
      err := Ok;
    }

    method Register(dial: Dial) returns (id: nat)
      requires Valid() && dial.running == 0 && dial.concurrent > 0 && !closed
      modifies this`dials, this`nextDial
      ensures Valid() && id !in old(dials) && dials == old(dials)[id := dial]
    {
      hide Counted, TableOk, Limited;
      NewDialCounts(this);
      nextDial := nextDial + 1;
      id := nextDial;
      assert id !in dials;
      dials := dials[id := dial];
    }

    // Ends a set of attempts of the table.
    method FailAll(now: int, ids: set<nat>, notify: bool, fit: set<nat>)
      requires Valid() && ids <= sessions.Keys
      modifies this`sessions, this`pending, this`dials, this`gone
      ensures Valid() && sessions == old(sessions) - ids && dials.Keys <= old(dials).Keys
      ensures (forall id :: id in ids ==> old(sessions)[id].dial !in old(dials)) ==> dials == old(dials)
    {
      hide Counted, TableOk, Limited;
      var todo := ids;
      while todo != {}
        invariant Valid() && todo <= ids && sessions == old(sessions) - (ids - todo) && dials.Keys <= old(dials).Keys
        invariant (forall id :: id in ids ==> old(sessions)[id].dial !in old(dials)) ==> dials == old(dials)
        decreases todo
      {
        var id :| id in todo;
        FailAttempt(now, id, notify, id in fit);
        todo := todo - {id};
        assert sessions == old(sessions) - (ids - todo);
      }
    }

    method CancelDial(now: int, d: nat) returns (err: Err)
      requires Valid()
      modifies this
      ensures Valid() && err == old(EntryErr(now)) && (err == Ok <==> !old(closed) && (old(lastNow).Some? ==> old(lastNow).value <= now))
      ensures err == Ok && d in old(dials) ==> dials.Keys == old(dials).Keys - {d} && sessions == old(sessions) - OpenOf(old(sessions), d)
      ensures err != Ok || d !in old(dials) ==> sessions == old(sessions) && dials == old(dials)
    {
      hide Counted, TableOk;
      err := Enter(now, false);
      if err != Ok || d !in dials {
        return;
      }
      FewerDialsCount(sessions, dials, pending, d);
      dials := dials - {d};
      FailAll(now, OpenOf(sessions, d), true, {});
    }

    method CloseSession(now: int, id: nat, fit: bool, makes: (nat, nat) -> Making) returns (err: Err)
      requires Valid()
      modifies this
      ensures Valid() && err == old(EntryErr(now)) && (err == Ok <==> !old(closed) && (old(lastNow).Some? ==> old(lastNow).value <= now))
      ensures err == Ok ==>
        Extended(old(sessions) - {id}, sessions, old(issued), now) && Filled(dials, {}, now, makes, closed, pending + preparations)
      ensures err != Ok ==> sessions == old(sessions) && dials == old(dials)
    {
      hide Counted, TableOk, Extended;
      err := Enter(now, false);
      if err != Ok {
        return;
      }
      if id in sessions {
        FailAttempt(now, id, true, fit);
      }
      assert sessions == old(sessions) - {id};
      FillDials(now, makes);
    }

    // Close: every attempt ends and nothing is scheduled any more.
    method Close(now: int) returns (err: Err)
      requires Valid()
      modifies this, rejections
      ensures Valid()
      ensures err == Ok <==> old(lastNow) == None || old(lastNow).value <= now
      ensures err == Ok ==> closed && sessions == map[] && dials == map[] && pending == 0 && preparations == 0
      ensures err == Ok && !old(closed) ==> forall t :: !IsWake(t)
    {
      hide Counted, TableOk;
      NoneOpen();
      err := Enter(now, true);
      if err != Ok || closed {
        return;
      }
      NoDialsCount(sessions, dials, pending);
      preparations := 0;
      dials := map[];
      FailAll(now, sessions.Keys, true, {});
      assert sessions == map[];
      closed := true;
      forall i | 0 <= i < rejections.Length {
        rejections[i] := Free;
      }
    }
  }

  /** In every reachable engine: at most eight retried packets and one CLOSE for each
      attempt, present or past, on a preparation or not, at most seven of them in its
      first phase; the counters are the numbers of unestablished attempts they stand
      for; and ordinary attempts and waiting preparations stay within the limit. */
  lemma EngineIsBounded(e: Engine)
    requires e.Valid()
    ensures forall id :: id in e.sessions ==> Budgeted(e.sessions[id])
    ensures forall a :: a in e.gone ==> a.firsts + a.lasts <= MAX_SENDS && a.firsts < MAX_SENDS && a.closes <= 1
    ensures e.pending == |OpenIds(e.sessions)| && e.pending + e.preparations <= MAX_PENDING + |Carried(e.sessions)|
    ensures forall d :: d in e.dials ==> e.dials[d].running == |OpenOf(e.sessions, d)| <= e.dials[d].concurrent
  {
    assert forall id :: id in e.sessions ==> AttemptOk(e.sessions[id]);
  }

  lemma AnsweredIsOk(now: int)
    ensures AttemptOk(Answered(now)) && Answered(now).state == WaitFinish && Answered(now).dial == 0
    ensures Answered(now).firsts == 1 && Answered(now).nextSend == now + RETRY_INTERVAL
    ensures Answered(now).deadline == now + LIFETIME
  {
  }

  lemma TableFacts(e: Engine)
    requires e.Valid()
    ensures forall id :: id in e.sessions ==>
      id < e.issued && (!e.sessions[id].initiator && e.sessions[id].state != Established ==> e.sessions[id].FirstPhase())
  {
  }

  lemma SentIsOk(a: Attempt, first: bool, now: int, transition: bool)
    requires AttemptOk(a) && (first <==> a.FirstPhase())
    ensures var b := a.Send(first, now, transition);
      AttemptOk(b) && b.dial == a.dial && b.state == a.state && b.prepared == a.prepared
  {
  }

  lemma InTable(e: Engine, id: nat)
    requires e.Valid() && id in e.sessions
    ensures AttemptOk(e.sessions[id])
  {
    hide Counted, Limited;
  }

  lemma FewerPreparations(m: map<nat, Attempt>, pending: int, n: nat)
    requires Limited(m, pending, n) && n > 0
    ensures Limited(m, pending, n - 1)
  {
  }

  lemma NoneOpen()
    ensures forall pending, dials :: Counted(map[], dials, pending) ==> pending == 0
  {
    assert OpenIds(map[]) == {};
  }

  lemma NoDialsCount(m: map<nat, Attempt>, dials: map<nat, Dial>, pending: int)
    requires Counted(m, dials, pending)
    ensures Counted(m, map[], pending)
  {
  }

  lemma DialsRun(e: Engine)
    requires e.Valid()
    ensures forall d :: d in e.dials ==> e.dials[d].running >= 0
  {
    hide TableOk, Limited;
    RunningIsCount(e.sessions, e.dials, e.pending);
  }

  // No attempt belongs to a dial that has not begun.
  lemma NewDialCounts(e: Engine)
    requires e.Valid()
    ensures forall dial: Dial :: dial.running == 0 ==>
      Counted(e.sessions, e.dials[e.nextDial + 1 := dial], e.pending)
    ensures TableOk(e.sessions, e.issued, e.nextDial + 1, e.gone)
  {
    assert OpenOf(e.sessions, e.nextDial + 1) == {};
  }
}
