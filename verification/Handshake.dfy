// internal/handshakev2: agreement of the HELLO / CHALLENGE / FINISH / READY
// exchange over a network that loses, repeats, delays and reorders packets.
//
// Only packets that a holder of the right key sent can be delivered. A digest
// stands for what it digests, so a CHALLENGE carries the very HELLO it answers,
// a transcript is that CHALLENGE, and the keys of FINISH and READY are those of
// their transcript. SessionIDs, Dial IDs and server nonces are drawn fresh.
module Handshake {
  import opened Negotiation

  datatype Hello = Hello(id: nat, nonce: nat, offer: Advertisement)

  // The answer to one HELLO; also the transcript of the pair.
  datatype Challenge = Challenge(hello: Hello, serverNonce: nat, token: nat, answer: Advertisement) {
    function Id(): nat {
      hello.id
    }

    // The contract that a transcript stands for.
    function Terms(): Contract {
      Agreed(hello.offer, answer)
    }
  }

  datatype Packet =
    | HelloPacket(h: Hello) | ChallengePacket(c: Challenge) | FinishPacket(t: Challenge) | ReadyPacket(t: Challenge)

  datatype Phase = WaitChallenge | WaitReady(t: Challenge, terms: Contract) | Joined(t: Challenge, terms: Contract)

  datatype Attempt = Attempt(hello: Hello, binding: nat, dial: nat, phase: Phase)

  datatype ListenerPhase = WaitFinish | Installed

  datatype Served = Served(t: Challenge, terms: Contract, binding: nat, phase: ListenerPhase)

  datatype Dial = Dial(carriers: nat, concurrent: nat, next: nat, running: int)

  datatype Client = Client(attempts: map<nat, Attempt>, dials: map<nat, Dial>, nextDial: nat, pending: int)

  datatype Server = Server(attempts: map<nat, Served>, listener: Profile, pending: int)

  // One completed installation of a Session.
  datatype Install = Install(t: Challenge, terms: Contract)

  datatype Winner = Winner(dial: nat, id: nat)

  // Both engines, everything ever sent, and the history of installations.
  datatype World = World(
    client: Client, server: Server, net: set<Packet>, ids: set<nat>, nonces: set<nat>,
    joined: set<Install>, served: set<Install>, winners: set<Winner>)

  // ---------------------------------------------------------------------------
  // The client

  predicate Open(a: Attempt) {
    !a.phase.Joined?
  }

  function BeginDial(w: World, carriers: nat, concurrent: nat): World {
    if carriers == 0 || concurrent > carriers then w
    else
      var d := w.client.nextDial + 1;
      w.(client := w.client.(nextDial := d,
           dials := w.client.dials[d := Dial(carriers, if concurrent == 0 then 1 else concurrent, 0, 0)]))
  }

  // startAttempt for the next configured Carrier of a dial.
  function StartAttempt(w: World, d: nat, id: nat, nonce: nat, offer: Advertisement, binding: nat): World {
    if d !in w.client.dials || id in w.ids || ValidateAdvertisement(offer) != NoErr then w
    else
      var dial := w.client.dials[d];
      if dial.running >= dial.concurrent || dial.next >= dial.carriers then w
      else
        var h := Hello(id, nonce, offer);
        w.(client := w.client.(
             attempts := w.client.attempts[id := Attempt(h, binding, d, WaitChallenge)],
             dials := w.client.dials[d := dial.(next := dial.next + 1, running := dial.running + 1)],
             pending := w.client.pending + 1),
           net := w.net + {HelloPacket(h)}, ids := w.ids + {id})
  }

  // receiveChallenge: the digest ties it to this attempt's own HELLO.
  function ReceiveChallenge(w: World, c: Challenge, binding: nat): World {
    if ChallengePacket(c) !in w.net || c.Id() !in w.client.attempts then w
    else
      var a := w.client.attempts[c.Id()];
      var accepted := Accept(a.hello.offer, c.answer);
      if a.binding != binding || a.phase != WaitChallenge || c.hello != a.hello || accepted.Refused? then w
      else
        w.(client := w.client.(attempts := w.client.attempts[c.Id() := a.(phase := WaitReady(c, accepted.value))]),
           net := w.net + {FinishPacket(c)})
  }

  // An attempt leaves the session table, whatever the reason: rejection, expiry,
  // CLOSE, cancellation, a closed scope or a failed installation.
  function DropOne(e: Client, id: nat): Client {
    if id !in e.attempts then e
    else
      var a := e.attempts[id];
      var f := e.(attempts := e.attempts - {id});
      if !Open(a) then f
      else
        f.(pending := f.pending - 1,
           dials := if a.dial in f.dials
                    then f.dials[a.dial := f.dials[a.dial].(running := f.dials[a.dial].running - 1)] else f.dials)
  }

  // What a winning READY cancels: every other attempt of its dial.
  function Rivals(e: Client, d: nat, id: nat): set<nat> {
    set x | x in e.attempts && x != id && e.attempts[x].dial == d
  }

  // The IDs of a dial's attempts that have not joined.
  function OpenOf(e: Client, d: nat): set<nat> {
    set id | id in e.attempts && e.attempts[id].dial == d && Open(e.attempts[id])
  }

  ghost function DropAll(e: Client, ids: set<nat>): Client
    decreases ids
  {
    if ids == {} then e
    else
      var id := PickId(ids);
      DropAll(DropOne(e, id), ids - {id})
  }

  ghost function PickId(ids: set<nat>): (id: nat)
    requires ids != {}
    ensures id in ids
  {
    var id :| id in ids;
    id
  }

  // receiveReady: the first READY of a dial wins and cancels the others.
  ghost function ReceiveReady(w: World, t: Challenge, binding: nat): World {
    if ReadyPacket(t) !in w.net || t.Id() !in w.client.attempts then w
    else
      var a := w.client.attempts[t.Id()];
      if a.binding != binding || !a.phase.WaitReady? || a.phase.t != t then w
      else
        var joined := w.client.(
          attempts := w.client.attempts[t.Id() := a.(phase := Joined(t, a.phase.terms))],
          pending := w.client.pending - 1, dials := w.client.dials - {a.dial});
        w.(client := if a.dial in w.client.dials then DropAll(joined, Rivals(joined, a.dial, t.Id())) else joined,
           joined := w.joined + {Install(t, a.phase.terms)},
           winners := w.winners + {Winner(a.dial, t.Id())})
  }

  // CancelDial, and the retirement of a dial that has nothing left to try.
  ghost function CancelDial(w: World, d: nat): World {
    if d !in w.client.dials then w
    else
      var e := w.client.(dials := w.client.dials - {d});
      w.(client := DropAll(e, OpenOf(e, d)))
  }

  // ---------------------------------------------------------------------------
  // The listener

  // receiveHello of a compatible client; a known ID answers with its old packet,
  // which is in the network already, or with a rejection.
  function ReceiveHello(w: World, h: Hello, binding: nat, nonce: nat, token: nat): World {
    var selected := Select(h.offer, w.server.listener);
    if HelloPacket(h) !in w.net || h.id in w.server.attempts || nonce in w.nonces || selected.Refused? then w
    else
      var c := Challenge(h, nonce, token, selected.value.challenge);
      w.(server := w.server.(attempts := w.server.attempts[h.id := Served(c, selected.value.contract, binding, WaitFinish)],
                             pending := w.server.pending + 1),
         net := w.net + {ChallengePacket(c)}, nonces := w.nonces + {nonce})
  }

  // receiveFinish: only the FINISH of this very transcript installs the Session.
  function ReceiveFinish(w: World, t: Challenge, binding: nat): World {
    if FinishPacket(t) !in w.net || t.Id() !in w.server.attempts then w
    else
      var a := w.server.attempts[t.Id()];
      if a.binding != binding || a.t != t || a.phase != WaitFinish then w
      else
        w.(server := w.server.(attempts := w.server.attempts[t.Id() := a.(phase := Installed)],
                               pending := w.server.pending - 1),
           net := w.net + {ReadyPacket(t)}, served := w.served + {Install(t, a.terms)})
  }

  function DropServed(w: World, id: nat): World {
    if id !in w.server.attempts then w
    else
      var open := w.server.attempts[id].phase == WaitFinish;
      w.(server := w.server.(attempts := w.server.attempts - {id}, pending := w.server.pending - if open then 1 else 0))
  }

  // ---------------------------------------------------------------------------
  // Runs

  datatype Step =
    | DialStep(carriers: nat, concurrent: nat)
    | AttemptStep(dial: nat, id: nat, nonce: nat, offer: Advertisement, binding: nat)
    | HelloStep(h: Hello, binding: nat, nonce: nat, token: nat)
    | ChallengeStep(c: Challenge, binding: nat)
    | FinishStep(t: Challenge, binding: nat)
    | ReadyStep(t: Challenge, binding: nat)
    | DropClientStep(id: nat) | DropServerStep(id: nat) | CancelStep(dial: nat)

  ghost function Take(w: World, s: Step): World {
    match s
    case DialStep(carriers, concurrent) => BeginDial(w, carriers, concurrent)
    case AttemptStep(d, id, nonce, offer, binding) => StartAttempt(w, d, id, nonce, offer, binding)
    case HelloStep(h, binding, nonce, token) => ReceiveHello(w, h, binding, nonce, token)
    case ChallengeStep(c, binding) => ReceiveChallenge(w, c, binding)
    case FinishStep(t, binding) => ReceiveFinish(w, t, binding)
    case ReadyStep(t, binding) => ReceiveReady(w, t, binding)
    case DropClientStep(id) => w.(client := DropOne(w.client, id))
    case DropServerStep(id) => DropServed(w, id)
    case CancelStep(d) => CancelDial(w, d)
  }

  function Begin(listener: Profile): World {
    World(Client(map[], map[], 0, 0), Server(map[], listener, 0), {}, {}, {}, {}, {}, {})
  }

  ghost function Run(listener: Profile, steps: seq<Step>): World {
    if steps == [] then Begin(listener) else Take(Run(listener, steps[..|steps| - 1]), steps[|steps| - 1])
  }

  // ---------------------------------------------------------------------------
  // Invariants

  // What the packets in the network say about each other.
  ghost predicate NetOk(w: World) {
    && (forall h :: HelloPacket(h) in w.net ==> h.id in w.ids)
    && (forall h, k :: HelloPacket(h) in w.net && HelloPacket(k) in w.net && h.id == k.id ==> h == k)
    && (forall c :: ChallengePacket(c) in w.net ==> ChallengeOk(w, c))
    && (forall c, d :: ChallengePacket(c) in w.net && ChallengePacket(d) in w.net && c.serverNonce == d.serverNonce ==> c == d)
    && (forall t :: FinishPacket(t) in w.net ==> ChallengePacket(t) in w.net && AcceptErr(t.hello.offer, t.answer) == NoErr)
    && (forall t, u :: FinishPacket(t) in w.net && FinishPacket(u) in w.net && t.Id() == u.Id() ==> t == u)
    && (forall t :: ReadyPacket(t) in w.net ==> Install(t, t.Terms()) in w.served)
  }

  predicate ChallengeOk(w: World, c: Challenge) {
    && HelloPacket(c.hello) in w.net && c.serverNonce in w.nonces
    && SelectErr(c.hello.offer, w.server.listener) == NoErr && c.answer == Narrowed(c.hello.offer, w.server.listener)
  }

  ghost predicate AttemptOk(w: World, id: nat)
    requires id in w.client.attempts
  {
    var a := w.client.attempts[id];
    && a.hello.id == id && HelloPacket(a.hello) in w.net && a.dial <= w.client.nextDial
    && (a.phase == WaitChallenge ==> forall t: Challenge :: t.Id() == id ==> FinishPacket(t) !in w.net)
    && (a.phase != WaitChallenge ==>
        && a.phase.t.Id() == id && a.phase.terms == a.phase.t.Terms() && FinishPacket(a.phase.t) in w.net)
    && (a.phase.Joined? ==> Install(a.phase.t, a.phase.terms) in w.joined)
    && (Open(a) ==> a.dial in w.client.dials && forall x :: x in w.joined ==> x.t.Id() != id)
  }

  ghost predicate ServedOk(w: World, id: nat)
    requires id in w.server.attempts
  {
    var a := w.server.attempts[id];
    && a.t.Id() == id && ChallengePacket(a.t) in w.net && a.terms == a.t.Terms()
    && (a.phase == WaitFinish ==> forall x :: x in w.served ==> x.t != a.t)
    && (a.phase == Installed ==> Install(a.t, a.terms) in w.served)
  }

  ghost predicate HistoryOk(w: World) {
    && (forall x :: x in w.served ==> FinishPacket(x.t) in w.net && x.terms == x.t.Terms())
    && w.joined <= w.served
    && (forall x, y :: x in w.joined && y in w.joined && x.t.Id() == y.t.Id() ==> x == y)
    && (forall d :: d in w.client.dials ==> d <= w.client.nextDial)
    && (forall x :: x in w.winners ==> x.dial !in w.client.dials && x.dial <= w.client.nextDial)
    && (forall x, y :: x in w.winners && y in w.winners && x.dial == y.dial ==> x == y)
  }

  ghost predicate WorldOk(w: World) {
    NetOk(w) && HistoryOk(w) && AttemptsOk(w) && ServersOk(w)
  }

  ghost predicate AttemptsOk(w: World) {
    forall id :: id in w.client.attempts ==> AttemptOk(w, id)
  }

  ghost predicate ServersOk(w: World) {
    forall id :: id in w.server.attempts ==> ServedOk(w, id)
  }

  // ---------------------------------------------------------------------------
  // Every step keeps the invariant

  // The client's table changed without touching network or history.
  lemma ClientOnly(w: World, e: Client)
    requires WorldOk(w) && e.nextDial >= w.client.nextDial
    requires forall id :: id in e.attempts ==> id in w.client.attempts && e.attempts[id] == w.client.attempts[id]
    requires forall id :: id in e.attempts && Open(e.attempts[id]) ==> e.attempts[id].dial in e.dials
    requires forall d :: d in e.dials && d !in w.client.dials ==> w.client.nextDial < d <= e.nextDial
    ensures WorldOk(w.(client := e))
  {
    hide ValidateAdvertisement, SelectErr, AcceptErr, Agreed, Narrowed;
    hide NetOk, ServersOk;
    var v := w.(client := e);
    NetStays(w, v);
    ServersStay(w, v);
    forall id | id in e.attempts
      ensures AttemptOk(v, id)
    {
      assert AttemptOk(w, id);
    }
  }

  lemma DialKeeps(w: World, carriers: nat, concurrent: nat)
    requires WorldOk(w)
    ensures WorldOk(BeginDial(w, carriers, concurrent))
  {
    hide WorldOk;
    AttemptFacts(w);
    ClientOnly(w, BeginDial(w, carriers, concurrent).client);
  }

  lemma AttemptFacts(w: World)
    requires WorldOk(w)
    ensures forall id :: id in w.client.attempts ==>
      w.client.attempts[id].hello.id == id && (Open(w.client.attempts[id]) ==> w.client.attempts[id].dial in w.client.dials)
    ensures forall d :: d in w.client.dials ==> d <= w.client.nextDial
  {
    hide NetOk, ServedOk;
    forall id | id in w.client.attempts
      ensures w.client.attempts[id].hello.id == id
      ensures Open(w.client.attempts[id]) ==> w.client.attempts[id].dial in w.client.dials
    {
      assert AttemptOk(w, id);
    }
  }

  // A new attempt may start for dial d under id.
  predicate Starts(w: World, d: nat, id: nat, offer: Advertisement) {
    && d in w.client.dials && id !in w.ids && ValidateAdvertisement(offer) == NoErr
    && w.client.dials[d].running < w.client.dials[d].concurrent && w.client.dials[d].next < w.client.dials[d].carriers
  }

  lemma AttemptNet(w: World, d: nat, id: nat, nonce: nat, offer: Advertisement, binding: nat)
    requires NetOk(w) && Starts(w, d, id, offer)
    ensures NetOk(StartAttempt(w, d, id, nonce, offer, binding))
  {
    hide ValidateAdvertisement, SelectErr, AcceptErr, Agreed, Narrowed, ChallengeOk;
    ChallengesStay(w, StartAttempt(w, d, id, nonce, offer, binding));
  }

  lemma AttemptAttempts(w: World, d: nat, id: nat, nonce: nat, offer: Advertisement, binding: nat)
    requires WorldOk(w) && Starts(w, d, id, offer)
    ensures AttemptsOk(StartAttempt(w, d, id, nonce, offer, binding))
  {
    hide ValidateAdvertisement, SelectErr, AcceptErr, Agreed, Narrowed, NetOk, HistoryOk, ServersOk;
    var v := StartAttempt(w, d, id, nonce, offer, binding);
    NoFinishYet(w, id);
    AttemptFacts(w);
    forall x | x in v.client.attempts
      ensures AttemptOk(v, x)
    {
      if x != id {
        assert AttemptOk(w, x);
      }
    }
  }

  lemma AttemptKeeps(w: World, d: nat, id: nat, nonce: nat, offer: Advertisement, binding: nat)
    requires WorldOk(w)
    ensures WorldOk(StartAttempt(w, d, id, nonce, offer, binding))
  {
    hide ValidateAdvertisement, SelectErr, AcceptErr, Agreed, Narrowed, NetOk, AttemptsOk, ServersOk;
    if Starts(w, d, id, offer) {
      AttemptNet(w, d, id, nonce, offer, binding);
      AttemptAttempts(w, d, id, nonce, offer, binding);
      ServersStay(w, StartAttempt(w, d, id, nonce, offer, binding));
    }
  }

  // An ID that was never drawn appears in no confirmation and no installation.
  lemma NoFinishYet(w: World, id: nat)
    requires WorldOk(w) && id !in w.ids
    ensures forall t: Challenge :: t.Id() == id ==> FinishPacket(t) !in w.net && ChallengePacket(t) !in w.net
    ensures forall x :: x in w.joined ==> x.t.Id() != id
  {
    hide ValidateAdvertisement, SelectErr, AcceptErr, Agreed, Narrowed, AttemptOk, ServedOk;
    forall t: Challenge | t.Id() == id
      ensures FinishPacket(t) !in w.net && ChallengePacket(t) !in w.net
    {
      assert ChallengePacket(t) in w.net ==> ChallengeOk(w, t);
    }
    forall x | x in w.joined
      ensures x.t.Id() != id
    {
      assert x in w.served;
    }
  }

  // This HELLO opens a new attempt at the listener.
  predicate Opens(w: World, h: Hello, nonce: nat) {
    && HelloPacket(h) in w.net && h.id !in w.server.attempts && nonce !in w.nonces
    && SelectErr(h.offer, w.server.listener) == NoErr
  }

  lemma HelloNet(w: World, h: Hello, binding: nat, nonce: nat, token: nat)
    requires NetOk(w) && Opens(w, h, nonce)
    ensures NetOk(ReceiveHello(w, h, binding, nonce, token))
  {
    hide SelectErr, AcceptErr, Agreed, Narrowed;
    var v := ReceiveHello(w, h, binding, nonce, token);
    ChallengesStay(w, v);
    NoncesDrawn(w);
    assert ChallengeOk(v, Challenge(h, nonce, token, Narrowed(h.offer, w.server.listener)));
    hide ChallengeOk;
  }

  lemma NoncesDrawn(w: World)
    requires NetOk(w)
    ensures forall c :: ChallengePacket(c) in w.net ==> c.serverNonce in w.nonces
  {
    hide SelectErr, AcceptErr, Agreed, Narrowed;
    forall c | ChallengePacket(c) in w.net
      ensures c.serverNonce in w.nonces
    {
      assert ChallengeOk(w, c);
    }
  }

  lemma HelloServers(w: World, h: Hello, binding: nat, nonce: nat, token: nat)
    requires WorldOk(w) && Opens(w, h, nonce)
    ensures ServersOk(ReceiveHello(w, h, binding, nonce, token))
  {
    hide SelectErr, AcceptErr, Agreed, Narrowed, NetOk, HistoryOk, AttemptsOk;
    var v := ReceiveHello(w, h, binding, nonce, token);
    FreshNonce(w, v.server.attempts[h.id].t);
    forall x | x in v.server.attempts
      ensures ServedOk(v, x)
    {
      if x != h.id {
        assert ServedOk(w, x);
      }
    }
  }

  lemma HelloKeeps(w: World, h: Hello, binding: nat, nonce: nat, token: nat)
    requires WorldOk(w)
    ensures WorldOk(ReceiveHello(w, h, binding, nonce, token))
  {
    hide SelectErr, AcceptErr, Agreed, Narrowed, NetOk, AttemptsOk, ServersOk;
    if Opens(w, h, nonce) {
      HelloNet(w, h, binding, nonce, token);
      HelloServers(w, h, binding, nonce, token);
      AttemptsStay(w, ReceiveHello(w, h, binding, nonce, token));
    }
  }

  // Challenges, confirmations of known attempts and installations at the
  // listener change nothing for the client's attempts.
  lemma AttemptsStay(w: World, v: World)
    requires AttemptsOk(w) && v.client == w.client && v.joined == w.joined && w.net <= v.net
    requires forall t :: FinishPacket(t) in v.net ==> FinishPacket(t) in w.net
    ensures AttemptsOk(v)
  {
    hide Agreed;
    forall x | x in v.client.attempts
      ensures AttemptOk(v, x)
    {
      assert AttemptOk(w, x);
    }
  }

  // A challenge under a nonce that was never drawn is new to the whole history.
  lemma FreshNonce(w: World, c: Challenge)
    requires WorldOk(w) && c.serverNonce !in w.nonces
    ensures ChallengePacket(c) !in w.net && FinishPacket(c) !in w.net
    ensures forall x :: x in w.served ==> x.t != c
    ensures forall d :: ChallengePacket(d) in w.net ==> d.serverNonce != c.serverNonce
  {
    hide ValidateAdvertisement, SelectErr, AcceptErr, Agreed, Narrowed, AttemptOk, ServedOk;
    forall d | ChallengePacket(d) in w.net
      ensures d.serverNonce != c.serverNonce
    {
      assert ChallengeOk(w, d);
    }
  }

  // More packets change nothing for the listener's attempts.
  lemma ServersStay(w: World, v: World)
    requires ServersOk(w) && v.server == w.server && v.served == w.served && w.net <= v.net
    ensures ServersOk(v)
  {
    hide Agreed;
    forall x | x in v.server.attempts
      ensures ServedOk(v, x)
    {
      assert ServedOk(w, x);
    }
  }

  // Challenges stay what they were while packets and nonces only grow.
  lemma ChallengesStay(w: World, v: World)
    requires NetOk(w) && w.net <= v.net && w.nonces <= v.nonces && v.server.listener == w.server.listener
    ensures forall c :: ChallengePacket(c) in w.net ==> ChallengeOk(v, c)
  {
    hide SelectErr, AcceptErr, Narrowed;
    forall c | ChallengePacket(c) in w.net
      ensures ChallengeOk(v, c)
    {
      assert ChallengeOk(w, c);
    }
  }

  // The attempt that would take this challenge.
  predicate Expects(w: World, c: Challenge, binding: nat) {
    && ChallengePacket(c) in w.net && c.Id() in w.client.attempts
    && var a := w.client.attempts[c.Id()];
    && a.binding == binding && a.phase == WaitChallenge && c.hello == a.hello && AcceptErr(a.hello.offer, c.answer) == NoErr
  }

  lemma ChallengeNet(w: World, c: Challenge, binding: nat)
    requires NetOk(w) && AttemptsOk(w) && Expects(w, c, binding)
    ensures NetOk(ReceiveChallenge(w, c, binding))
  {
    hide SelectErr, AcceptErr, Narrowed, Agreed, AttemptsOk, ChallengeOk;
    Unanswered(w, c, binding);
    ChallengesStay(w, ReceiveChallenge(w, c, binding));
  }

  lemma Unanswered(w: World, c: Challenge, binding: nat)
    requires AttemptsOk(w) && Expects(w, c, binding)
    ensures forall t: Challenge :: t.Id() == c.Id() ==> FinishPacket(t) !in w.net
  {
    hide SelectErr, AcceptErr, Narrowed, Agreed;
    assert AttemptOk(w, c.Id());
  }

  lemma ChallengeAttempts(w: World, c: Challenge, binding: nat)
    requires AttemptsOk(w) && Expects(w, c, binding)
    ensures AttemptsOk(ReceiveChallenge(w, c, binding))
  {
    hide SelectErr, AcceptErr, Narrowed, Agreed;
    var v := ReceiveChallenge(w, c, binding);
    forall x | x in v.client.attempts
      ensures AttemptOk(v, x)
    {
      assert AttemptOk(w, x);
    }
  }

  lemma ChallengeKeeps(w: World, c: Challenge, binding: nat)
    requires WorldOk(w)
    ensures WorldOk(ReceiveChallenge(w, c, binding))
  {
    hide SelectErr, AcceptErr, Narrowed, Agreed, AttemptsOk, NetOk, ServersOk;
    if Expects(w, c, binding) {
      ChallengeNet(w, c, binding);
      ChallengeAttempts(w, c, binding);
      ServersStay(w, ReceiveChallenge(w, c, binding));
    }
  }

  predicate Finishes(w: World, t: Challenge, binding: nat) {
    && FinishPacket(t) in w.net && t.Id() in w.server.attempts
    && var a := w.server.attempts[t.Id()];
    && a.binding == binding && a.t == t && a.phase == WaitFinish
  }

  lemma FinishNet(w: World, t: Challenge, binding: nat)
    requires NetOk(w) && ServersOk(w) && Finishes(w, t, binding)
    ensures NetOk(ReceiveFinish(w, t, binding))
  {
    hide SelectErr, AcceptErr, Narrowed, Agreed;
    assert ServedOk(w, t.Id());
    ChallengesStay(w, ReceiveFinish(w, t, binding));
  }

  lemma FinishServers(w: World, t: Challenge, binding: nat)
    requires ServersOk(w) && Finishes(w, t, binding)
    ensures ServersOk(ReceiveFinish(w, t, binding))
  {
    hide SelectErr, AcceptErr, Narrowed, Agreed;
    var v := ReceiveFinish(w, t, binding);
    forall x | x in v.server.attempts
      ensures ServedOk(v, x)
    {
      assert ServedOk(w, x);
    }
  }

  lemma FinishHistory(w: World, t: Challenge, binding: nat)
    requires HistoryOk(w) && ServersOk(w)
    ensures HistoryOk(ReceiveFinish(w, t, binding))
  {
    hide SelectErr, AcceptErr, Narrowed, Agreed;
    if Finishes(w, t, binding) {
      assert ServedOk(w, t.Id());
    }
  }

  lemma FinishKeeps(w: World, t: Challenge, binding: nat)
    requires WorldOk(w)
    ensures WorldOk(ReceiveFinish(w, t, binding))
  {
    hide AttemptsOk, NetOk, ServersOk, HistoryOk;
    if Finishes(w, t, binding) {
      FinishNet(w, t, binding);
      FinishServers(w, t, binding);
      AttemptsStay(w, ReceiveFinish(w, t, binding));
      FinishHistory(w, t, binding);
    }
  }

  lemma DropServedKeeps(w: World, id: nat)
    requires WorldOk(w)
    ensures WorldOk(DropServed(w, id))
  {
    hide SelectErr, AcceptErr, Agreed, Narrowed, NetOk, AttemptsOk;
    var v := DropServed(w, id);
    AttemptsStay(w, v);
    NetStays(w, v);
    forall x | x in v.server.attempts
      ensures ServedOk(v, x)
    {
      assert ServedOk(w, x);
    }
  }

  lemma NetStays(w: World, v: World)
    requires NetOk(w) && v.net == w.net && v.ids == w.ids && v.nonces == w.nonces && v.served == w.served
    requires v.server.listener == w.server.listener
    ensures NetOk(v)
  {
    hide ChallengeOk, AcceptErr, Agreed;
    ChallengesStay(w, v);
  }

  // Dropping a set of attempts takes exactly them out of the table.
  lemma {:induction false} DropAllShape(e: Client, ids: set<nat>)
    ensures var f := DropAll(e, ids);
      && f.nextDial == e.nextDial && f.dials.Keys == e.dials.Keys
      && (forall id :: id in f.attempts <==> id in e.attempts && id !in ids)
      && (forall id :: id in f.attempts ==> f.attempts[id] == e.attempts[id])
    decreases ids
  {
    if ids != {} {
      var id := PickId(ids);
      DropAllShape(DropOne(e, id), ids - {id});
    }
  }

  lemma DropClientKeeps(w: World, id: nat)
    requires WorldOk(w)
    ensures WorldOk(w.(client := DropOne(w.client, id)))
  {
    hide WorldOk;
    AttemptFacts(w);
    ClientOnly(w, DropOne(w.client, id));
  }

  lemma CancelKeeps(w: World, d: nat)
    requires WorldOk(w)
    ensures WorldOk(CancelDial(w, d))
  {
    hide WorldOk;
    AttemptFacts(w);
    if d in w.client.dials {
      var e := w.client.(dials := w.client.dials - {d});
      DropAllShape(e, OpenOf(e, d));
      ClientOnly(w, DropAll(e, OpenOf(e, d)));
    }
  }

  predicate Completes(w: World, t: Challenge, binding: nat) {
    && ReadyPacket(t) in w.net && t.Id() in w.client.attempts
    && var a := w.client.attempts[t.Id()];
    && a.binding == binding && a.phase.WaitReady? && a.phase.t == t
  }

  // The table after a READY: the winner has joined, its rivals are gone.
  lemma ReadyShape(w: World, t: Challenge, binding: nat)
    requires Completes(w, t, binding)
    ensures var v, a := ReceiveReady(w, t, binding), w.client.attempts[t.Id()];
      && v.client.nextDial == w.client.nextDial && v.client.dials.Keys == w.client.dials.Keys - {a.dial}
      && t.Id() in v.client.attempts && v.client.attempts[t.Id()] == a.(phase := Joined(t, a.phase.terms))
      && (forall id :: id in v.client.attempts && id != t.Id() ==>
          id in w.client.attempts && v.client.attempts[id] == w.client.attempts[id])
      && (a.dial in w.client.dials ==>
          forall id :: id in v.client.attempts && v.client.attempts[id].dial == a.dial ==> id == t.Id())
      && v == w.(client := v.client, joined := w.joined + {Install(t, a.phase.terms)},
                 winners := w.winners + {Winner(a.dial, t.Id())})
  {
    hide DropAll;
    var a := w.client.attempts[t.Id()];
    var joined := w.client.(
      attempts := w.client.attempts[t.Id() := a.(phase := Joined(t, a.phase.terms))],
      pending := w.client.pending - 1, dials := w.client.dials - {a.dial});
    DropAllShape(joined, Rivals(joined, a.dial, t.Id()));
  }

  lemma ReadyAttempts(w: World, t: Challenge, binding: nat)
    requires AttemptsOk(w) && Completes(w, t, binding)
    ensures AttemptsOk(ReceiveReady(w, t, binding))
  {
    hide Agreed, ReceiveReady;
    var v := ReceiveReady(w, t, binding);
    ReadyShape(w, t, binding);
    assert AttemptOk(w, t.Id());
    forall x | x in v.client.attempts
      ensures AttemptOk(v, x)
    {
      assert AttemptOk(w, if x == t.Id() then t.Id() else x);
    }
  }

  lemma ReadyHistory(w: World, t: Challenge, binding: nat)
    requires HistoryOk(w) && NetOk(w) && AttemptsOk(w) && Completes(w, t, binding)
    ensures HistoryOk(ReceiveReady(w, t, binding))
  {
    hide ReceiveReady, AttemptsOk, NetOk;
    ReadyShape(w, t, binding);
    ReadyInstalls(w, t, binding);
  }

  // What a READY installs at the client is already installed at the listener,
  // and its ID has never been installed here.
  lemma ReadyInstalls(w: World, t: Challenge, binding: nat)
    requires NetOk(w) && AttemptsOk(w) && Completes(w, t, binding)
    ensures Install(t, w.client.attempts[t.Id()].phase.terms) in w.served
    ensures forall x :: x in w.joined ==> x.t.Id() != t.Id()
    ensures w.client.attempts[t.Id()].dial in w.client.dials && w.client.attempts[t.Id()].dial <= w.client.nextDial
  {
    hide Agreed, SelectErr, AcceptErr, ChallengeOk;
    assert AttemptOk(w, t.Id());
  }

  lemma ReadyKeeps(w: World, t: Challenge, binding: nat)
    requires WorldOk(w)
    ensures WorldOk(ReceiveReady(w, t, binding))
  {
    hide AttemptsOk, HistoryOk, ReceiveReady, Agreed, SelectErr, AcceptErr, Narrowed;
    if Completes(w, t, binding) {
      var v := ReceiveReady(w, t, binding);
      ReadyShape(w, t, binding);
      ReadyAttempts(w, t, binding);
      ReadyHistory(w, t, binding);
      ServersStay(w, v);
      ChallengesStay(w, v);
    } else {
      ReadyIgnored(w, t, binding);
    }
  }

  lemma ReadyIgnored(w: World, t: Challenge, binding: nat)
    requires !Completes(w, t, binding)
    ensures ReceiveReady(w, t, binding) == w
  {
  }

  lemma StepKeeps(w: World, s: Step)
    requires WorldOk(w)
    ensures WorldOk(Take(w, s))
  {
    hide WorldOk, BeginDial, StartAttempt, ReceiveHello, ReceiveChallenge, ReceiveFinish, ReceiveReady, DropOne, DropServed,
      CancelDial;
    match s
    case DialStep(carriers, concurrent) => DialKeeps(w, carriers, concurrent);
    case AttemptStep(d, id, nonce, offer, binding) => AttemptKeeps(w, d, id, nonce, offer, binding);
    case HelloStep(h, binding, nonce, token) => HelloKeeps(w, h, binding, nonce, token);
    case ChallengeStep(c, binding) => ChallengeKeeps(w, c, binding);
    case FinishStep(t, binding) => FinishKeeps(w, t, binding);
    case ReadyStep(t, binding) => ReadyKeeps(w, t, binding);
    case DropClientStep(id) => DropClientKeeps(w, id);
    case DropServerStep(id) => DropServedKeeps(w, id);
    case CancelStep(d) => CancelKeeps(w, d);
  }

  lemma {:induction false} EveryRunIsOk(listener: Profile, steps: seq<Step>)
    ensures WorldOk(Run(listener, steps))
  {
    hide WorldOk, Take;
    if steps == [] {
      BeginsOk(listener);
    } else {
      EveryRunIsOk(listener, steps[..|steps| - 1]);
      StepKeeps(Run(listener, steps[..|steps| - 1]), steps[|steps| - 1]);
    }
  }

  lemma BeginsOk(listener: Profile)
    ensures WorldOk(Begin(listener))
  {
  }

  // ---------------------------------------------------------------------------
  // What the invariant says

  lemma RunSnoc(listener: Profile, steps: seq<Step>, s: Step)
    ensures Run(listener, steps + [s]) == Take(Run(listener, steps), s)
  {
    hide Take;
    assert (steps + [s])[..|steps|] == steps;
  }

  lemma {:induction false} ListenerStays(listener: Profile, steps: seq<Step>)
    ensures Run(listener, steps).server.listener == listener
  {
    hide DropAll, AcceptErr, SelectErr, Agreed, Narrowed;
    if steps != [] {
      ListenerStays(listener, steps[..|steps| - 1]);
    }
  }

  /** Agreement: whatever Session a client established, the listener established the
      same one, with the same transcript and so the same keys; its HELLO was the
      client's, and the contract the client accepted is the one the listener selected. */
  lemma JoinAgrees(listener: Profile, steps: seq<Step>, x: Install)
    requires x in Run(listener, steps).joined
    ensures var w := Run(listener, steps);
      && x in w.served && HelloPacket(x.t.hello) in w.net
      && Select(x.t.hello.offer, listener) == Accepted(Selection(x.t.answer, x.terms))
      && Accept(x.t.hello.offer, x.t.answer) == Accepted(x.terms)
  {
    hide Run, AcceptErr, SelectErr, Agreed, Narrowed, AttemptsOk, ServersOk;
    EveryRunIsOk(listener, steps);
    ListenerStays(listener, steps);
    assert ChallengeOk(Run(listener, steps), x.t);
  }

  /** No SessionID is ever established twice, at either end: two installations of
      one ID are one and the same. */
  lemma OneInstallPerId(listener: Profile, steps: seq<Step>, x: Install, y: Install)
    requires x.t.Id() == y.t.Id()
    ensures var w := Run(listener, steps);
      && (x in w.joined && y in w.joined ==> x == y)
      && (x in w.served && y in w.served ==> x == y)
  {
    hide Run, AcceptErr, SelectErr, Agreed, Narrowed, AttemptsOk, ServersOk;
    EveryRunIsOk(listener, steps);
  }

  /** Of all attempts of one dial at most one ever wins. */
  lemma OneWinnerPerDial(listener: Profile, steps: seq<Step>, x: Winner, y: Winner)
    requires x in Run(listener, steps).winners && y in Run(listener, steps).winners && x.dial == y.dial
    ensures x == y
  {
    hide Run, NetOk, AttemptsOk, ServersOk;
    EveryRunIsOk(listener, steps);
  }

  /** In order: when a client establishes a Session, the listener has already
      established it, and the client never had it before. */
  lemma JoinsInOrder(listener: Profile, steps: seq<Step>, s: Step, x: Install)
    requires x in Run(listener, steps + [s]).joined && x !in Run(listener, steps).joined
    ensures var w := Run(listener, steps);
      && x in w.served && s.ReadyStep? && s.t == x.t
      && forall y :: y in w.joined ==> y.t.Id() != x.t.Id()
  {
    hide Run, WorldOk, Take;
    RunSnoc(listener, steps, s);
    EveryRunIsOk(listener, steps);
    JoinStep(Run(listener, steps), s, x);
  }

  lemma JoinStep(w: World, s: Step, x: Install)
    requires WorldOk(w) && x in Take(w, s).joined && x !in w.joined
    ensures x in w.served && s.ReadyStep? && s.t == x.t && forall y :: y in w.joined ==> y.t.Id() != x.t.Id()
  {
    hide DropAll, NetOk, HistoryOk, AttemptsOk, ServersOk;
    if s.ReadyStep? && Completes(w, s.t, s.binding) {
      ReadyInstalls(w, s.t, s.binding);
    }
  }

  /** A FINISH that installs at the listener installs an ID that no FINISH ever
      installed there before, whatever was repeated or has expired meanwhile. */
  lemma ServesOnce(listener: Profile, steps: seq<Step>, t: Challenge, binding: nat)
    requires Finishes(Run(listener, steps), t, binding)
    ensures var w, v := Run(listener, steps), Run(listener, steps + [FinishStep(t, binding)]);
      && (forall y :: y in w.served ==> y.t.Id() != t.Id())
      && v.served == w.served + {Install(t, t.Terms())}
  {
    hide Run, WorldOk, ReceiveFinish;
    RunSnoc(listener, steps, FinishStep(t, binding));
    EveryRunIsOk(listener, steps);
    ServeStep(Run(listener, steps), t, binding);
  }

  lemma ServeStep(w: World, t: Challenge, binding: nat)
    requires WorldOk(w) && Finishes(w, t, binding)
    ensures forall y :: y in w.served ==> y.t.Id() != t.Id()
    ensures ReceiveFinish(w, t, binding).served == w.served + {Install(t, t.Terms())}
  {
    hide AttemptsOk, AcceptErr, SelectErr, Agreed, Narrowed;
    assert ServedOk(w, t.Id());
    forall y | y in w.served
      ensures y.t.Id() != t.Id()
    {
      assert FinishPacket(y.t) in w.net;
    }
  }

  // ---------------------------------------------------------------------------
  // The counters

  function OpenAll(e: Client): set<nat> {
    set id | id in e.attempts && Open(e.attempts[id])
  }

  function OpenServed(s: Server): set<nat> {
    set id | id in s.attempts && s.attempts[id].phase == WaitFinish
  }

  ghost predicate RunningOk(e: Client) {
    forall d :: d in e.dials ==> e.dials[d].running == |OpenOf(e, d)|
  }

  // Each counter is the number of the unestablished attempts it counts.
  ghost predicate CountsOk(w: World) {
    && w.client.pending == |OpenAll(w.client)| && RunningOk(w.client) && w.server.pending == |OpenServed(w.server)|
    && forall d :: d in w.client.dials ==> w.client.dials[d].running <= w.client.dials[d].concurrent
  }

  lemma RemovedOpens(e: Client, f: Client, id: nat)
    requires id in e.attempts && f.attempts == e.attempts - {id}
    ensures |OpenAll(f)| == |OpenAll(e)| - if Open(e.attempts[id]) then 1 else 0
    ensures forall d ::
      |OpenOf(f, d)| == |OpenOf(e, d)| - if Open(e.attempts[id]) && d == e.attempts[id].dial then 1 else 0
  {
    assert OpenAll(f) == OpenAll(e) - {id};
    forall d
      ensures |OpenOf(f, d)| == |OpenOf(e, d)| - if Open(e.attempts[id]) && d == e.attempts[id].dial then 1 else 0
    {
      assert OpenOf(f, d) == OpenOf(e, d) - {id};
    }
  }

  // One attempt leaves the table.
  lemma DropOneCounts(e: Client, id: nat)
    requires e.pending == |OpenAll(e)| && RunningOk(e)
    ensures var f := DropOne(e, id);
      && f.pending == |OpenAll(f)| && RunningOk(f) && f.dials.Keys == e.dials.Keys
      && forall d :: d in f.dials ==> f.dials[d].running <= e.dials[d].running && f.dials[d].concurrent == e.dials[d].concurrent
  {
    hide OpenAll, OpenOf;
    if id in e.attempts {
      RemovedOpens(e, DropOne(e, id), id);
    }
  }

  lemma {:induction false} DropAllCounts(e: Client, ids: set<nat>)
    requires e.pending == |OpenAll(e)| && RunningOk(e)
    ensures var f := DropAll(e, ids);
      && f.pending == |OpenAll(f)| && RunningOk(f) && f.dials.Keys == e.dials.Keys
      && forall d :: d in f.dials ==> f.dials[d].running <= e.dials[d].running && f.dials[d].concurrent == e.dials[d].concurrent
    decreases ids
  {
    hide DropOne, RunningOk, OpenAll;
    if ids != {} {
      var id := PickId(ids);
      DropOneCounts(e, id);
      DropAllCounts(DropOne(e, id), ids - {id});
    }
  }

  // An attempt in the table changes its state: it counts as long as it is open.
  lemma SetCounts(e: Client, id: nat, a: Attempt)
    requires e.pending == |OpenAll(e)| && id in e.attempts && Open(e.attempts[id]) && a.dial == e.attempts[id].dial
    ensures var f := e.(attempts := e.attempts[id := a], pending := e.pending - if Open(a) then 0 else 1);
      && f.pending == |OpenAll(f)|
      && (RunningOk(e) && Open(a) ==> RunningOk(f))
      && (RunningOk(e) ==> RunningOk(f.(dials := e.dials - {a.dial})))
  {
    var f := e.(attempts := e.attempts[id := a], pending := e.pending - if Open(a) then 0 else 1);
    assert OpenAll(f) == if Open(a) then OpenAll(e) else OpenAll(e) - {id};
    forall d | d in e.dials && (Open(a) || d != a.dial)
      ensures OpenOf(f, d) == OpenOf(e, d) && OpenOf(f.(dials := e.dials - {a.dial}), d) == OpenOf(e, d)
    {
    }
  }

  lemma AttemptCounts(w: World, d: nat, id: nat, nonce: nat, offer: Advertisement, binding: nat)
    requires WorldOk(w) && CountsOk(w)
    ensures CountsOk(StartAttempt(w, d, id, nonce, offer, binding))
  {
    hide ValidateAdvertisement, WorldOk, OpenAll, OpenOf, OpenServed;
    if Starts(w, d, id, offer) {
      AttemptsAreKnown(w);
      var e, f := w.client, StartAttempt(w, d, id, nonce, offer, binding).client;
      assert f.attempts - {id} == e.attempts;
      RemovedOpens(f, e, id);
    }
  }

  lemma AttemptsAreKnown(w: World)
    requires WorldOk(w)
    ensures forall id :: id in w.client.attempts ==> id in w.ids
  {
    hide ServersOk, HistoryOk, ChallengeOk, AcceptErr, Agreed;
    forall id | id in w.client.attempts
      ensures id in w.ids
    {
      assert AttemptOk(w, id);
    }
  }

  lemma HelloCounts(w: World, h: Hello, binding: nat, nonce: nat, token: nat)
    requires CountsOk(w)
    ensures CountsOk(ReceiveHello(w, h, binding, nonce, token))
  {
    hide RunningOk, OpenAll, SelectErr, Narrowed, Agreed;
    if Opens(w, h, nonce) {
      var v := ReceiveHello(w, h, binding, nonce, token);
      assert OpenServed(v.server) == OpenServed(w.server) + {h.id};
    }
  }

  lemma FinishCounts(w: World, t: Challenge, binding: nat)
    requires CountsOk(w)
    ensures CountsOk(ReceiveFinish(w, t, binding))
  {
    hide RunningOk, OpenAll;
    if Finishes(w, t, binding) {
      var v := ReceiveFinish(w, t, binding);
      assert OpenServed(v.server) == OpenServed(w.server) - {t.Id()};
    }
  }

  lemma DropServedCounts(w: World, id: nat)
    requires CountsOk(w)
    ensures CountsOk(DropServed(w, id))
  {
    hide RunningOk, OpenAll;
    var v := DropServed(w, id);
    assert OpenServed(v.server) == OpenServed(w.server) - {id};
  }

  lemma ReadyCounts(w: World, t: Challenge, binding: nat)
    requires CountsOk(w)
    ensures CountsOk(ReceiveReady(w, t, binding))
  {
    hide RunningOk, OpenAll, OpenServed, DropAll;
    if Completes(w, t, binding) {
      var a := w.client.attempts[t.Id()];
      var b := a.(phase := Joined(t, a.phase.terms));
      SetCounts(w.client, t.Id(), b);
      var joined := w.client.(attempts := w.client.attempts[t.Id() := b], pending := w.client.pending - 1);
      SameOpen(joined, joined.(dials := w.client.dials - {a.dial}));
      DropAllCounts(joined.(dials := w.client.dials - {a.dial}), Rivals(joined.(dials := w.client.dials - {a.dial}), a.dial, t.Id()));
    }
  }

  // Only the attempts matter for what is open.
  lemma SameOpen(e: Client, f: Client)
    requires e.attempts == f.attempts
    ensures OpenAll(e) == OpenAll(f) && forall d :: OpenOf(e, d) == OpenOf(f, d)
  {
  }

  lemma CancelCounts(w: World, d: nat)
    requires CountsOk(w)
    ensures CountsOk(CancelDial(w, d))
  {
    hide OpenAll, OpenServed, DropAll;
    if d in w.client.dials {
      var e := w.client.(dials := w.client.dials - {d});
      SameOpen(w.client, e);
      DropAllCounts(e, OpenOf(e, d));
    }
  }

  lemma ChallengeCounts(w: World, c: Challenge, binding: nat)
    requires CountsOk(w)
    ensures CountsOk(ReceiveChallenge(w, c, binding))
  {
    hide RunningOk, OpenAll, OpenServed, AcceptErr, Agreed;
    if Expects(w, c, binding) {
      SetCounts(w.client, c.Id(), ReceiveChallenge(w, c, binding).client.attempts[c.Id()]);
    }
  }

  lemma DialCounts(w: World, carriers: nat, concurrent: nat)
    requires WorldOk(w) && CountsOk(w)
    ensures CountsOk(BeginDial(w, carriers, concurrent))
  {
    hide NetOk, ServersOk;
    var d := w.client.nextDial + 1;
    var v := BeginDial(w, carriers, concurrent);
    if v != w {
      SameOpen(w.client, v.client);
      AttemptFacts(w);
      assert forall id :: id in w.client.attempts && Open(w.client.attempts[id]) ==> w.client.attempts[id].dial != d;
      assert OpenOf(v.client, d) == {};
    }
  }

  lemma StepCounts(w: World, s: Step)
    requires WorldOk(w) && CountsOk(w)
    ensures CountsOk(Take(w, s))
  {
    hide WorldOk, BeginDial, StartAttempt, ReceiveHello, ReceiveChallenge, ReceiveFinish, ReceiveReady, DropOne, DropServed,
      CancelDial, RunningOk, OpenAll, OpenServed;
    match s
    case DialStep(carriers, concurrent) => DialCounts(w, carriers, concurrent);
    case AttemptStep(d, id, nonce, offer, binding) => AttemptCounts(w, d, id, nonce, offer, binding);
    case HelloStep(h, binding, nonce, token) => HelloCounts(w, h, binding, nonce, token);
    case ChallengeStep(c, binding) => ChallengeCounts(w, c, binding);
    case FinishStep(t, binding) => FinishCounts(w, t, binding);
    case ReadyStep(t, binding) => ReadyCounts(w, t, binding);
    case DropClientStep(id) => DropOneCounts(w.client, id);
    case DropServerStep(id) => DropServedCounts(w, id);
    case CancelStep(d) => CancelCounts(w, d);
  }

  /** After every run `pending` of both engines and `running` of each dial are
      exactly the numbers of unestablished attempts they count, and no dial runs more
      attempts at once than it was asked to. */
  lemma {:induction false} EveryRunCounts(listener: Profile, steps: seq<Step>)
    ensures CountsOk(Run(listener, steps))
  {
    hide CountsOk, WorldOk, Take;
    if steps == [] {
      BeginCounts(listener);
    } else {
      var before := Run(listener, steps[..|steps| - 1]);
      EveryRunIsOk(listener, steps[..|steps| - 1]);
      EveryRunCounts(listener, steps[..|steps| - 1]);
      StepCounts(before, steps[|steps| - 1]);
    }
  }

  lemma BeginCounts(listener: Profile)
    ensures CountsOk(Begin(listener))
  {
  }

  // ---------------------------------------------------------------------------
  // An exchange that nothing disturbs

  lemma IdsAreKnown(w: World)
    requires WorldOk(w)
    ensures w.client.attempts.Keys <= w.ids && w.server.attempts.Keys <= w.ids
  {
    hide ValidateAdvertisement, SelectErr, AcceptErr, Agreed, Narrowed, HistoryOk;
    forall id | id in w.client.attempts
      ensures id in w.ids
    {
      assert AttemptOk(w, id);
    }
    forall id | id in w.server.attempts
      ensures id in w.ids
    {
      assert ServedOk(w, id);
    }
  }

  // HELLO and CHALLENGE: both ends know the attempt and wait.
  lemma HelloIsAnswered(w: World, d: nat, h: Hello, here: nat, there: nat, serverNonce: nat, token: nat)
    requires WorldOk(w) && h.id !in w.ids && serverNonce !in w.nonces
    requires d in w.client.dials && w.client.dials[d].running < w.client.dials[d].concurrent
    requires w.client.dials[d].next < w.client.dials[d].carriers
    requires ValidateAdvertisement(h.offer) == NoErr && Select(h.offer, w.server.listener).Accepted?
    ensures var s := Select(h.offer, w.server.listener).value;
      var c := Challenge(h, serverNonce, token, s.challenge);
      var v := ReceiveHello(StartAttempt(w, d, h.id, h.nonce, h.offer, here), h, there, serverNonce, token);
      && h.id in v.client.attempts && v.client.attempts[h.id] == Attempt(h, here, d, WaitChallenge)
      && h.id in v.server.attempts && v.server.attempts[h.id] == Served(c, s.contract, there, WaitFinish)
      && ChallengePacket(c) in v.net && d in v.client.dials
  {
    hide ValidateAdvertisement, Select, WorldOk;
    IdsAreKnown(w);
  }

  /** Whatever else is under way, one more attempt whose four packets arrive joins both
      ends on the contract that Select answers, and wins its dial. */
  lemma UndisturbedJoins(w: World, d: nat, h: Hello, here: nat, there: nat, serverNonce: nat, token: nat)
    requires WorldOk(w) && h.id !in w.ids && serverNonce !in w.nonces
    requires d in w.client.dials && w.client.dials[d].running < w.client.dials[d].concurrent
    requires w.client.dials[d].next < w.client.dials[d].carriers
    requires ValidateAdvertisement(h.offer) == NoErr && Select(h.offer, w.server.listener).Accepted?
    ensures var s := Select(h.offer, w.server.listener).value;
      var c := Challenge(h, serverNonce, token, s.challenge);
      var asked := ReceiveHello(StartAttempt(w, d, h.id, h.nonce, h.offer, here), h, there, serverNonce, token);
      var finished := ReceiveFinish(ReceiveChallenge(asked, c, here), c, there);
      var done := ReceiveReady(finished, c, here);
      && Install(c, s.contract) in done.served && Install(c, s.contract) in done.joined
      && Winner(d, h.id) in done.winners && d !in done.client.dials
  {
    hide ValidateAdvertisement, Select, WorldOk, Accept, DropAll, Rivals;
    HelloIsAnswered(w, d, h, here, there, serverNonce, token);
    AcceptAgreesWithSelect(h.offer, w.server.listener);
    var s := Select(h.offer, w.server.listener).value;
    var c := Challenge(h, serverNonce, token, s.challenge);
    var asked := ReceiveHello(StartAttempt(w, d, h.id, h.nonce, h.offer, here), h, there, serverNonce, token);
    var finished := ReceiveFinish(ReceiveChallenge(asked, c, here), c, there);
    assert finished.client.attempts[h.id] == Attempt(h, here, d, WaitReady(c, s.contract));
    assert ReadyPacket(c) in finished.net && Install(c, s.contract) in finished.served;
    var joined := finished.client.(
      attempts := finished.client.attempts[h.id := finished.client.attempts[h.id].(phase := Joined(c, s.contract))],
      pending := finished.client.pending - 1, dials := finished.client.dials - {d});
    DropAllDials(joined, Rivals(joined, d, h.id), d);
  }

  lemma {:induction false} DropAllDials(e: Client, ids: set<nat>, d: nat)
    requires d !in e.dials
    ensures d !in DropAll(e, ids).dials
    decreases ids
  {
    if ids != {} {
      DropAllDials(DropOne(e, PickId(ids)), ids - {PickId(ids)}, d);
    }
  }
}
