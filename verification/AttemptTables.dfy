// internal/handshakev2: the tables of the engine, its attempts, dials and
// preparations, and how they refer to one another.
module AttemptTables {
  import opened CreditLedger
  import opened CreditHolders
  import opened HandshakeCredits
  import E = HandshakeEngine

  // Dial 0 stands for an attempt of the listener, preparation 0 for none. `disposer`: a
  // deferred installer has returned one for it.
  datatype Attempt = Attempt(established: bool, dial: nat, preparation: Handle, disposer: bool) {
    // Whether its storage waits for a release function; a preparation has a disposer
    // of its own.
    predicate Waits() {
      preparation != 0 || disposer
    }
  }

  datatype Phase = Waiting | Adopted(dial: nat) | Aborted

  datatype Dial = Dial(
    carriers: nat, concurrent: nat, deadline: E.Option<int>, next: nat, running: int, preparation: Handle,
    receive: Claim, initial: seq<Claim>)
  {
    predicate Expired(now: int) {
      deadline.Some? && now >= deadline.value
    }

    // All that does not change while the dial lasts.
    predicate SameAs(d: Dial) {
      this == d.(next := next, running := running)
    }
  }

  // The fields of the engine that its bookkeeping is about; `held` are the holders.
  datatype Tables = Tables(
    sessions: map<nat, Attempt>, dials: map<nat, Dial>, prepared: map<Handle, Phase>, held: set<Holder>,
    pending: int, nextDial: nat)

  function HolderOf(id: nat, a: Attempt): Holder {
    if a.preparation == 0 then ByAttempt(id) else ByPreparation(a.preparation)
  }

  function OpenIds(m: map<nat, Attempt>): set<nat> {
    set id | id in m && !m[id].established
  }

  function OpenOf(m: map<nat, Attempt>, d: nat): set<nat> {
    set id | id in m && !m[id].established && m[id].dial == d
  }

  // The attempts that run on a preparation.
  function RunsOf(m: map<nat, Attempt>, p: Handle): set<nat> {
    set id | id in m && m[id].preparation == p
  }

  predicate Counted(t: Tables) {
    t.pending == |OpenIds(t.sessions)| && forall d :: d in t.dials ==> t.dials[d].running == |OpenOf(t.sessions, d)|
  }

  ghost predicate AttemptsLinked(t: Tables) {
    && (forall id :: id in t.sessions && t.sessions[id].preparation == 0 ==> ByAttempt(id) in t.held)
    && (forall id :: ByAttempt(id) in t.held ==> id in t.sessions && t.sessions[id].preparation == 0)
    && (forall id :: id in t.sessions ==> AttemptLinked(t, t.sessions[id]))
    && (forall i, j :: i in t.sessions && j in t.sessions && i != j && t.sessions[i].preparation != 0 ==>
        t.sessions[i].preparation != t.sessions[j].preparation)
  }

  predicate AttemptLinked(t: Tables, a: Attempt) {
    && a.dial <= t.nextDial
    && (a.preparation != 0 ==>
        && !a.established && a.dial != 0 && a.preparation in t.prepared && t.prepared[a.preparation] == Adopted(a.dial)
        && ByPreparation(a.preparation) in t.held)
    && (!a.established && a.dial in t.dials ==> a.preparation == t.dials[a.dial].preparation)
  }

  predicate DialLinked(t: Tables, d: nat)
    requires d in t.dials
  {
    && 0 < d <= t.nextDial && t.dials[d].concurrent > 0
    && (t.dials[d].preparation != 0 ==>
        && t.dials[d].concurrent == 1 && t.dials[d].preparation in t.prepared
        && t.prepared[t.dials[d].preparation] == Adopted(d))
  }

  predicate PhaseLinked(t: Tables, p: Handle)
    requires p in t.prepared
  {
    && p != 0 && (t.prepared[p] == Waiting ==> ByPreparation(p) in t.held)
    && (t.prepared[p] == Aborted ==> ByPreparation(p) !in t.held)
    && (t.prepared[p].Adopted? ==>
        && t.prepared[p].dial <= t.nextDial
        && (t.prepared[p].dial in t.dials ==> t.dials[t.prepared[p].dial].preparation == p)
        && (ByPreparation(p) in t.held ==> t.prepared[p].dial in t.dials || RunsOf(t.sessions, p) != {}))
  }

  ghost predicate DialsLinked(t: Tables) {
    forall d :: d in t.dials ==> DialLinked(t, d)
  }

  ghost predicate PhasesLinked(t: Tables) {
    && (forall p :: p in t.prepared ==> PhaseLinked(t, p))
    && (forall p :: ByPreparation(p) in t.held ==> p in t.prepared)
  }

  function WaitingOf(prepared: map<Handle, Phase>): set<Handle> {
    set p | p in prepared && prepared[p] == Waiting
  }

  // The attempts that run on preparations.
  function Carried(m: map<nat, Attempt>): set<nat> {
    set id | id in m && m[id].preparation != 0
  }

  // Snapshot.Pending and Snapshot.Prepared.
  function Load(t: Tables): int {
    t.pending + |WaitingOf(t.prepared)|
  }

  // Ordinary attempts and waiting preparations stay within the limit; each preparation
  // that carries an attempt may add one.
  predicate Limited(t: Tables) {
    Load(t) <= MAX_PENDING + |Carried(t.sessions)|
  }

  // reserve admits one more.
  predicate Room(t: Tables) {
    Load(t) < MAX_PENDING
  }

  // Every unestablished attempt is counted, and what a preparation holds is held
  // until it is adopted, by its dial and then for its one running attempt.
  ghost predicate Linked(t: Tables) {
    Counted(t) && AttemptsLinked(t) && DialsLinked(t) && PhasesLinked(t) && Limited(t)
  }

  lemma RemoveCounts(m: map<nat, Attempt>, id: nat)
    requires id in m
    ensures |OpenIds(m - {id})| == |OpenIds(m)| - if m[id].established then 0 else 1
    ensures forall d :: |OpenOf(m - {id}, d)| == |OpenOf(m, d)| - if !m[id].established && m[id].dial == d then 1 else 0
  {
    assert OpenIds(m - {id}) == OpenIds(m) - {id};
    forall d
      ensures |OpenOf(m - {id}, d)| == |OpenOf(m, d)| - if !m[id].established && m[id].dial == d then 1 else 0
    {
      assert OpenOf(m - {id}, d) == OpenOf(m, d) - {id};
    }
  }

  function Rerun(dials: map<nat, Dial>, d: nat, more: int): map<nat, Dial> {
    if d in dials then dials[d := dials[d].(running := dials[d].running + more)] else dials
  }

  // An attempt leaves the table. When it is disposed of, its holder is settled
  // elsewhere; otherwise its preparation waits for the next attempt of the dial.
  function Removed(t: Tables, id: nat, disposed: bool): Tables
    requires id in t.sessions
  {
    var a := t.sessions[id];
    var dials := if a.established then t.dials else Rerun(t.dials, a.dial, -1);
    t.(sessions := t.sessions - {id}, pending := t.pending - if a.established then 0 else 1,
       dials := if disposed && a.preparation != 0 then dials - {a.dial} else dials,
       held := if !disposed then t.held
         else t.held - {HolderOf(id, a)})
  }

  lemma RemovedLinked(t: Tables, id: nat, disposed: bool)
    requires Linked(t) && id in t.sessions
    requires !disposed ==> t.sessions[id].preparation != 0 && t.sessions[id].dial in t.dials
    ensures Linked(Removed(t, id, disposed))
  {
    hide Counted, AttemptsLinked, DialsLinked, PhasesLinked, Limited, Removed;
    RemovedCounts(t, id, disposed);
    RemovedAttempts(t, id, disposed);
    RemovedDials(t, id, disposed);
    RemovedPhases(t, id, disposed);
    RemovedLimited(t, id, disposed);
  }

  lemma RemovedLimited(t: Tables, id: nat, disposed: bool)
    requires AttemptsLinked(t) && Limited(t) && id in t.sessions
    ensures Limited(Removed(t, id, disposed))
  {
    hide AttemptsLinked, WaitingOf;
    AttemptFacts(t, id);
    assert Carried(t.sessions - {id}) == Carried(t.sessions) - {id};
  }

  lemma RemovedCounts(t: Tables, id: nat, disposed: bool)
    requires Counted(t) && id in t.sessions
    ensures Counted(Removed(t, id, disposed))
  {
    hide OpenIds, OpenOf;
    RemoveCounts(t.sessions, id);
  }

  lemma RemovedAttempts(t: Tables, id: nat, disposed: bool)
    requires AttemptsLinked(t) && id in t.sessions && (!disposed ==> t.sessions[id].preparation != 0)
    ensures AttemptsLinked(Removed(t, id, disposed))
  {
  }

  lemma RemovedDials(t: Tables, id: nat, disposed: bool)
    requires DialsLinked(t) && id in t.sessions
    ensures DialsLinked(Removed(t, id, disposed))
  {
  }

  lemma RemovedPhases(t: Tables, id: nat, disposed: bool)
    requires AttemptsLinked(t) && PhasesLinked(t) && id in t.sessions
    requires !disposed ==> t.sessions[id].preparation != 0 && t.sessions[id].dial in t.dials
    ensures PhasesLinked(Removed(t, id, disposed))
  {
    hide AttemptsLinked, RunsOf;
    assert AttemptLinked(t, t.sessions[id]) by {
      AttemptFacts(t, id);
    }
    RunsWithout(t.sessions, id);
  }

  lemma AttemptFacts(t: Tables, id: nat)
    requires AttemptsLinked(t) && id in t.sessions
    ensures AttemptLinked(t, t.sessions[id])
  {
  }

  lemma RunsWithout(m: map<nat, Attempt>, id: nat)
    requires id in m
    ensures forall p :: p != m[id].preparation ==> RunsOf(m - {id}, p) == RunsOf(m, p)
  {
  }

  // A new attempt enters it.
  function Added(t: Tables, id: nat, a: Attempt): Tables
    requires id !in t.sessions && !a.established
  {
    t.(sessions := t.sessions[id := a], pending := t.pending + 1, dials := Rerun(t.dials, a.dial, 1),
       held := if a.preparation == 0 then t.held + {ByAttempt(id)} else t.held)
  }

  // The attempt may start: at most one at a time runs on a preparation.
  predicate Startable(t: Tables, a: Attempt) {
    && !a.established && a.dial <= t.nextDial
    && (a.dial in t.dials ==> a.preparation == t.dials[a.dial].preparation)
    && (a.preparation != 0 ==>
        a.dial in t.dials && ByPreparation(a.preparation) in t.held && t.dials[a.dial].running == 0)
    && (a.preparation == 0 ==> Room(t))
  }

  lemma AddedLinked(t: Tables, id: nat, a: Attempt)
    requires Linked(t) && id !in t.sessions && Startable(t, a)
    ensures Linked(Added(t, id, a))
  {
    hide Counted, AttemptsLinked, DialsLinked, PhasesLinked, Limited, Added;
    AddedCounts(t, id, a);
    AddedAttempts(t, id, a);
    AddedDials(t, id, a);
    AddedPhases(t, id, a);
    AddedLimited(t, id, a);
  }

  lemma AddedLimited(t: Tables, id: nat, a: Attempt)
    requires Limited(t) && id !in t.sessions && !a.established && (a.preparation == 0 ==> Room(t))
    ensures Limited(Added(t, id, a)) && Load(Added(t, id, a)) == Load(t) + 1
  {
    hide WaitingOf, Rerun;
    assert Carried(t.sessions[id := a]) == Carried(t.sessions) + if a.preparation == 0 then {} else {id};
  }

  /** One started attempt takes the sum of attempts and preparations beyond the limit
      exactly when it runs on a preparation and somebody else was admitted to the place
      that its predecessor left: reserve alone looks at the limit. */
  lemma LimitIsExceeded(t: Tables, id: nat, a: Attempt)
    requires Linked(t) && id !in t.sessions && Startable(t, a) && Load(t) <= MAX_PENDING
    ensures Load(Added(t, id, a)) > MAX_PENDING <==> a.preparation != 0 && Load(t) == MAX_PENDING
  {
    hide Counted, AttemptsLinked, DialsLinked, PhasesLinked, Added, Load, WaitingOf;
    AddedLimited(t, id, a);
  }

  lemma AddedCounts(t: Tables, id: nat, a: Attempt)
    requires Counted(t) && id !in t.sessions && !a.established
    ensures Counted(Added(t, id, a))
  {
    hide OpenIds, OpenOf;
    RemoveCounts(t.sessions[id := a], id);
    assert t.sessions[id := a] - {id} == t.sessions;
  }

  lemma AddedAttempts(t: Tables, id: nat, a: Attempt)
    requires Counted(t) && AttemptsLinked(t) && DialsLinked(t) && id !in t.sessions && Startable(t, a)
    ensures AttemptsLinked(Added(t, id, a))
  {
    hide Counted, OpenOf, OpenIds, DialsLinked, Room, WaitingOf;
    if a.preparation != 0 {
      RunsAlone(t, a);
    }
    DialsAreNumbered(t);
  }

  lemma DialsAreNumbered(t: Tables)
    requires DialsLinked(t)
    ensures 0 !in t.dials && forall d :: d in t.dials && t.dials[d].preparation != 0 ==>
      t.dials[d].preparation in t.prepared && t.prepared[t.dials[d].preparation] == Adopted(d)
  {
    assert forall d :: d in t.dials ==> DialLinked(t, d);
  }

  lemma RunsAlone(t: Tables, a: Attempt)
    requires Counted(t) && AttemptsLinked(t) && DialsLinked(t) && Startable(t, a) && a.preparation != 0
    ensures forall i :: i in t.sessions ==> t.sessions[i].preparation != a.preparation
  {
    hide OpenIds;
    assert OpenOf(t.sessions, a.dial) == {};
    assert DialLinked(t, a.dial);
    assert forall i :: i in t.sessions && t.sessions[i].preparation == a.preparation ==> i in OpenOf(t.sessions, a.dial);
  }

  lemma AddedDials(t: Tables, id: nat, a: Attempt)
    requires DialsLinked(t) && id !in t.sessions && !a.established
    ensures DialsLinked(Added(t, id, a))
  {
  }

  lemma AddedPhases(t: Tables, id: nat, a: Attempt)
    requires PhasesLinked(t) && id !in t.sessions && !a.established
    ensures PhasesLinked(Added(t, id, a))
  {
    hide RunsOf;
    RunsGrow(t.sessions, id, a);
  }

  lemma RunsGrow(m: map<nat, Attempt>, id: nat, a: Attempt)
    requires id !in m
    ensures forall p :: RunsOf(m, p) != {} ==> RunsOf(m[id := a], p) != {}
  {
    assert forall p, i :: i in RunsOf(m, p) ==> i in RunsOf(m[id := a], p);
  }

  /** No other step takes the sum further: attempts that end or are installed, dials that
      begin and preparations that are given up lower it or leave it, and a new
      preparation needs room. */
  lemma OthersKeepTheLimit(t: Tables, id: nat, disposed: bool, dial: Dial, p: Handle, phase: Phase)
    requires Linked(t)
    ensures id in t.sessions ==> Load(Removed(t, id, disposed)) <= Load(t) && Load(Installed(t, id)) <= Load(t)
    ensures Load(Begun(t, dial)) <= Load(t)
    ensures phase != Waiting ==> Load(t.(prepared := t.prepared[p := phase], held := t.held - {ByPreparation(p)})) <= Load(t)
    ensures p !in t.prepared ==> Load(t.(prepared := t.prepared[p := Waiting], held := t.held + {ByPreparation(p)})) == Load(t) + 1
  {
    hide Linked, WaitingOf;
    FewerWait(t.prepared, dial.preparation, Adopted(t.nextDial + 1));
    if phase != Waiting {
      FewerWait(t.prepared, p, phase);
    }
    if p !in t.prepared {
      WaitsMore(t.prepared, p);
    }
  }

  // An attempt is installed: its dial is over, and what its preparation held is
  // its own from now on.
  function Installed(t: Tables, id: nat): Tables
    requires id in t.sessions
  {
    var a := t.sessions[id];
    t.(sessions := t.sessions[id := a.(established := true, preparation := 0)], pending := t.pending - 1,
       dials := t.dials - {a.dial}, held := t.held - {ByPreparation(a.preparation)} + {ByAttempt(id)})
  }

  lemma InstalledLinked(t: Tables, id: nat)
    requires Linked(t) && id in t.sessions && !t.sessions[id].established
    ensures Linked(Installed(t, id))
  {
    hide Counted, AttemptsLinked, DialsLinked, PhasesLinked, Limited, Installed;
    InstalledCounts(t, id);
    InstalledAttempts(t, id);
    InstalledDials(t, id);
    InstalledPhases(t, id);
    InstalledLimited(t, id);
  }

  lemma InstalledLimited(t: Tables, id: nat)
    requires Limited(t) && id in t.sessions
    ensures Limited(Installed(t, id))
  {
    hide WaitingOf;
    var m := Installed(t, id).sessions;
    assert Carried(m) == Carried(t.sessions) - {id};
  }

  lemma InstalledCounts(t: Tables, id: nat)
    requires Counted(t) && id in t.sessions && !t.sessions[id].established
    ensures Counted(Installed(t, id))
  {
    var m := Installed(t, id).sessions;
    RemoveCounts(t.sessions, id);
    RemoveCounts(m, id);
    assert m - {id} == t.sessions - {id};
  }

  lemma InstalledAttempts(t: Tables, id: nat)
    requires AttemptsLinked(t) && id in t.sessions
    ensures AttemptsLinked(Installed(t, id))
  {
  }

  lemma InstalledDials(t: Tables, id: nat)
    requires DialsLinked(t) && id in t.sessions
    ensures DialsLinked(Installed(t, id))
  {
  }

  lemma InstalledPhases(t: Tables, id: nat)
    requires AttemptsLinked(t) && PhasesLinked(t) && id in t.sessions && !t.sessions[id].established
    ensures PhasesLinked(Installed(t, id))
  {
    hide AttemptsLinked, RunsOf;
    assert 0 !in t.prepared;
    AttemptFacts(t, id);
    var n := Installed(t, id);
    RunsWithout(t.sessions, id);
    RunsWithout(n.sessions, id);
    assert n.sessions - {id} == t.sessions - {id};
    forall p | p in t.prepared
      ensures PhaseLinked(n, p)
    {
      assert PhaseLinked(t, p);
    }
  }

  // A dial ends, and with it what its preparation still holds.
  lemma DialDropped(t: Tables, d: nat)
    requires Linked(t) && d in t.dials
    requires ByPreparation(t.dials[d].preparation) in t.held ==> RunsOf(t.sessions, t.dials[d].preparation) == {}
    ensures Linked(t.(dials := t.dials - {d}, held := t.held - {ByPreparation(t.dials[d].preparation)}))
  {
    hide RunsOf, OpenOf, OpenIds;
    NobodyRuns(t, t.dials[d].preparation);
  }

  lemma NobodyRuns(t: Tables, p: Handle)
    ensures RunsOf(t.sessions, p) == {} <==> forall id :: id in t.sessions ==> t.sessions[id].preparation != p
  {
    assert forall id :: id in t.sessions && t.sessions[id].preparation == p ==> id in RunsOf(t.sessions, p);
  }

  // Dials end whose attempts still run.
  lemma DialsCancelled(t: Tables, gone: set<nat>)
    requires Linked(t) && forall d :: d in gone && d in t.dials ==> t.dials[d].running > 0
    ensures Linked(t.(dials := t.dials - gone))
  {
    hide RunsOf, OpenIds;
    forall d | d in gone && d in t.dials && ByPreparation(t.dials[d].preparation) in t.held
      ensures RunsOf(t.sessions, t.dials[d].preparation) != {}
    {
      assert OpenOf(t.sessions, d) != {};
      var id :| id in OpenOf(t.sessions, d);
      assert AttemptLinked(t, t.sessions[id]);
      NobodyRuns(t, t.dials[d].preparation);
    }
    hide OpenOf;
  }

  // A dial begins, on a waiting preparation or on none.
  function Begun(t: Tables, dial: Dial): Tables {
    var d := t.nextDial + 1;
    t.(nextDial := d, dials := t.dials[d := dial],
       prepared := if dial.preparation == 0 then t.prepared else t.prepared[dial.preparation := Adopted(d)])
  }

  lemma BegunLinked(t: Tables, dial: Dial)
    requires Linked(t) && dial.running == 0 && dial.concurrent > 0
    requires dial.preparation != 0 ==>
      dial.concurrent == 1 && dial.preparation in t.prepared && t.prepared[dial.preparation] == Waiting
    ensures Linked(Begun(t, dial))
  {
    hide Counted, AttemptsLinked, DialsLinked, PhasesLinked, Limited, Begun;
    BegunCounts(t, dial);
    BegunAttempts(t, dial);
    BegunPhases(t, dial);
    BegunLimited(t, dial);
  }

  lemma BegunLimited(t: Tables, dial: Dial)
    requires Limited(t)
    ensures Limited(Begun(t, dial))
  {
    hide Carried;
    FewerWait(t.prepared, dial.preparation, Adopted(t.nextDial + 1));
  }

  lemma FewerWait(prepared: map<Handle, Phase>, p: Handle, phase: Phase)
    requires phase != Waiting
    ensures |WaitingOf(prepared[p := phase])| <= |WaitingOf(prepared)|
  {
    assert WaitingOf(prepared[p := phase]) == WaitingOf(prepared) - {p};
  }

  lemma BegunCounts(t: Tables, dial: Dial)
    requires Counted(t) && AttemptsLinked(t) && dial.running == 0
    ensures Counted(Begun(t, dial))
  {
    hide OpenIds;
    assert OpenOf(t.sessions, t.nextDial + 1) == {} by {
      assert forall id :: id in t.sessions ==> AttemptLinked(t, t.sessions[id]);
    }
  }

  lemma BegunAttempts(t: Tables, dial: Dial)
    requires AttemptsLinked(t) && (dial.preparation != 0 ==> dial.preparation in t.prepared)
    requires dial.preparation != 0 ==> t.prepared[dial.preparation] == Waiting
    ensures AttemptsLinked(Begun(t, dial))
  {
    assert forall id :: id in t.sessions ==> AttemptLinked(t, t.sessions[id]);
  }

  lemma BegunPhases(t: Tables, dial: Dial)
    requires DialsLinked(t) && PhasesLinked(t) && dial.concurrent > 0
    requires dial.preparation != 0 ==>
      dial.concurrent == 1 && dial.preparation in t.prepared && t.prepared[dial.preparation] == Waiting
    ensures DialsLinked(Begun(t, dial)) && PhasesLinked(Begun(t, dial))
  {
    hide RunsOf;
    assert forall d :: d in t.dials ==> DialLinked(t, d);
  }

  lemma WaitingAdded(t: Tables, p: Handle)
    requires Linked(t) && p != 0 && p !in t.prepared && Room(t)
    ensures Linked(t.(prepared := t.prepared[p := Waiting], held := t.held + {ByPreparation(p)}))
  {
    hide OpenIds, OpenOf, RunsOf, Limited;
    OneWaitsMore(t, p);
  }

  lemma OneWaitsMore(t: Tables, p: Handle)
    requires p !in t.prepared && Room(t)
    ensures Limited(t.(prepared := t.prepared[p := Waiting], held := t.held + {ByPreparation(p)}))
  {
    hide Carried;
    WaitsMore(t.prepared, p);
  }

  lemma WaitsMore(prepared: map<Handle, Phase>, p: Handle)
    requires p !in prepared
    ensures WaitingOf(prepared[p := Waiting]) == WaitingOf(prepared) + {p} && p !in WaitingOf(prepared)
  {
  }

  // A waiting preparation is given up: aborted, or adopted without a dial.
  lemma WaitingRetired(t: Tables, p: Handle, phase: Phase)
    requires Linked(t) && p in t.prepared && t.prepared[p] == Waiting && (phase == Aborted || phase == Adopted(0))
    ensures Linked(t.(prepared := t.prepared[p := phase], held := t.held - {ByPreparation(p)}))
  {
    hide OpenIds, OpenOf, RunsOf, WaitingOf, Carried;
    FewerWait(t.prepared, p, phase);
  }

  // The carrier a dial tries next is no concern of the tables, nor are storages.
  lemma NextIgnored(t: Tables, d: nat, next: nat)
    requires Linked(t) && d in t.dials
    ensures Linked(t.(dials := t.dials[d := t.dials[d].(next := next)]))
  {
    hide OpenIds, OpenOf, RunsOf;
  }

  lemma StoragesIgnored(t: Tables, held: set<Holder>)
    requires Linked(t) && forall a: Holder :: !a.ByStorage? ==> (a in held <==> a in t.held)
    ensures Linked(t.(held := held))
  {
    hide OpenIds, OpenOf, RunsOf;
  }

  // Nor is it a concern of theirs which attempts have a disposer.
  function Relabelled(t: Tables, id: nat, disposer: bool): Tables
    requires id in t.sessions
  {
    t.(sessions := t.sessions[id := t.sessions[id].(disposer := disposer)])
  }

  lemma DisposerIgnored(t: Tables, id: nat, disposer: bool)
    requires Linked(t) && id in t.sessions
    ensures Linked(Relabelled(t, id, disposer))
  {
    hide Counted, AttemptsLinked, DialsLinked, PhasesLinked, Limited, Relabelled;
    RelabelledSets(t, id, disposer);
    RelabelledCounts(t, id, disposer);
    RelabelledAttempts(t, id, disposer);
    RelabelledPhases(t, id, disposer);
    RelabelledLimited(t, id, disposer);
  }

  lemma RelabelledLimited(t: Tables, id: nat, disposer: bool)
    requires Limited(t) && id in t.sessions
    ensures Limited(Relabelled(t, id, disposer))
  {
    assert Carried(Relabelled(t, id, disposer).sessions) == Carried(t.sessions);
  }

  lemma RelabelledSets(t: Tables, id: nat, disposer: bool)
    requires id in t.sessions
    ensures var n := Relabelled(t, id, disposer);
      && n == t.(sessions := n.sessions) && OpenIds(n.sessions) == OpenIds(t.sessions)
      && (forall d :: OpenOf(n.sessions, d) == OpenOf(t.sessions, d))
      && (forall p :: RunsOf(n.sessions, p) == RunsOf(t.sessions, p))
  {
  }

  lemma RelabelledCounts(t: Tables, id: nat, disposer: bool)
    requires Counted(t) && id in t.sessions
    ensures Counted(Relabelled(t, id, disposer))
  {
    hide OpenIds, OpenOf, Relabelled;
    RelabelledSets(t, id, disposer);
  }

  lemma RelabelledAttempts(t: Tables, id: nat, disposer: bool)
    requires AttemptsLinked(t) && id in t.sessions
    ensures AttemptsLinked(Relabelled(t, id, disposer))
  {
  }

  lemma RelabelledPhases(t: Tables, id: nat, disposer: bool)
    requires DialsLinked(t) && PhasesLinked(t) && id in t.sessions
    ensures DialsLinked(Relabelled(t, id, disposer)) && PhasesLinked(Relabelled(t, id, disposer))
  {
    hide RunsOf, Relabelled;
    RelabelledSets(t, id, disposer);
    var n := Relabelled(t, id, disposer);
    assert forall p :: p in t.prepared ==> PhaseLinked(t, p) && PhaseLinked(n, p);
    assert forall d :: d in t.dials ==> DialLinked(t, d) && DialLinked(n, d);
  }

  // What filling the dials does to the table: attempts of these dials come in.
  predicate Extended(m: map<nat, Attempt>, n: map<nat, Attempt>, dials: set<nat>) {
    && (forall id :: id in m ==> id in n && n[id] == m[id])
    && (forall id :: id in n && id !in m ==> !n[id].established && !n[id].disposer && n[id].dial in dials)
  }

  lemma ExtendedTwice(m: map<nat, Attempt>, n: map<nat, Attempt>, o: map<nat, Attempt>, d: nat)
    requires Extended(m, n, {d}) && Extended(n, o, {d})
    ensures Extended(m, o, {d})
  {
  }

  lemma ExtendedNot(m: map<nat, Attempt>, d: nat)
    ensures Extended(m, m, {d})
  {
  }

  lemma RunningIsCount(t: Tables)
    requires Linked(t)
    ensures forall d :: d in t.dials ==> t.dials[d].running >= 0 && t.dials[d].concurrent > 0
  {
    hide OpenIds, OpenOf, AttemptsLinked, PhasesLinked;
    assert forall d :: d in t.dials ==> DialLinked(t, d);
  }

  lemma PendingCounts(t: Tables)
    requires Linked(t)
    ensures t.pending == |OpenIds(t.sessions)| && 0 !in t.prepared
  {
    hide AttemptsLinked, DialsLinked;
  }

  // Nobody runs yet on the preparation of a dial that may start an attempt.
  lemma NobodyRunsYet(t: Tables, d: nat)
    requires Linked(t) && d in t.dials && t.dials[d].running < t.dials[d].concurrent
    ensures t.pending >= 0 && t.dials[d].running >= 0 && ByPreparation(0) !in t.held
    ensures var p := t.dials[d].preparation;
      p != 0 ==> t.dials[d].running == 0 && RunsOf(t.sessions, p) == {} && p in t.prepared
  {
    hide OpenIds;
    var p := t.dials[d].preparation;
    assert DialLinked(t, d);
    if p != 0 {
      assert |OpenOf(t.sessions, d)| == 0;
      forall id | id in t.sessions
        ensures t.sessions[id].preparation != p
      {
        assert AttemptLinked(t, t.sessions[id]) && id !in OpenOf(t.sessions, d);
      }
    }
  }

  // An ID that is not in the table belongs to no holder, and an attempt of the dial
  // may start when its preparation still holds storage.
  lemma DialStarts(t: Tables, d: nat, id: nat)
    requires Linked(t) && d in t.dials && id !in t.sessions && t.dials[d].running < t.dials[d].concurrent
    ensures ByAttempt(id) !in t.held
    ensures var p := t.dials[d].preparation;
      (if p == 0 then Room(t) else ByPreparation(p) in t.held) ==> Startable(t, Attempt(false, d, p, false))
  {
    NobodyRunsYet(t, d);
    hide Counted, PhasesLinked, RunsOf, Limited, Room;
    assert DialLinked(t, d);
  }

  // An attempt that never entered the table is disposed of.
  lemma Abandoned(t: Tables, d: nat, a: Attempt, id: nat, held: set<Holder>)
    requires Linked(t) && d in t.dials && a == Attempt(false, d, t.dials[d].preparation, false) && ByAttempt(id) !in t.held
    requires a.preparation != 0 ==> RunsOf(t.sessions, a.preparation) == {}
    requires forall b: Holder :: !b.ByStorage? ==> (b in held <==> b in t.held && b != HolderOf(id, a))
    ensures Linked(t.(dials := if a.preparation == 0 then t.dials else t.dials - {d}, held := held))
  {
    hide Linked;
    if a.preparation != 0 {
      DialDropped(t, d);
      StoragesIgnored(t.(dials := t.dials - {d}, held := t.held - {ByPreparation(a.preparation)}), held);
    } else {
      StoragesIgnored(t, held);
      assert t.dials == t.(held := held).dials;
    }
  }

  lemma AttemptHolds(t: Tables, id: nat)
    requires Linked(t) && id in t.sessions
    ensures HolderOf(id, t.sessions[id]) in t.held && (t.sessions[id].established ==> t.sessions[id].preparation == 0)
  {
    hide Counted, PhasesLinked, DialsLinked;
    AttemptFacts(t, id);
  }

  lemma WaitingHolds(t: Tables, p: Handle)
    requires Linked(t)
    ensures t.nextDial + 1 !in t.dials && ByPreparation(0) !in t.held
    ensures p in t.prepared && t.prepared[p] == Waiting ==> p != 0 && ByPreparation(p) in t.held
  {
    hide Counted, AttemptsLinked;
  }

  lemma AbortedHoldsNothing(t: Tables, p: Handle)
    requires Linked(t) && p in t.prepared && t.prepared[p] == Aborted
    ensures ByPreparation(p) !in t.held
  {
    hide Counted, AttemptsLinked, DialsLinked;
  }

  lemma AttemptIsPrepared(t: Tables, id: nat)
    requires Linked(t) && id in t.sessions && t.sessions[id].preparation != 0
    ensures ByAttempt(id) !in t.held
  {
    hide Counted, DialsLinked, PhasesLinked;
  }

  lemma ListenerIsPlain(t: Tables, id: nat)
    requires Linked(t)
    ensures id in t.sessions && t.sessions[id].dial == 0 && !t.sessions[id].established ==> t.sessions[id].preparation == 0
    ensures id !in t.sessions ==> ByAttempt(id) !in t.held
    ensures t.pending >= 0 && 0 !in t.dials && (Room(t) ==> Startable(t, Attempt(false, 0, 0, false)))
  {
    hide OpenIds, OpenOf;
    assert 0 !in t.dials;
  }

  lemma OnlyStorages(t: Tables)
    requires Linked(t) && t.sessions == map[] && t.dials == map[] && forall p :: p in t.prepared ==> t.prepared[p] != Waiting
    ensures t.pending == 0 && forall a :: a in t.held ==> a.ByStorage?
  {
    assert OpenIds(map[]) == {} && forall p :: RunsOf(map[], p) == {};
    assert forall p :: ByPreparation(p) in t.held ==> p in t.prepared && PhaseLinked(t, p);
  }

  // A dial with an attempt carries its preparation.
  lemma DialCarries(t: Tables, d: nat)
    requires Linked(t) && d in t.dials && t.dials[d].running > 0
    ensures RunsOf(t.sessions, t.dials[d].preparation) != {}
  {
    assert OpenOf(t.sessions, d) != {};
    var id :| id in OpenOf(t.sessions, d);
    hide Counted, PhasesLinked;
    assert AttemptLinked(t, t.sessions[id]);
    assert id in RunsOf(t.sessions, t.dials[d].preparation);
  }

  // ---------------------------------------------------------------------------
  // Beyond the limit

  const NO_CLAIM := Claim(0, false, false)
  const EMPTY := Tables(map[], map[], map[], {}, 0, 0)
  const LISTENING := Attempt(false, 0, 0, false)

  lemma EmptyLinked()
    ensures Linked(EMPTY) && Load(EMPTY) == 0
  {
    assert OpenIds(map[]) == {};
  }

  // HELLOs open attempts while there is room.
  lemma {:induction false} Fill(t: Tables, from: nat, n: nat) returns (u: Tables)
    requires Linked(t) && Load(t) + n <= MAX_PENDING && forall id :: id in t.sessions ==> id < from
    ensures Linked(u) && Load(u) == Load(t) + n && (forall id :: id in u.sessions ==> id < from + n)
    ensures (forall id :: id in t.sessions ==> id in u.sessions && u.sessions[id] == t.sessions[id])
    ensures u.dials == t.dials && u.prepared == t.prepared && u.nextDial == t.nextDial && t.held <= u.held
    decreases n
  {
    hide Linked, WaitingOf;
    u := t;
    if n > 0 {
      ListenerIsPlain(t, from);
      AddedLinked(t, from, LISTENING);
      u := Fill(Added(t, from, LISTENING), from + 1, n - 1);
    }
  }

  // A preparation carries attempt 2 of dial 2, the ordinary dial 1 has attempt 1 and
  // would start another, and HELLOs have taken all the room that was left.
  lemma Crowded() returns (t: Tables)
    ensures Linked(t) && Load(t) == MAX_PENDING && forall id :: id in t.sessions ==> id < 257
    ensures 2 in t.sessions && t.sessions[2] == Attempt(false, 2, 5, false) && t.nextDial == 2
    ensures t.dials == map[1 := Dial(2, 2, E.None, 0, 1, 0, NO_CLAIM, []), 2 := Dial(2, 1, E.None, 0, 1, 5, NO_CLAIM, [])]
    ensures ByPreparation(5) in t.held && t.prepared == map[5 := Adopted(2)]
  {
    hide Linked;
    EmptyLinked();
    var a := EMPTY.(prepared := map[5 := Waiting], held := {ByPreparation(5)});
    WaitingAdded(EMPTY, 5);
    assert EMPTY.prepared[5 := Waiting] == map[5 := Waiting] && EMPTY.held + {ByPreparation(5)} == {ByPreparation(5)};
    var b := Begun(a, Dial(2, 2, E.None, 0, 0, 0, NO_CLAIM, []));
    BegunLinked(a, Dial(2, 2, E.None, 0, 0, 0, NO_CLAIM, []));
    assert WaitingOf(map[5 := Waiting]) == {5};
    var c := Added(b, 1, Attempt(false, 1, 0, false));
    AddedLinked(b, 1, Attempt(false, 1, 0, false));
    var d := Begun(c, Dial(2, 1, E.None, 0, 0, 5, NO_CLAIM, []));
    BegunLinked(c, Dial(2, 1, E.None, 0, 0, 5, NO_CLAIM, []));
    assert d.prepared == map[5 := Adopted(2)] && WaitingOf(d.prepared) == {};
    var e := Added(d, 2, Attempt(false, 2, 5, false));
    AddedLinked(d, 2, Attempt(false, 2, 5, false));
    assert Load(e) == 2;
    t := Fill(e, 3, 254);
  }

  /** Such a run: the attempt on the preparation fails before promotion, dial 1 is served
      first and takes the place that has become free, and the preparation starts its next
      attempt all the same. Pending attempts alone are then one more than the limit. */
  lemma LimitMayBeExceeded() returns (t: Tables, u: Tables)
    ensures Linked(t) && Load(t) == MAX_PENDING && 2 in t.sessions && t.sessions[2].preparation != 0
    ensures forall id :: id in t.sessions ==> id < 257
    ensures var r := Removed(t, 2, false);
      && Startable(r, Attempt(false, 1, 0, false)) && 1 in r.dials && r.dials[1].running < r.dials[1].concurrent
      && var o := Added(r, 257, Attempt(false, 1, 0, false));
      && Startable(o, Attempt(false, 2, 5, false)) && u == Added(o, 258, Attempt(false, 2, 5, false))
    ensures Linked(u) && u.pending == Load(u) == MAX_PENDING + 1
  {
    hide Linked, Carried;
    t := Crowded();
    var r := Removed(t, 2, false);
    RemovedLinked(t, 2, false);
    assert WaitingOf(t.prepared) == {};
    var o := Added(r, 257, Attempt(false, 1, 0, false));
    AddedLinked(r, 257, Attempt(false, 1, 0, false));
    u := Added(o, 258, Attempt(false, 2, 5, false));
    AddedLinked(o, 258, Attempt(false, 2, 5, false));
  }
}
