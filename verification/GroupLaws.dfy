// internal/sessionv2/data.go: what a record may find in the table of pending groups,
// and all that can follow.
//
// GroupTable proves what every record keeps. Here each answer and each effect is told
// by what the group had received: its set of shards, its age and its metadata.
module GroupLaws {
  import opened Words
  import opened Packing
  import opened GroupTable
  import BC = BlockCodec
  import Reassembly
  import RecvWindow

  function Have(g: Group): set<nat> {
    set i: nat | i < |g.shards| && g.shards[i].Some?
  }

  // What a record is to its group.
  datatype Meeting = Late | Contradiction | Repetition | DecodedAlready | OneMore | Enough

  function Meets(g: Group, r: Record, terms: Terms, now: int): Meeting
    requires g.fragments == BC.None ==> r.shard < |g.shards|
  {
    if now >= g.admitted + terms.timeout then Late
    else if (g.logical, g.epoch) != (r.logical, r.epoch) then Contradiction
    else if g.fragments.Some? then DecodedAlready
    else if r.shard in Have(g) then if g.shards[r.shard].value == r.payload then Repetition else Contradiction
    else if |Have(g)| + 1 < terms.k then OneMore
    else Enough
  }

  // The group leaves the table with this outcome and its lease goes back last.
  ghost predicate Leaves(t: Table, s: Step, id: U64, g: Group, outcome: RecvWindow.Status, ops: seq<LeaseOp>) {
    && s.table.groups == t.groups - {id} && s.table.window.State(id) in {outcome, RecvWindow.Retired}
    && s.ops == ops + [Released(g.lease)] && (s.completed <==> outcome == RecvWindow.Completed)
  }

  ghost predicate Becomes(t: Table, s: Step, id: U64, g: Group, ops: seq<LeaseOp>) {
    s.table.groups == t.groups[id := g] && s.ops == ops && !s.completed
  }

  // A decoded group is handed to the reassembler, whose word decides.
  ghost predicate Handed(t: Table, s: Step, id: U64, g: Group, admission: Admission, ops: seq<LeaseOp>) {
    && s.handed == g.fragments
    && (admission == Admitted ==> s.answer == Taken && Leaves(t, s, id, g, RecvWindow.Completed, ops))
    && (admission == NoStorage ==> s.answer == Taken && Becomes(t, s, id, g, ops))
    && (admission == Broken ==> s.answer == Rejected && Leaves(t, s, id, g, RecvWindow.Expired, ops))
  }

  // What the record r does to its group g; `ops` is what was done for it before.
  ghost predicate Handled(
    t: Table, s: Step, r: Record, terms: Terms, now: int, answers: Answers, g: Group, ops: seq<LeaseOp>)
    requires g.fragments == BC.None ==> r.shard < |g.shards|
  {
    var m := Meets(g, r, terms, now);
    var decoded := g.(shards := [], present := g.present + 1, fragments := answers.decoded);
    && (m == Late ==> s.answer == Taken && s.handed == BC.None && Leaves(t, s, r.group, g, RecvWindow.Expired, ops))
    && (m == Contradiction ==> s.answer == Protocol && s.handed == BC.None && Becomes(t, s, r.group, g, ops))
    && (m == Repetition ==> s.answer == Taken && s.handed == BC.None && Becomes(t, s, r.group, g, ops))
    && (m == OneMore ==> s.answer == Taken && s.handed == BC.None && Stored(t, s, r, g, ops))
    && (m == DecodedAlready ==> Handed(t, s, r.group, g, answers.admission, ops))
    && (m == Enough && answers.decoded == BC.None ==>
        s.answer == Undecodable && s.handed == BC.None && Leaves(t, s, r.group, g, RecvWindow.Expired, ops))
    && (m == Enough && answers.decoded.Some? ==>
        Handed(t, s, r.group, decoded, answers.admission, ops + [Shrunk(g.lease)]))
  }

  // The shard is kept, and nothing else about the group changes.
  ghost predicate Stored(t: Table, s: Step, r: Record, g: Group, ops: seq<LeaseOp>) {
    && r.group in s.table.groups && s.ops == ops && !s.completed
    && var next := s.table.groups[r.group];
      && s.table.groups == t.groups[r.group := next]
      && next == g.(shards := next.shards, present := |Have(g)| + 1)
      && Have(next) == Have(g) + {r.shard} && r.shard < |next.shards| && next.shards[r.shard] == BC.Some(r.payload)
      && forall i :: i in Have(g) ==> next.shards[i] == g.shards[i]
  }

  lemma {:induction false} HaveIsCount(shards: seq<BC.Option<Bytes>>, n: nat)
    requires n <= |shards|
    ensures |set i: nat | i < n && shards[i].Some?| == BC.CountTo(shards, n)
  {
    var got := set i: nat | i < n && shards[i].Some?;
    if n == 0 {
      assert got == {};
    } else {
      HaveIsCount(shards, n - 1);
      var less := set i: nat | i < n - 1 && shards[i].Some?;
      assert got == if shards[n - 1].Some? then less + {n - 1} else less;
    }
  }

  lemma PresentIsHave(g: Group, k: nat, total: nat)
    requires GroupOk(g, k, total) && g.fragments == BC.None
    ensures g.present == |Have(g)|
  {
    HaveIsCount(g.shards, |g.shards|);
    assert Have(g) == set i: nat | i < |g.shards| && g.shards[i].Some?;
  }

  lemma LeavesWith(w: RecvWindow.History, id: U64, outcome: RecvWindow.Status)
    requires w.Valid() && !w.closed && Pending(w, id) && outcome in {RecvWindow.Completed, RecvWindow.Expired}
    ensures w.Finish(id, outcome).State(id) in {outcome, RecvWindow.Retired}
  {
    Reassembly.FinishTells(w, id, outcome);
  }

  lemma DropLeaves(t: Table, id: U64, outcome: RecvWindow.Status, answer: Answer)
    requires t.window.Valid() && !t.window.closed && Pending(t.window, id) && outcome in {RecvWindow.Completed, RecvWindow.Expired}
    requires id in t.order && id in t.groups
    ensures var s := Drop(t, id, outcome, answer);
      s.answer == answer && s.handed == BC.None && Leaves(t, s, id, t.groups[id], outcome, [])
  {
    hide RecvWindow.History.Finish, RecvWindow.History.State;
    LeavesWith(t.window, id, outcome);
  }

  /** What the reassembler says of a decoded group, now or when it is asked again,
      completes it, leaves it waiting for storage or ends it. */
  lemma AdmissionDecides(t: Table, id: U64, admission: Admission)
    requires t.window.Valid() && !t.window.closed && Pending(t.window, id) && id in t.order && id in t.groups
    ensures Handed(t, AdmitDecoded(t, id, admission), id, t.groups[id], admission, [])
  {
    hide Drop, RecvWindow.History.State;
    if admission == NoStorage {
      assert t.groups[id := t.groups[id]] == t.groups;
    } else {
      DropLeaves(t, id, if admission == Admitted then RecvWindow.Completed else RecvWindow.Expired,
                 if admission == Admitted then Taken else Rejected);
    }
  }

  lemma PlaceHandles(t: Table, r: Record, terms: Terms, now: int, answers: Answers)
    requires t.window.Valid() && !t.window.closed && Pending(t.window, r.group) && r.group in t.order && r.group in t.groups
    requires GroupOk(t.groups[r.group], terms.k, terms.total) && r.shard < terms.total
    ensures var g := t.groups[r.group];
      && (g.fragments == BC.None ==> r.shard < |g.shards|)
      && Handled(t, Place(t, r, terms, now, answers), r, terms, now, answers, g, [])
  {
    hide Drop, AdmitDecoded, Handed, Leaves, Pending, RecvWindow.History.State, RecvWindow.History.Valid;
    var id, g := r.group, t.groups[r.group];
    assert t.groups[id := g] == t.groups;
    if g.fragments == BC.None {
      PresentIsHave(g, terms.k, terms.total);
    }
    match Meets(g, r, terms, now)
    case Late => DropLeaves(t, id, RecvWindow.Expired, Taken);
    case DecodedAlready => AdmissionDecides(t, id, answers.admission);
    case OneMore => HaveMore(g, r);
    case Enough =>
      if answers.decoded == BC.None {
        DropLeaves(t, id, RecvWindow.Expired, Undecodable);
      } else {
        var next := g.(shards := [], present := g.present + 1, fragments := answers.decoded);
        assert [] + [Shrunk(g.lease)] == [Shrunk(g.lease)];
        AdmissionDecides(t.(groups := t.groups[id := next]), id, answers.admission);
        HandedLater(t, t.(groups := t.groups[id := next]), AdmitDecoded(t.(groups := t.groups[id := next]), id, answers.admission),
                    id, next, answers.admission, [Shrunk(g.lease)]);
      }
    case _ =>
  }

  // The same step seen from a table that differs in this group only, after other
  // operations on leases.
  lemma HandedLater(t: Table, u: Table, s: Step, id: U64, g: Group, admission: Admission, ops: seq<LeaseOp>)
    requires Handed(u, s, id, g, admission, []) && u.groups - {id} == t.groups - {id}
    ensures Handed(t, s.(ops := ops + s.ops), id, g, admission, ops)
  {
    hide RecvWindow.History.State;
    assert u.groups[id := g] == (u.groups - {id})[id := g] == t.groups[id := g];
  }

  lemma HaveMore(g: Group, r: Record)
    requires r.shard < |g.shards| && r.shard !in Have(g)
    ensures var next := g.(shards := g.shards[r.shard := BC.Some(r.payload)]);
      Have(next) == Have(g) + {r.shard} && forall i :: i in Have(g) ==> next.shards[i] == g.shards[i]
  {
  }

  // Seen from the table before a group was begun.
  lemma HandledFromBefore(
    t: Table, u: Table, s: Step, r: Record, terms: Terms, now: int, answers: Answers, g: Group, ops: seq<LeaseOp>)
    requires g.fragments == BC.None ==> r.shard < |g.shards|
    requires u.groups == t.groups[r.group := g] && r.group !in t.groups && Handled(u, s, r, terms, now, answers, g, [])
    ensures Handled(t, s.(ops := ops + s.ops), r, terms, now, answers, g, ops)
  {
    hide Have, Meets, RecvWindow.History.State;
    assert u.groups - {r.group} == t.groups - {r.group};
    var next := g.(shards := [], present := g.present + 1, fragments := answers.decoded);
    var kept := if r.group in s.table.groups then s.table.groups[r.group] else g;
    assert u.groups[r.group := next] == t.groups[r.group := next] && u.groups[r.group := kept] == t.groups[r.group := kept];
    assert u.groups[r.group := g] == t.groups[r.group := g];
    assert ops + [Released(g.lease)] == ops + ([] + [Released(g.lease)]);
    assert ops + ([] + [Shrunk(g.lease)]) == ops + [Shrunk(g.lease)];
    assert ops + ([] + [Shrunk(g.lease)] + [Released(g.lease)]) == ops + [Shrunk(g.lease)] + [Released(g.lease)];
  }

  function Begun(r: Record, terms: Terms, now: int, lease: Handle): Group {
    Group(r.logical, r.epoch, now, EmptyShards(terms.total), 0, BC.None, lease)
  }

  /** A record is refused and changes nothing when its group was seen before or may not
      begin now, when the table is full or the ledger has no credit, and when the scope
      is gone; any other record meets the group it is for, an old one or one begun for
      it at this very time under a new lease. */
  lemma TakeMeans(
    t: Table, r: Record, restricted: bool, terms: Terms, clock: int, done: seq<U64>, now: int, answers: Answers)
    requires TableOk(t, terms.k, terms.total, clock, done) && r.shard < terms.total && clock <= now && terms.k > 0
    requires |t.groups| <= terms.maxGroups
    ensures var s := Take(t, r, restricted, terms, now, answers);
      if r.group in t.groups then
        && (t.groups[r.group].fragments == BC.None ==> r.shard < |t.groups[r.group].shards|)
        && Handled(t, s, r, terms, now, answers, t.groups[r.group], [])
      else if restricted || t.window.State(r.group) != RecvWindow.Unseen then s == Step(t, Ignored, [], false, BC.None)
      else if |t.groups| >= terms.maxGroups || answers.grant == NoCredit then s == Step(t, ResourceLimit, [], false, BC.None)
      else if answers.grant == ScopeGone then s == Step(t, Closed, [], false, BC.None)
      else
        Handled(t, s, r, terms, now, answers, Begun(r, terms, now, answers.grant.lease), [Reserved(answers.grant.lease)])
  {
    hide TableOk, Place, Handled, Insert, RecvWindow.History.State, GroupOk;
    TableHas(t, terms, clock, done);
    if r.group in t.groups {
      MetInTable(t, terms.k, terms.total, clock, done, r.group);
      PlaceHandles(t, r, terms, now, answers);
    } else if !restricted && t.window.State(r.group) == RecvWindow.Unseen && |t.groups| != terms.maxGroups
      && answers.grant.Granted? {
      var g := Begun(r, terms, now, answers.grant.lease);
      var u := Insert(t, r.group, g);
      BegunOk(r, terms, now, answers.grant.lease);
      InsertKeeps(t, terms.k, terms.total, clock, done, r.group, g, now);
      InsertGrows(t, r.group, g);
      InsertIs(t, r.group, g);
      MetInTable(u, terms.k, terms.total, now, done, r.group);
      PlaceHandles(u, r, terms, now, answers);
      HandledFromBefore(t, u, Place(u, r, terms, now, answers), r, terms, now, answers, g, [Reserved(answers.grant.lease)]);
    }
  }

  lemma InsertIs(t: Table, id: U64, g: Group)
    ensures Insert(t, id, g).groups == t.groups[id := g]
  {
  }

  lemma BegunOk(r: Record, terms: Terms, now: int, lease: Handle)
    requires terms.k > 0
    ensures GroupOk(Begun(r, terms, now, lease), terms.k, terms.total) && Begun(r, terms, now, lease) == Fresh(r, terms, now, lease)
  {
    CountNone(EmptyShards(terms.total), terms.total);
  }

  lemma MetInTable(t: Table, k: nat, total: nat, clock: int, done: seq<U64>, id: U64)
    requires TableOk(t, k, total, clock, done) && id in t.groups
    ensures t.window.Valid() && !t.window.closed && Pending(t.window, id) && id in t.order && GroupOk(t.groups[id], k, total)
  {
  }

  // ---------------------------------------------------------------------------
  // A bundle

  predicate Passes(a: Answer) {
    a == Taken || a == Ignored
  }

  // The answer to record i of a bundle.
  ghost function StepOf(
    t: Table, done: seq<U64>, rs: seq<Record>, restricted: bool, terms: Terms, now: int, answers: seq<Answers>, i: nat): Step
    requires i < |rs| == |answers| && forall k :: 0 <= k < |rs| ==> rs[k].shard < terms.total
    requires Shaped(TakeFirst(t, done, rs, restricted, terms, now, answers, i).table, terms)
  {
    Take(TakeFirst(t, done, rs, restricted, terms, now, answers, i).table, rs[i], restricted, terms, now, answers[i])
  }

  // The first n records all passed, or the one before the last to be looked at did not.
  ghost predicate EndsAtFirstFailure(
    t: Table, done: seq<U64>, rs: seq<Record>, restricted: bool, terms: Terms, now: int, answers: seq<Answers>, n: nat)
    requires n <= |rs| == |answers| && forall k :: 0 <= k < |rs| ==> rs[k].shard < terms.total
    requires forall i :: 0 <= i < n ==> Shaped(TakeFirst(t, done, rs, restricted, terms, now, answers, i).table, terms)
  {
    var b := TakeFirst(t, done, rs, restricted, terms, now, answers, n);
    if Passes(b.answer) then forall i :: 0 <= i < n ==> Passes(StepOf(t, done, rs, restricted, terms, now, answers, i).answer)
    else exists j :: 0 <= j < n && FailsFirst(t, done, rs, restricted, terms, now, answers, j, b)
  }

  // Record j is the first that does not pass, and the bundle ends with it.
  ghost predicate FailsFirst(
    t: Table, done: seq<U64>, rs: seq<Record>, restricted: bool, terms: Terms, now: int, answers: seq<Answers>, j: nat, b: Batch)
    requires j < |rs| == |answers| && forall k :: 0 <= k < |rs| ==> rs[k].shard < terms.total
    requires forall i :: 0 <= i <= j ==> Shaped(TakeFirst(t, done, rs, restricted, terms, now, answers, i).table, terms)
  {
    var s := StepOf(t, done, rs, restricted, terms, now, answers, j);
    && b.answer == s.answer && b.table == s.table
    && forall i :: 0 <= i < j ==> Passes(StepOf(t, done, rs, restricted, terms, now, answers, i).answer)
  }

  /** The records of a bundle are taken in order up to the first that is neither taken
      nor ignored; its answer is that of the bundle, and what the records before it did
      stays done. */
  lemma {:induction false} BundleEndsAtFirstFailure(
    t: Table, done: seq<U64>, rs: seq<Record>, restricted: bool, terms: Terms, now: int, answers: seq<Answers>, n: nat)
    requires n <= |rs| == |answers| && forall k :: 0 <= k < |rs| ==> rs[k].shard < terms.total
    requires forall i :: 0 <= i < n ==> Shaped(TakeFirst(t, done, rs, restricted, terms, now, answers, i).table, terms)
    ensures EndsAtFirstFailure(t, done, rs, restricted, terms, now, answers, n)
  {
    hide Take, Shaped;
    if n > 0 {
      BundleEndsAtFirstFailure(t, done, rs, restricted, terms, now, answers, n - 1);
      var before, b := TakeFirst(t, done, rs, restricted, terms, now, answers, n - 1), TakeFirst(t, done, rs, restricted, terms, now, answers, n);
      if !Passes(before.answer) {
        var j :| 0 <= j < n - 1 && FailsFirst(t, done, rs, restricted, terms, now, answers, j, before);
        assert FailsFirst(t, done, rs, restricted, terms, now, answers, j, b);
      } else if !Passes(b.answer) {
        assert FailsFirst(t, done, rs, restricted, terms, now, answers, n - 1, b);
      }
    }
  }
}
