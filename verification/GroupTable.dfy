// internal/sessionv2/data.go: the receiver's table of pending groups, threaded by
// an expiry list and guarded by the window of terminal group IDs.
//
// The ledger's answer to a reservation, the group codec's answer to enough shards
// and the reassembler's answer to a decoded group are inputs. What the table did
// with its leases is the list of returned operations.
module GroupTable {
  import opened Words
  import opened Packing
  import opened DeadlineList
  import RecvWindow
  import Reassembly
  import BC = BlockCodec

  type Handle = nat
  type Bytes = seq<Byte>

  datatype Record = Record(group: U64, epoch: U32, logical: U32, shard: nat, payload: Bytes)

  // One pending group; its shards are gone once it is decoded.
  datatype Group = Group(
    logical: U32, epoch: U32, admitted: int, shards: seq<BC.Option<Bytes>>, present: nat,
    fragments: BC.Option<seq<Fragment>>, lease: Handle)

  // What becomes of a decoded group: its originals enter, wait for storage, or the
  // group is refused for good.
  datatype Admission = Admitted | NoStorage | Broken

  // What the outside world answers while one record is taken.
  datatype Answers = Answers(grant: Grant, decoded: BC.Option<seq<Fragment>>, admission: Admission)

  // What the ledger says to the reservation of a group.
  datatype Grant = Granted(lease: Handle) | NoCredit | ScopeGone

  datatype Answer = Taken | Ignored | ResourceLimit | Closed | Protocol | Undecodable | Rejected

  // A reserved or released lease of the Session's scope.
  datatype LeaseOp = Reserved(lease: Handle) | Shrunk(lease: Handle) | Released(lease: Handle)

  function EmptyShards(n: nat): (s: seq<BC.Option<Bytes>>)
    ensures |s| == n && forall i :: 0 <= i < n ==> s[i] == BC.None
  {
    seq(n, _ => BC.None)
  }

  predicate GroupOk(g: Group, k: nat, total: nat) {
    if g.fragments.Some? then g.shards == []
    else |g.shards| == total && g.present == BC.CountOf(g.shards) < k
  }

  datatype Table = Table(groups: map<U64, Group>, order: seq<U64>, window: RecvWindow.History)

  predicate Pending(w: RecvWindow.History, id: U64) {
    0 < id <= w.highest && (w.State(id) == RecvWindow.Unseen || w.State(id) == RecvWindow.Retired)
  }

  predicate Finished(w: RecvWindow.History, id: U64) {
    0 < id <= w.highest && (w.State(id) == RecvWindow.Completed || w.State(id) == RecvWindow.Retired)
  }

  function Since(groups: map<U64, Group>, id: U64): int {
    if id in groups then groups[id].admitted else 0
  }

  // The list is in order of admission.
  predicate Sorted(groups: map<U64, Group>, order: seq<U64>, clock: int) {
    && (forall i, j :: 0 <= i < j < |order| ==> Since(groups, order[i]) <= Since(groups, order[j]))
    && (forall id :: id in groups ==> groups[id].admitted <= clock)
  }

  // The table, and the groups `done` whose originals were admitted so far.
  ghost predicate TableOk(t: Table, k: nat, total: nat, clock: int, done: seq<U64>) {
    && t.window.Valid() && !t.window.closed && Distinct(t.order) && (forall id :: id in t.order <==> id in t.groups)
    && Sorted(t.groups, t.order, clock)
    && (forall id :: id in t.groups ==> Pending(t.window, id) && GroupOk(t.groups[id], k, total))
    && (forall i, j :: 0 <= i < j < |done| ==> done[i] != done[j])
    && (forall id :: id in done ==> id !in t.groups && Finished(t.window, id))
  }

  // ---------------------------------------------------------------------------
  // Transitions

  function Insert(t: Table, id: U64, g: Group): Table {
    Table(t.groups[id := g], t.order + [id], t.window.Admit(id))
  }

  function Remove(t: Table, id: U64, outcome: RecvWindow.Status): Table
    requires id in t.order
  {
    Table(t.groups - {id}, Without(t.order, id), t.window.Finish(id, outcome))
  }

  lemma InsertKeeps(t: Table, k: nat, total: nat, clock: int, done: seq<U64>, id: U64, g: Group, now: int)
    requires TableOk(t, k, total, clock, done) && id !in t.groups && t.window.State(id) == RecvWindow.Unseen
    requires clock <= now && g.admitted == now && GroupOk(g, k, total)
    ensures TableOk(Insert(t, id, g), k, total, now, done)
  {
    hide GroupOk, RecvWindow.History.Admit;
    Reassembly.AdmitFrame(t.window, id);
    UnseenIsReal(t.window, id);
    hide RecvWindow.History.State, RecvWindow.History.Valid;
  }

  lemma UnseenIsReal(w: RecvWindow.History, id: U64)
    requires w.State(id) == RecvWindow.Unseen
    ensures id != 0
  {
  }

  lemma RemoveKeeps(t: Table, k: nat, total: nat, clock: int, done: seq<U64>, id: U64, outcome: RecvWindow.Status)
    requires TableOk(t, k, total, clock, done) && id in t.groups
    requires outcome == RecvWindow.Expired || outcome == RecvWindow.Completed
    ensures TableOk(Remove(t, id, outcome), k, total, clock, if outcome == RecvWindow.Completed then done + [id] else done)
    ensures t.window.CanFinish(id, outcome)
  {
    hide GroupOk, Without, RecvWindow.History.Finish, RecvWindow.History.State, RecvWindow.History.Valid, Pending, Finished,
      Sorted, Distinct, RecvWindow.History.CanFinish;
    WithoutKeeps(t.order, id);
    SortedWithout(t.groups, t.order, clock, id);
    OthersStay(t.window, id, outcome);
    FinishedIs(t.window, id, outcome);
  }

  lemma OthersStay(w: RecvWindow.History, id: U64, outcome: RecvWindow.Status)
    requires w.Valid() && Pending(w, id) && !w.closed
    requires outcome == RecvWindow.Expired || outcome == RecvWindow.Completed
    ensures var n := w.Finish(id, outcome);
      && n.Valid() && (forall x :: x != id && Pending(w, x) ==> Pending(n, x))
      && (forall x :: x != id && Finished(w, x) ==> Finished(n, x))
  {
    hide RecvWindow.History.Finish;
    Reassembly.FinishFrame(w, id, outcome);
  }

  lemma FinishedIs(w: RecvWindow.History, id: U64, outcome: RecvWindow.Status)
    requires w.Valid() && Pending(w, id) && !w.closed
    requires outcome == RecvWindow.Expired || outcome == RecvWindow.Completed
    ensures w.CanFinish(id, outcome) && !w.Finish(id, outcome).closed
    ensures outcome == RecvWindow.Completed ==> Finished(w.Finish(id, outcome), id)
  {
  }

  lemma SortedWithout(groups: map<U64, Group>, order: seq<U64>, clock: int, id: U64)
    requires Distinct(order) && Sorted(groups, order, clock) && id in order
    ensures Sorted(groups - {id}, Without(order, id), clock)
  {
    WithoutKeeps(order, id);
    var i, rest := IndexOf(order, id), Without(order, id);
    hide Distinct, IndexOf, Without;
    forall a, b | 0 <= a < b < |rest|
      ensures Since(groups - {id}, rest[a]) <= Since(groups - {id}, rest[b])
    {
      WithoutAt(order, id, a);
      WithoutAt(order, id, b);
      assert Since(groups, order[if a < i then a else a + 1]) <= Since(groups, order[if b < i then b else b + 1]);
    }
  }

  // A pending group changes in place.
  lemma UpdateKeeps(t: Table, k: nat, total: nat, clock: int, done: seq<U64>, id: U64, g: Group)
    requires TableOk(t, k, total, clock, done) && id in t.groups && g.admitted == t.groups[id].admitted && GroupOk(g, k, total)
    ensures TableOk(t.(groups := t.groups[id := g]), k, total, clock, done)
  {
    hide GroupOk, RecvWindow.History.Valid, Pending, Finished, Distinct;
    var next := t.groups[id := g];
    assert forall x :: Since(next, x) == Since(t.groups, x);
  }

  // ---------------------------------------------------------------------------
  // One record

  datatype Terms = Terms(k: nat, total: nat, timeout: int, maxGroups: nat)

  // `handed` is the decoded group that the reassembler is asked to admit.
  datatype Step = Step(
    table: Table, answer: Answer, ops: seq<LeaseOp>, completed: bool, handed: BC.Option<seq<Fragment>>)

  predicate Due(g: Group, terms: Terms, now: int) {
    now - g.admitted >= terms.timeout
  }

  function Fresh(r: Record, terms: Terms, now: int, lease: Handle): Group {
    Group(r.logical, r.epoch, now, EmptyShards(terms.total), 0, BC.None, lease)
  }

  // The group leaves the table and its lease goes back.
  function Drop(t: Table, id: U64, outcome: RecvWindow.Status, answer: Answer): Step
    requires id in t.order && id in t.groups
  {
    Step(Remove(t, id, outcome), answer, [Released(t.groups[id].lease)], outcome == RecvWindow.Completed, BC.None)
  }

  // admitOriginals
  function AdmitDecoded(t: Table, id: U64, admission: Admission): Step
    requires id in t.order && id in t.groups
  {
    var s := match admission
      case Admitted => Drop(t, id, RecvWindow.Completed, Taken)
      case NoStorage => Step(t, Taken, [], false, BC.None)
      case Broken => Drop(t, id, RecvWindow.Expired, Rejected);
    s.(handed := t.groups[id].fragments)
  }

  // A record meets its group.
  function Place(t: Table, r: Record, terms: Terms, now: int, answers: Answers): Step
    requires r.group in t.order && r.group in t.groups
    requires t.groups[r.group].fragments == BC.None ==> r.shard < |t.groups[r.group].shards|
  {
    var id, g := r.group, t.groups[r.group];
    if Due(g, terms, now) then Drop(t, id, RecvWindow.Expired, Taken)
    else if g.logical != r.logical || g.epoch != r.epoch then Step(t, Protocol, [], false, BC.None)
    else if g.fragments.Some? then AdmitDecoded(t, id, answers.admission)
    else if g.shards[r.shard].Some? then
      Step(t, if g.shards[r.shard].value == r.payload then Taken else Protocol, [], false, BC.None)
    else if g.present + 1 < terms.k then
      var next := g.(shards := g.shards[r.shard := BC.Some(r.payload)], present := g.present + 1);
      Step(t.(groups := t.groups[id := next]), Taken, [], false, BC.None)
    else if answers.decoded == BC.None then Drop(t, id, RecvWindow.Expired, Undecodable)
    else
      var next := g.(shards := [], present := g.present + 1, fragments := answers.decoded);
      var s := AdmitDecoded(t.(groups := t.groups[id := next]), id, answers.admission);
      s.(ops := [Shrunk(g.lease)] + s.ops)
  }

  // One turn of receiveBundle's loop.
  function Take(t: Table, r: Record, restricted: bool, terms: Terms, now: int, answers: Answers): Step
    requires forall id :: id in t.groups ==> id in t.order && GroupOk(t.groups[id], terms.k, terms.total)
    requires r.shard < terms.total
  {
    if r.group in t.groups then
      assert GroupOk(t.groups[r.group], terms.k, terms.total);
      Place(t, r, terms, now, answers)
    else if restricted || t.window.State(r.group) != RecvWindow.Unseen then Step(t, Ignored, [], false, BC.None)
    else if |t.groups| == terms.maxGroups || answers.grant == NoCredit then Step(t, ResourceLimit, [], false, BC.None)
    else if answers.grant == ScopeGone then Step(t, Closed, [], false, BC.None)
    else
      var lease := answers.grant.lease;
      var s := Place(Insert(t, r.group, Fresh(r, terms, now, lease)), r, terms, now, answers);
      s.(ops := [Reserved(lease)] + s.ops)
  }

  function After(done: seq<U64>, id: U64, s: Step): seq<U64> {
    if s.completed then done + [id] else done
  }

  lemma AdmitDecodedKeeps(t: Table, terms: Terms, clock: int, done: seq<U64>, id: U64, admission: Admission)
    requires TableOk(t, terms.k, terms.total, clock, done) && id in t.groups
    ensures var s := AdmitDecoded(t, id, admission);
      TableOk(s.table, terms.k, terms.total, clock, After(done, id, s))
  {
    hide Remove, TableOk;
    TableHas(t, terms, clock, done);
    if admission != NoStorage {
      RemoveKeeps(t, terms.k, terms.total, clock, done, id,
                  if admission == Admitted then RecvWindow.Completed else RecvWindow.Expired);
    }
  }

  lemma TableHas(t: Table, terms: Terms, clock: int, done: seq<U64>)
    requires TableOk(t, terms.k, terms.total, clock, done)
    ensures forall id :: id in t.order <==> id in t.groups
    ensures forall id :: id in t.groups ==> GroupOk(t.groups[id], terms.k, terms.total)
  {
  }

  lemma {:induction false} CountMore(shards: seq<BC.Option<Bytes>>, i: nat, b: Bytes, n: nat)
    requires i < |shards| && n <= |shards| && shards[i] == BC.None
    ensures BC.CountTo(shards[i := BC.Some(b)], n) == BC.CountTo(shards, n) + if i < n then 1 else 0
  {
    if n > 0 {
      CountMore(shards, i, b, n - 1);
    }
  }

  lemma {:induction false} CountNone(shards: seq<BC.Option<Bytes>>, n: nat)
    requires n <= |shards| && forall i :: 0 <= i < |shards| ==> shards[i] == BC.None
    ensures BC.CountTo(shards, n) == 0
  {
    if n > 0 {
      CountNone(shards, n - 1);
    }
  }

  lemma PlaceKeeps(t: Table, r: Record, terms: Terms, clock: int, done: seq<U64>, now: int, answers: Answers)
    requires TableOk(t, terms.k, terms.total, clock, done) && r.group in t.groups && r.shard < terms.total
    ensures r.group in t.order && (t.groups[r.group].fragments == BC.None ==> r.shard < |t.groups[r.group].shards|)
    ensures var s := Place(t, r, terms, now, answers);
      TableOk(s.table, terms.k, terms.total, clock, After(done, r.group, s))
  {
    hide TableOk, Remove, AdmitDecoded;
    TableHas(t, terms, clock, done);
    var id, g := r.group, t.groups[r.group];
    if Due(g, terms, now) {
      RemoveKeeps(t, terms.k, terms.total, clock, done, id, RecvWindow.Expired);
    } else if g.fragments.Some? {
      AdmitDecodedKeeps(t, terms, clock, done, id, answers.admission);
    } else if g.shards[r.shard] == BC.None {
      CountMore(g.shards, r.shard, r.payload, |g.shards|);
      var more := g.(shards := g.shards[r.shard := BC.Some(r.payload)], present := g.present + 1);
      var next := g.(shards := [], present := g.present + 1, fragments := answers.decoded);
      if g.present + 1 < terms.k {
        UpdateKeeps(t, terms.k, terms.total, clock, done, id, more);
      } else if answers.decoded == BC.None {
        RemoveKeeps(t, terms.k, terms.total, clock, done, id, RecvWindow.Expired);
      } else {
        UpdateKeeps(t, terms.k, terms.total, clock, done, id, next);
        AdmitDecodedKeeps(t.(groups := t.groups[id := next]), terms, clock, done, id, answers.admission);
      }
    }
  }

  /** Whatever a record meets and whatever the ledger, the codec and the reassembler
      answer, the table stays well formed, and a group whose originals were admitted
      once never comes back: its ID is new among those completed. */
  lemma TakeKeeps(
    t: Table, r: Record, restricted: bool, terms: Terms, clock: int, done: seq<U64>, now: int, answers: Answers)
    requires TableOk(t, terms.k, terms.total, clock, done) && r.shard < terms.total && clock <= now && terms.k > 0
    ensures var s := Take(t, r, restricted, terms, now, answers);
      && TableOk(s.table, terms.k, terms.total, now, After(done, r.group, s)) && (s.completed ==> r.group !in done)
      && (|t.groups| <= terms.maxGroups ==> |s.table.groups| <= terms.maxGroups)
  {
    hide TableOk, Place, Insert, RecvWindow.History.State;
    TableHas(t, terms, clock, done);
    LaterOk(t, terms, clock, done, now);
    if r.group in t.groups {
      PlaceKeeps(t, r, terms, now, done, now, answers);
      PlaceShrinks(t, r, terms, now, answers);
      PendingIsNew(t, terms, clock, done, r.group);
    } else if !restricted && t.window.State(r.group) == RecvWindow.Unseen && |t.groups| != terms.maxGroups
      && answers.grant.Granted? {
      var g := Fresh(r, terms, now, answers.grant.lease);
      CountNone(g.shards, |g.shards|);
      InsertKeeps(t, terms.k, terms.total, clock, done, r.group, g, now);
      InsertGrows(t, r.group, g);
      PlaceKeeps(Insert(t, r.group, g), r, terms, now, done, now, answers);
      PlaceShrinks(Insert(t, r.group, g), r, terms, now, answers);
      PendingIsNew(Insert(t, r.group, g), terms, now, done, r.group);
    }
  }

  lemma LaterOk(t: Table, terms: Terms, clock: int, done: seq<U64>, now: int)
    requires TableOk(t, terms.k, terms.total, clock, done) && clock <= now
    ensures TableOk(t, terms.k, terms.total, now, done)
  {
    hide GroupOk, Pending, Finished, Distinct, RecvWindow.History.Valid;
  }

  lemma PendingIsNew(t: Table, terms: Terms, clock: int, done: seq<U64>, id: U64)
    requires TableOk(t, terms.k, terms.total, clock, done) && id in t.groups
    ensures id !in done
  {
  }

  lemma InsertGrows(t: Table, id: U64, g: Group)
    requires id !in t.groups
    ensures |Insert(t, id, g).groups| == |t.groups| + 1 && id in Insert(t, id, g).groups
    ensures Insert(t, id, g).groups[id] == g && id in Insert(t, id, g).order
  {
    assert Insert(t, id, g).groups.Keys == t.groups.Keys + {id};
  }

  lemma PlaceShrinks(t: Table, r: Record, terms: Terms, now: int, answers: Answers)
    requires r.group in t.order && r.group in t.groups
    requires t.groups[r.group].fragments == BC.None ==> r.shard < |t.groups[r.group].shards|
    ensures |Place(t, r, terms, now, answers).table.groups| <= |t.groups|
  {
    var next := Place(t, r, terms, now, answers).table.groups;
    assert next.Keys <= t.groups.Keys;
    Smaller(next.Keys, t.groups.Keys);
  }

  lemma {:induction false} Smaller(a: set<U64>, b: set<U64>)
    requires a <= b
    ensures |a| <= |b|
  {
    assert b == a + (b - a);
  }

  // ---------------------------------------------------------------------------
  // Leases

  function Apply(held: set<Handle>, op: LeaseOp): set<Handle> {
    match op
    case Reserved(lease) => held + {lease}
    case Shrunk(_) => held
    case Released(lease) => held - {lease}
  }

  // The leases that a list of operations leaves held.
  function HeldAfter(held: set<Handle>, ops: seq<LeaseOp>): set<Handle>
    decreases |ops|
  {
    if ops == [] then held else HeldAfter(Apply(held, ops[0]), ops[1..])
  }

  function LeasesOf(groups: map<U64, Group>): set<Handle> {
    set id | id in groups :: groups[id].lease
  }

  // Every group holds a lease of its own.
  predicate Apart(groups: map<U64, Group>) {
    forall a, b :: a in groups && b in groups && groups[a].lease == groups[b].lease ==> a == b
  }

  lemma DropHeld(groups: map<U64, Group>, id: U64)
    requires Apart(groups) && id in groups
    ensures Apart(groups - {id}) && LeasesOf(groups - {id}) == LeasesOf(groups) - {groups[id].lease}
  {
    var rest := groups - {id};
    forall h | h in LeasesOf(groups) - {groups[id].lease}
      ensures h in LeasesOf(rest)
    {
      var x :| x in groups && groups[x].lease == h;
      assert x in rest && rest[x].lease == h;
    }
  }

  lemma SetHeld(groups: map<U64, Group>, id: U64, g: Group)
    requires Apart(groups) && id in groups && g.lease == groups[id].lease
    ensures Apart(groups[id := g]) && LeasesOf(groups[id := g]) == LeasesOf(groups)
  {
    var next := groups[id := g];
    assert forall x :: x in groups ==> x in next && next[x].lease == groups[x].lease;
  }

  lemma InsertHeld(groups: map<U64, Group>, id: U64, g: Group)
    requires Apart(groups) && id !in groups && g.lease !in LeasesOf(groups)
    ensures Apart(groups[id := g]) && LeasesOf(groups[id := g]) == LeasesOf(groups) + {g.lease}
  {
    var next := groups[id := g];
    assert forall x :: x in groups ==> next[x] == groups[x];
    assert next[id] == g;
  }

  lemma OneOp(held: set<Handle>, op: LeaseOp, ops: seq<LeaseOp>)
    ensures HeldAfter(held, [op]) == Apply(held, op)
    ensures HeldAfter(held, [op] + ops) == HeldAfter(Apply(held, op), ops)
  {
    assert ([op] + ops)[1..] == ops;
    assert [op][1..] == [];
  }

  predicate Accounts(t: Table, s: Step) {
    Apart(s.table.groups) && HeldAfter(LeasesOf(t.groups), s.ops) == LeasesOf(s.table.groups)
  }

  lemma DropAccounts(t: Table, id: U64, outcome: RecvWindow.Status, answer: Answer)
    requires Apart(t.groups) && id in t.order && id in t.groups
    ensures Accounts(t, Drop(t, id, outcome, answer))
  {
    DropHeld(t.groups, id);
    OneOp(LeasesOf(t.groups), Released(t.groups[id].lease), []);
  }

  lemma AdmitAccounts(t: Table, id: U64, admission: Admission)
    requires Apart(t.groups) && id in t.order && id in t.groups
    ensures Accounts(t, AdmitDecoded(t, id, admission))
  {
    hide Remove, Drop, Apart, LeasesOf;
    if admission == Admitted {
      DropAccounts(t, id, RecvWindow.Completed, Taken);
    } else if admission == Broken {
      DropAccounts(t, id, RecvWindow.Expired, Rejected);
    }
  }

  lemma PlaceAccounts(t: Table, r: Record, terms: Terms, now: int, answers: Answers)
    requires Apart(t.groups) && r.group in t.order && r.group in t.groups
    requires t.groups[r.group].fragments == BC.None ==> r.shard < |t.groups[r.group].shards|
    ensures Accounts(t, Place(t, r, terms, now, answers))
  {
    hide Drop, AdmitDecoded, Apart, LeasesOf, HeldAfter;
    var id, g := r.group, t.groups[r.group];
    NothingDone(t);
    if Due(g, terms, now) {
      DropAccounts(t, id, RecvWindow.Expired, Taken);
    } else if g.fragments.Some? {
      AdmitAccounts(t, id, answers.admission);
    } else if g.shards[r.shard] == BC.None {
      var more := g.(shards := g.shards[r.shard := BC.Some(r.payload)], present := g.present + 1);
      var next := g.(shards := [], present := g.present + 1, fragments := answers.decoded);
      SetHeld(t.groups, id, more);
      SetHeld(t.groups, id, next);
      if g.present + 1 < terms.k {
      } else if answers.decoded == BC.None {
        DropAccounts(t, id, RecvWindow.Expired, Undecodable);
      } else {
        var u := t.(groups := t.groups[id := next]);
        AdmitAccounts(u, id, answers.admission);
        OneOp(LeasesOf(t.groups), Shrunk(g.lease), AdmitDecoded(u, id, answers.admission).ops);
      }
    }
  }

  lemma NothingDone(t: Table)
    requires Apart(t.groups)
    ensures HeldAfter(LeasesOf(t.groups), []) == LeasesOf(t.groups)
  {
  }

  /** The leases reserved and not yet released are exactly those of the groups in the
      table, one for each: no group leaves without returning its lease, and no lease
      is returned twice. */
  lemma TakeAccounts(t: Table, r: Record, restricted: bool, terms: Terms, now: int, answers: Answers)
    requires Apart(t.groups) && r.shard < terms.total
    requires forall id :: id in t.groups ==> id in t.order && GroupOk(t.groups[id], terms.k, terms.total)
    requires answers.grant.Granted? ==> answers.grant.lease !in LeasesOf(t.groups)
    ensures Accounts(t, Take(t, r, restricted, terms, now, answers))
  {
    hide Place, Apart, LeasesOf, HeldAfter, RecvWindow.History.State, RecvWindow.History.Admit, GroupOk;
    NothingDone(t);
    if r.group in t.groups {
      ShardFits(t.groups[r.group], r, terms);
      PlaceAccounts(t, r, terms, now, answers);
    } else if !restricted && t.window.State(r.group) == RecvWindow.Unseen && |t.groups| != terms.maxGroups
      && answers.grant.Granted? {
      var g := Fresh(r, terms, now, answers.grant.lease);
      var u := Insert(t, r.group, g);
      InsertHeld(t.groups, r.group, g);
      PlaceAccounts(u, r, terms, now, answers);
      OneOp(LeasesOf(t.groups), Reserved(g.lease), Place(u, r, terms, now, answers).ops);
    }
  }

  lemma ShardFits(g: Group, r: Record, terms: Terms)
    requires GroupOk(g, terms.k, terms.total) && r.shard < terms.total
    ensures g.fragments == BC.None ==> r.shard < |g.shards|
  {
  }

  // ---------------------------------------------------------------------------
  // Expiry

  datatype Swept = Swept(table: Table, ids: seq<U64>, ops: seq<LeaseOp>)

  // expireGroups: from the head of the list while it is due.
  function Sweep(t: Table, terms: Terms, now: int): Swept
    requires Distinct(t.order) && forall id :: id in t.order <==> id in t.groups
    decreases |t.order|
  {
    if t.order == [] || !Due(t.groups[t.order[0]], terms, now) then Swept(t, [], [])
    else
      var id := t.order[0];
      FrontLeaves(t.order);
      var s := Sweep(Remove(t, id, RecvWindow.Expired), terms, now);
      Swept(s.table, [id] + s.ids, [Released(t.groups[id].lease)] + s.ops)
  }

  lemma FrontLeaves(order: seq<U64>)
    requires Distinct(order) && order != []
    ensures Without(order, order[0]) == order[1..] && Distinct(order[1..])
    ensures forall x :: x in order[1..] <==> x in order && x != order[0]
  {
    WithoutKeeps(order, order[0]);
  }

  /** The list is in order of admission, so the sweep removes exactly the groups whose
      time is over; nothing it removes is completed, and each lease goes back once. */
  lemma {:induction false} SweepIsExact(t: Table, terms: Terms, clock: int, done: seq<U64>, now: int)
    requires TableOk(t, terms.k, terms.total, clock, done) && Apart(t.groups)
    ensures var s := Sweep(t, terms, now);
      && TableOk(s.table, terms.k, terms.total, clock, done) && Apart(s.table.groups)
      && (forall id :: id in s.table.groups <==> id in t.groups && !Due(t.groups[id], terms, now))
      && (forall id :: id in s.table.groups ==> s.table.groups[id] == t.groups[id])
      && HeldAfter(LeasesOf(t.groups), s.ops) == LeasesOf(s.table.groups)
    decreases |t.order|
  {
    hide TableOk, Apart, LeasesOf, Without, GroupOk, Due, HeldAfter, Distinct, Remove, RecvWindow.History.Valid;
    TableHas(t, terms, clock, done);
    OrderIs(t, terms, clock, done);
    NothingDone(t);
    if t.order != [] && Due(t.groups[t.order[0]], terms, now) {
      var id := t.order[0];
      var u := Remove(t, id, RecvWindow.Expired);
      RemoveIs(t, id, RecvWindow.Expired);
      FrontLeaves(t.order);
      RemoveKeeps(t, terms.k, terms.total, clock, done, id, RecvWindow.Expired);
      DropHeld(t.groups, id);
      SweepIsExact(u, terms, clock, done, now);
      OneOp(LeasesOf(t.groups), Released(t.groups[id].lease), Sweep(u, terms, now).ops);
    } else {
      NoneDue(t, terms, clock, done, now);
    }
  }

  lemma RemoveIs(t: Table, id: U64, outcome: RecvWindow.Status)
    requires id in t.order
    ensures var u := Remove(t, id, outcome); u.groups == t.groups - {id} && u.order == Without(t.order, id)
  {
  }

  lemma OrderIs(t: Table, terms: Terms, clock: int, done: seq<U64>)
    requires TableOk(t, terms.k, terms.total, clock, done)
    ensures Distinct(t.order)
  {
  }

  lemma NoneDue(t: Table, terms: Terms, clock: int, done: seq<U64>, now: int)
    requires TableOk(t, terms.k, terms.total, clock, done)
    requires t.order != [] ==> t.order[0] in t.groups && !Due(t.groups[t.order[0]], terms, now)
    ensures forall id :: id in t.groups ==> !Due(t.groups[id], terms, now)
  {
    hide GroupOk, Pending, Finished, RecvWindow.History.Valid;
    forall id | id in t.groups
      ensures !Due(t.groups[id], terms, now)
    {
      var k := IndexOf(t.order, id);
      assert Since(t.groups, t.order[0]) <= Since(t.groups, t.order[k]);
    }
  }

  // ---------------------------------------------------------------------------
  // Runs

  // retryGroups visits decoded groups in map order, so any of them may come next.
  datatype Event =
    | RecordEvent(r: Record, restricted: bool, now: int, answers: Answers)
    | RetryEvent(group: U64, now: int, admission: Admission)
    | SweepEvent(now: int)

  // The table, the groups completed and the leases held so far, and the clock.
  datatype Life = Life(table: Table, done: seq<U64>, held: set<Handle>, clock: int)

  ghost predicate LifeOk(l: Life, terms: Terms) {
    && TableOk(l.table, terms.k, terms.total, l.clock, l.done) && Apart(l.table.groups)
    && l.held == LeasesOf(l.table.groups) && |l.table.groups| <= terms.maxGroups
  }

  // Time never runs backwards, and the ledger grants no lease that is still held.
  predicate Possible(l: Life, terms: Terms, e: Event) {
    && e.now >= l.clock
    && (e.RecordEvent? ==>
        e.r.shard < terms.total && (e.answers.grant.Granted? ==> e.answers.grant.lease !in l.held))
  }

  // What the transitions need of a table.
  ghost predicate Shaped(t: Table, terms: Terms) {
    && Distinct(t.order) && (forall id :: id in t.order <==> id in t.groups)
    && forall id :: id in t.groups ==> GroupOk(t.groups[id], terms.k, terms.total)
  }

  // One event; what cannot happen changes nothing.
  ghost function Live(l: Life, terms: Terms, e: Event): Life {
    if !Possible(l, terms, e) || !Shaped(l.table, terms) then l
    else
      match e
      case RecordEvent(r, restricted, now, answers) =>
        var s := Take(l.table, r, restricted, terms, now, answers);
        Life(s.table, After(l.done, r.group, s), HeldAfter(l.held, s.ops), now)
      case RetryEvent(id, now, admission) =>
        if id !in l.table.groups || l.table.groups[id].fragments == BC.None then l.(clock := now)
        else
          var s := AdmitDecoded(l.table, id, admission);
          Life(s.table, After(l.done, id, s), HeldAfter(l.held, s.ops), now)
      case SweepEvent(now) =>
        var s := Sweep(l.table, terms, now);
        Life(s.table, l.done, HeldAfter(l.held, s.ops), now)
  }

  ghost function Run(span: nat, terms: Terms, start: int, events: seq<Event>): Life {
    if events == [] then Life(Table(map[], [], RecvWindow.NewHistory(span)), [], {}, start)
    else Live(Run(span, terms, start, events[..|events| - 1]), terms, events[|events| - 1])
  }

  lemma ShapeHolds(l: Life, terms: Terms)
    requires LifeOk(l, terms)
    ensures Shaped(l.table, terms)
  {
    hide GroupOk, Distinct, Sorted, Pending, Finished;
  }

  lemma LiveKeeps(l: Life, terms: Terms, e: Event)
    requires LifeOk(l, terms) && terms.k > 0
    ensures LifeOk(Live(l, terms, e), terms)
  {
    hide TableOk, Apart, LeasesOf, GroupOk, Take, AdmitDecoded, Sweep, Distinct, HeldAfter, Shaped;
    ShapeHolds(l, terms);
    TableHas(l.table, terms, l.clock, l.done);
    OrderIs(l.table, terms, l.clock, l.done);
    if Possible(l, terms, e) {
      LaterOk(l.table, terms, l.clock, l.done, e.now);
      match e {
        case RecordEvent(r, restricted, now, answers) =>
          TakeKeeps(l.table, r, restricted, terms, l.clock, l.done, now, answers);
          TakeAccounts(l.table, r, restricted, terms, now, answers);
        case RetryEvent(id, now, admission) =>
          if id in l.table.groups {
            AdmitDecodedKeeps(l.table, terms, now, l.done, id, admission);
            AdmitAccounts(l.table, id, admission);
            AdmitShrinks(l.table, id, admission);
          }
        case SweepEvent(now) =>
          SweepIsExact(l.table, terms, now, l.done, now);
          Smaller(Sweep(l.table, terms, now).table.groups.Keys, l.table.groups.Keys);
      }
    }
  }

  lemma AdmitShrinks(t: Table, id: U64, admission: Admission)
    requires id in t.order && id in t.groups
    ensures |AdmitDecoded(t, id, admission).table.groups| <= |t.groups|
  {
    Smaller(AdmitDecoded(t, id, admission).table.groups.Keys, t.groups.Keys);
  }

  /** Over every run of bundles, retries and sweeps: no group is completed twice, a
      completed group is gone for good, each group in the table holds one lease of its
      own, and every other lease that was reserved has been released. */
  lemma {:induction false} EveryRunIsOk(span: nat, terms: Terms, start: int, events: seq<Event>)
    requires span >= 1 && terms.k > 0
    ensures var l := Run(span, terms, start, events);
      && LifeOk(l, terms)
      && (forall i, j :: 0 <= i < j < |l.done| ==> l.done[i] != l.done[j])
      && (forall id :: id in l.done ==> id !in l.table.groups && l.table.window.State(id) != RecvWindow.Unseen)
      && l.held == LeasesOf(l.table.groups)
  {
    hide Live, Apart, LeasesOf, GroupOk, Sorted, Distinct;
    if events != [] {
      EveryRunIsOk(span, terms, start, events[..|events| - 1]);
      LiveKeeps(Run(span, terms, start, events[..|events| - 1]), terms, events[|events| - 1]);
    } else {
      BeginsOk(span, terms, start);
    }
  }

  lemma BeginsOk(span: nat, terms: Terms, start: int)
    requires span >= 1
    ensures LifeOk(Life(Table(map[], [], RecvWindow.NewHistory(span)), [], {}, start), terms)
  {
  }

  // ---------------------------------------------------------------------------
  // One bundle

  predicate Fails(a: Answer) {
    a != Taken && a != Ignored
  }

  datatype Batch = Batch(table: Table, answer: Answer, ops: seq<LeaseOp>, done: seq<U64>)

  // The first n records of a bundle, up to the first that fails.
  ghost function TakeFirst(
    t: Table, done: seq<U64>, rs: seq<Record>, restricted: bool, terms: Terms, now: int, answers: seq<Answers>, n: nat): Batch
    requires n <= |rs| == |answers| && forall i :: 0 <= i < |rs| ==> rs[i].shard < terms.total
  {
    if n == 0 then Batch(t, Taken, [], done)
    else
      var b := TakeFirst(t, done, rs, restricted, terms, now, answers, n - 1);
      if Fails(b.answer) || !Shaped(b.table, terms) then b
      else
        var s := Take(b.table, rs[n - 1], restricted, terms, now, answers[n - 1]);
        Batch(s.table, s.answer, b.ops + s.ops, After(b.done, rs[n - 1].group, s))
  }

  lemma {:induction false} FailureEnds(
    t: Table, done: seq<U64>, rs: seq<Record>, restricted: bool, terms: Terms, now: int, answers: seq<Answers>, i: nat, n: nat)
    requires i <= n <= |rs| == |answers| && forall i :: 0 <= i < |rs| ==> rs[i].shard < terms.total
    requires Fails(TakeFirst(t, done, rs, restricted, terms, now, answers, i).answer)
    ensures TakeFirst(t, done, rs, restricted, terms, now, answers, n)
      == TakeFirst(t, done, rs, restricted, terms, now, answers, i)
  {
    hide Take, Shaped, After, Fails;
    if i < n {
      FailureEnds(t, done, rs, restricted, terms, now, answers, i, n - 1);
    }
  }

  // ---------------------------------------------------------------------------
  // The code

  class Groups {
    const terms: Terms
    var groups: map<U64, Group>
    var links: map<U64, Link>
    var head: U64
    var tail: U64
    var window: RecvWindow.History
    var decoded: int
    var last: int

    // The groups in list order, and those completed so far.
    ghost var order: seq<U64>
    ghost var done: seq<U64>

    ghost function View(): Table
      reads this
    {
      Table(groups, order, window)
    }

    ghost predicate Listed()
      reads this
    {
      Linked(links, head, tail, order)
    }

    ghost predicate Valid()
      reads this
    {
      && terms.k > 0 && Listed() && TableOk(View(), terms.k, terms.total, last, done)
      && decoded == |Decoded(groups)| && |groups| <= terms.maxGroups
    }

    constructor (terms: Terms, span: nat, start: int)
      requires terms.k > 0 && span >= 1
      ensures Valid() && groups == map[] && done == [] && last == start && this.terms == terms
    {
      this.terms := terms;
      groups, links, head, tail, order, done := map[], map[], 0, 0, [], [];
      window, decoded, last := RecvWindow.NewHistory(span), 0, start;
    }

    // insertGroup, at the new end of the list.
    method InsertGroup(id: U64, g: Group)
      requires Listed() && id != 0 && id !in order
      modifies this`groups, this`links, this`head, this`tail, this`order
      ensures Listed() && groups == old(groups)[id := g] && order == old(order) + [id]
    {
      AppendedIsLinked(links, head, tail, order, id);
      var link := Link(tail, 0);
      if tail == 0 {
        head := id;
      } else {
        links := links[tail := links[tail].(next := id)];
      }
      links := links[id := link];
      groups, tail, order := groups[id := g], id, order + [id];
    }

    // releaseGroup: unlinks the group and gives back its lease.
    method ReleaseGroup(id: U64) returns (op: LeaseOp)
      requires Listed() && id in order && id in groups && decoded == |Decoded(groups)|
      modifies this`groups, this`links, this`head, this`tail, this`order, this`decoded
      ensures Listed() && groups == old(groups) - {id} && order == Without(old(order), id)
      ensures decoded == |Decoded(groups)| && op == Released(old(groups)[id].lease)
    {
      hide Linked, Decoded, Without;
      NeighboursLinked(links, head, tail, order, id);
      SplicedIsLinked(links, head, tail, order, id);
      DecodedDrop(groups, id);
      var a := links[id];
      if a.previous == 0 {
        head := a.next;
      } else {
        links := links[a.previous := links[a.previous].(next := a.next)];
      }
      if a.next == 0 {
        tail := a.previous;
      } else {
        links := links[a.next := links[a.next].(previous := a.previous)];
      }
      links := links - {id};
      if groups[id].fragments.Some? {
        decoded := decoded - 1;
      }
      op := Released(groups[id].lease);
      groups, order := groups - {id}, Without(order, id);
    }

    lemma Has()
      requires Valid()
      ensures Shaped(View(), terms)
    {
      TableHas(View(), terms, last, done);
      OrderIs(View(), terms, last, done);
    }

    // enter: the clock of the controller never runs backwards.
    method Enter(now: int) returns (ok: bool)
      requires Valid()
      modifies this`last
      ensures Valid() && (ok <==> now >= old(last)) && last == if ok then now else old(last)
    {
      ok := now >= last;
      if ok {
        LaterOk(View(), terms, last, done, now);
        last := now;
      }
    }

    // The window learns the outcome and the group is released.
    method Finish(id: U64, outcome: RecvWindow.Status) returns (op: LeaseOp)
      requires Valid() && id in groups && (outcome == RecvWindow.Expired || outcome == RecvWindow.Completed)
      modifies this`groups, this`links, this`head, this`tail, this`order, this`decoded, this`window, this`done
      ensures Valid() && id in old(order) && View() == Remove(old(View()), id, outcome)
      ensures op == Released(old(groups)[id].lease)
      ensures done == if outcome == RecvWindow.Completed then old(done) + [id] else old(done)
    {
      hide TableOk, Linked, Decoded, Without;
      TableHas(View(), terms, last, done);
      RemoveKeeps(View(), terms.k, terms.total, last, done, id, outcome);
      assert (groups - {id}).Keys == groups.Keys - {id};
      window := window.Finish(id, outcome);
      op := ReleaseGroup(id);
      if outcome == RecvWindow.Completed {
        done := done + [id];
      }
    }

    // admitOriginals
    method AdmitOriginals(id: U64, admission: Admission) returns (answer: Answer, ops: seq<LeaseOp>)
      requires Valid() && id in groups
      modifies this`groups, this`links, this`head, this`tail, this`order, this`decoded, this`window, this`done
      ensures Valid() && id in old(order)
      ensures var s := AdmitDecoded(old(View()), id, admission);
        View() == s.table && answer == s.answer && ops == s.ops && done == After(old(done), id, s)
    {
      hide TableOk, Linked, Decoded, Remove;
      TableHas(View(), terms, last, done);
      answer, ops := Taken, [];
      var op;
      match admission {
        case Admitted =>
          op := Finish(id, RecvWindow.Completed);
          ops := [op];
        case NoStorage => {}
        case Broken =>
          op := Finish(id, RecvWindow.Expired);
          answer, ops := Rejected, [op];
      }
    }

    // The group of a record changes in place.
    method Update(id: U64, g: Group)
      requires Valid() && id in groups && g.admitted == groups[id].admitted && GroupOk(g, terms.k, terms.total)
      modifies this`groups, this`decoded
      ensures Valid() && View() == old(View()).(groups := old(groups)[id := g])
    {
      hide TableOk, Linked, Decoded, GroupOk;
      UpdateKeeps(View(), terms.k, terms.total, last, done, id, g);
      DecodedDrop(groups, id);
      DecodedSet(groups, id, g);
      assert groups[id := g].Keys == groups.Keys;
      if g.fragments.Some? && groups[id].fragments == BC.None {
        decoded := decoded + 1;
      } else if g.fragments == BC.None && groups[id].fragments.Some? {
        decoded := decoded - 1;
      }
      groups := groups[id := g];
    }

    // The part of the loop that follows the lookup.
    method PlaceRecord(r: Record, answers: Answers) returns (answer: Answer, ops: seq<LeaseOp>)
      requires Valid() && r.group in groups && r.shard < terms.total
      modifies this`groups, this`links, this`head, this`tail, this`order, this`decoded, this`window, this`done
      ensures Valid() && r.group in old(order)
      ensures old(groups)[r.group].fragments == BC.None ==> r.shard < |old(groups)[r.group].shards|
      ensures var s := Place(old(View()), r, terms, last, answers);
        View() == s.table && answer == s.answer && ops == s.ops && done == After(old(done), r.group, s)
    {
      hide TableOk, Linked, Decoded, Remove, AdmitDecoded;
      TableHas(View(), terms, last, done);
      answer, ops := Taken, [];
      var id, g, op := r.group, groups[r.group], Shrunk(0);
      if last - g.admitted >= terms.timeout {
        op := Finish(id, RecvWindow.Expired);
        return Taken, [op];
      }
      if g.logical != r.logical || g.epoch != r.epoch {
        return Protocol, [];
      }
      if g.fragments.Some? {
        answer, ops := AdmitOriginals(id, answers.admission);
        return;
      }
      if g.shards[r.shard].Some? {
        return if g.shards[r.shard].value == r.payload then Taken else Protocol, [];
      }
      CountMore(g.shards, r.shard, r.payload, |g.shards|);
      g := g.(shards := g.shards[r.shard := BC.Some(r.payload)], present := g.present + 1);
      if g.present < terms.k {
        Update(id, g);
        return;
      }
      if answers.decoded == BC.None {
        op := Finish(id, RecvWindow.Expired);
        return Undecodable, [op];
      }
      Update(id, g.(shards := [], fragments := answers.decoded));
      answer, ops := AdmitOriginals(id, answers.admission);
      ops := [Shrunk(g.lease)] + ops;
    }

    /** One turn of receiveBundle's loop; the clock was advanced on entry. */
    method TakeRecord(r: Record, restricted: bool, answers: Answers) returns (answer: Answer, ops: seq<LeaseOp>)
      requires Valid() && r.shard < terms.total
      modifies this`groups, this`links, this`head, this`tail, this`order, this`decoded, this`window, this`done
      ensures Valid() && Shaped(old(View()), terms)
      ensures var s := Take(old(View()), r, restricted, terms, last, answers);
        View() == s.table && answer == s.answer && ops == s.ops && done == After(old(done), r.group, s)
    {
      hide TableOk, Linked, Decoded, Place, RecvWindow.History.State, RecvWindow.History.Admit;
      Has();
      if r.group in groups {
        answer, ops := PlaceRecord(r, answers);
        return;
      }
      if restricted || window.State(r.group) != RecvWindow.Unseen {
        return Ignored, [];
      }
      if |groups| == terms.maxGroups || answers.grant == NoCredit {
        return ResourceLimit, [];
      }
      if answers.grant == ScopeGone {
        return Closed, [];
      }
      var g := Fresh(r, terms, last, answers.grant.lease);
      CountNone(g.shards, |g.shards|);
      UnseenIsReal(window, r.group);
      InsertKeeps(View(), terms.k, terms.total, last, done, r.group, g, last);
      InsertGrows(View(), r.group, g);
      assert groups - {r.group} == groups;
      DecodedSet(groups, r.group, g);
      window := window.Admit(r.group);
      InsertGroup(r.group, g);
      answer, ops := PlaceRecord(r, answers);
      ops := [Reserved(g.lease)] + ops;
    }

    /** receiveBundle's loop: the records are taken in order, and the first that fails
        ends the bundle. */
    method TakeBundle(rs: seq<Record>, restricted: bool, answers: seq<Answers>) returns (answer: Answer, ops: seq<LeaseOp>)
      requires Valid() && |answers| == |rs| && forall i :: 0 <= i < |rs| ==> rs[i].shard < terms.total
      modifies this`groups, this`links, this`head, this`tail, this`order, this`decoded, this`window, this`done
      ensures Valid()
      ensures var b := TakeFirst(old(View()), old(done), rs, restricted, terms, last, answers, |rs|);
        View() == b.table && done == b.done && ops == b.ops && answer == if Fails(b.answer) then b.answer else Taken
    {
      hide Groups.Valid, Take, Shaped, After;
      ops := [];
      for i := 0 to |rs|
        invariant Valid()
        invariant var b := TakeFirst(old(View()), old(done), rs, restricted, terms, last, answers, i);
          View() == b.table && done == b.done && ops == b.ops && !Fails(b.answer)
      {
        var more;
        answer, more := TakeRecord(rs[i], restricted, answers[i]);
        ops := ops + more;
        if answer != Taken && answer != Ignored {
          FailureEnds(old(View()), old(done), rs, restricted, terms, last, answers, i + 1, |rs|);
          return;
        }
      }
      answer := Taken;
    }

    // expireGroups
    method ExpireGroups(now: int) returns (ids: seq<U64>, ops: seq<LeaseOp>)
      requires Valid() && now >= last
      modifies this
      ensures Valid() && Shaped(old(View()), terms) && last == now && done == old(done)
      ensures Swept(View(), ids, ops) == Sweep(old(View()), terms, now)
    {
      hide TableOk, Linked, Decoded, Sweep, Due, Without;
      Has();
      LaterOk(View(), terms, last, done, now);
      last := now;
      ids, ops := [], [];
      while head != 0
        invariant Valid() && last == now && done == old(done) && Shaped(View(), terms)
        invariant var s := Sweep(View(), terms, now);
          Swept(s.table, ids + s.ids, ops + s.ops) == Sweep(old(View()), terms, now)
        decreases |order|
      {
        HeadIs();
        SweepStep(View(), terms, now);
        if !Due(groups[head], terms, now) {
          break;
        }
        var id := head;
        FrontLeaves(order);
        var op := Finish(id, RecvWindow.Expired);
        Has();
        ids, ops := ids + [id], ops + [op];
      }
      HeadIs();
      SweepStep(View(), terms, now);
      assert ids + [] == ids && ops + [] == ops;
    }

    lemma HeadIs()
      requires Listed()
      ensures head != 0 <==> order != []
      ensures head != 0 ==> head == order[0]
    {
    }
  }

  // One turn of the sweep, or its end.
  lemma SweepStep(t: Table, terms: Terms, now: int)
    requires Shaped(t, terms)
    ensures t.order == [] || !Due(t.groups[t.order[0]], terms, now) ==> Sweep(t, terms, now) == Swept(t, [], [])
    ensures t.order != [] && Due(t.groups[t.order[0]], terms, now) ==>
      var id, u := t.order[0], Remove(t, t.order[0], RecvWindow.Expired);
      && Distinct(u.order) && (forall x :: x in u.order <==> x in u.groups)
      && var s := Sweep(u, terms, now);
      Sweep(t, terms, now) == Swept(s.table, [id] + s.ids, [Released(t.groups[id].lease)] + s.ops)
  {
    if t.order != [] {
      FrontLeaves(t.order);
    }
  }

  function Decoded(groups: map<U64, Group>): set<U64> {
    set id | id in groups && groups[id].fragments.Some?
  }

  lemma DecodedDrop(groups: map<U64, Group>, id: U64)
    requires id in groups
    ensures |Decoded(groups - {id})| == |Decoded(groups)| - if groups[id].fragments.Some? then 1 else 0
  {
    assert Decoded(groups - {id}) == Decoded(groups) - {id};
  }

  lemma DecodedSet(groups: map<U64, Group>, id: U64, g: Group)
    ensures |Decoded(groups[id := g])| == |Decoded(groups - {id})| + if g.fragments.Some? then 1 else 0
  {
    var next := groups[id := g];
    assert next - {id} == groups - {id};
    DecodedDrop(next, id);
  }
}
