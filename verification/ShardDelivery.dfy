// When a sealed group is delivered: enough of its shards arrived in span, in time and
// with room for it, and once they had, there was storage for its originals.
module ShardDelivery {
  import opened Words
  import opened Packing
  import opened BlockCodec
  import opened DataPath
  import opened GroupCodec
  import AggregationQueue
  import Completion
  import CreditLedger
  import DeadlineList
  import EndToEnd
  import GT = GroupTable
  import Reassembly
  import RecvWindow
  import SenderRun

  // ---------------------------------------------------------------------------
  // The table

  // Every index in got is that of a shard that is there.
  predicate AllIn(got: set<nat>, shards: seq<Option<Bytes>>) {
    forall i :: i in got ==> i < |shards| && shards[i].Some?
  }

  // The ID is still free for its group.
  predicate Open(w: RecvWindow.History, id: U64) {
    w.State(id) == RecvWindow.Unseen || w.State(id) == RecvWindow.Retired
  }

  // The group waits with all the shards received so far, or decoded for storage, or
  // nothing of it was received.
  predicate Waits(t: GT.Table, id: U64, fs: seq<Fragment>, got: set<nat>) {
    if id in t.groups then
      t.groups[id].fragments == Some(fs) || (t.groups[id].fragments == None && AllIn(got, t.groups[id].shards))
    else got == {} && Open(t.window, id)
  }

  lemma {:induction false} CountAll(got: set<nat>, shards: seq<Option<Bytes>>, n: nat)
    requires n <= |shards| && forall i :: i in got ==> i < n && shards[i].Some?
    ensures |got| <= CountTo(shards, n)
    decreases n
  {
    if n == 0 {
      assert got == {};
    } else {
      var rest := got - {n - 1};
      CountAll(rest, shards, n - 1);
      assert got == rest || got == rest + {n - 1};
    }
  }

  // A record of the group is collected; when it completes the group, the group is what
  // was sealed, and it leaves the table only because its originals were admitted.
  lemma PlaceCollects(c: Link, sealed: Sealed, t: GT.Table, r: GT.Record, now: int, answers: GT.Answers, got: set<nat>)
    requires c.Valid() && AllHold(c, sealed, t.groups) && Honest(c, sealed, r)
    requires r.group in t.order && r.group in t.groups && GT.GroupOk(t.groups[r.group], c.terms.k, c.terms.total)
    requires CodecSays(c, t, r, now, answers.decoded) && !GT.Due(t.groups[r.group], c.terms, now)
    requires answers.admission != GT.Broken && Waits(t, r.group, sealed[r.group], got)
    ensures t.groups[r.group].fragments == None ==> r.shard < |t.groups[r.group].shards|
    ensures var s := GT.Place(t, r, c.terms, now, answers);
      && (s.completed ==> answers.admission == GT.Admitted && s.handed == Some(sealed[r.group]))
      && (!s.completed ==> r.group in s.table.groups && Waits(s.table, r.group, sealed[r.group], got + {r.shard}))
      && (|got + {r.shard}| >= c.terms.k ==>
          s.handed == Some(sealed[r.group]) && (s.completed <==> answers.admission == GT.Admitted))
  {
    hide Shards, Encodable, Reliable, LogicalSize, CountOf, DecodedBy, Link.Valid, RecvWindow.History.State,
      GT.Due, GT.Remove;
    TermsAreReal(c);
    var g, fs := t.groups[r.group], sealed[r.group];
    assert Holds(c, g, fs);
    if g.fragments == None {
      Enough(c, g, got, r.shard);
      if g.shards[r.shard] == None {
        CompletedGroup(c, g, fs, r, answers.decoded);
      } else {
        SameShard(c, g, fs, r);
      }
    }
  }

  lemma Enough(c: Link, g: GT.Group, got: set<nat>, shard: nat)
    requires g.fragments == None && GT.GroupOk(g, c.terms.k, c.terms.total) && AllIn(got, g.shards) && shard < c.terms.total
    ensures g.shards[shard].Some? ==> |got + {shard}| < c.terms.k
    ensures |got + {shard}| >= c.terms.k ==> g.present + 1 >= c.terms.k
  {
    CountAll(got, g.shards, |g.shards|);
    if g.shards[shard].Some? {
      CountAll(got + {shard}, g.shards, |g.shards|);
    }
    assert |got + {shard}| <= |got| + 1;
  }

  lemma SameShard(c: Link, g: GT.Group, fs: seq<Fragment>, r: GT.Record)
    requires c.p.Valid() && Holds(c, g, fs) && g.fragments == None && r.shard < |g.shards| && g.shards[r.shard].Some?
    requires r.shard < |Shards(c.p, c.codec, fs)| && r.payload == Shards(c.p, c.codec, fs)[r.shard]
    ensures g.shards[r.shard].value == r.payload
  {
    hide Shards, Encodable, LogicalSize;
  }

  // Whether a record counts: its group is known, or it may begin.
  predicate Counts(t: GT.Table, terms: GT.Terms, r: GT.Record, restricted: bool, ledger: GT.Grant) {
    r.group in t.groups
    || (!restricted && t.window.State(r.group) == RecvWindow.Unseen && |t.groups| != terms.maxGroups && ledger.Granted?)
  }

  lemma TakeCollects(
    c: Link, sealed: Sealed, t: GT.Table, r: GT.Record, restricted: bool, now: int, answers: GT.Answers, got: set<nat>)
    requires c.Valid() && AllHold(c, sealed, t.groups) && Honest(c, sealed, r) && GT.Shaped(t, c.terms) && c.terms.timeout > 0
    requires CodecSays(c, t, r, now, answers.decoded) && (r.group in t.groups ==> !GT.Due(t.groups[r.group], c.terms, now))
    requires answers.admission != GT.Broken && Waits(t, r.group, sealed[r.group], got)
    ensures var s := GT.Take(t, r, restricted, c.terms, now, answers);
      var all := if Counts(t, c.terms, r, restricted, answers.grant) then got + {r.shard} else got;
      && (s.completed ==> answers.admission == GT.Admitted && s.handed == Some(sealed[r.group]))
      && (!s.completed ==> Waits(s.table, r.group, sealed[r.group], all))
      && (Counts(t, c.terms, r, restricted, answers.grant) && |all| >= c.terms.k ==>
          s.handed == Some(sealed[r.group]) && (s.completed <==> answers.admission == GT.Admitted))
  {
    hide GT.Place, GT.GroupOk, Honest, AllHold, DecodedBy, Link.Valid, RecvWindow.History.State;
    TermsAreReal(c);
    HonestShard(c, sealed, r);
    if r.group in t.groups {
      PlaceCollects(c, sealed, t, r, now, answers, got);
    } else if Counts(t, c.terms, r, restricted, answers.grant) {
      var n := GT.Insert(t, r.group, GT.Fresh(r, c.terms, now, answers.grant.lease));
      FreshHolds(c, sealed, t, r, now, answers.grant.lease);
      assert got == {} && n.groups[r.group].fragments == None;
      PlaceCollects(c, sealed, n, r, now, answers, got);
    }
  }

  // The reassembler's answer decides what becomes of the group, not which it is.
  lemma HandedAlike(t: GT.Table, r: GT.Record, restricted: bool, terms: GT.Terms, now: int, answers: GT.Answers, admission: GT.Admission)
    requires GT.Shaped(t, terms) && r.shard < terms.total
    ensures GT.Take(t, r, restricted, terms, now, answers).handed
      == GT.Take(t, r, restricted, terms, now, answers.(admission := admission)).handed
    ensures GT.Take(t, r, restricted, terms, now, answers).completed ==>
      GT.Take(t, r, restricted, terms, now, answers).handed.Some?
  {
    hide GT.Remove, GT.GroupOk, RecvWindow.History.State;
    assert r.group in t.groups ==> GT.GroupOk(t.groups[r.group], terms.k, terms.total);
    if r.group in t.groups {
      GroupHasShard(t, r, terms);
    }
  }

  lemma GroupHasShard(t: GT.Table, r: GT.Record, terms: GT.Terms)
    requires GT.Shaped(t, terms) && r.shard < terms.total && r.group in t.groups
    ensures t.groups[r.group].fragments == None ==> r.shard < |t.groups[r.group].shards|
  {
  }

  // What happens to other groups leaves this one alone.
  predicate SameFor(t: GT.Table, u: GT.Table, id: U64) {
    && (id in u.groups <==> id in t.groups) && (id in t.groups ==> u.groups[id] == t.groups[id])
    && (Open(t.window, id) ==> Open(u.window, id))
  }

  lemma WaitsStill(t: GT.Table, u: GT.Table, id: U64, fs: seq<Fragment>, got: set<nat>)
    requires SameFor(t, u, id) && Waits(t, id, fs, got)
    ensures Waits(u, id, fs, got)
  {
    hide Open;
  }

  lemma RemoveSame(t: GT.Table, other: U64, outcome: RecvWindow.Status, id: U64)
    requires t.window.Valid() && other in t.order && GT.Pending(t.window, other) && id != other
    ensures SameFor(t, GT.Remove(t, other, outcome), id)
  {
    hide RecvWindow.History.Finish, RecvWindow.History.State, RecvWindow.History.Valid;
    Reassembly.FinishFrame(t.window, other, outcome);
  }

  lemma AdmitSame(t: GT.Table, other: U64, admission: GT.Admission, id: U64)
    requires t.window.Valid() && other in t.order && other in t.groups && GT.Pending(t.window, other) && id != other
    ensures SameFor(t, GT.AdmitDecoded(t, other, admission).table, id)
  {
    hide GT.Remove, Open, RecvWindow.History.Valid, GT.Pending;
    RemoveSame(t, other, RecvWindow.Completed, id);
    RemoveSame(t, other, RecvWindow.Expired, id);
  }

  lemma InsertSame(t: GT.Table, other: U64, g: GT.Group, id: U64)
    requires t.window.Valid() && t.window.State(other) == RecvWindow.Unseen && id != other && id != 0
    ensures SameFor(t, GT.Insert(t, other, g), id) && GT.Insert(t, other, g).window.Valid()
    ensures other != 0 ==> GT.Pending(GT.Insert(t, other, g).window, other)
  {
    hide RecvWindow.History.Admit, RecvWindow.History.State, RecvWindow.History.Valid;
    Reassembly.AdmitFrame(t.window, other);
  }

  lemma PlaceSame(t: GT.Table, r: GT.Record, terms: GT.Terms, now: int, answers: GT.Answers, id: U64)
    requires r.group in t.order && r.group in t.groups
    requires t.groups[r.group].fragments == None ==> r.shard < |t.groups[r.group].shards|
    requires t.window.Valid() && GT.Pending(t.window, r.group) && id != r.group
    ensures SameFor(t, GT.Place(t, r, terms, now, answers).table, id)
  {
    hide GT.Remove, GT.AdmitDecoded, Open, RecvWindow.History.Valid, GT.Pending;
    var g := t.groups[r.group];
    RemoveSame(t, r.group, RecvWindow.Expired, id);
    AdmitSame(t, r.group, answers.admission, id);
    var next := g.(shards := [], present := g.present + 1, fragments := answers.decoded);
    AdmitSame(t.(groups := t.groups[r.group := next]), r.group, answers.admission, id);
  }

  lemma TakeSame(
    t: GT.Table, r: GT.Record, restricted: bool, terms: GT.Terms, clock: int, done: seq<U64>, now: int, answers: GT.Answers, id: U64)
    requires GT.TableOk(t, terms.k, terms.total, clock, done) && GT.Shaped(t, terms) && r.shard < terms.total && id != r.group && id != 0
    ensures SameFor(t, GT.Take(t, r, restricted, terms, now, answers).table, id)
  {
    hide GT.Place, GT.Insert, Open, RecvWindow.History.Valid, RecvWindow.History.State, GT.Pending, GT.GroupOk, GT.Sorted;
    if r.group in t.groups {
      GroupHasShard(t, r, terms);
      PlaceSame(t, r, terms, now, answers, id);
    } else if !restricted && t.window.State(r.group) == RecvWindow.Unseen && |t.groups| != terms.maxGroups
      && answers.grant.Granted? {
      var g := GT.Fresh(r, terms, now, answers.grant.lease);
      GT.UnseenIsReal(t.window, r.group);
      InsertSame(t, r.group, g, id);
      GT.InsertGrows(t, r.group, g);
      PlaceSame(GT.Insert(t, r.group, g), r, terms, now, answers, id);
    }
  }

  lemma {:induction false} SweepOpen(t: GT.Table, terms: GT.Terms, clock: int, done: seq<U64>, now: int, id: U64)
    requires GT.TableOk(t, terms.k, terms.total, clock, done) && GT.Shaped(t, terms) && id !in t.groups && Open(t.window, id)
    ensures Open(GT.Sweep(t, terms, now).table.window, id)
    decreases |t.order|
  {
    hide GT.TableOk, GT.Remove, GT.GroupOk, GT.Due, Open, DeadlineList.Without, DeadlineList.Distinct;
    if t.order != [] && GT.Due(t.groups[t.order[0]], terms, now) {
      var first := t.order[0];
      GT.FrontLeaves(t.order);
      SweptPending(t, terms, clock, done, first);
      RemoveSame(t, first, RecvWindow.Expired, id);
      GT.RemoveKeeps(t, terms.k, terms.total, clock, done, first, RecvWindow.Expired);
      GT.RemoveIs(t, first, RecvWindow.Expired);
      var u := GT.Remove(t, first, RecvWindow.Expired);
      GT.TableHas(u, terms, clock, done);
      GT.OrderIs(u, terms, clock, done);
      SweepOpen(u, terms, clock, done, now, id);
    }
  }

  lemma SweptPending(t: GT.Table, terms: GT.Terms, clock: int, done: seq<U64>, id: U64)
    requires GT.TableOk(t, terms.k, terms.total, clock, done) && id in t.groups
    ensures t.window.Valid() && GT.Pending(t.window, id)
  {
  }

  // ---------------------------------------------------------------------------
  // One event

  ghost function Reassembler(c: Link, clock: int, w: World): EndToEnd.Reception
    requires c.limits.InBounds()
  {
    EndToEnd.RunReceiver(c.limits, c.scope, clock, w.arrivals)
  }

  // A group with these fragments was accepted.
  ghost predicate ServedAt(c: Link, clock: int, arrivals: seq<EndToEnd.Event>, fs: seq<Fragment>, j: nat)
    requires c.limits.InBounds() && j < |arrivals|
  {
    && arrivals[j].Arrive? && arrivals[j].group == fs
    && EndToEnd.Accepted(EndToEnd.RunReceiver(c.limits, c.scope, clock, arrivals[..j]), c.scope, c.limits, arrivals[j])
  }

  ghost predicate Served(c: Link, clock: int, arrivals: seq<EndToEnd.Event>, fs: seq<Fragment>)
    requires c.limits.InBounds()
  {
    exists j :: 0 <= j < |arrivals| && ServedAt(c, clock, arrivals, fs, j)
  }

  lemma ServedStays(c: Link, clock: int, arrivals: seq<EndToEnd.Event>, more: seq<EndToEnd.Event>, fs: seq<Fragment>)
    requires c.limits.InBounds() && Served(c, clock, arrivals, fs)
    ensures Served(c, clock, arrivals + more, fs)
  {
    hide EndToEnd.Accepted, EndToEnd.RunReceiver;
    var j :| 0 <= j < |arrivals| && ServedAt(c, clock, arrivals, fs, j);
    assert (arrivals + more)[..j] == arrivals[..j];
    assert ServedAt(c, clock, arrivals + more, fs, j);
  }

  // The event asks for this group to be taken further.
  predicate For(e: Event, id: U64) {
    (e.Shard? && e.r.group == id) || (e.Retry? && e.group == id)
  }

  // What the reassembler answers if the event hands over this group.
  ghost function Answer(c: Link, clock: int, w: World, e: Event, fs: seq<Fragment>): GT.Admission
    requires c.limits.InBounds() && (e.Shard? || e.Retry?)
  {
    Admission(c, Reassembler(c, clock, w), EndToEnd.Arrive(e.now, fs, e.answer, e.grant))
  }

  // A shard of the group counts: it comes in order, and its group is known or begins.
  ghost predicate Received(c: Link, clock: int, w: World, e: Event, id: U64)
    requires c.limits.InBounds()
  {
    && e.Shard? && e.r.group == id && InOrder(c, clock, w, e) && GT.Possible(w.life, c.terms, TableEvent(e, GT.NoStorage))
    && Counts(w.life.table, c.terms, e.r, e.restricted, e.ledger)
  }

  // The group is not overdue at this event, and the reassembler does not refuse it for
  // good if it is asked.
  ghost predicate Spares(c: Link, clock: int, w: World, e: Event, id: U64, fs: seq<Fragment>)
    requires c.limits.InBounds()
  {
    && (!e.Tick? && id in w.life.table.groups ==> !GT.Due(w.life.table.groups[id], c.terms, e.now))
    && (For(e, id) ==> Answer(c, clock, w, e, fs) != GT.Broken)
  }

  // The group was accepted, or waits with what was received.
  ghost predicate Kept(c: Link, clock: int, w: World, id: U64, fs: seq<Fragment>, got: set<nat>)
    requires c.limits.InBounds()
  {
    Served(c, clock, w.arrivals, fs) || Waits(w.life.table, id, fs, got)
  }

  ghost function Gained(c: Link, clock: int, w: World, e: Event, id: U64): set<nat>
    requires c.limits.InBounds()
  {
    if Received(c, clock, w, e, id) then {e.r.shard} else {}
  }

  // The answer that the table gets for the event.
  ghost function TableAnswer(c: Link, clock: int, w: World, e: Event): GT.Admission
    requires c.limits.InBounds() && !e.Tick?
  {
    var handed := Handed(c, w.life, e);
    if handed == None || !(e.Shard? || e.Retry?) then GT.NoStorage else Answer(c, clock, w, e, handed.value)
  }

  lemma NextIs(c: Link, clock: int, w: World, e: Event)
    requires c.limits.InBounds() && InOrder(c, clock, w, e) && !e.Tick?
    ensures var n := Next(c, clock, w, e);
      && n.life == GT.Live(w.life, c.terms, TableEvent(e, TableAnswer(c, clock, w, e)))
      && n.arrivals == w.arrivals + if Handed(c, w.life, e) == None then []
                                    else [EndToEnd.Arrive(e.now, Handed(c, w.life, e).value, e.answer, e.grant)]
  {
    hide GT.Live, EndToEnd.RunReceiver, Handed, Admission, InOrder;
    HandedHasAnswers(c, w.life, e);
    assert w.arrivals + [] == w.arrivals;
  }

  // A group that the reassembler took in was accepted.
  lemma TakenIsServed(c: Link, clock: int, w: World, e: Event, fs: seq<Fragment>)
    requires c.limits.InBounds() && InOrder(c, clock, w, e) && (e.Shard? || e.Retry?)
    requires Handed(c, w.life, e) == Some(fs) && Answer(c, clock, w, e, fs) == GT.Admitted
    ensures Served(c, clock, Next(c, clock, w, e).arrivals, fs)
  {
    hide GT.Live, EndToEnd.RunReceiver, Handed, Reassembly.AddAll, Reassembly.AcceptableGroup, Next;
    NextIs(c, clock, w, e);
    var arrivals := Next(c, clock, w, e).arrivals;
    var j := |w.arrivals|;
    assert arrivals[..j] == w.arrivals;
    assert ServedAt(c, clock, arrivals, fs, j);
  }

  lemma OwnShard(c: Link, sealed: Sealed, clock: int, w: World, e: Event, got: set<nat>)
    requires c.Valid() && c.terms.timeout > 0 && WorldOk(c, sealed, w) && TrueEvent(c, sealed, w, e) && e.Shard?
    requires InOrder(c, clock, w, e) && GT.Possible(w.life, c.terms, TableEvent(e, GT.NoStorage))
    requires e.r.group in sealed && Spares(c, clock, w, e, e.r.group, sealed[e.r.group])
    requires Waits(w.life.table, e.r.group, sealed[e.r.group], got)
    ensures var n, fs, all := Next(c, clock, w, e), sealed[e.r.group], got + Gained(c, clock, w, e, e.r.group);
      && Kept(c, clock, n, e.r.group, fs, all)
      && (Received(c, clock, w, e, e.r.group) && |all| >= c.terms.k && Answer(c, clock, w, e, fs) == GT.Admitted ==>
          Served(c, clock, n.arrivals, fs))
  {
    hide GT.LifeOk, GT.Take, Waits, Answer, InOrder, Honest, AllHold, CodecSays, Link.Valid, FromSealed, Served, Next,
      RecvWindow.History.State, GT.Shaped, EndToEnd.RunReceiver;
    TermsAreReal(c);
    GT.ShapeHolds(w.life, c.terms);
    HonestShard(c, sealed, e.r);
    var t, answers := w.life.table, GT.Answers(e.ledger, e.decoded, TableAnswer(c, clock, w, e));
    HandedAlike(t, e.r, e.restricted, c.terms, e.now, GT.Answers(e.ledger, e.decoded, GT.NoStorage), answers.admission);
    TakeIsTrue(c, sealed, t, e.r, e.restricted, e.now, GT.Answers(e.ledger, e.decoded, GT.NoStorage));
    TakeCollects(c, sealed, t, e.r, e.restricted, e.now, answers, got);
    NextIs(c, clock, w, e);
    if Handed(c, w.life, e) == Some(sealed[e.r.group]) && Answer(c, clock, w, e, sealed[e.r.group]) == GT.Admitted {
      TakenIsServed(c, clock, w, e, sealed[e.r.group]);
    }
    assert got + {} == got;
  }

  lemma OwnRetry(c: Link, clock: int, w: World, e: Event, fs: seq<Fragment>, got: set<nat>)
    requires c.limits.InBounds() && e.Retry? && GT.LifeOk(w.life, c.terms)
    requires InOrder(c, clock, w, e) && Spares(c, clock, w, e, e.group, fs) && Waits(w.life.table, e.group, fs, got)
    ensures Kept(c, clock, Next(c, clock, w, e), e.group, fs, got)
    ensures e.group in w.life.table.groups && w.life.table.groups[e.group].fragments.Some? && Answer(c, clock, w, e, fs) == GT.Admitted
      ==> Served(c, clock, Next(c, clock, w, e).arrivals, fs)
  {
    hide GT.LifeOk, Answer, Served, Next, RecvWindow.History.State, GT.Shaped, GT.Remove, EndToEnd.RunReceiver;
    GT.ShapeHolds(w.life, c.terms);
    RetryPossible(c, w, e);
    NextIs(c, clock, w, e);
    ShapedHas(w.life.table, c.terms, e.group);
    if Handed(c, w.life, e) == Some(fs) && Answer(c, clock, w, e, fs) == GT.Admitted {
      TakenIsServed(c, clock, w, e, fs);
    }
  }

  lemma ShapedHas(t: GT.Table, terms: GT.Terms, id: U64)
    requires GT.Shaped(t, terms)
    ensures id in t.groups <==> id in t.order
  {
  }

  lemma RetryPossible(c: Link, w: World, e: Event)
    requires e.Retry?
    ensures e.now >= w.life.clock ==> forall a :: GT.Possible(w.life, c.terms, TableEvent(e, a))
  {
  }

  lemma OtherEvent(c: Link, clock: int, w: World, e: Event, id: U64, fs: seq<Fragment>, got: set<nat>)
    requires c.limits.InBounds() && c.terms.k > 0 && GT.LifeOk(w.life, c.terms) && !e.Tick? && !For(e, id) && id != 0
    requires InOrder(c, clock, w, e) && Spares(c, clock, w, e, id, fs) && Waits(w.life.table, id, fs, got)
    ensures Waits(Next(c, clock, w, e).life.table, id, fs, got)
  {
    hide GT.TableOk, Answer, InOrder, Waits, Next, GT.Take, GT.AdmitDecoded, GT.Sweep, GT.Shaped, SameFor, GT.LeasesOf, GT.Apart;
    GT.ShapeHolds(w.life, c.terms);
    GT.TableHas(w.life.table, c.terms, w.life.clock, w.life.done);
    NextIs(c, clock, w, e);
    var t := w.life.table;
    var event := TableEvent(e, TableAnswer(c, clock, w, e));
    if GT.Possible(w.life, c.terms, event) {
      match e {
        case Shard(r, restricted, now, ledger, decoded, _, _) =>
          TakeSame(t, r, restricted, c.terms, w.life.clock, w.life.done, now, event.answers, id);
          WaitsStill(t, GT.Take(t, r, restricted, c.terms, now, event.answers).table, id, fs, got);
        case Retry(group, now, _, _) =>
          ShapedHas(t, c.terms, group);
          if group in t.groups {
            SweptPending(t, c.terms, w.life.clock, w.life.done, group);
            AdmitSame(t, group, event.admission, id);
            WaitsStill(t, GT.AdmitDecoded(t, group, event.admission).table, id, fs, got);
          }
        case Sweep(now) =>
          GT.SweepIsExact(t, c.terms, w.life.clock, w.life.done, now);
          SweepWaits(t, c.terms, w.life.clock, w.life.done, now, id, fs, got);
      }
    }
  }

  lemma SweepWaits(
    t: GT.Table, terms: GT.Terms, clock: int, done: seq<U64>, now: int, id: U64, fs: seq<Fragment>, got: set<nat>)
    requires GT.TableOk(t, terms.k, terms.total, clock, done) && GT.Apart(t.groups) && GT.Shaped(t, terms)
    requires Waits(t, id, fs, got) && (id in t.groups ==> !GT.Due(t.groups[id], terms, now))
    ensures Waits(GT.Sweep(t, terms, now).table, id, fs, got)
  {
    hide GT.TableOk, GT.Sweep, GT.Shaped, GT.Apart, GT.LeasesOf, Open, AllIn;
    GT.SweepIsExact(t, terms, clock, done, now);
    if id !in t.groups {
      SweepOpen(t, terms, clock, done, now, id);
    }
  }

  // The event takes the group further: a shard that counts, or another try.
  ghost predicate Asks(c: Link, clock: int, w: World, e: Event, id: U64)
    requires c.limits.InBounds()
  {
    Received(c, clock, w, e, id) || (e.Retry? && e.group == id && InOrder(c, clock, w, e))
  }

  lemma EventKeeps(c: Link, sealed: Sealed, clock: int, w: World, e: Event, id: U64, got: set<nat>)
    requires c.Valid() && c.terms.timeout > 0 && WorldOk(c, sealed, w) && TrueEvent(c, sealed, w, e)
    requires id in sealed && id != 0 && Spares(c, clock, w, e, id, sealed[id]) && Kept(c, clock, w, id, sealed[id], got)
    ensures Kept(c, clock, Next(c, clock, w, e), id, sealed[id], got + Gained(c, clock, w, e, id))
    ensures Asks(c, clock, w, e, id) && |got + Gained(c, clock, w, e, id)| >= c.terms.k ==>
      Answer(c, clock, w, e, sealed[id]) == GT.Admitted ==> Served(c, clock, Next(c, clock, w, e).arrivals, sealed[id])
  {
    hide GT.LifeOk, Answer, Served, Next, Waits, Spares, AllHold, Link.Valid, TrueEvent, EndToEnd.RunReceiver, Received;
    TermsAreReal(c);
    GainedBy(c, clock, w, e, id);
    assert got + {} == got;
    if Served(c, clock, w.arrivals, sealed[id]) {
      NextServes(c, clock, w, e, sealed[id]);
    } else if !InOrder(c, clock, w, e) || e.Tick? {
      Unmoved(c, clock, w, e);
    } else if e.Shard? && e.r.group == id {
      if GT.Possible(w.life, c.terms, TableEvent(e, GT.NoStorage)) {
        OwnShard(c, sealed, clock, w, e, got);
      } else {
        Impossible(c, clock, w, e);
      }
    } else if e.Retry? && e.group == id {
      OwnRetry(c, clock, w, e, sealed[id], got);
      if |got| >= c.terms.k {
        EnoughIsDecoded(c, w, id, sealed[id], got);
      }
    } else {
      OtherEvent(c, clock, w, e, id, sealed[id], got);
    }
  }

  lemma GainedBy(c: Link, clock: int, w: World, e: Event, id: U64)
    requires c.limits.InBounds()
    ensures Received(c, clock, w, e, id) ==>
      && e.Shard? && e.r.group == id && InOrder(c, clock, w, e)
      && GT.Possible(w.life, c.terms, TableEvent(e, GT.NoStorage))
  {
  }

  lemma NextServes(c: Link, clock: int, w: World, e: Event, fs: seq<Fragment>)
    requires c.limits.InBounds() && Served(c, clock, w.arrivals, fs)
    ensures Served(c, clock, Next(c, clock, w, e).arrivals, fs)
  {
    hide Served, GT.Live, Handed, Admission, EndToEnd.RunReceiver, InOrder;
    if InOrder(c, clock, w, e) {
      if e.Tick? {
        ServedStays(c, clock, w.arrivals, [EndToEnd.Tick(e.now)], fs);
      } else if Handed(c, w.life, e).Some? {
        HandedHasAnswers(c, w.life, e);
        ServedStays(c, clock, w.arrivals, [EndToEnd.Arrive(e.now, Handed(c, w.life, e).value, e.answer, e.grant)], fs);
      }
    }
  }

  lemma Unmoved(c: Link, clock: int, w: World, e: Event)
    requires c.limits.InBounds() && (!InOrder(c, clock, w, e) || e.Tick?)
    ensures Next(c, clock, w, e).life == w.life
  {
    hide EndToEnd.RunReceiver, InOrder;
  }

  lemma Impossible(c: Link, clock: int, w: World, e: Event)
    requires c.limits.InBounds() && e.Shard? && !GT.Possible(w.life, c.terms, TableEvent(e, GT.NoStorage))
    ensures Next(c, clock, w, e).life == w.life
  {
    hide EndToEnd.RunReceiver, InOrder, Admission;
  }

  lemma EnoughIsDecoded(c: Link, w: World, id: U64, fs: seq<Fragment>, got: set<nat>)
    requires c.terms.k > 0 && GT.LifeOk(w.life, c.terms) && Waits(w.life.table, id, fs, got) && |got| >= c.terms.k
    ensures id in w.life.table.groups && w.life.table.groups[id].fragments.Some?
  {
    hide GT.TableOk, Open;
    var t := w.life.table;
    GT.TableHas(t, c.terms, w.life.clock, w.life.done);
    if id in t.groups && t.groups[id].fragments == None {
      CountAll(got, t.groups[id].shards, |t.groups[id].shards|);
    }
  }

  // ---------------------------------------------------------------------------
  // Runs

  // The indices of the shards of the group that counted.
  ghost function Got(c: Link, span: nat, clock: int, events: seq<Event>, id: U64): set<nat>
    requires c.limits.InBounds()
  {
    if events == [] then {}
    else
      var front := events[..|events| - 1];
      Got(c, span, clock, front, id) + Gained(c, clock, Run(c, span, clock, front), events[|events| - 1], id)
  }

  ghost predicate Spared(c: Link, span: nat, clock: int, events: seq<Event>, id: U64, fs: seq<Fragment>)
    requires c.limits.InBounds()
  {
    forall n :: 0 <= n < |events| ==> Spares(c, clock, Run(c, span, clock, events[..n]), events[n], id, fs)
  }

  lemma {:induction false} RunKeeps(c: Link, sealed: Sealed, span: nat, clock: int, events: seq<Event>, id: U64, n: nat)
    requires c.Valid() && c.terms.timeout > 0 && span >= 1 && TrueRun(c, sealed, span, clock, events)
    requires id in sealed && id != 0 && Spared(c, span, clock, events, id, sealed[id]) && n <= |events|
    ensures Kept(c, clock, Run(c, span, clock, events[..n]), id, sealed[id], Got(c, span, clock, events[..n], id))
  {
    hide Kept, Next, TrueEvent, Link.Valid, Spares, Gained, WorldOk, GT.Run;
    TermsAreReal(c);
    if n == 0 {
      assert events[..0] == [];
      StartKeeps(c, span, clock, id, sealed[id]);
    } else {
      var front := events[..n - 1];
      assert events[..n][..n - 1] == front;
      RunKeeps(c, sealed, span, clock, events, id, n - 1);
      EarlierIsTrue(c, sealed, span, clock, events, n - 1);
      EveryRunIsTrue(c, sealed, span, clock, front);
      EventKeeps(c, sealed, clock, Run(c, span, clock, front), events[n - 1], id, Got(c, span, clock, front, id));
    }
  }

  lemma StartKeeps(c: Link, span: nat, clock: int, id: U64, fs: seq<Fragment>)
    requires c.limits.InBounds() && id != 0
    ensures Kept(c, clock, World(GT.Run(span, c.terms, clock, []), []), id, fs, {})
  {
  }

  // At event m enough shards had counted, and there is storage.
  ghost predicate CompleteAt(c: Link, span: nat, clock: int, events: seq<Event>, id: U64, fs: seq<Fragment>, m: nat)
    requires c.limits.InBounds() && m < |events|
  {
    var w := Run(c, span, clock, events[..m]);
    && Asks(c, clock, w, events[m], id) && |Got(c, span, clock, events[..m + 1], id)| >= c.terms.k
    && Answer(c, clock, w, events[m], fs) == GT.Admitted
  }

  lemma {:induction false} ArrivalsGrow(c: Link, span: nat, clock: int, events: seq<Event>, n: nat, fs: seq<Fragment>)
    requires c.limits.InBounds() && n <= |events| && Served(c, clock, Run(c, span, clock, events[..n]).arrivals, fs)
    ensures Served(c, clock, Run(c, span, clock, events).arrivals, fs)
    decreases |events| - n
  {
    hide Served, Next;
    if n < |events| {
      assert events[..n + 1][..n] == events[..n];
      NextServes(c, clock, Run(c, span, clock, events[..n]), events[n], fs);
      ArrivalsGrow(c, span, clock, events, n + 1, fs);
    } else {
      assert events[..n] == events;
    }
  }

  /** A sealed group reaches the reassembler and is accepted, once dataShards different
      shards of it have counted and a shard or a retry then finds storage, provided that
      the group never ran out of time; which shards these are, their order and what else
      arrives does not matter. */
  lemma EnoughShardsServe(c: Link, sealed: Sealed, span: nat, clock: int, events: seq<Event>, id: U64, m: nat)
    requires c.Valid() && c.terms.timeout > 0 && span >= 1 && TrueRun(c, sealed, span, clock, events)
    requires id in sealed && id != 0 && Spared(c, span, clock, events, id, sealed[id])
    requires m < |events| && CompleteAt(c, span, clock, events, id, sealed[id], m)
    ensures Served(c, clock, Run(c, span, clock, events).arrivals, sealed[id])
  {
    hide Kept, Next, TrueEvent, Link.Valid, Spares, Gained, WorldOk, GT.Run, Served, Asks, Answer;
    TermsAreReal(c);
    var front := events[..m];
    var w := Run(c, span, clock, front);
    assert events[..m + 1][..m] == front;
    RunKeeps(c, sealed, span, clock, events, id, m);
    EarlierIsTrue(c, sealed, span, clock, events, m);
    EveryRunIsTrue(c, sealed, span, clock, front);
    EventKeeps(c, sealed, clock, w, events[m], id, Got(c, span, clock, front, id));
    ArrivalsGrow(c, span, clock, events, m + 1, sealed[id]);
  }

  // The group made it.
  ghost predicate Arrived(c: Link, sealed: Sealed, span: nat, clock: int, events: seq<Event>, fs: seq<Fragment>)
    requires c.limits.InBounds()
  {
    exists id, m :: id in sealed && sealed[id] == fs && id != 0 && Spared(c, span, clock, events, id, fs)
      && 0 <= m < |events| && CompleteAt(c, span, clock, events, id, fs, m)
  }

  predicate Carried(fs: seq<Fragment>, x: U64) {
    exists f :: f in fs && f.id == x
  }

  lemma {:induction false} InSomeGroup(groups: seq<seq<Fragment>>, f: Fragment)
    requires f in SenderRun.Log(groups)
    ensures exists fs :: fs in groups && f in fs
  {
    var n := |groups| - 1;
    if f in groups[n] {
      assert groups[n] in groups;
    } else {
      InSomeGroup(groups[..n], f);
      var fs :| fs in groups[..n] && f in fs;
      assert fs in groups;
    }
  }

  lemma ServedIsFed(c: Link, clock: int, arrivals: seq<EndToEnd.Event>, fs: seq<Fragment>, f: Fragment)
    requires c.limits.InBounds() && Served(c, clock, arrivals, fs) && f in fs
    ensures exists k ::
      0 <= k < |arrivals| && Completion.Fed(Completion.At(c.limits, c.scope, clock, arrivals, k), c.scope, c.limits, arrivals[k], f)
  {
    hide EndToEnd.Accepted, EndToEnd.RunReceiver;
    var j :| 0 <= j < |arrivals| && ServedAt(c, clock, arrivals, fs, j);
    assert Completion.Fed(Completion.At(c.limits, c.scope, clock, arrivals, j), c.scope, c.limits, arrivals[j], f);
  }

  /** Delivery over shards: a Datagram that the sender emitted completely is delivered,
      with its own bytes, if of each group that carries a piece of it enough shards
      arrived in time and with room and storage for the group, and the Datagram itself
      stayed in time and above the floor of the window. */
  lemma CompleteIsDelivered(
    c: Link, q: AggregationQueue.QueueLimits, actions: seq<SenderRun.Action>, sealed: Sealed,
    span: nat, clock: int, events: seq<Event>, x: U64)
    requires c.Valid() && c.terms.timeout > 0 && span >= 1 && TrueRun(c, sealed, span, clock, events)
    requires q.InBounds() && q.maxDatagramBytes <= c.p.maxDatagramBytes && EndToEnd.AtLeast(c.limits, q)
    requires var s := SenderRun.RunSender(q, c.p, actions);
      && (forall id :: id in sealed ==> sealed[id] in s.groups)
      && x in s.sent && !SenderRun.Queued(s.entries, x) && x !in s.cancelled
      && forall fs :: fs in s.groups && Carried(fs, x) ==> Arrived(c, sealed, span, clock, events, fs)
    requires var arrivals := Run(c, span, clock, events).arrivals;
      forall k :: 0 <= k < |arrivals| ==>
        Completion.Timely(Completion.At(c.limits, c.scope, clock, arrivals, k), c.limits, arrivals[k], x)
    ensures var s := SenderRun.RunSender(q, c.p, actions);
      var r := EndToEnd.RunReceiver(c.limits, c.scope, clock, Run(c, span, clock, events).arrivals);
      exists d :: d in r.delivered && d.id == x && d.data == s.sent[x]
  {
    hide Run, Link.Valid, TrueRun, SenderRun.RunSender, EndToEnd.RunReceiver, Completion.Timely, Completion.Fed, Completion.At,
      Arrived, Served;
    TermsAreReal(c);
    EveryRunIsTrue(c, sealed, span, clock, events);
    var s, arrivals := SenderRun.RunSender(q, c.p, actions), Run(c, span, clock, events).arrivals;
    hide WorldOk;
    forall f | f in SenderRun.Log(s.groups) && f.id == x
      ensures exists k ::
        0 <= k < |arrivals| && Completion.Fed(Completion.At(c.limits, c.scope, clock, arrivals, k), c.scope, c.limits, arrivals[k], f)
    {
      InSomeGroup(s.groups, f);
      var fs :| fs in s.groups && f in fs;
      assert Carried(fs, x);
      ArrivedIsServed(c, sealed, span, clock, events, fs);
      ServedIsFed(c, clock, arrivals, fs, f);
    }
    Completion.CompleteIsDelivered(q, c.p, actions, c.limits, c.scope, clock, arrivals, x);
  }

  lemma ArrivedIsServed(c: Link, sealed: Sealed, span: nat, clock: int, events: seq<Event>, fs: seq<Fragment>)
    requires c.Valid() && c.terms.timeout > 0 && span >= 1 && TrueRun(c, sealed, span, clock, events)
    requires Arrived(c, sealed, span, clock, events, fs)
    ensures Served(c, clock, Run(c, span, clock, events).arrivals, fs)
  {
    hide Run, Link.Valid, TrueRun, Served, Spared, CompleteAt;
    TermsAreReal(c);
    var id, m :| id in sealed && sealed[id] == fs && id != 0 && Spared(c, span, clock, events, id, fs)
      && 0 <= m < |events| && CompleteAt(c, span, clock, events, id, fs, m);
    EnoughShardsServe(c, sealed, span, clock, events, id, m);
  }
}
