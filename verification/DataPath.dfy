// The data path of a Session from end to end: sealed groups go as shards over a
// network, the table of pending groups collects them and asks the codec, and the
// reassembler is asked to admit what was decoded.
module DataPath {
  import opened Words
  import opened Packing
  import opened BlockCodec
  import opened GroupCodec
  import AggregationQueue
  import CreditLedger
  import EndToEnd
  import GT = GroupTable
  import Reassembly
  import SenderRun
  import SealedShards

  type Bytes = seq<Byte>

  // What both ends agree on, and the receiver's limits.
  datatype Link = Link(
    p: Parameters, codec: Codec, epoch: U32, terms: GT.Terms, limits: Reassembly.Limits, scope: CreditLedger.Handle)
  {
    ghost predicate Valid() {
      && p.Valid() && Reliable(codec, p) && terms.k == p.dataShards && terms.total == p.dataShards + p.parityShards
      && limits.InBounds()
    }
  }

  // The groups sent, by the ID they have on the wire.
  type Sealed = map<U64, seq<Fragment>>

  // A record that carries a shard of a sealed group.
  ghost predicate Honest(c: Link, sealed: Sealed, r: GT.Record)
    requires c.p.Valid()
  {
    && r.group in sealed && Encodable(c.p, sealed[r.group]) && r.epoch == c.epoch
    && r.logical == LogicalSize(sealed[r.group]) && r.shard < c.terms.total
    && var shards := Shards(c.p, c.codec, sealed[r.group]);
    r.shard < |shards| && r.payload == shards[r.shard]
  }

  // The table holds nothing but shards of the group sent, or that group.
  ghost predicate Holds(c: Link, g: GT.Group, fs: seq<Fragment>)
    requires c.p.Valid()
  {
    && Encodable(c.p, fs) && g.logical == LogicalSize(fs) && g.epoch == c.epoch
    && if g.fragments.Some? then g.fragments.value == fs else PartOf(g.shards, Shards(c.p, c.codec, fs))
  }

  ghost predicate AllHold(c: Link, sealed: Sealed, groups: map<U64, GT.Group>)
    requires c.p.Valid()
  {
    forall id :: id in groups ==> id in sealed && Holds(c, groups[id], sealed[id])
  }

  // The answer of Decode, as it was proved.
  ghost predicate DecodedBy(c: Link, logical: nat, shards: seq<Option<Bytes>>, decoded: Option<seq<Fragment>>)
    requires c.p.Valid()
  {
    forall fs :: ComesFrom(c.p, c.codec, fs, logical, shards) <==> decoded == Some(fs)
  }

  // The group a record is for, and what the codec says once the record is in it.
  function Asked(c: Link, t: GT.Table, r: GT.Record, now: int): GT.Group {
    if r.group in t.groups then t.groups[r.group] else GT.Fresh(r, c.terms, now, 0)
  }

  ghost predicate CodecSays(c: Link, t: GT.Table, r: GT.Record, now: int, decoded: Option<seq<Fragment>>)
    requires c.p.Valid()
  {
    var g := Asked(c, t, r, now);
    g.fragments == None && r.shard < |g.shards| ==>
      DecodedBy(c, g.logical, g.shards[r.shard := Some(r.payload)], decoded)
  }

  // Enough shards of a sealed group are decoded to it.
  lemma CompletedGroup(c: Link, g: GT.Group, fs: seq<Fragment>, r: GT.Record, decoded: Option<seq<Fragment>>)
    requires c.Valid() && Holds(c, g, fs) && g.fragments == None && r.shard < |g.shards| && g.shards[r.shard] == None
    requires r.shard < |Shards(c.p, c.codec, fs)| && r.payload == Shards(c.p, c.codec, fs)[r.shard]
    requires g.present == CountOf(g.shards)
    requires DecodedBy(c, g.logical, g.shards[r.shard := Some(r.payload)], decoded)
    ensures PartOf(g.shards[r.shard := Some(r.payload)], Shards(c.p, c.codec, fs))
    ensures g.present + 1 >= c.terms.k ==> decoded == Some(fs)
  {
    hide Shards, Encodable, Reliable, LogicalSize;
    GT.CountMore(g.shards, r.shard, r.payload, |g.shards|);
    var more := g.shards[r.shard := Some(r.payload)];
    assert g.present + 1 >= c.terms.k ==> ComesFrom(c.p, c.codec, fs, g.logical, more);
  }

  /** A record of a sealed group never meets a contradiction, what the table retains
      stays true, and what it hands to the reassembler is the group that was sealed. */
  lemma PlaceIsTrue(c: Link, sealed: Sealed, t: GT.Table, r: GT.Record, now: int, answers: GT.Answers)
    requires c.Valid() && AllHold(c, sealed, t.groups) && Honest(c, sealed, r)
    requires r.group in t.order && r.group in t.groups && GT.GroupOk(t.groups[r.group], c.terms.k, c.terms.total)
    requires CodecSays(c, t, r, now, answers.decoded)
    ensures t.groups[r.group].fragments == None ==> r.shard < |t.groups[r.group].shards|
    ensures var s := GT.Place(t, r, c.terms, now, answers);
      && AllHold(c, sealed, s.table.groups) && s.answer != GT.Protocol && s.answer != GT.Undecodable
      && (s.handed.Some? ==> s.handed.value == sealed[r.group])
  {
    hide Shards, Encodable, Reliable, LogicalSize, CountOf, DecodedBy, Link.Valid;
    TermsAreReal(c);
    var g := t.groups[r.group];
    assert Holds(c, g, sealed[r.group]);
    if g.fragments == None && g.shards[r.shard] == None {
      CompletedGroup(c, g, sealed[r.group], r, answers.decoded);
    }
  }

  // A new group begins without shards.
  lemma FreshHolds(c: Link, sealed: Sealed, t: GT.Table, r: GT.Record, now: int, lease: GT.Handle)
    requires c.Valid() && AllHold(c, sealed, t.groups) && Honest(c, sealed, r)
    ensures var n := GT.Insert(t, r.group, GT.Fresh(r, c.terms, now, lease));
      && AllHold(c, sealed, n.groups) && GT.GroupOk(n.groups[r.group], c.terms.k, c.terms.total) && r.group in n.order
  {
    hide Shards, Encodable, Reliable, LogicalSize;
    SealedShards.ShardSizes(c.p, c.codec, sealed[r.group]);
    GT.CountNone(GT.EmptyShards(c.terms.total), c.terms.total);
  }

  lemma TakeIsTrue(
    c: Link, sealed: Sealed, t: GT.Table, r: GT.Record, restricted: bool, now: int, answers: GT.Answers)
    requires c.Valid() && AllHold(c, sealed, t.groups) && Honest(c, sealed, r) && GT.Shaped(t, c.terms)
    requires CodecSays(c, t, r, now, answers.decoded)
    ensures var s := GT.Take(t, r, restricted, c.terms, now, answers);
      && AllHold(c, sealed, s.table.groups) && s.answer != GT.Protocol && s.answer != GT.Undecodable
      && (s.handed.Some? ==> s.handed.value == sealed[r.group])
  {
    hide GT.Place, GT.GroupOk, Honest, AllHold, DecodedBy, Link.Valid;
    TermsAreReal(c);
    HonestShard(c, sealed, r);
    if r.group in t.groups {
      PlaceIsTrue(c, sealed, t, r, now, answers);
    } else if answers.grant.Granted? {
      var lease := answers.grant.lease;
      var n := GT.Insert(t, r.group, GT.Fresh(r, c.terms, now, lease));
      FreshHolds(c, sealed, t, r, now, lease);
      PlaceIsTrue(c, sealed, n, r, now, answers);
    }
  }

  lemma HonestShard(c: Link, sealed: Sealed, r: GT.Record)
    requires c.p.Valid() && Honest(c, sealed, r)
    ensures r.shard < c.terms.total && r.group in sealed
  {
  }

  // ---------------------------------------------------------------------------
  // Runs

  // A record of a bundle arrives, a decoded group is tried again, groups expire, or
  // originals do. The ledger's answers and leases come with the event.
  datatype Event =
    | Shard(r: GT.Record, restricted: bool, now: int, ledger: GT.Grant, decoded: Option<seq<Fragment>>,
            answer: nat -> CreditLedger.Err, grant: nat -> CreditLedger.Handle)
    | Retry(group: U64, now: int, answer: nat -> CreditLedger.Err, grant: nat -> CreditLedger.Handle)
    | Sweep(now: int)
    | Tick(now: int)

  // The table, and what the reassembler was asked so far.
  datatype World = World(life: GT.Life, arrivals: seq<EndToEnd.Event>)

  // What becomes of a decoded group at the reassembler.
  ghost function Admission(c: Link, r: EndToEnd.Reception, e: EndToEnd.Event): GT.Admission
    requires c.limits.InBounds() && e.Arrive?
  {
    if !(1 <= |e.group| <= MAX_DESCRIPTORS && Reassembly.AcceptableGroup(e.group, c.limits)) then GT.Broken
    else
      match Reassembly.AddAll(r.store, c.scope, c.limits, e.now, e.group, e.answer, e.grant).err
      case NoErr => GT.Admitted
      case Credit(err) => if err == CreditLedger.ResourceLimit then GT.NoStorage else GT.Broken
      case _ => GT.Broken
  }

  // The table's own event, once the reassembler has answered.
  ghost function TableEvent(e: Event, admission: GT.Admission): GT.Event
    requires !e.Tick?
  {
    match e
    case Shard(r, restricted, now, ledger, decoded, _, _) =>
      GT.RecordEvent(r, restricted, now, GT.Answers(ledger, decoded, admission))
    case Retry(group, now, _, _) => GT.RetryEvent(group, now, admission)
    case Sweep(now) => GT.SweepEvent(now)
  }

  // The decoded group an event hands to the reassembler, whatever that answers.
  ghost function Handed(c: Link, l: GT.Life, e: Event): Option<seq<Fragment>>
    requires !e.Tick?
  {
    if !GT.Possible(l, c.terms, TableEvent(e, GT.NoStorage)) || !GT.Shaped(l.table, c.terms) then None
    else
      match e
      case Shard(r, restricted, now, ledger, decoded, _, _) =>
        GT.Take(l.table, r, restricted, c.terms, now, GT.Answers(ledger, decoded, GT.NoStorage)).handed
      case Retry(group, now, _, _) => if group in l.table.groups then l.table.groups[group].fragments else None
      case Sweep(now) => None
  }

  // Table and reassembler go by the Session's one clock.
  ghost predicate InOrder(c: Link, clock: int, w: World, e: Event)
    requires c.limits.InBounds()
  {
    e.now >= w.life.clock && e.now >= EndToEnd.RunReceiver(c.limits, c.scope, clock, w.arrivals).clock
  }

  ghost function Next(c: Link, clock: int, w: World, e: Event): World
    requires c.limits.InBounds()
  {
    if !InOrder(c, clock, w, e) then w
    else if e.Tick? then w.(arrivals := w.arrivals + [EndToEnd.Tick(e.now)])
    else
      var handed := Handed(c, w.life, e);
      if handed == None then w.(life := GT.Live(w.life, c.terms, TableEvent(e, GT.NoStorage)))
      else
        var arrival := EndToEnd.Arrive(e.now, handed.value, e.answer, e.grant);
        var r := EndToEnd.RunReceiver(c.limits, c.scope, clock, w.arrivals);
        World(GT.Live(w.life, c.terms, TableEvent(e, Admission(c, r, arrival))), w.arrivals + [arrival])
  }

  ghost function Run(c: Link, span: nat, clock: int, events: seq<Event>): World
    requires c.limits.InBounds()
  {
    if events == [] then World(GT.Run(span, c.terms, clock, []), [])
    else Next(c, clock, Run(c, span, clock, events[..|events| - 1]), events[|events| - 1])
  }

  // Every record that arrives is of a sealed group, and the codec answers as Decode.
  ghost predicate TrueEvent(c: Link, sealed: Sealed, w: World, e: Event)
    requires c.p.Valid()
  {
    e.Shard? ==> Honest(c, sealed, e.r) && CodecSays(c, w.life.table, e.r, e.now, e.decoded)
  }

  ghost predicate TrueRun(c: Link, sealed: Sealed, span: nat, clock: int, events: seq<Event>)
    requires c.p.Valid() && c.limits.InBounds()
  {
    forall n :: 0 <= n < |events| ==> TrueEvent(c, sealed, Run(c, span, clock, events[..n]), events[n])
  }

  ghost predicate FromSealed(arrivals: seq<EndToEnd.Event>, sealed: Sealed) {
    forall n :: 0 <= n < |arrivals| && arrivals[n].Arrive? ==> exists id :: id in sealed && sealed[id] == arrivals[n].group
  }

  ghost predicate WorldOk(c: Link, sealed: Sealed, w: World)
    requires c.p.Valid()
  {
    GT.LifeOk(w.life, c.terms) && AllHold(c, sealed, w.life.table.groups) && FromSealed(w.arrivals, sealed)
  }

  // What the table makes of an event keeps it true.
  lemma LiveIsTrue(c: Link, sealed: Sealed, w: World, e: Event, admission: GT.Admission)
    requires c.Valid() && WorldOk(c, sealed, w) && TrueEvent(c, sealed, w, e) && !e.Tick?
    ensures var l := GT.Live(w.life, c.terms, TableEvent(e, admission));
      GT.LifeOk(l, c.terms) && AllHold(c, sealed, l.table.groups)
    ensures Handed(c, w.life, e).Some? ==> exists id :: id in sealed && sealed[id] == Handed(c, w.life, e).value
    ensures e.Shard? && GT.Possible(w.life, c.terms, TableEvent(e, admission)) ==>
      && GT.Shaped(w.life.table, c.terms)
      && var answer := GT.Take(w.life.table, e.r, e.restricted, c.terms, e.now,
                               GT.Answers(e.ledger, e.decoded, admission)).answer;
      answer != GT.Protocol && answer != GT.Undecodable
  {
    hide GT.LifeOk, GT.Take, GT.Sweep, GT.AdmitDecoded, GT.Shaped, Honest, AllHold, CodecSays, Link.Valid, FromSealed;
    TermsAreReal(c);
    GT.ShapeHolds(w.life, c.terms);
    GT.LiveKeeps(w.life, c.terms, TableEvent(e, admission));
    if GT.Possible(w.life, c.terms, TableEvent(e, admission)) {
      match e {
        case Shard(r, restricted, now, ledger, decoded, answer, grant) =>
          HonestShard(c, sealed, r);
          TakeIsTrue(c, sealed, w.life.table, r, restricted, now, GT.Answers(ledger, decoded, admission));
          TakeIsTrue(c, sealed, w.life.table, r, restricted, now, GT.Answers(ledger, decoded, GT.NoStorage));
        case Retry(group, now, answer, grant) =>
          RetryIsTrue(c, sealed, w.life, group, admission);
        case Sweep(now) =>
          SweepIsTrue(c, sealed, w.life, now);
      }
    }
  }

  lemma TermsAreReal(c: Link)
    requires c.Valid()
    ensures c.terms.k > 0 && c.p.Valid() && c.limits.InBounds()
  {
  }

  lemma RetryIsTrue(c: Link, sealed: Sealed, l: GT.Life, group: U64, admission: GT.Admission)
    requires c.p.Valid() && AllHold(c, sealed, l.table.groups) && GT.Shaped(l.table, c.terms)
    ensures group in l.table.groups ==>
      && group in l.table.order && AllHold(c, sealed, GT.AdmitDecoded(l.table, group, admission).table.groups)
    ensures group in l.table.groups && l.table.groups[group].fragments.Some? ==>
      group in sealed && sealed[group] == l.table.groups[group].fragments.value
  {
    hide Encodable, Shards, LogicalSize, PartOf;
    assert group in l.table.groups ==> Holds(c, l.table.groups[group], sealed[group]);
  }

  lemma SweepIsTrue(c: Link, sealed: Sealed, l: GT.Life, now: int)
    requires c.p.Valid() && AllHold(c, sealed, l.table.groups) && GT.LifeOk(l, c.terms) && GT.Shaped(l.table, c.terms)
    ensures AllHold(c, sealed, GT.Sweep(l.table, c.terms, now).table.groups)
  {
    hide Holds, GT.TableOk, GT.Apart, GT.LeasesOf, GT.Sweep, GT.GroupOk, GT.Due, GT.HeldAfter;
    GT.SweepIsExact(l.table, c.terms, l.clock, l.done, now);
  }

  lemma NextIsOk(c: Link, sealed: Sealed, clock: int, w: World, e: Event)
    requires c.Valid() && WorldOk(c, sealed, w) && TrueEvent(c, sealed, w, e)
    ensures WorldOk(c, sealed, Next(c, clock, w, e))
  {
    hide GT.LifeOk, GT.Live, Handed, TableEvent, Admission, AllHold, TrueEvent, Link.Valid, InOrder;
    TermsAreReal(c);
    if !e.Tick? {
      LiveIsTrue(c, sealed, w, e, GT.NoStorage);
      if Handed(c, w.life, e).Some? {
        HandedHasAnswers(c, w.life, e);
        var arrival := EndToEnd.Arrive(e.now, Handed(c, w.life, e).value, e.answer, e.grant);
        var r := EndToEnd.RunReceiver(c.limits, c.scope, clock, w.arrivals);
        LiveIsTrue(c, sealed, w, e, Admission(c, r, arrival));
      }
    }
  }

  lemma HandedHasAnswers(c: Link, l: GT.Life, e: Event)
    requires !e.Tick?
    ensures Handed(c, l, e).Some? ==> e.Shard? || e.Retry?
  {
  }

  /** Over every run in which all that arrives are shards of sealed groups, lost,
      repeated or reordered: the table holds nothing else, and every group handed to
      the reassembler is one that was sealed. */
  lemma {:induction false} EveryRunIsTrue(c: Link, sealed: Sealed, span: nat, clock: int, events: seq<Event>)
    requires c.Valid() && span >= 1 && TrueRun(c, sealed, span, clock, events)
    ensures WorldOk(c, sealed, Run(c, span, clock, events))
  {
    hide Next, TrueEvent, Link.Valid, GT.LifeOk, GT.Run;
    TermsAreReal(c);
    if events != [] {
      var n := |events| - 1;
      EarlierIsTrue(c, sealed, span, clock, events, n);
      EveryRunIsTrue(c, sealed, span, clock, events[..n]);
      NextIsOk(c, sealed, clock, Run(c, span, clock, events[..n]), events[n]);
    } else {
      NothingYet(c, sealed, span, clock);
    }
  }

  lemma NothingYet(c: Link, sealed: Sealed, span: nat, clock: int)
    requires c.Valid() && span >= 1
    ensures WorldOk(c, sealed, World(GT.Run(span, c.terms, clock, []), []))
  {
    GT.BeginsOk(span, c.terms, clock);
    hide GT.LifeOk;
  }

  lemma EarlierIsTrue(c: Link, sealed: Sealed, span: nat, clock: int, events: seq<Event>, n: nat)
    requires c.p.Valid() && c.limits.InBounds() && n <= |events| && TrueRun(c, sealed, span, clock, events)
    ensures TrueRun(c, sealed, span, clock, events[..n])
  {
    hide TrueEvent, Run;
    forall m | 0 <= m < n
      ensures TrueEvent(c, sealed, Run(c, span, clock, events[..n][..m]), events[..n][m])
    {
      assert events[..n][..m] == events[..m];
    }
  }

  /** In such a run no record is ever answered as a protocol violation, and no set of
      shards as undecodable. */
  lemma NoContradiction(c: Link, sealed: Sealed, span: nat, clock: int, events: seq<Event>, n: nat, admission: GT.Admission)
    requires c.Valid() && span >= 1 && TrueRun(c, sealed, span, clock, events) && n < |events| && events[n].Shard?
    ensures var l, e := Run(c, span, clock, events[..n]).life, events[n];
      GT.Possible(l, c.terms, TableEvent(e, admission)) ==>
        && GT.Shaped(l.table, c.terms)
        && var answer := GT.Take(l.table, e.r, e.restricted, c.terms, e.now, GT.Answers(e.ledger, e.decoded, admission)).answer;
        answer != GT.Protocol && answer != GT.Undecodable
  {
    hide Run, Link.Valid, TrueEvent, WorldOk, GT.Take, GT.Shaped, GT.Possible, TableEvent;
    TermsAreReal(c);
    EarlierIsTrue(c, sealed, span, clock, events, n);
    EveryRunIsTrue(c, sealed, span, clock, events[..n]);
    LiveIsTrue(c, sealed, Run(c, span, clock, events[..n]), events[n], admission);
  }

  /** End-to-end identity over shards. Whatever shards of the groups of a run of the
      queue reach a receiver with at least its limits, in whatever order and however
      often: each delivered Datagram is the payload admitted under its ID, and no ID
      is delivered twice. */
  lemma DeliveredIsAdmitted(
    c: Link, q: AggregationQueue.QueueLimits, actions: seq<SenderRun.Action>, sealed: Sealed,
    span: nat, clock: int, events: seq<Event>)
    requires c.Valid() && span >= 1 && TrueRun(c, sealed, span, clock, events)
    requires q.InBounds() && q.maxDatagramBytes <= c.p.maxDatagramBytes && EndToEnd.AtLeast(c.limits, q)
    requires forall id :: id in sealed ==> sealed[id] in SenderRun.RunSender(q, c.p, actions).groups
    ensures var s := SenderRun.RunSender(q, c.p, actions);
      var r := EndToEnd.RunReceiver(c.limits, c.scope, clock, Run(c, span, clock, events).arrivals);
      && (forall d :: d in r.delivered ==> d.id in s.sent && d.data == s.sent[d.id])
      && (forall i, j :: 0 <= i < j < |r.delivered| ==> r.delivered[i].id != r.delivered[j].id)
  {
    hide Run, Link.Valid, TrueRun, SenderRun.RunSender, EndToEnd.RunReceiver;
    TermsAreReal(c);
    EveryRunIsTrue(c, sealed, span, clock, events);
    var arrivals := Run(c, span, clock, events).arrivals;
    hide WorldOk;
    EndToEnd.DeliveredIsAdmitted(q, c.p, actions, c.limits, c.scope, clock, arrivals);
  }

  /** In the same setting the reassembler turns a decoded group away for good only when
      the ledger refuses storage for another reason than a limit. */
  lemma OnlyCreditRefuses(
    c: Link, q: AggregationQueue.QueueLimits, actions: seq<SenderRun.Action>, sealed: Sealed,
    span: nat, clock: int, events: seq<Event>, n: nat)
    requires c.Valid() && span >= 1 && TrueRun(c, sealed, span, clock, events)
    requires q.InBounds() && q.maxDatagramBytes <= c.p.maxDatagramBytes && EndToEnd.AtLeast(c.limits, q)
    requires forall id :: id in sealed ==> sealed[id] in SenderRun.RunSender(q, c.p, actions).groups
    requires n < |events| && (events[n].Shard? || events[n].Retry?)
    requires Handed(c, Run(c, span, clock, events[..n]).life, events[n]).Some?
    ensures var w, e := Run(c, span, clock, events[..n]), events[n];
      var r := EndToEnd.RunReceiver(c.limits, c.scope, clock, w.arrivals);
      var arrival := EndToEnd.Arrive(e.now, Handed(c, w.life, e).value, e.answer, e.grant);
      e.now >= r.clock && Admission(c, r, arrival) == GT.Broken ==>
        && Reassembly.AcceptableGroup(arrival.group, c.limits)
        && var err := Reassembly.AddAll(r.store, c.scope, c.limits, e.now, arrival.group, e.answer, e.grant).err;
        err.Credit? && err.err != CreditLedger.ResourceLimit
  {
    hide Run, Link.Valid, TrueEvent, SenderRun.RunSender, EndToEnd.RunReceiver, GT.LifeOk, AllHold, Handed,
      Reassembly.AddAll, Reassembly.AcceptableGroup;
    TermsAreReal(c);
    EarlierIsTrue(c, sealed, span, clock, events, n);
    EveryRunIsTrue(c, sealed, span, clock, events[..n]);
    var w, e := Run(c, span, clock, events[..n]), events[n];
    LiveIsTrue(c, sealed, w, e, GT.NoStorage);
    var arrival := EndToEnd.Arrive(e.now, Handed(c, w.life, e).value, e.answer, e.grant);
    var arrivals := w.arrivals + [arrival];
    assert arrivals[..|w.arrivals|] == w.arrivals;
    EndToEnd.ArrivalsNeverConflict(q, c.p, actions, c.limits, c.scope, clock, arrivals, |w.arrivals|);
  }
}
