// internal/fec/decoder.go with a replay window: blocks under reconstruction,
// their expiry queue, and at most one delivery for each Packet ID.
//
// The completion cache that the replay window replaces is left out.
module BlockDecoder {
  import opened Words
  import opened BlockCodec
  import opened ExpiryHeap
  import opened ReplayWindow

  datatype Shard = Shard(session: nat, id: U64, params: Params, index: int, length: int, payload: Payload)

  datatype Err = ErrClosed | ErrInvalidShard | ErrFull | ErrInconsistent | ErrConflict | ErrDecode

  datatype Outcome = Pending | Duplicate | Complete(datagram: Payload) | Stale | Failed(err: Err)

  // What the shards of a block, or of all blocks, occupy.
  datatype Load = Load(shards: int, bytes: int) {
    function Plus(l: Load): Load {
      Load(shards + l.shards, bytes + l.bytes)
    }

    function Minus(l: Load): Load {
      Load(shards - l.shards, bytes - l.bytes)
    }
  }

  datatype Assembly = Assembly(
    length: nat, shardSize: nat, shards: seq<Option<Payload>>, present: int, bytes: int, deadline: int)
  {
    function Occupies(): Load {
      Load(present, bytes)
    }
  }

  // What the first n shards occupy.
  function HeldTo(shards: seq<Option<Payload>>, n: nat): Load
    requires n <= |shards|
  {
    if n == 0 then Load(0, 0)
    else HeldTo(shards, n - 1).Plus(if shards[n - 1].Some? then Load(1, |shards[n - 1].value|) else Load(0, 0))
  }

  function Held(shards: seq<Option<Payload>>): Load {
    HeldTo(shards, |shards|)
  }

  lemma {:induction false} HeldMore(shards: seq<Option<Payload>>, i: nat, p: Payload, n: nat)
    requires i < |shards| && n <= |shards| && shards[i] == None
    ensures HeldTo(shards[i := Some(p)], n) == if i < n then HeldTo(shards, n).Plus(Load(1, |p|)) else HeldTo(shards, n)
  {
    if n > 0 {
      HeldMore(shards, i, p, n - 1);
    }
  }

  lemma {:induction false} HeldNothing(shards: seq<Option<Payload>>, n: nat)
    requires n <= |shards| && forall i :: 0 <= i < |shards| ==> shards[i] == None
    ensures HeldTo(shards, n) == Load(0, 0)
  {
    if n > 0 {
      HeldNothing(shards, n - 1);
    }
  }

  lemma {:induction false} HeldCounts(shards: seq<Option<Payload>>, n: nat)
    requires n <= |shards|
    ensures HeldTo(shards, n).shards == CountTo(shards, n)
  {
    if n > 0 {
      HeldCounts(shards, n - 1);
    }
  }

  // The load of all blocks.
  ghost function Sum(m: map<nat, Assembly>): Load
    decreases |m|
  {
    if m == map[] then Load(0, 0)
    else
      var id := Pick(m);
      Sum(m - {id}).Plus(m[id].Occupies())
  }

  ghost function Pick(m: map<nat, Assembly>): (id: nat)
    requires m != map[]
    ensures id in m
  {
    assert m.Keys != {};
    var id :| id in m;
    id
  }

  lemma {:induction false} SumRemove(m: map<nat, Assembly>, id: nat)
    requires id in m
    ensures Sum(m) == Sum(m - {id}).Plus(m[id].Occupies())
    decreases |m|
  {
    var p := Pick(m);
    if p != id {
      SumRemove(m - {p}, id);
      SumRemove(m - {id}, p);
      assert m - {p} - {id} == m - {id} - {p};
    }
  }

  lemma SumSet(m: map<nat, Assembly>, id: nat, b: Assembly)
    ensures Sum(m[id := b]) == Sum(m - {id}).Plus(b.Occupies())
  {
    SumRemove(m[id := b], id);
    assert m[id := b] - {id} == m - {id};
  }

  // ---------------------------------------------------------------------------
  // The expiry queue

  // The queue holds one entry for each block.
  ghost predicate Queues(heap: set<Entry>, m: map<nat, Assembly>) {
    forall e :: e in heap <==> e.id in m && m[e.id].deadline == e.deadline
  }

  // What a sweep leaves: the blocks whose deadline is still to come.
  function Swept(m: map<nat, Assembly>, now: int): map<nat, Assembly> {
    map id | id in m && m[id].deadline > now :: m[id]
  }

  // A block that is still short of shards.
  predicate AssemblyOk(b: Assembly, params: Params) {
    && params.dataShards > 0 && |b.shards| == params.Total() && b.shardSize == ShardSize(b.length, params.dataShards)
    && b.Occupies() == Held(b.shards) && b.present < params.dataShards
    && forall i :: 0 <= i < |b.shards| && b.shards[i].Some? ==> |b.shards[i].value| == b.shardSize
  }

  // ---------------------------------------------------------------------------
  // One shard

  function Fresh(params: Params, length: nat, deadline: int): Assembly
    requires params.InBounds()
  {
    Assembly(length, ShardSize(length, params.dataShards), seq(params.Total(), _ => None), 0, 0, deadline)
  }

  // A shard of this Session's code whose payload has the one size that its Datagram's
  // length allows.
  predicate Canonical(shard: Shard, session: nat, params: Params, limits: Limits) {
    && shard.session == session && shard.params == params && params.dataShards > 0
    && 0 <= shard.index < params.Total() && 0 <= shard.length <= limits.effectiveLimit
    && |shard.payload| == ShardSize(shard.length, params.dataShards)
    && |shard.payload| <= limits.shardCapacity
  }

  datatype Verdict = Refuse(out: Outcome) | Take(b: Assembly)

  // The block that takes a shard, or the answer without one.
  function Find(m: map<nat, Assembly>, shard: Shard, begun: Assembly, tooOld: bool, seen: bool, full: bool): (v: Verdict)
    requires shard.id in m ==> 0 <= shard.index < |m[shard.id].shards|
    ensures v.Refuse? ==> !v.out.Complete? && v.out != Pending
  {
    if shard.id in m then
      var b := m[shard.id];
      if b.length != shard.length then Refuse(Failed(ErrInconsistent))
      else if b.shards[shard.index] == None then Take(b)
      else Refuse(if b.shards[shard.index] == Some(shard.payload) then Duplicate else Failed(ErrConflict))
    else if tooOld then Refuse(Stale)
    else if seen then Refuse(Duplicate)
    else if full then Refuse(Failed(ErrFull))
    else Take(begun)
  }

  function With(b: Assembly, shard: Shard): Assembly
    requires 0 <= shard.index < |b.shards|
  {
    b.(shards := b.shards[shard.index := Some(shard.payload)], present := b.present + 1, bytes := b.bytes + |shard.payload|)
  }

  // What a block with enough shards delivers.
  function Decoded(codec: Codec, k: int, b: Assembly): Outcome
    requires k > 0
  {
    var all := codec.reconstruct(b.shards);
    if all == None || |all.value| < k || |Concat(all.value[..k])| < b.length then Failed(ErrDecode)
    else Complete(Concat(all.value[..k])[..b.length])
  }

  // Every retained shard is one of the block sent under its ID.
  ghost predicate Authentic(m: map<nat, Assembly>, sent: map<nat, Payload>, codec: Codec, params: Params)
    requires params.InBounds()
  {
    forall id :: id in m ==>
      id in sent && m[id].length == |sent[id]| && PartOf(m[id].shards, Block(codec, params, sent[id]))
  }

  ghost predicate Honest(shard: Shard, sent: map<nat, Payload>, codec: Codec, params: Params)
    requires params.InBounds()
  {
    && shard.id in sent && shard.length == |sent[shard.id]|
    && var block := Block(codec, params, sent[shard.id]);
    0 <= shard.index < |block| && shard.payload == block[shard.index]
  }

  ghost predicate AllHonest(fed: seq<Shard>, sent: map<nat, Payload>, codec: Codec, params: Params)
    requires params.InBounds()
  {
    forall s :: s in fed ==> Honest(s, sent, codec, params)
  }

  lemma PartMore(shards: seq<Option<Payload>>, block: seq<Payload>, i: nat)
    requires PartOf(shards, block) && i < |block|
    ensures PartOf(shards[i := Some(block[i])], block)
  {
  }

  lemma BlockSize(codec: Codec, params: Params, datagram: Payload)
    requires params.InBounds() && Recovers(codec, params)
    ensures |Block(codec, params, datagram)| == params.Total()
  {
    DataShardsJoin(datagram, params.dataShards);
  }

  lemma WithCounts(b: Assembly, shard: Shard, params: Params)
    requires 0 <= shard.index < |b.shards| && b.shards[shard.index] == None && b.Occupies() == Held(b.shards)
    ensures With(b, shard).Occupies() == Held(With(b, shard).shards)
    ensures CountOf(With(b, shard).shards) == b.present + 1
  {
    HeldMore(b.shards, shard.index, shard.payload, |b.shards|);
    HeldCounts(With(b, shard).shards, |b.shards|);
  }

  /** As long as every verified shard belongs to the Datagram sent under its ID, no
      shard is ever inconsistent or in conflict, and the shard that completes a
      block delivers exactly that Datagram, whichever shards came first. */
  lemma HonestShardsDeliver(
    m: map<nat, Assembly>, sent: map<nat, Payload>, codec: Codec, params: Params, shard: Shard, deadline: int,
    tooOld: bool, seen: bool, full: bool)
    requires params.InBounds() && Recovers(codec, params) && Authentic(m, sent, codec, params)
    requires Honest(shard, sent, codec, params) && forall id :: id in m ==> AssemblyOk(m[id], params)
    ensures shard.index < params.Total()
    ensures var found := Find(m, shard, Fresh(params, shard.length, deadline), tooOld, seen, full);
      && (found.Refuse? ==> found.out != Failed(ErrInconsistent) && found.out != Failed(ErrConflict))
      && (found.Take? ==>
          var c := With(found.b, shard);
          && Authentic(m[shard.id := c], sent, codec, params)
          && (c.present >= params.dataShards ==> Decoded(codec, params.dataShards, c) == Complete(sent[shard.id])))
  {
    var datagram := sent[shard.id];
    var block := Block(codec, params, datagram);
    BlockSize(codec, params, datagram);
    hide Recovers, ShardSize;
    var found := Find(m, shard, Fresh(params, shard.length, deadline), tooOld, seen, full);
    if found.Take? {
      HeldNothing(Fresh(params, shard.length, deadline).shards, params.Total());
      WithCounts(found.b, shard, params);
      PartMore(found.b.shards, block, shard.index);
      if found.b.present + 1 >= params.dataShards {
        AnyShardsRecover(codec, params, datagram, With(found.b, shard).shards);
      }
    }
  }

  // How a shard that the swept blocks m meet turns them into n.
  ghost predicate Steps(
    m: map<nat, Assembly>, n: map<nat, Assembly>, shard: Shard, out: Outcome, begun: Assembly,
    tooOld: bool, seen: bool, full: bool, codec: Codec, params: Params)
    requires params.InBounds()
  {
    && (shard.id in m ==> 0 <= shard.index < |m[shard.id].shards|)
    && match Find(m, shard, begun, tooOld, seen, full)
       case Refuse(answer) => out == answer && n == m
       case Take(b) =>
         && 0 <= shard.index < |b.shards|
         && var c := With(b, shard);
         if c.present < params.dataShards then out == Pending && n == m[shard.id := c]
         else out == Decoded(codec, params.dataShards, c) && n == m - {shard.id}
  }

  lemma StepIsTrue(
    m: map<nat, Assembly>, n: map<nat, Assembly>, shard: Shard, out: Outcome, deadline: int,
    tooOld: bool, seen: bool, full: bool, sent: map<nat, Payload>, codec: Codec, params: Params)
    requires params.InBounds() && Recovers(codec, params) && Authentic(m, sent, codec, params)
    requires Honest(shard, sent, codec, params) && forall id :: id in m ==> AssemblyOk(m[id], params)
    requires Steps(m, n, shard, out, Fresh(params, shard.length, deadline), tooOld, seen, full, codec, params)
    ensures Authentic(n, sent, codec, params) && (out.Complete? ==> out.datagram == sent[shard.id])
    ensures out != Failed(ErrInconsistent) && out != Failed(ErrConflict) && out != Failed(ErrDecode)
  {
    hide Recovers, Block, AssemblyOk, Decoded, Honest;
    HonestShardsDeliver(m, sent, codec, params, shard, deadline, tooOld, seen, full);
  }

  // ---------------------------------------------------------------------------
  // The decoder

  // Blocks, queue and counters agree.
  ghost predicate Books(m: map<nat, Assembly>, heap: set<Entry>, load: Load, params: Params) {
    && (forall id :: id in m ==> AssemblyOk(m[id], params)) && Queues(heap, m) && load == Sum(m)
  }

  lemma EntryQueued(m: map<nat, Assembly>, heap: set<Entry>, load: Load, params: Params, id: nat)
    requires Books(m, heap, load, params) && id in m
    ensures Entry(id, m[id].deadline) in heap
  {
  }

  lemma EntryHasBlock(m: map<nat, Assembly>, heap: set<Entry>, load: Load, params: Params, e: Entry)
    requires Books(m, heap, load, params) && e in heap
    ensures e.id in m && m[e.id].deadline == e.deadline && |m - {e.id}| < |m|
  {
    assert (m - {e.id}).Keys == m.Keys - {e.id};
  }

  lemma LeastIsOne(e: Entry, f: Entry, heap: set<Entry>)
    requires IsLeast(e, heap) && IsLeast(f, heap)
    ensures e == f
  {
  }

  lemma NothingQueued(h: Heap)
    ensures h.slots == [] ==> h.Entries() == {}
  {
  }

  lemma NotQueued(h: Heap, m: map<nat, Assembly>, load: Load, params: Params, id: nat)
    requires h.Valid() && Books(m, h.Entries(), load, params) && id !in m
    ensures id in h.index ==> h.index[id] < 0
  {
    hide Heap.Valid, Heap.Entries;
    EveryIndexIsTrue(h);
  }

  lemma NoneDue(heap: set<Entry>, m: map<nat, Assembly>, load: Load, params: Params, now: int)
    requires Books(m, heap, load, params) && (heap == {} || exists e :: IsLeast(e, heap) && e.deadline > now)
    ensures forall id :: id in m ==> m[id].deadline > now
  {
    forall id | id in m
      ensures m[id].deadline > now
    {
      assert Entry(id, m[id].deadline) in heap;
    }
  }

  lemma RemoveBooks(m: map<nat, Assembly>, heap: set<Entry>, load: Load, params: Params, id: nat)
    requires Books(m, heap, load, params) && id in m
    ensures Books(m - {id}, heap - {Entry(id, m[id].deadline)}, load.Minus(m[id].Occupies()), params)
    ensures Entry(id, m[id].deadline) in heap && |m - {id}| < |m|
  {
    hide AssemblyOk;
    SumRemove(m, id);
    assert (m - {id}).Keys == m.Keys - {id};
  }

  lemma AddBooks(m: map<nat, Assembly>, heap: set<Entry>, load: Load, params: Params, id: nat, b: Assembly)
    requires Books(m, heap, load, params) && id !in m && AssemblyOk(b, params)
    ensures Books(m[id := b], heap + {Entry(id, b.deadline)}, load.Plus(b.Occupies()), params)
    ensures |m[id := b]| == |m| + 1
  {
    hide AssemblyOk;
    SumSet(m, id, b);
    assert m - {id} == m;
    assert m[id := b].Keys == m.Keys + {id};
  }

  lemma SetBooks(m: map<nat, Assembly>, heap: set<Entry>, load: Load, params: Params, id: nat, b: Assembly)
    requires Books(m, heap, load, params) && id in m && AssemblyOk(b, params) && b.deadline == m[id].deadline
    ensures Books(m[id := b], heap, load.Minus(m[id].Occupies()).Plus(b.Occupies()), params)
    ensures |m[id := b]| == |m|
  {
    hide AssemblyOk;
    SumRemove(m, id);
    SumSet(m, id, b);
    assert m[id := b].Keys == m.Keys;
  }

  // Every delivered ID is remembered by the window or lies behind it, and none is
  // being assembled again.
  ghost predicate History(delivered: seq<nat>, pending: set<nat>, started: bool, highest: nat, done: set<nat>) {
    && (forall i, j :: 0 <= i < j < |delivered| ==> delivered[i] != delivered[j])
    && (forall id :: id in delivered ==>
        started && id <= highest && id !in pending && (id in done || TooOld(true, highest, id)))
    && (forall id :: id in pending ==> started && id <= highest)
  }

  lemma FewerPending(delivered: seq<nat>, pending: set<nat>, fewer: set<nat>, started: bool, highest: nat, done: set<nat>)
    requires History(delivered, pending, started, highest, done) && fewer <= pending
    ensures History(delivered, fewer, started, highest, done)
  {
  }

  // A new block moves the window.
  lemma AdmitHistory(
    delivered: seq<nat>, pending: set<nat>, started: bool, highest: nat, done: set<nat>, id: nat, top: nat)
    requires History(delivered, pending, started, highest, done)
    requires !TooOld(started, highest, id) && id !in done && top == if started && id <= highest then highest else id
    ensures History(delivered, pending + {id}, true, top, if started then Remembered(done, top) else {})
  {
  }

  // A block that completes was never delivered before.
  lemma DeliverHistory(
    delivered: seq<nat>, pending: set<nat>, highest: nat, done: set<nat>, id: nat)
    requires History(delivered, pending, true, highest, done) && id in pending
    ensures id !in delivered
    ensures History(delivered + [id], pending - {id}, true, highest, done + if TooOld(true, highest, id) then {} else {id})
  {
  }

  class Decoder {
    const params: Params
    const limits: Limits
    const codec: Codec
    const session: nat
    const timeout: int
    const maxPending: nat
    const replay: Window
    const queue: Heap
    var pending: map<nat, Assembly>
    var pendingShards: int
    var pendingBytes: int
    var closed: bool

    // The Packet IDs delivered so far, oldest first.
    ghost var delivered: seq<nat>

    // What these Datagrams were, and the verified shards the decoder was fed.
    ghost var outputs: seq<Payload>
    ghost var fed: seq<Shard>

    // Tables, queue, counters and history agree.
    ghost predicate Consistent()
      reads this, queue, replay, replay.completed
    {
      && params.InBounds() && replay.Valid() && queue.Valid() && |pending| <= maxPending && (closed ==> pending == map[])
      && Books(pending, queue.Entries(), Load(pendingShards, pendingBytes), params)
      && History(delivered, pending.Keys, replay.started, replay.highest, replay.Done())
    }

    // If every shard fed so far is one of the Datagram that `sent` has under its ID,
    // so is every shard retained, and what was delivered is what was sent.
    ghost predicate Truthful(sent: map<nat, Payload>)
      requires params.InBounds()
      reads this
    {
      Recovers(codec, params) && AllHonest(fed, sent, codec, params) ==>
        && Authentic(pending, sent, codec, params) && |outputs| == |delivered|
        && forall i :: 0 <= i < |delivered| ==> delivered[i] in sent && outputs[i] == sent[delivered[i]]
    }

    ghost predicate Valid()
      reads this, queue, replay, replay.completed
    {
      params.InBounds() && Consistent() && |outputs| == |delivered| && forall sent :: Truthful(sent)
    }

    constructor (params: Params, limits: Limits, codec: Codec, session: nat, timeout: int, maxPending: nat)
      requires params.InBounds() && maxPending > 0 && timeout > 0
      ensures Valid() && pending == map[] && delivered == [] && outputs == [] && fed == [] && !closed
      ensures fresh(replay) && fresh(replay.completed) && fresh(queue)
    {
      this.params, this.limits, this.codec, this.session := params, limits, codec, session;
      this.timeout, this.maxPending := timeout, maxPending;
      replay := new Window();
      queue := new Heap();
      pending, pendingShards, pendingBytes, closed, delivered := map[], 0, 0, false, [];
      outputs, fed := [], [];
    }

    // validateShard
    predicate Accepts(shard: Shard) {
      && params.dataShards > 0 && shard.session == session && shard.params == params && 0 <= shard.index < params.Total()
      && 0 <= shard.length <= limits.effectiveLimit
      && ShardSize(shard.length, params.dataShards) <= limits.shardCapacity
      && |shard.payload| == ShardSize(shard.length, params.dataShards)
    }

    // A block leaves the table; its entry has left the queue.
    method Drop(id: nat, ghost heap: set<Entry>)
      requires params.InBounds() && replay.Valid() && queue.Valid() && id in pending && |pending| <= maxPending
      requires Books(pending, heap, Load(pendingShards, pendingBytes), params)
      requires History(delivered, pending.Keys, replay.started, replay.highest, replay.Done())
      requires queue.Entries() == heap - {Entry(id, pending[id].deadline)} && (closed ==> pending == map[])
      modifies this`pending, this`pendingShards, this`pendingBytes
      ensures Consistent() && pending == old(pending) - {id}
    {
      hide Books, History, Heap.Valid, Heap.Entries, Window.Valid, Window.Done;
      RemoveBooks(pending, heap, Load(pendingShards, pendingBytes), params, id);
      FewerPending(delivered, pending.Keys, pending.Keys - {id}, replay.started, replay.highest, replay.Done());
      assert (pending - {id}).Keys == pending.Keys - {id};
      var b := pending[id];
      pending := pending - {id};
      pendingShards := pendingShards - b.present;
      pendingBytes := pendingBytes - b.bytes;
    }

    // removePendingLocked: the entry leaves the queue by its index.
    method Remove(id: nat)
      requires Consistent() && id in pending
      modifies this`pending, this`pendingShards, this`pendingBytes, queue
      ensures Consistent() && pending == old(pending) - {id}
    {
      hide Books, History, Window.Valid, Window.Done, Heap.Valid, Heap.Entries;
      ghost var heap := queue.Entries();
      EntryQueued(pending, heap, Load(pendingShards, pendingBytes), params, id);
      EveryIndexIsTrue(queue);
      assert Entry(id, pending[id].deadline) in queue.Entries();
      var at := queue.index[id];
      var e := queue.Remove(at);
      Drop(id, heap);
    }

    // sweepLocked: pops due entries, earliest first.
    method SweepLocked(now: int)
      requires Consistent()
      modifies this`pending, this`pendingShards, this`pendingBytes, queue
      ensures Consistent() && pending == Swept(old(pending), now)
    {
      hide Books, History, Window.Valid, Window.Done, Heap.Valid, Heap.Entries;
      while |queue.slots| != 0 && queue.slots[0].deadline <= now
        invariant Consistent()
        invariant forall id :: id in pending ==> id in old(pending) && pending[id] == old(pending)[id]
        invariant forall id :: id in old(pending) && id !in pending ==> old(pending)[id].deadline <= now
        decreases |pending|
      {
        EveryIndexIsTrue(queue);
        ghost var heap := queue.Entries();
        ghost var root := queue.slots[0];
        var e := queue.Pop();
        LeastIsOne(e, root, heap);
        EntryHasBlock(pending, heap, Load(pendingShards, pendingBytes), params, e);
        Drop(e.id, heap);
      }
      EveryIndexIsTrue(queue);
      NothingQueued(queue);
      NoneDue(queue.Entries(), pending, Load(pendingShards, pendingBytes), params, now);
    }

    // A block for a new ID; the window moves with it.
    method Begin(id: U64, length: nat, now: int)
      requires Consistent() && id !in pending && !closed && |pending| < maxPending
      requires !TooOld(replay.started, replay.highest, id) && id !in replay.Done()
      modifies this`pending, queue, replay, replay.completed
      ensures Consistent() && pending == old(pending)[id := Fresh(params, length, now + timeout)]
    {
      hide Books, History;
      var b := Fresh(params, length, now + timeout);
      HeldNothing(b.shards, params.Total());
      AddBooks(pending, queue.Entries(), Load(pendingShards, pendingBytes), params, id, b);
      AdmitHistory(delivered, pending.Keys, replay.started, replay.highest, replay.Done(), id,
                   if replay.started && id <= replay.highest then replay.highest else id);
      assert pending[id := b].Keys == pending.Keys + {id};
      NotQueued(queue, pending, Load(pendingShards, pendingBytes), params, id);
      pending := pending[id := b];
      queue.Push(Entry(id, b.deadline));
      replay.Admit(id);
    }

    // The shard enters its block, which stays short of shards.
    method Retain(shard: Shard)
      requires Consistent() && shard.id in pending && 0 <= shard.index < params.Total()
      requires pending[shard.id].shards[shard.index] == None && |shard.payload| == pending[shard.id].shardSize
      requires pending[shard.id].present + 1 < params.dataShards
      modifies this`pending, this`pendingShards, this`pendingBytes, queue
      ensures Consistent() && pending == old(pending)[shard.id := With(old(pending)[shard.id], shard)]
    {
      hide Books, History;
      var id := shard.id;
      var b := pending[id];
      BlockIsOk(pending, queue.Entries(), Load(pendingShards, pendingBytes), params, id);
      WithCounts(b, shard, params);
      SetBooks(pending, queue.Entries(), Load(pendingShards, pendingBytes), params, id, With(b, shard));
      assert pending[id := With(b, shard)].Keys == pending.Keys;
      b := b.(shards := b.shards[shard.index := Some(shard.payload)], present := b.present + 1,
              bytes := b.bytes + |shard.payload|);
      pending := pending[id := b];
      pendingShards := pendingShards + 1;
      pendingBytes := pendingBytes + |shard.payload|;
    }

    lemma BlockIsOk(m: map<nat, Assembly>, heap: set<Entry>, load: Load, params: Params, id: nat)
      requires Books(m, heap, load, params) && id in m
      ensures AssemblyOk(m[id], params)
    {
    }

    // The copy loop over the recovered data shards.
    method Gather(all: seq<Payload>, length: nat) returns (ok: bool, datagram: Payload)
      requires |all| >= params.dataShards > 0
      ensures ok <==> |Concat(all[..params.dataShards])| >= length
      ensures ok ==> datagram == Concat(all[..params.dataShards])[..length]
    {
      datagram := [];
      var i := 0;
      ghost var k := params.dataShards;
      ConcatParts(all[..k], 0);
      while i < params.dataShards && |datagram| != length
        invariant 0 <= i <= k && |datagram| <= length
        invariant |datagram| < length ==> datagram == Concat(all[..i])
        invariant |datagram| == length ==> |Concat(all[..i])| >= length && datagram == Concat(all[..i])[..length]
      {
        ConcatLast(all[..i + 1]);
        assert all[..i + 1][..i] == all[..i];
        var room := length - |datagram|;
        datagram := datagram + if |all[i]| <= room then all[i] else all[i][..room];
        i := i + 1;
      }
      ok := |datagram| == length;
      ConcatParts(all[..k], i);
      assert all[..k][..i] == all[..i];
    }

    // The shard completes its block: deliver it or give it up.
    method Finish(shard: Shard) returns (out: Outcome)
      requires Consistent() && shard.id in pending && 0 <= shard.index < |pending[shard.id].shards|
      modifies this`pending, this`pendingShards, this`pendingBytes, this`delivered, queue, replay, replay.completed
      ensures Consistent() && pending == old(pending) - {shard.id}
      ensures out == Decoded(codec, params.dataShards, With(old(pending)[shard.id], shard))
      ensures out.Complete? ==> shard.id !in old(delivered) && delivered == old(delivered) + [shard.id]
      ensures !out.Complete? ==> delivered == old(delivered)
    {
      hide Books, History, Concat, Window.Valid, Window.Done, Heap.Valid, Heap.Entries;
      var b := With(pending[shard.id], shard);
      var all := codec.reconstruct(b.shards);
      if all == None || |all.value| < params.dataShards {
        Remove(shard.id);
        return Failed(ErrDecode);
      }
      var ok, datagram := Gather(all.value, b.length);
      if !ok {
        Remove(shard.id);
        return Failed(ErrDecode);
      }
      PendingAreAdmitted(delivered, pending.Keys, replay.started, replay.highest, replay.Done(), shard.id);
      DeliverHistory(delivered, pending.Keys, replay.highest, replay.Done(), shard.id);
      assert (pending - {shard.id}).Keys == pending.Keys - {shard.id};
      Remove(shard.id);
      replay.Complete(shard.id);
      delivered := delivered + [shard.id];
      return Complete(datagram);
    }

    lemma PendingAreAdmitted(delivered: seq<nat>, pending: set<nat>, started: bool, highest: nat, done: set<nat>, id: nat)
      requires History(delivered, pending, started, highest, done) && id in pending
      ensures started && id <= highest
    {
    }

    // Looks up the block of a shard or begins it.
    method Locate(shard: Shard, now: int) returns (answer: Option<Outcome>)
      requires Consistent() && !closed && Accepts(shard)
      modifies this`pending, queue, replay, replay.completed
      ensures Consistent()
      ensures shard.id in old(pending) ==> shard.index < |old(pending)[shard.id].shards|
      ensures var v := Find(old(pending), shard, Fresh(params, shard.length, now + timeout),
                            TooOld(old(replay.started), old(replay.highest), shard.id),
                            shard.id in old(replay.Done()), |old(pending)| >= maxPending);
        if v.Refuse? then answer == Some(v.out) && pending == old(pending)
        else
          && answer == None && pending == old(pending)[shard.id := v.b]
          && shard.index < |v.b.shards| && v.b.shards[shard.index] == None && |shard.payload| == v.b.shardSize
    {
      hide Books, History, Sum;
      BlocksAreOk(pending, queue.Entries(), Load(pendingShards, pendingBytes), params);
      if shard.id !in pending {
        if replay.IsTooOld(shard.id) {
          return Some(Stale);
        }
        var seen := replay.Contains(shard.id);
        if seen {
          return Some(Duplicate);
        }
        if |pending| >= maxPending {
          return Some(Failed(ErrFull));
        }
        Begin(shard.id, shard.length, now);
        return None;
      }
      var b := pending[shard.id];
      assert pending[shard.id := b] == pending;
      if b.length != shard.length {
        return Some(Failed(ErrInconsistent));
      }
      if b.shards[shard.index].Some? {
        return Some(if b.shards[shard.index].value == shard.payload then Duplicate else Failed(ErrConflict));
      }
      return None;
    }

    // The shard enters its block after a sweep, or is answered without it.
    method TakeShard(shard: Shard, now: int) returns (out: Outcome)
      requires Consistent() && !closed && Accepts(shard)
      modifies this`pending, this`pendingShards, this`pendingBytes, this`delivered, queue, replay, replay.completed
      ensures Consistent()
      ensures out.Complete? ==> shard.id !in old(delivered) && delivered == old(delivered) + [shard.id]
      ensures !out.Complete? ==> delivered == old(delivered)
      ensures Steps(Swept(old(pending), now), pending, shard, out, Fresh(params, shard.length, now + timeout),
                    TooOld(old(replay.started), old(replay.highest), shard.id), shard.id in old(replay.Done()),
                    |Swept(old(pending), now)| >= maxPending, codec, params)
    {
      hide Decoder.Consistent, Decoded, Find, Window.Done;
      SweepLocked(now);
      var answer := Locate(shard, now);
      if answer.Some? {
        return answer.value;
      }
      if pending[shard.id].present + 1 < params.dataShards {
        Retain(shard);
        out := Pending;
      } else {
        out := Finish(shard);
      }
    }

    /** AddVerifiedShard: a block that has its shards leaves the table and is delivered,
        no Packet ID ever twice in the life of the decoder; and as long as every shard
        fed to it belongs to the Datagram sent under its ID, no shard is inconsistent,
        in conflict or undecodable, and what it delivers is what was sent. */
    method AddVerifiedShard(shard: Shard, now: int) returns (out: Outcome)
      requires Valid()
      modifies this`pending, this`pendingShards, this`pendingBytes, this`delivered, this`outputs, this`fed,
        queue, replay, replay.completed
      ensures Valid()
      ensures out.Complete? ==>
        && shard.id !in old(delivered) && delivered == old(delivered) + [shard.id]
        && outputs == old(outputs) + [out.datagram]
      ensures !out.Complete? ==> delivered == old(delivered) && outputs == old(outputs)
      ensures closed ==> out == Failed(ErrClosed) && pending == old(pending) && fed == old(fed)
      ensures !closed && !Accepts(shard) ==> out == Failed(ErrInvalidShard) && pending == old(pending) && fed == old(fed)
      ensures !closed ==> (Accepts(shard) <==> Canonical(shard, session, params, limits))
      ensures !closed && Accepts(shard) ==>
        && fed == old(fed) + [shard]
        && Steps(Swept(old(pending), now), pending, shard, out, Fresh(params, shard.length, now + timeout),
                 TooOld(old(replay.started), old(replay.highest), shard.id), shard.id in old(replay.Done()),
                 |Swept(old(pending), now)| >= maxPending, codec, params)
      ensures forall sent ::
        Recovers(codec, params) && AllHonest(fed, sent, codec, params) && fed != old(fed) ==>
          out != Failed(ErrInconsistent) && out != Failed(ErrConflict) && out != Failed(ErrDecode)
    {
      hide Books, History, Decoded, Find, Steps, Window.Valid, Window.Done, Heap.Valid, Heap.Entries, Recovers, Honest,
        AllHonest, Authentic, AssemblyOk, Load.Plus;
      if closed {
        return Failed(ErrClosed);
      }
      if !Accepts(shard) {
        return Failed(ErrInvalidShard);
      }
      BlocksAreOk(pending, queue.Entries(), Load(pendingShards, pendingBytes), params);
      ghost var m, tooOld, seen := pending, TooOld(replay.started, replay.highest, shard.id), shard.id in replay.Done();
      out := TakeShard(shard, now);
      fed := fed + [shard];
      if out.Complete? {
        outputs := outputs + [out.datagram];
      }
      forall sent | Recovers(codec, params) && AllHonest(fed, sent, codec, params)
        ensures Truthful(sent) && out != Failed(ErrInconsistent) && out != Failed(ErrConflict) && out != Failed(ErrDecode)
      {
        FedMore(old(fed), shard, sent, codec, params);
        assert old(Truthful(sent));
        FewerAreAuthentic(m, Swept(m, now), sent, codec, params);
        assert out.Complete? ==> shard.id in sent by {
          HonestIsSent(shard, sent, codec, params);
        }
        StepIsTrue(Swept(m, now), pending, shard, out, now + timeout, tooOld, seen, |Swept(m, now)| >= maxPending,
                   sent, codec, params);
      }
    }

    method Sweep(now: int)
      requires Valid()
      modifies this`pending, this`pendingShards, this`pendingBytes, queue
      ensures Valid() && pending == if closed then old(pending) else Swept(old(pending), now)
    {
      hide Books, History, Authentic, AllHonest, Recovers, Heap.Valid, Window.Valid, Window.Done;
      if !closed {
        SweepLocked(now);
        forall sent
          ensures Truthful(sent)
        {
          assert old(Truthful(sent));
          if Authentic(old(pending), sent, codec, params) {
            FewerAreAuthentic(old(pending), pending, sent, codec, params);
          }
        }
      }
    }

    method Discard()
      requires Consistent()
      modifies this`pending, this`pendingShards, this`pendingBytes, this`closed, queue
      ensures Consistent() && closed && pending == map[] && pendingShards == pendingBytes == 0
    {
      hide Books, History, Heap.Valid, Heap.Entries, Window.Valid, Window.Done;
      EmptyBooks(params);
      FewerPending(delivered, pending.Keys, {}, replay.started, replay.highest, replay.Done());
      closed := true;
      queue.Clear();
      pending, pendingShards, pendingBytes := map[], 0, 0;
      assert pending.Keys == {};
    }

    method Close()
      requires Valid()
      modifies this`pending, this`pendingShards, this`pendingBytes, this`closed, queue
      ensures Valid() && closed && pending == map[] && pendingShards == pendingBytes == 0
    {
      hide AllHonest, Recovers, Decoder.Consistent;
      if closed {
        NothingPending(this);
        return;
      }
      Discard();
      forall sent
        ensures Truthful(sent)
      {
        assert old(Truthful(sent));
      }
    }
  }

  /** Over the whole life of a decoder, with any interleaving of shards, losses, sweeps
      and window jumps: if every shard fed to it is one of the Datagram sent under its
      ID, it delivers what was sent, each Datagram at most once. */
  lemma EveryDeliveryIsTrue(d: Decoder, sent: map<nat, Payload>)
    requires d.Valid() && Recovers(d.codec, d.params) && AllHonest(d.fed, sent, d.codec, d.params)
    ensures |d.outputs| == |d.delivered|
    ensures forall i :: 0 <= i < |d.delivered| ==> d.delivered[i] in sent && d.outputs[i] == sent[d.delivered[i]]
    ensures forall i, j :: 0 <= i < j < |d.delivered| ==> d.delivered[i] != d.delivered[j]
  {
    hide Books, Recovers, AllHonest, Authentic, Heap.Valid, Window.Valid;
    assert d.Truthful(sent);
  }

  lemma FewerAreAuthentic(m: map<nat, Assembly>, n: map<nat, Assembly>, sent: map<nat, Payload>, codec: Codec, params: Params)
    requires params.InBounds() && Authentic(m, sent, codec, params) && forall id :: id in n ==> id in m && n[id] == m[id]
    ensures Authentic(n, sent, codec, params)
  {
  }

  lemma FedMore(fed: seq<Shard>, shard: Shard, sent: map<nat, Payload>, codec: Codec, params: Params)
    requires params.InBounds() && AllHonest(fed + [shard], sent, codec, params)
    ensures AllHonest(fed, sent, codec, params) && Honest(shard, sent, codec, params)
  {
    hide Honest;
    assert forall s :: s in fed ==> s in fed + [shard];
    assert shard in fed + [shard];
  }

  lemma HonestIsSent(shard: Shard, sent: map<nat, Payload>, codec: Codec, params: Params)
    requires params.InBounds() && Honest(shard, sent, codec, params)
    ensures shard.id in sent
  {
  }

  lemma EmptyBooks(params: Params)
    ensures Books(map[], {}, Load(0, 0), params)
  {
  }

  lemma NothingPending(d: Decoder)
    requires d.Valid() && d.closed
    ensures d.pending == map[] && d.pendingShards == d.pendingBytes == 0
  {
  }

  lemma BlocksAreOk(m: map<nat, Assembly>, heap: set<Entry>, load: Load, params: Params)
    requires Books(m, heap, load, params)
    ensures forall id :: id in m ==> AssemblyOk(m[id], params)
  {
  }
}
