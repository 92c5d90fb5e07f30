// internal/fec/decoder.go: what an accepted shard may find, and all that can follow.
//
// BlockDecoder proves that honest shards are delivered, each Datagram once. Here every
// answer, to honest and other shards alike, is told by what was received before: the
// blocks whose time is not over, their shards, and the replay window.
module BlockLaws {
  import opened Words
  import opened BlockCodec
  import opened BlockDecoder

  // A block that is still there at `now`.
  predicate Alive(m: map<nat, Assembly>, id: nat, now: int) {
    id in m && now < m[id].deadline
  }

  function Have(b: Assembly): set<nat> {
    set i: nat | i < |b.shards| && b.shards[i].Some?
  }

  // What the shard is to the blocks before it.
  datatype Meeting = OtherLength | OtherBytes | Repeated | BehindWindow | Delivered | NoRoom | New

  ghost function Meets(m: map<nat, Assembly>, shard: Shard, now: int, tooOld: bool, seen: bool, maxPending: nat): Meeting
    requires 0 <= shard.index && (shard.id in m ==> shard.index < |m[shard.id].shards|)
  {
    if Alive(m, shard.id, now) then
      if m[shard.id].length != shard.length then OtherLength
      else if shard.index !in Have(m[shard.id]) then New
      else if m[shard.id].shards[shard.index].value != shard.payload then OtherBytes
      else Repeated
    else if tooOld then BehindWindow
    else if seen then Delivered
    else if |set id | id in m && Alive(m, id, now)| >= maxPending then NoRoom
    else New
  }

  // The block that a new shard enters: one that is there, or one that begins now.
  function Entered(m: map<nat, Assembly>, shard: Shard, now: int, timeout: int, params: Params): Assembly
    requires params.InBounds() && shard.length >= 0
  {
    if Alive(m, shard.id, now) then m[shard.id]
    else Assembly(shard.length, ShardSize(shard.length, params.dataShards), seq(params.Total(), _ => None), 0, 0, now + timeout)
  }

  predicate Gains(b: Assembly, c: Assembly, shard: Shard)
    requires 0 <= shard.index
  {
    && c.length == b.length && c.shardSize == b.shardSize && c.deadline == b.deadline && |c.shards| == |b.shards|
    && Have(c) == Have(b) + {shard.index} && (shard.index < |c.shards| ==> c.shards[shard.index] == Some(shard.payload))
    && forall i :: i in Have(b) && i < |c.shards| && i < |b.shards| ==> c.shards[i] == b.shards[i]
  }

  // Blocks of other IDs stay exactly until their deadline.
  ghost predicate OthersLive(m: map<nat, Assembly>, n: map<nat, Assembly>, id: nat, now: int) {
    forall x :: x != id ==> (x in n <==> Alive(m, x, now)) && (x in n ==> n[x] == m[x])
  }

  lemma {:induction false} CountIsHave(shards: seq<Option<Payload>>, n: nat)
    requires n <= |shards|
    ensures |set i: nat | i < n && shards[i].Some?| == CountTo(shards, n)
  {
    var got := set i: nat | i < n && shards[i].Some?;
    if n == 0 {
      assert got == {};
    } else {
      CountIsHave(shards, n - 1);
      var less := set i: nat | i < n - 1 && shards[i].Some?;
      assert got == if shards[n - 1].Some? then less + {n - 1} else less;
    }
  }

  lemma PresentIsHave(b: Assembly, params: Params)
    requires AssemblyOk(b, params)
    ensures b.present == |Have(b)|
  {
    CountIsHave(b.shards, |b.shards|);
    HeldCounts(b.shards, |b.shards|);
    assert Have(b) == set i: nat | i < |b.shards| && b.shards[i].Some?;
  }

  lemma SweptIsAlive(m: map<nat, Assembly>, now: int)
    ensures forall id :: id in Swept(m, now) <==> Alive(m, id, now)
    ensures |Swept(m, now)| == |set id | id in m && Alive(m, id, now)|
  {
    assert Swept(m, now).Keys == set id | id in m && Alive(m, id, now);
  }

  lemma WithGains(b: Assembly, shard: Shard)
    requires 0 <= shard.index < |b.shards| && shard.index !in Have(b)
    ensures Gains(b, With(b, shard), shard) && With(b, shard).present == b.present + 1 && With(b, shard).length == b.length
  {
  }

  // The look-up behind each meeting.
  lemma FindMeets(
    m: map<nat, Assembly>, shard: Shard, now: int, timeout: int, maxPending: nat, tooOld: bool, seen: bool, params: Params)
    requires params.InBounds() && shard.length >= 0 && 0 <= shard.index
    requires shard.id in m ==> shard.index < |m[shard.id].shards|
    ensures var f := Find(Swept(m, now), shard, Fresh(params, shard.length, now + timeout), tooOld, seen, |Swept(m, now)| >= maxPending);
      f == match Meets(m, shard, now, tooOld, seen, maxPending)
        case OtherLength => Refuse(Failed(ErrInconsistent))
        case OtherBytes => Refuse(Failed(ErrConflict))
        case Repeated => Refuse(Duplicate)
        case BehindWindow => Refuse(Stale)
        case Delivered => Refuse(Duplicate)
        case NoRoom => Refuse(Failed(ErrFull))
        case New => BlockDecoder.Take(Entered(m, shard, now, timeout, params))
  {
    hide ShardSize;
    SweptIsAlive(m, now);
  }

  lemma EnteredHas(m: map<nat, Assembly>, shard: Shard, now: int, timeout: int, params: Params)
    requires params.InBounds() && shard.length >= 0 && 0 <= shard.index < params.Total()
    requires forall id :: id in m ==> AssemblyOk(m[id], params)
    ensures var b := Entered(m, shard, now, timeout, params); b.present == |Have(b)| && |b.shards| == params.Total()
  {
    hide ShardSize, Held;
    var b := Entered(m, shard, now, timeout, params);
    if Alive(m, shard.id, now) {
      PresentIsHave(b, params);
    } else {
      assert Have(b) == {};
    }
  }

  lemma BlocksHaveAll(m: map<nat, Assembly>, params: Params)
    requires forall id :: id in m ==> AssemblyOk(m[id], params)
    ensures forall id :: id in m ==> |m[id].shards| == params.Total()
  {
  }

  /** Each shard has exactly one answer, told by what was there before it: another length
      or other bytes than the block has, a repetition, an ID behind the window or
      delivered, no room, or a new shard, which waits until the block has enough of them
      and then ends the block. */
  lemma StepMeans(
    m: map<nat, Assembly>, n: map<nat, Assembly>, shard: Shard, out: Outcome, now: int, timeout: int, maxPending: nat,
    tooOld: bool, seen: bool, codec: Codec, params: Params)
    requires params.InBounds() && shard.length >= 0 && 0 <= shard.index < params.Total() && 0 < params.dataShards
    requires forall id :: id in m ==> AssemblyOk(m[id], params)
    requires Steps(Swept(m, now), n, shard, out, Fresh(params, shard.length, now + timeout), tooOld, seen,
                   |Swept(m, now)| >= maxPending, codec, params)
    ensures shard.id in m ==> shard.index < |m[shard.id].shards|
    ensures OthersLive(m, n, shard.id, now)
    ensures var met, b := Meets(m, shard, now, tooOld, seen, maxPending), Entered(m, shard, now, timeout, params);
      && (met == OtherLength ==> out == Failed(ErrInconsistent)) && (met == OtherBytes ==> out == Failed(ErrConflict))
      && (met == Repeated || met == Delivered ==> out == Duplicate) && (met == BehindWindow ==> out == Stale)
      && (met == NoRoom ==> out == Failed(ErrFull))
      && (met != New ==> (shard.id in n <==> Alive(m, shard.id, now)) && (shard.id in n ==> n[shard.id] == m[shard.id]))
      && (met == New && |Have(b)| + 1 < params.dataShards ==>
          out == Pending && shard.id in n && Gains(b, n[shard.id], shard))
      && (met == New && |Have(b)| + 1 >= params.dataShards ==>
          shard.id !in n && (out.Complete? || out == Failed(ErrDecode)) && (out.Complete? ==> |out.datagram| == shard.length))
  {
    hide Decoded, ShardSize, Find, With, Entered, Meets, AssemblyOk, Swept, Fresh, Have, Alive, Gains;
    SweptIsAlive(m, now);
    SweptKeeps(m, now);
    BlocksHaveAll(m, params);
    FindMeets(m, shard, now, timeout, maxPending, tooOld, seen, params);
    EnteredHas(m, shard, now, timeout, params);
    var b := Entered(m, shard, now, timeout, params);
    if Meets(m, shard, now, tooOld, seen, maxPending) == New {
      NewHasNot(m, shard, now, timeout, maxPending, tooOld, seen, params);
      WithGains(b, shard);
      DecodedLength(codec, params.dataShards, With(b, shard));
    }
  }

  lemma SweptKeeps(m: map<nat, Assembly>, now: int)
    ensures forall id :: id in Swept(m, now) ==> id in m && Swept(m, now)[id] == m[id]
  {
  }

  lemma NewHasNot(
    m: map<nat, Assembly>, shard: Shard, now: int, timeout: int, maxPending: nat, tooOld: bool, seen: bool, params: Params)
    requires params.InBounds() && shard.length >= 0 && 0 <= shard.index < params.Total()
    requires shard.id in m ==> shard.index < |m[shard.id].shards|
    requires Meets(m, shard, now, tooOld, seen, maxPending) == New
    ensures var b := Entered(m, shard, now, timeout, params);
      shard.index !in Have(b) && b.length == shard.length
  {
    hide ShardSize;
  }

  lemma DecodedLength(codec: Codec, k: int, b: Assembly)
    requires k > 0
    ensures var out := Decoded(codec, k, b); (out.Complete? && |out.datagram| == b.length) || out == Failed(ErrDecode)
  {
  }
}
