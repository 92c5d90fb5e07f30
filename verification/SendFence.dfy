// internal/sessionv2: the completion frontier behind the public Flush.
//
// A group of shards is out at a time; its shards may finish in any order. The
// code keeps only `completed`, `outThrough` and `failedFrom`, computed by
// subtraction from the queue's counters. The lemmas show what these mean for
// the Datagrams that were admitted.
module SendFence {
  import opened Words
  import opened Packing
  import opened AggregationQueue
  import opened SenderRun

  datatype ShardState = Waiting | Dispatched | Terminal

  // `sender`, `thresholds` and `spoiled` are history: the queue's run, the number
  // of originals fully sealed after each group, and whether a shard of it failed.
  datatype Frontier = Frontier(
    sender: Sender, out: bool, shards: seq<ShardState>, remaining: int, outThrough: U64,
    completed: U64, failed: bool, failedFrom: U64, thresholds: seq<nat>, spoiled: seq<bool>)

  const IDLE := Frontier(START, false, [], 0, 0, 0, false, 0, [], [])

  datatype Step =
    | Accept(payload: seq<Byte>, now: int, handle: Handle)
    | Send(shards: nat)
    | Dispatch(shard: nat)
    | Finish(shard: nat, failure: bool)

  function Accepted(f: Frontier): nat {
    |f.sender.sent|
  }

  // Queue.Admit; the queue itself may also refuse for want of room.
  function AcceptOne(f: Frontier, limits: QueueLimits, p: Parameters, payload: seq<Byte>, now: int, handle: Handle): Frontier
    requires limits.InBounds()
  {
    f.(sender := Act(f.sender, limits, p, AdmitAction(payload, now, handle)))
  }

  // A sealed group goes out. The frontier it will reach is the last admitted ID
  // less what is still queued, in 64-bit arithmetic.
  function SendGroup(f: Frontier, limits: QueueLimits, p: Parameters, shards: nat): Frontier
    requires limits.InBounds()
  {
    if f.out || f.sender.entries == [] || shards == 0 then f
    else
      var s := Act(f.sender, limits, p, SealAction);
      f.(sender := s, out := true, shards := seq(shards, _ => Waiting), remaining := shards,
         outThrough := Wrap64(s.next - 1 - |s.entries|),
         thresholds := f.thresholds + [Threshold(f.thresholds) + PlanCursor(f.sender.entries, limits, p).next],
         spoiled := f.spoiled + [false])
  }

  function DispatchShard(f: Frontier, shard: nat): Frontier {
    if shard >= |f.shards| || f.shards[shard] != Waiting then f
    else f.(shards := f.shards[shard := Dispatched])
  }

  // completeOwnedShard, and one turn of the synchronous driveData.
  function FinishShard(f: Frontier, shard: nat, failure: bool): Frontier {
    if !f.out || shard >= |f.shards| || f.shards[shard] == Terminal || f.spoiled == [] then f
    else
      var last := |f.spoiled| - 1;
      var g := f.(
        shards := f.shards[shard := Terminal], remaining := f.remaining - 1,
        failed := f.failed || failure,
        failedFrom := if failure && !f.failed then Wrap64(f.completed + 1) else f.failedFrom,
        spoiled := f.spoiled[last := f.spoiled[last] || failure]);
      if g.remaining == 0 then g.(completed := g.outThrough, out := false) else g
  }

  function Apply(f: Frontier, limits: QueueLimits, p: Parameters, s: Step): Frontier
    requires limits.InBounds()
  {
    match s
    case Accept(payload, now, handle) => AcceptOne(f, limits, p, payload, now, handle)
    case Send(shards) => SendGroup(f, limits, p, shards)
    case Dispatch(shard) => DispatchShard(f, shard)
    case Finish(shard, failure) => FinishShard(f, shard, failure)
  }

  function Run(limits: QueueLimits, p: Parameters, steps: seq<Step>): Frontier
    requires limits.InBounds()
  {
    if steps == [] then IDLE else Apply(Run(limits, p, steps[..|steps| - 1]), limits, p, steps[|steps| - 1])
  }

  // ---------------------------------------------------------------------------
  // Invariants

  // Originals fully sealed after the last of these groups.
  function Threshold(thresholds: seq<nat>): nat {
    if thresholds == [] then 0 else thresholds[|thresholds| - 1]
  }

  function Unfinished(shards: seq<ShardState>): nat {
    if shards == [] then 0
    else Unfinished(shards[..|shards| - 1]) + if shards[|shards| - 1] == Terminal then 0 else 1
  }

  // Group g starts with the first original not fully sealed before it, goes on
  // without a gap and may end with a piece of one more original.
  predicate GroupAt(groups: seq<seq<Fragment>>, thresholds: seq<nat>, g: nat)
    requires g < |groups| == |thresholds|
  {
    var before := Threshold(thresholds[..g]);
    && groups[g] != []
    && (forall i :: 0 <= i < |groups[g]| ==> groups[g][i].id == before + 1 + i)
    && before <= thresholds[g]
    && thresholds[g] - before <= |groups[g]| <= thresholds[g] - before + 1
  }

  // The IDs in the queue run up to the last admitted one.
  ghost predicate Contiguous(s: Sender) {
    && |s.sent| <= MAX_U64 && s.next == Wrap64(|s.sent| + 1) && s.cancelled == {}
    && (forall id :: id in s.sent <==> 1 <= id <= |s.sent|)
    && |s.entries| <= |s.sent|
    && forall i :: 0 <= i < |s.entries| ==> s.entries[i].id == |s.sent| - |s.entries| + 1 + i
  }

  // Groups all of whose shards are terminal.
  function Finished(f: Frontier): int {
    |f.thresholds| - if f.out then 1 else 0
  }

  ghost predicate Ok(f: Frontier, limits: QueueLimits, p: Parameters) {
    && SenderOk(f.sender, limits, p) && Contiguous(f.sender)
    && |f.sender.groups| == |f.thresholds| == |f.spoiled|
    && (forall g :: 0 <= g < |f.thresholds| ==> GroupAt(f.sender.groups, f.thresholds, g))
    && Threshold(f.thresholds) == |f.sender.sent| - |f.sender.entries|
    && Finished(f) >= 0
    && f.completed == Threshold(f.thresholds[..Finished(f)])
    && (f.out ==> f.outThrough == Threshold(f.thresholds) && f.remaining == Unfinished(f.shards) > 0)
    && FailureOk(f)
  }

  // The failure recorded is that of the first spoiled group.
  ghost predicate FailureOk(f: Frontier)
    requires |f.thresholds| == |f.spoiled|
  {
    && (!f.failed ==> f.failedFrom == 0 && forall g :: 0 <= g < |f.spoiled| ==> !f.spoiled[g])
    && (f.failed ==> exists g :: FirstSpoiled(f, g))
  }

  predicate FirstSpoiled(f: Frontier, g: int) {
    && 0 <= g < |f.spoiled| && |f.spoiled| == |f.thresholds|
    && f.spoiled[g] && (forall k :: 0 <= k < g ==> !f.spoiled[k])
    && f.failedFrom == Threshold(f.thresholds[..g]) + 1
  }

  // ---------------------------------------------------------------------------
  // Every step keeps the invariant

  lemma {:induction false} UnfinishedUpdate(shards: seq<ShardState>, i: nat, x: ShardState)
    requires i < |shards|
    ensures Unfinished(shards[i := x]) ==
      Unfinished(shards) - (if shards[i] == Terminal then 0 else 1) + (if x == Terminal then 0 else 1)
  {
    var n := |shards| - 1;
    if i == n {
      assert shards[i := x][..n] == shards[..n];
    } else {
      UnfinishedUpdate(shards[..n], i, x);
      assert shards[i := x][..n] == shards[..n][i := x];
    }
  }

  lemma {:induction false} UnfinishedFresh(n: nat)
    ensures Unfinished(seq(n, _ => Waiting)) == n
  {
    if n > 0 {
      UnfinishedFresh(n - 1);
      assert seq(n, _ => Waiting)[..n - 1] == seq(n - 1, _ => Waiting);
    }
  }

  lemma {:induction false} Ascends(groups: seq<seq<Fragment>>, thresholds: seq<nat>, n: nat, m: nat)
    requires n <= m <= |thresholds| == |groups|
    requires forall g :: 0 <= g < |thresholds| ==> GroupAt(groups, thresholds, g)
    ensures Threshold(thresholds[..n]) <= Threshold(thresholds[..m])
    decreases m
  {
    if n < m {
      Ascends(groups, thresholds, n, m - 1);
      assert GroupAt(groups, thresholds, m - 1);
      assert thresholds[..m][m - 1] == thresholds[m - 1];
    }
  }

  lemma StartsOk(limits: QueueLimits, p: Parameters)
    requires limits.InBounds() && limits.maxDatagramBytes <= p.maxDatagramBytes
    ensures Ok(IDLE, limits, p)
  {
    hide SenderOk, GroupAt;
    StartOk(limits, p);
  }

  lemma AcceptKeeps(f: Frontier, limits: QueueLimits, p: Parameters, payload: seq<Byte>, now: int, handle: Handle)
    requires limits.InBounds() && Ok(f, limits, p)
    ensures Ok(AcceptOne(f, limits, p, payload, now, handle), limits, p)
  {
    hide SenderOk, GroupAt, Threshold, Unfinished, FailureOk, TooLarge;
    AdmitKeeps(f.sender, limits, p, payload, now, handle);
    AcceptContiguous(f.sender, limits, p, payload, now, handle);
    FailureFrame(f, f.(sender := Act(f.sender, limits, p, AdmitAction(payload, now, handle))));
  }

  lemma FailureFrame(f: Frontier, g: Frontier)
    requires |f.thresholds| == |f.spoiled| && FailureOk(f)
    requires g.failed == f.failed && g.failedFrom == f.failedFrom && g.thresholds == f.thresholds && g.spoiled == f.spoiled
    ensures FailureOk(g)
  {
    if f.failed {
      var k :| FirstSpoiled(f, k);
      assert FirstSpoiled(g, k);
    }
  }

  lemma AcceptContiguous(s: Sender, limits: QueueLimits, p: Parameters, payload: seq<Byte>, now: int, handle: Handle)
    requires limits.InBounds() && Contiguous(s)
    ensures var next := Act(s, limits, p, AdmitAction(payload, now, handle));
      && Contiguous(next) && next.groups == s.groups
      && |next.sent| - |next.entries| == |s.sent| - |s.entries|
  {
    hide TooLarge, Contiguous;
    var next := Act(s, limits, p, AdmitAction(payload, now, handle));
    if next != s {
      OneMoreSent(s, next, payload);
    }
  }

  lemma OneMoreSent(s: Sender, next: Sender, payload: seq<Byte>)
    requires Contiguous(s) && s.next != 0 && next.sent == s.sent[s.next := payload] && next.next == Wrap64(s.next + 1)
    requires next.cancelled == s.cancelled && |next.entries| == |s.entries| + 1 && next.entries[..|s.entries|] == s.entries
    requires next.entries[|s.entries|].id == s.next
    ensures Contiguous(next) && |next.sent| - |next.entries| == |s.sent| - |s.entries|
  {
    hide Wrap64;
    NotWrapped(|s.sent|);
    assert next.sent.Keys == s.sent.Keys + {s.next};
    forall i | 0 <= i < |s.entries|
      ensures next.entries[i] == s.entries[i]
    {
      assert next.entries[..|s.entries|][i] == s.entries[i];
    }
  }

  lemma NotWrapped(n: nat)
    requires n <= MAX_U64
    ensures Wrap64(n + 1) != 0 ==> Wrap64(n + 1) == n + 1 && n < MAX_U64
  {
  }

  // What sealing takes from the queue and leaves there, by ID.
  lemma SealShape(entries: seq<Entry>, limits: QueueLimits, p: Parameters)
    requires p.Valid() && entries != [] && EntriesOk(entries, limits, p)
    ensures var c, group, rest := PlanCursor(entries, limits, p), SealedGroup(entries, limits, p), Remainder(entries, limits, p);
      && c.next <= |group| <= c.next + 1 && |group| >= 1 && |group| <= |entries|
      && (forall i :: 0 <= i < |group| ==> group[i].id == entries[i].id)
      && |rest| == |entries| - c.next
      && (forall i :: 0 <= i < |rest| ==> rest[i].id == entries[c.next + i].id)
  {
    hide EntryOk, PlanFrom;
    PlansProgress(entries, limits, p);
  }

  // The code computes the frontier by subtracting 64-bit counters, of which the
  // next ID may have wrapped to 0; the result is the number of sealed originals.
  lemma FrontierBySubtraction(admitted: nat, queued: nat)
    requires queued <= admitted <= MAX_U64
    ensures Wrap64(Wrap64(admitted + 1) - 1 - queued) == admitted - queued
  {
  }

  lemma SealContiguous(s: Sender, limits: QueueLimits, p: Parameters)
    requires p.Valid() && limits.InBounds() && s.entries != [] && EntriesOk(s.entries, limits, p) && Contiguous(s)
    ensures var next := Act(s, limits, p, SealAction);
      && Contiguous(next) && next.sent == s.sent && next.groups == s.groups + [SealedGroup(s.entries, limits, p)]
      && |next.entries| == |s.entries| - PlanCursor(s.entries, limits, p).next
      && Wrap64(next.next - 1 - |next.entries|) == |next.sent| - |next.entries|
  {
    hide EntriesOk, PlanCursor, SealedGroup, Remainder, Wrap64;
    SealShape(s.entries, limits, p);
    FrontierBySubtraction(|s.sent|, |s.entries| - PlanCursor(s.entries, limits, p).next);
  }

  lemma GroupsExtend(groups: seq<seq<Fragment>>, thresholds: seq<nat>, group: seq<Fragment>, t: nat)
    requires |groups| == |thresholds|
    requires forall g :: 0 <= g < |thresholds| ==> GroupAt(groups, thresholds, g)
    requires var before := Threshold(thresholds);
      && group != [] && before <= t && t - before <= |group| <= t - before + 1
      && forall i :: 0 <= i < |group| ==> group[i].id == before + 1 + i
    ensures forall g :: 0 <= g <= |thresholds| ==> GroupAt(groups + [group], thresholds + [t], g)
  {
    var gs, ts := groups + [group], thresholds + [t];
    assert ts[..|thresholds|] == thresholds;
    forall g | 0 <= g < |thresholds|
      ensures GroupAt(gs, ts, g)
    {
      assert GroupAt(groups, thresholds, g);
      assert ts[..g] == thresholds[..g];
    }
  }

  lemma SendKeeps(f: Frontier, limits: QueueLimits, p: Parameters, shards: nat)
    requires p.Valid() && limits.InBounds() && Ok(f, limits, p)
    ensures Ok(SendGroup(f, limits, p, shards), limits, p)
  {
    hide GroupAt, Unfinished, FailureOk, Contiguous, EntriesOk, FlowOk, PlanCursor, SealedGroup, Remainder, Encodable;
    if !f.out && f.sender.entries != [] && shards > 0 {
      var next := SendGroup(f, limits, p, shards);
      SealKeeps(f.sender, limits, p);
      SealContiguous(f.sender, limits, p);
      SealedFollows(f, limits, p);
      GroupsExtend(f.sender.groups, f.thresholds, SealedGroup(f.sender.entries, limits, p),
        Threshold(f.thresholds) + PlanCursor(f.sender.entries, limits, p).next);
      UnfinishedFresh(shards);
      SpoilNone(f, next);
      assert f.thresholds[..|f.thresholds|] == f.thresholds;
      assert next.thresholds[..|f.thresholds|] == f.thresholds;
    }
  }

  // The sealed group continues where the previous one stopped.
  lemma SealedFollows(f: Frontier, limits: QueueLimits, p: Parameters)
    requires p.Valid() && Contiguous(f.sender) && EntriesOk(f.sender.entries, limits, p) && f.sender.entries != []
    requires Threshold(f.thresholds) == |f.sender.sent| - |f.sender.entries|
    ensures var group, c := SealedGroup(f.sender.entries, limits, p), PlanCursor(f.sender.entries, limits, p);
      && group != [] && c.next <= |group| <= c.next + 1
      && forall i :: 0 <= i < |group| ==> group[i].id == Threshold(f.thresholds) + 1 + i
  {
    hide EntriesOk, PlanCursor, SealedGroup, Remainder, Threshold;
    SealShape(f.sender.entries, limits, p);
  }

  lemma SpoilNone(f: Frontier, g: Frontier)
    requires |f.thresholds| == |f.spoiled| && FailureOk(f)
    requires g.failed == f.failed && g.failedFrom == f.failedFrom
    requires |g.thresholds| == |g.spoiled| && g.spoiled == f.spoiled + [false] && f.thresholds <= g.thresholds
    ensures FailureOk(g)
  {
    if f.failed {
      var k :| FirstSpoiled(f, k);
      assert g.thresholds[..k] == f.thresholds[..k];
      assert FirstSpoiled(g, k);
    }
  }

  lemma DispatchKeeps(f: Frontier, limits: QueueLimits, p: Parameters, shard: nat)
    requires Ok(f, limits, p)
    ensures Ok(DispatchShard(f, shard), limits, p)
  {
    hide SenderOk, GroupAt, Contiguous, Threshold;
    if shard < |f.shards| && f.shards[shard] == Waiting {
      UnfinishedUpdate(f.shards, shard, Dispatched);
    }
    FailureFrame(f, DispatchShard(f, shard));
  }

  // A failing shard names the first original of its group.
  lemma FailureKeeps(f: Frontier, g: Frontier, failure: bool)
    requires |f.thresholds| == |f.spoiled| > 0 && FailureOk(f)
    requires Threshold(f.thresholds[..|f.thresholds| - 1]) == f.completed
    requires f.completed < MAX_U64 && g.thresholds == f.thresholds
    requires g.failed == (f.failed || failure)
    requires g.failedFrom == if failure && !f.failed then Wrap64(f.completed + 1) else f.failedFrom
    requires var last := |f.spoiled| - 1; g.spoiled == f.spoiled[last := f.spoiled[last] || failure]
    ensures FailureOk(g)
  {
    hide Threshold;
    if f.failed {
      var k :| FirstSpoiled(f, k);
      assert FirstSpoiled(g, k);
    } else if failure {
      assert FirstSpoiled(g, |f.spoiled| - 1);
    }
  }

  lemma FinishKeeps(f: Frontier, limits: QueueLimits, p: Parameters, shard: nat, failure: bool)
    requires p.Valid() && limits.InBounds() && Ok(f, limits, p)
    ensures Ok(FinishShard(f, shard, failure), limits, p)
  {
    hide SenderOk, Contiguous, GroupAt, FailureOk;
    if f.out && shard < |f.shards| && f.shards[shard] != Terminal && f.spoiled != [] {
      var next := FinishShard(f, shard, failure);
      UnfinishedUpdate(f.shards, shard, Terminal);
      CompletedBelow(f, limits, p);
      FailureKeeps(f, next, failure);
      assert f.thresholds[..|f.thresholds|] == f.thresholds;
    }
  }

  // While a group is out, at least one more original was admitted.
  lemma CompletedBelow(f: Frontier, limits: QueueLimits, p: Parameters)
    requires Ok(f, limits, p) && f.out
    ensures f.completed < |f.sender.sent| <= MAX_U64
  {
    hide SenderOk, FailureOk, Unfinished;
    var g := |f.thresholds| - 1;
    assert GroupAt(f.sender.groups, f.thresholds, g);
    InSender(f.sender, limits, p, g);
  }

  lemma InSender(s: Sender, limits: QueueLimits, p: Parameters, g: nat)
    requires SenderOk(s, limits, p) && g < |s.groups| && s.groups[g] != []
    ensures s.groups[g][0].id in s.sent
  {
    InLogAt(s.groups, g, s.groups[g][0]);
    hide Forward, QueuedOk, SealedOk, CountOf, Encodable, EntriesOk, Log;
    var i :| 0 <= i < |Log(s.groups)| && Log(s.groups)[i] == s.groups[g][0];
  }

  lemma {:induction false} InLogAt(groups: seq<seq<Fragment>>, g: nat, x: Fragment)
    requires g < |groups| && x in groups[g]
    ensures x in Log(groups)
  {
    if g < |groups| - 1 {
      InLogAt(groups[..|groups| - 1], g, x);
    }
  }

  lemma {:induction false} EveryFrontierIsOk(limits: QueueLimits, p: Parameters, steps: seq<Step>)
    requires p.Valid() && limits.InBounds() && limits.maxDatagramBytes <= p.maxDatagramBytes
    ensures Ok(Run(limits, p, steps), limits, p)
  {
    hide Ok, AcceptOne, SendGroup, DispatchShard, FinishShard;
    if steps == [] {
      StartsOk(limits, p);
    } else {
      var before := Run(limits, p, steps[..|steps| - 1]);
      EveryFrontierIsOk(limits, p, steps[..|steps| - 1]);
      match steps[|steps| - 1]
      case Accept(payload, now, handle) => AcceptKeeps(before, limits, p, payload, now, handle);
      case Send(shards) => SendKeeps(before, limits, p, shards);
      case Dispatch(shard) => DispatchKeeps(before, limits, p, shard);
      case Finish(shard, failure) => FinishKeeps(before, limits, p, shard, failure);
    }
  }

  // ---------------------------------------------------------------------------
  // What the frontier means

  // Every byte of the original was emitted, in groups that are all terminal.
  ghost predicate Done(f: Frontier, d: U64) {
    && d in f.sender.sent && SealedOk(d, Log(f.sender.groups), f.sender.sent) && !Queued(f.sender.entries, d)
    && forall g :: 0 <= g < |f.sender.groups| && HasPiece(f.sender.groups[g], d) ==> g < Finished(f)
  }

  predicate HasPiece(group: seq<Fragment>, d: U64) {
    exists i :: 0 <= i < |group| && group[i].id == d
  }

  // Which originals a group may carry.
  lemma PieceBounds(f: Frontier, limits: QueueLimits, p: Parameters, g: nat, d: U64)
    requires Ok(f, limits, p) && g < |f.sender.groups| && HasPiece(f.sender.groups[g], d)
    ensures Threshold(f.thresholds[..g]) < d
  {
    hide SenderOk, Contiguous, FailureOk, Unfinished;
    assert GroupAt(f.sender.groups, f.thresholds, g);
  }

  lemma LastPiece(f: Frontier, limits: QueueLimits, p: Parameters, g: nat, d: U64)
    requires Ok(f, limits, p) && g < |f.sender.groups| && Threshold(f.thresholds[..g]) < d <= f.thresholds[g]
    ensures HasPiece(f.sender.groups[g], d)
  {
    hide SenderOk, Contiguous, FailureOk, Unfinished;
    assert GroupAt(f.sender.groups, f.thresholds, g);
    assert f.sender.groups[g][d - Threshold(f.thresholds[..g]) - 1].id == d;
  }

  lemma QueuedBounds(s: Sender, d: U64)
    requires Contiguous(s)
    ensures Queued(s.entries, d) <==> |s.sent| - |s.entries| < d <= |s.sent|
  {
    if |s.sent| - |s.entries| < d <= |s.sent| {
      assert s.entries[d - (|s.sent| - |s.entries|) - 1].id == d;
    }
  }

  /** In every reachable state `completed` is exactly the frontier of finished
      originals: an original lies at or below it if and only if all its bytes were
      emitted and every shard of every group carrying them is terminal. */
  lemma CompletedIsExact(f: Frontier, limits: QueueLimits, p: Parameters, d: U64)
    requires Ok(f, limits, p) && d >= 1
    ensures d <= f.completed <==> Done(f, d)
  {
    if d <= f.completed {
      BelowIsDone(f, limits, p, d);
    } else if Done(f, d) {
      DoneIsBelow(f, limits, p, d);
      assert false;
    }
  }

  lemma DoneIsBelow(f: Frontier, limits: QueueLimits, p: Parameters, d: U64)
    requires Ok(f, limits, p) && Done(f, d)
    ensures 1 <= d <= f.completed
  {
    hide SenderOk, FailureOk, Unfinished, SealedOk, HasPiece, GroupAt;
    QueuedBounds(f.sender, d);
    var n := |f.thresholds|;
    assert f.thresholds[..n] == f.thresholds;
    if f.out && f.completed < d {
      LastPiece(f, limits, p, n - 1, d);
    }
  }

  lemma BelowIsDone(f: Frontier, limits: QueueLimits, p: Parameters, d: U64)
    requires Ok(f, limits, p) && 1 <= d <= f.completed
    ensures Done(f, d)
  {
    hide FailureOk, Unfinished, SealedOk, HasPiece, GroupAt, EntriesOk, Genuine, Forward, QueuedOk, Encodable;
    var n := |f.thresholds|;
    assert f.thresholds[..n] == f.thresholds;
    Ascends(f.sender.groups, f.thresholds, Finished(f), n);
    QueuedBounds(f.sender, d);
    forall g | 0 <= g < |f.sender.groups| && HasPiece(f.sender.groups[g], d)
      ensures g < Finished(f)
    {
      PieceBounds(f, limits, p, g, d);
      if g >= Finished(f) {
        Ascends(f.sender.groups, f.thresholds, Finished(f), g);
      }
    }
  }

  /** A fence at or below `completed` and below the first failure covers only
      originals whose every group finished without a failed shard. */
  lemma FenceIsTruthful(f: Frontier, limits: QueueLimits, p: Parameters, fence: U64, g: nat, d: U64)
    requires Ok(f, limits, p) && fence <= f.completed && (!f.failed || fence < f.failedFrom)
    requires 1 <= d <= fence && g < |f.sender.groups| && HasPiece(f.sender.groups[g], d)
    ensures g < Finished(f) && !f.spoiled[g]
  {
    hide SenderOk, Contiguous, Unfinished, GroupAt, HasPiece;
    BelowIsDone(f, limits, p, d);
    PieceBounds(f, limits, p, g, d);
    if f.failed {
      var k :| FirstSpoiled(f, k);
      if k <= g {
        Ascends(f.sender.groups, f.thresholds, k, g);
      }
    }
  }

  /** `failedFrom` is exactly the first original of the first group with a failed
      shard, and it is recorded if and only if there is such a group. */
  lemma FailureIsTheFirst(f: Frontier, limits: QueueLimits, p: Parameters)
    requires Ok(f, limits, p)
    ensures f.failed <==> exists g :: 0 <= g < |f.spoiled| && f.spoiled[g]
    ensures f.failed ==> exists g :: FirstSpoiled(f, g) && f.sender.groups[g] != [] && f.sender.groups[g][0].id == f.failedFrom
  {
    hide SenderOk, Contiguous, Unfinished;
    if f.failed {
      var g :| FirstSpoiled(f, g);
      assert GroupAt(f.sender.groups, f.thresholds, g);
    }
  }

  /** The frontier never retreats and the first failure is never replaced. */
  lemma FrontierIsMonotone(f: Frontier, limits: QueueLimits, p: Parameters, s: Step)
    requires p.Valid() && limits.InBounds() && Ok(f, limits, p)
    ensures var next := Apply(f, limits, p, s);
      next.completed >= f.completed && (f.failed ==> next.failed && next.failedFrom == f.failedFrom)
  {
    hide SenderOk, Contiguous, FailureOk, GroupAt;
    if f.out {
      var n := |f.thresholds|;
      assert f.thresholds[..n] == f.thresholds;
      Ascends(f.sender.groups, f.thresholds, n - 1, n);
    }
  }

  /** Once nothing is queued and no group is out, the frontier has reached the
      last admitted original: a Flush for it completes. */
  lemma DrainedIsComplete(f: Frontier, limits: QueueLimits, p: Parameters)
    requires Ok(f, limits, p)
    ensures f.completed <= Accepted(f)
    ensures f.sender.entries == [] && !f.out ==> f.completed == Accepted(f)
  {
    hide SenderOk, FailureOk, GroupAt;
    var n := |f.thresholds|;
    assert f.thresholds[..n] == f.thresholds;
    Ascends(f.sender.groups, f.thresholds, Finished(f), n);
  }

  /** The fence over every run of writes, sends, dispatches and completions:
      `completed` marks exactly the originals that are done, and one at or below it
      and below `failedFrom` was sent without a single failed shard. */
  lemma EveryFenceIsTruthful(limits: QueueLimits, p: Parameters, steps: seq<Step>, d: U64, g: nat)
    requires p.Valid() && limits.InBounds() && limits.maxDatagramBytes <= p.maxDatagramBytes && d >= 1
    ensures var f := Run(limits, p, steps);
      && (d <= f.completed <==> Done(f, d))
      && (d <= f.completed && (!f.failed || d < f.failedFrom) && g < |f.sender.groups| && HasPiece(f.sender.groups[g], d) ==>
          g < |f.spoiled| && !f.spoiled[g])
      && (f.sender.entries == [] && !f.out ==> f.completed == Accepted(f))
  {
    hide Run, Ok, Done, HasPiece, Finished;
    var f := Run(limits, p, steps);
    EveryFrontierIsOk(limits, p, steps);
    CompletedIsExact(f, limits, p, d);
    DrainedIsComplete(f, limits, p);
    if d <= f.completed && (!f.failed || d < f.failedFrom) && g < |f.sender.groups| && HasPiece(f.sender.groups[g], d) {
      FenceIsTruthful(f, limits, p, d, g, d);
      SpoiledAreGroups(f, limits, p);
    }
  }

  lemma SpoiledAreGroups(f: Frontier, limits: QueueLimits, p: Parameters)
    requires Ok(f, limits, p)
    ensures |f.spoiled| == |f.sender.groups|
  {
    hide SenderOk, Contiguous, GroupAt;
  }
}
