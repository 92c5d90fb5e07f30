// The frontier against the history of the steps that led to it: which shards were
// reported, which of the reports were failures, and when a group is over.
module FenceHistory {
  import opened Words
  import opened Packing
  import opened AggregationQueue
  import opened SenderRun
  import opened SendFence

  // The step reports shard i of group g, which is the one under way.
  predicate Reports(f: Frontier, s: Step, g: nat, i: nat) {
    s.Finish? && s.shard == i && i < |f.shards| && f.out && g + 1 == |f.thresholds|
  }

  // Shard i of group g was reported in the course of the run.
  function Reported(limits: QueueLimits, p: Parameters, steps: seq<Step>, g: nat, i: nat): bool
    requires limits.InBounds()
  {
    steps != [] &&
    (Reported(limits, p, steps[..|steps| - 1], g, i)
     || Reports(Run(limits, p, steps[..|steps| - 1]), steps[|steps| - 1], g, i))
  }

  // The first report of shard i of group g was a failure.
  function FailedFirst(limits: QueueLimits, p: Parameters, steps: seq<Step>, g: nat, i: nat): bool
    requires limits.InBounds()
  {
    steps != [] &&
    var front, s := steps[..|steps| - 1], steps[|steps| - 1];
    (FailedFirst(limits, p, front, g, i)
     || (Reports(Run(limits, p, front), s, g, i) && s.failure && !Reported(limits, p, front, g, i)))
  }

  // The first report of some shard of group g was a failure.
  ghost predicate FailedGroup(limits: QueueLimits, p: Parameters, steps: seq<Step>, g: nat)
    requires limits.InBounds()
  {
    exists i: nat :: FailedFirst(limits, p, steps, g, i)
  }

  predicate Unreported(shards: seq<ShardState>, i: nat) {
    i < |shards| && shards[i] != Terminal
  }

  predicate TerminalIsReported(limits: QueueLimits, p: Parameters, f: Frontier, steps: seq<Step>, i: nat)
    requires limits.InBounds() && f.thresholds != []
  {
    Reported(limits, p, steps, |f.thresholds| - 1, i) <==> i < |f.shards| && !Unreported(f.shards, i)
  }

  // What the frontier remembers of the reports.
  ghost predicate Remembers(limits: QueueLimits, p: Parameters, f: Frontier, steps: seq<Step>)
    requires limits.InBounds()
  {
    && |f.spoiled| == |f.thresholds| && (f.out || f.shards != [] ==> f.thresholds != [])
    && (forall g: nat, i: nat :: g >= |f.thresholds| ==> !Reported(limits, p, steps, g, i) && !FailedFirst(limits, p, steps, g, i))
    && (f.out <==> exists i: nat :: Unreported(f.shards, i))
    && (f.thresholds != [] ==> forall i: nat :: TerminalIsReported(limits, p, f, steps, i))
    && (forall g: nat :: g < |f.spoiled| ==> (f.spoiled[g] <==> FailedGroup(limits, p, steps, g)))
  }

  lemma {:induction false} AllTerminal(shards: seq<ShardState>)
    ensures Unfinished(shards) == 0 <==> forall i: nat :: !Unreported(shards, i)
  {
    if shards != [] {
      var n := |shards| - 1;
      AllTerminal(shards[..n]);
      assert Unreported(shards, n) <==> shards[n] != Terminal;
      assert forall i: nat :: i < n ==> (Unreported(shards, i) <==> Unreported(shards[..n], i));
    }
  }

  // A frontier that is out has a shard left, and one that finishes its last has none.
  lemma OutIsUnfinished(f: Frontier, limits: QueueLimits, p: Parameters, shard: nat, failure: bool)
    requires Ok(f, limits, p)
    ensures f.out ==> f.spoiled != [] && |f.spoiled| == |f.thresholds|
    ensures var g := FinishShard(f, shard, failure);
      f.out && shard < |f.shards| && f.shards[shard] != Terminal ==>
        (g.out <==> exists i: nat :: Unreported(g.shards, i))
  {
    hide SenderOk, Contiguous, GroupAt, FailureOk, Threshold;
    if f.out && shard < |f.shards| && f.shards[shard] != Terminal {
      UnfinishedUpdate(f.shards, shard, Terminal);
      AllTerminal(f.shards[shard := Terminal]);
    }
  }

  /** A group goes out when none is out, something is queued and it has shards, and all of
      them wait; a waiting shard is dispatched; a shard is reported once; and the group is
      over, with the frontier at its threshold, exactly when every shard was reported. */
  lemma StepMeans(f: Frontier, limits: QueueLimits, p: Parameters, s: Step)
    requires p.Valid() && limits.InBounds() && Ok(f, limits, p)
    ensures var n := Apply(f, limits, p, s);
      match s
      case Accept(payload, now, handle) =>
        n == f.(sender := Act(f.sender, limits, p, AdmitAction(payload, now, handle)))
      case Send(shards) =>
        if f.out || f.sender.entries == [] || shards == 0 then n == f
        else
          && n.out && n.shards == seq(shards, _ => Waiting) && n.sender == Act(f.sender, limits, p, SealAction)
          && n.completed == f.completed && n.failed == f.failed && |n.thresholds| == |f.thresholds| + 1
      case Dispatch(shard) =>
        n == if shard < |f.shards| && f.shards[shard] == Waiting then f.(shards := f.shards[shard := Dispatched]) else f
      case Finish(shard, failure) =>
        if !f.out || shard >= |f.shards| || f.shards[shard] == Terminal then n == f
        else
          && n.shards == f.shards[shard := Terminal] && n.sender == f.sender
          && (n.out <==> exists i: nat :: Unreported(n.shards, i))
          && n.completed == (if n.out then f.completed else |f.sender.sent| - |f.sender.entries|)
          && (n.failed <==> f.failed || failure)
  {
    hide SenderOk, Contiguous, GroupAt, FailureOk, Act;
    if s.Finish? {
      OutIsUnfinished(f, limits, p, s.shard, s.failure);
    }
  }

  lemma StepRemembers(limits: QueueLimits, p: Parameters, front: seq<Step>, s: Step)
    requires p.Valid() && limits.InBounds() && Ok(Run(limits, p, front), limits, p)
    requires Remembers(limits, p, Run(limits, p, front), front)
    ensures Remembers(limits, p, Apply(Run(limits, p, front), limits, p, s), front + [s])
  {
    hide Ok, Run, Act, FailedGroup, Unreported, PlanCursor, Threshold;
    var f, steps := Run(limits, p, front), front + [s];
    var n := Apply(f, limits, p, s);
    forall g: nat, i: nat
      ensures Reported(limits, p, steps, g, i) <==> Reported(limits, p, front, g, i) || Reports(f, s, g, i)
      ensures FailedFirst(limits, p, steps, g, i) <==>
        FailedFirst(limits, p, front, g, i) || (Reports(f, s, g, i) && s.failure && !Reported(limits, p, front, g, i))
    {
      OneMore(limits, p, front, s, g, i);
    }
    ShardsAfter(f, limits, p, s);
    if n.thresholds != [] {
      forall i: nat
        ensures TerminalIsReported(limits, p, n, steps, i)
      {
        if f.thresholds != [] {
          assert TerminalIsReported(limits, p, f, front, i);
        }
      }
    }
    forall g: nat | g < |n.spoiled|
      ensures n.spoiled[g] <==> FailedGroup(limits, p, steps, g)
    {
      GroupAfter(limits, p, front, s, g);
    }
  }

  // What a step does to the shards of the group under way.
  lemma ShardsAfter(f: Frontier, limits: QueueLimits, p: Parameters, s: Step)
    requires limits.InBounds() && Ok(f, limits, p) && (f.out <==> exists i: nat :: Unreported(f.shards, i))
    ensures var n := Apply(f, limits, p, s);
      && (n.out <==> exists i: nat :: Unreported(n.shards, i))
      && (|n.thresholds| == |f.thresholds| ==> |n.shards| == |f.shards| && forall i: nat ::
            Unreported(n.shards, i) <==> Unreported(f.shards, i) && !(s.Finish? && s.shard == i))
      && (|n.thresholds| != |f.thresholds| ==> !f.out && forall i: nat :: i < |n.shards| ==> Unreported(n.shards, i))
  {
    hide SenderOk, Contiguous, GroupAt, FailureOk, Act, PlanCursor, Threshold;
    match s
    case Accept(payload, now, handle) =>
    case Send(shards) =>
      if !f.out && f.sender.entries != [] && shards != 0 {
        assert Unreported(Apply(f, limits, p, s).shards, 0);
      }
    case Dispatch(shard) =>
      var n := Apply(f, limits, p, s);
      assert forall i: nat :: Unreported(n.shards, i) <==> Unreported(f.shards, i);
    case Finish(shard, failure) =>
      OutIsUnfinished(f, limits, p, shard, failure);
      if Unreported(f.shards, shard) {
        assert f.out;
      }
  }

  lemma GroupAfter(limits: QueueLimits, p: Parameters, front: seq<Step>, s: Step, g: nat)
    requires limits.InBounds() && Ok(Run(limits, p, front), limits, p) && Remembers(limits, p, Run(limits, p, front), front)
    requires g < |Apply(Run(limits, p, front), limits, p, s).spoiled|
    ensures Apply(Run(limits, p, front), limits, p, s).spoiled[g] <==> FailedGroup(limits, p, front + [s], g)
  {
    hide Ok, Run, Act, PlanCursor, Threshold;
    var f := Run(limits, p, front);
    forall i: nat
      ensures FailedFirst(limits, p, front + [s], g, i) <==>
        FailedFirst(limits, p, front, g, i) || (Reports(f, s, g, i) && s.failure && !Reported(limits, p, front, g, i))
    {
      OneMore(limits, p, front, s, g, i);
    }
    if s.Finish? && f.out && g + 1 == |f.thresholds| {
      assert TerminalIsReported(limits, p, f, front, s.shard);
    }
    if i: nat :| FailedFirst(limits, p, front, g, i) {
      assert FailedGroup(limits, p, front, g) && FailedFirst(limits, p, front + [s], g, i);
    }
    if s.Finish? && Reports(f, s, g, s.shard) && s.failure && !Reported(limits, p, front, g, s.shard) {
      assert FailedFirst(limits, p, front + [s], g, s.shard);
    }
    if g < |f.spoiled| {
      assert f.spoiled[g] <==> FailedGroup(limits, p, front, g);
    }
  }

  lemma OneMore(limits: QueueLimits, p: Parameters, front: seq<Step>, s: Step, g: nat, i: nat)
    requires limits.InBounds()
    ensures var f := Run(limits, p, front);
      && (Reported(limits, p, front + [s], g, i) <==> Reported(limits, p, front, g, i) || Reports(f, s, g, i))
      && (FailedFirst(limits, p, front + [s], g, i) <==>
          FailedFirst(limits, p, front, g, i) || (Reports(f, s, g, i) && s.failure && !Reported(limits, p, front, g, i)))
  {
    hide Run;
    assert (front + [s])[..|front + [s]| - 1] == front;
  }

  lemma {:induction false} EveryRunRemembers(limits: QueueLimits, p: Parameters, steps: seq<Step>)
    requires p.Valid() && limits.InBounds() && limits.maxDatagramBytes <= p.maxDatagramBytes
    ensures Ok(Run(limits, p, steps), limits, p) && Remembers(limits, p, Run(limits, p, steps), steps)
  {
    hide Ok, Apply, Remembers;
    EveryFrontierIsOk(limits, p, steps);
    if steps == [] {
      NothingYet(limits, p);
    } else {
      var front := steps[..|steps| - 1];
      EveryRunRemembers(limits, p, front);
      StepRemembers(limits, p, front, steps[|steps| - 1]);
      assert front + [steps[|steps| - 1]] == steps;
    }
  }

  lemma NothingYet(limits: QueueLimits, p: Parameters)
    requires limits.InBounds()
    ensures Remembers(limits, p, Run(limits, p, []), [])
  {
  }

  /** Over every run a group counts as spoiled exactly when the first report of one of its
      shards was a failure, and an original at or below the frontier and below `failedFrom`
      had no shard of any of its groups fail. */
  lemma FenceIsHistory(limits: QueueLimits, p: Parameters, steps: seq<Step>, d: U64, g: nat, i: nat)
    requires p.Valid() && limits.InBounds() && limits.maxDatagramBytes <= p.maxDatagramBytes && d >= 1
    ensures var f := Run(limits, p, steps);
      && (g < |f.spoiled| ==> (f.spoiled[g] <==> FailedGroup(limits, p, steps, g)))
      && (f.failed <==> exists h: nat :: FailedGroup(limits, p, steps, h))
      && (d <= f.completed && (!f.failed || d < f.failedFrom) && g < |f.sender.groups| && HasPiece(f.sender.groups[g], d) ==>
          !FailedFirst(limits, p, steps, g, i))
  {
    hide Run, Ok, FailedFirst, Reported, HasPiece, Unreported;
    EveryRunRemembers(limits, p, steps);
    EveryFenceIsTruthful(limits, p, steps, d, g);
    FailureIsTheFirst(Run(limits, p, steps), limits, p);
  }
}
