// internal/sessionv2: the owned-send half of the Controller, updated in place.
//
// Each method is tied to a transition of OwnedSends.Sends, whose invariant and
// whose frontier are proved there. The state of senders, which belongs to the
// operating system, appears as parameters.
module SendController {
  import opened Words
  import opened RingMath
  import opened SendFence
  import opened OwnedSends
  import AggregationQueue
  import Packing
  import SenderRun

  const MAX_SHARDS := 256

  datatype SendErr = NoErr | ErrSendToken | ErrSendPending | ErrInvalid | ErrTime | ErrExhausted | ErrClosed

  // What a worker reports: `started` is -1 when no attempt time is known.
  datatype Outcome = Outcome(token: U64, invoked: bool, attemptKnown: bool, started: int, finished: int, failure: bool)
  {
    predicate HasStart() {
      started >= 0
    }

    // The checks of CompleteSend against the slot it names.
    predicate Plausible(s: Slot, now: int) {
      && s.issued <= finished <= now
      && (!invoked ==> failure && !HasStart())
      && (invoked ==> attemptKnown == s.native)
      && (!attemptKnown ==> !HasStart())
      && (HasStart() ==> s.issued <= started <= finished)
      && (invoked && attemptKnown && !HasStart() ==> failure)
    }

    // The packet really went to the socket.
    predicate Attempted() {
      invoked && (!attemptKnown || HasStart())
    }
  }

  function IndexOfToken(slots: seq<Slot>, token: U64): (i: nat)
    ensures i <= |slots|
    ensures i < |slots| ==> slots[i].token == token != 0
    ensures i == |slots| ==> token == 0 || forall k :: 0 <= k < |slots| ==> slots[k].token != token
  {
    if slots == [] || (token != 0 && slots[0].token == token) then 0
    else
      var k := IndexOfToken(slots[1..], token);
      assert forall j :: 0 < j < |slots| ==> slots[j] == slots[1..][j - 1];
      k + 1
  }

  // The live token that an outcome names is the one that the search finds.
  lemma TokensAreOne(v: Sends, outcome: Outcome, now: int)
    requires Inv(v)
    ensures var k := IndexOfToken(v.slots, outcome.token);
      && (k < |v.slots| ==> (outcome.Plausible(v.slots[k], now) <==> Fits(outcome, v.slots[k], now)))
      && forall i :: 0 <= i < |v.slots| && outcome.token != 0 && v.slots[i].token == outcome.token ==> i == k
  {
    hide PathsOk, ControlsOk, ShardsOk, Outcome.Plausible, Fits, Count;
    var k := IndexOfToken(v.slots, outcome.token);
    if k < |v.slots| {
      PlausibleFits(outcome, v.slots[k], now);
    }
  }

  // Whether the path is still the one the packet was issued for.
  function SamePath(p: Path, s: Slot): bool {
    if s.source == Join then p.joining == s.incarnation else p.incarnation == s.incarnation
  }

  // The state after CompleteSend accepted an outcome for slot i.
  function Completed(v: Sends, i: nat, outcome: Outcome, airtime: int): Sends
    requires i < |v.slots| && v.slots[i].path < |v.paths|
  {
    var s := v.slots[i];
    var w := Vacate(v, i);
    if v.closing then w
    else
      var at := if outcome.attemptKnown then outcome.started else outcome.finished;
      var paced := if outcome.Attempted() && SamePath(w.paths[s.path], s) then Pace(w, s.path, at + airtime) else w;
      if s.source == Data then paced.(frontier := FinishShard(v.frontier, s.shard, outcome.failure))
      else Settle(paced, s, outcome.Attempted(), outcome.finished)
  }

  // Pacing commutes with the rest of a completion: it keeps the same invariant.
  lemma CompletedKeeps(v: Sends, i: nat, outcome: Outcome, airtime: int)
    requires Inv(v) && i < |v.slots| && Live(v.slots[i]) && v.slots[i].path < |v.paths|
    requires v.frontier.out ==> v.frontier.spoiled != [] && v.frontier.remaining == Unfinished(v.frontier.shards)
    ensures Inv(Completed(v, i, outcome, airtime))
    ensures Completed(v, i, outcome, airtime).frontier
      == Complete(v, i, outcome.Attempted(), outcome.failure, outcome.finished).frontier
  {
    hide Inv, Unfinished, FinishShard, Vacate;
    var s := v.slots[i];
    var plain := Complete(v, i, outcome.Attempted(), outcome.failure, outcome.finished);
    CompleteKeeps(v, i, outcome.Attempted(), outcome.failure, outcome.finished);
    var w := Vacate(v, i);
    VacateFrame(v, i);
    var at := (if outcome.attemptKnown then outcome.started else outcome.finished) + airtime;
    PaceLast(w, s, outcome.Attempted(), outcome.finished, at);
    PaceKeeps(plain, s.path, at);
  }

  lemma PaceLast(w: Sends, s: Slot, attempted: bool, finished: int, at: int)
    requires s.path < |w.paths|
    ensures s.source != Data ==>
      && |Settle(w, s, attempted, finished).paths| == |w.paths|
      && Settle(Pace(w, s.path, at), s, attempted, finished) == Pace(Settle(w, s, attempted, finished), s.path, at)
      && Settle(w, s, attempted, finished).frontier == w.frontier
    ensures forall f :: Pace(w, s.path, at).(frontier := f) == Pace(w.(frontier := f), s.path, at)
    ensures Pace(w, s.path, at).frontier == w.frontier
  {
  }

  /** An accepted completion is one completion of the history, followed at most by
      pacing: its packet counts as sent exactly when the outcome says it was attempted. */
  lemma CompletedIsMoves(
    v: Sends, i: nat, outcome: Outcome, airtime: int, limits: AggregationQueue.QueueLimits, prm: Packing.Parameters)
    requires limits.InBounds() && Inv(v) && i < |v.slots| && Live(v.slots[i]) && v.slots[i].path < |v.paths|
    ensures var m := CompleteMove(i, v.slots[i].token, outcome.Attempted(), outcome.failure, outcome.finished);
      var w := Make(v, limits, prm, m);
      var at := if outcome.attemptKnown then outcome.started else outcome.finished;
      Completed(v, i, outcome, airtime) in {w, Make(w, limits, prm, PaceMove(v.slots[i].path, at + airtime))}
  {
    hide Inv, Unfinished, FinishShard, Vacate, Settle, Pace;
    VacateFrame(v, i);
    var at := (if outcome.attemptKnown then outcome.started else outcome.finished) + airtime;
    PaceLast(Vacate(v, i), v.slots[i], outcome.Attempted(), outcome.finished, at);
    PaceKeepsPaths(Vacate(v, i).(frontier := FinishShard(v.frontier, v.slots[i].shard, outcome.failure)), v.slots[i].path, at);
  }

  lemma PaceKeepsPaths(v: Sends, p: nat, at: int)
    requires p < |v.paths|
    ensures |Pace(v, p, at).paths| == |v.paths|
  {
  }

  // The story an outcome tells of the slot: the send was never invoked, or its native
  // transport saw when it started or why it never did, or it went out unobserved.
  predicate Fits(outcome: Outcome, s: Slot, now: int) {
    && s.issued <= outcome.finished <= now
    && (if !outcome.invoked then outcome.failure && outcome.started < 0
        else if !s.native then !outcome.attemptKnown && outcome.started < 0
        else if outcome.started < 0 then outcome.attemptKnown && outcome.failure
        else outcome.attemptKnown && s.issued <= outcome.started <= outcome.finished)
  }

  lemma PlausibleFits(outcome: Outcome, s: Slot, now: int)
    ensures outcome.Plausible(s, now) <==> Fits(outcome, s, now)
  {
  }

  /** A plausible success was attempted; what was never invoked, or was refused before
      the socket, was not. */
  lemma SuccessWasAttempted(outcome: Outcome, s: Slot, now: int)
    requires outcome.Plausible(s, now)
    ensures !outcome.failure ==> outcome.Attempted()
    ensures !outcome.invoked || (s.native && outcome.started < 0) ==> !outcome.Attempted()
    ensures outcome.invoked && !s.native ==> outcome.Attempted()
  {
  }

  lemma LiveSlot(v: Sends, i: nat)
    requires PathsOk(v) && i < |v.slots| && Live(v.slots[i])
    ensures v.slots[i].path < |v.paths|
    ensures ShardsOk(v) && v.slots[i].source == Data ==> v.frontier.out && v.slots[i].shard < |v.frontier.shards|
  {
    assert SlotOwned(v, i);
  }

  lemma InvHasSlot(v: Sends, i: nat)
    requires Inv(v) && i < |v.slots| && Live(v.slots[i])
    ensures v.slots[i].path < |v.paths|
    ensures !v.closing && v.slots[i].source == Data ==> v.frontier.out && v.slots[i].shard < |v.frontier.shards|
  {
    hide PathsOk, ShardsOk, TokensOk, ControlsOk;
    LiveSlot(v, i);
  }

  predicate NoneWaiting(shards: seq<ShardState>) {
    forall k :: 0 <= k < |shards| ==> shards[k] != Waiting
  }

  lemma AllTerminal(shards: seq<ShardState>)
    ensures Unfinished(shards) == 0 ==> NoneWaiting(shards)
  {
    if Unfinished(shards) == 0 {
      forall k | 0 <= k < |shards|
        ensures shards[k] == Terminal
      {
        if shards[k] != Terminal {
          StillWaiting(shards, k);
          assert false;
        }
      }
    }
  }

  lemma SomeWaiting(shards: seq<ShardState>, k: nat)
    requires k < |shards| && shards[k] == Waiting
    ensures !NoneWaiting(shards)
  {
  }

  lemma FinishShape(f: Frontier, shard: nat, failure: bool)
    requires f.out && shard < |f.shards| && f.shards[shard] == Waiting && f.spoiled != []
    requires f.remaining == Unfinished(f.shards)
    ensures var g := FinishShard(f, shard, failure);
      && |g.shards| == |f.shards| && g.spoiled != [] && g.remaining == Unfinished(g.shards)
      && (!g.out ==> NoneWaiting(g.shards))
  {
    UnfinishedUpdate(f.shards, shard, Terminal);
    AllTerminal(f.shards[shard := Terminal]);
  }

  // preferredOwnedPath
  function Preferred(groupId: U64, shard: nat, n: nat): nat
    requires n > 0
  {
    (groupId % n + shard) % n
  }

  // What one visit of prepareOwnedControls makes of a control.
  function Prepared(v: Sends, p: nat, source: Source, now: int, residence: int): Sends
    requires p < |v.paths|
  {
    if source == Data then v
    else
      var r := GetRetry(v, p, source);
      if IsRetry(source) && (!r.pending || now >= r.deadline || r.sends + r.inflight >= Limit(v, p, source) || now < r.next)
      then v
      else
        var frame := GetFrame(v, p, source);
        var w := if IsRetry(source) && !frame.queued && !frame.dispatched then Requeue(v, p, source) else v;
        var ready := GetFrame(w, p, source);
        if ready.queued && !ready.dispatched && now >= ready.queuedAt + residence then FailFrame(w, p, source, now) else w
  }

  // The frame of a control waits to be sent and is not too old.
  predicate Waits(frame: Frame, now: int, residence: int) {
    frame.queued && !frame.dispatched && frame.length != 0 && now - frame.queuedAt < residence
  }

  // A retransmission is due: its interval is over, its lifetime is not, and one more
  // packet stays within its budget.
  predicate RetryDue(v: Sends, p: nat, source: Source, now: int)
    requires p < |v.paths|
  {
    var r := GetRetry(v, p, source);
    && r.pending && r.next <= now < r.deadline
    && r.sends + r.inflight < if source == Join && v.paths[p].firstPhase then 7 else 8
  }

  // The path has no token out, its pacing allows a packet and its bounds this one.
  predicate PathFree(path: Path, now: int, bytes: nat, maxPackets: int, maxBytes: int) {
    path.token == 0 && path.pacedAt <= now && path.queuedPackets + 1 <= maxPackets && path.queuedBytes + bytes <= maxBytes
  }

  function ExpireFrom(f: Frontier, k: nat, room: nat): Frontier
    requires k <= |f.shards|
    decreases |f.shards| - k
  {
    if k == |f.shards| then f
    else if f.shards[k] != Waiting then ExpireFrom(f, k + 1, room)
    else if room == 0 then f
    else ExpireFrom(FinishShard(f, k, true), k + 1, room - 1)
  }

  // Expiry leaves what the sender has emitted alone.
  lemma {:induction false} ExpireSender(f: Frontier, k: nat, room: nat)
    requires k <= |f.shards|
    ensures ExpireFrom(f, k, room).sender == f.sender
    decreases |f.shards| - k
  {
    hide Unfinished;
    if k < |f.shards| {
      if f.shards[k] != Waiting {
        ExpireSender(f, k + 1, room);
      } else if room > 0 {
        ExpireSender(FinishShard(f, k, true), k + 1, room - 1);
      }
    }
  }

  class Controller {
    const maxPathPackets: int
    const maxPathBytes: int
    const residence: int
    const slots: array<Slot>
    const paths: array<Path>
    const shards: array<ShardState>
    var context: Retry
    var nextToken: U64
    var nextControl: U64
    var active: int
    var shardCount: nat
    var remaining: int
    var cursor: nat
    var groupQueued: int
    var out: bool
    var outThrough: U64
    var completed: U64
    var failed: bool
    var failedFrom: U64
    var closing: bool
    var finalized: bool
    var last: int
    var haveTime: bool

    ghost var frontier: Frontier

    // The fields as the reference sees them.
    ghost function View(): Sends
      reads this, slots, paths
    {
      Sends(slots[..], paths[..], context, nextToken, nextControl, active, frontier, closing)
    }

    // The frontier's own fields are the Controller's.
    ghost predicate Tied()
      reads this, shards
    {
      && shardCount <= shards.Length == MAX_SHARDS && frontier.shards == shards[..shardCount]
      && frontier.out == out && frontier.remaining == remaining && frontier.outThrough == outThrough
      && frontier.completed == completed && frontier.failed == failed && frontier.failedFrom == failedFrom
    }

    constructor (slotCount: nat, pathCount: nat, maxPathPackets: int, maxPathBytes: int, residence: int)
      ensures View() == Initial(slotCount, pathCount) && Tied() && !finalized
      ensures fresh(slots) && fresh(paths) && fresh(shards)
    {
      this.maxPathPackets, this.maxPathBytes, this.residence := maxPathPackets, maxPathBytes, residence;
      slots := new Slot[slotCount](_ => FREE);
      paths := new Path[pathCount](_ => NO_PATH);
      shards := new ShardState[MAX_SHARDS](_ => Waiting);
      context, nextToken, nextControl, active := NO_RETRY, 0, 0, 0;
      shardCount, remaining, cursor, groupQueued := 0, 0, 0, 0;
      out, outThrough, completed, failed, failedFrom := false, 0, 0, false, 0;
      closing, finalized, last, haveTime, frontier := false, false, 0, false, IDLE;
    }

    // PendingSends
    function PendingSends(): int
      reads this
    {
      active
    }

    method FreeSendSlot() returns (found: bool, i: nat)
      ensures found ==> i < slots.Length && slots[i].token == 0
      ensures !found ==> forall k :: 0 <= k < slots.Length ==> slots[k].token != 0
    {
      i := 0;
      while i < slots.Length
        invariant i <= slots.Length && forall k :: 0 <= k < i ==> slots[k].token != 0
      {
        if slots[i].token == 0 {
          return true, i;
        }
        i := i + 1;
      }
      found := false;
    }

    predicate PathCanDispatch(p: Path, now: int, bytes: nat)
      reads this
    {
      p.token == 0 && now >= p.pacedAt && p.queuedPackets < maxPathPackets && bytes <= maxPathBytes - p.queuedBytes
    }

    method InstallIntent(i: nat, s: Slot)
      requires CanInstall(View(), i, s.path)
      modifies this`nextToken, this`active, slots, paths
      ensures View() == Install(old(View()), i, s)
    {
      var path := paths[s.path];
      nextToken := nextToken + 1;
      slots[i] := s.(token := nextToken);
      paths[s.path] := path.(token := nextToken, queuedPackets := path.queuedPackets + 1,
                             queuedBytes := path.queuedBytes + s.bytes);
      active := active + 1;
    }

    // The frontier's fields after one shard reached a terminal outcome.
    method CompleteOwnedShard(shard: nat, failure: bool)
      requires Tied() && out && shard < shardCount && frontier.spoiled != []
      modifies this`remaining, this`out, this`completed, this`failed, this`failedFrom, this`frontier, shards
      ensures Tied() && frontier == FinishShard(old(frontier), shard, failure)
    {
      if shards[shard] == Terminal {
        return;
      }
      ghost var before := shards[..shardCount];
      shards[shard] := Terminal;
      assert shards[..shardCount] == before[shard := Terminal];
      remaining := remaining - 1;
      if failure && !failed {
        failed, failedFrom := true, Wrap64(completed + 1);
      }
      if remaining == 0 {
        completed := outThrough;
        out := false;
      }
      frontier := FinishShard(frontier, shard, failure);
    }

    // driveOwned once the queue has sealed a group of n shards; `next` and `queued`
    // are the counters of the queue's snapshot.
    method StartGroup(
      ghost limits: AggregationQueue.QueueLimits, ghost prm: Packing.Parameters, n: nat, next: U64, queued: nat, now: int)
      requires Tied() && limits.InBounds() && !out && 0 < n <= MAX_SHARDS && frontier.sender.entries != []
      requires var s := SenderRun.Act(frontier.sender, limits, prm, SenderRun.SealAction); next == s.next && queued == |s.entries|
      modifies this`out, this`shardCount, this`remaining, this`groupQueued, this`cursor, this`outThrough, this`frontier, shards
      ensures Tied() && frontier == SendGroup(old(frontier), limits, prm, n)
      ensures groupQueued == now && cursor == 0
    {
      hide SenderRun.Act, AggregationQueue.PlanCursor, Threshold;
      out, shardCount, remaining, groupQueued, cursor := true, n, n, now, 0;
      for i := 0 to shards.Length
        modifies shards
        invariant forall k :: 0 <= k < i ==> shards[k] == Waiting
      {
        shards[i] := Waiting;
      }
      outThrough := Wrap64(next - 1 - queued);
      frontier := SendGroup(frontier, limits, prm, n);
      assert shards[..n] == seq(n, _ => Waiting);
    }

    // The data half of driveOwned: overdue shards fail, and a Session that is ready and
    // has nothing out seals its next group, if the queue has one.
    method DriveData(
      ghost limits: AggregationQueue.QueueLimits, ghost prm: Packing.Parameters,
      now: int, room: nat, ready: bool, sealed: bool, n: nat, next: U64, queued: nat)
      requires Tied() && limits.InBounds() && (out ==> frontier.spoiled != [] && remaining == Unfinished(frontier.shards))
      requires sealed ==> 0 < n <= MAX_SHARDS && frontier.sender.entries != []
      requires sealed ==>
        var s := SenderRun.Act(frontier.sender, limits, prm, SenderRun.SealAction); next == s.next && queued == |s.entries|
      modifies this`out, this`shardCount, this`remaining, this`groupQueued, this`cursor, this`completed, this`failed,
        this`failedFrom, this`outThrough, this`frontier, shards
      ensures Tied()
      ensures var f := if old(out) && now >= old(groupQueued) + residence then ExpireFrom(old(frontier), 0, room) else old(frontier);
        frontier == if ready && sealed && !f.out then SendGroup(f, limits, prm, n) else f
    {
      hide FinishShard, Unfinished, SendGroup, SenderRun.Act;
      ExpireSender(frontier, 0, room);
      ExpireOwnedData(now, room);
      if ready && !out && sealed {
        StartGroup(limits, prm, n, next, queued, now);
      }
    }

    // expireOwnedData: waiting shards that exhausted their residence fail, as far
    // as the step's report has room.
    method ExpireOwnedData(now: int, room: nat)
      requires Tied() && (out ==> frontier.spoiled != [] && remaining == Unfinished(frontier.shards))
      modifies this`remaining, this`out, this`completed, this`failed, this`failedFrom, this`frontier, shards
      ensures Tied()
      ensures frontier == if old(out) && now >= groupQueued + residence
        then ExpireFrom(old(frontier), 0, room) else old(frontier)
    {
      hide FinishShard, Unfinished, NoneWaiting;
      if !out || now < groupQueued + residence {
        return;
      }
      ghost var before := frontier;
      var left := room;
      var i := 0;
      while i < shardCount
        invariant i <= shardCount && Tied() && |frontier.shards| == |before.shards| && shardCount == old(shardCount)
        invariant ExpireFrom(frontier, i, left) == ExpireFrom(before, 0, room)
        invariant out ==> frontier.spoiled != [] && remaining == Unfinished(frontier.shards)
        invariant !out ==> NoneWaiting(frontier.shards)
      {
        if shards[i] == Waiting {
          if left == 0 {
            break;
          }
          left := left - 1;
          SomeWaiting(frontier.shards, i);
          FinishShape(frontier, i, true);
          CompleteOwnedShard(i, true);
        }
        i := i + 1;
      }
    }

    // completeOwnedControl
    method CompleteOwnedControl(s: Slot, attempted: bool, finishedAt: int)
      requires s.source != Data && s.path < paths.Length
      modifies this`context, paths
      ensures View() == Settle(old(View()), s, attempted, finishedAt)
    {
      if IsRetry(s.source) {
        var r := if s.source == Context then context
          else if s.source == Join then paths[s.path].join else paths[s.path].budget;
        if r.id != s.transaction {
          return;
        }
        var current := r.frame.version == s.version;
        r := r.(inflight := r.inflight - 1, sends := r.sends + if attempted then 1 else 0);
        if current {
          r := r.(frame := r.frame.(dispatched := false), next := finishedAt + CONTROL_RETRY);
        }
        if s.source == Context {
          context := r;
        } else if s.source == Join {
          paths[s.path] := paths[s.path].(join := r);
        } else {
          paths[s.path] := paths[s.path].(budget := r);
        }
      } else if s.source == Reply0 {
        if paths[s.path].reply0.version == s.version {
          paths[s.path] := paths[s.path].(reply0 := paths[s.path].reply0.(dispatched := false));
        }
      } else {
        if paths[s.path].reply1.version == s.version {
          paths[s.path] := paths[s.path].(reply1 := paths[s.path].reply1.(dispatched := false));
        }
      }
    }

    // The first half of CompleteSend: the slot and its path are free again.
    method VacateSlot(i: nat)
      requires i < slots.Length && slots[i].path < paths.Length
      modifies this`active, slots, paths
      ensures View() == Vacate(old(View()), i)
    {
      var s := slots[i];
      var path := paths[s.path];
      if path.token == s.token {
        path := path.(token := 0);
      }
      path := path.(queuedPackets := path.queuedPackets - 1, queuedBytes := path.queuedBytes - s.bytes);
      paths[s.path] := path;
      active := active - 1;
      slots[i] := FREE;
    }

    function CompleteErr(slots: seq<Slot>, outcome: Outcome, released: bool, now: int): SendErr
      reads this
    {
      var i := IndexOfToken(slots, outcome.token);
      if finalized then ErrClosed
      else if haveTime && now < last then ErrTime
      else if i == |slots| then ErrSendToken
      else if !outcome.Plausible(slots[i], now) then ErrInvalid
      else if !released then ErrSendPending
      else NoErr
    }

    method FindToken(token: U64) returns (i: nat)
      ensures i == IndexOfToken(slots[..], token)
    {
      i := 0;
      while i < slots.Length
        invariant i <= slots.Length
        invariant IndexOfToken(slots[..], token) == i + IndexOfToken(slots[i..], token)
      {
        assert slots[i..][1..] == slots[i + 1..];
        if token != 0 && slots[i].token == token {
          return;
        }
        i := i + 1;
      }
    }

    // CompleteSend up to the driving of new work. `airtime` is the serialization
    // time of the packet on its path.
    method CompleteSend(now: int, outcome: Outcome, released: bool, scopeClosed: bool, airtime: int) returns (err: SendErr)
      requires Tied() && Inv(View()) && (out ==> frontier.spoiled != [] && remaining == Unfinished(frontier.shards))
      modifies this, slots, paths, shards
      ensures Tied() && Inv(View()) && err == old(CompleteErr(slots[..], outcome, released, now))
      ensures err != NoErr ==> View() == old(View()) && unchanged(shards) && last == old(last)
      ensures err == NoErr ==> last == now && closing == (old(closing) || scopeClosed)
      ensures err == NoErr ==>
        var v, i := old(View()).(closing := closing), IndexOfToken(old(slots[..]), outcome.token);
        i < |v.slots| && v.slots[i].path < |v.paths| && View() == Completed(v, i, outcome, airtime)
    {
      hide Inv, Completed, Unfinished, Complete;
      err := CheckOutcome(outcome, released, now);
      if err != NoErr {
        return;
      }
      var i := FindToken(outcome.token);
      CloseKeeps(View());
      if scopeClosed {
        closing := true;
      }
      last, haveTime := now, true;
      InvHasSlot(View(), i);
      CompletedKeeps(View(), i, outcome, airtime);
      FinishSend(i, outcome, airtime);
    }

    // Slot i holds the live token of the outcome, which fits it.
    predicate Names(outcome: Outcome, i: nat, now: int)
      requires i < slots.Length
      reads slots
    {
      outcome.token != 0 && slots[i].token == outcome.token && Fits(outcome, slots[i], now)
    }

    /** An outcome is accepted exactly when the Controller is not finalized, time does not
        run back, the worker has let go of the packet and a live token fits the outcome;
        each refusal has its own reason. */
    lemma OutcomeIsAnswered(outcome: Outcome, released: bool, now: int)
      requires Inv(View())
      ensures var err := CompleteErr(slots[..], outcome, released, now);
        var named := exists i :: 0 <= i < slots.Length && Names(outcome, i, now);
        && (err == NoErr <==> !finalized && (haveTime ==> last <= now) && released && named)
        && (err == ErrClosed <==> finalized) && (err == ErrTime <==> !finalized && haveTime && now < last)
        && (err == ErrSendToken ==> outcome.token == 0 || forall i :: 0 <= i < slots.Length ==> slots[i].token != outcome.token)
        && (err == ErrInvalid ==> !named) && (err == ErrSendPending ==> !released && named)
    {
      hide Inv, Fits, Outcome.Plausible;
      TokensAreOne(View(), outcome, now);
      var i := IndexOfToken(slots[..], outcome.token);
      if i < slots.Length && outcome.Plausible(slots[i], now) {
        assert Names(outcome, i, now);
      }
    }

    method CheckOutcome(outcome: Outcome, released: bool, now: int) returns (err: SendErr)
      ensures err == CompleteErr(slots[..], outcome, released, now)
    {
      if finalized {
        return ErrClosed;
      }
      if haveTime && now < last {
        return ErrTime;
      }
      var i := FindToken(outcome.token);
      if i == slots.Length {
        return ErrSendToken;
      }
      if !outcome.Plausible(slots[i], now) {
        return ErrInvalid;
      }
      return if released then NoErr else ErrSendPending;
    }

    method FinishSend(i: nat, outcome: Outcome, airtime: int)
      requires Tied() && i < slots.Length && slots[i].path < paths.Length
      requires !closing && slots[i].source == Data ==> out && frontier.spoiled != [] && slots[i].shard < shardCount
      modifies this`active, this`context, this`remaining, this`out, this`completed, this`failed, this`failedFrom,
        this`frontier, slots, paths, shards
      ensures Tied() && View() == Completed(old(View()), i, outcome, airtime)
    {
      hide FinishShard, Settle;
      var s := slots[i];
      VacateSlot(i);
      if closing {
        return;
      }
      if outcome.Attempted() && SamePath(paths[s.path], s) {
        var at := (if outcome.attemptKnown then outcome.started else outcome.finished) + airtime;
        if at > paths[s.path].pacedAt {
          paths[s.path] := paths[s.path].(pacedAt := at);
        }
      }
      if s.source == Data {
        CompleteOwnedShard(s.shard, outcome.failure);
      } else {
        CompleteOwnedControl(s, outcome.Attempted(), outcome.finished);
      }
    }

    // frameSet
    method FrameSet(p: nat, source: Source, now: int, length: nat) returns (err: SendErr)
      requires p < paths.Length && source != Data
      modifies this`nextControl, this`context, paths
      ensures View() == SetFrame(old(View()), p, source, now, length)
      ensures err == if old(nextControl) == MAX_U64 then ErrExhausted else NoErr
    {
      if nextControl == MAX_U64 {
        return ErrExhausted;
      }
      err := NoErr;
      nextControl := nextControl + 1;
      var frame := Frame(nextControl, true, false, now, length);
      match source
      case Join => paths[p] := paths[p].(join := paths[p].join.(frame := frame));
      case Budget => paths[p] := paths[p].(budget := paths[p].budget.(frame := frame));
      case Context => context := context.(frame := frame);
      case Reply0 => paths[p] := paths[p].(reply0 := frame);
      case Reply1 => paths[p] := paths[p].(reply1 := frame);
    }

    // newControlRetry, stored in its place
    method NewControlRetry(p: nat, source: Source, now: int) returns (err: SendErr)
      requires p < paths.Length && IsRetry(source)
      modifies this`nextControl, this`context, paths
      ensures View() == Renew(old(View()), p, source, now)
      ensures err == if old(nextControl) == MAX_U64 then ErrExhausted else NoErr
    {
      if nextControl == MAX_U64 {
        return ErrExhausted;
      }
      err := NoErr;
      nextControl := nextControl + 1;
      var r := NO_RETRY.(id := nextControl, pending := true, deadline := now + CONTROL_LIFETIME, next := now);
      if source == Join {
        paths[p] := paths[p].(join := r);
      } else if source == Budget {
        paths[p] := paths[p].(budget := r);
      } else {
        context := r;
      }
    }

    // BeginClose: no more dispatch; live tokens stay valid.
    method BeginClose()
      modifies this`closing
      ensures View() == old(View()).(closing := true)
    {
      closing := true;
    }

    // FinalizeClose: storage goes only when no worker holds a token.
    method FinalizeClose() returns (err: SendErr)
      requires Inv(View())
      modifies this`finalized
      ensures err == if old(finalized) then NoErr else if !closing then ErrInvalid else if active != 0 then ErrSendPending else NoErr
      ensures finalized == (old(finalized) || err == NoErr)
      ensures finalized && !old(finalized) ==> forall i :: 0 <= i < slots.Length ==> !Live(slots[i])
    {
      if finalized {
        return NoErr;
      }
      if !closing {
        return ErrInvalid;
      }
      if PendingSends() != 0 {
        return ErrSendPending;
      }
      IdleHasNoToken(View());
      finalized, err := true, NoErr;
    }

    // A path is free for this shard: the preferred one if it is eligible, and
    // otherwise any eligible one.
    ghost predicate Dispatchable(shard: nat, groupId: U64, eligible: nat -> bool, now: int, bytes: nat)
      requires paths.Length > 0
      reads this, paths
    {
      var p := Preferred(groupId, shard, paths.Length);
      if eligible(p) then PathCanDispatch(paths[p], now, bytes)
      else exists c :: 0 <= c < paths.Length && eligible(c) && PathCanDispatch(paths[c], now, bytes)
    }

    method PickPath(shard: nat, groupId: U64, eligible: nat -> bool, now: int, bytes: nat) returns (found: bool, p: nat)
      requires paths.Length > 0
      ensures p < paths.Length && found == Dispatchable(shard, groupId, eligible, now, bytes)
      ensures found ==> eligible(p) && PathCanDispatch(paths[p], now, bytes)
    {
      p := Preferred(groupId, shard, paths.Length);
      if !eligible(p) {
        for c := 0 to paths.Length
          invariant forall k :: 0 <= k < c ==> !(eligible(k) && PathCanDispatch(paths[k], now, bytes))
        {
          if eligible(c) && PathCanDispatch(paths[c], now, bytes) {
            return true, c;
          }
        }
      }
      found := eligible(p) && PathCanDispatch(paths[p], now, bytes);
    }

    ghost predicate Takeable(shard: nat, groupId: U64, eligible: nat -> bool, now: int, bytes: nat)
      requires paths.Length > 0 && shard < shards.Length
      reads this, paths, shards
    {
      shards[shard] == Waiting && Dispatchable(shard, groupId, eligible, now, bytes)
    }

    ghost predicate NoneTakeable(groupId: U64, eligible: nat -> bool, now: int, bytes: nat)
      requires paths.Length > 0 && shardCount <= shards.Length
      reads this, paths, shards
    {
      forall k: nat :: k < shardCount ==> !Takeable(k, groupId, eligible, now, bytes)
    }

    // The first waiting shard from the cursor on that has a path.
    method FindShard(now: int, groupId: U64, eligible: nat -> bool, bytes: nat) returns (found: bool, shard: nat, p: nat)
      requires Tied() && paths.Length > 0 && cursor < shardCount
      ensures found ==> shard < shardCount && p < paths.Length && eligible(p) && PathCanDispatch(paths[p], now, bytes)
      ensures found ==> Takeable(shard, groupId, eligible, now, bytes)
      ensures found ==> forall k: nat :: k < shardCount && Steps(cursor, k, shardCount) < Steps(cursor, shard, shardCount) ==>
        !Takeable(k, groupId, eligible, now, bytes)
      ensures !found ==> NoneTakeable(groupId, eligible, now, bytes)
    {
      var offset := 0;
      while offset < shardCount
        invariant offset <= shardCount
        invariant forall k: nat :: k < shardCount && Steps(cursor, k, shardCount) < offset ==>
          !Takeable(k, groupId, eligible, now, bytes)
      {
        ModSmall(cursor + offset, shardCount);
        shard := (cursor + offset) % shardCount;
        if shards[shard] == Waiting {
          found, p := PickPath(shard, groupId, eligible, now, bytes);
          if found {
            return;
          }
        }
        offset := offset + 1;
      }
      found, shard, p := false, 0, 0;
    }

    // takeOwnedData
    method TakeOwnedData(now: int, i: nat, groupId: U64, eligible: nat -> bool, native: nat -> bool, bytes: nat)
      returns (taken: bool, shard: nat, p: nat)
      requires Tied() && !closing && i < slots.Length && slots[i].token == 0 && nextToken < MAX_U64
      requires paths.Length > 0 && (out ==> cursor < shardCount)
      modifies this`nextToken, this`active, this`cursor, this`frontier, slots, paths, shards
      ensures Tied()
      ensures !taken ==> View() == old(View()) && cursor == old(cursor)
      ensures !taken ==>
        !out || now >= groupQueued + residence || old(NoneTakeable(groupId, eligible, now, bytes))
      ensures taken ==>
        && out && now < groupQueued + residence && p < paths.Length && eligible(p)
        && PathFree(old(paths[p]), now, bytes, maxPathPackets, maxPathBytes)
        && shard < shardCount && old(Takeable(shard, groupId, eligible, now, bytes))
        && cursor < shardCount && cursor == Ahead(shard, 1, shardCount)
      ensures taken ==>
        var s := Slot(0, p, Data, shard, 0, 0, bytes, native(p), now, old(paths[p].incarnation));
        CanInstall(old(View()), i, p) && DataReady(old(View()), s) && View() == TakeData(old(View()), i, s)
    {
      taken, shard, p := false, 0, 0;
      if out && now < groupQueued + residence {
        taken, shard, p := FindShard(now, groupId, eligible, bytes);
        if taken {
          DispatchData(now, i, shard, p, native(p), bytes);
        }
      }
    }

    method DispatchData(now: int, i: nat, shard: nat, p: nat, native: bool, bytes: nat)
      requires Tied() && !closing && out && CanInstall(View(), i, p) && shard < shardCount && shards[shard] == Waiting
      modifies this`nextToken, this`active, this`cursor, this`frontier, slots, paths, shards
      ensures Tied() && cursor < shardCount && cursor == Ahead(shard, 1, shardCount)
      ensures var s := Slot(0, p, Data, shard, 0, 0, bytes, native, now, old(paths[p].incarnation));
        DataReady(old(View()), s) && View() == TakeData(old(View()), i, s)
    {
      InstallIntent(i, Slot(0, p, Data, shard, 0, 0, bytes, native, now, paths[p].incarnation));
      ghost var before := shards[..shardCount];
      shards[shard] := Dispatched;
      assert shards[..shardCount] == before[shard := Dispatched];
      frontier := DispatchShard(frontier, shard);
      ModSmall(shard + 1, shardCount);
      cursor := (shard + 1) % shardCount;
    }

    function FrameOf(p: nat, source: Source): Frame
      requires p < paths.Length
      reads this, paths
    {
      if source == Join then paths[p].join.frame
      else if source == Budget then paths[p].budget.frame
      else if source == Reply0 then paths[p].reply0
      else if source == Reply1 then paths[p].reply1
      else context.frame
    }

    function RetryOf(p: nat, source: Source): Retry
      requires p < paths.Length
      reads this, paths
    {
      if source == Join then paths[p].join else if source == Budget then paths[p].budget else context
    }

    // The conditions under which a queued control may be sent at all.
    predicate ControlDue(p: nat, source: Source, now: int)
      requires p < paths.Length && source != Data
      reads this, paths
    {
      var frame, r := FrameOf(p, source), RetryOf(p, source);
      && !frame.dispatched && frame.queued && frame.length > 0 && now < frame.queuedAt + residence
      && PathCanDispatch(paths[p], now, frame.length)
      && (IsRetry(source) ==>
          && r.pending && now < r.deadline && now >= r.next
          && r.sends + r.inflight < if source == Join && paths[p].firstPhase then CONTROL_SENDS - 1 else CONTROL_SENDS)
    }

    function ControlSlot(p: nat, source: Source, now: int, native: bool): Slot
      requires p < paths.Length && source != Data
      reads this, paths
    {
      var frame := FrameOf(p, source);
      Slot(0, p, source, 0, if IsRetry(source) then RetryOf(p, source).id else 0, frame.version, frame.length, native, now,
           if source == Join then paths[p].joining else paths[p].incarnation)
    }

    // failQueuedControl
    method FailQueuedControl(p: nat, source: Source, now: int)
      requires p < paths.Length && source != Data
      modifies this`context, paths
      ensures View() == FailFrame(old(View()), p, source, now)
    {
      var frame := FrameOf(p, source).(queued := false);
      match source
      case Join => paths[p] := paths[p].(join := paths[p].join.(frame := frame, next := now + CONTROL_RETRY));
      case Budget => paths[p] := paths[p].(budget := paths[p].budget.(frame := frame, next := now + CONTROL_RETRY));
      case Context => context := context.(frame := frame, next := now + CONTROL_RETRY);
      case Reply0 => paths[p] := paths[p].(reply0 := frame);
      case Reply1 => paths[p] := paths[p].(reply1 := frame);
    }

    // The control's frame is on its way and its retry has one more in flight.
    method MarkControl(p: nat, source: Source)
      requires p < paths.Length && source != Data
      modifies this`context, paths
      ensures View() == MarkDispatched(if IsRetry(source) then Reserve(old(View()), p, source) else old(View()), p, source)
    {
      var frame := FrameOf(p, source).(dispatched := true, queued := false);
      var inflight := RetryOf(p, source).inflight + 1;
      match source
      case Join => paths[p] := paths[p].(join := paths[p].join.(frame := frame, inflight := inflight));
      case Budget => paths[p] := paths[p].(budget := paths[p].budget.(frame := frame, inflight := inflight));
      case Context => context := context.(frame := frame, inflight := inflight);
      case Reply0 => paths[p] := paths[p].(reply0 := frame);
      case Reply1 => paths[p] := paths[p].(reply1 := frame);
    }

    // One visit of takeOwnedControl. `usable` says whether the sender of this
    // control is still the one it was captured with.
    method TakeOwnedControl(now: int, i: nat, p: nat, source: Source, usable: bool, native: bool) returns (taken: bool)
      requires !closing && i < slots.Length && slots[i].token == 0 && nextToken < MAX_U64
      requires p < paths.Length && source != Data && ControlsOk(View())
      modifies this`nextToken, this`active, this`context, slots, paths
      ensures taken <==> usable && old(ControlDue(p, source, now))
      ensures taken <==>
        var v, frame := old(View()), GetFrame(old(View()), p, source);
        && usable && Waits(frame, now, residence) && (IsRetry(source) ==> RetryDue(v, p, source, now))
        && PathFree(v.paths[p], now, frame.length, maxPathPackets, maxPathBytes)
      ensures !taken ==> View() == if old(ControlDue(p, source, now)) then FailFrame(old(View()), p, source, now) else old(View())
      ensures taken ==>
        var s := old(ControlSlot(p, source, now, native));
        CanInstall(old(View()), i, p) && ControlReady(old(View()), s) && View() == TakeControl(old(View()), i, s)
    {
      hide FailFrame, ControlsOk;
      taken := ControlDue(p, source, now) && usable;
      if taken {
        var s := ControlSlot(p, source, now, native);
        DueIsReady(p, source, now, native);
        MarkControl(p, source);
        InstallIntent(i, s);
      } else if ControlDue(p, source, now) {
        FailQueuedControl(p, source, now);
      }
    }

    lemma DueIsReady(p: nat, source: Source, now: int, native: bool)
      requires p < paths.Length && source != Data && ControlsOk(View()) && ControlDue(p, source, now) && !closing
      ensures ControlReady(View(), ControlSlot(p, source, now, native))
    {
      if IsRetry(source) {
        assert RetryOk(View(), p, source);
      }
    }

    // One visit of prepareOwnedControls: a due retransmission is queued, and one
    // that exhausted its residence gives up until its next turn.
    method PrepareOwnedControl(now: int, p: nat, source: Source)
      requires p < paths.Length && source != Data
      modifies this`context, paths
      ensures View() == Prepared(old(View()), p, source, now, residence)
    {
      var r, frame := RetryOf(p, source), FrameOf(p, source);
      if IsRetry(source) {
        var limit := if source == Join && paths[p].firstPhase then CONTROL_SENDS - 1 else CONTROL_SENDS;
        if !r.pending || now >= r.deadline || r.sends + r.inflight >= limit || now < r.next {
          return;
        }
        if !frame.queued && !frame.dispatched {
          frame := frame.(queued := true, queuedAt := r.next);
          if source == Join {
            paths[p] := paths[p].(join := r.(frame := frame));
          } else if source == Budget {
            paths[p] := paths[p].(budget := r.(frame := frame));
          } else {
            context := r.(frame := frame);
          }
        }
      }
      if frame.queued && !frame.dispatched && now >= frame.queuedAt + residence {
        FailQueuedControl(p, source, now);
      }
    }
  }
}
