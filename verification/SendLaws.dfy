// internal/sessionv2: the timing of owned sends.
//
// OwnedSends and ControlHistory prove what the send state keeps and counts. Here are
// the times: when a control packet may go out again, when waiting work is given up,
// and how completions pace their path.
module SendLaws {
  import opened Words
  import opened SendFence
  import opened OwnedSends
  import opened SendController
  import RingMath
  import AggregationQueue
  import Packing

  // ---------------------------------------------------------------------------
  // The life of a control transaction

  // Every control but this one is as it was, and so is everything else.
  ghost predicate OthersKept(v: Sends, w: Sends, p: nat, source: Source) {
    && OnlyControls(v, w)
    && forall q: nat, other: Source :: q < |v.paths| && other != Data && !(other == source && (q == p || source == Context)) ==>
      GetFrame(w, q, other) == GetFrame(v, q, other) && (IsRetry(other) ==> GetRetry(w, q, other) == GetRetry(v, q, other))
  }

  /** A new transaction may go out at once and until its lifetime is over, and has sent
      nothing yet; its number was never used. */
  lemma RenewedStarts(v: Sends, p: nat, source: Source, now: int)
    requires p < |v.paths| && IsRetry(source) && v.nextControl < MAX_U64
    ensures var w := Renew(v, p, source, now);
      && OthersKept(v.(nextControl := w.nextControl), w, p, source) && w.nextControl == v.nextControl + 1
      && GetRetry(w, p, source) == Retry(v.nextControl + 1, true, now + 5_000_000_000, 0, 0, now, NO_FRAME)
  {
  }

  /** A new packet of a control waits from now on, under a version of its own, and leaves
      the transaction as it is. */
  lemma FrameIsNew(v: Sends, p: nat, source: Source, now: int, length: nat)
    requires p < |v.paths| && source != Data && v.nextControl < MAX_U64
    ensures var w := SetFrame(v, p, source, now, length);
      && OthersKept(v.(nextControl := w.nextControl), w, p, source) && w.nextControl == v.nextControl + 1
      && GetFrame(w, p, source) == Frame(v.nextControl + 1, true, false, now, length)
      && (IsRetry(source) ==> GetRetry(w, p, source) == GetRetry(v, p, source).(frame := GetFrame(w, p, source)))
  {
  }

  /** When a worker is done with the packet of a control, the next one waits for the
      retry interval after that end; a packet that was replaced meanwhile changes neither
      the time nor the frame, and a transaction that was replaced changes nothing. */
  lemma SettledWaits(v: Sends, s: Slot, attempted: bool, finishedAt: int)
    requires s.path < |v.paths| && s.source != Data
    ensures var w := Settle(v, s, attempted, finishedAt);
      var frame, next := GetFrame(v, s.path, s.source), GetFrame(w, s.path, s.source);
      var r, r' := GetRetry(v, s.path, s.source), GetRetry(w, s.path, s.source);
      var mine := IsRetry(s.source) ==> r.id == s.transaction;
      && OthersKept(v, w, s.path, s.source)
      && next == (if mine && frame.version == s.version then frame.(dispatched := false) else frame)
      && (IsRetry(s.source) ==>
          && r'.next == (if mine && frame.version == s.version then finishedAt + 250_000_000 else r.next)
          && r'.id == r.id && r'.pending == r.pending && r'.deadline == r.deadline)
  {
  }

  /** A packet that is given up while it waits is tried again after the interval. */
  lemma FailedWaits(v: Sends, p: nat, source: Source, now: int)
    requires p < |v.paths| && source != Data
    ensures var w := FailFrame(v, p, source, now);
      && OthersKept(v, w, p, source)
      && GetFrame(w, p, source) == GetFrame(v, p, source).(queued := false)
      && (IsRetry(source) ==>
          GetRetry(w, p, source) == GetRetry(v, p, source).(frame := GetFrame(w, p, source), next := now + 250_000_000))
  {
  }

  lemma RequeuedWaits(v: Sends, p: nat, source: Source)
    requires p < |v.paths| && source != Data
    ensures var w := Requeue(v, p, source);
      && |w.paths| == |v.paths| && OthersKept(v, w, p, source)
      && (IsRetry(source) ==>
          && GetFrame(w, p, source) == GetFrame(v, p, source).(queued := true, queuedAt := GetRetry(v, p, source).next)
          && GetRetry(w, p, source) == GetRetry(v, p, source).(frame := GetFrame(w, p, source)))
  {
  }

  lemma RetryFrame(v: Sends, p: nat, source: Source)
    requires p < |v.paths| && IsRetry(source)
    ensures GetRetry(v, p, source).frame == GetFrame(v, p, source)
  {
  }

  lemma NothingChanged(v: Sends, p: nat, source: Source)
    ensures OthersKept(v, v, p, source)
  {
  }

  lemma OthersTwice(v: Sends, w: Sends, x: Sends, p: nat, source: Source)
    requires OthersKept(v, w, p, source) && OthersKept(w, x, p, source)
    ensures OthersKept(v, x, p, source)
  {
    hide GetFrame, GetRetry;
  }

  /** A retransmission that is due is queued as of the time it became due, unless its
      packet is waiting or on its way already; one that has waited for its residence is
      given up until the next interval; one that is not due is left alone. A reply has
      no retransmission but the same residence. */
  lemma PreparedInTime(v: Sends, p: nat, source: Source, now: int, residence: int)
    requires p < |v.paths| && source != Data
    ensures var w := Prepared(v, p, source, now, residence);
      var frame, r := GetFrame(v, p, source), GetRetry(v, p, source);
      var due := IsRetry(source) ==> RetryDue(v, p, source, now);
      var since := if IsRetry(source) && !frame.queued then r.next else frame.queuedAt;
      var waits := !frame.dispatched && (frame.queued || IsRetry(source));
      && (!due || !waits ==> w == v)
      && (due && waits && now - since < residence ==>
          OthersKept(v, w, p, source) && GetFrame(w, p, source) == frame.(queued := true, queuedAt := since)
          && (IsRetry(source) ==> GetRetry(w, p, source) == r.(frame := GetFrame(w, p, source))))
      && (due && waits && now - since >= residence ==>
          OthersKept(v, w, p, source) && GetFrame(w, p, source) == frame.(queued := false, queuedAt := since)
          && (IsRetry(source) ==> GetRetry(w, p, source) == r.(frame := GetFrame(w, p, source), next := now + 250_000_000)))
  {
    hide Requeue, FailFrame, OthersKept, GetRetry, GetFrame;
    if IsRetry(source) {
      RetryFrame(v, p, source);
    }
    RequeuedWaits(v, p, source);
    var w := if IsRetry(source) && !GetFrame(v, p, source).queued && !GetFrame(v, p, source).dispatched then Requeue(v, p, source) else v;
    FailedWaits(w, p, source, now);
    NothingChanged(v, p, source);
    OthersTwice(v, w, FailFrame(w, p, source, now), p, source);
  }

  // ---------------------------------------------------------------------------
  // Shards

  // How many waiting shards come before shard k.
  function WaitingBefore(shards: seq<ShardState>, k: nat): nat
    requires k <= |shards|
  {
    if k == 0 then 0 else WaitingBefore(shards, k - 1) + if shards[k - 1] == Waiting then 1 else 0
  }

  lemma {:induction false} WaitingUpdate(shards: seq<ShardState>, i: nat, k: nat)
    requires i < |shards| && k <= |shards| && shards[i] == Waiting
    ensures WaitingBefore(shards[i := Terminal], k) == WaitingBefore(shards, k) - if i < k then 1 else 0
  {
    if k > 0 {
      WaitingUpdate(shards, i, k - 1);
    }
  }

  lemma {:induction false} WaitingGrows(shards: seq<ShardState>, j: nat, k: nat)
    requires j <= k <= |shards|
    ensures WaitingBefore(shards, j) <= WaitingBefore(shards, k)
    ensures (forall i :: j <= i < k ==> shards[i] != Waiting) ==> WaitingBefore(shards, j) == WaitingBefore(shards, k)
    decreases k
  {
    if j < k {
      WaitingGrows(shards, j, k - 1);
    }
  }

  /** Overdue shards fail in order, as many as the report has room for; no shard that a
      worker holds does, and none that is over already. */
  lemma {:induction false} ExpiresInOrder(f: Frontier, from: nat, room: nat, k: nat)
    requires from <= |f.shards| && k < |f.shards|
    requires f.spoiled != [] && f.remaining == Unfinished(f.shards) && (f.out || NoneWaiting(f.shards))
    ensures var g := ExpireFrom(f, from, room);
      && |g.shards| == |f.shards|
      && g.shards[k] == (if from <= k && f.shards[k] == Waiting && WaitingBefore(f.shards, k) - WaitingBefore(f.shards, from) < room
                         then Terminal else f.shards[k])
    decreases |f.shards| - from
  {
    hide Unfinished, FinishShard;
    if from < |f.shards| {
      if f.shards[from] != Waiting {
        ExpiresInOrder(f, from + 1, room, k);
      } else if room == 0 {
        if from <= k {
          WaitingGrows(f.shards, from, k);
        }
      } else {
        var g := FinishShard(f, from, true);
        ExpireFinishes(f, from);
        ExpiresInOrder(g, from + 1, room - 1, k);
        WaitingUpdate(f.shards, from, k);
        WaitingUpdate(f.shards, from, from + 1);
      }
    }
  }

  lemma ExpireFinishes(f: Frontier, k: nat)
    requires k < |f.shards| && f.shards[k] == Waiting && f.spoiled != [] && f.remaining == Unfinished(f.shards) && f.out
    ensures var g := FinishShard(f, k, true);
      && g.shards == f.shards[k := Terminal] && g.spoiled != [] && g.remaining == Unfinished(g.shards)
      && (g.out || NoneWaiting(g.shards))
  {
    hide Unfinished;
    UnfinishedUpdate(f.shards, k, Terminal);
    AllTerminal(f.shards[k := Terminal]);
  }

  /** The shards of a group spread over the paths: any n of them in a row prefer n
      different ones, and the next group starts with the next path. */
  lemma ShardsSpread(groupId: U64, i: nat, j: nat, n: nat)
    requires n > 0 && i < j < i + n
    ensures Preferred(groupId, i, n) != Preferred(groupId, j, n)
    ensures Preferred(groupId, i, n) < n
    ensures groupId < MAX_U64 ==> Preferred(groupId + 1, i, n) == Preferred(groupId, i + 1, n)
  {
    Remainders(groupId % n + i, groupId % n + j, n);
    if groupId < MAX_U64 {
      NextRemainder(groupId, n);
      ShiftRemainder(groupId % n + i + 1, (groupId + 1) % n + i, n);
    }
  }

  lemma Remainders(a: nat, b: nat, n: nat)
    requires n > 0 && a < b < a + n
    ensures a % n != b % n
  {
    if a % n == b % n {
      assert a == (a / n) * n + a % n && b == (b / n) * n + b % n;
      assert b - a == (b / n - a / n) * n;
      NoSmallMultiple(b / n - a / n, n, b - a);
    }
  }

  lemma NoSmallMultiple(q: int, n: nat, d: int)
    requires d == q * n && 0 < d
    ensures d >= n
  {
    if q <= 0 {
      NonNegativeProduct(-q, n);
    } else {
      NonNegativeProduct(q - 1, n);
    }
  }

  lemma NonNegativeProduct(a: int, b: nat)
    requires a >= 0
    ensures a * b >= 0 && (a + 1) * b == a * b + b
  {
  }

  lemma NextRemainder(a: nat, n: nat)
    requires n > 0
    ensures (a + 1) % n == if a % n == n - 1 then 0 else a % n + 1
  {
    var q, r := a / n, a % n;
    assert a == q * n + r;
    if r == n - 1 {
      assert a + 1 == (q + 1) * n + 0;
      RingMath.ModUnique(a + 1, n, q + 1, 0);
    } else {
      assert a + 1 == q * n + (r + 1);
      RingMath.ModUnique(a + 1, n, q, r + 1);
    }
  }

  lemma ShiftRemainder(a: nat, b: nat, n: nat)
    requires n > 0 && (a == b || a == b + n)
    ensures a % n == b % n
  {
    if a == b + n {
      assert b == (b / n) * n + b % n;
      assert a == (b / n + 1) * n + b % n;
      RingMath.ModUnique(a, n, b / n + 1, b % n);
    }
  }

  // ---------------------------------------------------------------------------
  // Pacing

  /** A completed attempt on a path that is still the one it was issued for puts the next
      packet off to its start plus its time on the wire, and nothing ever brings a path's
      next packet forward. */
  lemma CompletionPaces(v: Sends, i: nat, outcome: Outcome, airtime: int, p: nat)
    requires Inv(v) && i < |v.slots| && Live(v.slots[i]) && v.slots[i].path < |v.paths| && p < |v.paths|
    ensures var w, s := Completed(v, i, outcome, airtime), v.slots[i];
      var start := if outcome.attemptKnown then outcome.started else outcome.finished;
      var mine := !v.closing && p == s.path && outcome.Attempted()
        && (if s.source == Join then v.paths[p].joining else v.paths[p].incarnation) == s.incarnation;
      && |w.paths| == |v.paths|
      && w.paths[p].pacedAt == if mine && start + airtime > v.paths[p].pacedAt then start + airtime else v.paths[p].pacedAt
  {
    hide Inv, FinishShard, Settle, Outcome.Attempted;
    var s := v.slots[i];
    SettlePaces(if outcome.Attempted() && SamePath(Vacate(v, i).paths[s.path], s)
      then Pace(Vacate(v, i), s.path, (if outcome.attemptKnown then outcome.started else outcome.finished) + airtime)
      else Vacate(v, i), s, outcome.Attempted(), outcome.finished, p);
  }

  lemma SettlePaces(v: Sends, s: Slot, attempted: bool, finishedAt: int, p: nat)
    requires s.path < |v.paths| && p < |v.paths|
    ensures s.source != Data ==>
      |Settle(v, s, attempted, finishedAt).paths| == |v.paths| && Settle(v, s, attempted, finishedAt).paths[p].pacedAt == v.paths[p].pacedAt
  {
  }
}
