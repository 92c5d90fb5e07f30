// internal/aggregationv2/workspace.go: the one prepaid output slot of a queue.
module OutputSlot {
  import opened Words
  import opened Packing
  import opened AggregationQueue
  import opened CreditLedger

  // The slot, the outputs that were sealed into it and not released yet, and how
  // often its lease went back. Outputs are numbered in the order they were sealed.
  datatype Slot = Slot(busy: bool, closed: bool, live: set<nat>, sealed: nat, returned: nat)

  const NEW_SLOT := Slot(false, false, {}, 0, 0)

  datatype Use = AcquireUse | ReleaseUse(output: nat) | CloseUse

  function GiveBack(s: Slot): Slot {
    s.(returned := s.returned + 1)
  }

  function Used(s: Slot, u: Use): Slot {
    match u
    case AcquireUse => if s.closed || s.busy then s else s.(busy := true, live := s.live + {s.sealed}, sealed := s.sealed + 1)
    case ReleaseUse(o) =>
      if o !in s.live then s
      else
        var t := s.(busy := false, live := s.live - {o});
        if s.closed then GiveBack(t) else t
    case CloseUse =>
      if s.closed then s
      else if s.busy then s.(closed := true)
      else GiveBack(s.(closed := true))
  }

  function RunSlot(uses: seq<Use>): Slot {
    if uses == [] then NEW_SLOT else Used(RunSlot(uses[..|uses| - 1]), uses[|uses| - 1])
  }

  predicate SlotOk(s: Slot) {
    && (forall o :: o in s.live ==> o < s.sealed) && (s.live == {} <==> !s.busy)
    && (forall o, p :: o in s.live && p in s.live ==> o == p)
    && s.returned == if s.closed && !s.busy then 1 else 0
  }

  /** However outputs are sealed and released and the slot is closed: at most one
      output is live, and the lease goes back exactly once, when the slot is closed
      and no output is live any more. */
  lemma {:induction false} EveryUseIsOk(uses: seq<Use>)
    ensures var s := RunSlot(uses);
      && SlotOk(s) && |s.live| <= 1 && s.returned <= 1 && (s.returned == 1 <==> s.closed && s.live == {})
  {
    if uses != [] {
      EveryUseIsOk(uses[..|uses| - 1]);
    }
    AtMostOne(RunSlot(uses));
  }

  lemma AtMostOne(s: Slot)
    requires SlotOk(s)
    ensures |s.live| <= 1
  {
    if s.live != {} {
      var o :| o in s.live;
      assert s.live == {o};
    }
  }

  datatype AcquireErr = Acquired | SlotClosed | ForeignQueue | SlotBusy

  class Workspace {
    var queue: Queue?
    var busy: bool
    var closed: bool
    // The lease; 0 once it went back.
    var lease: Handle
    ghost var slot: Slot

    ghost predicate Valid()
      reads this
    {
      && SlotOk(slot) && slot.busy == busy && slot.closed == closed && (lease == 0 <==> slot.returned == 1)
      && (closed <==> queue == null)
    }

    constructor (queue: Queue, lease: Handle)
      requires lease != 0
      ensures Valid() && slot == NEW_SLOT && this.queue == queue && this.lease == lease
    {
      this.queue, this.lease, busy, closed, slot := queue, lease, false, false, NEW_SLOT;
    }

    // acquire
    method Acquire(q: Queue) returns (err: AcquireErr)
      requires Valid()
      modifies this`busy, this`slot
      ensures Valid() && slot == if err == Acquired then Used(old(slot), AcquireUse) else old(slot)
      ensures err == Acquired <==> !old(closed) && queue == q && !old(busy)
      ensures err == SlotBusy <==> !old(closed) && queue == q && old(busy)
    {
      if closed {
        return SlotClosed;
      }
      if queue != q {
        return ForeignQueue;
      }
      if busy {
        return SlotBusy;
      }
      busy, slot := true, Used(slot, AcquireUse);
      return Acquired;
    }

    // releaseOutput, which an output calls once, when it is first released.
    method ReleaseOutput(ghost output: nat) returns (ops: seq<Op>)
      requires Valid() && output in slot.live
      modifies this`busy, this`lease, this`slot
      ensures Valid() && slot == Used(old(slot), ReleaseUse(output)) && !busy
      ensures ops == if closed then [ReleaseOp(old(lease))] else []
    {
      busy, ops := false, [];
      slot := Used(slot, ReleaseUse(output));
      if closed {
        ops, lease := [ReleaseOp(lease)], 0;
      }
    }

    method Close() returns (ops: seq<Op>)
      requires Valid()
      modifies this
      ensures Valid() && closed && slot == Used(old(slot), CloseUse)
      ensures ops == if old(closed) || old(busy) then [] else [ReleaseOp(old(lease))]
    {
      ops := [];
      if closed {
        return;
      }
      closed, queue, slot := true, null, Used(slot, CloseUse);
      if !busy {
        ops, lease := [ReleaseOp(lease)], 0;
      }
    }

    // SealWithWorkspace: the output takes the slot instead of a reservation, and the
    // slot stays free when nothing is sealed.
    method Seal(q: Queue, now: int, force: bool, scopeClosed: bool)
      returns (err: QueueErr, got: AcquireErr, output: Output, ops: seq<Op>)
      requires Valid() && q.Valid()
      modifies this`busy, this`slot
      modifies q`entries, q`head, q`count, q`retainedBytes, q`nextGroupID, q`lastNow, q`haveNow, q.ring
      ensures Valid() && q.Valid()
      ensures output.Output? ==>
        && err == NoErr && got == Acquired && slot == Used(old(slot), AcquireUse) && old(slot).sealed in slot.live && !old(busy)
        && output == Output(old(q.nextGroupID), SealedGroup(old(q.entries), q.limits, q.params), 0)
        && q.entries == Remainder(old(q.entries), q.limits, q.params)
        && [ReserveOp(q.session, Bytes(q.outputBytes))] + ops
          == SealOps(q.session, q.outputBytes, old(q.entries), q.limits, q.params)
      ensures !output.Output? ==> slot == old(slot) && ops == [] && q.entries == old(q.entries)
      ensures err == old(q.SealErr(now, scopeClosed)) && (output.Output? ==> old(q.Emits(now, force, scopeClosed)))
      ensures err == NoErr && old(q.Emits(now, force, scopeClosed)) ==>
        && (got == Acquired <==> output.Output?) && (got == Acquired <==> !closed && queue == q && !old(busy))
        && (got == SlotBusy <==> !closed && queue == q && old(busy))
      ensures err != NoErr || got != Acquired ==>
        unchanged(q) && unchanged(q.ring) && (err != NoErr || old(q.Emits(now, force, scopeClosed)))
    {
      hide QueueOk, RingView, Remainder, SealedGroup, SlotOk;
      var emits;
      err, emits := q.Gate(now, force, scopeClosed);
      got, output, ops := Acquired, NoOutput, [];
      if err != NoErr {
        return;
      }
      if emits {
        got := Acquire(q);
        if got != Acquired {
          return;
        }
        output, ops := q.Emit(0);
        ops := ops[1..];
      }
      q.lastNow, q.haveNow := now, true;
    }
  }
}
