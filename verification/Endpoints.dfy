// The queue and the receiver of a Session with the ghost record of their calls:
// what the reference runs say holds of the objects themselves.
module Endpoints {
  import opened Words
  import opened Packing
  import AggregationQueue
  import CreditLedger
  import EndToEnd
  import Reassembly
  import SenderRun

  type Bytes = seq<Byte>

  // An aggregation queue; every call that succeeds is one action of the run.
  class Sender {
    const queue: AggregationQueue.Queue
    ghost var actions: seq<SenderRun.Action>
    // The groups it has emitted.
    ghost var groups: seq<seq<Fragment>>

    ghost function Past(): SenderRun.Sender
      requires queue.limits.InBounds()
      reads this
    {
      SenderRun.RunSender(queue.limits, queue.params, actions)
    }

    ghost predicate Valid()
      reads this, queue, queue.ring
    {
      && queue.Valid() && queue.limits.maxDatagramBytes <= queue.params.maxDatagramBytes && groups == Past().groups
      && (!queue.closed ==> queue.entries == Past().entries && queue.nextDatagramID == Past().next)
    }

    constructor (session: CreditLedger.Handle, limits: AggregationQueue.QueueLimits, params: Parameters, outputBytes: U64)
      requires params.Valid() && limits.InBounds() && limits.maxDatagramBytes <= params.maxDatagramBytes
      ensures Valid() && actions == [] && groups == [] && fresh(queue) && fresh(queue.ring)
    {
      queue := new AggregationQueue.Queue(session, limits, params, outputBytes);
      actions, groups := [], [];
    }

    // One action more.
    ghost method Log(a: SenderRun.Action)
      requires queue.limits.InBounds()
      modifies this`actions
      ensures actions == old(actions) + [a] && Past() == SenderRun.Act(old(Past()), queue.limits, queue.params, a)
    {
      assert (actions + [a])[..|actions|] == actions;
      actions := actions + [a];
    }

    method Admit(payload: Bytes, now: int, scopeClosed: bool, answer: CreditLedger.Err, granted: CreditLedger.Handle)
      returns (err: AggregationQueue.QueueErr, id: U64, ops: seq<CreditLedger.Op>)
      requires Valid()
      modifies this, queue, queue.ring
      ensures Valid() && groups == old(groups)
      ensures err == AggregationQueue.NoErr ==>
        id !in old(Past()).sent && Past().sent == old(Past()).sent[id := payload]
      ensures err != AggregationQueue.NoErr ==> actions == old(actions)
    {
      hide SenderRun.RunSender, AggregationQueue.QueueOk;
      IDIsNew(this);
      err, id, ops := queue.Admit(payload, now, scopeClosed, answer, granted);
      if err == AggregationQueue.NoErr {
        Log(SenderRun.AdmitAction(payload, now, granted));
      }
    }

    method Seal(now: int, force: bool, scopeClosed: bool, answer: CreditLedger.Err, granted: CreditLedger.Handle)
      returns (err: AggregationQueue.QueueErr, output: AggregationQueue.Output, ops: seq<CreditLedger.Op>)
      requires Valid()
      modifies this, queue, queue.ring
      ensures Valid() && Past().sent == old(Past()).sent
      ensures groups == old(groups) + if output.Output? then [output.fragments] else []
    {
      hide SenderRun.RunSender, AggregationQueue.QueueOk, AggregationQueue.Remainder, AggregationQueue.SealedGroup;
      err, output, ops := queue.Seal(now, force, scopeClosed, answer, granted);
      if output.Output? {
        Log(SenderRun.SealAction);
        groups := groups + [output.fragments];
      }
    }

    method Cancel(id: U64) returns (found: bool, ops: seq<CreditLedger.Op>)
      requires Valid()
      modifies this, queue, queue.ring
      ensures Valid() && groups == old(groups) && Past().sent == old(Past()).sent
    {
      hide SenderRun.RunSender, AggregationQueue.QueueOk, AggregationQueue.Without;
      found, ops := queue.Cancel(id);
      if found {
        Log(SenderRun.CancelAction(id));
      }
    }

    method Close(ringLease: CreditLedger.Handle) returns (ops: seq<CreditLedger.Op>)
      requires Valid()
      modifies this, queue, queue.ring
      ensures Valid() && queue.closed && groups == old(groups) && Past().sent == old(Past()).sent
    {
      hide SenderRun.RunSender;
      ops := queue.Close(ringLease);
    }
  }

  lemma IDIsNew(s: Sender)
    requires s.Valid()
    ensures !s.queue.closed && s.queue.nextDatagramID != 0 ==> s.queue.nextDatagramID !in s.Past().sent
  {
    SenderRun.EveryRunIsOk(s.queue.limits, s.queue.params, s.actions);
  }

  // A receiver; every call that succeeds is one event of the run.
  class Receiver {
    const store: Reassembly.Receiver
    ghost var events: seq<EndToEnd.Event>
    ghost var start: int
    // What it has delivered.
    ghost var delivered: seq<Reassembly.Delivery>

    ghost function Past(): EndToEnd.Reception
      requires store.limits.InBounds()
      reads this
    {
      EndToEnd.RunReceiver(store.limits, store.scope, start, events)
    }

    ghost predicate Valid()
      reads this, store
    {
      && store.Valid() && delivered == Past().delivered
      && (!store.closed ==> store.View() == Past().store)
      && (if store.haveTime then store.last == Past().clock else events == [])
    }

    constructor (scope: CreditLedger.Handle, limits: Reassembly.Limits, windowLease: CreditLedger.Handle)
      requires limits.InBounds()
      ensures Valid() && events == [] && delivered == [] && fresh(store)
    {
      store := new Reassembly.Receiver(scope, limits, windowLease);
      events, start, delivered := [], 0, [];
    }

    ghost method Log(e: EndToEnd.Event, out: seq<Reassembly.Delivery>)
      requires store.limits.InBounds()
      modifies this`events, this`start, this`delivered
      ensures events == old(events) + [e] && delivered == old(delivered) + out
      ensures start == if old(events) == [] then e.now else old(start)
      ensures Past() == EndToEnd.Next(EndToEnd.RunReceiver(store.limits, store.scope, start, old(events)), store.scope, store.limits, e)
    {
      assert (events + [e])[..|events|] == events;
      start := if events == [] then e.now else start;
      events, delivered := events + [e], delivered + out;
    }

    method AddGroup(
      now: int, fs: seq<Fragment>, scopeClosed: bool, answer: nat -> CreditLedger.Err, grant: nat -> CreditLedger.Handle)
      returns (err: Reassembly.ReceiveErr, out: seq<Reassembly.Delivery>, ops: seq<CreditLedger.Op>)
      requires Valid()
      modifies this, store
      ensures Valid()
      ensures err == Reassembly.NoErr ==>
        delivered == old(delivered) + out && events == old(events) + [EndToEnd.Arrive(now, fs, answer, grant)]
      ensures err != Reassembly.NoErr ==> delivered == old(delivered) && events == old(events)
    {
      hide EndToEnd.RunReceiver, Reassembly.StoreOk, Reassembly.AddAll, Reassembly.AcceptableGroup;
      RunStarts(store.limits, store.scope, start, now);
      err, out, ops := store.AddGroup(now, fs, scopeClosed, answer, grant);
      if err == Reassembly.NoErr {
        Log(EndToEnd.Arrive(now, fs, answer, grant), out);
      }
    }

    method Expire(now: int) returns (err: Reassembly.ReceiveErr, ids: seq<U64>, ops: seq<CreditLedger.Op>)
      requires Valid()
      modifies this, store
      ensures Valid() && delivered == old(delivered)
      ensures events == if err == Reassembly.NoErr then old(events) + [EndToEnd.Tick(now)] else old(events)
    {
      hide EndToEnd.RunReceiver, Reassembly.StoreOk, Reassembly.ExpireAll, Reassembly.DueCount;
      RunStarts(store.limits, store.scope, start, now);
      err, ids, ops := store.Expire(now);
      if err == Reassembly.NoErr {
        Log(EndToEnd.Tick(now), []);
      }
    }

    method Close() returns (ops: seq<CreditLedger.Op>)
      requires Valid()
      modifies this, store
      ensures Valid() && store.closed && delivered == old(delivered) && events == old(events)
    {
      hide EndToEnd.RunReceiver;
      ops := store.Close();
    }
  }

  // Until something has arrived the clock does not matter.
  lemma RunStarts(limits: Reassembly.Limits, scope: CreditLedger.Handle, a: int, b: int)
    requires limits.InBounds()
    ensures var r, s := EndToEnd.RunReceiver(limits, scope, a, []), EndToEnd.RunReceiver(limits, scope, b, []);
      r.store == s.store && r.delivered == s.delivered == [] && s.clock == b
  {
  }

  /** Of the objects: a receiver with at least the queue's limits that was given only
      groups the queue has emitted, in any order and any number of times, has delivered
      nothing but Datagrams the queue admitted, each at most once and unchanged. */
  lemma ObjectsAgree(s: Sender, r: Receiver)
    requires s.Valid() && r.Valid() && EndToEnd.AtLeast(r.store.limits, s.queue.limits)
    requires forall n :: 0 <= n < |r.events| && r.events[n].Arrive? ==> r.events[n].group in s.groups
    ensures forall d :: d in r.delivered ==> d.id in s.Past().sent && d.data == s.Past().sent[d.id]
    ensures forall i, j :: 0 <= i < j < |r.delivered| ==> r.delivered[i].id != r.delivered[j].id
  {
    hide SenderRun.RunSender, EndToEnd.RunReceiver;
    EndToEnd.DeliveredIsAdmitted(s.queue.limits, s.queue.params, s.actions, r.store.limits, r.store.scope, r.start, r.events);
    var past := EndToEnd.RunReceiver(r.store.limits, r.store.scope, r.start, r.events).delivered;
    forall i, j | 0 <= i < j < |r.delivered|
      ensures r.delivered[i].id != r.delivered[j].id
    {
      assert r.delivered == past && past[i].id != past[j].id;
    }
  }
}
