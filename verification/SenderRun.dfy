// Runs of the aggregation queue: which fragments it has emitted so far, and how
// they relate to the Datagrams it admitted.
//
// The actions are exactly the state changes that the methods of
// AggregationQueue.Queue promise for `entries`, `nextDatagramID` and the output.
module SenderRun {
  import opened Words
  import opened Packing
  import opened AggregationQueue

  datatype Sender = Sender(
    entries: seq<Entry>, next: U64, sent: map<U64, seq<Byte>>, groups: seq<seq<Fragment>>, cancelled: set<U64>)

  datatype Action = AdmitAction(payload: seq<Byte>, now: int, handle: Handle) | SealAction | CancelAction(id: U64)

  type Handle = nat

  const START := Sender([], 1, map[], [], {})

  function Act(s: Sender, limits: QueueLimits, p: Parameters, a: Action): Sender
    requires limits.InBounds()
  {
    match a
    case AdmitAction(payload, now, handle) =>
      if s.next == 0 || TooLarge(|payload|, limits, p) then s
      else s.(entries := s.entries + [NewEntry(s.next, payload, now, handle)],
              sent := s.sent[s.next := payload], next := Wrap64(s.next + 1))
    case SealAction =>
      if s.entries == [] then s
      else s.(entries := Remainder(s.entries, limits, p), groups := s.groups + [SealedGroup(s.entries, limits, p)])
    case CancelAction(id) =>
      if exists i :: 0 <= i < |s.entries| && s.entries[i].id == id then
        var i := FirstWith(s.entries, id);
        s.(entries := AggregationQueue.Without(s.entries, i), cancelled := s.cancelled + {id})
      else s
  }

  function FirstWith(entries: seq<Entry>, id: U64): (i: nat)
    requires exists i :: 0 <= i < |entries| && entries[i].id == id
    ensures i < |entries| && entries[i].id == id
  {
    if entries[0].id == id then 0
    else
      assert exists i :: 0 <= i < |entries[1..]| && entries[1..][i].id == id by {
        var i :| 0 <= i < |entries| && entries[i].id == id;
        assert entries[1..][i - 1].id == id;
      }
      1 + FirstWith(entries[1..], id)
  }

  function RunSender(limits: QueueLimits, p: Parameters, actions: seq<Action>): Sender
    requires limits.InBounds()
  {
    if actions == [] then START
    else Act(RunSender(limits, p, actions[..|actions| - 1]), limits, p, actions[|actions| - 1])
  }

  // All fragments in the order they were emitted.
  function Log(groups: seq<seq<Fragment>>): seq<Fragment> {
    if groups == [] then [] else Log(groups[..|groups| - 1]) + groups[|groups| - 1]
  }

  function CountOf(log: seq<Fragment>, id: U64): nat {
    if log == [] then 0
    else CountOf(log[..|log| - 1], id) + if log[|log| - 1].id == id then 1 else 0
  }

  // A nonempty range of the payload, or the one fragment of an empty payload.
  predicate PieceOf(f: Fragment, payload: seq<Byte>) {
    && f.total == |payload| && f.End() <= f.total && f.payload == payload[f.offset..f.End()]
    && (f.payload == [] ==> f.total == 0)
  }

  predicate Emitted(log: seq<Fragment>, id: U64, k: int) {
    exists i :: 0 <= i < |log| && log[i].id == id && log[i].offset <= k < log[i].End()
  }

  // Every fragment is a true piece of an admitted Datagram.
  ghost predicate Genuine(log: seq<Fragment>, sent: map<U64, seq<Byte>>, limits: QueueLimits) {
    forall i :: 0 <= i < |log| ==>
      log[i].id != 0 && log[i].id in sent && PieceOf(log[i], sent[log[i].id]) && log[i].total <= limits.maxDatagramBytes
  }

  // Pieces of one Datagram are emitted front to back, each byte once.
  ghost predicate Forward(log: seq<Fragment>) {
    forall i, j :: 0 <= i < j < |log| && log[i].id == log[j].id ==> Before(log[i], log[j])
  }

  predicate Before(f: Fragment, g: Fragment) {
    f.End() <= g.offset && f.payload != []
  }

  // What the log holds of a Datagram that is still queued.
  ghost predicate QueuedOk(e: Entry, log: seq<Fragment>, sent: map<U64, seq<Byte>>) {
    && e.id in sent && e.payload == sent[e.id]
    && (forall i :: 0 <= i < |log| && log[i].id == e.id ==> log[i].End() <= e.offset && log[i].payload != [])
    && CountOf(log, e.id) == e.fragments
    && forall k :: 0 <= k < e.offset ==> Emitted(log, e.id, k)
  }

  // A Datagram that left the queue by being sealed was emitted to its last byte.
  ghost predicate SealedOk(id: U64, log: seq<Fragment>, sent: map<U64, seq<Byte>>)
    requires id in sent
  {
    && CountOf(log, id) >= 1
    && forall k :: 0 <= k < |sent[id]| ==> Emitted(log, id, k)
  }

  predicate Queued(entries: seq<Entry>, id: U64) {
    exists i :: 0 <= i < |entries| && entries[i].id == id
  }

  ghost predicate FlowOk(
    entries: seq<Entry>, log: seq<Fragment>, sent: map<U64, seq<Byte>>, cancelled: set<U64>, limits: QueueLimits)
  {
    && Genuine(log, sent, limits) && Forward(log)
    && (forall i :: 0 <= i < |entries| ==> QueuedOk(entries[i], log, sent))
    && (forall id :: id in sent && !Queued(entries, id) && id !in cancelled ==> SealedOk(id, log, sent))
    && (forall id :: CountOf(log, id) <= limits.maxFragments)
  }

  // ---------------------------------------------------------------------------
  // Emitting one fragment

  lemma CountOfAppend(log: seq<Fragment>, f: Fragment, id: U64)
    ensures CountOf(log + [f], id) == CountOf(log, id) + if f.id == id then 1 else 0
  {
    assert (log + [f])[..|log|] == log;
  }

  lemma EmittedAppend(log: seq<Fragment>, f: Fragment, id: U64, k: int)
    ensures Emitted(log + [f], id, k) <==> Emitted(log, id, k) || (f.id == id && f.offset <= k < f.End())
  {
    var next := log + [f];
    if Emitted(log, id, k) {
      var i :| 0 <= i < |log| && log[i].id == id && log[i].offset <= k < log[i].End();
      assert next[i] == log[i];
    }
    if f.id == id && f.offset <= k < f.End() {
      assert next[|log|] == f;
    }
    if Emitted(next, id, k) {
      var i :| 0 <= i < |next| && next[i].id == id && next[i].offset <= k < next[i].End();
      assert i < |log| ==> log[i] == next[i];
    }
  }

  lemma QueuedAppend(e: Entry, log: seq<Fragment>, f: Fragment, sent: map<U64, seq<Byte>>)
    requires QueuedOk(e, log, sent) && f.id != e.id
    ensures QueuedOk(e, log + [f], sent)
  {
    CountOfAppend(log, f, e.id);
    forall k | 0 <= k < e.offset
      ensures Emitted(log + [f], e.id, k)
    {
      EmittedAppend(log, f, e.id, k);
    }
  }

  lemma SealedAppend(id: U64, log: seq<Fragment>, f: Fragment, sent: map<U64, seq<Byte>>)
    requires id in sent && SealedOk(id, log, sent)
    ensures SealedOk(id, log + [f], sent)
  {
    CountOfAppend(log, f, id);
    forall k | 0 <= k < |sent[id]|
      ensures Emitted(log + [f], id, k)
    {
      EmittedAppend(log, f, id, k);
    }
  }

  // The first `bytes` of what is left of an entry.
  function Prefix(e: Entry, bytes: nat): Fragment
    requires bytes <= e.Remaining()
  {
    Rest(e).(payload := Rest(e).payload[..bytes])
  }

  function CutBy(e: Entry, bytes: nat): Entry
    requires bytes <= e.Remaining()
  {
    e.(offset := e.offset + bytes, fragments := e.fragments + 1)
  }

  // The emitted fragment extends the log of its own Datagram properly.
  lemma EmitOwn(e: Entry, log: seq<Fragment>, sent: map<U64, seq<Byte>>, bytes: nat)
    requires QueuedOk(e, log, sent) && bytes <= e.Remaining() && (bytes == 0 ==> e.payload == [])
    ensures PieceOf(Prefix(e, bytes), sent[e.id])
    ensures 0 < bytes ==> QueuedOk(CutBy(e, bytes), log + [Prefix(e, bytes)], sent)
    ensures bytes == e.Remaining() ==> SealedOk(e.id, log + [Prefix(e, bytes)], sent)
    ensures CountOf(log + [Prefix(e, bytes)], e.id) == e.fragments + 1
  {
    var f := Prefix(e, bytes);
    CountOfAppend(log, f, e.id);
    forall k | 0 <= k < e.offset + bytes
      ensures Emitted(log + [f], e.id, k)
    {
      EmittedAppend(log, f, e.id, k);
    }
  }

  lemma GenuineAppend(log: seq<Fragment>, f: Fragment, sent: map<U64, seq<Byte>>, limits: QueueLimits)
    requires Genuine(log, sent, limits) && f.id != 0 && f.id in sent && PieceOf(f, sent[f.id])
    requires f.total <= limits.maxDatagramBytes
    ensures Genuine(log + [f], sent, limits)
  {
  }

  lemma ForwardAppend(e: Entry, log: seq<Fragment>, f: Fragment, sent: map<U64, seq<Byte>>)
    requires Forward(log) && QueuedOk(e, log, sent) && f.id == e.id && f.offset == e.offset
    ensures Forward(log + [f])
  {
  }

  // The entries behind the head, whichever fragment of the head was emitted.
  lemma EmitRest(
    entries: seq<Entry>, rest: seq<Entry>, log: seq<Fragment>, f: Fragment, sent: map<U64, seq<Byte>>,
    cancelled: set<U64>, limits: QueueLimits, p: Parameters)
    requires entries != [] && EntriesOk(entries, limits, p) && FlowOk(entries, log, sent, cancelled, limits)
    requires f.id == entries[0].id && f.offset == entries[0].offset && f.total == |entries[0].payload|
    requires PieceOf(f, sent[f.id])
    requires rest == entries[1..]
      || (|rest| == |entries| && rest[1..] == entries[1..] && rest[0].id == f.id && QueuedOk(rest[0], log + [f], sent))
    requires rest == entries[1..] ==> SealedOk(f.id, log + [f], sent)
    requires CountOf(log + [f], f.id) <= limits.maxFragments
    ensures FlowOk(rest, log + [f], sent, cancelled, limits)
  {
    hide PieceOf, SealedOk, Emitted;
    assert EntryOk(entries[0], limits, p);
    assert QueuedOk(entries[0], log, sent);
    GenuineAppend(log, f, sent, limits);
    ForwardAppend(entries[0], log, f, sent);
    hide QueuedOk, Genuine, Forward, EntryOk, CountOf;
    var first := if rest == entries[1..] then 0 else 1;
    assert first == 1 ==> Queued(rest, f.id) by {
      assert first == 1 ==> rest[0].id == f.id;
    }
    forall i | 0 <= i < |rest|
      ensures QueuedOk(rest[i], log + [f], sent)
    {
      if i >= first {
        assert rest[i] == entries[1..][i - first];
        assert entries[0].id < entries[i - first + 1].id;
        QueuedAppend(entries[i - first + 1], log, f, sent);
      }
    }
    forall id | id in sent && !Queued(rest, id) && id !in cancelled
      ensures SealedOk(id, log + [f], sent)
    {
      if id != f.id {
        HeadGone(entries, rest, f.id, id);
        SealedAppend(id, log, f, sent);
      }
    }
    forall id
      ensures CountOf(log + [f], id) <= limits.maxFragments
    {
      CountOfAppend(log, f, id);
    }
  }

  lemma HeadGone(entries: seq<Entry>, rest: seq<Entry>, head: U64, id: U64)
    requires entries != [] && entries[0].id == head && id != head
    requires rest == entries[1..] || (|rest| == |entries| && rest[1..] == entries[1..])
    ensures Queued(entries, id) ==> Queued(rest, id)
  {
    if Queued(entries, id) {
      var i :| 0 <= i < |entries| && entries[i].id == id;
      assert entries[1..][i - 1] == entries[i];
      if |rest| == |entries| {
        assert rest[1..][i - 1] == rest[i];
      } else {
        assert rest[i - 1].id == id;
      }
    }
  }

  lemma EmitWhole(
    entries: seq<Entry>, log: seq<Fragment>, sent: map<U64, seq<Byte>>, cancelled: set<U64>,
    limits: QueueLimits, p: Parameters)
    requires entries != [] && EntriesOk(entries, limits, p) && FlowOk(entries, log, sent, cancelled, limits)
    requires limits.InBounds()
    ensures FlowOk(entries[1..], log + [Rest(entries[0])], sent, cancelled, limits)
  {
    hide SealedOk, Genuine, Forward, PieceOf;
    var e := entries[0];
    assert EntryOk(e, limits, p);
    assert Prefix(e, e.Remaining()) == Rest(e);
    EmitOwn(e, log, sent, e.Remaining());
    EmitRest(entries, entries[1..], log, Rest(e), sent, cancelled, limits, p);
  }

  lemma EmitCut(
    entries: seq<Entry>, log: seq<Fragment>, sent: map<U64, seq<Byte>>, cancelled: set<U64>,
    limits: QueueLimits, p: Parameters, bytes: nat)
    requires entries != [] && EntriesOk(entries, limits, p) && FlowOk(entries, log, sent, cancelled, limits)
    requires 0 < bytes < entries[0].Remaining() && KeepsBudget(entries[0], limits, p, bytes)
    ensures FlowOk([CutBy(entries[0], bytes)] + entries[1..], log + [Prefix(entries[0], bytes)], sent, cancelled, limits)
  {
    hide SealedOk, Genuine, Forward, PieceOf;
    var e := entries[0];
    EmitOwn(e, log, sent, bytes);
    var rest := [CutBy(e, bytes)] + entries[1..];
    assert rest[1..] == entries[1..];
    EmitRest(entries, rest, log, Prefix(e, bytes), sent, cancelled, limits, p);
  }

  // ---------------------------------------------------------------------------
  // Sealing a group

  function RestsOf(entries: seq<Entry>, n: nat): seq<Fragment>
    requires n <= |entries|
  {
    if n == 0 then [] else RestsOf(entries, n - 1) + [Rest(entries[n - 1])]
  }

  lemma {:induction false} RestsOfIsRests(entries: seq<Entry>, n: nat)
    requires n <= |entries|
    ensures RestsOf(entries, n) == Rests(entries[..n])
  {
    if n > 0 {
      RestsOfIsRests(entries, n - 1);
      RestsAppend(entries, n - 1);
    }
  }

  lemma EntriesOkDrop(entries: seq<Entry>, limits: QueueLimits, p: Parameters, n: nat)
    requires n <= |entries| && EntriesOk(entries, limits, p)
    ensures EntriesOk(entries[n..], limits, p)
  {
    hide EntryOk;
  }

  lemma {:induction false} EmitFront(
    entries: seq<Entry>, log: seq<Fragment>, sent: map<U64, seq<Byte>>, cancelled: set<U64>,
    limits: QueueLimits, p: Parameters, n: nat)
    requires n <= |entries| && EntriesOk(entries, limits, p) && FlowOk(entries, log, sent, cancelled, limits)
    requires limits.InBounds()
    ensures FlowOk(entries[n..], log + RestsOf(entries, n), sent, cancelled, limits)
    decreases n
  {
    hide FlowOk, EntriesOk;
    if n == 0 {
      assert entries[0..] == entries && log + [] == log;
    } else {
      EmitFront(entries, log, sent, cancelled, limits, p, n - 1);
      EntriesOkDrop(entries, limits, p, n - 1);
      EmitWhole(entries[n - 1..], log + RestsOf(entries, n - 1), sent, cancelled, limits, p);
      assert entries[n - 1..][1..] == entries[n..];
      assert log + RestsOf(entries, n) == log + RestsOf(entries, n - 1) + [Rest(entries[n - 1])];
    }
  }

  lemma SealFlow(
    entries: seq<Entry>, log: seq<Fragment>, sent: map<U64, seq<Byte>>, cancelled: set<U64>,
    limits: QueueLimits, p: Parameters)
    requires EntriesOk(entries, limits, p) && FlowOk(entries, log, sent, cancelled, limits) && limits.InBounds()
    ensures FlowOk(Remainder(entries, limits, p), log + SealedGroup(entries, limits, p), sent, cancelled, limits)
  {
    hide FlowOk, EntriesOk, PlanCursor;
    var c := PlanCursor(entries, limits, p);
    EmitFront(entries, log, sent, cancelled, limits, p, c.next);
    RestsOfIsRests(entries, c.next);
    if c.bytes > 0 {
      KeptBudget(entries, limits, p);
      EntriesOkDrop(entries, limits, p, c.next);
      var rest := entries[c.next..];
      EmitCut(rest, log + RestsOf(entries, c.next), sent, cancelled, limits, p, c.bytes);
      assert rest[1..] == entries[c.next + 1..];
      assert log + RestsOf(entries, c.next) + [Prefix(rest[0], c.bytes)]
        == log + (RestsOf(entries, c.next) + [Prefix(rest[0], c.bytes)]);
    }
  }

  lemma KeptBudget(entries: seq<Entry>, limits: QueueLimits, p: Parameters)
    ensures var c := PlanCursor(entries, limits, p); c.bytes > 0 ==> KeepsBudget(entries[c.next], limits, p, c.bytes)
  {
    PlanKeepsBudget(entries, limits, p, 0, MANIFEST_BYTES);
  }

  // ---------------------------------------------------------------------------
  // Admission and cancellation

  lemma AdmitFlow(
    entries: seq<Entry>, e: Entry, log: seq<Fragment>, sent: map<U64, seq<Byte>>, cancelled: set<U64>,
    limits: QueueLimits)
    requires FlowOk(entries, log, sent, cancelled, limits) && e.id !in sent && e.offset == 0 && e.fragments == 0
    ensures FlowOk(entries + [e], log, sent[e.id := e.payload], cancelled, limits)
  {
    hide PieceOf, Emitted;
    var next := sent[e.id := e.payload];
    NotYetSent(log, sent, limits, e.id);
    assert Genuine(log, next, limits);
    forall i | 0 <= i < |entries + [e]|
      ensures QueuedOk((entries + [e])[i], log, next)
    {
      if i < |entries| {
        assert QueuedOk(entries[i], log, sent);
      }
    }
    forall id | id in next && !Queued(entries + [e], id) && id !in cancelled
      ensures SealedOk(id, log, next)
    {
      assert (entries + [e])[|entries|].id == e.id;
      QueuedExtends(entries, e, id);
      assert SealedOk(id, log, sent);
    }
  }

  lemma QueuedExtends(entries: seq<Entry>, e: Entry, id: U64)
    ensures Queued(entries, id) ==> Queued(entries + [e], id)
  {
    if Queued(entries, id) {
      var i :| 0 <= i < |entries| && entries[i].id == id;
      assert (entries + [e])[i].id == id;
    }
  }

  lemma {:induction false} NotYetSent(log: seq<Fragment>, sent: map<U64, seq<Byte>>, limits: QueueLimits, id: U64)
    requires Genuine(log, sent, limits) && id !in sent
    ensures CountOf(log, id) == 0 && forall i :: 0 <= i < |log| ==> log[i].id != id
  {
    if log != [] {
      assert log[..|log| - 1] + [log[|log| - 1]] == log;
      NotYetSent(log[..|log| - 1], sent, limits, id);
      assert log[|log| - 1].id in sent;
    }
  }

  lemma CancelFlow(
    entries: seq<Entry>, i: nat, log: seq<Fragment>, sent: map<U64, seq<Byte>>, cancelled: set<U64>,
    limits: QueueLimits)
    requires FlowOk(entries, log, sent, cancelled, limits) && i < |entries|
    ensures FlowOk(Without(entries, i), log, sent, cancelled + {entries[i].id}, limits)
  {
    hide PieceOf, Emitted, QueuedOk, Genuine, Forward, SealedOk;
    var rest := Without(entries, i);
    assert forall k :: 0 <= k < |rest| ==> rest[k] == entries[if k < i then k else k + 1];
    forall id | id in sent && !Queued(rest, id) && id !in cancelled + {entries[i].id}
      ensures SealedOk(id, log, sent)
    {
      StillQueued(entries, i, id);
    }
  }

  lemma StillQueued(entries: seq<Entry>, i: nat, id: U64)
    requires i < |entries| && id != entries[i].id
    ensures Queued(entries, id) ==> Queued(Without(entries, i), id)
  {
    if Queued(entries, id) {
      var k :| 0 <= k < |entries| && entries[k].id == id;
      assert Without(entries, i)[if k < i then k else k - 1].id == id;
    }
  }

  // ---------------------------------------------------------------------------
  // Whole runs

  ghost predicate SenderOk(s: Sender, limits: QueueLimits, p: Parameters) {
    && EntriesOk(s.entries, limits, p)
    && (forall id :: id in s.sent ==> s.next == 0 || id < s.next)
    && (forall i :: 0 <= i < |s.entries| ==> s.entries[i].id in s.sent)
    && FlowOk(s.entries, Log(s.groups), s.sent, s.cancelled, limits)
    && forall g :: 0 <= g < |s.groups| ==> Encodable(p, s.groups[g])
  }

  lemma StartOk(limits: QueueLimits, p: Parameters)
    requires limits.InBounds() && limits.maxDatagramBytes <= p.maxDatagramBytes
    ensures SenderOk(START, limits, p)
  {
  }

  lemma AdmitKeeps(s: Sender, limits: QueueLimits, p: Parameters, payload: seq<Byte>, now: int, handle: Handle)
    requires limits.InBounds() && SenderOk(s, limits, p)
    ensures SenderOk(Act(s, limits, p, AdmitAction(payload, now, handle)), limits, p)
  {
    hide FlowOk, Encodable;
    if s.next != 0 && !TooLarge(|payload|, limits, p) {
      AdmitFlow(s.entries, NewEntry(s.next, payload, now, handle), Log(s.groups), s.sent, s.cancelled, limits);
    }
  }

  lemma SealKeeps(s: Sender, limits: QueueLimits, p: Parameters)
    requires p.Valid() && limits.InBounds() && SenderOk(s, limits, p)
    ensures SenderOk(Act(s, limits, p, SealAction), limits, p)
  {
    hide FlowOk, Encodable, EntriesOk, SealedGroup, PlanCursor;
    if s.entries != [] {
      SealFlow(s.entries, Log(s.groups), s.sent, s.cancelled, limits, p);
      AfterIsOk(s.entries, limits, p);
      SealedGroupIsEncodable(s.entries, limits, p);
      var next := Act(s, limits, p, SealAction);
      assert next.groups[..|next.groups| - 1] == s.groups;
      assert forall i :: 0 <= i < |next.entries| ==> exists j :: 0 <= j < |s.entries| && next.entries[i].id == s.entries[j].id by {
        var c := PlanCursor(s.entries, limits, p);
        assert forall i :: 0 <= i < |next.entries| ==> next.entries[i].id == s.entries[c.next + i].id;
      }
    }
  }

  lemma CancelKeeps(s: Sender, limits: QueueLimits, p: Parameters, id: U64)
    requires limits.InBounds() && SenderOk(s, limits, p)
    ensures SenderOk(Act(s, limits, p, CancelAction(id)), limits, p)
  {
    hide FlowOk, Encodable, EntryOk;
    if exists i :: 0 <= i < |s.entries| && s.entries[i].id == id {
      CancelFlow(s.entries, FirstWith(s.entries, id), Log(s.groups), s.sent, s.cancelled, limits);
    }
  }

  /** Every run of the queue: the emitted groups are encodable, their fragments are
      true pieces of admitted Datagrams in order and without overlap, no Datagram
      was cut into more fragments than its limit, and each Datagram that was
      neither kept nor cancelled was emitted completely. */
  lemma {:induction false} EveryRunIsOk(limits: QueueLimits, p: Parameters, actions: seq<Action>)
    requires p.Valid() && limits.InBounds() && limits.maxDatagramBytes <= p.maxDatagramBytes
    ensures SenderOk(RunSender(limits, p, actions), limits, p)
  {
    hide SenderOk, Act;
    if actions == [] {
      StartOk(limits, p);
    } else {
      var before := RunSender(limits, p, actions[..|actions| - 1]);
      EveryRunIsOk(limits, p, actions[..|actions| - 1]);
      match actions[|actions| - 1]
      case AdmitAction(payload, now, handle) => AdmitKeeps(before, limits, p, payload, now, handle);
      case SealAction => SealKeeps(before, limits, p);
      case CancelAction(id) => CancelKeeps(before, limits, p, id);
    }
  }
}
