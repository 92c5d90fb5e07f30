// internal/sessionv2: sends handed to workers under owned tokens.
//
// `Sends` is the reference: the slots of the live tokens, the paths they
// occupy, the control transactions they serve and the shards they carry. The
// lemmas keep the correspondence between them over every run; `Controller` is
// the code.
module OwnedSends {
  import opened Words
  import opened SendFence
  import AggregationQueue
  import Packing
  import SenderRun

  const CONTROL_SENDS := 8
  const CONTROL_RETRY := 250_000_000
  const CONTROL_LIFETIME := 5_000_000_000

  datatype Source = Data | Join | Budget | Context | Reply0 | Reply1

  predicate IsRetry(s: Source) {
    s == Join || s == Budget || s == Context
  }

  // One retained packet; token 0 marks a free slot.
  datatype Slot = Slot(
    token: U64, path: nat, source: Source, shard: nat, transaction: U64, version: U64, bytes: nat, native: bool,
    issued: int, incarnation: Incarnation)

  // What a path was when the packet was issued: generation, binding, transport.
  datatype Incarnation = Incarnation(generation: nat, binding: nat, transport: nat)

  const NOWHERE := Incarnation(0, 0, 0)
  const FREE := Slot(0, 0, Data, 0, 0, 0, 0, false, 0, NOWHERE)

  datatype Frame = Frame(version: U64, queued: bool, dispatched: bool, queuedAt: int, length: nat)

  // A bounded retransmission; id 0 is the zero value.
  datatype Retry = Retry(
    id: U64, pending: bool, deadline: int, sends: int, inflight: int, next: int, frame: Frame)

  const NO_FRAME := Frame(0, false, false, 0, 0)
  const NO_RETRY := Retry(0, false, 0, 0, 0, 0, NO_FRAME)

  datatype Path = Path(
    incarnation: Incarnation, joining: Incarnation, firstPhase: bool, join: Retry, budget: Retry,
    reply0: Frame, reply1: Frame, token: U64, queuedPackets: int, queuedBytes: int, pacedAt: int)

  const NO_PATH := Path(NOWHERE, NOWHERE, false, NO_RETRY, NO_RETRY, NO_FRAME, NO_FRAME, 0, 0, 0, 0)

  datatype Sends = Sends(
    slots: seq<Slot>, paths: seq<Path>, context: Retry, nextToken: U64, nextControl: U64, active: int,
    frontier: Frontier, closing: bool)

  // ---------------------------------------------------------------------------
  // Counting slots

  // What a live slot may be counted for: being live, carrying a data shard, or
  // carrying a packet of one control transaction. The encoding context has one
  // transaction for all paths.
  datatype Role = AnyRole | ShardRole(shard: nat) | ControlRole(path: nat, source: Source, transaction: U64)

  predicate Live(s: Slot) {
    s.token != 0
  }

  predicate Plays(s: Slot, role: Role) {
    Live(s) &&
    match role
    case AnyRole => true
    case ShardRole(shard) => s.source == Data && s.shard == shard
    case ControlRole(path, source, transaction) =>
      s.source == source && s.transaction == transaction && (source == Context || s.path == path)
  }

  function Count(slots: seq<Slot>, role: Role): nat {
    if slots == [] then 0
    else Count(slots[..|slots| - 1], role) + if Plays(slots[|slots| - 1], role) then 1 else 0
  }

  lemma {:induction false} CountUpdate(slots: seq<Slot>, role: Role, i: nat, x: Slot)
    requires i < |slots|
    ensures Count(slots[i := x], role)
      == Count(slots, role) - (if Plays(slots[i], role) then 1 else 0) + (if Plays(x, role) then 1 else 0)
  {
    hide Plays;
    var n := |slots| - 1;
    if i == n {
      assert slots[i := x][..n] == slots[..n];
    } else {
      CountUpdate(slots[..n], role, i, x);
      assert slots[i := x][..n] == slots[..n][i := x];
    }
  }

  lemma {:induction false} CountNone(slots: seq<Slot>, role: Role)
    requires forall i :: 0 <= i < |slots| ==> !Plays(slots[i], role)
    ensures Count(slots, role) == 0
  {
    if slots != [] {
      CountNone(slots[..|slots| - 1], role);
    }
  }

  lemma {:induction false} CountSome(slots: seq<Slot>, role: Role, i: nat)
    requires i < |slots| && Plays(slots[i], role)
    ensures Count(slots, role) > 0
  {
    if i < |slots| - 1 {
      CountSome(slots[..|slots| - 1], role, i);
    }
  }

  // ---------------------------------------------------------------------------
  // Invariants

  // Live tokens are distinct, were all issued, and `active` counts them.
  ghost predicate TokensOk(v: Sends) {
    && (forall i :: 0 <= i < |v.slots| ==> v.slots[i].token <= v.nextToken)
    && (forall i, j :: 0 <= i < j < |v.slots| && Live(v.slots[i]) ==> v.slots[i].token != v.slots[j].token)
    && v.active == Count(v.slots, AnyRole)
  }

  // A live slot is the one outstanding token of its path, which carries its bytes.
  predicate SlotOwned(v: Sends, i: nat)
    requires i < |v.slots|
  {
    var s := v.slots[i];
    Live(s) ==>
      && s.path < |v.paths| && v.paths[s.path].token == s.token
      && v.paths[s.path].queuedPackets == 1 && v.paths[s.path].queuedBytes == s.bytes
      && s.transaction <= v.nextControl && (IsRetry(s.source) ==> s.transaction != 0)
  }

  ghost predicate PathOwned(v: Sends, p: nat)
    requires p < |v.paths|
  {
    if v.paths[p].token == 0 then v.paths[p].queuedPackets == 0 && v.paths[p].queuedBytes == 0
    else exists i :: 0 <= i < |v.slots| && v.slots[i].token == v.paths[p].token && v.slots[i].path == p
  }

  ghost predicate PathsOk(v: Sends) {
    && (forall i :: 0 <= i < |v.slots| ==> SlotOwned(v, i))
    && (forall p :: 0 <= p < |v.paths| ==> PathOwned(v, p))
  }

  // Dispatched shards and live data slots correspond one to one.
  ghost predicate ShardsOk(v: Sends) {
    && (forall i :: 0 <= i < |v.slots| && Live(v.slots[i]) && v.slots[i].source == Data ==>
        v.frontier.out && v.slots[i].shard < |v.frontier.shards| && v.frontier.shards[v.slots[i].shard] == Dispatched)
    && (forall k :: 0 <= k < |v.frontier.shards| && v.frontier.out && v.frontier.shards[k] == Dispatched ==>
        Count(v.slots, ShardRole(k)) == 1)
  }

  function GetRetry(v: Sends, p: nat, source: Source): Retry
    requires p < |v.paths|
  {
    match source
    case Join => v.paths[p].join
    case Budget => v.paths[p].budget
    case _ => v.context
  }

  // The packets in flight are those of this very transaction, and with the sends
  // already made they never exceed the retry limit.
  ghost predicate RetryOk(v: Sends, p: nat, source: Source)
    requires p < |v.paths|
  {
    var r := GetRetry(v, p, source);
    && r.id <= v.nextControl && r.sends >= 0 && r.sends + r.inflight <= CONTROL_SENDS
    && (r.id == 0 ==> r.inflight == 0) && (r.pending ==> r.id != 0)
    && (r.id != 0 ==> r.inflight == Count(v.slots, ControlRole(p, source, r.id)))
  }

  ghost predicate ControlsOk(v: Sends) {
    forall p, source :: 0 <= p < |v.paths| && IsRetry(source) ==> RetryOk(v, p, source)
  }

  ghost predicate Inv(v: Sends) {
    TokensOk(v) && PathsOk(v) && (!v.closing ==> ControlsOk(v) && ShardsOk(v))
  }

  // ---------------------------------------------------------------------------
  // Transitions

  function PutRetry(v: Sends, p: nat, source: Source, r: Retry): (w: Sends)
    requires p < |v.paths|
    ensures |w.paths| == |v.paths| && w.slots == v.slots
  {
    match source
    case Join => v.(paths := v.paths[p := v.paths[p].(join := r)])
    case Budget => v.(paths := v.paths[p := v.paths[p].(budget := r)])
    case Context => v.(context := r)
    case _ => v
  }

  function GetFrame(v: Sends, p: nat, source: Source): Frame
    requires p < |v.paths|
  {
    match source
    case Reply0 => v.paths[p].reply0
    case Reply1 => v.paths[p].reply1
    case _ => GetRetry(v, p, source).frame
  }

  function PutFrame(v: Sends, p: nat, source: Source, frame: Frame): Sends
    requires p < |v.paths|
  {
    match source
    case Reply0 => v.(paths := v.paths[p := v.paths[p].(reply0 := frame)])
    case Reply1 => v.(paths := v.paths[p := v.paths[p].(reply1 := frame)])
    case Data => v
    case _ => PutRetry(v, p, source, GetRetry(v, p, source).(frame := frame))
  }

  // installIntent may fill this slot for this path.
  predicate CanInstall(v: Sends, i: nat, p: nat) {
    i < |v.slots| && v.slots[i].token == 0 && p < |v.paths| && v.paths[p].token == 0 && v.nextToken < MAX_U64
  }

  // installIntent: the packet's slot, path and token become one.
  function Install(v: Sends, i: nat, s: Slot): Sends
    requires CanInstall(v, i, s.path)
  {
    var token := v.nextToken + 1;
    var path := v.paths[s.path];
    v.(nextToken := token, active := v.active + 1, slots := v.slots[i := s.(token := token)],
       paths := v.paths[s.path := path.(token := token, queuedPackets := path.queuedPackets + 1,
                                        queuedBytes := path.queuedBytes + s.bytes)])
  }

  // takeOwnedData
  function TakeData(v: Sends, i: nat, s: Slot): Sends
    requires CanInstall(v, i, s.path)
  {
    Install(v, i, s).(frontier := DispatchShard(v.frontier, s.shard))
  }

  predicate DataReady(v: Sends, s: Slot) {
    && s.source == Data && s.transaction == 0 && !v.closing
    && v.frontier.out && s.shard < |v.frontier.shards| && v.frontier.shards[s.shard] == Waiting
  }

  // takeOwnedControl
  function TakeControl(v: Sends, i: nat, s: Slot): Sends
    requires CanInstall(v, i, s.path)
  {
    var w := if IsRetry(s.source) then Reserve(v, s.path, s.source) else v;
    Install(MarkDispatched(w, s.path, s.source), i, s)
  }

  function Reserve(v: Sends, p: nat, source: Source): Sends
    requires p < |v.paths|
  {
    var r := GetRetry(v, p, source);
    PutRetry(v, p, source, r.(inflight := r.inflight + 1))
  }

  function MarkDispatched(v: Sends, p: nat, source: Source): Sends
    requires p < |v.paths|
  {
    PutFrame(v, p, source, GetFrame(v, p, source).(dispatched := true, queued := false))
  }

  function Limit(v: Sends, p: nat, source: Source): int
    requires p < |v.paths|
  {
    if source == Join && v.paths[p].firstPhase then CONTROL_SENDS - 1 else CONTROL_SENDS
  }

  predicate ControlReady(v: Sends, s: Slot)
    requires s.path < |v.paths|
  {
    && s.source != Data && !v.closing
    && s.version == GetFrame(v, s.path, s.source).version
    && (!IsRetry(s.source) ==> s.transaction == 0)
    && (IsRetry(s.source) ==>
        var r := GetRetry(v, s.path, s.source);
        s.transaction == r.id != 0 && r.pending && r.sends + r.inflight < Limit(v, s.path, s.source))
  }

  // What CompleteSend frees in every case.
  function Vacate(v: Sends, i: nat): Sends
    requires i < |v.slots| && v.slots[i].path < |v.paths|
  {
    var s, path := v.slots[i], v.paths[v.slots[i].path];
    v.(slots := v.slots[i := FREE], active := v.active - 1,
       paths := v.paths[s.path := path.(token := if path.token == s.token then 0 else path.token,
                                        queuedPackets := path.queuedPackets - 1,
                                        queuedBytes := path.queuedBytes - s.bytes)])
  }

  // completeOwnedControl, for the transaction that the slot still serves.
  function Settle(v: Sends, s: Slot, attempted: bool, finishedAt: int): Sends
    requires s.path < |v.paths|
  {
    if IsRetry(s.source) then
      var r := GetRetry(v, s.path, s.source);
      if r.id != s.transaction then v
      else
        var r' := r.(inflight := r.inflight - 1, sends := r.sends + if attempted then 1 else 0);
        PutRetry(v, s.path, s.source,
          if r.frame.version != s.version then r'
          else r'.(frame := r'.frame.(dispatched := false), next := finishedAt + CONTROL_RETRY))
    else
      var frame := GetFrame(v, s.path, s.source);
      if frame.version != s.version then v else PutFrame(v, s.path, s.source, frame.(dispatched := false))
  }

  // CompleteSend for a live token whose packet was released by its worker.
  function Complete(v: Sends, i: nat, attempted: bool, failure: bool, finishedAt: int): Sends
    requires i < |v.slots| && v.slots[i].path < |v.paths|
  {
    var w, s := Vacate(v, i), v.slots[i];
    if v.closing then w
    else if s.source == Data then w.(frontier := FinishShard(w.frontier, s.shard, failure))
    else Settle(w, s, attempted, finishedAt)
  }

  // A waiting shard ran out of queue residence; it never had a token.
  function ExpireShard(v: Sends, shard: nat): Sends {
    if v.closing || shard >= |v.frontier.shards| || v.frontier.shards[shard] != Waiting then v
    else v.(frontier := FinishShard(v.frontier, shard, true))
  }

  // A new control transaction replaces whatever its place held.
  function Renew(v: Sends, p: nat, source: Source, now: int): Sends
    requires p < |v.paths|
  {
    if !IsRetry(source) || v.nextControl == MAX_U64 then v
    else
      var w := v.(nextControl := v.nextControl + 1);
      PutRetry(w, p, source, NO_RETRY.(id := v.nextControl + 1, pending := true, deadline := now + CONTROL_LIFETIME, next := now))
  }

  // frameSet: a new packet under a new version, waiting to be sent.
  function SetFrame(v: Sends, p: nat, source: Source, now: int, length: nat): Sends
    requires p < |v.paths|
  {
    if v.nextControl == MAX_U64 then v
    else
      var w := v.(nextControl := v.nextControl + 1);
      PutFrame(w, p, source, Frame(v.nextControl + 1, true, false, now, length))
  }

  // failQueuedControl: the waiting frame is given up and its retry put off.
  function FailFrame(v: Sends, p: nat, source: Source, now: int): Sends
    requires p < |v.paths|
  {
    if source == Data then v
    else if IsRetry(source) then
      var r := GetRetry(v, p, source);
      PutRetry(v, p, source, r.(frame := r.frame.(queued := false), next := now + CONTROL_RETRY))
    else PutFrame(v, p, source, GetFrame(v, p, source).(queued := false))
  }

  // A due retransmission waits to be sent again.
  function Requeue(v: Sends, p: nat, source: Source): (w: Sends)
    requires p < |v.paths|
    ensures |w.paths| == |v.paths|
  {
    if !IsRetry(source) then v
    else
      var r := GetRetry(v, p, source);
      PutRetry(v, p, source, r.(frame := r.frame.(queued := true, queuedAt := r.next)))
  }

  // A completed attempt keeps the path's next send at its distance.
  function Pace(v: Sends, p: nat, at: int): Sends
    requires p < |v.paths|
  {
    if at <= v.paths[p].pacedAt then v else v.(paths := v.paths[p := v.paths[p].(pacedAt := at)])
  }

  // A control place is cleared, as when a path fails, expires or is replaced.
  function Clear(v: Sends, p: nat, source: Source): Sends
    requires p < |v.paths|
  {
    if IsRetry(source) then PutRetry(v, p, source, NO_RETRY) else PutFrame(v, p, source, NO_FRAME)
  }

  // ---------------------------------------------------------------------------
  // Installing an intent

  lemma InstallTokens(v: Sends, i: nat, s: Slot)
    requires TokensOk(v) && CanInstall(v, i, s.path)
    ensures TokensOk(Install(v, i, s))
  {
    hide Count;
    CountUpdate(v.slots, AnyRole, i, s.(token := v.nextToken + 1));
  }

  lemma InstallPaths(v: Sends, i: nat, s: Slot)
    requires PathsOk(v) && CanInstall(v, i, s.path)
    requires s.transaction <= v.nextControl && (IsRetry(s.source) ==> s.transaction != 0)
    ensures PathsOk(Install(v, i, s))
  {
    var w := Install(v, i, s);
    assert PathOwned(v, s.path);
    forall j | 0 <= j < |w.slots|
      ensures SlotOwned(w, j)
    {
      assert SlotOwned(v, j);
    }
    forall p | 0 <= p < |w.paths|
      ensures PathOwned(w, p)
    {
      assert PathOwned(v, p);
      if p == s.path {
        assert w.slots[i].token == w.paths[p].token && w.slots[i].path == p;
      } else if v.paths[p].token != 0 {
        var j :| 0 <= j < |v.slots| && v.slots[j].token == v.paths[p].token && v.slots[j].path == p;
        assert w.slots[j] == v.slots[j];
      }
    }
  }

  // A new slot counts for the transaction that it names, and for no other.
  lemma InstallControls(v: Sends, w: Sends, i: nat, s: Slot)
    requires ControlsOk(v) && CanInstall(v, i, s.path) && |w.paths| == |v.paths| && w.nextControl == v.nextControl
    requires w.slots == v.slots[i := s] && Live(s)
    requires forall p, source :: 0 <= p < |v.paths| && IsRetry(source) ==>
      var r, r' := GetRetry(v, p, source), GetRetry(w, p, source);
      var here := source == s.source && (source == Context || p == s.path);
      && r'.id == r.id && r'.sends == r.sends && r'.pending == r.pending
      && r'.inflight == r.inflight + (if here then 1 else 0)
      && (here ==> s.transaction == r.id != 0 && r.sends + r.inflight < CONTROL_SENDS)
    ensures ControlsOk(w)
  {
    hide Count, GetRetry;
    forall p, source | 0 <= p < |w.paths| && IsRetry(source)
      ensures RetryOk(w, p, source)
    {
      assert RetryOk(v, p, source);
      CountUpdate(v.slots, ControlRole(p, source, GetRetry(v, p, source).id), i, s);
    }
  }

  lemma InstallShards(v: Sends, w: Sends, i: nat, s: Slot)
    requires ShardsOk(v) && CanInstall(v, i, s.path) && w.slots == v.slots[i := s]
    requires s.source != Data && w.frontier == v.frontier
    ensures ShardsOk(w)
  {
    hide Count;
    forall k | 0 <= k < |w.frontier.shards|
      ensures Count(w.slots, ShardRole(k)) == Count(v.slots, ShardRole(k))
    {
      CountUpdate(v.slots, ShardRole(k), i, s);
    }
  }

  lemma TakeDataShards(v: Sends, i: nat, s: Slot)
    requires ShardsOk(v) && CanInstall(v, i, s.path) && DataReady(v, s)
    ensures ShardsOk(TakeData(v, i, s))
  {
    hide Count;
    var w := TakeData(v, i, s);
    forall k | 0 <= k < |w.frontier.shards| && w.frontier.shards[k] == Dispatched
      ensures Count(w.slots, ShardRole(k)) == 1
    {
      CountUpdate(v.slots, ShardRole(k), i, w.slots[i]);
      if k == s.shard {
        assert forall j :: 0 <= j < |v.slots| ==> !Plays(v.slots[j], ShardRole(k));
        CountNone(v.slots, ShardRole(k));
      }
    }
  }

  lemma TakeDataKeeps(v: Sends, i: nat, s: Slot)
    requires Inv(v) && CanInstall(v, i, s.path) && DataReady(v, s)
    ensures Inv(TakeData(v, i, s))
  {
    hide TokensOk, PathsOk, ControlsOk, ShardsOk;
    InstallTokens(v, i, s);
    InstallPaths(v, i, s);
    InstallControls(v, Install(v, i, s), i, s.(token := v.nextToken + 1));
    TakeDataShards(v, i, s);
    OnlyFrontier(Install(v, i, s), TakeData(v, i, s));
  }

  // Tokens, paths and controls do not look at the frontier.
  lemma OnlyFrontier(v: Sends, w: Sends)
    requires w == v.(frontier := w.frontier)
    ensures TokensOk(v) ==> TokensOk(w)
    ensures PathsOk(v) ==> PathsOk(w)
    ensures ControlsOk(v) ==> ControlsOk(w)
  {
    if PathsOk(v) {
      SameSlots(v, w);
    }
    if ControlsOk(v) {
      SameRetries(v, w);
    }
  }

  // The slots stay and the paths keep what they owe them.
  lemma SameSlots(v: Sends, w: Sends)
    requires PathsOk(v) && w.slots == v.slots && |w.paths| == |v.paths| && w.nextControl >= v.nextControl
    requires forall p :: 0 <= p < |v.paths| ==>
      && w.paths[p].token == v.paths[p].token && w.paths[p].queuedPackets == v.paths[p].queuedPackets
      && w.paths[p].queuedBytes == v.paths[p].queuedBytes
    ensures PathsOk(w)
  {
    forall i | 0 <= i < |w.slots|
      ensures SlotOwned(w, i)
    {
      assert SlotOwned(v, i);
    }
    forall p | 0 <= p < |w.paths|
      ensures PathOwned(w, p)
    {
      assert PathOwned(v, p);
    }
  }

  // The slots stay, and so do the counts of each transaction, unless it is new.
  lemma SameRetries(v: Sends, w: Sends)
    requires ControlsOk(v) && w.slots == v.slots && |w.paths| == |v.paths| && w.nextControl >= v.nextControl
    requires forall p, source :: 0 <= p < |v.paths| && IsRetry(source) ==>
      var r, r' := GetRetry(v, p, source), GetRetry(w, p, source);
      || (r'.id == r.id && r'.sends == r.sends && r'.inflight == r.inflight && (r'.pending ==> r.pending))
      || (r'.sends == 0 && r'.inflight == 0 && r'.id == 0 && !r'.pending)
      || (r'.sends == 0 && r'.inflight == 0 && v.nextControl < r'.id <= w.nextControl && Unserved(v, r'.id))
    ensures ControlsOk(w)
  {
    hide Count, GetRetry;
    forall p, source | 0 <= p < |w.paths| && IsRetry(source)
      ensures RetryOk(w, p, source)
    {
      assert RetryOk(v, p, source);
      var r := GetRetry(w, p, source);
      if r.id != GetRetry(v, p, source).id && r.id != 0 {
        CountNone(v.slots, ControlRole(p, source, r.id));
      }
    }
  }

  predicate Unserved(v: Sends, id: U64) {
    forall i :: 0 <= i < |v.slots| && Live(v.slots[i]) ==> v.slots[i].transaction != id
  }

  lemma FreshIsUnserved(v: Sends, id: U64)
    requires PathsOk(v) && id > v.nextControl
    ensures Unserved(v, id)
  {
    forall i | 0 <= i < |v.slots| && Live(v.slots[i])
      ensures v.slots[i].transaction != id
    {
      assert SlotOwned(v, i);
    }
  }

  lemma TakeControlKeeps(v: Sends, i: nat, s: Slot)
    requires Inv(v) && CanInstall(v, i, s.path) && ControlReady(v, s)
    ensures Inv(TakeControl(v, i, s))
  {
    hide TokensOk, PathsOk, ControlsOk, ShardsOk, Count, PutRetry;
    var u := if IsRetry(s.source) then Reserve(v, s.path, s.source) else v;
    var w := MarkDispatched(u, s.path, s.source);
    Marked(v, s);
    MarkedOnlyControls(v, w);
    ReadyIdOk(v, s);
    InstallTokens(w, i, s);
    InstallPaths(w, i, s);
    InstallControls(v, TakeControl(v, i, s), i, s.(token := v.nextToken + 1));
    InstallShards(v, TakeControl(v, i, s), i, s.(token := v.nextToken + 1));
  }

  lemma ReadyIdOk(v: Sends, s: Slot)
    requires ControlsOk(v) && s.path < |v.paths| && ControlReady(v, s)
    ensures s.transaction <= v.nextControl && (IsRetry(s.source) ==> s.transaction != 0)
    ensures IsRetry(s.source) ==>
      var r := GetRetry(v, s.path, s.source); r.id == s.transaction && r.sends + r.inflight < CONTROL_SENDS
  {
    if IsRetry(s.source) {
      assert RetryOk(v, s.path, s.source);
    }
  }

  // Only the control places differ; the tokens and loads of the paths do not.
  predicate OnlyControls(v: Sends, w: Sends) {
    && w == v.(paths := w.paths, context := w.context) && |w.paths| == |v.paths|
    && forall p :: 0 <= p < |v.paths| ==>
      && w.paths[p].token == v.paths[p].token && w.paths[p].queuedPackets == v.paths[p].queuedPackets
      && w.paths[p].queuedBytes == v.paths[p].queuedBytes
  }

  lemma MarkedOnlyControls(v: Sends, w: Sends)
    requires OnlyControls(v, w)
    ensures TokensOk(v) ==> TokensOk(w)
    ensures PathsOk(v) ==> PathsOk(w)
  {
    if PathsOk(v) {
      SameSlots(v, w);
    }
  }

  // Marking a control dispatched reserves one of its sends.
  lemma Marked(v: Sends, s: Slot)
    requires s.path < |v.paths| && s.source != Data
    ensures var u := if IsRetry(s.source) then Reserve(v, s.path, s.source) else v;
      var w := MarkDispatched(u, s.path, s.source);
      && OnlyControls(v, w)
      && forall p, source :: 0 <= p < |v.paths| && IsRetry(source) ==>
        var r, r' := GetRetry(v, p, source), GetRetry(w, p, source);
        var here := source == s.source && (source == Context || p == s.path);
        r'.id == r.id && r'.sends == r.sends && r'.pending == r.pending
        && r'.inflight == r.inflight + (if here then 1 else 0)
  {
  }

  // ---------------------------------------------------------------------------
  // Completing a send

  lemma VacateTokens(v: Sends, i: nat)
    requires TokensOk(v) && i < |v.slots| && Live(v.slots[i]) && v.slots[i].path < |v.paths|
    ensures TokensOk(Vacate(v, i))
  {
    hide Count;
    CountUpdate(v.slots, AnyRole, i, FREE);
  }

  lemma VacatePaths(v: Sends, i: nat)
    requires TokensOk(v) && PathsOk(v) && i < |v.slots| && Live(v.slots[i]) && v.slots[i].path < |v.paths|
    ensures PathsOk(Vacate(v, i))
    ensures Vacate(v, i).paths[v.slots[i].path].token == 0
  {
    hide Count;
    var w := Vacate(v, i);
    assert SlotOwned(v, i);
    forall j | 0 <= j < |w.slots|
      ensures SlotOwned(w, j)
    {
      assert SlotOwned(v, j);
    }
    forall p | 0 <= p < |w.paths|
      ensures PathOwned(w, p)
    {
      assert PathOwned(v, p);
      if p != v.slots[i].path && v.paths[p].token != 0 {
        var j :| 0 <= j < |v.slots| && v.slots[j].token == v.paths[p].token && v.slots[j].path == p;
        assert w.slots[j] == v.slots[j];
      }
    }
  }

  // The freed slot no longer counts for its transaction.
  lemma VacateControls(v: Sends, w: Sends, i: nat)
    requires ControlsOk(v) && i < |v.slots| && Live(v.slots[i]) && |w.paths| == |v.paths| && w.nextControl == v.nextControl
    requires w.slots == v.slots[i := FREE]
    requires forall p, source :: 0 <= p < |v.paths| && IsRetry(source) ==>
      var r, r', s := GetRetry(v, p, source), GetRetry(w, p, source), v.slots[i];
      var here := source == s.source && (source == Context || p == s.path) && r.id == s.transaction && r.id != 0;
      && r'.id == r.id && r'.pending == r.pending
      && r'.inflight == r.inflight - (if here then 1 else 0)
      && r.sends <= r'.sends <= r.sends + (if here then 1 else 0)
    ensures ControlsOk(w)
  {
    hide Count, GetRetry;
    forall p, source | 0 <= p < |w.paths| && IsRetry(source)
      ensures RetryOk(w, p, source)
    {
      assert RetryOk(v, p, source);
      CountUpdate(v.slots, ControlRole(p, source, GetRetry(v, p, source).id), i, FREE);
    }
  }

  lemma VacateShards(v: Sends, w: Sends, i: nat)
    requires ShardsOk(v) && i < |v.slots| && w.slots == v.slots[i := FREE]
    requires v.slots[i].source != Data && w.frontier == v.frontier
    ensures ShardsOk(w)
  {
    hide Count;
    forall k | 0 <= k < |w.frontier.shards|
      ensures Count(w.slots, ShardRole(k)) == Count(v.slots, ShardRole(k))
    {
      CountUpdate(v.slots, ShardRole(k), i, FREE);
    }
  }

  lemma Settled(v: Sends, s: Slot, attempted: bool, finishedAt: int)
    requires s.path < |v.paths| && s.source != Data
    ensures var w := Settle(v, s, attempted, finishedAt);
      && OnlyControls(v, w)
      && forall p, source :: 0 <= p < |v.paths| && IsRetry(source) ==>
        var r, r' := GetRetry(v, p, source), GetRetry(w, p, source);
        var here := source == s.source && (source == Context || p == s.path) && r.id == s.transaction;
        && r'.id == r.id && r'.pending == r.pending && r'.inflight == r.inflight - (if here then 1 else 0)
        && r'.sends == r.sends + (if here && attempted then 1 else 0)
  {
    hide OnlyControls, Settle, GetRetry;
    SettledOnly(v, s, attempted, finishedAt);
    forall p, source | 0 <= p < |v.paths| && IsRetry(source)
      ensures var r, r' := GetRetry(v, p, source), GetRetry(Settle(v, s, attempted, finishedAt), p, source);
        var here := source == s.source && (source == Context || p == s.path) && r.id == s.transaction;
        && r'.id == r.id && r'.pending == r.pending && r'.inflight == r.inflight - (if here then 1 else 0)
        && r'.sends == r.sends + (if here && attempted then 1 else 0)
    {
      SettledRetry(v, s, attempted, finishedAt, p, source);
    }
  }

  lemma SettledOnly(v: Sends, s: Slot, attempted: bool, finishedAt: int)
    requires s.path < |v.paths| && s.source != Data
    ensures OnlyControls(v, Settle(v, s, attempted, finishedAt))
  {
  }

  lemma SettledRetry(v: Sends, s: Slot, attempted: bool, finishedAt: int, p: nat, source: Source)
    requires s.path < |v.paths| && s.source != Data && p < |v.paths| && IsRetry(source)
    ensures |Settle(v, s, attempted, finishedAt).paths| == |v.paths|
    ensures var r, r' := GetRetry(v, p, source), GetRetry(Settle(v, s, attempted, finishedAt), p, source);
      var here := source == s.source && (source == Context || p == s.path) && r.id == s.transaction;
      && r'.id == r.id && r'.pending == r.pending && r'.inflight == r.inflight - (if here then 1 else 0)
      && r'.sends == r.sends + (if here && attempted then 1 else 0)
  {
  }

  lemma VacateFrame(v: Sends, i: nat)
    requires i < |v.slots| && v.slots[i].path < |v.paths|
    ensures var w := Vacate(v, i);
      && |w.paths| == |v.paths| && w.nextControl == v.nextControl && w.frontier == v.frontier && w.closing == v.closing
      && forall p, source :: 0 <= p < |v.paths| && IsRetry(source) ==> GetRetry(w, p, source) == GetRetry(v, p, source)
  {
  }

  lemma CompleteControlKeeps(v: Sends, i: nat, attempted: bool, finishedAt: int)
    requires Inv(v) && !v.closing
    requires i < |v.slots| && Live(v.slots[i]) && v.slots[i].path < |v.paths| && v.slots[i].source != Data
    ensures Inv(Settle(Vacate(v, i), v.slots[i], attempted, finishedAt))
  {
    hide TokensOk, PathsOk, ControlsOk, ShardsOk, Settle, GetRetry;
    var u, s := Vacate(v, i), v.slots[i];
    var w := Settle(u, s, attempted, finishedAt);
    LiveTransaction(v, i);
    VacateTokens(v, i);
    VacatePaths(v, i);
    VacateFrame(v, i);
    Settled(u, s, attempted, finishedAt);
    MarkedOnlyControls(u, w);
    VacateControls(v, w, i);
    VacateShards(v, w, i);
  }

  lemma LiveTransaction(v: Sends, i: nat)
    requires PathsOk(v) && i < |v.slots| && Live(v.slots[i])
    ensures v.slots[i].path < |v.paths| && (IsRetry(v.slots[i].source) ==> v.slots[i].transaction != 0)
  {
    assert SlotOwned(v, i);
  }

  // Completing a data slot ends its shard; the last shard ends its group.
  lemma CompleteDataShards(v: Sends, w: Sends, i: nat, failure: bool)
    requires ShardsOk(v) && i < |v.slots| && Live(v.slots[i]) && v.slots[i].source == Data
    requires w.slots == v.slots[i := FREE] && w.frontier == FinishShard(v.frontier, v.slots[i].shard, failure)
    requires v.frontier.spoiled != [] && v.frontier.remaining == Unfinished(v.frontier.shards)
    ensures ShardsOk(w)
  {
    hide Count, Unfinished;
    var shard := v.slots[i].shard;
    UnfinishedUpdate(v.frontier.shards, shard, Terminal);
    forall j | 0 <= j < |w.slots| && Live(w.slots[j]) && w.slots[j].source == Data
      ensures w.slots[j].shard != shard && w.frontier.out
    {
      if w.slots[j].shard == shard {
        TwoCarriers(v.slots, shard, i, j);
        assert false;
      }
      StillWaiting(w.frontier.shards, w.slots[j].shard);
    }
    forall k | 0 <= k < |w.frontier.shards| && w.frontier.shards[k] == Dispatched
      ensures Count(w.slots, ShardRole(k)) == Count(v.slots, ShardRole(k))
    {
      CountUpdate(v.slots, ShardRole(k), i, FREE);
    }
  }

  lemma TwoCarriers(slots: seq<Slot>, shard: nat, i: nat, j: nat)
    requires i < |slots| && j < |slots| && i != j && Plays(slots[i], ShardRole(shard)) && Plays(slots[j], ShardRole(shard))
    ensures Count(slots, ShardRole(shard)) >= 2
  {
    hide Count;
    CountUpdate(slots, ShardRole(shard), i, FREE);
    CountSome(slots[i := FREE], ShardRole(shard), j);
  }

  lemma {:induction false} StillWaiting(shards: seq<ShardState>, k: nat)
    requires k < |shards| && shards[k] != Terminal
    ensures Unfinished(shards) > 0
  {
    if k < |shards| - 1 {
      StillWaiting(shards[..|shards| - 1], k);
    }
  }

  lemma CompleteDataKeeps(v: Sends, i: nat, failure: bool)
    requires Inv(v) && i < |v.slots| && Live(v.slots[i]) && v.slots[i].path < |v.paths|
    requires v.slots[i].source == Data && !v.closing
    requires v.frontier.spoiled != [] && v.frontier.remaining == Unfinished(v.frontier.shards)
    ensures Inv(Complete(v, i, true, failure, 0))
  {
    hide TokensOk, PathsOk, ControlsOk, ShardsOk, FinishShard, Unfinished;
    var w := Complete(v, i, true, failure, 0);
    VacateTokens(v, i);
    VacatePaths(v, i);
    VacateFrame(v, i);
    VacateControls(v, Vacate(v, i), i);
    OnlyFrontier(Vacate(v, i), w);
    CompleteDataShards(v, w, i, failure);
  }

  // A completion frees its slot and path, whatever else it does.
  lemma CompleteKeeps(v: Sends, i: nat, attempted: bool, failure: bool, finishedAt: int)
    requires Inv(v) && i < |v.slots| && Live(v.slots[i])
    requires v.frontier.out ==> v.frontier.spoiled != [] && v.frontier.remaining == Unfinished(v.frontier.shards)
    ensures v.slots[i].path < |v.paths| && Inv(Complete(v, i, attempted, failure, finishedAt))
  {
    hide TokensOk, PathsOk, ControlsOk, Unfinished, FinishShard;
    LiveTransaction(v, i);
    if v.closing {
      VacateTokens(v, i);
      VacatePaths(v, i);
    } else if v.slots[i].source == Data {
      CompleteDataKeeps(v, i, failure);
    } else {
      CompleteControlKeeps(v, i, attempted, finishedAt);
    }
  }

  // ---------------------------------------------------------------------------
  // Runs

  // Everything that happens to the send state, with the effects of the control
  // protocol on its own frames reduced to renewing, rewriting and clearing them.
  datatype Move =
    | AcceptMove(payload: seq<Packing.Byte>, now: int, handle: SenderRun.Handle)
    | SendMove(shards: nat)
    | TakeDataMove(slot: nat, s: Slot)
    | TakeControlMove(slot: nat, s: Slot)
    | CompleteMove(slot: nat, token: U64, attempted: bool, failure: bool, finishedAt: int)
    | ExpireMove(shard: nat)
    | RenewMove(path: nat, source: Source, now: int)
    | FrameMove(path: nat, source: Source, now: int, length: nat)
    | FailMove(path: nat, source: Source, now: int)
    | RequeueMove(path: nat, source: Source)
    | PaceMove(path: nat, at: int)
    | ClearMove(path: nat, source: Source)
    | RouteMove(path: nat, incarnation: Incarnation, joining: Incarnation, firstPhase: bool)
    | CloseMove

  function Make(v: Sends, limits: AggregationQueue.QueueLimits, prm: Packing.Parameters, m: Move): Sends
    requires limits.InBounds()
  {
    match m
    case AcceptMove(payload, now, handle) =>
      if v.closing then v else v.(frontier := AcceptOne(v.frontier, limits, prm, payload, now, handle))
    case SendMove(shards) =>
      if v.closing then v else v.(frontier := SendGroup(v.frontier, limits, prm, shards))
    case TakeDataMove(i, s) =>
      if CanInstall(v, i, s.path) && DataReady(v, s) then TakeData(v, i, s) else v
    case TakeControlMove(i, s) =>
      if CanInstall(v, i, s.path) && ControlReady(v, s) then TakeControl(v, i, s) else v
    case CompleteMove(i, token, attempted, failure, finishedAt) =>
      if i < |v.slots| && token != 0 && v.slots[i].token == token && v.slots[i].path < |v.paths|
      then Complete(v, i, attempted, failure, finishedAt) else v
    case ExpireMove(shard) => ExpireShard(v, shard)
    case RenewMove(p, source, now) => if p < |v.paths| then Renew(v, p, source, now) else v
    case FrameMove(p, source, now, length) => if p < |v.paths| then SetFrame(v, p, source, now, length) else v
    case FailMove(p, source, now) => if p < |v.paths| then FailFrame(v, p, source, now) else v
    case RequeueMove(p, source) => if p < |v.paths| then Requeue(v, p, source) else v
    case PaceMove(p, at) => if p < |v.paths| then Pace(v, p, at) else v
    case ClearMove(p, source) => if p < |v.paths| then Clear(v, p, source) else v
    case RouteMove(p, incarnation, joining, firstPhase) =>
      if p >= |v.paths| then v
      else v.(paths := v.paths[p := v.paths[p].(incarnation := incarnation, joining := joining, firstPhase := firstPhase)])
    case CloseMove => v.(closing := true)
  }

  function Initial(slots: nat, paths: nat): Sends {
    Sends(seq(slots, _ => FREE),
          seq(paths, _ => NO_PATH),
          NO_RETRY, 0, 0, 0, IDLE, false)
  }

  function RunMoves(
    slots: nat, paths: nat, limits: AggregationQueue.QueueLimits, prm: Packing.Parameters, moves: seq<Move>): Sends
    requires limits.InBounds()
  {
    if moves == [] then Initial(slots, paths)
    else Make(RunMoves(slots, paths, limits, prm, moves[..|moves| - 1]), limits, prm, moves[|moves| - 1])
  }

  ghost predicate SendsOk(v: Sends, limits: AggregationQueue.QueueLimits, prm: Packing.Parameters) {
    Inv(v) && SendFence.Ok(v.frontier, limits, prm)
  }

  lemma InitialOk(slots: nat, paths: nat)
    ensures Inv(Initial(slots, paths))
  {
    var v := Initial(slots, paths);
    CountNone(v.slots, AnyRole);
    assert forall p :: 0 <= p < |v.paths| ==> PathOwned(v, p);
  }

  lemma FrontierFacts(f: Frontier, limits: AggregationQueue.QueueLimits, prm: Packing.Parameters)
    requires SendFence.Ok(f, limits, prm)
    ensures f.out ==> f.spoiled != [] && f.remaining == Unfinished(f.shards)
  {
    hide SenderRun.SenderOk, GroupAt, Contiguous, FailureOk, Unfinished;
  }

  // The queue and a new group leave tokens and dispatched shards alone.
  lemma FeedKeeps(v: Sends, f: Frontier)
    requires Inv(v)
    requires (f.out == v.frontier.out && f.shards == v.frontier.shards)
      || (!v.frontier.out && forall k :: 0 <= k < |f.shards| ==> f.shards[k] == Waiting)
    ensures Inv(v.(frontier := f))
  {
    hide TokensOk, PathsOk, ControlsOk, Count;
    OnlyFrontier(v, v.(frontier := f));
  }

  lemma ExpireKeeps(v: Sends, shard: nat)
    requires Inv(v)
    requires v.frontier.out ==> v.frontier.spoiled != [] && v.frontier.remaining == Unfinished(v.frontier.shards)
    ensures Inv(ExpireShard(v, shard))
  {
    hide TokensOk, PathsOk, ControlsOk, Count, Unfinished;
    var w := ExpireShard(v, shard);
    OnlyFrontier(v, w);
    if w != v && v.frontier.out {
      UnfinishedUpdate(v.frontier.shards, shard, Terminal);
      forall j | 0 <= j < |w.slots| && Live(w.slots[j]) && w.slots[j].source == Data
        ensures w.frontier.out
      {
        StillWaiting(w.frontier.shards, w.slots[j].shard);
      }
    }
  }

  lemma ControlMoveKeeps(v: Sends, w: Sends)
    requires Inv(v) && w == v.(paths := w.paths, context := w.context, nextControl := w.nextControl)
    requires |w.paths| == |v.paths| && w.nextControl >= v.nextControl
    requires forall p :: 0 <= p < |v.paths| ==>
      && w.paths[p].token == v.paths[p].token && w.paths[p].queuedPackets == v.paths[p].queuedPackets
      && w.paths[p].queuedBytes == v.paths[p].queuedBytes
    requires forall p, source :: 0 <= p < |v.paths| && IsRetry(source) ==>
      var r, r' := GetRetry(v, p, source), GetRetry(w, p, source);
      || (r'.id == r.id && r'.sends == r.sends && r'.inflight == r.inflight && (r'.pending ==> r.pending))
      || (r'.sends == 0 && r'.inflight == 0 && r'.id == 0 && !r'.pending)
      || (r'.sends == 0 && r'.inflight == 0 && v.nextControl < r'.id <= w.nextControl)
    ensures Inv(w)
  {
    hide Count, GetRetry;
    SameSlots(v, w);
    if !v.closing {
      forall id: U64 | id > v.nextControl
        ensures Unserved(v, id)
      {
        FreshIsUnserved(v, id);
      }
      SameRetries(v, w);
    }
  }

  lemma RenewKeeps(v: Sends, p: nat, source: Source, now: int)
    requires Inv(v) && p < |v.paths|
    ensures Inv(Renew(v, p, source, now)) && Renew(v, p, source, now).frontier == v.frontier
  {
    hide Inv;
    ControlMoveKeeps(v, Renew(v, p, source, now));
  }

  lemma SetFrameKeeps(v: Sends, p: nat, source: Source, now: int, length: nat)
    requires Inv(v) && p < |v.paths|
    ensures Inv(SetFrame(v, p, source, now, length)) && SetFrame(v, p, source, now, length).frontier == v.frontier
  {
    hide Inv;
    ControlMoveKeeps(v, SetFrame(v, p, source, now, length));
  }

  lemma FailFrameKeeps(v: Sends, p: nat, source: Source, now: int)
    requires Inv(v) && p < |v.paths|
    ensures Inv(FailFrame(v, p, source, now)) && FailFrame(v, p, source, now).frontier == v.frontier
  {
    hide Inv;
    ControlMoveKeeps(v, FailFrame(v, p, source, now));
  }

  lemma RequeueKeeps(v: Sends, p: nat, source: Source)
    requires Inv(v) && p < |v.paths|
    ensures Inv(Requeue(v, p, source)) && Requeue(v, p, source).frontier == v.frontier
  {
    hide Inv;
    ControlMoveKeeps(v, Requeue(v, p, source));
  }

  lemma PaceKeeps(v: Sends, p: nat, at: int)
    requires Inv(v) && p < |v.paths|
    ensures Inv(Pace(v, p, at)) && Pace(v, p, at).frontier == v.frontier
  {
    hide Inv;
    ControlMoveKeeps(v, Pace(v, p, at));
  }

  lemma ClearKeeps(v: Sends, p: nat, source: Source)
    requires Inv(v) && p < |v.paths|
    ensures Inv(Clear(v, p, source)) && Clear(v, p, source).frontier == v.frontier
  {
    hide Inv;
    ControlMoveKeeps(v, Clear(v, p, source));
  }

  lemma MoveKeeps(v: Sends, limits: AggregationQueue.QueueLimits, prm: Packing.Parameters, m: Move)
    requires prm.Valid() && limits.InBounds() && SendsOk(v, limits, prm)
    ensures SendsOk(Make(v, limits, prm, m), limits, prm)
  {
    hide Inv, SendFence.Ok, Unfinished, DispatchShard, FinishShard, TakeControl, Settle, Renew, SetFrame, FailFrame, Requeue, Pace, Clear, Count,
      ControlReady, Vacate;
    FrontierFacts(v.frontier, limits, prm);
    match m
    case AcceptMove(payload, now, handle) =>
      AcceptKeeps(v.frontier, limits, prm, payload, now, handle);
      FeedKeeps(v, AcceptOne(v.frontier, limits, prm, payload, now, handle));
    case SendMove(shards) =>
      SendKeeps(v.frontier, limits, prm, shards);
      FeedKeeps(v, SendGroup(v.frontier, limits, prm, shards));
    case TakeDataMove(i, s) =>
      DispatchKeeps(v.frontier, limits, prm, s.shard);
      if CanInstall(v, i, s.path) && DataReady(v, s) {
        TakeDataKeeps(v, i, s);
      }
    case TakeControlMove(i, s) =>
      if CanInstall(v, i, s.path) && ControlReady(v, s) {
        TakeControlKeeps(v, i, s);
        TakeControlFrontier(v, i, s);
      }
    case CompleteMove(i, token, attempted, failure, finishedAt) =>
      if i < |v.slots| && token != 0 && v.slots[i].token == token && v.slots[i].path < |v.paths| {
        CompleteKeeps(v, i, attempted, failure, finishedAt);
        FinishKeeps(v.frontier, limits, prm, v.slots[i].shard, failure);
        CompleteFrontier(v, i, attempted, failure, finishedAt);
      }
    case ExpireMove(shard) =>
      ExpireKeeps(v, shard);
      FinishKeeps(v.frontier, limits, prm, shard, true);
    case RenewMove(p, source, now) =>
      if p < |v.paths| {
        RenewKeeps(v, p, source, now);
      }
    case FrameMove(p, source, now, length) =>
      if p < |v.paths| {
        SetFrameKeeps(v, p, source, now, length);
      }
    case FailMove(p, source, now) =>
      if p < |v.paths| {
        FailFrameKeeps(v, p, source, now);
      }
    case RequeueMove(p, source) =>
      if p < |v.paths| {
        RequeueKeeps(v, p, source);
      }
    case PaceMove(p, at) =>
      if p < |v.paths| {
        PaceKeeps(v, p, at);
      }
    case ClearMove(p, source) =>
      if p < |v.paths| {
        ClearKeeps(v, p, source);
      }
    case RouteMove(p, incarnation, joining, firstPhase) =>
      if p < |v.paths| {
        ControlMoveKeeps(v, Make(v, limits, prm, m));
      }
    case CloseMove => CloseKeeps(v);
  }

  lemma TakeControlFrontier(v: Sends, i: nat, s: Slot)
    requires CanInstall(v, i, s.path)
    ensures TakeControl(v, i, s).frontier == v.frontier
  {
  }

  lemma CompleteFrontier(v: Sends, i: nat, attempted: bool, failure: bool, finishedAt: int)
    requires i < |v.slots| && v.slots[i].path < |v.paths|
    ensures var f := Complete(v, i, attempted, failure, finishedAt).frontier;
      f == v.frontier || f == FinishShard(v.frontier, v.slots[i].shard, failure)
  {
    hide FinishShard;
  }

  lemma CloseKeeps(v: Sends)
    requires Inv(v)
    ensures Inv(v.(closing := true))
  {
    hide Count;
    SameSlots(v, v.(closing := true));
  }

  lemma {:induction false} EveryRunKeeps(
    slots: nat, paths: nat, limits: AggregationQueue.QueueLimits, prm: Packing.Parameters, moves: seq<Move>)
    requires prm.Valid() && limits.InBounds() && limits.maxDatagramBytes <= prm.maxDatagramBytes
    ensures SendsOk(RunMoves(slots, paths, limits, prm, moves), limits, prm)
  {
    hide SendsOk, Make;
    if moves == [] {
      InitialSendsOk(slots, paths, limits, prm);
    } else {
      EveryRunKeeps(slots, paths, limits, prm, moves[..|moves| - 1]);
      MoveKeeps(RunMoves(slots, paths, limits, prm, moves[..|moves| - 1]), limits, prm, moves[|moves| - 1]);
    }
  }

  lemma InitialSendsOk(slots: nat, paths: nat, limits: AggregationQueue.QueueLimits, prm: Packing.Parameters)
    requires limits.InBounds() && limits.maxDatagramBytes <= prm.maxDatagramBytes
    ensures SendsOk(Initial(slots, paths), limits, prm)
  {
    hide SendFence.Ok, Inv;
    InitialOk(slots, paths);
    StartsOk(limits, prm);
  }

  // ---------------------------------------------------------------------------
  // What the invariant says

  /** Live tokens, occupied slots and `active` correspond one to one, and a path
      carries at most one of them, with exactly its packet and its bytes queued. */
  lemma TokensCorrespond(v: Sends, i: nat, j: nat)
    requires Inv(v) && i < |v.slots| && j < |v.slots| && Live(v.slots[i]) && Live(v.slots[j])
    ensures v.slots[i].token == v.slots[j].token <==> i == j
    ensures v.slots[i].path == v.slots[j].path <==> i == j
    ensures var s := v.slots[i];
      && s.path < |v.paths| && v.paths[s.path].token == s.token
      && v.paths[s.path].queuedPackets == 1 && v.paths[s.path].queuedBytes == s.bytes
    ensures v.active == Count(v.slots, AnyRole) > 0
  {
    assert SlotOwned(v, i) && SlotOwned(v, j);
    CountSome(v.slots, AnyRole, i);
  }

  /** Storage may be reclaimed when `active` is zero: then no token is live and no
      path has anything queued. */
  lemma {:induction false} IdleHasNoToken(v: Sends)
    requires Inv(v) && v.active == 0
    ensures forall i :: 0 <= i < |v.slots| ==> !Live(v.slots[i])
    ensures forall p :: 0 <= p < |v.paths| ==>
      v.paths[p].token == 0 && v.paths[p].queuedPackets == 0 && v.paths[p].queuedBytes == 0
  {
    forall i | 0 <= i < |v.slots|
      ensures !Live(v.slots[i])
    {
      if Live(v.slots[i]) {
        CountSome(v.slots, AnyRole, i);
        assert false;
      }
    }
    forall p | 0 <= p < |v.paths|
      ensures v.paths[p].token == 0 && v.paths[p].queuedPackets == 0 && v.paths[p].queuedBytes == 0
    {
      assert PathOwned(v, p);
    }
  }

  /** While the controller is open the shards of the group out are accounted for:
      each dispatched one has exactly one live slot, each live data slot carries a
      dispatched one, and `remaining` counts those not yet terminal. */
  lemma ShardsCorrespond(v: Sends, limits: AggregationQueue.QueueLimits, prm: Packing.Parameters, k: nat)
    requires SendsOk(v, limits, prm) && !v.closing && v.frontier.out && k < |v.frontier.shards|
    ensures v.frontier.shards[k] == Dispatched <==> exists i :: 0 <= i < |v.slots| && Plays(v.slots[i], ShardRole(k))
    ensures v.frontier.shards[k] == Dispatched ==> Count(v.slots, ShardRole(k)) == 1
    ensures v.frontier.remaining == Unfinished(v.frontier.shards) > 0
  {
    hide SenderRun.SenderOk, GroupAt, Contiguous, FailureOk;
    if v.frontier.shards[k] == Dispatched && forall i :: 0 <= i < |v.slots| ==> !Plays(v.slots[i], ShardRole(k)) {
      CountNone(v.slots, ShardRole(k));
      assert false;
    }
  }

  /** Sends made and in flight of one control transaction never exceed eight. */
  lemma ControlSendsBounded(v: Sends, p: nat, source: Source)
    requires Inv(v) && !v.closing && p < |v.paths| && IsRetry(source)
    ensures var r := GetRetry(v, p, source);
      0 <= r.sends && 0 <= r.inflight && r.sends + r.inflight <= CONTROL_SENDS
  {
    assert RetryOk(v, p, source);
  }

  /** A token that is not live changes nothing. */
  lemma StaleTokenChangesNothing(
    v: Sends, limits: AggregationQueue.QueueLimits, prm: Packing.Parameters, m: Move)
    requires limits.InBounds() && m.CompleteMove?
    requires forall i :: 0 <= i < |v.slots| && Live(v.slots[i]) ==> v.slots[i].token != m.token
    ensures Make(v, limits, prm, m) == v
  {
  }

  /** Over every run of the owned sends: one live token for each occupied slot and at
      most one for each path, `active` counts them, no control transaction goes out
      more than eight times, and a dispatched shard has exactly one live carrier. */
  lemma EveryRunIsAccounted(
    slots: nat, paths: nat, limits: AggregationQueue.QueueLimits, prm: Packing.Parameters, moves: seq<Move>,
    i: nat, j: nat, p: nat, source: Source, k: nat)
    requires prm.Valid() && limits.InBounds() && limits.maxDatagramBytes <= prm.maxDatagramBytes && IsRetry(source)
    ensures var v := RunMoves(slots, paths, limits, prm, moves);
      && (i < |v.slots| && j < |v.slots| && Live(v.slots[i]) && Live(v.slots[j]) ==>
          && (v.slots[i].token == v.slots[j].token <==> i == j) && (v.slots[i].path == v.slots[j].path <==> i == j)
          && v.active == Count(v.slots, AnyRole) > 0)
      && (v.active == 0 ==> forall x :: 0 <= x < |v.slots| ==> !Live(v.slots[x]))
      && (!v.closing && p < |v.paths| ==> GetRetry(v, p, source).sends + GetRetry(v, p, source).inflight <= CONTROL_SENDS)
      && (!v.closing && v.frontier.out && k < |v.frontier.shards| && v.frontier.shards[k] == Dispatched ==>
          Count(v.slots, ShardRole(k)) == 1 && v.frontier.remaining == Unfinished(v.frontier.shards))
  {
    hide RunMoves, SendFence.Ok, TokensOk, PathsOk, ControlsOk, ShardsOk, Live, GetRetry, Unfinished, Count, Inv;
    EveryRunKeeps(slots, paths, limits, prm, moves);
    var v := RunMoves(slots, paths, limits, prm, moves);
    if i < |v.slots| && j < |v.slots| && Live(v.slots[i]) && Live(v.slots[j]) {
      TokensCorrespond(v, i, j);
    }
    if v.active == 0 {
      IdleHasNoToken(v);
    }
    if !v.closing && p < |v.paths| {
      ControlSendsBounded(v, p, source);
    }
    if !v.closing && v.frontier.out && k < |v.frontier.shards| {
      ShardsCorrespond(v, limits, prm, k);
    }
  }
}
