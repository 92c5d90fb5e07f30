// internal/wirev2/bundle.go: FEC records, the bundle that carries them, and the
// encoding contexts they refer to.
module FecBundle {
  import opened Words
  import opened Packing
  import opened BigEndian
  import opened BlockCodec
  import opened Envelope

  const TYPE_FEC_BUNDLE: Byte := 32
  const PREFIX_BYTES := 4
  const RECORD_HEADER := 18
  const MAX_RECORDS := 16
  const MIN_LOGICAL := 24

  type U16 = x: int | 0 <= x < 0x1_0000

  // EncodingContext
  datatype Context = Context(
    epoch: U32, layout: U16, protection: U16, dataShards: Byte, parityShards: Byte, shardBytes: U16,
    maxDescriptors: U16, maxLogical: U32)
  {
    predicate Valid() {
      && epoch != 0 && layout == 1 && protection == 1 && dataShards != 0 && parityShards != 0
      && dataShards + parityShards <= 256 && 1 <= shardBytes <= MAX_SHARD_BYTES
      && 1 <= maxDescriptors <= MAX_DESCRIPTORS && MIN_LOGICAL <= maxLogical <= MAX_LOGICAL_BYTES
      && maxLogical <= dataShards * shardBytes
    }
  }

  // The contexts a caller lets its packets refer to.
  type Lookup = U32 -> Option<Context>

  // contextCache.get, without the cache.
  function Resolve(lookup: Lookup, epoch: U32): Option<Context> {
    if epoch == 0 then None
    else
      match lookup(epoch)
      case None => None
      case Some(c) => if c.epoch == epoch && c.Valid() then Some(c) else None
  }

  datatype Record = Record(group: U64, epoch: U32, logical: U32, shard: Byte, payload: Bytes)

  // How many bytes of a data shard are not padding.
  function Used(logical: int, shard: int, size: nat): nat {
    var left := logical - shard * size;
    if left <= 0 then 0 else if left < size then left else size
  }

  // validateFECRecord
  predicate RecordOk(r: Record, c: Context) {
    && r.group != 0 && MIN_LOGICAL <= r.logical <= c.maxLogical && r.shard < c.dataShards + c.parityShards
    && |r.payload| == c.shardBytes
    && (r.shard < c.dataShards ==>
        forall j :: Used(r.logical, r.shard, c.shardBytes) <= j < |r.payload| ==> r.payload[j] == 0)
  }

  predicate Resolves(lookup: Lookup, r: Record) {
    Resolve(lookup, r.epoch).Some? && RecordOk(r, Resolve(lookup, r.epoch).value)
  }

  predicate RecordsOk(lookup: Lookup, rs: seq<Record>) {
    && |rs| <= MAX_RECORDS
    && (forall i :: 0 <= i < |rs| ==> Resolves(lookup, rs[i]))
    && (forall i, j :: 0 <= i < j < |rs| ==> rs[i].group != rs[j].group)
  }

  // ---------------------------------------------------------------------------
  // Layout

  function HeadBytes(r: Record): (b: Bytes)
    ensures |b| == RECORD_HEADER
  {
    Put(r.group, 8) + Put(r.epoch, 4) + Put(r.logical, 4) + [r.shard, 0]
  }

  function RecordBytes(r: Record): (b: Bytes)
    ensures |b| == RECORD_HEADER + |r.payload|
  {
    HeadBytes(r) + r.payload
  }

  function RecordsBytes(rs: seq<Record>): Bytes {
    if rs == [] then [] else RecordsBytes(rs[..|rs| - 1]) + RecordBytes(rs[|rs| - 1])
  }

  // The typed body of a bundle.
  function Typed(rs: seq<Record>): Bytes {
    Put(|rs|, 2) + [0, 0] + RecordsBytes(rs)
  }

  // The record header that stands in 18 bytes.
  function ReadHead(b: Bytes, payload: Bytes): Record
    requires |b| == RECORD_HEADER
  {
    Fixed64(0, b[..8]);
    Fixed32(0, b[8..12]);
    Fixed32(0, b[12..16]);
    Record(Get(b[..8]), Get(b[8..12]), Get(b[12..16]), b[16], payload)
  }

  lemma HeadRead(r: Record)
    ensures ReadHead(HeadBytes(r), r.payload) == r && HeadBytes(r)[17] == 0
  {
    hide Put, Get;
    Fixed64(r.group, []);
    Fixed32(r.epoch, []);
    Fixed32(r.logical, []);
    var b := HeadBytes(r);
    assert b[..8] == Put(r.group, 8) && b[8..12] == Put(r.epoch, 4) && b[12..16] == Put(r.logical, 4);
  }

  lemma HeadWritten(b: Bytes, payload: Bytes)
    requires |b| == RECORD_HEADER && b[17] == 0
    ensures HeadBytes(ReadHead(b, payload)) == b
  {
    hide Put, Get;
    Fixed64(0, b[..8]);
    Fixed32(0, b[8..12]);
    Fixed32(0, b[12..16]);
    assert b == b[..8] + b[8..12] + b[12..16] + [b[16], b[17]];
  }

  // Where record i stands.
  lemma {:induction false} RecordAt(rs: seq<Record>, i: nat)
    requires i < |rs|
    ensures var at := |RecordsBytes(rs[..i])|;
      && at + RECORD_HEADER + |rs[i].payload| == |RecordsBytes(rs[..i + 1])| <= |RecordsBytes(rs)|
      && RecordsBytes(rs)[at..|RecordsBytes(rs[..i + 1])|] == RecordBytes(rs[i])
  {
    hide Put, HeadBytes;
    assert rs[..i + 1][..i] == rs[..i];
    if i < |rs| - 1 {
      var head := rs[..|rs| - 1];
      RecordAt(head, i);
      assert head[..i] == rs[..i] && head[..i + 1] == rs[..i + 1];
    } else {
      assert rs[..i + 1] == rs;
    }
  }

  // ---------------------------------------------------------------------------
  // Reading records

  // The records read so far end at `at`.
  ghost predicate Read(body: Bytes, rs: seq<Record>, at: nat) {
    PREFIX_BYTES <= at <= |body| && body[PREFIX_BYTES..at] == RecordsBytes(rs)
  }

  lemma ReadMore(body: Bytes, rs: seq<Record>, at: nat, r: Record)
    requires Read(body, rs, at) && at + RECORD_HEADER + |r.payload| <= |body|
    requires body[at..at + RECORD_HEADER] == HeadBytes(r)
    requires body[at + RECORD_HEADER..at + RECORD_HEADER + |r.payload|] == r.payload
    ensures Read(body, rs + [r], at + RECORD_HEADER + |r.payload|)
  {
    hide Put, HeadBytes;
    assert (rs + [r])[..|rs|] == rs;
    var end := at + RECORD_HEADER + |r.payload|;
    assert body[at..end] == RecordBytes(r);
    assert body[PREFIX_BYTES..end] == body[PREFIX_BYTES..at] + body[at..end];
  }

  // Any list of valid records with this body has `count` of them and starts with `done`.
  ghost predicate Forces(lookup: Lookup, body: Bytes, count: nat, done: seq<Record>) {
    forall rs :: RecordsOk(lookup, rs) && Typed(rs) == body ==> |rs| == count && done <= rs
  }

  // Where the next record of such a list stands.
  lemma NextStands(body: Bytes, done: seq<Record>, at: nat, rs: seq<Record>)
    requires Typed(rs) == body && done <= rs && |done| < |rs| && Read(body, done, at)
    ensures var r := rs[|done|];
      && at + RECORD_HEADER + |r.payload| <= |body| && body[at..at + RECORD_HEADER] == HeadBytes(r)
      && body[at + RECORD_HEADER..at + RECORD_HEADER + |r.payload|] == r.payload
  {
    hide Put, HeadBytes, RecordsBytes;
    var i := |done|;
    assert rs[..i] == done;
    RecordAt(rs, i);
    var a, n := |RecordsBytes(done)|, RECORD_HEADER + |rs[i].payload|;
    var all := RecordsBytes(rs);
    assert body[PREFIX_BYTES..] == all && at == PREFIX_BYTES + a;
    assert body[at..at + n] == all[a..a + n] == RecordBytes(rs[i]);
    assert body[at..at + RECORD_HEADER] == body[at..at + n][..RECORD_HEADER];
    assert body[at + RECORD_HEADER..at + n] == body[at..at + n][RECORD_HEADER..];
  }

  // What its header tells.
  lemma NextForced(lookup: Lookup, body: Bytes, done: seq<Record>, at: nat, rs: seq<Record>)
    requires RecordsOk(lookup, rs) && Typed(rs) == body && done <= rs && |done| < |rs| && Read(body, done, at)
    ensures at + RECORD_HEADER <= |body| && body[at + 17] == 0
    ensures var h := ReadHead(body[at..at + RECORD_HEADER], []);
      && Resolve(lookup, h.epoch).Some?
      && var size := Resolve(lookup, h.epoch).value.shardBytes;
      && at + RECORD_HEADER + size <= |body|
      && rs[|done|] == h.(payload := body[at + RECORD_HEADER..at + RECORD_HEADER + size])
  {
    hide Put, Get, HeadBytes, ReadHead, Read, Typed, Resolve, Context.Valid;
    var r := rs[|done|];
    NextStands(body, done, at, rs);
    HeadRead(r);
    ReadPayload(HeadBytes(r), r.payload);
    assert Resolves(lookup, r);
    assert body[at + 17] == body[at..at + RECORD_HEADER][17];
  }

  lemma ReadPayload(b: Bytes, payload: Bytes)
    requires |b| == RECORD_HEADER
    ensures ReadHead(b, payload) == ReadHead(b, []).(payload := payload)
  {
  }

  predicate Repeats(rs: seq<Record>, group: U64) {
    exists i :: 0 <= i < |rs| && rs[i].group == group
  }

  // No valid records have this body.
  ghost predicate Hopeless(lookup: Lookup, body: Bytes) {
    forall rs :: RecordsOk(lookup, rs) ==> Typed(rs) != body
  }

  // r is what the bytes at `at` say, under its context.
  ghost predicate Says(lookup: Lookup, body: Bytes, at: nat, r: Record) {
    && at + RECORD_HEADER + |r.payload| <= |body| && body[at + 17] == 0
    && r == ReadHead(body[at..at + RECORD_HEADER], body[at + RECORD_HEADER..at + RECORD_HEADER + |r.payload|])
    && Resolves(lookup, r)
  }

  lemma NextIsForced(lookup: Lookup, body: Bytes, count: nat, done: seq<Record>, at: nat)
    requires Forces(lookup, body, count, done) && |done| < count && Read(body, done, at)
    ensures forall rs: seq<Record> :: RecordsOk(lookup, rs) && Typed(rs) == body ==>
      |rs| == count && done <= rs && Says(lookup, body, at, rs[|done|]) && !Repeats(done, rs[|done|].group)
  {
    hide Put, Get, HeadBytes, ReadHead, Read, Typed, Resolve, Context.Valid, RecordOk;
    forall rs: seq<Record> | RecordsOk(lookup, rs) && Typed(rs) == body
      ensures Says(lookup, body, at, rs[|done|]) && !Repeats(done, rs[|done|].group)
    {
      NextForced(lookup, body, done, at, rs);
      var r := rs[|done|];
      assert Resolves(lookup, r);
      ReadPayload(body[at..at + RECORD_HEADER], r.payload);
      assert forall i :: 0 <= i < |done| ==> rs[i] == done[i];
    }
  }

  // Two records that the same bytes say under one context are the same.
  lemma SaysOnce(lookup: Lookup, body: Bytes, at: nat, r: Record, t: Record)
    requires Says(lookup, body, at, r) && Says(lookup, body, at, t)
    ensures r == t
  {
    hide Get;
    ReadPayload(body[at..at + RECORD_HEADER], r.payload);
    ReadPayload(body[at..at + RECORD_HEADER], t.payload);
  }

  // The contexts looked up so far.
  predicate CacheOk(lookup: Lookup, cache: seq<Context>) {
    forall i :: 0 <= i < |cache| ==>
      cache[i].epoch != 0 && cache[i].Valid() && lookup(cache[i].epoch) == Some(cache[i])
  }

  // contextCache.get: one lookup for each epoch, and never more entries than records.
  method Cached(lookup: Lookup, cache: seq<Context>, epoch: U32) returns (c: Option<Context>, after: seq<Context>)
    requires CacheOk(lookup, cache)
    ensures c == Resolve(lookup, epoch) && CacheOk(lookup, after) && |after| <= |cache| + 1
  {
    after := cache;
    if epoch == 0 {
      return None, after;
    }
    for i := 0 to |cache| {
      if cache[i].epoch == epoch {
        return Some(cache[i]), after;
      }
    }
    c := lookup(epoch);
    if c == None || c.value.epoch != epoch || !c.value.Valid() {
      return None, after;
    }
    after := cache + [c.value];
  }

  // duplicateGroup
  method Duplicate(rs: seq<Record>, group: U64) returns (found: bool)
    ensures found <==> Repeats(rs, group)
  {
    for i := 0 to |rs|
      invariant forall j :: 0 <= j < i ==> rs[j].group != group
    {
      if rs[i].group == group {
        return true;
      }
    }
    return false;
  }

  lemma RecordsMore(lookup: Lookup, rs: seq<Record>, r: Record)
    requires RecordsOk(lookup, rs) && Resolves(lookup, r) && !Repeats(rs, r.group) && |rs| < MAX_RECORDS
    ensures RecordsOk(lookup, rs + [r])
  {
  }

  // One turn of the decoding loop; None stands for its errors.
  method Next(lookup: Lookup, body: Bytes, at: nat, done: seq<Record>, cache: seq<Context>, ghost count: nat)
    returns (next: Option<Record>, after: seq<Context>)
    requires CacheOk(lookup, cache) && Read(body, done, at) && |done| < count && Forces(lookup, body, count, done)
    requires RecordsOk(lookup, done) && count <= MAX_RECORDS
    ensures CacheOk(lookup, after) && |after| <= |cache| + 1
    ensures next == None ==> Hopeless(lookup, body)
    ensures next.Some? ==>
      && Read(body, done + [next.value], at + RECORD_HEADER + |next.value.payload|)
      && RecordsOk(lookup, done + [next.value]) && Forces(lookup, body, count, done + [next.value])
  {
    hide Put, Get, HeadBytes, ReadHead, Read, Typed, Resolve, Context.Valid, RecordOk, RecordsOk, Repeats;
    after := cache;
    ReadBounds(body, done, at);
    NextIsForced(lookup, body, count, done, at);
    if |body| - at < RECORD_HEADER {
      return None, after;
    }
    var head := body[at..at + RECORD_HEADER];
    var r := ReadHead(head, []);
    var repeated := Duplicate(done, r.group);
    HeadOnly(head);
    if body[at + 17] != 0 || repeated {
      return None, after;
    }
    var c;
    c, after := Cached(lookup, cache, r.epoch);
    ShardsAreSized(lookup);
    if c == None || c.value.shardBytes > |body| - at - RECORD_HEADER {
      return None, after;
    }
    var from := at + RECORD_HEADER;
    r := r.(payload := body[from..from + c.value.shardBytes]);
    ReadPayload(head, r.payload);
    if !RecordOk(r, c.value) {
      return None, after;
    }
    assert head[17] == 0;
    HeadWritten(head, r.payload);
    ReadMore(body, done, at, r);
    RecordsMore(lookup, done, r);
    OneNext(lookup, body, count, done, at, r);
    return Some(r), after;
  }

  lemma ReadBounds(body: Bytes, rs: seq<Record>, at: nat)
    requires Read(body, rs, at)
    ensures PREFIX_BYTES <= at <= |body|
  {
  }

  // The group and the epoch stand in the header.
  lemma HeadOnly(head: Bytes)
    requires |head| == RECORD_HEADER
    ensures forall payload :: ReadHead(head, payload) == ReadHead(head, []).(payload := payload)
  {
    forall payload {
      ReadPayload(head, payload);
    }
  }

  lemma ShardsAreSized(lookup: Lookup)
    ensures forall r :: Resolves(lookup, r) ==>
      Resolve(lookup, r.epoch).Some? && |r.payload| == Resolve(lookup, r.epoch).value.shardBytes
      && RecordOk(r, Resolve(lookup, r.epoch).value)
  {
  }

  lemma OneNext(lookup: Lookup, body: Bytes, count: nat, done: seq<Record>, at: nat, r: Record)
    requires Forces(lookup, body, count, done) && |done| < count && Read(body, done, at) && Says(lookup, body, at, r)
    ensures Forces(lookup, body, count, done + [r])
  {
    hide Put, Get, ReadHead, Read, Typed, Says, RecordsOk;
    NextIsForced(lookup, body, count, done, at);
    forall rs | RecordsOk(lookup, rs) && Typed(rs) == body
      ensures |rs| == count && done + [r] <= rs
    {
      SaysOnce(lookup, body, at, r, rs[|done|]);
    }
  }

  // ---------------------------------------------------------------------------
  // Bundles

  datatype Bundle = Bundle(header: Header, route: Route, records: seq<Record>)

  function AsMessage(b: Bundle): Message {
    Message(b.header, b.route, Typed(b.records))
  }

  // What AppendFECBundle and DecodeFECBundle demand for a payload limit.
  predicate BundleOk(b: Bundle, lookup: Lookup, limit: int) {
    && b.header.kind == TYPE_FEC_BUNDLE && |b.header.session| == 16 && b.header.session != Zeros(16)
    && RouteOk(TYPE_FEC_BUNDLE, b.route) && HANDSHAKE_PACKET_SIZE <= limit <= MAX_UDP_PAYLOAD
    && 1 <= |b.records| <= MAX_RECORDS && RecordsOk(lookup, b.records)
    && ENVELOPE_OVERHEAD + ROUTE_SIZE + |Typed(b.records)| <= limit
  }

  function BundleBytes(b: Bundle, mac: Mac): Bytes {
    MessageBytes(AsMessage(b), mac)
  }

  lemma TypedSize(rs: seq<Record>)
    ensures |Typed(rs)| == PREFIX_BYTES + |RecordsBytes(rs)|
  {
  }

  lemma {:induction false} RecordsGrow(rs: seq<Record>, i: nat)
    requires i <= |rs|
    ensures |RecordsBytes(rs[..i])| <= |RecordsBytes(rs)|
  {
    hide HeadBytes;
    if i < |rs| {
      RecordAt(rs, i);
    }
    assert rs[..|rs|] == rs;
  }

  /** AppendFECBundle: checks the whole bundle first and then lays it out. */
  method Encode(b: Bundle, lookup: Lookup, mac: Mac, limit: int) returns (r: Option<Bytes>)
    ensures r == if BundleOk(b, lookup, limit) then Some(BundleBytes(b, mac)) else None
  {
    hide HeadBytes, RouteBytes, Frame, Resolve, Context.Valid, RecordOk, Put;
    TypedSize(b.records);
    if b.header.kind != TYPE_FEC_BUNDLE || |b.header.session| != 16 || b.header.session == Zeros(16)
      || !RouteOk(b.header.kind, b.route) || limit < HANDSHAKE_PACKET_SIZE || limit > MAX_UDP_PAYLOAD
      || |b.records| < 1 || |b.records| > MAX_RECORDS {
      return None;
    }
    var ok, typed := Measure(b.records, lookup, limit);
    if !ok {
      return None;
    }
    var body := LayOut(b.route, b.records, ROUTE_SIZE + typed);
    return Some(Frame(b.header, body[..], mac));
  }

  // Writes b at offset `at`.
  method Write(a: array<Byte>, at: nat, b: Bytes)
    requires at + |b| <= a.Length
    modifies a
    ensures a[..] == old(a[..at]) + b + old(a[at + |b|..])
  {
    forall i | 0 <= i < |b| {
      a[at + i] := b[i];
    }
    ghost var n := old(a[..at]) + b + old(a[at + |b|..]);
    assert |n| == a.Length && forall j :: 0 <= j < a.Length ==> a[j] == n[j];
  }

  // Bytes written so far, and zeros behind them.
  predicate Filled(a: Bytes, at: nat, done: Bytes) {
    at <= |a| && a[..at] == done && forall j :: at <= j < |a| ==> a[j] == 0
  }

  lemma FilledMore(a: Bytes, at: nat, done: Bytes, b: Bytes, n: Bytes)
    requires Filled(a, at, done) && at + |b| <= |a| && n == a[..at] + b + a[at + |b|..]
    ensures Filled(n, at + |b|, done + b)
  {
  }

  // A byte that stays as it was allocated.
  lemma FilledZero(a: Bytes, at: nat, done: Bytes)
    requires Filled(a, at, done) && at < |a|
    ensures Filled(a, at + 1, done + [0])
  {
    assert a[..at + 1] == a[..at] + [a[at]];
  }

  method Fill(a: array<Byte>, at: nat, b: Bytes, ghost done: Bytes)
    requires at + |b| <= a.Length && Filled(a[..], at, done)
    modifies a
    ensures Filled(a[..], at + |b|, done + b)
  {
    hide Filled;
    ghost var was := a[..];
    Write(a, at, b);
    assert a[..] == was[..at] + b + was[at + |b|..];
    FilledMore(was, at, done, b, a[..]);
  }

  // One turn of the writing loop; the last byte of the header is reserved.
  method WriteRecord(a: array<Byte>, offset: nat, r: Record, ghost done: Bytes)
    requires offset + RECORD_HEADER + |r.payload| <= a.Length && Filled(a[..], offset, done)
    modifies a
    ensures Filled(a[..], offset + RECORD_HEADER + |r.payload|, done + RecordBytes(r))
  {
    hide Filled, Put;
    Fill(a, offset, Put(r.group, 8), done);
    Fill(a, offset + 8, Put(r.epoch, 4), done + Put(r.group, 8));
    Fill(a, offset + 12, Put(r.logical, 4), done + Put(r.group, 8) + Put(r.epoch, 4));
    Fill(a, offset + 16, [r.shard], done + Put(r.group, 8) + Put(r.epoch, 4) + Put(r.logical, 4));
    ghost var head := done + Put(r.group, 8) + Put(r.epoch, 4) + Put(r.logical, 4) + [r.shard];
    FilledZero(a[..], offset + 17, head);
    Fill(a, offset + RECORD_HEADER, r.payload, head + [0]);
    HeadAppended(done, r);
  }

  lemma HeadAppended(done: Bytes, r: Record)
    ensures done + Put(r.group, 8) + Put(r.epoch, 4) + Put(r.logical, 4) + [r.shard] + [0] + r.payload
      == done + RecordBytes(r)
  {
    hide Put;
  }

  // The writing loop of AppendFECBundle.
  method LayOut(route: Route, rs: seq<Record>, size: nat) returns (body: array<Byte>)
    requires size == ROUTE_SIZE + |Typed(rs)| && |rs| <= MAX_RECORDS
    ensures fresh(body) && body[..] == RouteBytes(route) + Typed(rs)
  {
    hide Filled, Put, RouteBytes, RecordBytes, RecordsBytes;
    TypedSize(rs);
    body := new Byte[size](_ => 0);
    NothingFilled(body[..]);
    Fill(body, 0, RouteBytes(route), []);
    Fill(body, ROUTE_SIZE, Put(|rs|, 2), [] + RouteBytes(route));
    ghost var done := [] + RouteBytes(route) + Put(|rs|, 2);
    FilledZero(body[..], ROUTE_SIZE + 2, done);
    FilledZero(body[..], ROUTE_SIZE + 3, done + [0]);
    done := done + [0] + [0];
    ghost var front := done;
    var offset := ROUTE_SIZE + PREFIX_BYTES;
    NoRecords(rs);
    for i := 0 to |rs|
      invariant offset == ROUTE_SIZE + PREFIX_BYTES + |RecordsBytes(rs[..i])| && body.Length == size && fresh(body)
      invariant done == front + RecordsBytes(rs[..i]) && Filled(body[..], offset, done)
    {
      RecordAt(rs, i);
      RecordsStep(rs, i);
      WriteRecord(body, offset, rs[i], done);
      offset := offset + RECORD_HEADER + |rs[i].payload|;
      done := done + RecordBytes(rs[i]);
    }
    assert rs[..|rs|] == rs;
    AllFilled(body[..], done);
  }

  lemma RecordsStep(rs: seq<Record>, i: nat)
    requires i < |rs|
    ensures RecordsBytes(rs[..i + 1]) == RecordsBytes(rs[..i]) + RecordBytes(rs[i])
  {
    assert rs[..i + 1][..i] == rs[..i];
  }

  lemma NothingFilled(a: Bytes)
    requires forall j :: 0 <= j < |a| ==> a[j] == 0
    ensures Filled(a, 0, [])
  {
  }

  lemma AllFilled(a: Bytes, done: Bytes)
    requires Filled(a, |a|, done)
    ensures a == done
  {
  }

  // The checking loop of AppendFECBundle.
  method Measure(rs: seq<Record>, lookup: Lookup, limit: int) returns (ok: bool, typed: int)
    requires limit >= HANDSHAKE_PACKET_SIZE && |rs| <= MAX_RECORDS
    ensures ok <==> RecordsOk(lookup, rs) && ENVELOPE_OVERHEAD + ROUTE_SIZE + PREFIX_BYTES + |RecordsBytes(rs)| <= limit
    ensures ok ==> typed == PREFIX_BYTES + |RecordsBytes(rs)|
  {
    hide HeadBytes, Resolve, Context.Valid, RecordOk, RecordBytes, RecordsBytes;
    var cache: seq<Context> := [];
    typed := PREFIX_BYTES;
    NoRecords(rs);
    for i := 0 to |rs|
      invariant CacheOk(lookup, cache) && |cache| <= i && RecordsOk(lookup, rs[..i])
      invariant typed == PREFIX_BYTES + |RecordsBytes(rs[..i])| <= limit - ENVELOPE_OVERHEAD - ROUTE_SIZE
    {
      RecordAt(rs, i);
      RecordsGrow(rs, i + 1);
      assert rs[..i + 1] == rs[..i] + [rs[i]];
      var repeated := Duplicate(rs[..i], rs[i].group);
      if repeated {
        Unrepeatable(lookup, rs, i);
        return false, typed;
      }
      var c;
      c, cache := Cached(lookup, cache, rs[i].epoch);
      if c == None || !RecordOk(rs[i], c.value) {
        assert !Resolves(lookup, rs[i]);
        return false, typed;
      }
      RecordsMore(lookup, rs[..i], rs[i]);
      if RECORD_HEADER + |rs[i].payload| > limit - ENVELOPE_OVERHEAD - ROUTE_SIZE - typed {
        return false, typed;
      }
      typed := typed + RECORD_HEADER + |rs[i].payload|;
    }
    assert rs[..|rs|] == rs;
    ok := true;
  }

  lemma NoRecords(rs: seq<Record>)
    ensures RecordsBytes(rs[..0]) == []
  {
  }

  lemma Unrepeatable(lookup: Lookup, rs: seq<Record>, i: nat)
    requires i < |rs| && Repeats(rs[..i], rs[i].group)
    ensures !RecordsOk(lookup, rs)
  {
  }

  /** DecodeFECBundle: accepts exactly the packets that AppendFECBundle makes of a
      bundle it admits under the same contexts and limit, and returns that bundle. So
      decoding inverts encoding, and encoding again gives the same bytes. */
  method Decode(packet: Bytes, lookup: Lookup, mac: Mac, limit: int) returns (r: Option<Bundle>)
    ensures r.Some? ==> BundleOk(r.value, lookup, limit) && BundleBytes(r.value, mac) == packet
    ensures forall b :: BundleOk(b, lookup, limit) && BundleBytes(b, mac) == packet ==> r == Some(b)
  {
    hide HeadBytes, RouteBytes, Frame, Resolve, Context.Valid, RecordOk, Put, Get, RecordsOk, RouteOk, Typed, EnvelopeOk;
    BundlesAreMessages(packet, lookup, mac, limit);
    var m := Receive(packet, mac);
    if m == None || m.value.header.kind != TYPE_FEC_BUNDLE || limit < HANDSHAKE_PACKET_SIZE || limit > MAX_UDP_PAYLOAD
      || |packet| > limit {
      return None;
    }
    var body := m.value.body;
    TypedCounts(lookup, body);
    if |body| < PREFIX_BYTES || body[2] != 0 || body[3] != 0 {
      return None;
    }
    var count := Get(body[..2]);
    if count < 1 || count > MAX_RECORDS {
      return None;
    }
    var records := Collect(lookup, body, count);
    if records == None {
      return None;
    }
    MessageSize(m.value, mac);
    return Some(Bundle(m.value.header, m.value.route, records.value));
  }

  lemma MessageSize(m: Message, mac: Mac)
    requires MessageOk(m)
    ensures |MessageBytes(m, mac)| == ENVELOPE_OVERHEAD + ROUTE_SIZE + |m.body|
    ensures |m.header.session| == 16 && m.header.session != Zeros(16) && RouteOk(m.header.kind, m.route)
  {
    hide RouteBytes, Frame;
    FrameParts(m.header, RouteBytes(m.route) + m.body, mac);
  }

  lemma BundlesAreMessages(packet: Bytes, lookup: Lookup, mac: Mac, limit: int)
    ensures forall b :: BundleOk(b, lookup, limit) && BundleBytes(b, mac) == packet ==>
      && Append(AsMessage(b), mac) == Some(packet) && |packet| <= limit
      && HANDSHAKE_PACKET_SIZE <= limit <= MAX_UDP_PAYLOAD && b.header.kind == TYPE_FEC_BUNDLE
      && RecordsOk(lookup, b.records) && 1 <= |b.records| <= MAX_RECORDS
  {
    hide RouteBytes, Frame, RecordsOk, Typed, RouteOk;
    forall b | BundleOk(b, lookup, limit) && BundleBytes(b, mac) == packet
      ensures Append(AsMessage(b), mac) == Some(packet) && |packet| <= limit
    {
      MessageSize(AsMessage(b), mac);
    }
  }

  // The prefix of a typed body counts its records.
  lemma TypedCounts(lookup: Lookup, body: Bytes)
    ensures forall rs :: |rs| <= MAX_RECORDS && Typed(rs) == body ==>
      |body| >= PREFIX_BYTES && body[2] == 0 == body[3] && Get(body[..2]) == |rs|
  {
    hide Put, Get;
    forall rs | |rs| <= MAX_RECORDS && Typed(rs) == body
      ensures |body| >= PREFIX_BYTES && body[2] == 0 == body[3] && Get(body[..2]) == |rs|
    {
      Fixed16(|rs|, []);
      assert body[..2] == Put(|rs|, 2);
    }
  }

  // The decoding loop and the final check that nothing trails.
  method Collect(lookup: Lookup, body: Bytes, count: nat) returns (r: Option<seq<Record>>)
    requires PREFIX_BYTES <= |body| && body[2] == 0 == body[3] && Get(body[..2]) == count <= MAX_RECORDS
    ensures r.Some? ==> |r.value| == count && RecordsOk(lookup, r.value) && Typed(r.value) == body
    ensures forall rs :: RecordsOk(lookup, rs) && Typed(rs) == body ==> r == Some(rs)
  {
    hide HeadBytes, Resolve, Context.Valid, RecordOk, Put, Get, RecordsOk, Typed, Read, Forces;
    var records: seq<Record>, at: nat, cache: seq<Context> := [], PREFIX_BYTES, [];
    NothingForced(lookup, body, count);
    for i := 0 to count
      invariant |records| == i && Read(body, records, at) && RecordsOk(lookup, records)
      invariant CacheOk(lookup, cache) && |cache| <= i && Forces(lookup, body, count, records)
    {
      var next;
      next, cache := Next(lookup, body, at, records, cache, count);
      if next == None {
        return None;
      }
      records := records + [next.value];
      at := at + RECORD_HEADER + |next.value.payload|;
    }
    AllForced(lookup, body, records, at);
    if at != |body| {
      return None;
    }
    AllRead(body, records);
    return Some(records);
  }

  lemma NothingForced(lookup: Lookup, body: Bytes, count: nat)
    requires PREFIX_BYTES <= |body| && Get(body[..2]) == count
    ensures Read(body, [], PREFIX_BYTES) && RecordsOk(lookup, []) && Forces(lookup, body, count, [])
  {
    hide Put, Get;
    TypedCounts(lookup, body);
  }

  // Records that are read completely are the only ones, and nothing follows them.
  lemma AllForced(lookup: Lookup, body: Bytes, done: seq<Record>, at: nat)
    requires Forces(lookup, body, |done|, done) && Read(body, done, at)
    ensures forall rs :: RecordsOk(lookup, rs) && Typed(rs) == body ==> rs == done && at == |body|
  {
    hide Put, RecordsOk, RecordsBytes;
    forall rs | RecordsOk(lookup, rs) && Typed(rs) == body
      ensures rs == done && at == |body|
    {
      assert rs == done;
      assert |body| == PREFIX_BYTES + |RecordsBytes(done)|;
    }
  }

  lemma AllRead(body: Bytes, rs: seq<Record>)
    requires Read(body, rs, |body|) && body[2] == 0 == body[3] && Get(body[..2]) == |rs|
    ensures Typed(rs) == body
  {
    hide Put, Get, RecordsBytes;
    Fixed16(0, body[..2]);
    assert body == body[..2] + [body[2], body[3]] + body[4..];
  }
}
