// internal/wirev2/handshake.go: handshake packets and their type-length-values.
module HandshakeCodec {
  import opened Words
  import opened Packing
  import opened BigEndian
  import opened BlockCodec
  import opened Envelope

  const FIXED_SIZE := 84
  const MAX_TLV_BYTES := 512 - 56 - 84
  const MAX_TLVS := 16

  const HELLO: Byte := 1
  const FINISH: Byte := 3
  const READY: Byte := 4
  const REJECT: Byte := 5

  const TLV_PROTOCOL := 0x8001
  const TLV_REPAIR := 0x8009
  const TLV_PATHS := 0x800c
  const TLV_ERROR := 0x800d

  type U16 = x: int | 0 <= x < 0x1_0000

  datatype Tlv = Tlv(kind: U16, value: Bytes)

  // tlvLength
  function TlvLength(kind: U16): Option<nat> {
    if kind == 0x8001 then Some(1)
    else if kind == 0x8002 then Some(16)
    else if kind == 0x8003 || kind == 0x8004 || kind == 0x8005 || kind == 0x8006 then Some(2)
    else if kind == 0x8007 || kind == 0x8009 || kind == 0x800b then Some(8)
    else if kind == 0x8008 then Some(20)
    else if kind == 0x800a then Some(28)
    else if kind == 0x800c || kind == 0x800d then Some(4)
    else None
  }

  // The kinds that every HELLO and CHALLENGE carries.
  const MANDATORY: set<int> := {0x8001, 0x8002, 0x8003, 0x8004, 0x8005, 0x8006, 0x8007, 0x8008, 0x8009, 0x800a, 0x800b, 0x800c}

  // One value under the rules of its kind.
  predicate TlvOk(packet: Byte, t: Tlv) {
    match TlvLength(t.kind)
    case None => t.kind < 0x8000
    case Some(n) =>
      && |t.value| == n && (packet != REJECT ==> t.kind != TLV_ERROR)
      && (t.kind == TLV_REPAIR ==> t.value[6] == 0 && t.value[7] == 0)
      && (t.kind == TLV_ERROR ==> 1 <= Get(t.value[..2]) <= 9 && Get(t.value[2..]) <= 1000)
  }

  // validateTLVs
  predicate TlvsOk(packet: Byte, ts: seq<Tlv>) {
    && |ts| <= MAX_TLVS && (packet == FINISH || packet == READY ==> ts == [])
    && (packet == REJECT ==> |ts| == 1 && ts[0].kind == TLV_ERROR)
    && (forall i :: 0 < i < |ts| ==> ts[i - 1].kind < ts[i].kind)
    && |TlvsBytes(ts)| <= MAX_TLV_BYTES && (forall i :: 0 <= i < |ts| ==> TlvOk(packet, ts[i]))
    && (packet != REJECT && packet != FINISH && packet != READY ==>
        forall kind :: kind in MANDATORY ==> exists i :: 0 <= i < |ts| && ts[i].kind == kind)
  }

  datatype Handshake = Handshake(
    header: Header, clientNonce: Bytes, serverNonce: Bytes, digest: Bytes, token: Bytes, tlvs: seq<Tlv>)
  {
    // The fixed sizes of the fields.
    predicate Sized() {
      |header.session| == 16 && |clientNonce| == 16 && |serverNonce| == 16 && |digest| == 32 && |token| == 16
    }

    // validateHandshake
    predicate Valid() {
      && Sized() && IsHandshake(header.kind) && header.session != Zeros(16) && clientNonce != Zeros(16)
      && (header.kind == HELLO ==> serverNonce == Zeros(16) && digest == Zeros(32) && token == Zeros(16))
      && (header.kind == REJECT ==> serverNonce == Zeros(16) && token == Zeros(16))
      && TlvsOk(header.kind, tlvs)
    }
  }

  // ---------------------------------------------------------------------------
  // Layout

  function TlvBytes(t: Tlv): (b: Bytes)
    ensures |b| == 4 + |t.value|
  {
    Put(t.kind, 2) + Put(|t.value|, 2) + t.value
  }

  function TlvsBytes(ts: seq<Tlv>): Bytes {
    if ts == [] then [] else TlvsBytes(ts[..|ts| - 1]) + TlvBytes(ts[|ts| - 1])
  }

  function Body(m: Handshake): Bytes
    requires |TlvsBytes(m.tlvs)| <= MAX_TLV_BYTES
  {
    var n := |TlvsBytes(m.tlvs)|;
    m.clientNonce + m.serverNonce + m.digest + m.token + Put(n, 2) + [0, 0] + TlvsBytes(m.tlvs) + Zeros(MAX_TLV_BYTES - n)
  }

  function PacketBytes(m: Handshake, mac: Mac): Bytes
    requires m.Valid()
  {
    Frame(m.header, Body(m), mac)
  }

  lemma {:induction false} TlvAt(ts: seq<Tlv>, i: nat)
    requires i < |ts|
    ensures var at := |TlvsBytes(ts[..i])|;
      && at + 4 + |ts[i].value| == |TlvsBytes(ts[..i + 1])| <= |TlvsBytes(ts)|
      && TlvsBytes(ts)[at..|TlvsBytes(ts[..i + 1])|] == TlvBytes(ts[i])
  {
    hide TlvBytes;
    assert ts[..i + 1][..i] == ts[..i];
    if i < |ts| - 1 {
      var head := ts[..|ts| - 1];
      TlvAt(head, i);
      assert head[..i] == ts[..i] && head[..i + 1] == ts[..i + 1];
    } else {
      assert ts[..i + 1] == ts;
    }
  }

  // ---------------------------------------------------------------------------
  // Reading the values

  // The values read so far end at `at`.
  ghost predicate Read(region: Bytes, ts: seq<Tlv>, at: nat) {
    at <= |region| && region[..at] == TlvsBytes(ts)
  }

  // Every list with these bytes starts with `done`.
  ghost predicate Forces(region: Bytes, done: seq<Tlv>) {
    forall ts :: TlvsBytes(ts) == region ==> done <= ts
  }

  lemma NextStands(region: Bytes, done: seq<Tlv>, at: nat, ts: seq<Tlv>)
    requires |region| < 0x1_0000 && TlvsBytes(ts) == region && done <= ts && |done| < |ts| && Read(region, done, at)
    ensures var t := ts[|done|];
      && at + 4 + |t.value| <= |region| && Get(region[at..at + 2]) == t.kind
      && Get(region[at + 2..at + 4]) == |t.value| && region[at + 4..at + 4 + |t.value|] == t.value
  {
    hide Put, Get, TlvsBytes, TlvBytes;
    var t := ts[|done|];
    assert ts[..|done|] == done;
    TlvAt(ts, |done|);
    var b := region[at..at + 4 + |t.value|];
    assert b == TlvBytes(t);
    Fixed16(t.kind, []);
    Fixed16(|t.value|, []);
    TlvParts(t);
    Within(region, at, |b|, 0, 2);
    Within(region, at, |b|, 2, 4);
    Within(region, at, |b|, 4, |b|);
  }

  lemma TlvParts(t: Tlv)
    ensures var b := TlvBytes(t); b[0..2] == Put(t.kind, 2) && b[2..4] == Put(|t.value|, 2) && b[4..|b|] == t.value
  {
  }

  lemma Within(b: Bytes, at: nat, n: nat, i: nat, j: nat)
    requires i <= j <= n && at + n <= |b|
    ensures b[at..at + n][i..j] == b[at + i..at + j]
  {
    var whole, part := b[at..at + n][i..j], b[at + i..at + j];
    assert forall k :: 0 <= k < |whole| ==> whole[k] == part[k];
  }

  lemma ReadMore(region: Bytes, ts: seq<Tlv>, at: nat, t: Tlv)
    requires Read(region, ts, at) && at + 4 + |t.value| <= |region| && Get(region[at..at + 2]) == t.kind
    requires Get(region[at + 2..at + 4]) == |t.value| && region[at + 4..at + 4 + |t.value|] == t.value
    ensures Read(region, ts + [t], at + 4 + |t.value|)
  {
    hide Put, Get;
    Fixed16(0, region[at..at + 2]);
    Fixed16(0, region[at + 2..at + 4]);
    assert (ts + [t])[..|ts|] == ts;
    var end := at + 4 + |t.value|;
    assert region[at..end] == region[at..at + 2] + region[at + 2..at + 4] + region[at + 4..end];
    assert region[at..end] == TlvBytes(t);
    assert region[..end] == region[..at] + region[at..end];
  }

  // What the bytes at `at` tell of every list.
  lemma NextIsForced(region: Bytes, done: seq<Tlv>, at: nat)
    requires |region| < 0x1_0000 && Forces(region, done) && Read(region, done, at)
    ensures forall ts: seq<Tlv> :: TlvsBytes(ts) == region ==>
      && (at == |region| ==> ts == done)
      && (at < |region| ==>
          && |done| < |ts| && at + 4 <= |region|
          && var n := Get(region[at + 2..at + 4]);
          && at + 4 + n <= |region| && n < 0x1_0000
          && ts[|done|].kind == Get(region[at..at + 2]) && ts[|done|].value == region[at + 4..at + 4 + n])
  {
    hide Put, Get, TlvsBytes;
    forall ts: seq<Tlv> | TlvsBytes(ts) == region
      ensures at == |region| ==> ts == done
      ensures at < |region| ==>
        && |done| < |ts| && at + 4 <= |region|
        && var n := Get(region[at + 2..at + 4]);
        && at + 4 + n <= |region| && n < 0x1_0000
        && ts[|done|].kind == Get(region[at..at + 2]) && ts[|done|].value == region[at + 4..at + 4 + n]
    {
      if |done| < |ts| {
        NextStands(region, done, at, ts);
      } else {
        assert ts == done;
      }
    }
  }

  /** The reading loop of DecodeHandshake: the values of a region, when it is made of at
      most sixteen whole ones. */
  method ReadTlvs(region: Bytes) returns (r: Option<seq<Tlv>>)
    requires |region| <= MAX_TLV_BYTES
    ensures r.Some? ==> TlvsBytes(r.value) == region && |r.value| <= MAX_TLVS
    ensures forall ts :: TlvsBytes(ts) == region && |ts| <= MAX_TLVS ==> r == Some(ts)
  {
    hide Put, Get, TlvsBytes, Read, Forces;
    var ts: seq<Tlv>, at: nat := [], 0;
    NothingRead(region);
    while at < |region|
      invariant at <= |region| && Read(region, ts, at) && Forces(region, ts) && |ts| <= MAX_TLVS
    {
      NextIsForced(region, ts, at);
      if |region| - at < 4 || |ts| == MAX_TLVS {
        return None;
      }
      var n := Get(region[at + 2..at + 4]);
      if n > |region| - at - 4 {
        return None;
      }
      Fixed16(0, region[at..at + 2]);
      var t := Tlv(Get(region[at..at + 2]), region[at + 4..at + 4 + n]);
      ReadMore(region, ts, at, t);
      ForcesMore(region, ts, t);
      ts := ts + [t];
      at := at + 4 + n;
    }
    NextIsForced(region, ts, at);
    AllRead(region, ts, at);
    return Some(ts);
  }

  lemma NothingRead(region: Bytes)
    ensures Read(region, [], 0) && Forces(region, [])
  {
  }

  lemma AllRead(region: Bytes, ts: seq<Tlv>, at: nat)
    requires Read(region, ts, at) && at == |region|
    ensures TlvsBytes(ts) == region
  {
    assert region[..at] == region;
  }

  lemma ForcesMore(region: Bytes, done: seq<Tlv>, t: Tlv)
    requires Forces(region, done)
    requires forall ts: seq<Tlv> :: TlvsBytes(ts) == region ==> |done| < |ts| && ts[|done|] == t
    ensures Forces(region, done + [t])
  {
    hide TlvsBytes;
  }

  // ---------------------------------------------------------------------------
  // Validation

  // The mandatory kinds among the values.
  function Seen(ts: seq<Tlv>): set<int> {
    set i | 0 <= i < |ts| && ts[i].kind in MANDATORY :: ts[i].kind
  }

  // What the loop of validateTLVs has established for the first n values.
  ghost predicate Checked(packet: Byte, ts: seq<Tlv>, n: nat)
    requires n <= |ts|
  {
    && (forall i :: 0 < i < n ==> ts[i - 1].kind < ts[i].kind) && (forall i :: 0 <= i < n ==> TlvOk(packet, ts[i]))
    && |TlvsBytes(ts[..n])| <= MAX_TLV_BYTES
  }

  lemma {:induction false} TlvsGrow(ts: seq<Tlv>, n: nat)
    requires n <= |ts|
    ensures |TlvsBytes(ts[..n])| <= |TlvsBytes(ts)|
  {
    if n < |ts| {
      TlvAt(ts, n);
    }
    assert ts[..|ts|] == ts;
  }

  // The loop of validateTLVs, with the set of kinds seen so far in place of its
  // bit mask.
  method CheckAll(packet: Byte, ts: seq<Tlv>) returns (ok: bool, seen: set<int>)
    ensures ok <==> Checked(packet, ts, |ts|)
    ensures ok ==> seen == Seen(ts)
  {
    hide Get, TlvsBytes, TlvOk, Seen, TlvsOk;
    NoTlvs(ts);
    var total: int := 0;
    seen := {};
    for i := 0 to |ts|
      invariant Checked(packet, ts, i) && total == |TlvsBytes(ts[..i])| && seen == Seen(ts[..i])
    {
      if i > 0 && ts[i].kind <= ts[i - 1].kind {
        return false, seen;
      }
      TlvAt(ts, i);
      TlvsGrow(ts, i + 1);
      if |ts[i].value| > MAX_TLV_BYTES - 4 || total > MAX_TLV_BYTES - 4 - |ts[i].value| {
        assert ts[..|ts|] == ts;
        return false, seen;
      }
      if !TlvOk(packet, ts[i]) {
        return false, seen;
      }
      total := total + 4 + |ts[i].value|;
      SeenMore(ts, i);
      if ts[i].kind in MANDATORY {
        seen := seen + {ts[i].kind};
      }
    }
    assert ts[..|ts|] == ts;
    ok := true;
  }

  lemma TlvsOkMeans(packet: Byte, ts: seq<Tlv>)
    requires packet != FINISH && packet != READY
    ensures TlvsOk(packet, ts) <==>
      && |ts| <= MAX_TLVS && (packet == REJECT ==> |ts| == 1 && ts[0].kind == TLV_ERROR)
      && Checked(packet, ts, |ts|) && (packet == REJECT || Seen(ts) == MANDATORY)
  {
    hide Get, TlvsBytes, TlvOk, Seen;
    SeenAll(ts);
    assert ts[..|ts|] == ts;
  }

  lemma EmptyOk(packet: Byte, ts: seq<Tlv>)
    requires packet == FINISH || packet == READY
    ensures TlvsOk(packet, ts) <==> ts == []
  {
  }

  method ValidateTlvs(packet: Byte, ts: seq<Tlv>) returns (ok: bool)
    requires IsHandshake(packet)
    ensures ok <==> TlvsOk(packet, ts)
  {
    hide Get, TlvsBytes, TlvOk, Seen, TlvsOk, Checked;
    if |ts| > MAX_TLVS {
      TooMany(packet, ts);
      return false;
    }
    if packet == FINISH || packet == READY {
      EmptyOk(packet, ts);
      return |ts| == 0;
    }
    TlvsOkMeans(packet, ts);
    if packet == REJECT && (|ts| != 1 || ts[0].kind != TLV_ERROR) {
      return false;
    }
    var seen;
    ok, seen := CheckAll(packet, ts);
    ok := ok && (packet == REJECT || seen == MANDATORY);
  }

  lemma TooMany(packet: Byte, ts: seq<Tlv>)
    requires |ts| > MAX_TLVS
    ensures !TlvsOk(packet, ts)
  {
  }

  lemma NoTlvs(ts: seq<Tlv>)
    ensures TlvsBytes([]) == [] && ts[..0] == [] && Seen([]) == {}
  {
  }

  lemma SeenMore(ts: seq<Tlv>, i: nat)
    requires i < |ts|
    ensures Seen(ts[..i + 1]) == Seen(ts[..i]) + if ts[i].kind in MANDATORY then {ts[i].kind} else {}
  {
    var a, b := ts[..i], ts[..i + 1];
    assert forall j :: 0 <= j < i ==> a[j] == b[j];
    assert b[i] == ts[i];
    forall k | k in Seen(b)
      ensures k in Seen(a) + if ts[i].kind in MANDATORY then {ts[i].kind} else {}
    {
      var j :| 0 <= j < |b| && b[j].kind in MANDATORY && b[j].kind == k;
      assert j < i ==> a[j].kind == k;
    }
    forall k | k in Seen(a)
      ensures k in Seen(b)
    {
      var j :| 0 <= j < |a| && a[j].kind in MANDATORY && a[j].kind == k;
      assert b[j].kind == k;
    }
  }

  lemma SeenAll(ts: seq<Tlv>)
    ensures Seen(ts) == MANDATORY <==> forall kind :: kind in MANDATORY ==> exists i :: 0 <= i < |ts| && ts[i].kind == kind
  {
  }

  method Validate(m: Handshake) returns (ok: bool)
    requires m.Sized()
    ensures ok <==> m.Valid()
  {
    hide TlvsOk;
    if !IsHandshake(m.header.kind) || m.header.session == Zeros(16) || m.clientNonce == Zeros(16) {
      return false;
    }
    if m.header.kind == HELLO && (m.serverNonce != Zeros(16) || m.digest != Zeros(32) || m.token != Zeros(16)) {
      return false;
    }
    if m.header.kind == REJECT && (m.serverNonce != Zeros(16) || m.token != Zeros(16)) {
      return false;
    }
    ok := ValidateTlvs(m.header.kind, m.tlvs);
  }

  // ---------------------------------------------------------------------------
  // Packets

  /** AppendHandshake: always exactly 512 bytes. */
  method Encode(m: Handshake, mac: Mac) returns (r: Option<Bytes>)
    requires m.Sized()
    ensures r.Some? <==> m.Valid()
    ensures r.Some? ==> r.value == PacketBytes(m, mac) && |r.value| == HANDSHAKE_PACKET_SIZE
  {
    hide Put, Get, TlvsBytes, TlvBytes, Body, Frame, TlvsOk;
    var ok := Validate(m);
    if !ok {
      return None;
    }
    FitsPacket(m);
    var values: Bytes := [];
    NoTlvs(m.tlvs);
    for i := 0 to |m.tlvs|
      invariant values == TlvsBytes(m.tlvs[..i])
    {
      Extend(m.tlvs, i);
      values := values + TlvBytes(m.tlvs[i]);
    }
    assert m.tlvs[..|m.tlvs|] == m.tlvs;
    var n := |values|;
    var body := m.clientNonce + m.serverNonce + m.digest + m.token + Put(n, 2) + [0, 0] + values + Zeros(MAX_TLV_BYTES - n);
    BodyIs(m, body);
    FrameParts(m.header, body, mac);
    return Some(Frame(m.header, body, mac));
  }

  lemma BodyIs(m: Handshake, body: Bytes)
    requires |TlvsBytes(m.tlvs)| <= MAX_TLV_BYTES
    requires var n := |TlvsBytes(m.tlvs)|;
      body == m.clientNonce + m.serverNonce + m.digest + m.token + Put(n, 2) + [0, 0] + TlvsBytes(m.tlvs)
              + Zeros(MAX_TLV_BYTES - n)
    ensures body == Body(m)
  {
  }

  lemma Extend(ts: seq<Tlv>, i: nat)
    requires i < |ts|
    ensures TlvsBytes(ts[..i + 1]) == TlvsBytes(ts[..i]) + TlvBytes(ts[i])
  {
    assert ts[..i + 1][..i] == ts[..i];
  }

  lemma FitsPacket(m: Handshake)
    requires m.Valid()
    ensures |TlvsBytes(m.tlvs)| <= MAX_TLV_BYTES && |m.tlvs| <= MAX_TLVS
    ensures |Body(m)| == HANDSHAKE_BODY_SIZE && EnvelopeOk(m.header, |Body(m)|)
  {
    hide TlvsBytes, TlvOk;
  }

  // Where the fields stand.
  lemma BodyParts(m: Handshake)
    requires m.Valid() && |TlvsBytes(m.tlvs)| <= MAX_TLV_BYTES
    ensures var b, n := Body(m), |TlvsBytes(m.tlvs)|;
      && |b| == HANDSHAKE_BODY_SIZE && b[..16] == m.clientNonce && b[16..32] == m.serverNonce && b[32..64] == m.digest
      && b[64..80] == m.token && Get(b[80..82]) == n && b[82] == 0 && b[83] == 0
      && b[84..84 + n] == TlvsBytes(m.tlvs) && forall j :: 84 + n <= j < |b| ==> b[j] == 0
  {
    hide Put, Get, TlvsBytes, TlvsOk;
    var b, n := Body(m), |TlvsBytes(m.tlvs)|;
    Fixed16(n, []);
    assert b[80..82] == Put(n, 2);
  }

  lemma Rebuild(b: Bytes, m: Handshake)
    requires m.Sized() && |b| == HANDSHAKE_BODY_SIZE && |TlvsBytes(m.tlvs)| <= MAX_TLV_BYTES
    requires var n := |TlvsBytes(m.tlvs)|;
      && b[..16] == m.clientNonce && b[16..32] == m.serverNonce && b[32..64] == m.digest
      && b[64..80] == m.token && Get(b[80..82]) == n && b[82] == 0 && b[83] == 0
      && b[84..84 + n] == TlvsBytes(m.tlvs) && forall j :: 84 + n <= j < |b| ==> b[j] == 0
    ensures Body(m) == b
  {
    hide Put, Get, TlvsBytes;
    var n := |TlvsBytes(m.tlvs)|;
    Fixed16(n, b[80..82]);
    assert b[84 + n..] == Zeros(MAX_TLV_BYTES - n);
    assert b == b[..16] + b[16..32] + b[32..64] + b[64..80] + b[80..82] + [b[82], b[83]] + b[84..84 + n] + b[84 + n..];
  }

  // The only message a body can be, if any.
  lemma OnlyMessage(h: Header, b: Bytes)
    requires |b| == HANDSHAKE_BODY_SIZE
    ensures forall m: Handshake :: m.Valid() && m.header == h && Body(m) == b ==>
      && var n := Get(b[80..82]);
      && n <= MAX_TLV_BYTES && b[82] == 0 && b[83] == 0 && (forall j :: 84 + n <= j < |b| ==> b[j] == 0)
      && TlvsBytes(m.tlvs) == b[84..84 + n] && |m.tlvs| <= MAX_TLVS
      && m == Handshake(h, b[..16], b[16..32], b[32..64], b[64..80], m.tlvs)
  {
    hide Put, Get, TlvsBytes, Body, TlvOk;
    forall m: Handshake | m.Valid() && m.header == h && Body(m) == b
      ensures var n := Get(b[80..82]);
        && n <= MAX_TLV_BYTES && b[82] == 0 && b[83] == 0 && (forall j :: 84 + n <= j < |b| ==> b[j] == 0)
        && TlvsBytes(m.tlvs) == b[84..84 + n] && |m.tlvs| <= MAX_TLVS
        && m == Handshake(h, b[..16], b[16..32], b[32..64], b[64..80], m.tlvs)
    {
      FitsPacket(m);
      BodyParts(m);
    }
  }

  /** DecodeHandshake: accepts exactly the packets that AppendHandshake makes and
      returns their message. */
  method Decode(packet: Bytes, mac: Mac) returns (r: Option<Handshake>)
    ensures r.Some? ==> r.value.Valid() && PacketBytes(r.value, mac) == packet
    ensures forall m: Handshake :: m.Valid() && PacketBytes(m, mac) == packet ==> r == Some(m)
  {
    hide Put, Get, TlvsBytes, Body, Frame, TlvsOk, EnvelopeOk, Handshake.Valid;
    PacketsAreFrames(packet, mac);
    var envelope := Open(packet, mac);
    if envelope == None || !IsHandshake(envelope.value.header.kind) {
      return None;
    }
    var h, b := envelope.value.header, envelope.value.body;
    HandshakeSize(h, b);
    OnlyMessage(h, b);
    var n := Get(b[80..82]);
    if n > MAX_TLV_BYTES || b[82] != 0 || b[83] != 0 || !AllZero(b, FIXED_SIZE + n) {
      return None;
    }
    var tlvs := ReadTlvs(b[FIXED_SIZE..FIXED_SIZE + n]);
    if tlvs == None {
      return None;
    }
    var m := Handshake(h, b[..16], b[16..32], b[32..64], b[64..80], tlvs.value);
    var ok := Validate(m);
    if !ok {
      return None;
    }
    Rebuild(b, m);
    return Some(m);
  }

  predicate AllZero(b: Bytes, from: nat) {
    forall j :: from <= j < |b| ==> b[j] == 0
  }

  lemma HandshakeSize(h: Header, b: Bytes)
    requires EnvelopeOk(h, |b|) && IsHandshake(h.kind)
    ensures |b| == HANDSHAKE_BODY_SIZE && |h.session| == 16
  {
  }

  lemma PacketsAreFrames(packet: Bytes, mac: Mac)
    ensures forall m: Handshake :: m.Valid() && PacketBytes(m, mac) == packet ==>
      && |TlvsBytes(m.tlvs)| <= MAX_TLV_BYTES && IsHandshake(m.header.kind)
      && EnvelopeOk(m.header, |Body(m)|) && Frame(m.header, Body(m), mac) == packet
  {
    hide Put, TlvsBytes, Body, Frame, TlvsOk, EnvelopeOk;
    forall m: Handshake | m.Valid() && PacketBytes(m, mac) == packet
      ensures |TlvsBytes(m.tlvs)| <= MAX_TLV_BYTES && EnvelopeOk(m.header, |Body(m)|)
    {
      FitsPacket(m);
    }
  }
}
