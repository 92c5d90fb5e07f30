// internal/wirev2: the authenticated envelope and the route of established packets.
//
// Each layer is a layout function on valid values; opening a packet is proved to
// be the exact inverse of the layout. The message authentication code of the
// selected key is any function to 32-byte tags.
module Envelope {
  import opened Words
  import opened Packing
  import opened BigEndian
  import opened BlockCodec

  const MAGIC: Bytes := [0x4D, 0x50, 0x55, 0x44]
  const VERSION: Byte := 2
  const PREFIX_SIZE := 24
  const TAG_SIZE := 32
  const ENVELOPE_OVERHEAD := 56
  const ROUTE_SIZE := 16
  const MAX_UDP_PAYLOAD := 65507
  const MAX_BODY_SIZE := 65507 - 56
  const HANDSHAKE_PACKET_SIZE := 512
  const HANDSHAKE_BODY_SIZE := 512 - 56

  // A key stands for its authentication code; a code of another size is no tag.
  datatype Mac = Mac(code: Bytes -> Bytes) {
    function Tag(x: Bytes): (t: Bytes)
      ensures |t| == TAG_SIZE
    {
      if |code(x)| == TAG_SIZE then code(x) else Zeros(TAG_SIZE)
    }
  }

  datatype Header = Header(kind: Byte, session: Bytes)

  predicate IsHandshake(kind: Byte) {
    1 <= kind <= 5
  }

  // knownPacketType
  predicate Known(kind: Byte) {
    IsHandshake(kind) || 16 <= kind <= 28 || 32 <= kind <= 38 || kind == 48 || kind == 63
  }

  // validateEnvelope
  predicate EnvelopeOk(h: Header, bodySize: nat) {
    && Known(h.kind) && |h.session| == 16 && h.session != Zeros(16) && bodySize <= MAX_BODY_SIZE
    && (if IsHandshake(h.kind) then bodySize == HANDSHAKE_BODY_SIZE else bodySize >= ROUTE_SIZE)
  }

  function Prefix(h: Header, bodySize: nat): Bytes {
    MAGIC + [VERSION, h.kind] + Put(bodySize, 2) + h.session
  }

  // A complete packet.
  function Frame(h: Header, body: Bytes, mac: Mac): Bytes {
    Prefix(h, |body|) + body + mac.Tag(Prefix(h, |body|) + body)
  }

  datatype Opened = Opened(header: Header, body: Bytes)

  lemma PrefixParts(h: Header, bodySize: nat)
    requires |h.session| == 16 && bodySize < 0x1_0000
    ensures var p := Prefix(h, bodySize);
      && |p| == PREFIX_SIZE && p[..4] == MAGIC && p[4] == VERSION && p[5] == h.kind && Get(p[6..8]) == bodySize
      && p[8..] == h.session
  {
    hide Put, Get;
    Fixed16(bodySize, []);
    assert Prefix(h, bodySize)[6..8] == Put(bodySize, 2);
  }

  // Where the parts of a packet stand.
  lemma FrameParts(h: Header, body: Bytes, mac: Mac)
    requires EnvelopeOk(h, |body|)
    ensures var p := Frame(h, body, mac);
      && |p| == |body| + ENVELOPE_OVERHEAD <= MAX_UDP_PAYLOAD
      && p[..4] == MAGIC && p[4] == VERSION && p[5] == h.kind && Get(p[6..8]) == |body| && p[8..24] == h.session
      && p[24..24 + |body|] == body && p[..24 + |body|] == Prefix(h, |body|) + body
      && p[24 + |body|..] == mac.Tag(Prefix(h, |body|) + body)
  {
    hide Put, Get, Prefix;
    PrefixParts(h, |body|);
    var p, q := Frame(h, body, mac), Prefix(h, |body|);
    assert p[..24] == q && p[6..8] == q[6..8] && p[8..24] == q[8..] && p[..4] == q[..4];
  }

  /** ParseEnvelope and Authenticate: a packet opens exactly when it is the frame of a
      header and body that are allowed, under a valid tag, and it opens to those. */
  method Open(packet: Bytes, mac: Mac) returns (r: Option<Opened>)
    ensures r.Some? ==> EnvelopeOk(r.value.header, |r.value.body|) && Frame(r.value.header, r.value.body, mac) == packet
    ensures forall h, body :: EnvelopeOk(h, |body|) && Frame(h, body, mac) == packet ==> r == Some(Opened(h, body))
  {
    hide Put, Get, Frame, EnvelopeOk;
    OnlyFrame(packet, mac);
    if |packet| > MAX_UDP_PAYLOAD || |packet| < ENVELOPE_OVERHEAD || packet[..4] != MAGIC || packet[4] != VERSION {
      return None;
    }
    var header := Header(packet[5], packet[8..24]);
    var bodySize := Get(packet[6..8]);
    if bodySize + ENVELOPE_OVERHEAD != |packet| || !EnvelopeOk(header, bodySize) {
      return None;
    }
    var at := |packet| - TAG_SIZE;
    if mac.Tag(packet[..at]) != packet[at..] {
      return None;
    }
    Reframe(packet, mac, header, bodySize);
    return Some(Opened(header, packet[PREFIX_SIZE..at]));
  }

  lemma OnlyFrame(packet: Bytes, mac: Mac)
    ensures forall h, body :: EnvelopeOk(h, |body|) && Frame(h, body, mac) == packet ==>
      && ENVELOPE_OVERHEAD <= |packet| == |body| + ENVELOPE_OVERHEAD <= MAX_UDP_PAYLOAD
      && packet[..4] == MAGIC && packet[4] == VERSION && h == Header(packet[5], packet[8..24])
      && Get(packet[6..8]) == |body| && body == packet[24..|packet| - 32]
      && mac.Tag(packet[..|packet| - 32]) == packet[|packet| - 32..]
  {
    hide Put, Get, Frame, EnvelopeOk;
    forall h, body | EnvelopeOk(h, |body|) && Frame(h, body, mac) == packet
      ensures ENVELOPE_OVERHEAD <= |packet| == |body| + ENVELOPE_OVERHEAD <= MAX_UDP_PAYLOAD
      ensures packet[..4] == MAGIC && packet[4] == VERSION && h == Header(packet[5], packet[8..24])
      ensures Get(packet[6..8]) == |body| && body == packet[24..|packet| - 32]
      ensures mac.Tag(packet[..|packet| - 32]) == packet[|packet| - 32..]
    {
      FrameParts(h, body, mac);
    }
  }

  lemma Reframe(packet: Bytes, mac: Mac, h: Header, bodySize: nat)
    requires |packet| == bodySize + ENVELOPE_OVERHEAD && packet[..4] == MAGIC && packet[4] == VERSION
    requires h == Header(packet[5], packet[8..24]) && Get(packet[6..8]) == bodySize
    requires mac.Tag(packet[..|packet| - 32]) == packet[|packet| - 32..]
    ensures Frame(h, packet[24..|packet| - 32], mac) == packet
  {
    hide Put, Get;
    Fixed16(0, packet[6..8]);
    var at := |packet| - 32;
    assert packet[..24] == packet[..4] + [packet[4], packet[5]] + packet[6..8] + packet[8..24];
    assert packet[..at] == packet[..24] + packet[24..at];
    assert packet == packet[..at] + packet[at..];
  }

  // ---------------------------------------------------------------------------
  // Routes

  datatype Route = Route(path: U32, generation: U64, budget: U32)

  // validateRoute: only path validation runs without a budget.
  predicate RouteOk(kind: Byte, r: Route) {
    1 <= r.path <= 256 && r.generation != 0 && (16 <= kind <= 19 <==> r.budget == 0)
  }

  function RouteBytes(r: Route): (b: Bytes)
    ensures |b| == ROUTE_SIZE
  {
    Put(r.path, 4) + Put(r.generation, 8) + Put(r.budget, 4)
  }

  function ReadRoute(b: Bytes): Route
    requires |b| == ROUTE_SIZE
  {
    Fixed32(0, b[..4]);
    Fixed64(0, b[4..12]);
    Fixed32(0, b[12..]);
    Route(Get(b[..4]), Get(b[4..12]), Get(b[12..]))
  }

  lemma RouteRead(r: Route)
    ensures ReadRoute(RouteBytes(r)) == r
  {
    hide Put, Get;
    Fixed32(r.path, []);
    Fixed64(r.generation, []);
    Fixed32(r.budget, []);
    var b := RouteBytes(r);
    assert b[..4] == Put(r.path, 4) && b[4..12] == Put(r.generation, 8) && b[12..] == Put(r.budget, 4);
  }

  lemma RouteWritten(b: Bytes)
    requires |b| == ROUTE_SIZE
    ensures RouteBytes(ReadRoute(b)) == b
  {
    hide Put, Get;
    Fixed32(0, b[..4]);
    Fixed64(0, b[4..12]);
    Fixed32(0, b[12..]);
    assert b == b[..4] + b[4..12] + b[12..];
  }

  datatype Message = Message(header: Header, route: Route, body: Bytes)

  predicate MessageOk(m: Message) {
    && !IsHandshake(m.header.kind) && EnvelopeOk(m.header, ROUTE_SIZE + |m.body|) && RouteOk(m.header.kind, m.route)
  }

  function MessageBytes(m: Message, mac: Mac): Bytes {
    Frame(m.header, RouteBytes(m.route) + m.body, mac)
  }

  // AppendEstablished
  function Append(m: Message, mac: Mac): Option<Bytes> {
    if MessageOk(m) then Some(MessageBytes(m, mac)) else None
  }

  /** DecodeEstablished inverts AppendEstablished: it accepts exactly the packets that
      AppendEstablished produces. */
  method Receive(packet: Bytes, mac: Mac) returns (r: Option<Message>)
    ensures r.Some? ==> Append(r.value, mac) == Some(packet)
    ensures forall m :: Append(m, mac) == Some(packet) ==> r == Some(m)
  {
    hide Frame, EnvelopeOk, RouteBytes, ReadRoute, RouteOk, Put, Get, Append, IsHandshake;
    var envelope := Open(packet, mac);
    AppendFrames(packet, mac);
    if envelope == None || IsHandshake(envelope.value.header.kind) {
      return None;
    }
    var h, body := envelope.value.header, envelope.value.body;
    Unpacked(packet, mac, h, body);
    var route := ReadRoute(body[..ROUTE_SIZE]);
    if !RouteOk(h.kind, route) {
      return None;
    }
    return Some(Message(h, route, body[ROUTE_SIZE..]));
  }

  lemma AppendFrames(packet: Bytes, mac: Mac)
    ensures forall m :: Append(m, mac) == Some(packet) ==>
      && !IsHandshake(m.header.kind) && EnvelopeOk(m.header, |RouteBytes(m.route) + m.body|)
      && Frame(m.header, RouteBytes(m.route) + m.body, mac) == packet
  {
    hide Frame, EnvelopeOk, RouteOk, Put, Get;
  }

  // The only message that a packet of this header and body can be.
  lemma Unpacked(packet: Bytes, mac: Mac, h: Header, body: Bytes)
    requires EnvelopeOk(h, |body|) && Frame(h, body, mac) == packet && !IsHandshake(h.kind)
    requires forall g, b :: EnvelopeOk(g, |b|) && Frame(g, b, mac) == packet ==> Opened(g, b) == Opened(h, body)
    ensures |body| >= ROUTE_SIZE
    ensures var m := Message(h, ReadRoute(body[..ROUTE_SIZE]), body[ROUTE_SIZE..]);
      && (forall x :: Append(x, mac) == Some(packet) ==> x == m)
      && (Append(m, mac) == Some(packet) <==> RouteOk(h.kind, m.route))
  {
    hide Frame, RouteBytes, ReadRoute, RouteOk, Put, Get;
    RouteSplit(packet, mac, h, body);
    RouteWritten(body[..ROUTE_SIZE]);
    assert body == body[..ROUTE_SIZE] + body[ROUTE_SIZE..];
  }

  lemma RouteSplit(packet: Bytes, mac: Mac, h: Header, body: Bytes)
    requires forall g, b :: EnvelopeOk(g, |b|) && Frame(g, b, mac) == packet ==> Opened(g, b) == Opened(h, body)
    requires |body| >= ROUTE_SIZE
    ensures forall m :: Append(m, mac) == Some(packet) ==>
      m == Message(h, ReadRoute(body[..ROUTE_SIZE]), body[ROUTE_SIZE..])
  {
    hide Frame, EnvelopeOk, RouteBytes, ReadRoute, RouteOk, Put, Get;
    forall m | Append(m, mac) == Some(packet)
      ensures m == Message(h, ReadRoute(body[..ROUTE_SIZE]), body[ROUTE_SIZE..])
    {
      RouteRead(m.route);
      var b := RouteBytes(m.route) + m.body;
      assert |b| == ROUTE_SIZE + |m.body| && Opened(m.header, b) == Opened(h, body);
      assert body[..ROUTE_SIZE] == RouteBytes(m.route) && body[ROUTE_SIZE..] == m.body;
    }
  }
}
