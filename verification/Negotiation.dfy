// internal/negotiationv2: validation of endpoint profiles and selection of the
// handshake contract.
module Negotiation {
  import opened Words

  type Caps = bv64

  const FRAGMENT_MANIFEST: Caps := 1
  const AGGREGATION: Caps := 2
  const DATAGRAM_REPAIR: Caps := 4
  const NATIVE_KCP: Caps := 8
  const KCP_PACKET_PIECES: Caps := 16
  const SMUX_ADMISSION: Caps := 32
  const PLPMTUD: Caps := 64
  const PER_CARRIER_BUDGET: Caps := 128
  const GROUP_MIGRATION: Caps := 256
  const KNOWN: Caps := 511

  const DATAGRAM := 1
  const KCP := 2
  const MUX_OFF := 0
  const SMUX := 1
  const FIXED := 0
  const PROBE := 1
  const SESSION_BUDGET := 0
  const CARRIER_BUDGET := 1

  const MAX_RECEIVE_BYTES := 0x4000_0000
  const INITIAL_SMUX_WINDOW := 262144

  type U8 = x: int | 0 <= x < 0x100
  type U16 = x: int | 0 <= x < 0x1_0000

  datatype NegotiationErr = NoErr | ErrInvalid | ErrIncompatible | ErrUnsupportedCapability

  datatype PayloadLimits = PayloadLimits(sendHardCap: U16, receiveHardCap: U16, bootstrapBytes: U16, innerKCPBytes: U16)

  datatype DatagramLimits = DatagramLimits(
    datagramWindow: U32, groupWindow: U32, maxDatagramBytes: U32, maxFragments: U16, maxDescriptors: U16,
    maxDatagramAssemblies: U32)

  datatype RepairLimits = RepairLimits(maxAgeMS: U32, maxAttempts: U16)

  datatype StreamLimits = StreamLimits(
    maxBusinessStreams: U32, maxPendingAccepts: U32, sessionReceiveBytes: U32, streamReceiveBytes: U32,
    controlReceiveReserve: U32, maxPendingOpens: U32, maxFrameBytes: U32)

  datatype EpochLimits = EpochLimits(maxOldEpochs: U16, maxMigrations: U16, graceMS: U32)

  const NO_DATAGRAM := DatagramLimits(0, 0, 0, 0, 0, 0)
  const NO_REPAIR := RepairLimits(0, 0)
  const NO_STREAMS := StreamLimits(0, 0, 0, 0, 0, 0, 0)

  datatype Profile = Profile(
    protocol: U8, offered: Caps, required: Caps, layoutID: U16, dataShards: U8, parityShards: U8, mux: U16,
    discovery: U8, scope: U8, payload: PayloadLimits, datagram: DatagramLimits, repair: RepairLimits,
    streams: StreamLimits, epochs: EpochLimits, maxPaths: U16)

  datatype Advertisement = Advertisement(profile: Profile, path: U16)

  datatype Role = Initiator | Responder

  datatype Contract = Contract(
    selected: Caps, active: Caps, maxPaths: U16, path: U16, muxFrameBytes: U32, repair: RepairLimits,
    epochs: EpochLimits, client: Profile, server: Profile)

  function Min(a: int, b: int): int {
    if a < b then a else b
  }

  // ---------------------------------------------------------------------------
  // Validation

  predicate DatagramOk(d: DatagramLimits) {
    && 1 <= d.datagramWindow <= 65536 && 1 <= d.groupWindow <= 65536 && 1 <= d.maxDatagramBytes <= 0x100_0000
    && 1 <= d.maxFragments <= 4096 && 1 <= d.maxDescriptors <= 256
    && 1 <= d.maxDatagramAssemblies <= d.datagramWindow
  }

  predicate StreamsOk(s: StreamLimits, mux: U16) {
    && 1 <= s.maxPendingAccepts <= 65536 && 1 <= s.sessionReceiveBytes <= MAX_RECEIVE_BYTES
    && 1 <= s.streamReceiveBytes <= s.sessionReceiveBytes
    && if mux == MUX_OFF then
         s.maxBusinessStreams == 0 && s.controlReceiveReserve == 0 && s.maxPendingOpens == 0 && s.maxFrameBytes == 0
       else
         var minimum := INITIAL_SMUX_WINDOW + s.maxFrameBytes;
         && 1 <= s.maxBusinessStreams <= 4096 && 1 <= s.maxPendingOpens <= 128 && 128 <= s.maxFrameBytes <= 65535
         && s.streamReceiveBytes >= minimum && s.controlReceiveReserve >= minimum
         && s.controlReceiveReserve + minimum <= s.sessionReceiveBytes
  }

  // applicableCaps, of the choices it looks at
  function ApplicableTo(protocol: U8, mux: U16, discovery: U8, scope: U8): Caps {
    (if protocol == DATAGRAM then FRAGMENT_MANIFEST | AGGREGATION | DATAGRAM_REPAIR | GROUP_MIGRATION
     else (NATIVE_KCP | KCP_PACKET_PIECES) | (if mux == SMUX then SMUX_ADMISSION else 0))
    | (if discovery == PROBE then PLPMTUD else 0) | (if scope == CARRIER_BUDGET then PER_CARRIER_BUDGET else 0)
  }

  function Applicable(p: Profile): Caps {
    ApplicableTo(p.protocol, p.mux, p.discovery, p.scope)
  }

  // The capabilities that those choices make mandatory.
  function MandatoryFor(protocol: U8, mux: U16, discovery: U8, scope: U8): Caps {
    (if discovery == PROBE then PLPMTUD else 0) | (if scope == CARRIER_BUDGET then PER_CARRIER_BUDGET else 0)
    | (if protocol == DATAGRAM then FRAGMENT_MANIFEST
       else NATIVE_KCP | (if discovery == PROBE || scope == CARRIER_BUDGET then KCP_PACKET_PIECES else 0))
    | (if mux == SMUX then SMUX_ADMISSION else 0)
  }

  function Mandatory(p: Profile): Caps {
    MandatoryFor(p.protocol, p.mux, p.discovery, p.scope)
  }

  // What Validate checks about capabilities.
  predicate CapsOk(p: Profile) {
    && p.required & !p.offered == 0
    && (p.offered & GROUP_MIGRATION == 0 ==> p.epochs.maxMigrations == 0)
    && (p.offered & GROUP_MIGRATION != 0 ==> 1 <= p.epochs.maxMigrations <= 2)
    && p.offered & DATAGRAM_REPAIR == p.required & DATAGRAM_REPAIR
    && (p.mux != SMUX ==> p.offered & SMUX_ADMISSION == 0)
    && p.required & Mandatory(p) == Mandatory(p)
    && p.required & !Applicable(p) == 0
  }

  // What Validate checks about everything else.
  predicate LimitsOk(p: Profile) {
    && (p.protocol == DATAGRAM || p.protocol == KCP) && p.mux <= SMUX && p.discovery <= PROBE && p.scope <= CARRIER_BUDGET
    && 512 <= p.payload.sendHardCap <= 65507 && 512 <= p.payload.receiveHardCap <= 65507 && p.payload.bootstrapBytes == 512
    && 1 <= p.maxPaths <= 256
    && 1 <= p.epochs.maxOldEpochs <= 8 && 100 <= p.epochs.graceMS <= 60000
    && (p.protocol == DATAGRAM ==>
        && p.layoutID == 1 && p.dataShards != 0 && p.parityShards != 0 && p.dataShards + p.parityShards <= 256
        && p.payload.innerKCPBytes == 0 && p.mux == MUX_OFF && p.streams == NO_STREAMS && DatagramOk(p.datagram))
    && (p.protocol == KCP ==>
        && p.layoutID == 0 && p.dataShards == 0 && p.parityShards == 0 && p.datagram == NO_DATAGRAM
        && p.payload.innerKCPBytes == 1500 && StreamsOk(p.streams, p.mux))
    && (if p.required & DATAGRAM_REPAIR != 0 then
          p.protocol == DATAGRAM && 100 <= p.repair.maxAgeMS <= 60000 && 1 <= p.repair.maxAttempts <= 16
        else p.repair == NO_REPAIR)
  }

  // Profile.Validate. An unknown required capability is its own error, checked
  // after the enumerations and before everything else.
  function Validate(p: Profile): NegotiationErr {
    if (p.protocol != DATAGRAM && p.protocol != KCP) || p.mux > SMUX || p.discovery > PROBE || p.scope > CARRIER_BUDGET
    then ErrInvalid
    else if p.required & !KNOWN != 0 then ErrUnsupportedCapability
    else if CapsOk(p) && LimitsOk(p) then NoErr
    else ErrInvalid
  }

  function ValidateAdvertisement(a: Advertisement): NegotiationErr {
    if Validate(a.profile) != NoErr then Validate(a.profile)
    else if a.path < 1 || a.path > a.profile.maxPaths then ErrInvalid
    else NoErr
  }

  // ---------------------------------------------------------------------------
  // Selection

  predicate SamePolicy(a: Profile, b: Profile) {
    && a.protocol == b.protocol && a.layoutID == b.layoutID && a.dataShards == b.dataShards
    && a.parityShards == b.parityShards && a.mux == b.mux && a.discovery == b.discovery && a.scope == b.scope
    && a.required & DATAGRAM_REPAIR == b.required & DATAGRAM_REPAIR
  }

  // What a Carrier-budget client with fixed payloads needs of its peer.
  predicate PathsFit(hello: Advertisement, maxPaths: U16) {
    && hello.path <= Min(hello.profile.maxPaths, maxPaths)
    && !(hello.profile.discovery == FIXED && hello.profile.scope == CARRIER_BUDGET && hello.profile.maxPaths > maxPaths)
  }

  datatype Outcome<T> = Accepted(value: T) | Refused(err: NegotiationErr)

  // The listener's side of a negotiation.
  datatype Selection = Selection(challenge: Advertisement, contract: Contract)

  function AcceptErr(hello: Advertisement, challenge: Advertisement): NegotiationErr {
    var h, c := hello.profile, challenge.profile;
    if ValidateAdvertisement(hello) != NoErr then ValidateAdvertisement(hello)
    else if ValidateAdvertisement(challenge) != NoErr then ValidateAdvertisement(challenge)
    else if !SamePolicy(h, c) || c.offered & !KNOWN != 0 || c.offered & !h.offered != 0
      || (h.required | c.required) & !c.offered != 0 || hello.path != challenge.path || !PathsFit(hello, c.maxPaths)
    then ErrIncompatible
    else NoErr
  }

  function Agreed(hello: Advertisement, challenge: Advertisement): Contract {
    var h, c := hello.profile, challenge.profile;
    Contract(
      c.offered, c.offered & Applicable(h), Min(h.maxPaths, c.maxPaths), hello.path,
      Min(h.streams.maxFrameBytes, c.streams.maxFrameBytes),
      RepairLimits(Min(h.repair.maxAgeMS, c.repair.maxAgeMS), Min(h.repair.maxAttempts, c.repair.maxAttempts)),
      EpochLimits(Min(h.epochs.maxOldEpochs, c.epochs.maxOldEpochs), Min(h.epochs.maxMigrations, c.epochs.maxMigrations),
                  Min(h.epochs.graceMS, c.epochs.graceMS)),
      h, c)
  }

  // Accept of select.go.
  function Accept(hello: Advertisement, challenge: Advertisement): Outcome<Contract> {
    var err := AcceptErr(hello, challenge);
    if err != NoErr then Refused(err) else Accepted(Agreed(hello, challenge))
  }

  // Select's narrowed answer: the listener's profile with the common capabilities.
  function Narrowed(hello: Advertisement, listener: Profile): Advertisement {
    var selected := hello.profile.offered & listener.offered & KNOWN;
    Advertisement(
      listener.(offered := selected,
                epochs := if selected & GROUP_MIGRATION == 0 then listener.epochs.(maxMigrations := 0) else listener.epochs),
      hello.path)
  }

  function SelectErr(hello: Advertisement, listener: Profile): NegotiationErr {
    var selected := hello.profile.offered & listener.offered & KNOWN;
    if ValidateAdvertisement(hello) != NoErr then ValidateAdvertisement(hello)
    else if Validate(listener) != NoErr then Validate(listener)
    else if !SamePolicy(hello.profile, listener) || (hello.profile.required | listener.required) & !selected != 0
    then ErrIncompatible
    else AcceptErr(hello, Narrowed(hello, listener))
  }

  // Select of select.go: the answer it sends is the one it accepts itself.
  function Select(hello: Advertisement, listener: Profile): Outcome<Selection> {
    var err := SelectErr(hello, listener);
    if err != NoErr then Refused(err)
    else
      var challenge := Narrowed(hello, listener);
      Accepted(Selection(challenge, Agreed(hello, challenge)))
  }

  // ---------------------------------------------------------------------------
  // Bit masks

  lemma MaskSubset(a: Caps, b: Caps, s: Caps)
    requires (a | b) & !s == 0
    ensures a & !s == 0 && b & !s == 0
  {
  }

  lemma RepairSurvives(h: Caps, l: Caps, hr: Caps, lr: Caps)
    requires h & DATAGRAM_REPAIR == hr & DATAGRAM_REPAIR && l & DATAGRAM_REPAIR == lr & DATAGRAM_REPAIR
    requires hr & DATAGRAM_REPAIR == lr & DATAGRAM_REPAIR
    ensures (h & l & KNOWN) & DATAGRAM_REPAIR == lr & DATAGRAM_REPAIR
  {
  }

  lemma NarrowedBits(h: Caps, l: Caps)
    ensures (h & l & KNOWN) & !h == 0 && (h & l & KNOWN) & !l == 0 && (h & l & KNOWN) & !KNOWN == 0
    ensures l & SMUX_ADMISSION == 0 ==> (h & l & KNOWN) & SMUX_ADMISSION == 0
    ensures (h & l & KNOWN) & GROUP_MIGRATION != 0 ==> l & GROUP_MIGRATION != 0
  {
  }

  lemma SubsetActive(r: Caps, s: Caps, a: Caps)
    requires r & !s == 0 && r & !a == 0
    ensures r & !(s & a) == 0
  {
  }

  // ---------------------------------------------------------------------------
  // Soundness

  /** Narrowing the listener's profile to the common capabilities keeps it valid,
      as long as those cover what both ends require. */
  lemma NarrowedIsValid(hello: Advertisement, listener: Profile)
    requires ValidateAdvertisement(hello) == NoErr && Validate(listener) == NoErr && SamePolicy(hello.profile, listener)
    requires (hello.profile.required | listener.required) & !(hello.profile.offered & listener.offered & KNOWN) == 0
    ensures Validate(Narrowed(hello, listener).profile) == NoErr
  {
    hide CapsOk, LimitsOk;
    NarrowedCapsOk(hello, listener);
    NarrowedLimitsOk(hello, listener);
  }

  lemma NarrowedCapsOk(hello: Advertisement, listener: Profile)
    requires CapsOk(hello.profile) && CapsOk(listener) && SamePolicy(hello.profile, listener)
    requires (hello.profile.required | listener.required) & !(hello.profile.offered & listener.offered & KNOWN) == 0
    ensures CapsOk(Narrowed(hello, listener).profile)
  {
    hide ApplicableTo, MandatoryFor;
    var h, n := hello.profile, Narrowed(hello, listener).profile;
    MaskSubset(h.required, listener.required, n.offered);
    RepairSurvives(h.offered, listener.offered, h.required, listener.required);
    NarrowedBits(h.offered, listener.offered);
  }

  lemma NarrowedLimitsOk(hello: Advertisement, listener: Profile)
    requires LimitsOk(listener)
    ensures LimitsOk(Narrowed(hello, listener).profile)
  {
    hide StreamsOk, DatagramOk;
  }

  /** Select succeeds exactly when both ends are valid, follow the same policy, can
      cover each other's required capabilities and the listener has the bootstrap path
      and, for a Carrier budget with fixed payloads, every path of the client. */
  lemma SelectSucceedsIff(hello: Advertisement, listener: Profile)
    ensures var h, selected := hello.profile, hello.profile.offered & listener.offered & KNOWN;
      SelectErr(hello, listener) == NoErr <==>
        && ValidateAdvertisement(hello) == NoErr && Validate(listener) == NoErr
        && h.protocol == listener.protocol && h.layoutID == listener.layoutID
        && h.dataShards == listener.dataShards && h.parityShards == listener.parityShards
        && h.mux == listener.mux && h.discovery == listener.discovery && h.scope == listener.scope
        && h.required & DATAGRAM_REPAIR == listener.required & DATAGRAM_REPAIR
        && (h.required | listener.required) & !selected == 0
        && hello.path <= listener.maxPaths
        && (h.discovery == FIXED && h.scope == CARRIER_BUDGET ==> h.maxPaths <= listener.maxPaths)
  {
    hide Validate, CapsOk, SelectErr;
    SelectIff(hello, listener);
  }

  // The same in the words of the code.
  lemma SelectIff(hello: Advertisement, listener: Profile)
    ensures var selected := hello.profile.offered & listener.offered & KNOWN;
      SelectErr(hello, listener) == NoErr <==>
        && ValidateAdvertisement(hello) == NoErr && Validate(listener) == NoErr && SamePolicy(hello.profile, listener)
        && (hello.profile.required | listener.required) & !selected == 0
        && PathsFit(hello, listener.maxPaths)
  {
    hide Validate, Narrowed, SamePolicy, PathsFit;
    NarrowedFacts(hello, listener);
    if ValidateAdvertisement(hello) == NoErr && Validate(listener) == NoErr && SamePolicy(hello.profile, listener)
      && (hello.profile.required | listener.required) & !(hello.profile.offered & listener.offered & KNOWN) == 0 {
      NarrowedIsValid(hello, listener);
    }
  }

  // What narrowing keeps of the listener's profile.
  lemma NarrowedFacts(hello: Advertisement, listener: Profile)
    ensures var n := Narrowed(hello, listener);
      && n.path == hello.path && n.profile.required == listener.required && n.profile.maxPaths == listener.maxPaths
      && n.profile.offered == hello.profile.offered & listener.offered & KNOWN
      && n.profile.offered & !KNOWN == 0 && n.profile.offered & !hello.profile.offered == 0
      && (SamePolicy(hello.profile, n.profile) <==> SamePolicy(hello.profile, listener))
      && (PathsFit(hello, n.profile.maxPaths) ==> 1 > hello.path || hello.path <= n.profile.maxPaths)
  {
    NarrowedBits(hello.profile.offered, listener.offered);
  }

  /** With compatible capabilities and policies, a bootstrap path beyond the
      listener's last path makes the narrowed answer itself invalid: Select then
      reports an invalid contract and not an incompatible one. Any other path
      mismatch is reported as incompatible. */
  lemma PathErrors(hello: Advertisement, listener: Profile)
    requires ValidateAdvertisement(hello) == NoErr && Validate(listener) == NoErr && SamePolicy(hello.profile, listener)
    requires (hello.profile.required | listener.required) & !(hello.profile.offered & listener.offered & KNOWN) == 0
    ensures SelectErr(hello, listener) == ErrInvalid <==> hello.path > listener.maxPaths
    ensures SelectErr(hello, listener) == ErrIncompatible <==>
      hello.path <= listener.maxPaths && !PathsFit(hello, listener.maxPaths)
  {
    hide Validate;
    NarrowedIsValid(hello, listener);
    NarrowedBits(hello.profile.offered, listener.offered);
  }

  /** The client accepts every answer that Select sends, and both ends then hold
      the same contract, whose capabilities are what both offered. */
  lemma AcceptAgreesWithSelect(hello: Advertisement, listener: Profile)
    requires Select(hello, listener).Accepted?
    ensures var s := Select(hello, listener).value;
      && Accept(hello, s.challenge) == Accepted(s.contract)
      && s.contract.client == hello.profile && s.contract.path == hello.path
      && s.contract.selected == hello.profile.offered & listener.offered & KNOWN
      && s.contract.server == listener.(offered := s.contract.selected, epochs := s.contract.server.epochs)
  {
    hide ValidateAdvertisement, Validate;
  }

  /** In every agreed contract the selected capabilities were offered and are
      known, what either end requires is selected and active, and the bootstrap path
      lies within the agreed paths. */
  lemma ContractIsSound(hello: Advertisement, challenge: Advertisement)
    requires AcceptErr(hello, challenge) == NoErr
    ensures var c, h, l := Agreed(hello, challenge), hello.profile, challenge.profile;
      && c.selected & !h.offered == 0 && c.selected & !KNOWN == 0
      && h.required & !c.active == 0 && l.required & !c.active == 0 && c.active & !c.selected == 0
      && 1 <= c.path <= c.maxPaths && c.maxPaths <= h.maxPaths && c.maxPaths <= l.maxPaths
  {
    hide ApplicableTo, MandatoryFor, StreamsOk, DatagramOk;
    var h, l := hello.profile, challenge.profile;
    MaskSubset(h.required, l.required, l.offered);
    SubsetActive(h.required, l.offered, Applicable(h));
    SubsetActive(l.required, l.offered, Applicable(h));
    ActiveIsSelected(l.offered, Applicable(h));
  }

  lemma ActiveIsSelected(s: Caps, a: Caps)
    ensures (s & a) & !s == 0
  {
  }

  // x is as large as a and b allow.
  predicate Least(x: int, a: int, b: int) {
    x <= a && x <= b && (x == a || x == b)
  }

  /** An agreed contract gives away nothing: every shared limit is one end's own, the
      lesser one, and a capability is active exactly when it is selected and applies. */
  lemma ContractIsTight(hello: Advertisement, challenge: Advertisement)
    requires AcceptErr(hello, challenge) == NoErr
    ensures var c, h, l := Agreed(hello, challenge), hello.profile, challenge.profile;
      && Least(c.maxPaths, h.maxPaths, l.maxPaths) && c.path == hello.path == challenge.path
      && Least(c.muxFrameBytes, h.streams.maxFrameBytes, l.streams.maxFrameBytes)
      && Least(c.repair.maxAgeMS, h.repair.maxAgeMS, l.repair.maxAgeMS)
      && Least(c.repair.maxAttempts, h.repair.maxAttempts, l.repair.maxAttempts)
      && Least(c.epochs.maxOldEpochs, h.epochs.maxOldEpochs, l.epochs.maxOldEpochs)
      && Least(c.epochs.maxMigrations, h.epochs.maxMigrations, l.epochs.maxMigrations)
      && Least(c.epochs.graceMS, h.epochs.graceMS, l.epochs.graceMS)
      && c.selected == l.offered && c.active == c.selected & Applicable(l) && c.client == h && c.server == l
      && Applicable(h) == Applicable(l)
  {
    hide ValidateAdvertisement, ApplicableTo;
  }

  // ---------------------------------------------------------------------------
  // Effective limits of one direction

  datatype StreamSendLimits = StreamSendLimits(maxOpenStreams: U32, maxPendingOpens: U32, sessionBytes: U32, streamBytes: U32)

  datatype SendLimits = SendLimits(datagram: DatagramLimits, streams: StreamSendLimits)

  const NO_SEND_STREAMS := StreamSendLimits(0, 0, 0, 0)

  datatype DirectionLimits = DirectionLimits(
    maxUDPPayload: U16, datagram: DatagramLimits, streams: StreamSendLimits, controlReserve: U32, businessBytes: int)

  function Self(c: Contract, role: Role): Profile {
    if role == Initiator then c.client else c.server
  }

  function Peer(c: Contract, role: Role): Profile {
    if role == Initiator then c.server else c.client
  }

  predicate SendLimitsOk(p: Profile, local: SendLimits) {
    if p.protocol == DATAGRAM then DatagramOk(local.datagram) && local.streams == NO_SEND_STREAMS
    else
      && local.datagram == NO_DATAGRAM && 1 <= local.streams.sessionBytes <= MAX_RECEIVE_BYTES
      && 1 <= local.streams.streamBytes <= local.streams.sessionBytes
      && if p.mux == MUX_OFF then local.streams.maxOpenStreams == 0 && local.streams.maxPendingOpens == 0
         else 1 <= local.streams.maxOpenStreams <= 4096 && 1 <= local.streams.maxPendingOpens <= 128
  }

  // The unsigned difference of two uint32 values.
  function Sub32(a: U32, b: U32): U32 {
    (a - b) % 0x1_0000_0000
  }

  function EffectiveSend(c: Contract, role: Role, local: SendLimits): Outcome<DirectionLimits> {
    var self, peer := Self(c, role), Peer(c, role);
    if !SendLimitsOk(self, local) then Refused(ErrInvalid)
    else
      var payload := Min(self.payload.sendHardCap, peer.payload.receiveHardCap);
      if self.protocol == DATAGRAM then
        var a, b := local.datagram, peer.datagram;
        Accepted(DirectionLimits(
          payload,
          DatagramLimits(
            Min(a.datagramWindow, b.datagramWindow), Min(a.groupWindow, b.groupWindow),
            Min(a.maxDatagramBytes, b.maxDatagramBytes), Min(a.maxFragments, b.maxFragments),
            Min(a.maxDescriptors, b.maxDescriptors),
            Min(Min(a.maxDatagramAssemblies, b.maxDatagramAssemblies), Min(a.datagramWindow, b.datagramWindow))),
          NO_SEND_STREAMS, 0, 0))
      else
        var s, t := local.streams, peer.streams;
        var business := Min(s.sessionBytes, Sub32(t.sessionReceiveBytes, t.controlReceiveReserve));
        Accepted(DirectionLimits(
          payload, NO_DATAGRAM,
          StreamSendLimits(
            Min(s.maxOpenStreams, t.maxBusinessStreams), Min(s.maxPendingOpens, Min(t.maxPendingOpens, t.maxPendingAccepts)),
            Min(s.sessionBytes, t.sessionReceiveBytes), Min(Min(s.streamBytes, t.streamReceiveBytes), business)),
          t.controlReceiveReserve, business))
  }

  // The Datagram limits of a direction.
  lemma DatagramSendIsSound(hello: Advertisement, challenge: Advertisement, role: Role, local: SendLimits)
    requires Accept(hello, challenge).Accepted? && hello.profile.protocol == DATAGRAM && SendLimitsOk(hello.profile, local)
    ensures var c := Accept(hello, challenge).value;
      EffectiveSend(c, role, local).Accepted? && EffectiveSend(c, role, local).value.maxUDPPayload >= 512
      && DatagramWithin(EffectiveSend(c, role, local).value, Peer(c, role))
  {
    hide CapsOk, PathsFit, StreamsOk;
  }

  // The reliable limits of a direction.
  lemma StreamSendIsSound(hello: Advertisement, challenge: Advertisement, role: Role, local: SendLimits)
    requires Accept(hello, challenge).Accepted? && hello.profile.protocol != DATAGRAM && SendLimitsOk(hello.profile, local)
    ensures var c := Accept(hello, challenge).value;
      EffectiveSend(c, role, local).Accepted? && EffectiveSend(c, role, local).value.maxUDPPayload >= 512
      && StreamsWithin(EffectiveSend(c, role, local).value, Peer(c, role), local, hello.profile.mux != MUX_OFF)
  {
    hide Accept, DatagramOk, LimitsOk, StreamsOk, Sub32;
    AcceptedEnds(hello, challenge);
    StreamEnd(hello.profile);
    StreamEnd(challenge.profile);
    BusinessBytes(hello.profile.streams, hello.profile.mux);
    BusinessBytes(challenge.profile.streams, challenge.profile.mux);
  }

  lemma StreamEnd(p: Profile)
    requires LimitsOk(p) && p.protocol != DATAGRAM
    ensures StreamsOk(p.streams, p.mux) && p.payload.sendHardCap >= 512 && p.payload.receiveHardCap >= 512 && p.mux <= SMUX
  {
    hide StreamsOk;
  }

  // The reserve leaves something for business, and the subtraction does not wrap.
  lemma BusinessBytes(t: StreamLimits, mux: U16)
    requires StreamsOk(t, mux)
    ensures 1 <= Sub32(t.sessionReceiveBytes, t.controlReceiveReserve) == t.sessionReceiveBytes - t.controlReceiveReserve
    ensures t.streamReceiveBytes >= 1 && (mux != MUX_OFF ==> t.maxBusinessStreams >= 1)
  {
  }

  // The ends of an agreed contract are valid profiles of one policy.
  lemma AcceptedEnds(hello: Advertisement, challenge: Advertisement)
    requires Accept(hello, challenge).Accepted?
    ensures var c, h, l := Accept(hello, challenge).value, hello.profile, challenge.profile;
      && c.client == h && c.server == l && LimitsOk(h) && LimitsOk(l) && h.protocol == l.protocol && h.mux == l.mux
  {
    hide CapsOk, PathsFit, LimitsOk;
  }

  // Valid Datagram limits that the peer can receive.
  predicate DatagramWithin(e: DirectionLimits, peer: Profile) {
    && DatagramOk(e.datagram) && e.datagram.maxDatagramBytes <= peer.datagram.maxDatagramBytes
    && e.datagram.maxFragments <= peer.datagram.maxFragments && e.datagram.datagramWindow <= peer.datagram.datagramWindow
    && e.datagram.groupWindow <= peer.datagram.groupWindow && e.datagram.maxDescriptors <= peer.datagram.maxDescriptors
  }

  // Reliable limits that leave the peer its control reserve.
  predicate StreamsWithin(e: DirectionLimits, peer: Profile, local: SendLimits, muxed: bool) {
    && 1 <= e.streams.streamBytes <= e.businessBytes <= local.streams.sessionBytes
    && e.businessBytes + e.controlReserve <= peer.streams.sessionReceiveBytes
    && e.streams.streamBytes <= peer.streams.streamReceiveBytes
    && (muxed ==> 1 <= e.streams.maxOpenStreams <= peer.streams.maxBusinessStreams)
  }

  /** Under an agreed contract a direction has limits exactly when the local
      ceilings are valid for the agreed policy. They never wrap around, are valid
      limits themselves, and exceed neither the sender's ceilings nor what the peer
      advertised to receive. */
  lemma EffectiveSendIsSound(hello: Advertisement, challenge: Advertisement, role: Role, local: SendLimits)
    requires Accept(hello, challenge).Accepted?
    ensures var c := Accept(hello, challenge).value;
      && (EffectiveSend(c, role, local).Accepted? <==> SendLimitsOk(hello.profile, local))
      && (SendLimitsOk(hello.profile, local) ==>
          var e, peer := EffectiveSend(c, role, local).value, Peer(c, role);
          && 512 <= e.maxUDPPayload <= peer.payload.receiveHardCap
          && (hello.profile.protocol == DATAGRAM ==> DatagramWithin(e, peer))
          && (hello.profile.protocol != DATAGRAM ==> StreamsWithin(e, peer, local, hello.profile.mux != MUX_OFF)))
  {
    hide CapsOk, PathsFit, LimitsOk, StreamsWithin, DatagramWithin;
    if SendLimitsOk(hello.profile, local) {
      if hello.profile.protocol == DATAGRAM {
        DatagramSendIsSound(hello, challenge, role, local);
      } else {
        StreamSendIsSound(hello, challenge, role, local);
      }
    }
  }

  /** Nor does a direction: each limit is the sender's ceiling or what the peer takes. */
  lemma EffectiveSendIsTight(c: Contract, role: Role, local: SendLimits)
    requires EffectiveSend(c, role, local).Accepted?
    ensures var e, self, peer := EffectiveSend(c, role, local).value, Self(c, role), Peer(c, role);
      && Least(e.maxUDPPayload, self.payload.sendHardCap, peer.payload.receiveHardCap)
      && (self.protocol == DATAGRAM ==> var a, b, d := local.datagram, peer.datagram, e.datagram;
          && Least(d.datagramWindow, a.datagramWindow, b.datagramWindow) && Least(d.groupWindow, a.groupWindow, b.groupWindow)
          && Least(d.maxDatagramBytes, a.maxDatagramBytes, b.maxDatagramBytes)
          && Least(d.maxFragments, a.maxFragments, b.maxFragments) && Least(d.maxDescriptors, a.maxDescriptors, b.maxDescriptors)
          && d.maxDatagramAssemblies <= d.datagramWindow
          && (d.maxDatagramAssemblies == d.datagramWindow
              || Least(d.maxDatagramAssemblies, a.maxDatagramAssemblies, b.maxDatagramAssemblies)))
      && (self.protocol != DATAGRAM ==> var s, t, u := local.streams, peer.streams, e.streams;
          && Least(u.maxOpenStreams, s.maxOpenStreams, t.maxBusinessStreams) && Least(u.sessionBytes, s.sessionBytes, t.sessionReceiveBytes)
          && u.maxPendingOpens in {s.maxPendingOpens, t.maxPendingOpens, t.maxPendingAccepts}
          && u.maxPendingOpens <= s.maxPendingOpens && u.maxPendingOpens <= t.maxPendingOpens && u.maxPendingOpens <= t.maxPendingAccepts
          && u.streamBytes in {s.streamBytes, t.streamReceiveBytes, e.businessBytes}
          && u.streamBytes <= s.streamBytes && u.streamBytes <= t.streamReceiveBytes && u.streamBytes <= e.businessBytes
          && e.controlReserve == t.controlReceiveReserve
          && (t.controlReceiveReserve <= t.sessionReceiveBytes ==>
              Least(e.businessBytes, s.sessionBytes, t.sessionReceiveBytes - t.controlReceiveReserve)))
  {
  }

  /** Two ends that agree: a client that offers more than its listener does, as long as
      the listener has its path, and two that carry KCP over smux. */
  lemma SomeAgree()
    ensures var d := DatagramLimits(1024, 1024, 65535, 64, 64, 512);
      var payload, epochs := PayloadLimits(1200, 1400, 512, 0), EpochLimits(2, 1, 1000);
      var client := Profile(
        DATAGRAM, FRAGMENT_MANIFEST | AGGREGATION | GROUP_MIGRATION, FRAGMENT_MANIFEST, 1, 10, 3, MUX_OFF, FIXED,
        SESSION_BUDGET, payload, d, NO_REPAIR, NO_STREAMS, epochs, 4);
      var server := client.(offered := FRAGMENT_MANIFEST, epochs := EpochLimits(2, 0, 1000), maxPaths := 2);
      && Select(Advertisement(client, 2), server).Accepted?
      && Select(Advertisement(client, 2), server).value.contract.selected == FRAGMENT_MANIFEST
      && !Select(Advertisement(client, 3), server).Accepted?
    ensures var s := StreamLimits(256, 64, 0x200_0000, 0x10_0000, 0x10_0000, 64, 4096);
      var payload, epochs := PayloadLimits(1200, 1400, 512, 1500), EpochLimits(2, 0, 1000);
      var client := Profile(
        KCP, NATIVE_KCP | SMUX_ADMISSION, NATIVE_KCP | SMUX_ADMISSION, 0, 0, 0, SMUX, FIXED, SESSION_BUDGET, payload,
        NO_DATAGRAM, NO_REPAIR, s, epochs, 1);
      Select(Advertisement(client, 1), client).Accepted?
  {
  }
}
