/** What a session does (src/session.rs), as functions from one view of it to the next: the handshake,
    the dispatch of packets through nested MultiPackets, unreliable data, ticks and termination. The
    view holds everything but the buffers; Session.dfy proves the session object against these
    functions. The reliable channels are values of modules ReliableInput and ReliableOutput. */
module SessionSteps {
  import opened Bytes
  import opened Rc4
  import Protocol
  import MultiPackets
  import RO = ReliableOutput
  import RI = ReliableInput
  import opened SessionTrace

  datatype SessionMode = Client | Server

  datatype SessionState = Negotiating | Running | Terminated

  function Rank(s: SessionState): nat {
    match s
    case Negotiating => 0
    case Running => 1
    case Terminated => 2
  }

  const SOE_PROTOCOL_VERSION := 3
  const CRC_LENGTH := 2
  const DEFAULT_ACK_WAIT := 500_000_000

  datatype Parameters = Parameters(
    applicationProtocol: bytes, udpLength: nat, remoteUdpLength: nat, crcSeed: nat, crcLength: nat,
    compression: bool, maxQueuedIncoming: nat, maxQueuedOutgoing: nat, dataAckWindow: nat,
    heartbeatAfter: nat, inactivityTimeout: nat, acknowledgeAllData: bool, maxAckDelay: nat)

  /** What the channels and the framing need of the parameters: their arithmetic underflows otherwise. */
  predicate Usable(p: Parameters) {
    Sized(p) && p.crcLength <= 4
  }

  /** The part of it that no peer can change. */
  predicate Sized(p: Parameters) {
    13 <= p.udpLength < 0x1_0000_0000 && p.maxQueuedIncoming >= 1
  }

  /** Reliable data can be cut into packets. */
  predicate Roomy(p: Parameters) {
    MaxDataLength(p) >= 6
  }

  function MaxDataLength(p: Parameters): int {
    p.udpLength - 2 - (if p.compression then 1 else 0) - p.crcLength
  }

  function ReasonCode(r: Reason): nat {
    match r
    case NoReason => 0
    case IcmpError => 1
    case Timeout => 2
    case OtherSideTerminated => 3
    case ManagerDeleted => 4
    case ConnectFail => 5
    case Application => 6
    case UnreachableConnection => 7
    case UnacknowledgedTimeout => 8
    case NewConnectionAttempt => 9
    case ConnectionRefused => 10
    case ConnectError => 11
    case ConnectingToSelf => 12
    case ReliableOverflow => 13
    case ApplicationReleased => 14
    case CorruptPacket => 15
    case ProtocolMismatch => 16
  }

  function ReasonOf(code: nat): Reason {
    match code
    case 1 => IcmpError
    case 2 => Timeout
    case 3 => OtherSideTerminated
    case 4 => ManagerDeleted
    case 5 => ConnectFail
    case 6 => Application
    case 7 => UnreachableConnection
    case 8 => UnacknowledgedTimeout
    case 9 => NewConnectionAttempt
    case 10 => ConnectionRefused
    case 11 => ConnectError
    case 12 => ConnectingToSelf
    case 13 => ReliableOverflow
    case 14 => ApplicationReleased
    case 15 => CorruptPacket
    case 16 => ProtocolMismatch
    case _ => NoReason
  }

  // ----- Handshake packets -------------------------------------------------------------------

  datatype Request = Request(version: nat, sessionId: nat, udpLength: nat, applicationProtocol: bytes)

  /** The bytes up to the first zero, if there is one. */
  function TerminatedString(b: bytes): (name: Option<bytes>)
    ensures name.Some? <==> 0 in b
    ensures name.Some? ==> 0 !in name.value && name.value + [0] <= b
  {
    if b == [] then None
    else if b[0] == 0 then Some([])
    else
      var rest := TerminatedString(b[1..]);
      if rest.None? then None else Some([b[0]] + rest.value)
  }

  function ParseRequest(body: bytes): Option<Request> {
    if |body| < 12 then None else
      var name := TerminatedString(body[12..]);
      if name.None? then None
      else Some(Request(ReadU32(body), ReadU32(body[4..]), ReadU32(body[8..]), name.value))
  }

  datatype Response = Response(sessionId: nat, crcSeed: nat, crcLength: nat, compression: bool, udpLength: nat, version: nat)

  function ParseResponse(body: bytes): Option<Response> {
    if |body| < 19 then None
    else Some(Response(ReadU32(body), ReadU32(body[4..]), body[8], body[9] != 0, ReadU32(body[11..]), ReadU32(body[15..])))
  }

  function FrameResponse(sessionId: nat, p: Parameters): bytes
    requires p.crcLength <= 4
  {
    U16(Protocol.AsU16(Protocol.SessionResponse)) + U32(sessionId) + U32(p.crcSeed)
      + [p.crcLength, if p.compression then 1 else 0, 0] + U32(p.udpLength) + U32(SOE_PROTOCOL_VERSION)
  }

  function FrameRequest(sessionId: nat, p: Parameters): bytes {
    U16(Protocol.AsU16(Protocol.SessionRequest)) + U32(SOE_PROTOCOL_VERSION) + U32(sessionId) + U32(p.udpLength)
      + p.applicationProtocol + [0]
  }

  // ----- Channels ----------------------------------------------------------------------------

  type Inputs = seq<Option<RI.InputState>>
  type Outputs = seq<Option<RO.OutputState>>

  datatype ChannelPair = ChannelPair(inputs: Inputs, outputs: Outputs)

  predicate Four(c: ChannelPair) {
    |c.inputs| == 4 && |c.outputs| == 4
  }

  predicate OutputsOk(outputs: Outputs) {
    forall i | 0 <= i < |outputs| :: outputs[i].Some? ==> outputs[i].value.config.maxDataLength >= 6
  }

  predicate InputFlushed(i: Option<RI.InputState>) {
    i.Some? ==> i.value.outgoing == [] && i.value.appData == []
  }

  predicate OutputFlushed(o: Option<RO.OutputState>) {
    o.Some? ==> o.value.outgoing == []
  }

  predicate AllFlushed(c: ChannelPair) {
    && (forall i | 0 <= i < |c.inputs| :: InputFlushed(c.inputs[i]))
    && (forall i | 0 <= i < |c.outputs| :: OutputFlushed(c.outputs[i]))
  }

  function FlushedInput(i: Option<RI.InputState>): (f: Option<RI.InputState>)
    ensures InputFlushed(f) && (InputFlushed(i) ==> f == i)
  {
    if i.Some? then Some(RI.Drain(i.value)) else None
  }

  function FlushedOutput(o: Option<RO.OutputState>): (f: Option<RO.OutputState>)
    ensures OutputFlushed(f) && (OutputFlushed(o) ==> f == o)
  {
    if o.Some? then Some(RO.TakeOutgoing(o.value)) else None
  }

  function Flushed(c: ChannelPair): (f: ChannelPair)
    ensures AllFlushed(f) && |f.inputs| == |c.inputs| && |f.outputs| == |c.outputs|
  {
    ChannelPair(seq(|c.inputs|, i requires 0 <= i < |c.inputs| => FlushedInput(c.inputs[i])),
                seq(|c.outputs|, i requires 0 <= i < |c.outputs| => FlushedOutput(c.outputs[i])))
  }

  function TickInput(input: Option<RI.InputState>, now: nat): Option<RI.InputState> {
    if input.Some? then Some(RI.InputTick(input.value, now)) else None
  }

  function TickOutput(output: Option<RO.OutputState>, now: nat): Option<RO.OutputState> {
    if output.Some? then Some(RO.RunTick(output.value, now)) else None
  }

  function TickedInputs(inputs: Inputs, now: nat): (ticked: Inputs)
    ensures |ticked| == |inputs|
  {
    seq(|inputs|, i requires 0 <= i < |inputs| => TickInput(inputs[i], now))
  }

  function TickedOutputs(outputs: Outputs, now: nat): (ticked: Outputs)
    ensures |ticked| == |outputs|
  {
    seq(|outputs|, i requires 0 <= i < |outputs| => TickOutput(outputs[i], now))
  }

  // ----- Views -------------------------------------------------------------------------------

  /** What never changes about a session. */
  datatype Self = Self(mode: SessionMode, cipher: Option<Cipher>, hash: (nat, bytes) -> nat, inflate: bytes -> Option<bytes>)

  /** A session but for its buffers. `reason` and `byRemote` tell of its end, `opensNext` that it is
      reported open when the next packet arrives, `heard` when the last one did. */
  datatype View = View(
    state: SessionState, params: Parameters, sessionId: nat, channels: ChannelPair, trace: seq<Act>,
    reason: Reason, byRemote: bool, opensNext: bool, heard: nat)

  function Newborn(p: Parameters, now: nat): View {
    View(Negotiating, p, 0, ChannelPair([None, None, None, None], [None, None, None, None]), [], NoReason, false, false, now)
  }

  function Framing(self: Self, p: Parameters): Protocol.Codec {
    Protocol.Codec(self.hash, p.crcSeed, p.crcLength, p.compression)
  }

  function Do(v: View, acts: seq<Act>): View {
    v.(trace := v.trace + acts)
  }

  // ----- Flushing ----------------------------------------------------------------------------

  /** The acts of flushing one channel: its acknowledgements, its packets, its data. */
  function AckActs(c: Protocol.Codec, ch: nat, acks: seq<RI.Ack>): seq<Act>
    requires c.crcLength <= 4 || acks == []
  {
    seq(|acks|, k requires 0 <= k < |acks| => Send(Protocol.FrameContextual(c,
      Protocol.AsU16(if acks[k].all then Protocol.AcknowledgeAll else Protocol.Acknowledge) + ch, U16(acks[k].sequence))))
  }

  function PacketActs(c: Protocol.Codec, ch: nat, packets: seq<RO.OutgoingReliable>): seq<Act>
    requires c.crcLength <= 4 || packets == []
  {
    seq(|packets|, k requires 0 <= k < |packets| => Send(Protocol.FrameContextual(c,
      Protocol.AsU16(if packets[k].kind == RO.ReliableDataFragment then Protocol.ReliableDataFragment else Protocol.ReliableData) + ch,
      packets[k].payload)))
  }

  function DataActs(ch: nat, data: seq<bytes>): seq<Act> {
    seq(|data|, k requires 0 <= k < |data| => Receive(ReceivedData(data[k], Reliable(ch))))
  }

  function FlushActs(c: Protocol.Codec, ch: nat, i: Option<RI.InputState>, o: Option<RO.OutputState>): seq<Act>
    requires c.crcLength <= 4 || (InputFlushed(i) && OutputFlushed(o))
  {
    (if i.Some? then AckActs(c, ch, i.value.outgoing) else [])
    + (if o.Some? then PacketActs(c, ch, o.value.outgoing) else [])
    + (if i.Some? then DataActs(ch, i.value.appData) else [])
  }

  /** The first `n` channels, in order. */
  function FlushAllActs(f: Protocol.Codec, n: nat, c: ChannelPair): seq<Act>
    requires (f.crcLength <= 4 || AllFlushed(c)) && n <= |c.inputs| && n <= |c.outputs|
  {
    if n == 0 then [] else FlushAllActs(f, n - 1, c) + FlushActs(f, n - 1, c.inputs[n - 1], c.outputs[n - 1])
  }

  function Flush(self: Self, v: View): View
    requires (v.params.crcLength <= 4 || AllFlushed(v.channels)) && Four(v.channels)
  {
    Do(v, FlushAllActs(Framing(self, v.params), 4, v.channels)).(channels := Flushed(v.channels))
  }

  // ----- Ending ------------------------------------------------------------------------------

  /** Why a session ends, whether the remote is told, and whether the remote ended it. */
  datatype Ending = Ending(reason: Reason, notify: bool, byRemote: bool)

  const CORRUPT := Ending(CorruptPacket, true, false)

  function DisconnectDatagram(self: Self, p: Parameters, sessionId: nat, reason: Reason): bytes
    requires p.crcLength <= 4
  {
    Protocol.FrameContextual(Framing(self, p), Protocol.AsU16(Protocol.Disconnect), U32(sessionId) + U16(ReasonCode(reason)))
  }

  /** The channels after their last tick. */
  function LastTick(v: View, now: nat): ChannelPair {
    v.channels.(outputs := TickedOutputs(v.channels.outputs, now))
  }

  /** The channels send and hand over what they have for the last time. */
  function LastWords(self: Self, v: View, now: nat): View
    requires (v.params.crcLength <= 4 || AllFlushed(LastTick(v, now))) && Four(v.channels)
  {
    Flush(self, v.(channels := LastTick(v, now)))
  }

  predicate Tells(v: View, e: Ending) {
    e.notify && v.state == Running
  }

  /** The code can end a session: it can frame packets, or has none to frame. */
  predicate CanEnd(v: View, e: Ending, now: nat) {
    v.state == Terminated || v.params.crcLength <= 4 || (AllFlushed(LastTick(v, now)) && !Tells(v, e))
  }

  /** The remote is told if it should be and the session was running. */
  function Notice(self: Self, v: View, e: Ending): seq<Act>
    requires v.params.crcLength <= 4 || !Tells(v, e)
  {
    if Tells(v, e) then [Send(DisconnectDatagram(self, v.params, v.sessionId, e.reason))] else []
  }

  function End(self: Self, v: View, e: Ending, now: nat): (w: View)
    requires CanEnd(v, e, now) && Four(v.channels)
    ensures w.state == Terminated && w.params == v.params
  {
    if v.state == Terminated then v else
      Do(Do(LastWords(self, v, now), Notice(self, v, e)), [Emit(Closed(e.reason))]).(
        state := Terminated, reason := e.reason, byRemote := e.byRemote)
  }

  // ----- Dispatch ----------------------------------------------------------------------------

  /** A channel, or the fresh one its first packet creates. */
  function InputOr(p: Parameters, cipher: Option<Cipher>, slot: Option<RI.InputState>, now: nat): RI.InputState {
    if slot.Some? then slot.value
    else RI.InitialInput(RI.InputConfig(p.maxQueuedIncoming, p.acknowledgeAllData, p.dataAckWindow, p.maxAckDelay), cipher, now)
  }

  function OutputOr(p: Parameters, cipher: Option<Cipher>, slot: Option<RO.OutputState>): RO.OutputState
    requires slot.Some? || Roomy(p)
  {
    if slot.Some? then slot.value
    else RO.Initial(RO.OutputConfig(MaxDataLength(p), p.maxQueuedOutgoing, DEFAULT_ACK_WAIT), cipher)
  }

  function FedOne(self: Self, p: Parameters, c: ChannelPair, call: ChannelCall, now: nat): (after: ChannelPair)
    requires Usable(p) && Four(c) && call.index < 4
    ensures Four(after)
  {
    if call.op == Protocol.ReliableData || call.op == Protocol.ReliableDataFragment then
      c.(inputs := c.inputs[call.index := Some(Received(self, p, c, call, now).state)])
    else if |call.body| < 2 then c
    else
      var o, sequence := OutputOr(p, self.cipher, c.outputs[call.index]), ReadU16(call.body);
      c.(outputs := c.outputs[call.index := Some(
        if call.op == Protocol.AcknowledgeAll then RO.AcknowledgeAll(o, sequence, now) else RO.Acknowledge(o, sequence, now))])
  }

  /** What a channel makes of a data packet. */
  function Received(self: Self, p: Parameters, c: ChannelPair, call: ChannelCall, now: nat): RI.Outcome
    requires Four(c) && call.index < 4
  {
    RI.Receive(InputOr(p, self.cipher, c.inputs[call.index], now), call.op == Protocol.ReliableDataFragment, call.body, now)
  }

  /** What a packet leads to: acts, the channels after them, and possibly the end of the session. */
  datatype Outcome = Outcome(acts: seq<Act>, channels: ChannelPair, ending: Option<Ending>)

  /** One outcome after another that did not end the session. */
  function Then(o: Outcome, next: Outcome): Outcome {
    next.(acts := o.acts + next.acts)
  }

  function Nothing(c: ChannelPair): Outcome {
    Outcome([], c, None)
  }

  function Passed(self: Self, p: Parameters, c: ChannelPair, call: ChannelCall, now: nat): Outcome
    requires Usable(p) && Four(c) && call.index < 4
  {
    Outcome([Call(call)], FedOne(self, p, c, call, now), None)
  }

  /** Deals with one packet of a session that has not ended. The session ends by a Disconnect, by data
      its channel finds malformed, or by a malformed bundle; at any depth, and nothing after it counts. */
  function Deal(self: Self, p: Parameters, c: ChannelPair, op: Protocol.OpCode, ch: nat, body: bytes, now: nat): (o: Outcome)
    requires Usable(p) && Four(c) && ch < 4
    ensures Four(o.channels)
    decreases |body|, 2
  {
    var call := ChannelCall(op, ch, body);
    match op
    case MultiPacket => DealBundle(self, p, c, body, now)
    case Disconnect =>
      if |body| >= 6 then Nothing(c).(ending := Some(Ending(ReasonOf(ReadU16(body[4..])), false, true))) else Nothing(c)
    case Heartbeat =>
      if self.mode == Server then
        Nothing(c).(acts := [Send(Protocol.FrameContextual(Framing(self, p), Protocol.AsU16(Protocol.Heartbeat), []))])
      else Nothing(c)
    case ReliableData => Passed(self, p, c, call, now).(ending := if Received(self, p, c, call, now).ok then None else Some(CORRUPT))
    case ReliableDataFragment =>
      Passed(self, p, c, call, now).(ending := if Received(self, p, c, call, now).ok then None else Some(CORRUPT))
    case Acknowledge => if |body| >= 2 then Passed(self, p, c, call, now) else Nothing(c)
    case AcknowledgeAll => if |body| >= 2 then Passed(self, p, c, call, now) else Nothing(c)
    case _ => Nothing(c)
  }

  function DealBundle(self: Self, p: Parameters, c: ChannelPair, body: bytes, now: nat): (o: Outcome)
    requires Usable(p) && Four(c)
    ensures Four(o.channels)
    decreases |body|, 1
  {
    if body == [] then Nothing(c) else
      var o := DealFirst(self, p, c, body, now);
      if o.ending.Some? then o
      else Then(o, DealBundle(self, p, o.channels, body[MultiPackets.FirstSub(body).value.end..], now))
  }

  /** The first sub-packet of a bundle; the session ends when there is none, or none with a known OP code. */
  function DealFirst(self: Self, p: Parameters, c: ChannelPair, body: bytes, now: nat): (o: Outcome)
    requires Usable(p) && Four(c)
    ensures Four(o.channels) && (o.ending.None? ==> MultiPackets.FirstSub(body).Some?)
    decreases |body|, 0
  {
    var first := MultiPackets.FirstSub(body);
    if first.None? then Nothing(c).(ending := Some(CORRUPT)) else
      var sub := first.value.sub;
      if Protocol.ReadOpCode(sub).None? then Nothing(c).(ending := Some(CORRUPT)) else
        Deal(self, p, c, Protocol.ReadOpCode(sub).value, Protocol.ReliableChannel(ReadU16(sub)), sub[2..], now)
  }

  function Conclude(self: Self, v: View, o: Outcome, now: nat): View
    requires v.params.crcLength <= 4 && Four(o.channels)
  {
    var done := Do(v, o.acts).(channels := o.channels);
    if o.ending.Some? then End(self, done, o.ending.value, now) else done
  }

  /** A contextual packet: behind the compression flag, when there is one. */
  function DealWith(self: Self, v: View, op: Protocol.OpCode, ch: nat, body: bytes, now: nat): View
    requires Usable(v.params) && Four(v.channels) && ch < 4
  {
    match Protocol.Decompress(Framing(self, v.params), self.inflate, body)
    case Empty => v
    case NotInflatable => End(self, v, CORRUPT, now)
    case Plain(payload) => Conclude(self, v, Deal(self, v.params, v.channels, op, ch, payload, now), now)
  }

  // ----- Handshake ---------------------------------------------------------------------------

  /** Which handshake packets end the session, and how. */
  function HandshakeVerdict(self: Self, v: View, op: Protocol.OpCode, body: bytes): Option<Ending> {
    match op
    case SessionRequest =>
      var r := ParseRequest(body);
      if self.mode == Client then Some(Ending(ConnectingToSelf, false, false))
      else if r.None? then Some(CORRUPT)
      else if v.state != Negotiating then Some(Ending(ConnectError, true, false))
      else if r.value.version != SOE_PROTOCOL_VERSION || r.value.applicationProtocol != v.params.applicationProtocol then
        Some(Ending(ProtocolMismatch, true, false))
      else None
    case SessionResponse =>
      var r := ParseResponse(body);
      if self.mode == Server then Some(Ending(ConnectingToSelf, false, false))
      else if r.None? then Some(CORRUPT)
      else if v.state != Negotiating then Some(Ending(ConnectError, true, false))
      else if r.value.version != SOE_PROTOCOL_VERSION then Some(Ending(ProtocolMismatch, true, false))
      else None
    case UnknownSender => Some(Ending(UnreachableConnection, false, false))
    case _ => None
  }

  predicate CanShake(self: Self, v: View, op: Protocol.OpCode, body: bytes, now: nat) {
    var e := HandshakeVerdict(self, v, op, body);
    e.None? || CanEnd(v, e.value, now)
  }

  /** A session request is for a server that still negotiates, in the protocol it speaks. The new
      session runs at once, but is reported open only when the next packet arrives. */
  function Requested(self: Self, v: View, body: bytes, random: nat, now: nat): View
    requires CanShake(self, v, Protocol.SessionRequest, body, now) && Four(v.channels)
  {
    var r := ParseRequest(body);
    if self.mode == Client then End(self, v, Ending(ConnectingToSelf, false, false), now)
    else if r.None? then End(self, v, CORRUPT, now)
    else
      var w := v.(params := v.params.(remoteUdpLength := r.value.udpLength), sessionId := r.value.sessionId);
      if v.state != Negotiating then End(self, w, Ending(ConnectError, true, false), now)
      else if r.value.version != SOE_PROTOCOL_VERSION || r.value.applicationProtocol != v.params.applicationProtocol then
        End(self, w, Ending(ProtocolMismatch, true, false), now)
      else
        var p := w.params.(crcLength := CRC_LENGTH, crcSeed := random);
        Do(w, [Send(FrameResponse(w.sessionId, p))]).(params := p, state := Running, opensNext := true)
  }

  /** A session response is for a client that still negotiates; it is open from then on. The CRC length
      is taken as it comes. */
  function Responded(self: Self, v: View, body: bytes, now: nat): View
    requires CanShake(self, v, Protocol.SessionResponse, body, now) && Four(v.channels)
  {
    var r := ParseResponse(body);
    if self.mode == Server then End(self, v, Ending(ConnectingToSelf, false, false), now)
    else if r.None? then End(self, v, CORRUPT, now)
    else if v.state != Negotiating then End(self, v, Ending(ConnectError, true, false), now)
    else if r.value.version != SOE_PROTOCOL_VERSION then End(self, v, Ending(ProtocolMismatch, true, false), now)
    else
      Do(v, [Emit(Opened)]).(
        params := v.params.(remoteUdpLength := r.value.udpLength, crcLength := r.value.crcLength, crcSeed := r.value.crcSeed,
                            compression := r.value.compression),
        sessionId := r.value.sessionId, state := Running)
  }

  function Shake(self: Self, v: View, op: Protocol.OpCode, body: bytes, random: nat, now: nat): View
    requires CanShake(self, v, op, body, now) && Four(v.channels)
  {
    match op
    case SessionRequest => Requested(self, v, body, random, now)
    case SessionResponse => Responded(self, v, body, now)
    case UnknownSender => End(self, v, Ending(UnreachableConnection, false, false), now)
    case _ => v
  }

  // ----- Public operations -------------------------------------------------------------------

  /** The first packet after the handshake opens a server's session. */
  function Opening(v: View): View {
    Do(v, if v.opensNext then [Emit(Opened)] else []).(opensNext := false)
  }

  function Heard(v: View, now: nat): View {
    Opening(v).(heard := now)
  }

  /** The code can take in a datagram: it can frame and check packets, or needs to do neither. */
  predicate CanTakeIn(self: Self, v: View, datagram: bytes, now: nat) {
    || v.state == Terminated || v.params.crcLength <= 4
    || (&& !Protocol.NeedsCrc(Framing(self, v.params), v.state == Running, datagram)
        && match Protocol.Classify(Framing(self, v.params), v.state == Running, datagram)
           case Contextless(op, body) => CanShake(self, v, op, body, now)
           case _ => CanEnd(v, CORRUPT, now))
  }

  lemma HeardCanShake(self: Self, v: View, op: Protocol.OpCode, body: bytes, now: nat)
    requires CanShake(self, v, op, body, now)
    ensures CanShake(self, Heard(v, now), op, body, now)
  {
    hide AllFlushed, TickedOutputs, ParseRequest, ParseResponse;
  }

  /** One datagram, taken for what its classification says. */
  function TakeIn(self: Self, v: View, datagram: bytes, random: nat, now: nat): View
    requires Sized(v.params) && CanTakeIn(self, v, datagram, now) && Four(v.channels) && AllFlushed(v.channels)
  {
    if v.state == Terminated then v else
      match Protocol.Classify(Framing(self, v.params), v.state == Running, datagram)
      case Corrupt => End(self, v, CORRUPT, now)
      case Dropped => v
      case Unreliable(payload) => Do(Heard(v, now), [Receive(ReceivedData(payload, SessionTrace.Unreliable))])
      case Contextless(op, body) =>
        ShakeKeepsChannels(self, Heard(v, now), op, body, random, now);
        Flush(self, Shake(self, Heard(v, now), op, body, random, now))
      case Contextual(op, ch, body) =>
        DealKeepsParams(self, Heard(v, now), op, ch, body, now);
        Flush(self, DealWith(self, Heard(v, now), op, ch, body, now))
  }

  lemma ShakeKeepsChannels(self: Self, v: View, op: Protocol.OpCode, body: bytes, random: nat, now: nat)
    requires CanShake(self, v, op, body, now) && Four(v.channels) && AllFlushed(v.channels)
    ensures var w := Shake(self, v, op, body, random, now);
            Four(w.channels) && AllFlushed(w.channels) && (w.state != Terminated ==> w.channels == v.channels)
  {
    hide End, AllFlushed, ParseRequest, ParseResponse, FrameResponse;
    EndFlushes(self);
  }

  lemma EndFlushes(self: Self)
    ensures forall v: View, e, now | CanEnd(v, e, now) && Four(v.channels) && AllFlushed(v.channels) ::
      Four(End(self, v, e, now).channels) && AllFlushed(End(self, v, e, now).channels)
  {
    hide FlushAllActs, Flushed, AllFlushed, DisconnectDatagram;
  }

  lemma DealKeepsParams(self: Self, v: View, op: Protocol.OpCode, ch: nat, body: bytes, now: nat)
    requires Usable(v.params) && Four(v.channels) && ch < 4
    ensures var w := DealWith(self, v, op, ch, body, now); Four(w.channels) && w.params == v.params
  {
    hide FlushAllActs, Flushed, Deal, DisconnectDatagram, Protocol.Decompress;
  }

  /** The remote has been silent for longer than the inactivity timeout. */
  predicate Expired(v: View, now: nat) {
    v.params.inactivityTimeout != 0 && RO.Since(now, v.heard) > v.params.inactivityTimeout
  }

  predicate HeartbeatDue(self: Self, v: View, now: nat) {
    && self.mode == Client && v.state == Running && v.params.heartbeatAfter != 0
    && RO.Since(now, v.heard) > v.params.heartbeatAfter
  }

  /** A client that has heard nothing for a while sends a heartbeat. */
  function HeartbeatActs(self: Self, v: View, now: nat): seq<Act>
    requires v.params.crcLength <= 4 || !HeartbeatDue(self, v, now)
  {
    if HeartbeatDue(self, v, now)
    then [Send(Protocol.FrameContextual(Framing(self, v.params), Protocol.AsU16(Protocol.Heartbeat), []))]
    else []
  }

  function TickedPair(c: ChannelPair, now: nat): ChannelPair {
    ChannelPair(TickedInputs(c.inputs, now), TickedOutputs(c.outputs, now))
  }

  /** The code can tick a session: it can frame packets, or has none to frame. */
  predicate CanTick(self: Self, v: View, now: nat) {
    || v.state == Terminated || v.params.crcLength <= 4
    || (!HeartbeatDue(self, v, now) && AllFlushed(if Expired(v, now) then LastTick(v, now) else TickedPair(v.channels, now)))
  }

  /** A session that has timed out ends without telling the remote; else every channel ticks. */
  function Tick(self: Self, v: View, now: nat): View
    requires CanTick(self, v, now) && Four(v.channels)
  {
    if v.state == Terminated then v else
      var w := Do(v, HeartbeatActs(self, v, now));
      if Expired(v, now) then End(self, w, Ending(Timeout, false, false), now)
      else Flush(self, w.(channels := TickedPair(v.channels, now)))
  }

  function FramedLength(p: Parameters, data: bytes): nat
    requires data != []
  {
    (if data[0] == 0 then 1 else 0) + |data| + p.crcLength
  }

  function QueuedOn(self: Self, v: View, ch: nat, data: bytes): View
    requires Four(v.channels) && OutputsOk(v.channels.outputs) && ch < 4 && (v.channels.outputs[ch].Some? || Roomy(v.params))
  {
    v.(channels := v.channels.(outputs := v.channels.outputs[
      ch := Some(RO.Enqueue(OutputOr(v.params, self.cipher, v.channels.outputs[ch]), data))]))
  }

  predicate Accepts(v: View, channel: Channel) {
    v.state == Running && (channel.Reliable? ==> channel.index < 4)
  }

  /** The channel that data goes to, if it is not sent at once. */
  function ChannelFor(v: View, data: bytes, channel: Channel): Option<nat> {
    if channel.Reliable? then Some(channel.index)
    else if data != [] && FramedLength(v.params, data) > v.params.remoteUdpLength then Some(0)
    else None
  }

  /** The code can accept data: its channel is there or can be made, or its datagram can be framed. */
  predicate CanEnqueue(v: View, data: bytes, channel: Channel)
    requires Four(v.channels)
  {
    Accepts(v, channel) ==>
      var ch := ChannelFor(v, data, channel);
      if ch.Some? then v.channels.outputs[ch.value].Some? || Roomy(v.params) else data == [] || v.params.crcLength <= 4
  }

  /** Queues data on its channel or sends it at once. Unreliable data too long for one datagram goes to
      reliable channel 0 instead. */
  function Enqueue(self: Self, v: View, data: bytes, channel: Channel): View
    requires Four(v.channels) && OutputsOk(v.channels.outputs) && CanEnqueue(v, data, channel)
  {
    if !Accepts(v, channel) then v
    else if channel.Reliable? then QueuedOn(self, v, channel.index, data)
    else if data == [] then v
    else if FramedLength(v.params, data) > v.params.remoteUdpLength then QueuedOn(self, v, 0, data)
    else Do(v, [Send(Protocol.FrameUnreliable(Framing(self, v.params), data))])
  }

  /** Only a client that still negotiates sends a request. */
  function Ask(self: Self, v: View, random: nat): View {
    if v.state != Negotiating || self.mode != Client then v
    else Do(v, [Send(FrameRequest(random, v.params))]).(sessionId := random)
  }
}
