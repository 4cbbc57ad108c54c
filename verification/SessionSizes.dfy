/** How long the datagrams of a session are (src/session.rs): those of a running session fit its UDP
    length, in every run in which the handshake does not take room from a channel that is already there; and
    where it does, they need not. */
module SessionSizes {
  import opened Bytes
  import opened Rc4
  import Protocol
  import MultiPackets
  import DataCodec
  import RO = ReliableOutput
  import RI = ReliableInput
  import OR = OutputRuns
  import OP = OutputPackets
  import opened SessionTrace
  import opened SessionSteps
  import opened SessionLifecycle
  import opened SessionRuns
  import opened SessionWire
  import opened Handshake
  import SessionLink

  /** Handshake packets and unreliable data have limits of their own; any other datagram must fit. */
  predicate Small(limit: nat, d: bytes) {
    |d| <= limit || Protocol.ReadOpCode(d).None? || Protocol.IsContextless(Protocol.ReadOpCode(d).value)
  }

  predicate AllSmall(limit: nat, acts: seq<Act>) {
    forall k | 0 <= k < |acts| :: acts[k].Send? ==> Small(limit, acts[k].datagram)
  }

  /** The packets of a channel fit its maximum, and that fits the settings. */
  ghost predicate OutputSmall(p: Parameters, o: Option<RO.OutputState>) {
    o.Some? ==> OP.PacketsOk(o.value) && o.value.config.maxDataLength <= MaxDataLength(p)
  }

  ghost predicate OutputsSmall(p: Parameters, outputs: Outputs) {
    forall i | 0 <= i < |outputs| :: OutputSmall(p, outputs[i])
  }

  ghost predicate Snug(v: View) {
    OutputsSmall(v.params, v.channels.outputs) && AllSmall(v.params.udpLength, v.trace)
  }

  /** A reliable packet of a channel whose maximum fits the settings makes a datagram that fits the UDP length; a
      full one uses it up if the maximum does. */
  lemma PacketsMakeSmallDatagrams(self: Self, p: Parameters, ch: nat, packets: seq<RO.OutgoingReliable>)
    requires Usable(p) && ch < 4
    ensures var acts := PacketActs(Framing(self, p), ch, packets);
            forall k | 0 <= k < |acts| ::
              acts[k].Send? && |acts[k].datagram| == |packets[k].payload| + p.udpLength - MaxDataLength(p)
  {
  }

  lemma FlushIsSmall(self: Self, p: Parameters, ch: nat, i: Option<RI.InputState>, o: Option<RO.OutputState>)
    requires Usable(p) && ch < 4 && OutputSmall(p, o)
    ensures AllSmall(p.udpLength, FlushActs(Framing(self, p), ch, i, o))
  {
    hide U16;
    if o.Some? { PacketsMakeSmallDatagrams(self, p, ch, o.value.outgoing); }
  }

  lemma {:induction false} FlushAllIsSmall(self: Self, p: Parameters, n: nat, c: ChannelPair)
    requires Usable(p) && Four(c) && n <= 4 && OutputsSmall(p, c.outputs)
    ensures AllSmall(p.udpLength, FlushAllActs(Framing(self, p), n, c))
  {
    hide FlushActs, OutputSmall;
    if n != 0 {
      FlushAllIsSmall(self, p, n - 1, c);
      FlushIsSmall(self, p, n - 1, c.inputs[n - 1], c.outputs[n - 1]);
    }
  }

  lemma FlushKeepsSnug(self: Self, v: View)
    requires Usable(v.params) && Four(v.channels) && Snug(v)
    ensures Snug(Flush(self, v))
  {
    hide FlushAllActs, OP.DataOk, Protocol.ReadOpCode;
    FlushAllIsSmall(self, v.params, 4, v.channels);
  }

  lemma TicksKeepSmall(p: Parameters, outputs: Outputs, now: nat)
    requires OutputsSmall(p, outputs)
    ensures OutputsSmall(p, TickedOutputs(outputs, now))
  {
    hide RO.RunTick, OP.PacketsOk;
    forall i | 0 <= i < |outputs| && outputs[i].Some?
      ensures OutputSmall(p, TickedOutputs(outputs, now)[i])
    {
      OP.TickKeepsPackets(outputs[i].value, now);
      TickKeepsConfig(outputs[i].value, now);
    }
  }

  lemma EndKeepsSnug(self: Self, v: View, e: Ending, now: nat)
    requires Usable(v.params) && Four(v.channels) && Snug(v)
    ensures Snug(End(self, v, e, now))
  {
    hide OutputsSmall, Protocol.ReadOpCode, Flush, DisconnectDatagram, U32;
    if v.state == Terminated { return; }
    TicksKeepSmall(v.params, v.channels.outputs, now);
    FlushKeepsSnug(self, v.(channels := LastTick(v, now)));
    DisconnectIsSmall(self, v.params, v.sessionId, e.reason);
    FlushIsLocal(self, v.(channels := LastTick(v, now)));
  }

  lemma DisconnectIsSmall(self: Self, p: Parameters, sessionId: nat, reason: Reason)
    requires Usable(p)
    ensures |DisconnectDatagram(self, p, sessionId, reason)| <= p.udpLength
  {
    hide U32, U16;
  }

  // ----- Dispatch ----------------------------------------------------------------------------

  lemma FedOneKeepsSmall(self: Self, p: Parameters, c: ChannelPair, call: ChannelCall, now: nat)
    requires Usable(p) && Four(c) && call.index < 4 && OutputsSmall(p, c.outputs)
    ensures OutputsSmall(p, FedOne(self, p, c, call, now).outputs)
  {
    hide RI.Receive, RO.Acknowledge, RO.AcknowledgeAll, OP.PacketsOk, OR.Apply;
    if |call.body| >= 2 {
      var o, sequence := OutputOr(p, self.cipher, c.outputs[call.index]), ReadU16(call.body);
      NewIsSmall(p, self.cipher, c.outputs[call.index]);
      AckKeepsPackets(o, sequence, now);
      AckKeepsConfig(o, sequence, now);
    }
  }

  lemma NewIsSmall(p: Parameters, cipher: Option<Cipher>, slot: Option<RO.OutputState>)
    requires (slot.Some? || Roomy(p)) && OutputSmall(p, slot)
    ensures OutputSmall(p, Some(OutputOr(p, cipher, slot)))
  {
  }

  lemma AckKeepsPackets(o: RO.OutputState, sequence: nat, now: nat)
    requires sequence < 0x1_0000 && OP.PacketsOk(o)
    ensures OP.PacketsOk(RO.Acknowledge(o, sequence, now)) && OP.PacketsOk(RO.AcknowledgeAll(o, sequence, now))
  {
    hide OP.PacketsOk, RO.Acknowledge, RO.AcknowledgeAll;
    OP.ApplyKeepsPackets(o, OR.Acknowledged(sequence, now));
    OP.ApplyKeepsPackets(o, OR.AcknowledgedAll(sequence, now));
  }

  lemma {:induction false} DealKeepsSmall(self: Self, p: Parameters, c: ChannelPair, op: Protocol.OpCode, ch: nat, body: bytes, now: nat)
    requires Usable(p) && Four(c) && ch < 4 && OutputsSmall(p, c.outputs)
    ensures var o := Deal(self, p, c, op, ch, body, now); AllSmall(p.udpLength, o.acts) && OutputsSmall(p, o.channels.outputs)
    decreases |body|, 1
  {
    hide FedOne, DealBundle, OutputsSmall, RI.Receive, Protocol.ReadOpCode;
    if op == Protocol.MultiPacket {
      DealBundleKeepsSmall(self, p, c, body, now);
    } else {
      FedOneKeepsSmall(self, p, c, ChannelCall(op, ch, body), now);
    }
  }

  lemma {:induction false} DealBundleKeepsSmall(self: Self, p: Parameters, c: ChannelPair, body: bytes, now: nat)
    requires Usable(p) && Four(c) && OutputsSmall(p, c.outputs)
    ensures var o := DealBundle(self, p, c, body, now); AllSmall(p.udpLength, o.acts) && OutputsSmall(p, o.channels.outputs)
    decreases |body|, 0
  {
    hide Deal, OutputsSmall, Small;
    if body == [] { return; }
    var first := MultiPackets.FirstSub(body);
    if first.None? || Protocol.ReadOpCode(first.value.sub).None? { return; }
    var sub := first.value.sub;
    DealKeepsSmall(self, p, c, Protocol.ReadOpCode(sub).value, Protocol.ReliableChannel(ReadU16(sub)), sub[2..], now);
    var o := DealFirst(self, p, c, body, now);
    DealBundleKeepsSmall(self, p, o.channels, body[first.value.end..], now);
  }

  lemma DealWithKeepsSnug(self: Self, v: View, op: Protocol.OpCode, ch: nat, body: bytes, now: nat)
    requires Usable(v.params) && Four(v.channels) && ch < 4 && Snug(v)
    ensures Snug(DealWith(self, v, op, ch, body, now))
  {
    hide Deal, OutputsSmall, Small, End, Protocol.Decompress;
    match Protocol.Decompress(Framing(self, v.params), self.inflate, body)
    case Empty =>
    case NotInflatable => EndKeepsSnug(self, v, CORRUPT, now);
    case Plain(payload) =>
      DealKeepsSmall(self, v.params, v.channels, op, ch, payload, now);
      var o := Deal(self, v.params, v.channels, op, ch, payload, now);
      var done := Do(v, o.acts).(channels := o.channels);
      if o.ending.Some? { EndKeepsSnug(self, done, o.ending.value, now); }
  }

  // ----- Running sessions --------------------------------------------------------------------

  lemma HeardKeepsSnug(v: View, now: nat)
    requires Snug(v)
    ensures Snug(Heard(v, now))
  {
    hide OutputsSmall, Small;
  }

  lemma ShakeKeepsSnug(self: Self, v: View, op: Protocol.OpCode, body: bytes, random: nat, now: nat)
    requires Usable(v.params) && Four(v.channels) && Snug(v) && v.state == Running && CanShake(self, v, op, body, now)
    ensures Snug(Shake(self, v, op, body, random, now))
  {
    hide AllSmall, End, ParseRequest, ParseResponse, OP.PacketsOk;
    var e := HandshakeVerdict(self, v, op, body);
    if e.Some? {
      var r := ParseRequest(body);
      var w := if op == Protocol.SessionRequest && self.mode == Server && r.Some?
               then v.(params := v.params.(remoteUdpLength := r.value.udpLength), sessionId := r.value.sessionId) else v;
      assert OutputsSmall(w.params, w.channels.outputs);
      EndKeepsSnug(self, w, e.value, now);
    }
  }

  lemma TakeInKeepsSnug(self: Self, v: View, datagram: bytes, random: nat, now: nat)
    requires AtRest(self, v) && Usable(v.params) && v.state != Negotiating && Snug(v)
    ensures Snug(TakeIn(self, v, datagram, random, now))
  {
    hide StageOf, OutputsOk, AllFlushed, AllSmall, OutputsSmall, End, Shake, DealWith, Flush, Protocol.Classify, Heard;
    if v.state == Terminated { return; }
    HeardKeepsSnug(v, now);
    HeardIs(v, now);
    var h := Heard(v, now);
    match Protocol.Classify(Framing(self, v.params), true, datagram)
    case Corrupt => EndKeepsSnug(self, v, CORRUPT, now);
    case Dropped =>
    case Unreliable(payload) => ReceiveIsSmall(h, ReceivedData(payload, SessionTrace.Unreliable));
    case Contextless(op, body) =>
      ShakeKeepsSnug(self, h, op, body, random, now);
      ShakeKeepsChannels(self, h, op, body, random, now);
      IdleFlush(self, Shake(self, h, op, body, random, now));
    case Contextual(op, ch, body) =>
      DealWithKeepsSnug(self, h, op, ch, body, now);
      DealKeepsParams(self, h, op, ch, body, now);
      FlushKeepsSnug(self, DealWith(self, h, op, ch, body, now));
  }

  lemma HeardIs(v: View, now: nat)
    ensures var h := Heard(v, now); h.state == v.state && h.params == v.params && h.channels == v.channels
  {
  }

  lemma ReceiveIsSmall(v: View, data: ReceivedData)
    requires Snug(v)
    ensures Snug(Do(v, [Receive(data)]))
  {
    hide OutputsSmall, Small;
  }

  lemma TickKeepsSnug(self: Self, v: View, now: nat)
    requires AtRest(self, v) && Usable(v.params) && Snug(v)
    ensures Snug(Tick(self, v, now))
  {
    hide StageOf, OutputsOk, AllFlushed, OutputsSmall, End, Flush, Protocol.ReadOpCode, Expired;
    if v.state == Terminated { return; }
    var w := Do(v, HeartbeatActs(self, v, now));
    assert Snug(w);
    TicksKeepSmall(v.params, v.channels.outputs, now);
    if Expired(v, now) {
      EndKeepsSnug(self, w, Ending(Timeout, false, false), now);
    } else {
      FlushKeepsSnug(self, w.(channels := TickedPair(v.channels, now)));
    }
  }

  lemma EnqueueKeepsSnug(self: Self, v: View, data: bytes, channel: Channel)
    requires AtRest(self, v) && Usable(v.params) && Snug(v)
    ensures Snug(Enqueue(self, v, data, channel))
  {
    hide StageOf, AllFlushed, RO.Enqueue, OP.PacketsOk, Protocol.Crc, FramedLength;
    if !Accepts(v, channel) { return; }
    var to := ChannelFor(v, data, channel);
    if to.Some? {
      var o := OutputOr(v.params, self.cipher, v.channels.outputs[to.value]);
      NewIsSmall(v.params, self.cipher, v.channels.outputs[to.value]);
      OP.EnqueueKeepsPackets(o, data);
      EnqueueKeepsRest(o, data);
    } else if data != [] {
      UnreliableHasNoCode(Framing(self, v.params), data);
    }
  }

  /** Unreliable data never looks like a packet with an OP code. */
  lemma UnreliableHasNoCode(c: Protocol.Codec, data: bytes)
    requires data != [] && c.crcLength <= 4
    ensures Protocol.ReadOpCode(Protocol.FrameUnreliable(c, data)).None?
  {
    hide Protocol.Crc;
  }

  lemma CallKeepsSnug(self: Self, v: View, call: SessionCall)
    requires AtRest(self, v) && Usable(v.params) && v.state != Negotiating && Snug(v)
    ensures Snug(Called(self, v, call)) && Usable(Called(self, v, call).params) && Called(self, v, call).state != Negotiating
  {
    hide StageOf, OutputsOk, AllFlushed, Snug, End, Tick, Enqueue, TakeIn, Ask, CanTakeIn, CanTick, CanEnqueue, CanEnd, EndedBy, CallVerdict;
    CallKeeps(self, v, call);
    CallKeepsUsable(self, v, call);
    RunningMeetsNoneOverlong(self, v, call);
    match call
    case Incoming(datagram, random, now) => TakeInKeepsSnug(self, v, datagram, random, now);
    case Ticking(now) => TickKeepsSnug(self, v, now);
    case Enqueueing(data, channel) => EnqueueKeepsSnug(self, v, data, channel);
    case Terminating(reason, notifyRemote, now) => EndKeepsSnug(self, v, Ending(reason, notifyRemote, false), now);
    case Asking(random) => AskNothing(self, v, random);
    case Taking =>
  }

  lemma RunningMeetsNoneOverlong(self: Self, v: View, call: SessionCall)
    requires Usable(v.params) && v.state != Negotiating
    ensures !GivesOverlong(self, v, call)
  {
  }

  lemma AskNothing(self: Self, v: View, random: nat)
    requires v.state != Negotiating
    ensures Ask(self, v, random) == v
  {
  }

  /** Whatever happens to a session that runs with small channels, all its datagrams fit its UDP length. */
  lemma {:induction false} DatagramsFit(self: Self, v: View, calls: seq<SessionCall>)
    requires AtRest(self, v) && Usable(v.params) && v.state != Negotiating && Snug(v)
    ensures var w := Run(self, v, calls);
            && Snug(w) && Usable(w.params) && w.state != Negotiating
            && w.params.udpLength == v.params.udpLength
            && forall k | 0 <= k < |w.trace| && w.trace[k].Send? :: Small(v.params.udpLength, w.trace[k].datagram)
  {
    hide AtRest, Called, Usable, OutputsSmall, Small;
    if calls != [] {
      var before := calls[..|calls| - 1];
      DatagramsFit(self, v, before);
      CallKeepsSnug(self, Run(self, v, before), calls[|calls| - 1]);
      LengthStays(self, Run(self, v, before), calls[|calls| - 1]);
    }
  }

  lemma LengthStays(self: Self, v: View, call: SessionCall)
    requires AtRest(self, v)
    ensures Called(self, v, call).params.udpLength == v.params.udpLength
  {
    hide StageOf, OutputsOk, AllFlushed, End, TakeIn, AtRest, CanTakeIn, CanTick, CanEnqueue, CanEnd;
    AtRestMeans(self, v);
    if CanCall(self, v, call) {
      match call
      case Incoming(datagram, random, now) => TakeInKeepsLength(self, v, datagram, random, now);
      case Ticking(now) => TickKeeps(self, v, now);
      case Enqueueing(data, channel) => EnqueueKeeps(self, v, data, channel);
      case _ =>
    }
  }

  lemma TakeInKeepsLength(self: Self, v: View, datagram: bytes, random: nat, now: nat)
    requires AtRest(self, v) && CanTakeIn(self, v, datagram, now)
    ensures TakeIn(self, v, datagram, random, now).params.udpLength == v.params.udpLength
  {
    hide StageOf, OutputsOk, AllFlushed, End, Protocol.Classify, DealWith, Flush, ParseRequest, ParseResponse;
    if v.state == Terminated { return; }
    HeardIs(v, now);
    var h := Heard(v, now);
    match Protocol.Classify(Framing(self, v.params), v.state == Running, datagram)
    case Contextless(op, body) =>
      ShakeKeepsChannels(self, h, op, body, random, now);
      FlushIsLocal(self, Shake(self, h, op, body, random, now));
    case Contextual(op, ch, body) =>
      DealKeepsParams(self, h, op, ch, body, now);
      FlushIsLocal(self, DealWith(self, h, op, ch, body, now));
    case _ =>
  }

  /** So it is after every handshake. */
  lemma HandshakeIsSnug(client: View, server: View, pc: Parameters, ps: Parameters, sessionId: nat, seed: nat)
    requires Agreed(client, server, pc, ps, sessionId, seed) && FitsU32(sessionId) && FitsU32(seed) && Sized(pc) && Sized(ps)
    ensures Snug(client) && Snug(server)
  {
    hide FrameRequest, FrameResponse, OP.PacketsOk, Small;
    HandshakeIsSmall(sessionId, pc, server.params, client.params.udpLength);
    HandshakeIsSmall(sessionId, pc, server.params, server.params.udpLength);
  }

  lemma HandshakeIsSmall(sessionId: nat, pc: Parameters, ps: Parameters, limit: nat)
    requires FitsU32(sessionId) && Sized(pc) && ps.crcLength <= 4 && FitsU32(ps.crcSeed) && FitsU32(ps.udpLength)
    ensures Small(limit, FrameRequest(sessionId, pc)) && Small(limit, FrameResponse(sessionId, ps))
  {
    hide FrameRequest, FrameResponse, ParseRequest, ParseResponse;
    RequestRoundTrip(sessionId, pc, TerminatedString(pc.applicationProtocol + [0]).value);
    ResponseRoundTrip(sessionId, ps);
  }

  // ----- Channels from before the handshake ----------------------------------------------------

  /** A channel may be there already when the handshake settles the framing, for packets are dealt with while a
      session negotiates. Its maximum stays what it was, so the channels stay small exactly if it is not above the
      new one. */
  lemma StaysSnugIff(self: Self, v: View, body: bytes, now: nat)
    requires AtRest(self, v) && v.state == Negotiating && self.mode == Client && Usable(v.params) && Snug(v)
    requires CanShake(self, v, Protocol.SessionResponse, body, now) && HandshakeVerdict(self, v, Protocol.SessionResponse, body).None?
    ensures var w := Responded(self, v, body, now);
            Snug(w) <==> forall i | 0 <= i < 4 && v.channels.outputs[i].Some? ::
              v.channels.outputs[i].value.config.maxDataLength <= MaxDataLength(w.params)
  {
    hide StageOf, ParseResponse, OP.PacketsOk, OutputsOk, AllFlushed;
  }

  /** Otherwise a message can be too long for its datagrams: an idle channel whose maximum is above that of the
      settings makes the session send one that does not fit. */
  lemma StaleChannelOverflows(self: Self, v: View, ch: nat, now: nat)
    requires AtRest(self, v) && v.state == Running && Usable(v.params) && !Expired(v, now) && ch < 4
    requires v.channels.outputs[ch].Some?
    requires var o := v.channels.outputs[ch].value;
             o.queue == [] && o.dispatchIndex == 0 && o.config.maxQueuedOutgoing >= 1 && o.config.maxDataLength > MaxDataLength(v.params)
    ensures exists data: bytes ::
      && CanEnqueue(v, data, Reliable(ch))
      && var w := Enqueue(self, v, data, Reliable(ch));
      && AtRest(self, w) && CanTick(self, w, now)
      && exists k :: 0 <= k < |Tick(self, w, now).trace| && Tick(self, w, now).trace[k].Send?
                     && |Tick(self, w, now).trace[k].datagram| > v.params.udpLength
  {
    hide StageOf, OutputsOk, AllFlushed, RO.Enqueue, RO.RunTick, FlushAllActs, PacketFrame;
    var o := v.channels.outputs[ch].value;
    var data: bytes := seq(o.config.maxDataLength, _ => 1);
    assert OutputsOk(v.channels.outputs) && o.config.maxDataLength >= 6 by { Maximum(self, v, ch); }
    EnqueueKeeps(self, v, data, Reliable(ch));
    var w := Enqueue(self, v, data, Reliable(ch));
    var o' := RO.Enqueue(o, data);
    assert w.channels.outputs[ch] == Some(o');
    var p := FirstIsFull(o, data, now);
    var c := TickedPair(w.channels, now);
    assert c.outputs[ch] == Some(RO.RunTick(o', now));
    SessionLink.FlushSendsAll(Framing(self, w.params), c, ch);
    var frame := PacketFrame(Framing(self, w.params), ch, p);
    FullFrame(Framing(self, w.params), ch, p);
    var sent := Tick(self, w, now).trace;
    var acts := FlushAllActs(Framing(self, w.params), 4, c);
    var i :| 0 <= i < |acts| && acts[i] == Send(frame);
    assert sent[|sent| - |acts| + i] == Send(frame);
  }

  lemma Maximum(self: Self, v: View, ch: nat)
    requires AtRest(self, v) && ch < 4 && v.channels.outputs[ch].Some?
    ensures OutputsOk(v.channels.outputs) && v.channels.outputs[ch].value.config.maxDataLength >= 6
  {
  }

  lemma FullFrame(c: Protocol.Codec, ch: nat, p: RO.OutgoingReliable)
    requires c.crcLength <= 4 && ch < 4
    ensures |PacketFrame(c, ch, p)| == 2 + (if c.compression then 1 else 0) + |p.payload| + c.crcLength
  {
  }

  /** Data as long as the maximum takes two packets, the first of them full, and a tick hands it out. */
  lemma FirstIsFull(o: RO.OutputState, data: bytes, now: nat) returns (p: RO.OutgoingReliable)
    requires o.config.maxDataLength >= 6 && o.queue == [] && o.dispatchIndex == 0 && o.config.maxQueuedOutgoing >= 1
    requires |data| == o.config.maxDataLength
    ensures p in RO.RunTick(RO.Enqueue(o, data), now).outgoing && |p.payload| == o.config.maxDataLength
  {
    hide RO.CountSent, Transform, DataCodec.Pieces, RO.StashAll, U16, U32;
    var e := DataCodec.EncodeMessage(o.cipher, o.config.maxDataLength, data);
    OR.EnqueueIsStash(o, data);
    RO.StashAllAppends(o, e.items);
    hide RO.Enqueue;
    var o' := RO.Enqueue(o, data);
    assert o'.queue[0] == RO.NewPacket(o.totalSequence, e.items[0]);
    p := RO.Wire(o'.queue[0]);
    var outgoing := RO.RunTick(o', now).outgoing;
    assert outgoing[|o'.outgoing|] == p;
  }
}
