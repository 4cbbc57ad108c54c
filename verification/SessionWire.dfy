/** What the datagrams of one session do to its peer (src/session.rs, src/packet_utils.rs): the bytes on the
    wire, what an arriving acknowledgement, packet, Disconnect, heartbeat or unreliable payload leads to, and
    that nothing with a wrong CRC gets through. */
module SessionWire {
  import opened Bytes
  import opened Rc4
  import Protocol
  import MultiPackets
  import RO = ReliableOutput
  import RI = ReliableInput
  import E = EndToEnd
  import opened SessionTrace
  import opened SessionSteps
  import opened SessionLifecycle

  // ----- Bytes -------------------------------------------------------------------------------

  /** A packet on the wire: its code, an empty compression flag when there is one, the payload, and the low
      bytes of the hash of all that. */
  function Framed(c: Protocol.Codec, code: byte, payload: bytes): bytes
    requires c.crcLength <= 4
  {
    var body := [0, code] + (if c.compression then [0] else []) + payload;
    body + U32(c.hash(c.crcSeed, body))[4 - c.crcLength..]
  }

  /** An acknowledgement on the wire. */
  function AckFrame(c: Protocol.Codec, ch: nat, a: RI.Ack): bytes
    requires c.crcLength <= 4 && ch < 4
  {
    Framed(c, (if a.all then 0x15 else 0x11) + ch, U16(a.sequence))
  }

  /** A reliable packet on the wire. */
  function PacketFrame(c: Protocol.Codec, ch: nat, p: RO.OutgoingReliable): bytes
    requires c.crcLength <= 4 && ch < 4
  {
    Framed(c, (if p.kind == RO.ReliableDataFragment then 0x0D else 0x09) + ch, p.payload)
  }

  lemma FramedIs(c: Protocol.Codec, code: byte, payload: bytes)
    requires c.crcLength <= 4
    ensures Protocol.FrameContextual(c, code, payload) == Framed(c, code, payload)
  {
    assert U16(code) == [0, code];
  }

  /** What a flush sends for one channel. */
  lemma FlushSends(c: Protocol.Codec, ch: nat, acks: seq<RI.Ack>, packets: seq<RO.OutgoingReliable>)
    requires c.crcLength <= 4 && ch < 4
    ensures |AckActs(c, ch, acks)| == |acks| && |PacketActs(c, ch, packets)| == |packets|
    ensures forall k | 0 <= k < |acks| :: AckActs(c, ch, acks)[k] == Send(AckFrame(c, ch, acks[k]))
    ensures forall k | 0 <= k < |packets| :: PacketActs(c, ch, packets)[k] == Send(PacketFrame(c, ch, packets[k]))
  {
    hide Framed, Protocol.FrameContextual;
    forall k | 0 <= k < |acks|
      ensures AckActs(c, ch, acks)[k] == Send(AckFrame(c, ch, acks[k]))
    {
      FramedIs(c, (if acks[k].all then 0x15 else 0x11) + ch, U16(acks[k].sequence));
    }
    forall k | 0 <= k < |packets|
      ensures PacketActs(c, ch, packets)[k] == Send(PacketFrame(c, ch, packets[k]))
    {
      FramedIs(c, (if packets[k].kind == RO.ReliableDataFragment then 0x0D else 0x09) + ch, packets[k].payload);
    }
  }

  // ----- Arrivals ----------------------------------------------------------------------------

  /** A packet framed by the peer is dealt with as what it was framed as. */
  lemma TakesPacket(self: Self, v: View, op: Protocol.OpCode, ch: nat, payload: bytes, random: nat, now: nat)
    requires AtRest(self, v) && v.state != Terminated && Usable(v.params)
    requires ch < 4 && (ch == 0 || Protocol.HasChannels(op)) && !Protocol.IsContextless(op) && |payload| >= Protocol.Least(op)
    ensures var d, h := Protocol.FrameContextual(Framing(self, v.params), Protocol.AsU16(op) + ch, payload), Heard(v, now);
            && CanTakeIn(self, v, d, now)
            && TakeIn(self, v, d, random, now) == Flush(self, Conclude(self, h, Deal(self, v.params, v.channels, op, ch, payload, now), now))
  {
    hide StageOf, Early, Deal, Conclude, Flush, Protocol.Decompress, Protocol.Classify, Protocol.Crc, OutputsOk, AllFlushed;
    var c := Framing(self, v.params);
    var d := Protocol.FrameContextual(c, Protocol.AsU16(op) + ch, payload);
    Protocol.ContextualRoundTrip(c, self.inflate, v.state == Running, op, ch, payload);
    FrameLength(c, Protocol.AsU16(op) + ch, payload);
    DealKeepsParams(self, Heard(v, now), op, ch, Protocol.Classify(c, v.state == Running, d).body, now);
  }

  lemma FrameLength(c: Protocol.Codec, raw: nat, payload: bytes)
    requires c.crcLength <= 4
    ensures |Protocol.FrameContextual(c, raw, payload)| == 2 + (if c.compression then 1 else 0) + |payload| + c.crcLength
  {
  }

  /** An acknowledgement does to the sender's channel what EndToEnd says, and to nothing else. */
  lemma AckArrives(self: Self, v: View, ch: nat, a: RI.Ack, random: nat, now: nat)
    requires AtRest(self, v) && v.state != Terminated && Usable(v.params) && ch < 4
    ensures var d := AckFrame(Framing(self, v.params), ch, a);
            && CanTakeIn(self, v, d, now)
            && var o := E.Acked(OutputOr(v.params, self.cipher, v.channels.outputs[ch]), a, now);
            var call := ChannelCall(if a.all then Protocol.AcknowledgeAll else Protocol.Acknowledge, ch, U16(a.sequence));
            TakeIn(self, v, d, random, now) ==
              Do(Heard(v, now), [Call(call)]).(channels := v.channels.(outputs := v.channels.outputs[ch := Some(o)]))
  {
    hide StageOf, Early, Flush, TakeIn, CanTakeIn, E.Acked, RO.Acknowledge, RO.AcknowledgeAll, Framed, Protocol.FrameContextual;
    hide Deal, OutputsOk, AllFlushed, U16;
    var op := if a.all then Protocol.AcknowledgeAll else Protocol.Acknowledge;
    TakesPacket(self, v, op, ch, U16(a.sequence), random, now);
    FramedIs(Framing(self, v.params), (if a.all then 0x15 else 0x11) + ch, U16(a.sequence));
    AckIsFed(self, v.params, v.channels, ch, a, now);
    var w := Conclude(self, Heard(v, now), Deal(self, v.params, v.channels, op, ch, U16(a.sequence), now), now);
    IdleFlush(self, w);
  }

  lemma AckIsFed(self: Self, p: Parameters, c: ChannelPair, ch: nat, a: RI.Ack, now: nat)
    requires Usable(p) && Four(c) && ch < 4 && AllFlushed(c)
    ensures var op := if a.all then Protocol.AcknowledgeAll else Protocol.Acknowledge;
            var o := E.Acked(OutputOr(p, self.cipher, c.outputs[ch]), a, now);
            var after := c.(outputs := c.outputs[ch := Some(o)]);
            && Deal(self, p, c, op, ch, U16(a.sequence), now) == Outcome([Call(ChannelCall(op, ch, U16(a.sequence)))], after, None)
            && AllFlushed(after)
  {
    hide RO.Acknowledge, RO.AcknowledgeAll;
    var o := OutputOr(p, self.cipher, c.outputs[ch]);
    U16RoundTrip(a.sequence, U16(a.sequence));
    AckKeepsOutgoing(o, a.sequence % 0x1_0000, now);
  }

  lemma AckKeepsOutgoing(o: RO.OutputState, sequence: nat, now: nat)
    requires sequence < 0x1_0000
    ensures RO.Acknowledge(o, sequence, now).outgoing == o.outgoing
    ensures RO.AcknowledgeAll(o, sequence, now).outgoing == o.outgoing
  {
  }

  /** A flush when only one input channel has anything to say. */
  lemma FlushOne(self: Self, v: View, ch: nat, i: RI.InputState)
    requires v.params.crcLength <= 4 && Four(v.channels) && ch < 4 && AllFlushed(v.channels)
    ensures var w := v.(channels := v.channels.(inputs := v.channels.inputs[ch := Some(i)]));
            Flush(self, w) == Do(v, AckActs(Framing(self, v.params), ch, i.outgoing) + DataActs(ch, i.appData)).(
              channels := v.channels.(inputs := v.channels.inputs[ch := Some(RI.Drain(i))]))
  {
    hide AckActs, PacketActs, DataActs;
    var f, c := Framing(self, v.params), v.channels.(inputs := v.channels.inputs[ch := Some(i)]);
    assert Flushed(c).inputs == v.channels.inputs[ch := Some(RI.Drain(i))] && Flushed(c).outputs == v.channels.outputs;
    OneFlushed(f, v.channels, ch, i, 4);
  }

  lemma {:induction false} OneFlushed(f: Protocol.Codec, c: ChannelPair, ch: nat, i: RI.InputState, n: nat)
    requires f.crcLength <= 4 && Four(c) && AllFlushed(c) && ch < 4 && n <= 4
    ensures FlushAllActs(f, n, c.(inputs := c.inputs[ch := Some(i)])) ==
      if n <= ch then [] else AckActs(f, ch, i.outgoing) + DataActs(ch, i.appData)
  {
    hide FlushActs, AckActs, DataActs, AllFlushed;
    if n != 0 {
      OneFlushed(f, c, ch, i, n - 1);
      ActsOf(f, c, ch, i, n - 1);
    }
  }

  lemma ActsOf(f: Protocol.Codec, c: ChannelPair, ch: nat, i: RI.InputState, k: nat)
    requires f.crcLength <= 4 && Four(c) && AllFlushed(c) && ch < 4 && k < 4
    ensures FlushActs(f, k, c.inputs[ch := Some(i)][k], c.outputs[k]) ==
      if k == ch then AckActs(f, ch, i.outgoing) + DataActs(ch, i.appData) else []
  {
    hide AckActs, PacketActs, DataActs;
    FlushActsAreQuiet(f, k, c.inputs[k], c.outputs[k]);
    NoActs(f, k);
    var acks := AckActs(f, ch, i.outgoing);
    assert acks + [] == acks;
  }

  lemma NoActs(f: Protocol.Codec, ch: nat)
    ensures PacketActs(f, ch, []) == []
  {
  }

  /** What an arriving packet makes of the channel, which its first packet creates. */
  function Arrived(self: Self, v: View, ch: nat, p: RO.OutgoingReliable, now: nat): RI.Outcome
    requires Four(v.channels) && ch < 4
  {
    RI.Receive(InputOr(v.params, self.cipher, v.channels.inputs[ch], now), p.kind == RO.ReliableDataFragment, p.payload, now)
  }

  /** A reliable packet does to the receiver's channel what Receive says, and to no other; what that emits is sent
      and what it releases is surfaced, in that order. */
  lemma PacketArrives(self: Self, v: View, ch: nat, p: RO.OutgoingReliable, random: nat, now: nat)
    requires AtRest(self, v) && v.state != Terminated && Usable(v.params) && ch < 4 && |p.payload| >= 3
    ensures var d := PacketFrame(Framing(self, v.params), ch, p);
            && CanTakeIn(self, v, d, now)
            && var w, r := TakeIn(self, v, d, random, now), Arrived(self, v, ch, p, now);
            var call := ChannelCall(if p.kind == RO.ReliableDataFragment then Protocol.ReliableDataFragment else Protocol.ReliableData, ch, p.payload);
            && (r.ok ==>
                  w == Do(Heard(v, now), [Call(call)] + AckActs(Framing(self, v.params), ch, r.state.outgoing) + DataActs(ch, r.state.appData)).(
                    channels := v.channels.(inputs := v.channels.inputs[ch := Some(RI.Drain(r.state))])))
            && (!r.ok ==> EndedBy(self, w, CORRUPT, v.state == Running))
  {
    hide StageOf, Early, Flush, TakeIn, CanTakeIn, RI.Receive, Framed, Protocol.FrameContextual, AckActs, DataActs, EndedBy, AllFlushed, OutputsOk;
    var op := if p.kind == RO.ReliableDataFragment then Protocol.ReliableDataFragment else Protocol.ReliableData;
    var c, h, r := Framing(self, v.params), Heard(v, now), Arrived(self, v, ch, p, now);
    TakesPacket(self, v, op, ch, p.payload, random, now);
    FramedIs(c, (if p.kind == RO.ReliableDataFragment then 0x0D else 0x09) + ch, p.payload);
    var o := Deal(self, v.params, v.channels, op, ch, p.payload, now);
    if r.ok {
      var called := Do(h, [Call(ChannelCall(op, ch, p.payload))]);
      FlushOne(self, called, ch, r.state);
      var acks, data := AckActs(c, ch, r.state.outgoing), DataActs(ch, r.state.appData);
      assert h.trace + [Call(ChannelCall(op, ch, p.payload))] + (acks + data) == h.trace + ([Call(ChannelCall(op, ch, p.payload))] + acks + data);
    } else {
      HeardKeeps(self, v, now);
      DealKeeps(self, v.params, v.channels, op, ch, p.payload, now);
      ConcludeKeeps(self, h, o, now);
      IdleFlush(self, Conclude(self, h, o, now));
    }
  }

  /** A Disconnect ends the session of the peer, for the same reason and on behalf of the remote. */
  lemma DisconnectArrives(self: Self, v: View, sessionId: nat, reason: Reason, random: nat, now: nat)
    requires AtRest(self, v) && v.state != Terminated && Usable(v.params)
    ensures var d := DisconnectDatagram(self, v.params, sessionId, reason);
            && CanTakeIn(self, v, d, now)
            && EndedBy(self, TakeIn(self, v, d, random, now), Ending(reason, false, true), v.state == Running)
            && d == Framed(Framing(self, v.params), 0x05, U32(sessionId) + U16(ReasonCode(reason)))
  {
    hide StageOf, Early, Flush, TakeIn, CanTakeIn, Framed, Protocol.FrameContextual, EndedBy, AllFlushed, OutputsOk, U32;
    var payload := U32(sessionId) + U16(ReasonCode(reason));
    TakesPacket(self, v, Protocol.Disconnect, 0, payload, random, now);
    FramedIs(Framing(self, v.params), 0x05, payload);
    ReasonIsRead(sessionId, reason);
    var h, o := Heard(v, now), Deal(self, v.params, v.channels, Protocol.Disconnect, 0, payload, now);
    assert o == Nothing(v.channels).(ending := Some(Ending(reason, false, true)));
    HeardKeeps(self, v, now);
    ConcludeKeeps(self, h, o, now);
    IdleFlush(self, Conclude(self, h, o, now));
  }

  lemma ReasonIsRead(sessionId: nat, reason: Reason)
    ensures ReasonOf(ReadU16((U32(sessionId) + U16(ReasonCode(reason)))[4..])) == reason
  {
    hide U32, U16, ReadU16, ReasonCode, ReasonOf;
    var payload := U32(sessionId) + U16(ReasonCode(reason));
    assert payload[4..] == U16(ReasonCode(reason));
    U16RoundTrip(ReasonCode(reason), U16(ReasonCode(reason)));
    ReasonsAreDistinct(reason);
  }

  lemma ReasonsAreDistinct(reason: Reason)
    ensures ReasonCode(reason) <= 16 && ReasonOf(ReasonCode(reason)) == reason
  {
  }

  /** A heartbeat is answered by a server, with the same bytes; either side has heard of the other then. */
  lemma HeartbeatArrives(self: Self, v: View, random: nat, now: nat)
    requires AtRest(self, v) && v.state != Terminated && Usable(v.params)
    ensures var d := Framed(Framing(self, v.params), 0x06, []);
            && CanTakeIn(self, v, d, now)
            && TakeIn(self, v, d, random, now) == Do(Heard(v, now), if self.mode == Server then [Send(d)] else [])
            && (HeartbeatDue(self, v, now) ==> HeartbeatActs(self, v, now) == [Send(d)])
  {
    hide StageOf, Early, Flush, TakeIn, CanTakeIn, Framed, Protocol.FrameContextual, AllFlushed, OutputsOk;
    TakesPacket(self, v, Protocol.Heartbeat, 0, [], random, now);
    FramedIs(Framing(self, v.params), 0x06, []);
    var o := Deal(self, v.params, v.channels, Protocol.Heartbeat, 0, [], now);
    IdleFlush(self, Conclude(self, Heard(v, now), o, now));
    assert Heard(v, now).trace + [] == Heard(v, now).trace;
  }

  /** Unreliable data that fits the peer's UDP length is sent at once in one datagram, which the peer surfaces
      unchanged; but a single byte that is not zero, when there is no CRC, makes a datagram too short to be
      one and ends the peer's session as corrupt. Data that does not fit goes to reliable channel 0. */
  lemma UnreliableTravels(self: Self, v: View, peer: Self, w: View, data: bytes, random: nat, now: nat)
    requires AtRest(self, v) && v.state == Running && Usable(v.params)
    requires AtRest(peer, w) && w.state == Running && Usable(w.params) && Framing(self, v.params) == Framing(peer, w.params)
    requires data != []
    ensures var size := (if data[0] == 0 then 1 else 0) + |data| + v.params.crcLength;
            var sent := Enqueue(self, v, data, SessionTrace.Unreliable);
            if size > v.params.remoteUdpLength then
              var o := RO.Enqueue(OutputOr(v.params, self.cipher, v.channels.outputs[0]), data);
              sent == v.(channels := v.channels.(outputs := v.channels.outputs[0 := Some(o)]))
            else
              var d := Protocol.FrameUnreliable(Framing(self, v.params), data);
              && sent == Do(v, [Send(d)]) && |d| == size && CanTakeIn(peer, w, d, now)
              && var taken := TakeIn(peer, w, d, random, now);
              if v.params.crcLength >= 1 || |data| >= 2 || data[0] == 0
              then taken == Do(Heard(w, now), [Receive(ReceivedData(data, SessionTrace.Unreliable))])
              else EndedBy(peer, taken, CORRUPT, true)
  {
    hide StageOf, Early, Protocol.Crc, RO.Enqueue, OutputsOk, AllFlushed, Protocol.Classify, EndedBy, End;
    var c := Framing(self, v.params);
    var d := Protocol.FrameUnreliable(c, data);
    Protocol.UnreliableRoundTrip(c, data);
    if v.params.crcLength == 0 && |data| == 1 && data[0] != 0 {
      LoneByte(c, d);
      EndKeeps(peer, w, CORRUPT, now);
    }
  }

  lemma LoneByte(c: Protocol.Codec, data: bytes)
    requires c.crcLength <= 4 && |data| < 2
    ensures Protocol.Classify(c, true, data) == Protocol.Corrupt
  {
  }

  /** A compressed packet is dealt with as what it inflates to, and one that does not inflate is corrupt. */
  lemma CompressedArrives(self: Self, v: View, op: Protocol.OpCode, ch: nat, flag: byte, packed: bytes, random: nat, now: nat)
    requires AtRest(self, v) && v.state != Terminated && Usable(v.params) && v.params.compression && flag != 0
    requires ch < 4 && (ch == 0 || Protocol.HasChannels(op)) && !Protocol.IsContextless(op) && |packed| >= Protocol.Least(op)
    ensures var c := Framing(self, v.params);
            var d := Protocol.FrameContextual(c.(compression := false), Protocol.AsU16(op) + ch, [flag] + packed);
            && CanTakeIn(self, v, d, now)
            && var w := TakeIn(self, v, d, random, now);
            match self.inflate(packed)
            case Some(payload) =>
              && (|payload| >= Protocol.Least(op) ==>
                    var plain := Protocol.FrameContextual(c, Protocol.AsU16(op) + ch, payload);
                    CanTakeIn(self, v, plain, now) && w == TakeIn(self, v, plain, random, now))
            case None => EndedBy(self, w, CORRUPT, v.state == Running)
  {
    hide StageOf, Early, Deal, Conclude, Flush, Protocol.Classify, Protocol.Crc, OutputsOk, AllFlushed, EndedBy, End, U16;
    var c, raw := Framing(self, v.params), Protocol.AsU16(op) + ch;
    var d := Protocol.FrameContextual(c.(compression := false), raw, [flag] + packed);
    CompressedIsRead(c, v.state == Running, op, ch, [flag] + packed);
    var h := Heard(v, now);
    HeardKeeps(self, v, now);
    DealKeepsParams(self, h, op, ch, [flag] + packed, now);
    assert ([flag] + packed)[1..] == packed;
    match self.inflate(packed)
    case Some(payload) =>
      if |payload| >= Protocol.Least(op) { TakesPacket(self, v, op, ch, payload, random, now); }
    case None =>
      EndKeeps(self, h, CORRUPT, now);
      IdleFlush(self, End(self, h, CORRUPT, now));
  }

  lemma CompressedIsRead(c: Protocol.Codec, running: bool, op: Protocol.OpCode, ch: nat, body: bytes)
    requires c.crcLength <= 4 && ch < 4 && (ch == 0 || Protocol.HasChannels(op)) && !Protocol.IsContextless(op)
    requires c.compression && |body| >= Protocol.Least(op) + 1
    ensures Protocol.Classify(c, running, Protocol.FrameContextual(c.(compression := false), Protocol.AsU16(op) + ch, body))
         == Protocol.Contextual(op, ch, body)
  {
    hide Protocol.Classify, Protocol.Crc, U16, Protocol.FromU16, Protocol.ReliableChannel;
    var plain, raw := c.(compression := false), Protocol.AsU16(op) + ch;
    var d := Protocol.FrameContextual(plain, raw, body);
    Protocol.OpCodesAreUnambiguous(op, ch, raw);
    Protocol.FrameParts(plain, raw, body);
    FrameLength(plain, raw, body);
    CrcIsChecked(c, d);
    Protocol.ContextualIff(c, running, d, op, ch, body);
  }

  lemma CrcIsChecked(c: Protocol.Codec, d: bytes)
    requires c.crcLength <= 4 && c.crcLength <= |d|
    requires var split := |d| - c.crcLength; d[split..] == Protocol.Crc(c.(compression := false), d[..split])
    ensures Protocol.Checked(c, d)
  {
  }

  // ----- Wrong CRCs --------------------------------------------------------------------------

  /** The acts behind position `from` call no channel. */
  ghost predicate NoCalls(trace: seq<Act>, from: nat) {
    forall k | from <= k < |trace| :: !trace[k].Call?
  }

  /** A packet of a session that is long enough and has a wrong CRC reaches no channel and ends the session as
      corrupt. */
  lemma WrongCrcEnds(self: Self, v: View, datagram: bytes, op: Protocol.OpCode, random: nat, now: nat)
    requires AtRest(self, v) && v.state != Terminated && Usable(v.params)
    requires Protocol.ReadOpCode(datagram) == Some(op) && !Protocol.IsContextless(op)
    requires !Protocol.Checked(Framing(self, v.params), datagram)
    ensures CanTakeIn(self, v, datagram, now)
    ensures var w := TakeIn(self, v, datagram, random, now);
            && EndedBy(self, w, CORRUPT, v.state == Running) && w.channels.inputs == v.channels.inputs
            && v.trace <= w.trace && NoCalls(w.trace, |v.trace|)
  {
    hide StageOf, Early, Protocol.Classify, Protocol.ReadOpCode, EndedBy, OutputsOk, Protocol.Checked, LastWords;
    var c := Framing(self, v.params);
    var read := Protocol.Classify(c, v.state == Running, datagram);
    match read {
      case Contextual(op', ch, body) => Protocol.ContextualIff(c, v.state == Running, datagram, op', ch, body);
      case Contextless(op', body) => Protocol.ContextlessIff(c, v.state == Running, datagram, op', body);
      case Unreliable(payload) => Protocol.UnreliableIff(c, v.state == Running, datagram, payload);
      case Dropped => Protocol.DroppedIff(c, v.state == Running, datagram);
      case Corrupt =>
    }
    assert read.Corrupt?;
    EndKeeps(self, v, CORRUPT, now);
    LastWordsCallNothing(self, v, now);
  }

  lemma LastWordsCallNothing(self: Self, v: View, now: nat)
    requires AtRest(self, v) && v.params.crcLength <= 4
    ensures var f := LastWords(self, v, now);
            && v.trace <= f.trace && NoCalls(f.trace, |v.trace|) && f.channels.inputs == v.channels.inputs
  {
    hide StageOf, Early, Protocol.FrameContextual, OutputsOk, RO.RunTick;
    var c := LastTick(v, now);
    FlushCallsNothing(Framing(self, v.params), 4, c);
    assert Flushed(c).inputs == v.channels.inputs;
  }

  lemma {:induction false} FlushCallsNothing(f: Protocol.Codec, n: nat, c: ChannelPair)
    requires f.crcLength <= 4 && n <= |c.inputs| && n <= |c.outputs|
    ensures NoCalls(FlushAllActs(f, n, c), 0)
  {
    hide Protocol.FrameContextual;
    if n != 0 { FlushCallsNothing(f, n - 1, c); }
  }

  /** An unreliable datagram with a wrong CRC leaves no trace. */
  lemma WrongCrcIsDropped(self: Self, v: View, datagram: bytes, random: nat, now: nat)
    requires AtRest(self, v) && v.state == Running && Usable(v.params)
    requires |datagram| >= 2 && |datagram| > v.params.crcLength && Protocol.ReadOpCode(datagram).None?
    requires !Protocol.Checked(Framing(self, v.params), datagram)
    ensures CanTakeIn(self, v, datagram, now) && TakeIn(self, v, datagram, random, now) == v
  {
    hide StageOf, Early, Protocol.Classify, OutputsOk;
    Protocol.DroppedIff(Framing(self, v.params), true, datagram);
  }
}
