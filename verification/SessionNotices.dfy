/** When the remote is told that a session ends (src/session.rs): exactly one Disconnect is sent by a call that
    ends a running session and means to tell, and none by any other call. */
module SessionNotices {
  import opened Bytes
  import Protocol
  import MultiPackets
  import RO = ReliableOutput
  import RI = ReliableInput
  import opened SessionTrace
  import opened SessionSteps
  import opened SessionLifecycle
  import opened SessionRuns
  import opened SessionWire
  import opened SessionSizes
  import opened Handshake

  /** A Disconnect by its OP code. */
  predicate Notifies(a: Act) {
    a.Send? && |a.datagram| >= 2 && a.datagram[0] == 0x00 && a.datagram[1] == 0x05
  }

  /** How many Disconnects there are. */
  function Notices(acts: seq<Act>): nat {
    if acts == [] then 0 else Notices(acts[..|acts| - 1]) + if Notifies(acts[|acts| - 1]) then 1 else 0
  }

  lemma {:induction false} NoticesAppend(a: seq<Act>, b: seq<Act>)
    ensures Notices(a + b) == Notices(a) + Notices(b)
    decreases |b|
  {
    if b == [] {
      assert a + b == a;
    } else {
      var n := |b| - 1;
      assert (a + b)[..|a| + n] == a + b[..n];
      NoticesAppend(a, b[..n]);
    }
  }

  lemma {:induction false} NoNotices(acts: seq<Act>)
    requires forall k | 0 <= k < |acts| :: !Notifies(acts[k])
    ensures Notices(acts) == 0
    decreases |acts|
  {
    if acts != [] { NoNotices(acts[..|acts| - 1]); }
  }

  lemma FramesAreNoNotices(f: Protocol.Codec, ch: nat)
    requires f.crcLength <= 4 && ch < 4
    ensures forall a :: !Notifies(Send(AckFrame(f, ch, a)))
    ensures forall p :: !Notifies(Send(PacketFrame(f, ch, p)))
  {
  }

  lemma {:induction false} FlushNotifiesNobody(f: Protocol.Codec, n: nat, c: ChannelPair)
    requires (f.crcLength <= 4 || AllFlushed(c)) && Four(c) && n <= 4
    ensures Notices(FlushAllActs(f, n, c)) == 0
  {
    hide AckActs, PacketActs, AckFrame, PacketFrame, Notices, AllFlushed;
    if n == 0 {
      NoNotices([]);
    } else if f.crcLength > 4 {
      FlushIsQuiet(f, n, c);
      NoNotices([]);
    } else {
      FlushNotifiesNobody(f, n - 1, c);
      var acks := if c.inputs[n - 1].Some? then c.inputs[n - 1].value.outgoing else [];
      var packets := if c.outputs[n - 1].Some? then c.outputs[n - 1].value.outgoing else [];
      FlushSends(f, n - 1, acks, packets);
      FramesAreNoNotices(f, n - 1);
      NoNotices(FlushActs(f, n - 1, c.inputs[n - 1], c.outputs[n - 1]));
      NoticesAppend(FlushAllActs(f, n - 1, c), FlushActs(f, n - 1, c.inputs[n - 1], c.outputs[n - 1]));
    }
  }

  lemma FlushAdds(self: Self, v: View)
    requires (v.params.crcLength <= 4 || AllFlushed(v.channels)) && Four(v.channels)
    ensures Notices(Flush(self, v).trace) == Notices(v.trace)
  {
    hide FlushAllActs, Flushed, Notices, AllFlushed;
    FlushNotifiesNobody(Framing(self, v.params), 4, v.channels);
    NoticesAppend(v.trace, FlushAllActs(Framing(self, v.params), 4, v.channels));
  }

  /** An end sends one Disconnect if it is to tell and the session is running, and else none. */
  lemma EndAdds(self: Self, v: View, e: Ending, now: nat)
    requires CanEnd(v, e, now) && Four(v.channels) && v.state != Terminated
    ensures Notices(End(self, v, e, now).trace) == Notices(v.trace) + if e.notify && v.state == Running then 1 else 0
  {
    hide FlushAllActs, Flushed, Notices, DisconnectDatagram, AllFlushed, TickedOutputs;
    FlushAdds(self, v.(channels := LastTick(v, now)));
    var f, notice := LastWords(self, v, now), Notice(self, v, e);
    NoticesAppend(f.trace, notice);
    NoticesAppend(f.trace + notice, [Emit(Closed(e.reason))]);
    One([Emit(Closed(e.reason))]);
    if Tells(v, e) {
      DisconnectIs(self, v.params, v.sessionId, e.reason);
      One(notice);
    } else {
      NoNotices([]);
    }
  }

  lemma One(acts: seq<Act>)
    requires |acts| == 1
    ensures Notices(acts) == if Notifies(acts[0]) then 1 else 0
  {
    assert acts[..0] == [];
  }

  lemma DisconnectIs(self: Self, p: Parameters, sessionId: nat, reason: Reason)
    requires p.crcLength <= 4
    ensures Notifies(Send(DisconnectDatagram(self, p, sessionId, reason)))
  {
    hide U32;
    FramedIs(Framing(self, p), 0x05, U32(sessionId) + U16(ReasonCode(reason)));
  }

  lemma {:induction false} DealNotifiesNobody(self: Self, p: Parameters, c: ChannelPair, op: Protocol.OpCode, ch: nat, body: bytes, now: nat)
    requires Usable(p) && Four(c) && ch < 4
    ensures Notices(Deal(self, p, c, op, ch, body, now).acts) == 0
    decreases |body|, 1
  {
    hide FedOne, DealBundle, RI.Receive, Usable, Notices;
    if op == Protocol.MultiPacket {
      DealBundleNotifiesNobody(self, p, c, body, now);
    } else {
      NoNotices(Deal(self, p, c, op, ch, body, now).acts);
    }
  }

  lemma {:induction false} DealBundleNotifiesNobody(self: Self, p: Parameters, c: ChannelPair, body: bytes, now: nat)
    requires Usable(p) && Four(c)
    ensures Notices(DealBundle(self, p, c, body, now).acts) == 0
    decreases |body|, 0
  {
    hide Deal, Usable, Notices;
    NoNotices([]);
    if body == [] { return; }
    var first := MultiPackets.FirstSub(body);
    if first.None? || Protocol.ReadOpCode(first.value.sub).None? { return; }
    var sub := first.value.sub;
    DealNotifiesNobody(self, p, c, Protocol.ReadOpCode(sub).value, Protocol.ReliableChannel(ReadU16(sub)), sub[2..], now);
    var o := DealFirst(self, p, c, body, now);
    if o.ending.None? {
      var rest := DealBundle(self, p, o.channels, body[first.value.end..], now);
      DealBundleNotifiesNobody(self, p, o.channels, body[first.value.end..], now);
      NoticesAppend(o.acts, rest.acts);
    }
  }

  function Told(e: Option<Ending>, v: View): nat {
    if e.Some? && e.value.notify && v.state == Running then 1 else 0
  }

  lemma DealWithAdds(self: Self, v: View, op: Protocol.OpCode, ch: nat, body: bytes, now: nat)
    requires Usable(v.params) && Four(v.channels) && ch < 4 && v.state != Terminated
    ensures Notices(DealWith(self, v, op, ch, body, now).trace) == Notices(v.trace) + Told(Verdict(self, v, op, ch, body, now), v)
  {
    hide Deal, End, Protocol.Decompress, Notices;
    match Protocol.Decompress(Framing(self, v.params), self.inflate, body)
    case Empty =>
    case NotInflatable => EndAdds(self, v, CORRUPT, now);
    case Plain(payload) =>
      var o := Deal(self, v.params, v.channels, op, ch, payload, now);
      DealNotifiesNobody(self, v.params, v.channels, op, ch, payload, now);
      NoticesAppend(v.trace, o.acts);
      if o.ending.Some? { EndAdds(self, Do(v, o.acts).(channels := o.channels), o.ending.value, now); }
  }

  lemma ShakeAdds(self: Self, v: View, op: Protocol.OpCode, body: bytes, random: nat, now: nat)
    requires CanShake(self, v, op, body, now) && Four(v.channels) && v.state != Terminated
    ensures Notices(Shake(self, v, op, body, random, now).trace) == Notices(v.trace) + Told(HandshakeVerdict(self, v, op, body), v)
  {
    hide End, ParseRequest, ParseResponse, AllFlushed, Notices, U32;
    var e, r := HandshakeVerdict(self, v, op, body), ParseRequest(body);
    if e.Some? {
      EndAdds(self, v, e.value, now);
      if op == Protocol.SessionRequest && r.Some? {
        EndAdds(self, v.(params := v.params.(remoteUdpLength := r.value.udpLength), sessionId := r.value.sessionId), e.value, now);
      }
    } else if op == Protocol.SessionRequest {
      var w := Requested(self, v, body, random, now);
      One(w.trace[|v.trace|..]);
      NoticesAppend(v.trace, w.trace[|v.trace|..]);
      assert w.trace == v.trace + w.trace[|v.trace|..];
    } else {
      One([Emit(Opened)]);
      NoticesAppend(v.trace, [Emit(Opened)]);
    }
  }

  lemma HeardAdds(v: View, now: nat)
    ensures Notices(Heard(v, now).trace) == Notices(v.trace)
  {
    hide Notices;
    One([Emit(Opened)]);
    NoticesAppend(v.trace, [Emit(Opened)]);
    assert v.trace + [] == v.trace;
  }

  lemma TakeInAdds(self: Self, v: View, datagram: bytes, random: nat, now: nat)
    requires AtRest(self, v) && CanTakeIn(self, v, datagram, now) && v.state != Terminated
    ensures Notices(TakeIn(self, v, datagram, random, now).trace) == Notices(v.trace) + Told(DatagramVerdict(self, v, datagram, now), v)
  {
    hide StageOf, OutputsOk, AllFlushed, End, Protocol.Classify, DealWith, Shake, Flush, Notices, Verdict, HandshakeVerdict;
    var h := Heard(v, now);
    HeardAdds(v, now);
    match Protocol.Classify(Framing(self, v.params), v.state == Running, datagram)
    case Corrupt => EndAdds(self, v, CORRUPT, now);
    case Dropped =>
    case Unreliable(payload) =>
      var surfaced := [Receive(ReceivedData(payload, SessionTrace.Unreliable))];
      One(surfaced);
      NoticesAppend(h.trace, surfaced);
    case Contextless(op, body) =>
      SameVerdict(self, v, now, op, body);
      ShakeAdds(self, h, op, body, random, now);
      ShakeKeepsChannels(self, h, op, body, random, now);
      FlushAdds(self, Shake(self, h, op, body, random, now));
    case Contextual(op, ch, body) =>
      DealWithAdds(self, h, op, ch, body, now);
      DealKeepsParams(self, h, op, ch, body, now);
      FlushAdds(self, DealWith(self, h, op, ch, body, now));
      SameDealing(self, v, now, op, ch, body);
  }

  lemma SameVerdict(self: Self, v: View, now: nat, op: Protocol.OpCode, body: bytes)
    ensures HandshakeVerdict(self, Heard(v, now), op, body) == HandshakeVerdict(self, v, op, body) && Heard(v, now).state == v.state
  {
    hide ParseRequest, ParseResponse;
  }

  lemma SameDealing(self: Self, v: View, now: nat, op: Protocol.OpCode, ch: nat, body: bytes)
    requires Usable(v.params) && Four(v.channels) && ch < 4
    ensures Verdict(self, Heard(v, now), op, ch, body, now) == Verdict(self, v, op, ch, body, now)
    ensures Heard(v, now).state == v.state
  {
    hide Deal, Protocol.Decompress;
  }

  /** In any state a call sends one Disconnect if it ends a running session and its verdict is to tell the
      remote, and none otherwise. */
  lemma CallNotifies(self: Self, v: View, call: SessionCall)
    requires AtRest(self, v)
    ensures Notices(Called(self, v, call).trace) == Notices(v.trace) + Told(CallVerdict(self, v, call), v)
  {
    hide StageOf, OutputsOk, AllFlushed, End, TakeIn, CanTakeIn, CanTick, CanEnqueue, CanEnd, DatagramVerdict, Notices, Flush, Expired;
    AtRestMeans(self, v);
    if v.state == Terminated {
      CallKeeps(self, v, call);
    } else if CanCall(self, v, call) {
      match call
      case Incoming(datagram, random, now) => TakeInAdds(self, v, datagram, random, now);
      case Ticking(now) => TickAdds(self, v, now);
      case Enqueueing(data, channel) => EnqueueAdds(self, v, data, channel);
      case Terminating(reason, notifyRemote, now) => EndAdds(self, v, Ending(reason, notifyRemote, false), now);
      case Asking(random) => AskAdds(self, v, random);
      case Taking =>
    }
  }

  lemma TickAdds(self: Self, v: View, now: nat)
    requires AtRest(self, v) && CanTick(self, v, now) && v.state != Terminated
    ensures Notices(Tick(self, v, now).trace) == Notices(v.trace)
  {
    hide StageOf, OutputsOk, AllFlushed, End, Flush, Notices, Expired, TickedInputs, TickedOutputs;
    var beats := HeartbeatActs(self, v, now);
    NoBeatNotifies(self, v, now);
    NoNotices(beats);
    NoticesAppend(v.trace, beats);
    var w := Do(v, beats);
    if Expired(v, now) {
      EndAdds(self, w, Ending(Timeout, false, false), now);
    } else {
      FlushAdds(self, w.(channels := TickedPair(v.channels, now)));
    }
  }

  lemma NoBeatNotifies(self: Self, v: View, now: nat)
    requires v.params.crcLength <= 4 || !HeartbeatDue(self, v, now)
    ensures forall k | 0 <= k < |HeartbeatActs(self, v, now)| :: !Notifies(HeartbeatActs(self, v, now)[k])
  {
    if HeartbeatDue(self, v, now) { FramedIs(Framing(self, v.params), 0x06, []); }
  }

  lemma EnqueueAdds(self: Self, v: View, data: bytes, channel: Channel)
    requires AtRest(self, v) && CanEnqueue(v, data, channel)
    ensures Notices(Enqueue(self, v, data, channel).trace) == Notices(v.trace)
  {
    hide StageOf, AllFlushed, RO.Enqueue, Notices, FramedLength, Protocol.FrameUnreliable;
    var w := Enqueue(self, v, data, channel);
    if Accepts(v, channel) && ChannelFor(v, data, channel).None? && data != [] {
      var d := Protocol.FrameUnreliable(Framing(self, v.params), data);
      UnreliableHasNoCode(Framing(self, v.params), data);
      One([Send(d)]);
      NoticesAppend(v.trace, [Send(d)]);
    }
  }

  lemma AskAdds(self: Self, v: View, random: nat)
    ensures Notices(Ask(self, v, random).trace) == Notices(v.trace)
  {
    hide Notices, U32;
    One([Send(FrameRequest(random, v.params))]);
    NoticesAppend(v.trace, [Send(FrameRequest(random, v.params))]);
  }

  /** As long as a session is alive no Disconnect was sent. */
  lemma {:induction false} AliveIsUntold(self: Self, v: View, calls: seq<SessionCall>)
    requires AtRest(self, v) && Notices(v.trace) == 0 && Run(self, v, calls).state != Terminated
    ensures Notices(Run(self, v, calls).trace) == 0
  {
    hide AtRest, Called, CallVerdict, Notices;
    if calls != [] {
      var before, last := Run(self, v, calls[..|calls| - 1]), calls[|calls| - 1];
      CallKeeps(self, before, last);
      AliveIsUntold(self, v, calls[..|calls| - 1]);
      CallNotifies(self, before, last);
    }
  }

  /** So in every run that ends the session at most one Disconnect is sent: by the call that ended it, exactly if
      the session was running and its ending is one that tells. */
  lemma {:induction false} TellsOnce(self: Self, v: View, calls: seq<SessionCall>) returns (k: nat)
    requires AtRest(self, v) && v.state != Terminated && Notices(v.trace) == 0 && Run(self, v, calls).state == Terminated
    ensures k < |calls|
    ensures var before := Run(self, v, calls[..k]);
            var e := CallVerdict(self, before, calls[k]);
            && before.state != Terminated && e.Some?
            && Notices(Run(self, v, calls).trace) == if e.value.notify && before.state == Running then 1 else 0
  {
    hide AtRest, Called, CallVerdict, Notices;
    var n := |calls| - 1;
    var before := Run(self, v, calls[..n]);
    CallKeeps(self, before, calls[n]);
    CallNotifies(self, before, calls[n]);
    if before.state == Terminated {
      k := TellsOnce(self, v, calls[..n]);
      assert calls[..n][..k] == calls[..k];
    } else {
      k := n;
      AliveIsUntold(self, v, calls[..n]);
    }
  }
}
