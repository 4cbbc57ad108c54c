/** When a session times out and when it sends heartbeats (src/session.rs), by the datagrams it has heard in
    whole runs. */
module SessionTimes {
  import opened Bytes
  import Protocol
  import RO = ReliableOutput
  import opened SessionTrace
  import opened SessionSteps
  import opened SessionLifecycle
  import opened SessionRuns
  import opened SessionWire

  /** A datagram counts as heard unless it is corrupt or dropped. */
  predicate Counts(self: Self, v: View, datagram: bytes)
    requires v.params.crcLength <= 4 || !Protocol.NeedsCrc(Framing(self, v.params), v.state == Running, datagram)
  {
    var read := Protocol.Classify(Framing(self, v.params), v.state == Running, datagram);
    !read.Corrupt? && !read.Dropped?
  }

  /** The time of the last call of a run that handed a live session such a datagram, or of its beginning. */
  ghost function LastHeard(self: Self, v: View, calls: seq<SessionCall>): nat
    requires AtRest(self, v)
  {
    if calls == [] then v.heard else
      var last, before := calls[|calls| - 1], Run(self, v, calls[..|calls| - 1]);
      if last.Incoming? && before.state != Terminated && CanCall(self, before, last) && Counts(self, before, last.datagram)
      then last.now else LastHeard(self, v, calls[..|calls| - 1])
  }

  lemma CallHears(self: Self, v: View, call: SessionCall)
    requires AtRest(self, v)
    ensures Called(self, v, call).heard ==
      if call.Incoming? && v.state != Terminated && CanCall(self, v, call) && Counts(self, v, call.datagram) then call.now else v.heard
  {
    hide StageOf, OutputsOk, AllFlushed, End, TakeIn, Tick, Enqueue, Ask, CanTakeIn, CanTick, CanEnqueue, CanEnd, Protocol.Classify, Protocol.NeedsCrc;
    AtRestMeans(self, v);
    if CanCall(self, v, call) {
      match call
      case Incoming(datagram, random, now) => TakeInHears(self, v, datagram, random, now);
      case Ticking(now) => OthersHearNothing(self, v, call);
      case Enqueueing(data, channel) => OthersHearNothing(self, v, call);
      case Terminating(reason, notifyRemote, now) => OthersHearNothing(self, v, call);
      case Asking(random) => OthersHearNothing(self, v, call);
      case Taking =>
    }
  }

  lemma OthersHearNothing(self: Self, v: View, call: SessionCall)
    requires AtRest(self, v) && CanCall(self, v, call) && !call.Incoming?
    ensures Called(self, v, call).heard == v.heard
  {
    hide StageOf, FlushAllActs, Flushed, RO.Enqueue, DisconnectDatagram, Protocol.FrameContextual, Protocol.FrameUnreliable, FrameRequest;
  }

  lemma EndHearsNothing(self: Self, v: View, e: Ending, now: nat)
    requires CanEnd(v, e, now) && Four(v.channels)
    ensures End(self, v, e, now).heard == v.heard
  {
    hide FlushAllActs, Flushed, DisconnectDatagram;
  }

  lemma TakeInHears(self: Self, v: View, datagram: bytes, random: nat, now: nat)
    requires AtRest(self, v) && CanTakeIn(self, v, datagram, now)
    ensures TakeIn(self, v, datagram, random, now).heard ==
      if v.state != Terminated && Counts(self, v, datagram) then now else v.heard
  {
    hide StageOf, OutputsOk, AllFlushed, End, Protocol.Classify, Flush, ParseRequest, ParseResponse, Deal, FrameResponse;
    if v.state == Terminated { return; }
    var h := Heard(v, now);
    match Protocol.Classify(Framing(self, v.params), v.state == Running, datagram)
    case Corrupt => EndHearsNothing(self, v, CORRUPT, now);
    case Contextless(op, body) =>
      ShakeKeepsChannels(self, h, op, body, random, now);
      ShakeHearsNothing(self, h, op, body, random, now);
      FlushIsLocal(self, Shake(self, h, op, body, random, now));
    case Contextual(op, ch, body) =>
      DealKeepsParams(self, h, op, ch, body, now);
      DealHearsNothing(self, h, op, ch, body, now);
      FlushIsLocal(self, DealWith(self, h, op, ch, body, now));
    case _ =>
  }

  lemma ShakeHearsNothing(self: Self, v: View, op: Protocol.OpCode, body: bytes, random: nat, now: nat)
    requires CanShake(self, v, op, body, now) && Four(v.channels)
    ensures Shake(self, v, op, body, random, now).heard == v.heard
  {
    hide End, ParseRequest, ParseResponse, FrameResponse, AllFlushed;
    var e := HandshakeVerdict(self, v, op, body);
    if e.Some? {
      var r := ParseRequest(body);
      EndHearsNothing(self, v, e.value, now);
      if op == Protocol.SessionRequest && r.Some? {
        EndHearsNothing(self, v.(params := v.params.(remoteUdpLength := r.value.udpLength), sessionId := r.value.sessionId), e.value, now);
      }
    }
  }

  lemma DealHearsNothing(self: Self, v: View, op: Protocol.OpCode, ch: nat, body: bytes, now: nat)
    requires Usable(v.params) && Four(v.channels) && ch < 4
    ensures DealWith(self, v, op, ch, body, now).heard == v.heard
  {
    hide End, Deal, Protocol.Decompress;
    match Protocol.Decompress(Framing(self, v.params), self.inflate, body)
    case Empty =>
    case NotInflatable => EndHearsNothing(self, v, CORRUPT, now);
    case Plain(payload) =>
      var o := Deal(self, v.params, v.channels, op, ch, payload, now);
      if o.ending.Some? { EndHearsNothing(self, Do(v, o.acts).(channels := o.channels), o.ending.value, now); }
  }

  lemma {:induction false} RunHears(self: Self, v: View, calls: seq<SessionCall>)
    requires AtRest(self, v)
    ensures Run(self, v, calls).heard == LastHeard(self, v, calls)
  {
    hide AtRest, Called, CanCall, Counts;
    if calls != [] {
      var before := calls[..|calls| - 1];
      RunHears(self, v, before);
      CallHears(self, Run(self, v, before), calls[|calls| - 1]);
    }
  }

  /** In any run a tick ends a live session exactly if there is an inactivity timeout and nothing that counts was
      heard for longer than that. */
  lemma TimesOutIff(self: Self, v: View, calls: seq<SessionCall>, now: nat)
    requires AtRest(self, v) && Run(self, v, calls).state != Terminated && CanTick(self, Run(self, v, calls), now)
    ensures var w := Run(self, v, calls);
            Tick(self, w, now).state == Terminated <==>
              w.params.inactivityTimeout != 0 && now > LastHeard(self, v, calls) + w.params.inactivityTimeout
  {
    hide Run, LastHeard, AtRest, Tick, CanTick;
    RunHears(self, v, calls);
    TickKeeps(self, Run(self, v, calls), now);
  }

  /** None of these acts sends a datagram with that code. */
  ghost predicate SendsNo(code: byte, acts: seq<Act>) {
    forall k | 0 <= k < |acts| && acts[k].Send? :: |acts[k].datagram| >= 2 && acts[k].datagram[1] != code
  }

  lemma {:induction false} FlushSendsNoHeartbeat(f: Protocol.Codec, n: nat, c: ChannelPair)
    requires f.crcLength <= 4 && Four(c) && n <= 4
    ensures SendsNo(0x06, FlushAllActs(f, n, c))
  {
    hide AckActs, PacketActs, AckFrame, PacketFrame;
    if n != 0 {
      FlushSendsNoHeartbeat(f, n - 1, c);
      var acks := if c.inputs[n - 1].Some? then c.inputs[n - 1].value.outgoing else [];
      var packets := if c.outputs[n - 1].Some? then c.outputs[n - 1].value.outgoing else [];
      FlushSends(f, n - 1, acks, packets);
      FramesAreNoHeartbeats(f, n - 1);
      NoActs(f, n - 1);
      assert SendsNo(0x06, FlushActs(f, n - 1, c.inputs[n - 1], c.outputs[n - 1]));
    }
  }

  lemma FramesAreNoHeartbeats(f: Protocol.Codec, ch: nat)
    requires f.crcLength <= 4 && ch < 4
    ensures forall a :: |AckFrame(f, ch, a)| >= 2 && AckFrame(f, ch, a)[1] != 0x06
    ensures forall p :: |PacketFrame(f, ch, p)| >= 2 && PacketFrame(f, ch, p)[1] != 0x06
  {
  }

  /** In any run, a tick of a session that has not ended starts with a heartbeat if it is a running client's and
      nothing that counts was heard for longer than its interval, and sends none otherwise. */
  lemma HeartbeatsIff(self: Self, v: View, calls: seq<SessionCall>, now: nat)
    requires AtRest(self, v) && Usable(Run(self, v, calls).params)
    requires Run(self, v, calls).state != Terminated
    ensures var w := Run(self, v, calls);
            && w.trace <= Tick(self, w, now).trace
            && var acts := Tick(self, w, now).trace[|w.trace|..];
            if self.mode == Client && w.state == Running && w.params.heartbeatAfter != 0 && now > LastHeard(self, v, calls) + w.params.heartbeatAfter
            then acts != [] && acts[0] == Send(Framed(Framing(self, w.params), 0x06, [])) && SendsNo(0x06, acts[1..])
            else SendsNo(0x06, acts)
  {
    hide Run, LastHeard, AtRest, Framed, Tick, SendsNo;
    RunHears(self, v, calls);
    var w := Run(self, v, calls);
    var rest := TickSends(self, w, now);
    FramedIs(Framing(self, w.params), 0x06, []);
    var beats := HeartbeatActs(self, w, now);
    assert (w.trace + beats + rest)[|w.trace|..] == beats + rest;
    assert (beats + rest)[|beats|..] == rest;
  }

  /** Besides the heartbeat, a tick flushes the channels and may close the session. */
  lemma TickSends(self: Self, v: View, now: nat) returns (rest: seq<Act>)
    requires AtRest(self, v) && Usable(v.params) && v.state != Terminated
    ensures Tick(self, v, now).trace == v.trace + HeartbeatActs(self, v, now) + rest && SendsNo(0x06, rest)
  {
    hide StageOf, OutputsOk, AllFlushed, FlushAllActs, Flushed, Protocol.FrameContextual, LastTick, TickedPair;
    AtRestMeans(self, v);
    var c := if Expired(v, now) then LastTick(v, now) else TickedPair(v.channels, now);
    var f := Framing(self, v.params);
    assert Four(c) by { StaysFour(v, now); }
    FlushSendsNoHeartbeat(f, 4, c);
    var w := Do(v, HeartbeatActs(self, v, now));
    assert LastTick(w, now) == LastTick(v, now) by { StaysFour(v, now); SameLastTick(v, w, now); }
    rest := FlushAllActs(f, 4, c) + if Expired(v, now) then [Emit(Closed(Timeout))] else [];
  }

  lemma StaysFour(v: View, now: nat)
    requires Four(v.channels)
    ensures Four(LastTick(v, now)) && Four(TickedPair(v.channels, now))
  {
  }

  lemma SameLastTick(v: View, w: View, now: nat)
    requires v.channels == w.channels
    ensures LastTick(w, now) == LastTick(v, now)
  {
  }
}
