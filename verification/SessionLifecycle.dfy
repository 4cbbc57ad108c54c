/** What every step of a session keeps (src/session.rs): the state only moves forward, Opened comes
    first and Closed last, nothing is left in the channels between calls, and the server side surfaces
    no data before Opened. */
module SessionLifecycle {
  import opened Bytes
  import Protocol
  import MultiPackets
  import RO = ReliableOutput
  import RI = ReliableInput
  import DataCodec
  import opened SessionTrace
  import opened SessionSteps

  ghost predicate Live(trace: seq<Act>) {
    StageOf(trace) == Fresh || StageOf(trace) == Open
  }

  /** What holds of a session at any time. */
  ghost predicate Sound(self: Self, v: View) {
    && Four(v.channels) && OutputsOk(v.channels.outputs) && Sized(v.params) && StageOf(v.trace) != Broken
    && (v.state == Terminated <==> StageOf(v.trace) == Ended)
    && (v.state == Negotiating ==> StageOf(v.trace) == Fresh && !v.opensNext)
    && (v.state == Running ==> StageOf(v.trace) == if v.opensNext then Fresh else Open)
    && (v.opensNext ==> self.mode == Server)
  }

  /** Between calls the channels have nothing pending. */
  ghost predicate AtRest(self: Self, v: View) {
    Sound(self, v) && AllFlushed(v.channels)
  }

  /** What the operations need of a session. */
  predicate Able(v: View) {
    Four(v.channels) && OutputsOk(v.channels.outputs) && Usable(v.params)
  }

  predicate NoData(inputs: Inputs) {
    forall i | 0 <= i < |inputs| :: inputs[i].Some? ==> inputs[i].value.appData == []
  }

  /** No data was surfaced before the session was reported open, and none is waiting to be. */
  ghost predicate Timely(v: View) {
    !Early(v.trace) && (StageOf(v.trace) == Fresh ==> NoData(v.channels.inputs))
  }

  /** A step forward: what was done stays done. */
  ghost predicate Forward(v: View, w: View) {
    v.trace <= w.trace && Rank(v.state) <= Rank(w.state) && (v.state == Terminated ==> w == v)
  }

  // ----- Acts that leave the stage alone -----------------------------------------------------

  predicate Quiet(acts: seq<Act>) {
    forall k | 0 <= k < |acts| :: !acts[k].Emit?
  }

  predicate Silent(acts: seq<Act>) {
    forall k | 0 <= k < |acts| :: !acts[k].Emit? && !acts[k].Receive?
  }

  lemma {:induction false} QuietStage(trace: seq<Act>, acts: seq<Act>)
    requires Live(trace) && Quiet(acts)
    ensures StageOf(trace + acts) == StageOf(trace)
    ensures Silent(acts) || StageOf(trace) == Open ==> Early(trace + acts) == Early(trace)
    decreases |acts|
  {
    hide StageOf, Early;
    if acts == [] {
      assert trace + acts == trace;
    } else {
      var n := |acts| - 1;
      assert trace + acts == trace + acts[..n] + [acts[n]];
      hide Datagrams, Events, Data;
      QuietStage(trace, acts[..n]);
      Pushed(trace + acts[..n], acts[n]);
    }
  }

  lemma FlushActsAreQuiet(f: Protocol.Codec, ch: nat, i: Option<RI.InputState>, o: Option<RO.OutputState>)
    requires f.crcLength <= 4 || (InputFlushed(i) && OutputFlushed(o))
    ensures var acts := FlushActs(f, ch, i, o);
            && Quiet(acts) && ((i.Some? ==> i.value.appData == []) ==> Silent(acts))
            && (InputFlushed(i) && OutputFlushed(o) ==> acts == [])
  {
    hide Protocol.FrameContextual, U16;
  }

  lemma {:induction false} FlushIsQuiet(f: Protocol.Codec, n: nat, c: ChannelPair)
    requires (f.crcLength <= 4 || AllFlushed(c)) && n <= |c.inputs| && n <= |c.outputs|
    ensures Quiet(FlushAllActs(f, n, c)) && (NoData(c.inputs) ==> Silent(FlushAllActs(f, n, c)))
    ensures AllFlushed(c) ==> FlushAllActs(f, n, c) == []
  {
    hide FlushActs;
    if n != 0 {
      FlushIsQuiet(f, n - 1, c);
      FlushActsAreQuiet(f, n - 1, c.inputs[n - 1], c.outputs[n - 1]);
    }
  }

  /** A flush when nothing is pending is none. */
  lemma IdleFlush(self: Self, v: View)
    requires Four(v.channels) && AllFlushed(v.channels)
    ensures Flush(self, v) == v
  {
    hide FlushAllActs;
    FlushIsQuiet(Framing(self, v.params), 4, v.channels);
    assert Flushed(v.channels).inputs == v.channels.inputs && Flushed(v.channels).outputs == v.channels.outputs;
  }

  lemma FlushIsLocal(self: Self, v: View)
    requires (v.params.crcLength <= 4 || AllFlushed(v.channels)) && Four(v.channels)
    ensures Flush(self, v) == v.(trace := Flush(self, v).trace, channels := Flush(self, v).channels)
  {
  }

  lemma FlushKeeps(self: Self, v: View)
    requires Sound(self, v) && v.state != Terminated && (v.params.crcLength <= 4 || AllFlushed(v.channels))
    ensures AtRest(self, Flush(self, v)) && Forward(v, Flush(self, v)) && StageOf(Flush(self, v).trace) == StageOf(v.trace)
    ensures Flush(self, v) == v.(trace := Flush(self, v).trace, channels := Flush(self, v).channels)
    ensures Timely(v) ==> Timely(Flush(self, v))
  {
    hide StageOf, Early, FlushAllActs, AllFlushed;
    var acts := FlushAllActs(Framing(self, v.params), 4, v.channels);
    FlushIsQuiet(Framing(self, v.params), 4, v.channels);
    QuietStage(v.trace, acts);
    assert OutputsOk(Flushed(v.channels).outputs);
  }

  // ----- Ending ------------------------------------------------------------------------------

  lemma TicksKeep(self: Self, v: View, inputs: Inputs, now: nat)
    requires Sound(self, v) && (inputs == v.channels.inputs || inputs == TickedInputs(v.channels.inputs, now))
    ensures var w := v.(channels := ChannelPair(inputs, TickedOutputs(v.channels.outputs, now)));
            Sound(self, w) && (Timely(v) ==> Timely(w))
  {
    hide StageOf, Early, RO.RunTick, RI.SendAckAll;
    forall i | 0 <= i < 4 && v.channels.outputs[i].Some?
      ensures RO.RunTick(v.channels.outputs[i].value, now).config == v.channels.outputs[i].value.config
    {
      TickKeepsConfig(v.channels.outputs[i].value, now);
    }
    TickKeepsData(v.channels.inputs, now);
  }

  lemma TickKeepsData(inputs: Inputs, now: nat)
    ensures NoData(inputs) ==> NoData(TickedInputs(inputs, now))
  {
    hide RI.Backlog;
  }

  lemma TickKeepsConfig(o: RO.OutputState, now: nat)
    ensures RO.RunTick(o, now).config == o.config
  {
  }

  /** A session that ended in this way; `running` tells of the time before. */
  ghost predicate EndedBy(self: Self, w: View, e: Ending, running: bool) {
    && w.state == Terminated && w.reason == e.reason && w.byRemote == e.byRemote
    && w.trace != [] && w.trace[|w.trace| - 1] == Emit(Closed(e.reason))
    && (e.notify && running ==>
          && w.params.crcLength <= 4
          && var d := Datagrams(w.trace); d != [] && d[|d| - 1] == DisconnectDatagram(self, w.params, w.sessionId, e.reason))
  }

  lemma LastWordsKeep(self: Self, v: View, now: nat)
    requires Sound(self, v) && v.state != Terminated && (v.params.crcLength <= 4 || AllFlushed(LastTick(v, now)))
    ensures var f := LastWords(self, v, now);
            && AtRest(self, f) && f.state != Terminated && v.trace <= f.trace && (Timely(v) ==> Timely(f))
            && f == v.(trace := f.trace, channels := f.channels)
  {
    TicksKeep(self, v, v.channels.inputs, now);
    FlushKeeps(self, v.(channels := LastTick(v, now)));
    hide StageOf, Early, TickedOutputs, AllFlushed, NoData, OutputsOk, Flush;
  }

  /** An ended session is closed and at rest; if the remote was told, the Disconnect was the last
      datagram, and in any case Closed was the last act. */
  lemma EndKeeps(self: Self, v: View, e: Ending, now: nat)
    requires Sound(self, v) && CanEnd(v, e, now) && (v.state == Terminated ==> AllFlushed(v.channels))
    ensures var w := End(self, v, e, now);
            && AtRest(self, w) && Forward(v, w) && w.state == Terminated && w.params == v.params && (Timely(v) ==> Timely(w))
            && (v.state != Terminated ==> EndedBy(self, w, e, v.state == Running))
  {
    assert Four(v.channels);
    hide StageOf, Early, DisconnectDatagram, AllFlushed, NoData, Datagrams, OutputsOk, LastWords, Sound, Timely;
    if v.state == Terminated { return; }
    LastWordsKeep(self, v, now);
    var f := LastWords(self, v, now);
    CloseKeeps(self, f, Notice(self, v, e), e);
    ClosedIsEnded(self, v, f, e);
  }

  lemma ClosedIsEnded(self: Self, v: View, f: View, e: Ending)
    requires (v.params.crcLength <= 4 || !Tells(v, e)) && f == v.(trace := f.trace, channels := f.channels)
    ensures var w := Do(Do(f, Notice(self, v, e)), [Emit(Closed(e.reason))]).(state := Terminated, reason := e.reason, byRemote := e.byRemote);
            EndedBy(self, w, e, v.state == Running)
  {
    hide DisconnectDatagram, Datagrams;
    if Tells(v, e) { NoticeIsLastDatagram(f.trace, DisconnectDatagram(self, v.params, v.sessionId, e.reason), e.reason); }
  }

  lemma CloseKeeps(self: Self, f: View, notice: seq<Act>, e: Ending)
    requires AtRest(self, f) && f.state != Terminated && Silent(notice)
    ensures var w := Do(Do(f, notice), [Emit(Closed(e.reason))]).(state := Terminated, reason := e.reason, byRemote := e.byRemote);
            AtRest(self, w) && (Timely(f) ==> Timely(w)) && Forward(f, w)
  {
    hide StageOf, Early, Datagrams, Events, Data, OutputsOk, NoData, AllFlushed;
    QuietStage(f.trace, notice);
    Pushed(f.trace + notice, Emit(Closed(e.reason)));
  }

  lemma NoticeIsLastDatagram(trace: seq<Act>, datagram: bytes, reason: Reason)
    ensures var d := Datagrams(trace + [Send(datagram)] + [Emit(Closed(reason))]);
            d != [] && d[|d| - 1] == datagram
  {
    hide StageOf, Early, Datagrams, Events, Data;
    Pushed(trace, Send(datagram));
    Pushed(trace + [Send(datagram)], Emit(Closed(reason)));
  }

  lemma EndKeepsAble(self: Self, v: View, e: Ending, now: nat)
    requires CanEnd(v, e, now) && Four(v.channels) && OutputsOk(v.channels.outputs)
    ensures var w := End(self, v, e, now); Four(w.channels) && OutputsOk(w.channels.outputs) && (Able(v) ==> Able(w))
  {
    hide StageOf, Early, FlushAllActs, DisconnectDatagram, RO.RunTick, Usable;
    forall i | 0 <= i < 4 && v.channels.outputs[i].Some?
      ensures RO.RunTick(v.channels.outputs[i].value, now).config == v.channels.outputs[i].value.config
    {
      TickKeepsConfig(v.channels.outputs[i].value, now);
    }
  }

  // ----- Dispatch ----------------------------------------------------------------------------

  lemma FedOneKeeps(self: Self, p: Parameters, c: ChannelPair, call: ChannelCall, now: nat)
    requires Usable(p) && Four(c) && call.index < 4 && OutputsOk(c.outputs)
    ensures OutputsOk(FedOne(self, p, c, call, now).outputs)
  {
    hide RI.Receive, RO.Acknowledge, RO.AcknowledgeAll;
    if |call.body| >= 2 { AckKeepsConfig(OutputOr(p, self.cipher, c.outputs[call.index]), ReadU16(call.body), now); }
  }

  lemma AckKeepsConfig(o: RO.OutputState, sequence: nat, now: nat)
    requires sequence < 0x1_0000
    ensures RO.Acknowledge(o, sequence, now).config == o.config
    ensures RO.AcknowledgeAll(o, sequence, now).config == o.config
  {
  }

  /** Packets make a session call channels and send datagrams, but neither report nor surface. */
  lemma {:induction false} DealKeeps(self: Self, p: Parameters, c: ChannelPair, op: Protocol.OpCode, ch: nat, body: bytes, now: nat)
    requires Usable(p) && Four(c) && ch < 4 && OutputsOk(c.outputs)
    ensures var o := Deal(self, p, c, op, ch, body, now); Silent(o.acts) && OutputsOk(o.channels.outputs)
    decreases |body|, 1
  {
    hide FedOne, DealBundle, OutputsOk, Protocol.FrameContextual, RI.Receive;
    if op == Protocol.MultiPacket {
      DealBundleKeeps(self, p, c, body, now);
    } else {
      FedOneKeeps(self, p, c, ChannelCall(op, ch, body), now);
    }
  }

  lemma {:induction false} DealBundleKeeps(self: Self, p: Parameters, c: ChannelPair, body: bytes, now: nat)
    requires Usable(p) && Four(c) && OutputsOk(c.outputs)
    ensures var o := DealBundle(self, p, c, body, now); Silent(o.acts) && OutputsOk(o.channels.outputs)
    decreases |body|, 0
  {
    hide Deal, Usable, OutputsOk;
    if body == [] { return; }
    var first := MultiPackets.FirstSub(body);
    if first.None? || Protocol.ReadOpCode(first.value.sub).None? { return; }
    var sub := first.value.sub;
    DealKeeps(self, p, c, Protocol.ReadOpCode(sub).value, Protocol.ReliableChannel(ReadU16(sub)), sub[2..], now);
    var o := DealFirst(self, p, c, body, now);
    DealBundleKeeps(self, p, o.channels, body[first.value.end..], now);
  }

  lemma ConcludeKeeps(self: Self, v: View, o: Outcome, now: nat)
    requires Sound(self, v) && v.state != Terminated && v.params.crcLength <= 4
    requires Four(o.channels) && OutputsOk(o.channels.outputs) && Silent(o.acts)
    ensures var w := Conclude(self, v, o, now);
            && Sound(self, w) && Forward(v, w) && w.params == v.params && (w.state == Terminated <==> o.ending.Some?)
            && (w.state == Terminated ==> AllFlushed(w.channels) && EndedBy(self, w, o.ending.value, v.state == Running))
            && (w.state != Terminated ==> w.state == v.state)
            && (Timely(v) && StageOf(v.trace) == Open ==> Timely(w))
  {
    hide StageOf, Early, NoData, AllFlushed, OutputsOk, End, EndedBy;
    var done := Do(v, o.acts).(channels := o.channels);
    QuietStage(v.trace, o.acts);
    if o.ending.Some? { EndKeeps(self, done, o.ending.value, now); }
  }

  /** How a contextual packet ends the session, if it does. */
  function Verdict(self: Self, v: View, op: Protocol.OpCode, ch: nat, body: bytes, now: nat): Option<Ending>
    requires Usable(v.params) && Four(v.channels) && ch < 4
  {
    match Protocol.Decompress(Framing(self, v.params), self.inflate, body)
    case Empty => None
    case NotInflatable => Some(CORRUPT)
    case Plain(payload) => Deal(self, v.params, v.channels, op, ch, payload, now).ending
  }

  lemma DealWithKeeps(self: Self, v: View, op: Protocol.OpCode, ch: nat, body: bytes, now: nat)
    requires Sound(self, v) && v.state != Terminated && Usable(v.params) && ch < 4
    ensures var w, e := DealWith(self, v, op, ch, body, now), Verdict(self, v, op, ch, body, now);
            && Sound(self, w) && Forward(v, w) && w.params == v.params && (w.state == Terminated <==> e.Some?)
            && (w.state == Terminated ==> AllFlushed(w.channels) && EndedBy(self, w, e.value, v.state == Running))
            && (w.state != Terminated ==> w.state == v.state)
            && (Timely(v) && StageOf(v.trace) == Open ==> Timely(w))
  {
    hide StageOf, Early, NoData, AllFlushed, OutputsOk, End, Deal, Conclude, Protocol.Decompress, Timely, EndedBy;
    match Protocol.Decompress(Framing(self, v.params), self.inflate, body)
    case Empty =>
    case NotInflatable => EndKeeps(self, v, CORRUPT, now);
    case Plain(payload) =>
      DealKeeps(self, v.params, v.channels, op, ch, payload, now);
      ConcludeKeeps(self, v, Deal(self, v.params, v.channels, op, ch, payload, now), now);
  }

  // ----- Handshake ---------------------------------------------------------------------------

  lemma ShakeKeeps(self: Self, v: View, op: Protocol.OpCode, body: bytes, random: nat, now: nat)
    requires AtRest(self, v) && v.state != Terminated && CanShake(self, v, op, body, now) && !v.opensNext
    ensures var w, e := Shake(self, v, op, body, random, now), HandshakeVerdict(self, v, op, body);
            && AtRest(self, w) && Forward(v, w) && (w.state == Terminated <==> e.Some?)
            && (e.Some? ==> EndedBy(self, w, e.value, v.state == Running))
            && (self.mode == Server && op == Protocol.SessionRequest ==> w.state != Negotiating)
            && (Timely(v) ==> Timely(w))
  {
    hide StageOf, Early, OutputsOk, AllFlushed, NoData, End, ParseRequest, ParseResponse, FrameResponse, EndedBy;
    match op
    case SessionRequest => RequestedKeeps(self, v, body, random, now);
    case SessionResponse => RespondedKeeps(self, v, body, now);
    case UnknownSender => EndKeeps(self, v, Ending(UnreachableConnection, false, false), now);
    case _ =>
  }

  lemma RequestedKeeps(self: Self, v: View, body: bytes, random: nat, now: nat)
    requires AtRest(self, v) && v.state != Terminated && CanShake(self, v, Protocol.SessionRequest, body, now) && !v.opensNext
    ensures var w, e := Requested(self, v, body, random, now), HandshakeVerdict(self, v, Protocol.SessionRequest, body);
            && AtRest(self, w) && Forward(v, w) && (w.state == Terminated <==> e.Some?)
            && (e.Some? ==> EndedBy(self, w, e.value, v.state == Running))
            && w.state != Negotiating && (Timely(v) ==> Timely(w))
  {
    hide StageOf, Early, OutputsOk, AllFlushed, NoData, End, ParseRequest, FrameResponse, EndedBy;
    var r, e := ParseRequest(body), HandshakeVerdict(self, v, Protocol.SessionRequest, body);
    if self.mode == Client || r.None? {
      EndKeeps(self, v, e.value, now);
    } else {
      var w := v.(params := v.params.(remoteUdpLength := r.value.udpLength), sessionId := r.value.sessionId);
      if e.Some? {
        EndKeeps(self, w, e.value, now);
      } else {
        var p := w.params.(crcLength := CRC_LENGTH, crcSeed := random);
        QuietStage(v.trace, [Send(FrameResponse(w.sessionId, p))]);
      }
    }
  }

  lemma RespondedKeeps(self: Self, v: View, body: bytes, now: nat)
    requires AtRest(self, v) && v.state != Terminated && CanShake(self, v, Protocol.SessionResponse, body, now) && !v.opensNext
    ensures var w, e := Responded(self, v, body, now), HandshakeVerdict(self, v, Protocol.SessionResponse, body);
            && AtRest(self, w) && Forward(v, w) && (w.state == Terminated <==> e.Some?)
            && (e.Some? ==> EndedBy(self, w, e.value, v.state == Running))
            && (Timely(v) ==> Timely(w))
  {
    hide StageOf, Early, OutputsOk, AllFlushed, NoData, End, ParseResponse, EndedBy, Forward, Timely;
    var e := HandshakeVerdict(self, v, Protocol.SessionResponse, body);
    if e.Some? {
      EndKeeps(self, v, e.value, now);
    } else {
      AcceptedKeeps(self, v, body, now);
    }
  }

  lemma AcceptedKeeps(self: Self, v: View, body: bytes, now: nat)
    requires AtRest(self, v) && v.state != Terminated && CanShake(self, v, Protocol.SessionResponse, body, now) && !v.opensNext
    requires HandshakeVerdict(self, v, Protocol.SessionResponse, body).None?
    ensures var w := Responded(self, v, body, now); w.state == Running && AtRest(self, w) && Forward(v, w) && (Timely(v) ==> Timely(w))
  {
    hide StageOf, Early, OutputsOk, AllFlushed, NoData, End, ParseResponse;
    Pushed(v.trace, Emit(Opened));
  }

  // ----- Public operations -------------------------------------------------------------------

  lemma HeardKeeps(self: Self, v: View, now: nat)
    requires Sound(self, v) && v.state != Terminated
    ensures var w := Heard(v, now);
            && Sound(self, w) && Forward(v, w) && !w.opensNext && w.state == v.state && (w.state == Running ==> StageOf(w.trace) == Open)
            && w == v.(trace := w.trace, opensNext := false, heard := now) && (Timely(v) ==> Timely(w))
  {
    hide StageOf, Early, OutputsOk, NoData;
    if v.opensNext { Pushed(v.trace, Emit(Opened)); } else { assert v.trace + [] == v.trace; }
  }

  /** How a datagram ends a session, if it does: exactly when it is no packet and no unreliable data
      either, when the handshake goes wrong, or when a packet in it ends the session. */
  function DatagramVerdict(self: Self, v: View, datagram: bytes, now: nat): Option<Ending>
    requires Sized(v.params) && Four(v.channels)
    requires v.params.crcLength <= 4 || !Protocol.NeedsCrc(Framing(self, v.params), v.state == Running, datagram)
  {
    match Protocol.Classify(Framing(self, v.params), v.state == Running, datagram)
    case Corrupt => Some(CORRUPT)
    case Contextless(op, body) => HandshakeVerdict(self, v, op, body)
    case Contextual(op, ch, body) => Verdict(self, v, op, ch, body, now)
    case _ => None
  }

  /** A datagram ends a session that has not ended exactly when the verdict says so, with its reason and
      on behalf of the side it names. Where the remote is to be told, a Disconnect is the last datagram
      ever; Closed is the last act in any case. */
  lemma TakeInKeeps(self: Self, v: View, datagram: bytes, random: nat, now: nat)
    requires AtRest(self, v) && CanTakeIn(self, v, datagram, now)
    ensures var w := TakeIn(self, v, datagram, random, now);
            && AtRest(self, w) && Forward(v, w)
            && (v.state != Terminated ==>
                  var e := DatagramVerdict(self, v, datagram, now);
                  && (w.state == Terminated <==> e.Some?)
                  && (e.Some? ==> EndedBy(self, w, e.value, v.state == Running)))
            && (Timely(v) && (v.state != Negotiating || Protocol.ReadOpCode(datagram) == Some(Protocol.SessionRequest)) ==> Timely(w))
            && (self.mode == Server && Protocol.ReadOpCode(datagram) == Some(Protocol.SessionRequest) ==> w.state != Negotiating)
  {
    hide StageOf, Early, OutputsOk, AllFlushed, NoData, End, Deal, DealWith, Shake, Flush, Timely, ParseRequest, ParseResponse;
    hide EndedBy, Protocol.Decompress;
    hide Protocol.ReadOpCode, Protocol.ClassifyUnreliable, Protocol.ReliableChannel, Heard, Protocol.MinimumLength, Protocol.Crc;
    if v.state == Terminated { return; }
    HeardKeeps(self, v, now);
    var h := Heard(v, now);
    match Protocol.Classify(Framing(self, v.params), v.state == Running, datagram)
    case Corrupt => EndKeeps(self, v, CORRUPT, now);
    case Dropped =>
    case Unreliable(payload) => SurfaceKeeps(self, h, ReceivedData(payload, SessionTrace.Unreliable));
    case Contextless(op, body) =>
      ShakeKeeps(self, h, op, body, random, now);
      IdleFlush(self, Shake(self, h, op, body, random, now));
    case Contextual(op, ch, body) =>
      DealWithKeeps(self, h, op, ch, body, now);
      var d := DealWith(self, h, op, ch, body, now);
      if d.state == Terminated { IdleFlush(self, d); } else { FlushKeeps(self, d); }
  }

  lemma SurfaceKeeps(self: Self, h: View, data: ReceivedData)
    requires Sound(self, h) && h.state == Running && StageOf(h.trace) == Open
    ensures var w := Do(h, [Receive(data)]); Sound(self, w) && Forward(h, w) && (Timely(h) ==> Timely(w))
  {
    hide StageOf, Early, OutputsOk, NoData;
    QuietStage(h.trace, [Receive(data)]);
  }

  /** A tick ends a session exactly when it has timed out. */
  lemma TickKeeps(self: Self, v: View, now: nat)
    requires AtRest(self, v) && CanTick(self, v, now)
    ensures var w := Tick(self, v, now);
            && AtRest(self, w) && Forward(v, w) && w.params == v.params && (Timely(v) ==> Timely(w))
            && (v.state != Terminated ==> w.state == if Expired(v, now) then Terminated else v.state)
            && (v.state != Terminated && Expired(v, now) ==> EndedBy(self, w, Ending(Timeout, false, false), v.state == Running))
  {
    hide StageOf, Early, OutputsOk, AllFlushed, NoData, End, Flush, Expired, EndedBy, Timely, Protocol.FrameContextual;
    if v.state == Terminated { return; }
    var w := Do(v, HeartbeatActs(self, v, now));
    HeartbeatKeeps(self, v, now);
    if Expired(v, now) {
      EndKeeps(self, w, Ending(Timeout, false, false), now);
    } else {
      TicksKeep(self, w, TickedInputs(v.channels.inputs, now), now);
      FlushKeeps(self, w.(channels := TickedPair(v.channels, now)));
    }
  }

  lemma HeartbeatKeeps(self: Self, v: View, now: nat)
    requires Sound(self, v) && v.state != Terminated && (v.params.crcLength <= 4 || !HeartbeatDue(self, v, now))
    ensures var w := Do(v, HeartbeatActs(self, v, now)); Sound(self, w) && Forward(v, w) && (Timely(v) ==> Timely(w))
  {
    hide StageOf, Early, OutputsOk, NoData, Protocol.FrameContextual;
    QuietStage(v.trace, HeartbeatActs(self, v, now));
  }

  lemma EnqueueKeeps(self: Self, v: View, data: bytes, channel: Channel)
    requires AtRest(self, v) && CanEnqueue(v, data, channel)
    ensures var w := Enqueue(self, v, data, channel);
            AtRest(self, w) && Forward(v, w) && w.state == v.state && w.params == v.params && (Timely(v) ==> Timely(w))
  {
    hide StageOf, Early, NoData, RO.Enqueue, Protocol.FrameUnreliable, FramedLength;
    if Accepts(v, channel) && ChannelFor(v, data, channel).None? && data != [] {
      QuietStage(v.trace, [Send(Protocol.FrameUnreliable(Framing(self, v.params), data))]);
    }
    forall ch | 0 <= ch < 4 && (v.channels.outputs[ch].Some? || Roomy(v.params))
      ensures var o := OutputOr(v.params, self.cipher, v.channels.outputs[ch]);
              RO.Enqueue(o, data).config == o.config && RO.Enqueue(o, data).outgoing == o.outgoing
    {
      EnqueueKeepsRest(OutputOr(v.params, self.cipher, v.channels.outputs[ch]), data);
    }
  }

  lemma EnqueueKeepsRest(o: RO.OutputState, data: bytes)
    requires o.config.maxDataLength >= 6
    ensures RO.Enqueue(o, data).config == o.config && RO.Enqueue(o, data).outgoing == o.outgoing
  {
    var e := DataCodec.EncodeMessage(o.cipher, o.config.maxDataLength, data);
    RO.StashAllAppends(o.(cipher := e.cipher), e.items);
  }

  lemma AskKeeps(self: Self, v: View, random: nat)
    requires AtRest(self, v)
    ensures var w := Ask(self, v, random); AtRest(self, w) && Forward(v, w) && w.state == v.state && w.params == v.params && (Timely(v) ==> Timely(w))
  {
    hide StageOf, Early, OutputsOk, AllFlushed, NoData, FrameRequest;
    if v.state == Negotiating { QuietStage(v.trace, [Send(FrameRequest(random, v.params))]); }
  }
}
