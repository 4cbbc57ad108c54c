/** One SOE session as an object (src/session.rs), with its buffers and parsing loops. Every operation is
    proved to do to the session what module SessionSteps says; a ghost trace records every act. */
module Session {
  import opened Bytes
  import opened Rc4
  import Protocol
  import MultiPackets
  import opened Varint
  import opened VarintCursor
  import opened Io
  import RO = ReliableOutput
  import RI = ReliableInput
  import opened SessionTrace
  import opened SessionSteps
  import opened SessionLifecycle
  import BundleDispatch

  class SoeSession {
    const hash: (nat, bytes) -> nat
    const inflate: bytes -> Option<bytes>
    const mode: SessionMode
    const cipher: Option<Cipher>
    var state: SessionState
    var params: Parameters
    var inputs: Inputs
    var outputs: Outputs
    var sessionId: nat
    var terminationReason: Reason
    var terminatedByRemote: bool
    var openOnNextPacket: bool
    var lastReceived: nat
    var outgoing: seq<bytes>
    var received: seq<ReceivedData>
    var events: seq<SessionEvent>

    ghost var trace: seq<Act>
    ghost var takenOutgoing: seq<bytes>
    ghost var takenReceived: seq<ReceivedData>
    ghost var takenEvents: seq<SessionEvent>

    function Me(): Self {
      Self(mode, cipher, hash, inflate)
    }

    function Codec(): Protocol.Codec
      reads this
    {
      Framing(Me(), params)
    }

    ghost function Current(): View
      reads this
    {
      View(state, params, sessionId, ChannelPair(inputs, outputs), trace, terminationReason, terminatedByRemote,
           openOnNextPacket, lastReceived)
    }

    /** The buffers hold what the trace says and was not taken yet. */
    ghost predicate Books()
      reads `trace, `outgoing, `received, `events, `takenOutgoing, `takenReceived, `takenEvents
    {
      && Datagrams(trace) == takenOutgoing + outgoing
      && Data(trace) == takenReceived + received
      && Events(trace) == takenEvents + events
    }

    /** In the middle of a call. */
    ghost predicate Working()
      reads this
    {
      Books() && Able(Current())
    }

    /** Between calls. */
    ghost predicate Valid()
      reads this
    {
      Books() && AtRest(Me(), Current())
    }

    /** Nothing but the caller takes from the buffers. */
    twostate predicate Kept()
      reads this
    {
      takenOutgoing == old(takenOutgoing) && takenReceived == old(takenReceived) && takenEvents == old(takenEvents)
    }

    constructor (mode: SessionMode, params: Parameters, cipher: Option<Cipher>,
                 hash: (nat, bytes) -> nat, inflate: bytes -> Option<bytes>, now: nat)
      requires Sized(params)
      ensures Valid() && Timely(Current()) && Current() == Newborn(params, now)
      ensures Me() == Self(mode, cipher, hash, inflate)
      ensures takenOutgoing == [] && takenReceived == [] && takenEvents == []
    {
      this.mode, this.params, this.cipher := mode, params, cipher;
      this.hash, this.inflate := hash, inflate;
      state := Negotiating;
      inputs, outputs := [None, None, None, None], [None, None, None, None];
      sessionId, terminationReason, terminatedByRemote := 0, NoReason, false;
      openOnNextPacket, lastReceived := false, now;
      outgoing, received, events := [], [], [];
      trace, takenOutgoing, takenReceived, takenEvents := [], [], [], [];
    }

    method TakeOutgoing() returns (taken: seq<bytes>)
      requires Books()
      modifies this`outgoing, this`takenOutgoing
      ensures Books() && taken == old(outgoing) && outgoing == [] && takenOutgoing == old(takenOutgoing) + taken
    {
      taken := outgoing;
      takenOutgoing := takenOutgoing + outgoing;
      outgoing := [];
    }

    method TakeReceived() returns (taken: seq<ReceivedData>)
      requires Books()
      modifies this`received, this`takenReceived
      ensures Books() && taken == old(received) && received == [] && takenReceived == old(takenReceived) + taken
    {
      taken := received;
      takenReceived := takenReceived + received;
      received := [];
    }

    method TakeEvents() returns (taken: seq<SessionEvent>)
      requires Books()
      modifies this`events, this`takenEvents
      ensures Books() && taken == old(events) && events == [] && takenEvents == old(takenEvents) + taken
    {
      taken := events;
      takenEvents := takenEvents + events;
      events := [];
    }

    // ----- Single acts -----------------------------------------------------------------------

    method PushDatagram(datagram: bytes)
      requires Books()
      modifies this`outgoing, this`trace
      ensures Books() && trace == old(trace) + [Send(datagram)]
    {
      hide StageOf, Early, Datagrams, Data, Events;
      Pushed(trace, Send(datagram));
      outgoing := outgoing + [datagram];
      trace := trace + [Send(datagram)];
    }

    method PushReceived(data: ReceivedData)
      requires Books()
      modifies this`received, this`trace
      ensures Books() && trace == old(trace) + [Receive(data)]
    {
      hide StageOf, Early, Datagrams, Data, Events;
      Pushed(trace, Receive(data));
      received := received + [data];
      trace := trace + [Receive(data)];
    }

    method PushEvent(event: SessionEvent)
      requires Books()
      modifies this`events, this`trace
      ensures Books() && trace == old(trace) + [Emit(event)]
    {
      hide StageOf, Early, Datagrams, Data, Events;
      Pushed(trace, Emit(event));
      events := events + [event];
      trace := trace + [Emit(event)];
    }

    ghost method RecordCall(call: ChannelCall)
      requires Books()
      modifies this`trace
      ensures Books() && trace == old(trace) + [Call(call)]
    {
      hide StageOf, Early, Datagrams, Data, Events;
      Pushed(trace, Call(call));
      trace := trace + [Call(call)];
    }

    // ----- Flushing --------------------------------------------------------------------------

    method FlushChannels()
      requires Books() && |inputs| == 4 && |outputs| == 4
      requires params.crcLength <= 4 || AllFlushed(ChannelPair(inputs, outputs))
      modifies this`inputs, this`outputs, this`outgoing, this`received, this`trace
      ensures Books() && Current() == Flush(Me(), old(Current()))
    {
      hide Datagrams, Data, Events, FlushActs, Books;
      ghost var c := ChannelPair(inputs, outputs);
      for ch := 0 to 4
        invariant Books() && |inputs| == 4 && |outputs| == 4
        invariant trace == old(trace) + FlushAllActs(Codec(), ch, c)
        invariant forall i | 0 <= i < ch :: inputs[i] == FlushedInput(c.inputs[i]) && outputs[i] == FlushedOutput(c.outputs[i])
        invariant forall i | ch <= i < 4 :: inputs[i] == c.inputs[i] && outputs[i] == c.outputs[i]
      {
        FlushChannel(ch);
      }
      assert inputs == Flushed(c).inputs && outputs == Flushed(c).outputs;
    }

    method FlushChannel(ch: nat)
      requires Books() && |inputs| == 4 && |outputs| == 4 && ch < 4
      requires params.crcLength <= 4 || (InputFlushed(inputs[ch]) && OutputFlushed(outputs[ch]))
      modifies this`inputs, this`outputs, this`outgoing, this`received, this`trace
      ensures Books() && trace == old(trace) + FlushActs(Codec(), ch, old(inputs[ch]), old(outputs[ch]))
      ensures inputs == old(inputs)[ch := FlushedInput(old(inputs[ch]))]
      ensures outputs == old(outputs)[ch := FlushedOutput(old(outputs[ch]))]
    {
      hide Datagrams, Data, Events, AckActs, PacketActs, DataActs, Books;
      var input, output := inputs[ch], outputs[ch];
      if input.Some? {
        inputs := inputs[ch := Some(input.value.(outgoing := []))];
        SendAcks(ch, input.value.outgoing);
      }
      if output.Some? {
        outputs := outputs[ch := Some(output.value.(outgoing := []))];
        SendPackets(ch, output.value.outgoing);
      }
      if input.Some? {
        inputs := inputs[ch := Some(inputs[ch].value.(appData := []))];
        HandOver(ch, input.value.appData);
      }
    }

    method SendAcks(ch: nat, acks: seq<RI.Ack>)
      requires Books() && (params.crcLength <= 4 || acks == [])
      modifies this`outgoing, this`trace
      ensures Books() && trace == old(trace) + AckActs(Codec(), ch, acks)
    {
      hide Datagrams, Data, Events, Books;
      ghost var acts := AckActs(Codec(), ch, acks);
      for k := 0 to |acks|
        invariant Books() && trace == old(trace) + acts[..k]
      {
        var op := if acks[k].all then Protocol.AcknowledgeAll else Protocol.Acknowledge;
        PushDatagram(Protocol.FrameContextual(Codec(), Protocol.AsU16(op) + ch, U16(acks[k].sequence)));
        assert acts[..k + 1] == acts[..k] + [acts[k]];
      }
    }

    method SendPackets(ch: nat, packets: seq<RO.OutgoingReliable>)
      requires Books() && (params.crcLength <= 4 || packets == [])
      modifies this`outgoing, this`trace
      ensures Books() && trace == old(trace) + PacketActs(Codec(), ch, packets)
    {
      hide Datagrams, Data, Events, Books;
      ghost var acts := PacketActs(Codec(), ch, packets);
      for k := 0 to |packets|
        invariant Books() && trace == old(trace) + acts[..k]
      {
        var op := if packets[k].kind == RO.ReliableDataFragment then Protocol.ReliableDataFragment else Protocol.ReliableData;
        PushDatagram(Protocol.FrameContextual(Codec(), Protocol.AsU16(op) + ch, packets[k].payload));
        assert acts[..k + 1] == acts[..k] + [acts[k]];
      }
    }

    method HandOver(ch: nat, appData: seq<bytes>)
      requires Books()
      modifies this`received, this`trace
      ensures Books() && trace == old(trace) + DataActs(ch, appData)
    {
      hide Datagrams, Data, Events, Books;
      ghost var acts := DataActs(ch, appData);
      for k := 0 to |appData|
        invariant Books() && trace == old(trace) + acts[..k]
      {
        PushReceived(ReceivedData(appData[k], Reliable(ch)));
        assert acts[..k + 1] == acts[..k] + [acts[k]];
      }
    }

    // ----- Termination -----------------------------------------------------------------------

    method TerminateInner(reason: Reason, notifyRemote: bool, byRemote: bool, now: nat)
      requires Books() && Four(Current().channels) && OutputsOk(outputs)
      requires CanEnd(Current(), Ending(reason, notifyRemote, byRemote), now)
      modifies this
      ensures Books() && Kept() && Four(Current().channels) && OutputsOk(outputs) && (old(Working()) ==> Working())
      ensures Current() == End(Me(), old(Current()), Ending(reason, notifyRemote, byRemote), now)
    {
      hide Books, LastWords, OutputsOk, Notice;
      EndKeepsAble(Me(), Current(), Ending(reason, notifyRemote, byRemote), now);
      if state == Terminated { return; }
      FlushLast(now);
      Close(old(Current()), Ending(reason, notifyRemote, byRemote));
    }

    method Close(ghost before: View, e: Ending)
      requires Books() && (params.crcLength <= 4 || !Tells(before, e)) && state != Terminated
      requires before.state == state && before.params == params && before.sessionId == sessionId
      modifies this`state, this`terminationReason, this`terminatedByRemote, this`outgoing, this`events, this`trace
      ensures Books()
      ensures Current() == Do(Do(old(Current()), Notice(Me(), before, e)), [Emit(Closed(e.reason))]).(
        state := Terminated, reason := e.reason, byRemote := e.byRemote)
    {
      hide Books, Notice;
      terminationReason := e.reason;
      NotifyRemote(before, e);
      state := Terminated;
      terminatedByRemote := e.byRemote;
      PushEvent(Closed(e.reason));
    }

    /** Ticks the output channels a last time and flushes all channels. */
    method FlushLast(now: nat)
      requires Books() && Four(Current().channels) && (params.crcLength <= 4 || AllFlushed(LastTick(Current(), now)))
      modifies this`inputs, this`outputs, this`outgoing, this`received, this`trace
      ensures Books() && Current() == LastWords(Me(), old(Current()), now)
      ensures LastWords(Me(), old(Current()), now) == old(Current()).(trace := trace, channels := Current().channels)
    {
      hide Books, Flush, TickedOutputs;
      TickOutputs(now);
      ghost var ticked := Current();
      FlushChannels();
      FlushIsLocal(Me(), ticked);
    }

    method NotifyRemote(ghost before: View, e: Ending)
      requires Books() && (params.crcLength <= 4 || !Tells(before, e))
      requires before.state == state && before.params == params && before.sessionId == sessionId
      modifies this`outgoing, this`trace
      ensures Books() && trace == old(trace) + Notice(Me(), before, e)
    {
      hide Books, U16, U32, ReasonCode;
      if e.notify && state == Running {
        var payload := U32(sessionId) + U16(ReasonCode(e.reason));
        PushDatagram(Protocol.FrameContextual(Codec(), Protocol.AsU16(Protocol.Disconnect), payload));
      }
    }

    method TickOutputs(now: nat)
      requires |outputs| == 4
      modifies this`outputs
      ensures outputs == TickedOutputs(old(outputs), now)
    {
      hide RO.RunTick;
      ghost var start := outputs;
      for ch := 0 to 4
        invariant |outputs| == 4
        invariant forall i | 0 <= i < ch :: outputs[i] == TickOutput(start[i], now)
        invariant forall i | ch <= i < 4 :: outputs[i] == start[i]
      {
        if outputs[ch].Some? { outputs := outputs[ch := Some(RO.RunTick(outputs[ch].value, now))]; }
      }
    }

    method TickInputs(now: nat)
      requires |inputs| == 4
      modifies this`inputs
      ensures inputs == TickedInputs(old(inputs), now)
    {
      ghost var start := inputs;
      for ch := 0 to 4
        invariant |inputs| == 4
        invariant forall i | 0 <= i < ch :: inputs[i] == TickInput(start[i], now)
        invariant forall i | ch <= i < 4 :: inputs[i] == start[i]
      {
        if inputs[ch].Some? { inputs := inputs[ch := Some(RI.InputTick(inputs[ch].value, now))]; }
      }
    }

    method Terminate(reason: Reason, notifyRemote: bool, now: nat)
      requires Valid() && CanEnd(Current(), Ending(reason, notifyRemote, false), now)
      modifies this
      ensures Valid() && Kept() && Current() == End(Me(), old(Current()), Ending(reason, notifyRemote, false), now)
      ensures old(Timely(Current())) ==> Timely(Current())
    {
      EndKeeps(Me(), Current(), Ending(reason, notifyRemote, false), now);
      TerminateInner(reason, notifyRemote, false, now);
    }

    // ----- Channels --------------------------------------------------------------------------

    /** Hands a packet to an input channel, which its first packet creates. */
    method ToInput(op: Protocol.OpCode, ch: nat, body: bytes, now: nat) returns (ok: bool)
      requires Working() && ch < 4 && (op == Protocol.ReliableData || op == Protocol.ReliableDataFragment)
      modifies this`inputs, this`trace
      ensures Books() && trace == old(trace) + [Call(ChannelCall(op, ch, body))]
      ensures var call := ChannelCall(op, ch, body);
              && ChannelPair(inputs, outputs) == FedOne(Me(), params, old(ChannelPair(inputs, outputs)), call, now)
              && ok == Received(Me(), params, old(ChannelPair(inputs, outputs)), call, now).ok
    {
      hide Books, RI.Receive, OutputsOk;
      if inputs[ch].None? { inputs := inputs[ch := Some(InputOr(params, cipher, None, now))]; }
      var r := RI.Receive(inputs[ch].value, op == Protocol.ReliableDataFragment, body, now);
      inputs := inputs[ch := Some(r.state)];
      RecordCall(ChannelCall(op, ch, body));
      ok := r.ok;
    }

    /** Hands an acknowledgement to an output channel, which its first packet creates. */
    method ToOutput(op: Protocol.OpCode, ch: nat, body: bytes, now: nat)
      requires Working() && ch < 4 && |body| >= 2 && (op == Protocol.Acknowledge || op == Protocol.AcknowledgeAll)
      modifies this`outputs, this`trace
      ensures Books() && trace == old(trace) + [Call(ChannelCall(op, ch, body))]
      ensures ChannelPair(inputs, outputs)
           == FedOne(Me(), params, old(ChannelPair(inputs, outputs)), ChannelCall(op, ch, body), now)
    {
      hide Books, RO.Acknowledge, RO.AcknowledgeAll, OutputsOk;
      if outputs[ch].None? { outputs := outputs[ch := Some(OutputOr(params, cipher, None))]; }
      var sequence := ReadU16(body);
      if op == Protocol.AcknowledgeAll {
        outputs := outputs[ch := Some(RO.AcknowledgeAll(outputs[ch].value, sequence, now))];
      } else {
        outputs := outputs[ch := Some(RO.Acknowledge(outputs[ch].value, sequence, now))];
      }
      RecordCall(ChannelCall(op, ch, body));
    }

    // ----- Contextual packets ----------------------------------------------------------------

    method HandleContextual(op: Protocol.OpCode, ch: nat, body: bytes, now: nat)
      requires Working() && state != Terminated && ch < 4
      modifies this
      ensures Working() && Kept() && Current() == DealWith(Me(), old(Current()), op, ch, body, now)
    {
      hide Books, Deal, Conclude, End;
      match Protocol.Decompress(Codec(), inflate, body) {
        case Empty =>
        case NotInflatable => TerminateInner(CorruptPacket, true, false, now);
        case Plain(payload) => HandleContextualInner(op, ch, payload, now);
      }
    }

    /** Where a packet leaves the session. */
    ghost function Dealt(v: View, op: Protocol.OpCode, ch: nat, body: bytes, now: nat): View
      requires Able(v) && ch < 4
    {
      Conclude(Me(), v, Deal(Me(), v.params, v.channels, op, ch, body, now), now)
    }

    method HandleContextualInner(op: Protocol.OpCode, ch: nat, body: bytes, now: nat)
      requires Working() && state != Terminated && ch < 4
      modifies this
      ensures Working() && Kept() && Current() == Dealt(old(Current()), op, ch, body, now)
      decreases |body|, 2
    {
      hide Books, End, FedOne, DealBundle, RI.Receive;
      assert trace + [] == trace;
      match op {
        case MultiPacket => HandleBundle(body, now);
        case Disconnect =>
          if |body| >= 6 { TerminateInner(ReasonOf(ReadU16(body[4..])), false, true, now); }
        case Heartbeat =>
          if mode == Server {
            PushDatagram(Protocol.FrameContextual(Codec(), Protocol.AsU16(Protocol.Heartbeat), []));
          }
        case ReliableData => HandleReliable(op, ch, body, now);
        case ReliableDataFragment => HandleReliable(op, ch, body, now);
        case Acknowledge => HandleAcknowledge(op, ch, body, now);
        case AcknowledgeAll => HandleAcknowledge(op, ch, body, now);
        case _ =>
      }
    }

    method HandleReliable(op: Protocol.OpCode, ch: nat, body: bytes, now: nat)
      requires Working() && state != Terminated && ch < 4
      requires op == Protocol.ReliableData || op == Protocol.ReliableDataFragment
      modifies this
      ensures Working() && Kept() && Current() == Dealt(old(Current()), op, ch, body, now)
    {
      hide Books, End, FedOne, Received, OutputsOk;
      FedOneKeeps(Me(), params, ChannelPair(inputs, outputs), ChannelCall(op, ch, body), now);
      var ok := ToInput(op, ch, body, now);
      if !ok { TerminateInner(CorruptPacket, true, false, now); }
    }

    method HandleAcknowledge(op: Protocol.OpCode, ch: nat, body: bytes, now: nat)
      requires Working() && state != Terminated && ch < 4
      requires op == Protocol.Acknowledge || op == Protocol.AcknowledgeAll
      modifies this
      ensures Working() && Kept() && Current() == Dealt(old(Current()), op, ch, body, now)
    {
      hide Books, End, FedOne, OutputsOk;
      assert trace + [] == trace;
      FedOneKeeps(Me(), params, ChannelPair(inputs, outputs), ChannelCall(op, ch, body), now);
      if |body| >= 2 { ToOutput(op, ch, body, now); }
    }

    /** The loop over a bundle stops at the first sub-packet that ends the session; it goes through only if
        the bundle unpacks and has none but known OP codes, and then it has dealt with its sub-packets. */
    method HandleBundle(body: bytes, now: nat)
      requires Working() && state != Terminated
      modifies this
      ensures Working() && Kept()
      ensures Current() == Conclude(Me(), old(Current()), DealBundle(Me(), old(params), old(Current()).channels, body, now), now)
      ensures state != Terminated ==>
        var subs := MultiPackets.SubPackets(body);
        && subs.Some? && (forall k | 0 <= k < |subs.value| :: Protocol.ReadOpCode(subs.value[k]).Some?)
        && Current() == Conclude(Me(), old(Current()),
             BundleDispatch.DealAll(Me(), old(params), old(Current()).channels, subs.value, now), now)
      decreases |body|, 1
    {
      hide Books, Deal, DealFirst, DealBundle, Conclude, OutputsOk, MultiPackets.SubPackets, BundleDispatch.DealAll;
      var offset := 0;
      ghost var v, c := Current(), Current().channels;
      ghost var done := Nothing(c);
      assert body[0..] == body;
      BundleStart(v, body, now);
      while offset < |body|
        invariant Working() && Kept() && offset <= |body| && state != Terminated && done.ending.None?
        invariant Current() == Do(v, done.acts).(channels := done.channels)
        invariant DealBundle(Me(), params, c, body, now) == Then(done, DealBundle(Me(), params, done.channels, body[offset..], now))
        decreases |body| - offset
      {
        ghost var first, start := DealFirst(Me(), params, done.channels, body[offset..], now), offset;
        BundleDispatch.BundleStep(Me(), params, c, done, body, body[offset..], now);
        BundleDispatch.ConcludeTwice(Me(), v, done, first, now);
        offset := HandleSub(body, offset, now);
        if state == Terminated { return; }
        assert body[offset..] == body[start..][offset - start..];
        done := Then(done, first);
        StillGoing(v, done, now);
      }
      BundleOver(v, done, body, body[offset..], now);
    }

    lemma BundleStart(v: View, body: bytes, now: nat)
      requires Able(v)
      ensures v == Do(v, Nothing(v.channels).acts)
      ensures var o := DealBundle(Me(), v.params, v.channels, body, now); o == Then(Nothing(v.channels), o)
    {
      hide DealBundle, Able;
      assert v.trace + [] == v.trace;
      assert forall o: Outcome :: [] + o.acts == o.acts;
    }

    lemma StillGoing(v: View, done: Outcome, now: nat)
      requires v.params.crcLength <= 4 && Four(done.channels) && done.ending.None?
      ensures Conclude(Me(), v, done, now) == Do(v, done.acts).(channels := done.channels)
    {
    }

    lemma BundleOver(v: View, done: Outcome, body: bytes, rest: bytes, now: nat)
      requires Able(v) && Four(done.channels) && done.ending.None? && rest == []
      requires DealBundle(Me(), v.params, v.channels, body, now) == Then(done, DealBundle(Me(), v.params, done.channels, rest, now))
      ensures DealBundle(Me(), v.params, v.channels, body, now) == done
      ensures Conclude(Me(), v, done, now) == Do(v, done.acts).(channels := done.channels)
      ensures var subs := MultiPackets.SubPackets(body);
              && subs.Some? && (forall k | 0 <= k < |subs.value| :: Protocol.ReadOpCode(subs.value[k]).Some?)
              && BundleDispatch.DealAll(Me(), v.params, v.channels, subs.value, now) == done
    {
      hide BundleDispatch.DealAll, MultiPackets.SubPackets, DealFirst, Usable;
      assert done.acts + [] == done.acts;
      BundleDispatch.SurvivedBundle(Me(), v.params, v.channels, body, now);
    }

    /** The body of the bundle loop: one sub-packet. */
    method HandleSub(body: bytes, offset: nat, now: nat) returns (next: nat)
      requires Working() && state != Terminated && offset < |body|
      modifies this
      ensures Working() && Kept()
      ensures Current() == Conclude(Me(), old(Current()), DealFirst(Me(), old(params), old(Current()).channels, body[offset..], now), now)
      ensures state == Terminated <==> DealFirst(Me(), old(params), old(Current()).channels, body[offset..], now).ending.Some?
      ensures state != Terminated ==> next == offset + MultiPackets.FirstSub(body[offset..]).value.end <= |body|
      decreases |body|, 0
    {
      hide Books, Deal, DecodeMultiPacket, Protocol.FromU16, Protocol.ReliableChannel, End, OutputsOk, LastTick, AllFlushed;
      assert trace + [] == trace;
      next := offset;
      var reader := new BinaryReader(body[offset..]);
      var length := ReadMultiPacket(reader);
      if length.None? {
        TerminateInner(CorruptPacket, true, false, now);
        return;
      }
      next := offset + reader.offset;
      if length.value < 2 || length.value > |body| - next {
        TerminateInner(CorruptPacket, true, false, now);
        return;
      }
      var sub := body[next..next + length.value];
      assert sub == MultiPackets.FirstSub(body[offset..]).value.sub;
      var subOp := Protocol.ReadOpCode(sub);
      if subOp.None? {
        TerminateInner(CorruptPacket, true, false, now);
        return;
      }
      HandleContextualInner(subOp.value, Protocol.ReliableChannel(ReadU16(sub)), sub[2..], now);
      next := next + length.value;
    }

    // ----- Handshake -------------------------------------------------------------------------

    method SendSessionRequest(random: nat)
      requires Valid()
      modifies this
      ensures Valid() && Kept() && Current() == Ask(Me(), old(Current()), random)
      ensures old(Timely(Current())) ==> Timely(Current())
    {
      hide Books, AtRest, FrameRequest;
      AskKeeps(Me(), Current(), random);
      if state != Negotiating || mode != Client { return; }
      sessionId := random;
      PushDatagram(FrameRequest(random, params));
    }

    method HandleSessionRequest(body: bytes, random: nat, now: nat)
      requires Books() && Four(Current().channels) && OutputsOk(outputs) && state != Terminated
      requires CanShake(Me(), Current(), Protocol.SessionRequest, body, now)
      modifies this
      ensures Books() && Kept() && Current() == Requested(Me(), old(Current()), body, random, now)
    {
      hide Books, End, ParseRequest, FrameResponse, OutputsOk, TickedOutputs, AllFlushed;
      if mode == Client {
        TerminateInner(ConnectingToSelf, false, false, now);
        return;
      }
      var request := ParseRequest(body);
      if request.None? {
        TerminateInner(CorruptPacket, true, false, now);
        return;
      }
      params := params.(remoteUdpLength := request.value.udpLength);
      sessionId := request.value.sessionId;
      if state != Negotiating {
        TerminateInner(ConnectError, true, false, now);
        return;
      }
      if request.value.version != SOE_PROTOCOL_VERSION || request.value.applicationProtocol != params.applicationProtocol {
        TerminateInner(ProtocolMismatch, true, false, now);
        return;
      }
      AcceptSession(random);
    }

    method AcceptSession(random: nat)
      requires Books()
      modifies this`params, this`state, this`openOnNextPacket, this`outgoing, this`trace
      ensures Books()
      ensures var p := old(params).(crcLength := CRC_LENGTH, crcSeed := random);
              Current() == Do(old(Current()), [Send(FrameResponse(sessionId, p))]).(params := p, state := Running, opensNext := true)
    {
      hide Books, FrameResponse;
      params := params.(crcLength := CRC_LENGTH, crcSeed := random);
      PushDatagram(FrameResponse(sessionId, params));
      state := Running;
      openOnNextPacket := true;
    }

    method HandleSessionResponse(body: bytes, now: nat)
      requires Books() && Four(Current().channels) && OutputsOk(outputs) && state != Terminated
      requires CanShake(Me(), Current(), Protocol.SessionResponse, body, now)
      modifies this
      ensures Books() && Kept() && Current() == Responded(Me(), old(Current()), body, now)
    {
      hide Books, End, ParseResponse, OutputsOk, LastTick, AllFlushed;
      if mode == Server {
        TerminateInner(ConnectingToSelf, false, false, now);
        return;
      }
      var response := ParseResponse(body);
      if response.None? {
        TerminateInner(CorruptPacket, true, false, now);
        return;
      }
      if state != Negotiating {
        TerminateInner(ConnectError, true, false, now);
        return;
      }
      var r := response.value;
      if r.version != SOE_PROTOCOL_VERSION {
        TerminateInner(ProtocolMismatch, true, false, now);
        return;
      }
      params := params.(remoteUdpLength := r.udpLength, crcLength := r.crcLength, crcSeed := r.crcSeed,
                        compression := r.compression);
      sessionId := r.sessionId;
      state := Running;
      PushEvent(Opened);
    }

    method HandleContextless(op: Protocol.OpCode, body: bytes, random: nat, now: nat)
      requires Books() && Four(Current().channels) && OutputsOk(outputs) && state != Terminated
      requires CanShake(Me(), Current(), op, body, now)
      modifies this
      ensures Books() && Kept() && Current() == Shake(Me(), old(Current()), op, body, random, now)
    {
      hide Books, End, Requested, Responded;
      match op {
        case SessionRequest => HandleSessionRequest(body, random, now);
        case SessionResponse => HandleSessionResponse(body, now);
        case UnknownSender => TerminateInner(UnreachableConnection, false, false, now);
        case _ =>
      }
    }

    // ----- Unreliable data -------------------------------------------------------------------

    /** True when the datagram was delivered or dropped as unreliable data. */
    method HandleUnreliable(datagram: bytes, now: nat) returns (handled: bool)
      requires Books() && (params.crcLength <= 4 || state != Running || |datagram| < params.crcLength + 1)
      modifies this`lastReceived, this`openOnNextPacket, this`received, this`events, this`trace
      ensures Books()
      ensures var read := Protocol.ClassifyUnreliable(Codec(), state == Running, datagram);
              && handled == !read.Corrupt?
              && Current() == if !read.Unreliable? then old(Current())
                   else Do(Heard(old(Current()), now), [Receive(ReceivedData(read.payload, SessionTrace.Unreliable))])
    {
      hide Books, Protocol.Crc;
      if state != Running { return false; }
      if |datagram| < params.crcLength + 1 { return false; }
      var split := |datagram| - params.crcLength;
      if Protocol.Crc(Codec(), datagram[..split]) != datagram[split..] { return true; }
      var body := datagram[..split];
      if body[0] == 0 {
        if |body| < 2 || body[1] != 0 { return false; }
        body := body[1..];
      }
      lastReceived := now;
      OpenIfPending();
      PushReceived(ReceivedData(body, SessionTrace.Unreliable));
      handled := true;
    }

    /** The first packet after the handshake opens a server's session. */
    method OpenIfPending()
      requires Books()
      modifies this`openOnNextPacket, this`events, this`trace
      ensures Books() && Current() == Opening(old(Current()))
    {
      hide Books;
      assert trace + [] == trace;
      if openOnNextPacket {
        PushEvent(Opened);
        openOnNextPacket := false;
      }
    }

    // ----- Public operations -----------------------------------------------------------------

    /** Takes in one datagram, in any state. What it ends and how is TakeInKeeps's to say. */
    method ProcessIncoming(datagram: bytes, random: nat, now: nat)
      requires Valid() && CanTakeIn(Me(), Current(), datagram, now)
      modifies this
      ensures Valid() && Kept() && Current() == TakeIn(Me(), old(Current()), datagram, random, now)
      ensures old(Timely(Current())) && (old(state) != Negotiating || Protocol.ReadOpCode(datagram) == Some(Protocol.SessionRequest))
        ==> Timely(Current())
    {
      hide Books, End, Shake, DealWith, Flush, Heard, Protocol.Classify, Protocol.Validate, Protocol.ReadOpCode, AllFlushed, Timely;
      TakeInKeeps(Me(), Current(), datagram, random, now);
      if state == Terminated { return; }
      var validation := Protocol.Validate(Codec(), datagram);
      if validation == Protocol.Valid {
        HandleValid(datagram, random, now);
      } else {
        HandleInvalid(datagram, validation, now);
      }
    }

    /** A datagram that is no packet: unreliable data, or else the end of the session. */
    method HandleInvalid(datagram: bytes, validation: Protocol.Validation, now: nat)
      requires Books() && Four(Current().channels) && OutputsOk(outputs) && AllFlushed(Current().channels) && state != Terminated
      requires Sized(params) && CanTakeIn(Me(), Current(), datagram, now)
      requires validation == Protocol.Validate(Codec(), datagram) != Protocol.Valid
      modifies this
      ensures Books() && Kept()
      ensures forall random: nat :: Current() == TakeIn(Me(), old(Current()), datagram, random, now)
    {
      hide Books, End, Shake, DealWith, Flush, Heard, Protocol.Classify, Protocol.Validate, Protocol.ClassifyUnreliable, AllFlushed;
      Protocol.ClassifyInvalid(Codec(), state == Running, datagram);
      if validation == Protocol.InvalidOpCode {
        var handled := HandleUnreliable(datagram, now);
        if handled {
          IdleFlush(Me(), Current());
          FlushChannels();
          return;
        }
      }
      TerminateInner(CorruptPacket, true, false, now);
    }

    /** A datagram with a known OP code and a correct CRC. */
    method HandleValid(datagram: bytes, random: nat, now: nat)
      requires Books() && Four(Current().channels) && OutputsOk(outputs) && AllFlushed(Current().channels) && state != Terminated
      requires Sized(params) && CanTakeIn(Me(), Current(), datagram, now)
      requires Protocol.Validate(Codec(), datagram) == Protocol.Valid
      modifies this
      ensures Books() && Kept() && Current() == TakeIn(Me(), old(Current()), datagram, random, now)
    {
      hide Books, End, Shake, DealWith, Flush, Protocol.Classify, Protocol.Validate, Protocol.ReliableChannel;
      hide Protocol.ReadOpCode, AllFlushed, OutputsOk, LastTick, Protocol.NeedsCrc, HandshakeVerdict;
      Protocol.ClassifyValid(Codec(), state == Running, datagram);
      var op := Protocol.ReadOpCode(datagram).value;
      OpenIfPending();
      lastReceived := now;
      ghost var h := Current();
      var body := datagram[2..];
      if Protocol.IsContextless(op) {
        HeardCanShake(Me(), old(Current()), op, body, now);
        ShakeKeepsChannels(Me(), h, op, body, random, now);
        HandleContextless(op, body, random, now);
      } else {
        var raw := ReadU16(datagram);
        body := body[..|body| - params.crcLength];
        assert body == datagram[2..|datagram| - params.crcLength];
        DealKeepsParams(Me(), h, op, Protocol.ReliableChannel(raw), body, now);
        HandleContextual(op, Protocol.ReliableChannel(raw), body, now);
      }
      FlushChannels();
    }

    /** Ends a session that has timed out without telling the remote, else ticks and flushes every channel. */
    method RunTick(now: nat)
      requires Valid() && CanTick(Me(), Current(), now)
      modifies this
      ensures Valid() && Kept() && Current() == Tick(Me(), old(Current()), now)
      ensures old(Timely(Current())) ==> Timely(Current())
    {
      hide Books, End, Flush, HeartbeatActs, TickedInputs, TickedOutputs, AllFlushed, Timely;
      TickKeeps(Me(), Current(), now);
      if state == Terminated { return; }
      SendHeartbeatIfRequired(now);
      if params.inactivityTimeout != 0 && RO.Since(now, lastReceived) > params.inactivityTimeout {
        TerminateInner(Timeout, false, false, now);
        return;
      }
      TickInputs(now);
      TickOutputs(now);
      FlushChannels();
    }

    method SendHeartbeatIfRequired(now: nat)
      requires Books() && (params.crcLength <= 4 || !HeartbeatDue(Me(), Current(), now))
      modifies this`outgoing, this`trace
      ensures Books() && trace == old(trace) + HeartbeatActs(Me(), old(Current()), now)
    {
      hide Books;
      if mode == Client && state == Running && params.heartbeatAfter != 0
         && RO.Since(now, lastReceived) > params.heartbeatAfter {
        PushDatagram(Protocol.FrameContextual(Codec(), Protocol.AsU16(Protocol.Heartbeat), []));
      }
    }

    /** Accepts data only on a running session and a channel that exists. */
    method EnqueueDataOn(data: bytes, channel: Channel) returns (accepted: bool)
      requires Valid() && CanEnqueue(Current(), data, channel)
      modifies this`outputs, this`outgoing, this`trace
      ensures Valid() && Current() == Enqueue(Me(), old(Current()), data, channel)
      ensures accepted == Accepts(old(Current()), channel)
      ensures old(Timely(Current())) ==> Timely(Current())
    {
      hide Books, RO.Enqueue, Protocol.FrameUnreliable, OutputsOk;
      EnqueueKeeps(Me(), Current(), data, channel);
      if state != Running { return false; }
      match channel {
        case Reliable(ch) =>
          if ch >= 4 { return false; }
          EnqueueReliable(ch, data);
        case Unreliable =>
          if data == [] { return true; }
          if FramedLength(params, data) > params.remoteUdpLength {
            EnqueueReliable(0, data);
          } else {
            PushDatagram(Protocol.FrameUnreliable(Codec(), data));
          }
      }
      accepted := true;
    }

    method EnqueueReliable(ch: nat, data: bytes)
      requires Four(Current().channels) && OutputsOk(outputs) && ch < 4 && (outputs[ch].Some? || Roomy(params))
      modifies this`outputs
      ensures Current() == QueuedOn(Me(), old(Current()), ch, data)
    {
      hide RO.Enqueue;
      if outputs[ch].None? { outputs := outputs[ch := Some(OutputOr(params, cipher, None))]; }
      outputs := outputs[ch := Some(RO.Enqueue(outputs[ch].value, data))];
    }
  }
}
