/** Two sessions that have shaken hands (src/session.rs), joined by a network that loses, duplicates and
    reorders datagrams, loses acknowledgements and adds datagrams of its own, anything but reliable packets,
    acknowledgements and bundles. Both directions of all four reliable channels are each a run of EndToEnd,
    so what the channels promise the sessions keep. */
module SessionLink {
  import opened Bytes
  import opened Rc4
  import Protocol
  import DataCodec
  import RO = ReliableOutput
  import RI = ReliableInput
  import E = EndToEnd
  import opened SessionTrace
  import opened SessionSteps
  import opened SessionLifecycle
  import opened SessionWire
  import opened Handshake

  // ----- What a session surfaces -------------------------------------------------------------

  /** The data handed to the application on one reliable channel. */
  function Surfaced(trace: seq<Act>, ch: nat): seq<bytes> {
    if trace == [] then [] else
      var last := trace[|trace| - 1];
      Surfaced(trace[..|trace| - 1], ch)
        + if last.Receive? && last.data.channel == Reliable(ch) then [last.data.data] else []
  }

  lemma {:induction false} SurfacedAppend(trace: seq<Act>, acts: seq<Act>, ch: nat)
    ensures Surfaced(trace + acts, ch) == Surfaced(trace, ch) + Surfaced(acts, ch)
    decreases |acts|
  {
    if acts == [] {
      assert trace + acts == trace;
    } else {
      var n := |acts| - 1;
      assert (trace + acts)[..|trace| + n] == trace + acts[..n];
      SurfacedAppend(trace, acts[..n], ch);
    }
  }

  lemma {:induction false} SurfacedNone(acts: seq<Act>, ch: nat)
    requires forall k | 0 <= k < |acts| :: !acts[k].Receive? || acts[k].data.channel != Reliable(ch)
    ensures Surfaced(acts, ch) == []
    decreases |acts|
  {
    if acts != [] { SurfacedNone(acts[..|acts| - 1], ch); }
  }

  lemma {:induction false} SurfacedData(at: nat, data: seq<bytes>, ch: nat)
    ensures Surfaced(DataActs(at, data), ch) == if at == ch then data else []
    decreases |data|
  {
    if data != [] {
      var n := |data| - 1;
      SurfacedData(at, data[..n], ch);
      assert DataActs(at, data)[..n] == DataActs(at, data[..n]);
    }
  }

  /** More acts, none of which surfaces reliable data. */
  ghost predicate Extends(v: seq<Act>, w: seq<Act>) {
    && v <= w
    && forall k | |v| <= k < |w| :: !w[k].Receive? || w[k].data.channel.Unreliable?
  }

  lemma ExtendsKeepsSurfaced(v: seq<Act>, w: seq<Act>, ch: nat)
    requires Extends(v, w)
    ensures Surfaced(w, ch) == Surfaced(v, ch) && forall a | a in v :: a in w
  {
    assert w == v + w[|v|..];
    SurfacedNone(w[|v|..], ch);
    SurfacedAppend(v, w[|v|..], ch);
  }

  // ----- Two sessions ------------------------------------------------------------------------

  /** Seen from one of them: `out` are the channels that it sends on, `back` those that it receives on, each
      with its network as in EndToEnd. */
  datatype Link = Link(near: View, far: View, out: seq<E.System>, back: seq<E.System>)

  datatype Ends = Ends(near: Self, far: Self)

  function Flip(l: Link): Link {
    Link(l.far, l.near, l.back, l.out)
  }

  function Other(ends: Ends): Ends {
    Ends(ends.far, ends.near)
  }

  /** What may happen at one end. */
  datatype Move =
    | Offer(data: bytes, channel: Channel)
    | RunTick(now: nat)
    | TakePacket(ch: nat, packet: E.Datagram, now: nat)
    | TakeAck(ch: nat, now: nat)
    | TakeOther(datagram: bytes, random: nat, now: nat)
    | Quit(reason: Reason, notify: bool, now: nat)
    | LosePackets(ch: nat, lost: set<E.Datagram>)
    | LoseAck(ch: nat, index: nat)

  /** Neither a packet nor an acknowledgement of a reliable channel, nor a bundle that may hold some: handshake
      packets, heartbeats, Disconnects, unreliable data and all that is corrupt. */
  predicate OtherKind(read: Protocol.Class) {
    read.Contextual? ==> read.op != Protocol.MultiPacket && !Protocol.HasChannels(read.op)
  }

  /** Both have four channels each way and need no more than they have. */
  ghost predicate Ready(v: View, self: Self) {
    AtRest(self, v) && Four(v.channels) && Usable(v.params)
  }

  ghost predicate Allowed(self: Self, l: Link, m: Move)
    requires Ready(l.near, self) && |l.out| == 4 && |l.back| == 4
  {
    match m
    case Offer(data, channel) =>
      Accepts(l.near, channel) && ChannelFor(l.near, data, channel).Some? ==>
        E.Enabled(l.out[ChannelFor(l.near, data, channel).value], E.EnqueueData(data))
    case TakePacket(ch, d, now) => ch < 4 && E.Enabled(WithReceiver(self, l.near, ch, l.back[ch], now), E.DeliverData(d, now))
    case TakeAck(ch, now) => ch < 4 && l.out[ch].acks != []
    case TakeOther(datagram, _, _) => OtherKind(Protocol.Classify(Framing(self, l.near.params), l.near.state == Running, datagram))
    case LosePackets(ch, _) => ch < 4
    case LoseAck(ch, index) => ch < 4 && index < |l.out[ch].acks|
    case _ => true
  }

  ghost function SendersTick(flows: seq<E.System>, now: nat): (ticked: seq<E.System>)
    ensures |ticked| == |flows|
  {
    seq(|flows|, k requires 0 <= k < |flows| => E.Next(flows[k], E.SenderTick(now)))
  }

  ghost function ReceiversTick(flows: seq<E.System>, now: nat): (ticked: seq<E.System>)
    ensures |ticked| == |flows|
  {
    seq(|flows|, k requires 0 <= k < |flows| => E.Next(flows[k], E.ReceiverTick(now)))
  }

  /** The receiver as the session has it, which makes one only when the first packet arrives. */
  function WithReceiver(self: Self, v: View, ch: nat, s: E.System, now: nat): E.System
    requires Four(v.channels) && ch < 4
  {
    s.(receiver := InputOr(v.params, self.cipher, v.channels.inputs[ch], now))
  }

  ghost function Delivered(self: Self, v: View, ch: nat, s: E.System, d: E.Datagram, now: nat): E.System
    requires Four(v.channels) && ch < 4 && E.Enabled(WithReceiver(self, v, ch, s, now), E.DeliverData(d, now))
  {
    E.Next(WithReceiver(self, v, ch, s, now), E.DeliverData(d, now))
  }

  function Taken(self: Self, v: View, datagram: bytes, random: nat, now: nat): View
    requires Four(v.channels) && AllFlushed(v.channels) && Usable(v.params)
  {
    TakeIn(self, v, datagram, random, now)
  }

  function TakenPacket(self: Self, v: View, ch: nat, p: RO.OutgoingReliable, now: nat): View
    requires Four(v.channels) && AllFlushed(v.channels) && Usable(v.params) && ch < 4
  {
    Taken(self, v, PacketFrame(Framing(self, v.params), ch, p), 0, now)
  }

  /** One move of the near end. */
  ghost function Step(self: Self, l: Link, m: Move): Link
    requires Ready(l.near, self) && |l.out| == 4 && |l.back| == 4 && Allowed(self, l, m)
  {
    if m.LosePackets? then l.(out := l.out[m.ch := E.Next(l.out[m.ch], E.LoseData(m.lost))])
    else if m.LoseAck? then l.(out := l.out[m.ch := E.Next(l.out[m.ch], E.LoseAck(m.index))])
    else if l.near.state == Terminated then l
    else Live(self, l, m)
  }

  ghost function Live(self: Self, l: Link, m: Move): Link
    requires Ready(l.near, self) && |l.out| == 4 && |l.back| == 4 && Allowed(self, l, m)
    requires !m.LosePackets? && !m.LoseAck?
  {
    match m
    case Offer(data, channel) =>
      var ch := ChannelFor(l.near, data, channel);
      l.(near := Enqueue(self, l.near, data, channel),
         out := if Accepts(l.near, channel) && ch.Some? then l.out[ch.value := E.Next(l.out[ch.value], E.EnqueueData(data))] else l.out)
    case RunTick(now) =>
      l.(near := Tick(self, l.near, now), out := SendersTick(l.out, now),
         back := if Expired(l.near, now) then l.back else ReceiversTick(l.back, now))
    case TakePacket(ch, d, now) =>
      l.(near := TakenPacket(self, l.near, ch, d.packet, now), back := l.back[ch := Delivered(self, l.near, ch, l.back[ch], d, now)])
    case TakeAck(ch, now) =>
      var frame := AckFrame(Framing(self, l.near.params), ch, l.out[ch].acks[0]);
      l.(near := Taken(self, l.near, frame, 0, now), out := l.out[ch := E.Next(l.out[ch], E.DeliverAck(now))])
    case TakeOther(datagram, random, now) =>
      var near := Taken(self, l.near, datagram, random, now);
      l.(near := near, out := if near.state == Terminated then SendersTick(l.out, now) else l.out)
    case Quit(reason, notify, now) =>
      l.(near := End(self, l.near, Ending(reason, notify, false), now), out := SendersTick(l.out, now))
  }

  // ----- The invariant -----------------------------------------------------------------------

  /** Settings that only differ in what no channel depends on. */
  predicate Same(p: Parameters, q: Parameters) {
    p == q.(remoteUdpLength := p.remoteUdpLength)
  }

  /** One direction of a channel, by the settings of its sender and its receiver. */
  function Flow(p: Parameters, q: Parameters, cipher: Option<Cipher>): E.Config
    requires MaxDataLength(p) >= 6
  {
    E.Config(RO.OutputConfig(MaxDataLength(p), p.maxQueuedOutgoing, 500_000_000),
             RI.InputConfig(q.maxQueuedIncoming, q.acknowledgeAllData, q.dataAckWindow, q.maxAckDelay), cipher, 0)
  }

  /** The sending session has the channel's sender, and has sent what is on the network. */
  ghost predicate SendsOn(self: Self, v: View, ch: nat, s: E.System)
    requires Four(v.channels) && Usable(v.params) && ch < 4
  {
    && s.sender == OutputOr(v.params, self.cipher, v.channels.outputs[ch])
    && forall d | d in s.network :: Send(PacketFrame(Framing(self, v.params), ch, d.packet)) in v.trace
  }

  /** The receiving session has the channel's receiver, has sent its acknowledgements and has surfaced what was
      delivered. */
  ghost predicate ReceivesOn(self: Self, v: View, ch: nat, s: E.System)
    requires Four(v.channels) && Usable(v.params) && ch < 4
  {
    && s.receiver == InputOr(v.params, self.cipher, v.channels.inputs[ch], s.receiver.lastAckAllTime)
    && s.delivered == Surfaced(v.trace, ch)
    && forall a | a in s.acks :: Send(AckFrame(Framing(self, v.params), ch, a)) in v.trace
  }

  ghost predicate FlowOk(c: E.Config, from: Self, to: Self, sender: View, receiver: View, ch: nat, s: E.System)
    requires Four(sender.channels) && Usable(sender.params) && Four(receiver.channels) && Usable(receiver.params) && ch < 4
    requires c.output.maxDataLength >= 6
  {
    E.Inv(c, s) && SendsOn(from, sender, ch, s) && ReceivesOn(to, receiver, ch, s)
  }

  ghost predicate FlowsOk(c: E.Config, from: Self, to: Self, sender: View, receiver: View, flows: seq<E.System>)
    requires Four(sender.channels) && Usable(sender.params) && Four(receiver.channels) && Usable(receiver.params)
    requires c.output.maxDataLength >= 6
  {
    |flows| == 4 && forall ch | 0 <= ch < 4 :: FlowOk(c, from, to, sender, receiver, ch, flows[ch])
  }

  /** The settings of the two agree: they frame alike, and the windows are safe in both directions. */
  ghost predicate Matched(ends: Ends, p: Parameters, q: Parameters) {
    && Usable(p) && Usable(q) && ends.near.cipher == ends.far.cipher && Framing(ends.near, p) == Framing(ends.far, q)
    && E.WellConfigured(Flow(p, q, ends.near.cipher)) && E.WindowsAgree(Flow(p, q, ends.near.cipher))
    && E.WellConfigured(Flow(q, p, ends.far.cipher)) && E.WindowsAgree(Flow(q, p, ends.far.cipher))
  }

  ghost predicate Linked(ends: Ends, p: Parameters, q: Parameters, l: Link)
    requires Matched(ends, p, q)
  {
    && Ready(l.near, ends.near) && Ready(l.far, ends.far) && Same(l.near.params, p) && Same(l.far.params, q)
    && l.near.state != Negotiating && l.far.state != Negotiating && |l.out| == 4 && |l.back| == 4
    && FlowsOk(Flow(p, q, ends.near.cipher), ends.near, ends.far, l.near, l.far, l.out)
    && FlowsOk(Flow(q, p, ends.far.cipher), ends.far, ends.near, l.far, l.near, l.back)
  }

  lemma FlippedLink(ends: Ends, p: Parameters, q: Parameters, l: Link)
    requires Matched(ends, p, q) && Linked(ends, p, q, l)
    ensures Matched(Other(ends), q, p) && Linked(Other(ends), q, p, Flip(l))
  {
    hide FlowsOk, AtRest, E.WellConfigured, E.WindowsAgree;
  }

  // ----- What stays --------------------------------------------------------------------------

  /** A step of a session that leaves what it surfaced on reliable channels and what was sent. */
  ghost predicate Onward(self: Self, v: View, w: View) {
    && Ready(w, self) && Same(w.params, v.params) && Extends(v.trace, w.trace)
    && w.state != Negotiating
  }

  lemma SendsStays(self: Self, v: View, w: View, ch: nat, s: E.System)
    requires Four(v.channels) && Usable(v.params) && ch < 4 && SendsOn(self, v, ch, s) && Onward(self, v, w)
    requires w.channels.outputs[ch] == v.channels.outputs[ch]
    ensures SendsOn(self, w, ch, s)
  {
    hide PacketFrame, StageOf, AllFlushed, Surfaced;
    ExtendsKeepsSurfaced(v.trace, w.trace, ch);
    SameFraming(self, v.params, w.params);
  }

  lemma SameFraming(self: Self, p: Parameters, q: Parameters)
    requires Same(q, p)
    ensures Framing(self, q) == Framing(self, p)
  {
  }

  lemma ReceivesStays(self: Self, v: View, w: View, ch: nat, s: E.System)
    requires Four(v.channels) && Usable(v.params) && ch < 4 && ReceivesOn(self, v, ch, s) && Onward(self, v, w)
    requires w.channels.inputs[ch] == v.channels.inputs[ch]
    ensures ReceivesOn(self, w, ch, s)
  {
    hide AckFrame, StageOf, AllFlushed, Surfaced;
    ExtendsKeepsSurfaced(v.trace, w.trace, ch);
    SameFraming(self, v.params, w.params);
  }

  // ----- Offering ----------------------------------------------------------------------------

  /** Data goes to the sender of the channel it is for, if it is not sent at once. */
  lemma OfferKeeps(c: E.Config, ends: Ends, l: Link, data: bytes, channel: Channel)
    requires Ready(l.near, ends.near) && Ready(l.far, ends.far) && l.near.state == Running && E.WellConfigured(c)
    requires FlowsOk(c, ends.near, ends.far, l.near, l.far, l.out) && |l.back| == 4 && Allowed(ends.near, l, Offer(data, channel))
    ensures var l' := Live(ends.near, l, Offer(data, channel));
            && Onward(ends.near, l.near, l'.near) && l'.near.channels.inputs == l.near.channels.inputs
            && |l'.out| == 4 && FlowsOk(c, ends.near, ends.far, l'.near, l'.far, l'.out)
  {
    hide StageOf, E.Inv, E.Next, RO.Enqueue, Protocol.FrameUnreliable, OutputsOk, AllFlushed, PacketFrame, Surfaced, E.Enabled;
    var self, l' := ends.near, Live(ends.near, l, Offer(data, channel));
    EnqueueKeeps(self, l.near, data, channel);
    var to := ChannelFor(l.near, data, channel);
    forall ch | 0 <= ch < 4
      ensures FlowOk(c, self, ends.far, l'.near, l'.far, ch, l'.out[ch])
    {
      assert FlowOk(c, self, ends.far, l.near, l.far, ch, l.out[ch]);
      if Accepts(l.near, channel) && to == Some(ch) {
        E.EnqueueKeepsInv(c, l.out[ch], data);
        EnqueueIs(l.out[ch], data);
      } else {
        SendsStays(self, l.near, l'.near, ch, l.out[ch]);
      }
    }
  }

  lemma EnqueueIs(s: E.System, data: bytes)
    requires E.Enabled(s, E.EnqueueData(data))
    ensures var s' := E.Next(s, E.EnqueueData(data));
            s.sender.config.maxDataLength >= 6 && s' == s.(sender := RO.Enqueue(s.sender, data), enqueued := s'.enqueued)
  {
  }

  // ----- Ticking -----------------------------------------------------------------------------

  /** The acts of one channel are among those of a flush of all. */
  lemma {:induction false} FlushHas(f: Protocol.Codec, n: nat, c: ChannelPair, ch: nat)
    requires f.crcLength <= 4 && Four(c) && n <= 4 && ch < n
    ensures forall a | a in FlushActs(f, ch, c.inputs[ch], c.outputs[ch]) :: a in FlushAllActs(f, n, c)
  {
    hide FlushActs;
    if ch < n - 1 { FlushHas(f, n - 1, c, ch); }
  }

  /** A flush of ticked channels sends their packets and acknowledgements. */
  lemma FlushSendsAll(f: Protocol.Codec, c: ChannelPair, ch: nat)
    requires f.crcLength <= 4 && Four(c) && ch < 4
    ensures c.outputs[ch].Some? ==> forall p | p in c.outputs[ch].value.outgoing :: Send(PacketFrame(f, ch, p)) in FlushAllActs(f, 4, c)
    ensures c.inputs[ch].Some? ==> forall a | a in c.inputs[ch].value.outgoing :: Send(AckFrame(f, ch, a)) in FlushAllActs(f, 4, c)
  {
    hide PacketFrame, AckFrame, FlushAllActs, AckActs, PacketActs, DataActs;
    var packets := if c.outputs[ch].Some? then c.outputs[ch].value.outgoing else [];
    var acks := if c.inputs[ch].Some? then c.inputs[ch].value.outgoing else [];
    FlushSends(f, ch, acks, packets);
    FlushHas(f, 4, c, ch);
    forall p | p in packets
      ensures Send(PacketFrame(f, ch, p)) in FlushAllActs(f, 4, c)
    {
      var k :| 0 <= k < |packets| && packets[k] == p;
      assert PacketActs(f, ch, packets)[k] in FlushActs(f, ch, c.inputs[ch], c.outputs[ch]);
    }
    forall a | a in acks
      ensures Send(AckFrame(f, ch, a)) in FlushAllActs(f, 4, c)
    {
      var k :| 0 <= k < |acks| && acks[k] == a;
      assert AckActs(f, ch, acks)[k] in FlushActs(f, ch, c.inputs[ch], c.outputs[ch]);
    }
  }

  /** A session whose output channels have ticked and were flushed. */
  ghost predicate SendersTicked(self: Self, v: View, w: View, now: nat)
    requires Ready(v, self)
  {
    && Onward(self, v, w)
    && forall ch | 0 <= ch < 4 ::
         && w.channels.outputs[ch] == FlushedOutput(TickOutput(v.channels.outputs[ch], now))
         && (v.channels.outputs[ch].Some? ==>
               forall p | p in RO.RunTick(v.channels.outputs[ch].value, now).outgoing :: Send(PacketFrame(Framing(self, v.params), ch, p)) in w.trace)
  }

  lemma IdleSender(config: RO.OutputConfig, cipher: Option<Cipher>, now: nat)
    ensures RO.RunTick(RO.Initial(config, cipher), now) == RO.Initial(config, cipher)
  {
  }

  lemma SenderTicks(c: E.Config, self: Self, v: View, w: View, ch: nat, s: E.System, now: nat)
    requires E.WellConfigured(c) && E.Inv(c, s) && Ready(v, self) && ch < 4 && SendsOn(self, v, ch, s) && SendersTicked(self, v, w, now)
    ensures var s' := E.Next(s, E.SenderTick(now));
            && E.Inv(c, s') && SendsOn(self, w, ch, s')
            && s' == s.(sender := s'.sender, network := s'.network)
  {
    hide PacketFrame, StageOf, AllFlushed, OutputsOk, E.Inv, RO.RunTick, RO.Due, Surfaced, AtRest;
    E.SenderTickKeepsInv(c, s, now);
    ExtendsKeepsSurfaced(v.trace, w.trace, ch);
    SameFraming(self, v.params, w.params);
    IdleSender(s.sender.config, self.cipher, now);
  }

  /** All four, when the session's inputs stay. */
  lemma SendersKeep(c: E.Config, ends: Ends, l: Link, w: View, now: nat)
    requires Ready(l.near, ends.near) && Ready(l.far, ends.far) && E.WellConfigured(c)
    requires FlowsOk(c, ends.near, ends.far, l.near, l.far, l.out) && SendersTicked(ends.near, l.near, w, now)
    ensures FlowsOk(c, ends.near, ends.far, w, l.far, SendersTick(l.out, now))
  {
    hide PacketFrame, AckFrame, StageOf, E.Inv, E.Next, RO.RunTick, Surfaced, AtRest;
    forall ch | 0 <= ch < 4
      ensures FlowOk(c, ends.near, ends.far, w, l.far, ch, SendersTick(l.out, now)[ch])
    {
      assert FlowOk(c, ends.near, ends.far, l.near, l.far, ch, l.out[ch]);
      SenderTicks(c, ends.near, l.near, w, ch, l.out[ch], now);
    }
  }

  /** A session whose input channels have ticked and were flushed. */
  ghost predicate ReceiversTicked(self: Self, v: View, w: View, now: nat)
    requires Ready(v, self)
  {
    && Onward(self, v, w)
    && forall ch | 0 <= ch < 4 ::
         && w.channels.inputs[ch] == FlushedInput(TickInput(v.channels.inputs[ch], now))
         && (v.channels.inputs[ch].Some? ==>
               forall a | a in RI.InputTick(v.channels.inputs[ch].value, now).outgoing :: Send(AckFrame(Framing(self, v.params), ch, a)) in w.trace)
  }

  lemma ReceiverTicks(c: E.Config, self: Self, v: View, w: View, ch: nat, s: E.System, now: nat)
    requires E.WellConfigured(c) && E.Inv(c, s) && Ready(v, self) && ch < 4 && ReceivesOn(self, v, ch, s) && ReceiversTicked(self, v, w, now)
    ensures var s' := E.Next(s, E.ReceiverTick(now));
            && E.Inv(c, s') && ReceivesOn(self, w, ch, s')
            && s' == s.(receiver := s'.receiver, acks := s'.acks, delivered := s'.delivered)
  {
    hide AckFrame, StageOf, AllFlushed, OutputsOk, E.Inv, Surfaced, AtRest;
    E.ReceiverTickKeepsInv(c, s, now);
    ReceiverDrained(c, s);
    ExtendsKeepsSurfaced(v.trace, w.trace, ch);
    SameFraming(self, v.params, w.params);
    assert s.delivered + [] == s.delivered;
  }

  lemma ReceiverDrained(c: E.Config, s: E.System)
    requires E.WellConfigured(c) && E.Inv(c, s)
    ensures s.receiver.outgoing == [] && s.receiver.appData == []
  {
  }

  lemma ReceiversKeep(c: E.Config, ends: Ends, l: Link, w: View, now: nat)
    requires Ready(l.near, ends.near) && Ready(l.far, ends.far) && E.WellConfigured(c)
    requires FlowsOk(c, ends.far, ends.near, l.far, l.near, l.back) && ReceiversTicked(ends.near, l.near, w, now)
    ensures FlowsOk(c, ends.far, ends.near, l.far, w, ReceiversTick(l.back, now))
  {
    hide PacketFrame, AckFrame, StageOf, E.Inv, E.Next, Surfaced, AtRest;
    forall ch | 0 <= ch < 4
      ensures FlowOk(c, ends.far, ends.near, l.far, w, ch, ReceiversTick(l.back, now)[ch])
    {
      assert FlowOk(c, ends.far, ends.near, l.far, l.near, ch, l.back[ch]);
      ReceiverTicks(c, ends.near, l.near, w, ch, l.back[ch], now);
    }
  }

  /** Channels that only receive acknowledgements and packets stay as they are for the peer. */
  lemma ReceiversStay(c: E.Config, ends: Ends, l: Link, w: View)
    requires Ready(l.near, ends.near) && Ready(l.far, ends.far) && c.output.maxDataLength >= 6
    requires FlowsOk(c, ends.far, ends.near, l.far, l.near, l.back) && Onward(ends.near, l.near, w)
    requires w.channels.inputs == l.near.channels.inputs
    ensures FlowsOk(c, ends.far, ends.near, l.far, w, l.back)
  {
    hide PacketFrame, AckFrame, StageOf, E.Inv, Surfaced, AtRest, Onward;
    OnwardReady(ends.near, l.near, w);
    forall ch | 0 <= ch < 4
      ensures FlowOk(c, ends.far, ends.near, l.far, w, ch, l.back[ch])
    {
      assert FlowOk(c, ends.far, ends.near, l.far, l.near, ch, l.back[ch]);
      ReceivesStays(ends.near, l.near, w, ch, l.back[ch]);
    }
  }

  lemma OnwardReady(self: Self, v: View, w: View)
    requires Onward(self, v, w)
    ensures Ready(w, self)
  {
  }

  lemma SendersStay(c: E.Config, ends: Ends, l: Link, w: View)
    requires Ready(l.near, ends.near) && Ready(l.far, ends.far) && c.output.maxDataLength >= 6
    requires FlowsOk(c, ends.near, ends.far, l.near, l.far, l.out) && Onward(ends.near, l.near, w)
    requires w.channels.outputs == l.near.channels.outputs
    ensures FlowsOk(c, ends.near, ends.far, w, l.far, l.out)
  {
    hide PacketFrame, AckFrame, StageOf, E.Inv, Surfaced, AtRest, Onward;
    OnwardReady(ends.near, l.near, w);
    forall ch | 0 <= ch < 4
      ensures FlowOk(c, ends.near, ends.far, w, l.far, ch, l.out[ch])
    {
      assert FlowOk(c, ends.near, ends.far, l.near, l.far, ch, l.out[ch]);
      SendsStays(ends.near, l.near, w, ch, l.out[ch]);
    }
  }

  /** What a session does when its channels tick and are flushed. */
  lemma FlushedTicks(self: Self, v: View, h: View, inputs: Inputs, now: nat)
    requires Ready(v, self) && Ready(h, self) && h.state != Negotiating && Onward(self, v, h) && h.channels == v.channels
    requires inputs == v.channels.inputs || inputs == TickedInputs(v.channels.inputs, now)
    ensures var c := ChannelPair(inputs, TickedOutputs(v.channels.outputs, now));
            var w := Flush(self, h.(channels := c));
            && Extends(v.trace, w.trace) && w == h.(channels := Flushed(c), trace := w.trace)
            && (forall ch | 0 <= ch < 4 ::
                  && (v.channels.outputs[ch].Some? ==>
                        forall p | p in RO.RunTick(v.channels.outputs[ch].value, now).outgoing :: Send(PacketFrame(Framing(self, v.params), ch, p)) in w.trace)
                  && (inputs[ch].Some? ==> forall a | a in inputs[ch].value.outgoing :: Send(AckFrame(Framing(self, v.params), ch, a)) in w.trace))
  {
    hide PacketFrame, AckFrame, StageOf, RO.RunTick, RI.InputTick, Surfaced, OutputsOk, FlushAllActs;
    var c := ChannelPair(inputs, TickedOutputs(v.channels.outputs, now));
    var f := Framing(self, h.params);
    SameFraming(self, v.params, h.params);
    FlushIsQuiet(f, 4, c);
    TickKeepsData(v.channels.inputs, now);
    var acts := FlushAllActs(f, 4, c);
    assert forall k | |h.trace| <= k < |h.trace + acts| :: (h.trace + acts)[k] == acts[k - |h.trace|];
    forall ch | 0 <= ch < 4
      ensures c.outputs[ch].Some? ==> forall p | p in c.outputs[ch].value.outgoing :: Send(PacketFrame(f, ch, p)) in h.trace + acts
      ensures c.inputs[ch].Some? ==> forall a | a in c.inputs[ch].value.outgoing :: Send(AckFrame(f, ch, a)) in h.trace + acts
    {
      FlushSendsAll(f, c, ch);
    }
  }

  /** Either way a session can go on that neither takes nor makes reliable data: its channels stay, or it ends
      after a last tick. */
  ghost predicate Harmless(self: Self, v: View, w: View, now: nat)
    requires Ready(v, self)
  {
    || (w.state == Running && Onward(self, v, w) && w.channels == v.channels)
    || (w.state == Terminated && SendersTicked(self, v, w, now) && w.channels.inputs == v.channels.inputs)
  }

  /** An end ticks the senders once more. */
  lemma EndsHarmlessly(self: Self, v: View, h: View, e: Ending, now: nat)
    requires Ready(v, self) && Ready(h, self) && h.state == Running && Onward(self, v, h) && h.channels == v.channels
    ensures Harmless(self, v, End(self, h, e, now), now)
  {
    hide PacketFrame, AckFrame, StageOf, RO.RunTick, Surfaced, OutputsOk, DisconnectDatagram, Flush, EndedBy;
    FlushedTicks(self, v, h, v.channels.inputs, now);
    EndKeeps(self, h, e, now);
    FlushedInputsStay(v.channels);
    assert LastTick(h, now) == ChannelPair(v.channels.inputs, TickedOutputs(v.channels.outputs, now));
  }

  lemma FlushedInputsStay(c: ChannelPair)
    requires AllFlushed(c)
    ensures seq(|c.inputs|, i requires 0 <= i < |c.inputs| => FlushedInput(c.inputs[i])) == c.inputs
  {
  }

  lemma TickTicks(self: Self, v: View, now: nat)
    requires Ready(v, self) && v.state == Running
    ensures var w := Tick(self, v, now);
            && SendersTicked(self, v, w, now)
            && (if Expired(v, now) then w.channels.inputs == v.channels.inputs && w.state == Terminated
                else ReceiversTicked(self, v, w, now) && w.state == Running)
  {
    hide PacketFrame, AckFrame, StageOf, RO.RunTick, RI.InputTick, Surfaced, OutputsOk, Expired, HeartbeatActs, EndedBy, Flush, AllFlushed;
    var h := Do(v, HeartbeatActs(self, v, now));
    BeatsHarmlessly(self, v, now);
    TickKeeps(self, v, now);
    if Expired(v, now) {
      EndsHarmlessly(self, v, h, Ending(Timeout, false, false), now);
    } else {
      FlushedTicks(self, v, h, TickedInputs(v.channels.inputs, now), now);
    }
  }

  lemma BeatsHarmlessly(self: Self, v: View, now: nat)
    requires Ready(v, self) && v.state == Running
    ensures var h := Do(v, HeartbeatActs(self, v, now)); Ready(h, self) && Onward(self, v, h)
  {
    hide StageOf, OutputsOk, AllFlushed, Protocol.FrameContextual;
    HeartbeatKeeps(self, v, now);
  }

  // ----- Other datagrams ---------------------------------------------------------------------

  lemma HearsHarmlessly(self: Self, v: View, now: nat)
    requires Ready(v, self) && v.state == Running
    ensures var h := Heard(v, now);
            && Ready(h, self) && h.state == Running && h.channels == v.channels && h.params == v.params && Onward(self, v, h)
            && StageOf(h.trace) == Open && Onward(self, v, v)
  {
    hide StageOf, OutputsOk, AllFlushed;
    HeardKeeps(self, v, now);
  }

  /** A handshake packet ends a running session, or is none of its business. */
  lemma ShakesHarmlessly(self: Self, v: View, h: View, op: Protocol.OpCode, body: bytes, random: nat, now: nat)
    requires Ready(v, self) && Ready(h, self) && h.state == Running && Onward(self, v, h) && h.channels == v.channels
    ensures CanShake(self, h, op, body, now) && Harmless(self, v, Shake(self, h, op, body, random, now), now)
  {
    hide StageOf, OutputsOk, AllFlushed, End, ParseRequest, ParseResponse, SendersTicked, Harmless, Sound;
    var e := HandshakeVerdict(self, h, op, body);
    if e.Some? {
      var r := ParseRequest(body);
      var w := if op == Protocol.SessionRequest && self.mode == Server && r.Some?
               then h.(params := h.params.(remoteUdpLength := r.value.udpLength), sessionId := r.value.sessionId) else h;
      Renamed(self, v, h, w);
      EndsHarmlessly(self, v, w, e.value, now);
    } else {
      StaysHarmlessly(self, v, h, now);
    }
  }

  lemma StaysHarmlessly(self: Self, v: View, h: View, now: nat)
    requires Ready(v, self) && h.state == Running && Onward(self, v, h) && h.channels == v.channels
    ensures Harmless(self, v, h, now)
  {
  }

  lemma Renamed(self: Self, v: View, h: View, w: View)
    requires Ready(h, self) && Onward(self, v, h) && Same(w.params, h.params)
    requires w == h.(params := w.params, sessionId := w.sessionId)
    ensures Ready(w, self) && Onward(self, v, w)
  {
  }

  /** So does a packet that is none of a reliable channel. */
  lemma DealsHarmlessly(self: Self, v: View, h: View, op: Protocol.OpCode, ch: nat, body: bytes, now: nat)
    requires Ready(v, self) && Ready(h, self) && h.state == Running && Onward(self, v, h) && h.channels == v.channels && ch < 4
    requires op != Protocol.MultiPacket && !Protocol.HasChannels(op)
    ensures Harmless(self, v, DealWith(self, h, op, ch, body, now), now)
  {
    hide StageOf, OutputsOk, AllFlushed, End, Protocol.FrameContextual, SendersTicked, Harmless, Sound, Deal;
    match Protocol.Decompress(Framing(self, h.params), self.inflate, body)
    case Empty => StaysHarmlessly(self, v, h, now);
    case NotInflatable => EndsHarmlessly(self, v, h, CORRUPT, now);
    case Plain(payload) =>
      var o := Deal(self, h.params, h.channels, op, ch, payload, now);
      OutcomeIs(self, h.params, h.channels, op, ch, payload, now);
      var done := Do(h, o.acts).(channels := o.channels);
      Answers(self, v, h, o.acts);
      if o.ending.Some? { EndsHarmlessly(self, v, done, o.ending.value, now); } else { StaysHarmlessly(self, v, done, now); }
  }

  lemma OutcomeIs(self: Self, p: Parameters, c: ChannelPair, op: Protocol.OpCode, ch: nat, body: bytes, now: nat)
    requires Usable(p) && Four(c) && ch < 4 && op != Protocol.MultiPacket && !Protocol.HasChannels(op)
    ensures var o := Deal(self, p, c, op, ch, body, now);
            o.channels == c && (o.acts == [] || (|o.acts| == 1 && o.acts[0].Send?))
  {
    hide Protocol.FrameContextual;
  }

  lemma Answers(self: Self, v: View, h: View, acts: seq<Act>)
    requires Ready(h, self) && h.state == Running && Onward(self, v, h) && (acts == [] || (|acts| == 1 && acts[0].Send?))
    ensures Ready(Do(h, acts), self) && Onward(self, v, Do(h, acts))
  {
    hide StageOf, OutputsOk, AllFlushed;
    QuietStage(h.trace, acts);
  }

  lemma OtherArrives(self: Self, v: View, datagram: bytes, random: nat, now: nat)
    requires Ready(v, self) && v.state == Running && OtherKind(Protocol.Classify(Framing(self, v.params), true, datagram))
    ensures Harmless(self, v, Taken(self, v, datagram, random, now), now)
  {
    hide StageOf, OutputsOk, AllFlushed, End, Shake, DealWith, SendersTicked, Harmless, Protocol.Classify, Onward, Flush, Sound, Heard;
    HearsHarmlessly(self, v, now);
    var h := Heard(v, now);
    match Protocol.Classify(Framing(self, v.params), true, datagram)
    case Corrupt => EndsHarmlessly(self, v, v, CORRUPT, now);
    case Dropped => StaysHarmlessly(self, v, v, now);
    case Unreliable(payload) => Surfaces(self, v, h, payload, now);
    case Contextless(op, body) =>
      ShakesHarmlessly(self, v, h, op, body, random, now);
      ShakeKeepsChannels(self, h, op, body, random, now);
      IdleFlush(self, Shake(self, h, op, body, random, now));
    case Contextual(op, ch, body) =>
      DealsHarmlessly(self, v, h, op, ch, body, now);
      HarmlessFlush(self, v, DealWith(self, h, op, ch, body, now), now);
  }

  lemma HarmlessFlush(self: Self, v: View, w: View, now: nat)
    requires Ready(v, self) && Harmless(self, v, w, now)
    ensures Four(w.channels) && AllFlushed(w.channels) && Flush(self, w) == w
  {
    hide StageOf, Flush, PacketFrame;
    IdleFlush(self, w);
  }

  lemma Surfaces(self: Self, v: View, h: View, payload: bytes, now: nat)
    requires Ready(v, self) && Ready(h, self) && h.state == Running && Onward(self, v, h) && h.channels == v.channels
    requires StageOf(h.trace) == Open
    ensures Harmless(self, v, Do(h, [Receive(ReceivedData(payload, SessionTrace.Unreliable))]), now)
  {
    hide StageOf, OutputsOk, AllFlushed;
    SurfaceKeeps(self, h, ReceivedData(payload, SessionTrace.Unreliable));
  }

  // ----- Acknowledgements --------------------------------------------------------------------

  lemma TakeAckKeeps(c: E.Config, ends: Ends, l: Link, ch: nat, now: nat)
    requires Ready(l.near, ends.near) && Ready(l.far, ends.far) && l.near.state == Running && E.WellConfigured(c) && E.WindowsAgree(c)
    requires FlowsOk(c, ends.near, ends.far, l.near, l.far, l.out) && |l.back| == 4 && Allowed(ends.near, l, TakeAck(ch, now))
    ensures var l' := Live(ends.near, l, TakeAck(ch, now));
            && Onward(ends.near, l.near, l'.near) && l'.near.channels.inputs == l.near.channels.inputs && l'.near.state == Running
            && |l'.out| == 4 && FlowsOk(c, ends.near, ends.far, l'.near, l'.far, l'.out)
  {
    hide StageOf, E.Inv, E.Acked, PacketFrame, AckFrame, Surfaced, E.Enabled, OutputsOk, AllFlushed, Sound, E.WellConfigured;
    var self, a, l' := ends.near, l.out[ch].acks[0], Live(ends.near, l, TakeAck(ch, now));
    AlwaysRoomy(c);
    AckTaken(self, l.near, ch, a, now);
    forall k | 0 <= k < 4
      ensures FlowOk(c, self, ends.far, l'.near, l'.far, k, l'.out[k])
    {
      assert FlowOk(c, self, ends.far, l.near, l.far, k, l.out[k]);
      if k == ch {
        AckOn(c, self, l.near, l'.near, ch, l.out[ch], now);
      } else {
        SendsStays(self, l.near, l'.near, k, l.out[k]);
      }
    }
  }

  lemma AckOn(c: E.Config, self: Self, v: View, w: View, ch: nat, s: E.System, now: nat)
    requires E.WellConfigured(c) && E.WindowsAgree(c) && E.Inv(c, s) && s.acks != []
    requires Ready(v, self) && ch < 4 && SendsOn(self, v, ch, s) && Onward(self, v, w) && w.params == v.params
    requires w.channels.outputs[ch] == Some(E.Acked(s.sender, s.acks[0], now))
    ensures var s' := E.Next(s, E.DeliverAck(now));
            E.Inv(c, s') && SendsOn(self, w, ch, s') && s' == s.(sender := s'.sender, acks := s'.acks)
  {
    hide StageOf, E.Inv, E.Acked, PacketFrame, Surfaced, OutputsOk, AllFlushed, Sound, E.WellConfigured;
    E.DeliverAckKeepsInv(c, s, now);
    ExtendsKeepsSurfaced(v.trace, w.trace, ch);
  }

  lemma AlwaysRoomy(c: E.Config)
    requires E.WellConfigured(c)
    ensures c.output.maxDataLength >= 6
  {
  }

  lemma AckTaken(self: Self, v: View, ch: nat, a: RI.Ack, now: nat)
    requires Ready(v, self) && v.state == Running && ch < 4
    ensures var w := Taken(self, v, AckFrame(Framing(self, v.params), ch, a), 0, now);
            && Onward(self, v, w) && w.state == Running && w.params == v.params
            && w.channels == v.channels.(outputs := v.channels.outputs[ch := Some(E.Acked(OutputOr(v.params, self.cipher, v.channels.outputs[ch]), a, now))])
  {
    hide StageOf, TakeIn, E.Acked, AckFrame, OutputsOk, AllFlushed, Heard, EndedBy, CanTakeIn, DatagramVerdict;
    HearsHarmlessly(self, v, now);
    AckArrives(self, v, ch, a, 0, now);
    TakeInKeeps(self, v, AckFrame(Framing(self, v.params), ch, a), 0, now);
  }

  // ----- Packets -----------------------------------------------------------------------------

  /** The time of the last ack-all matters to the state of no direction. */
  lemma TimeIsFree(c: E.Config, s: E.System, time: nat)
    requires c.output.maxDataLength >= 6 && E.Inv(c, s)
    ensures E.Inv(c, s.(receiver := s.receiver.(lastAckAllTime := time)))
  {
    hide DataCodec.AcceptAll, DataCodec.EncodeAll, DataCodec.AllFit;
    var r := s.receiver.(lastAckAllTime := time);
    assert forall t :: E.Accepted(r, t) <==> E.Accepted(s.receiver, t);
    forall i | 0 <= i < |s.acks|
      ensures E.AckOk(c, s.sender.maxClientSequence, r, s.acks[i])
    {
      assert E.AckOk(c, s.sender.maxClientSequence, s.receiver, s.acks[i]);
    }
  }

  lemma {:induction false} BodiesAreNotEmpty(cipher: Option<Cipher>, maxDataLength: nat, messages: seq<bytes>)
    requires maxDataLength >= 6
    ensures forall item | item in DataCodec.EncodeAll(cipher, maxDataLength, messages).items :: item.body != []
  {
    hide DataCodec.Fragments;
    if messages != [] {
      var n := |messages| - 1;
      BodiesAreNotEmpty(cipher, maxDataLength, messages[..n]);
      var before := DataCodec.EncodeAll(cipher, maxDataLength, messages[..n]);
      if messages[n] != [] { DataCodec.FragmentsFit(maxDataLength, DataCodec.WireUnit(before.cipher, messages[n])); }
    }
  }

  lemma PayloadsAreLong(c: E.Config, s: E.System, d: E.Datagram)
    requires c.output.maxDataLength >= 6 && E.Inv(c, s) && d in s.network
    ensures |d.packet.payload| >= 3
  {
    hide DataCodec.AcceptAll, DataCodec.EncodeAll, DataCodec.AllFit, U16;
    BodiesAreNotEmpty(c.cipher, c.output.maxDataLength, s.enqueued);
    assert E.History(c, s)[d.sequence] in E.History(c, s);
  }

  /** What taking in a packet of one channel surfaces and leaves. */
  lemma PacketTaken(self: Self, v: View, ch: nat, p: RO.OutgoingReliable, now: nat)
    requires Ready(v, self) && v.state == Running && ch < 4 && |p.payload| >= 3 && Arrived(self, v, ch, p, now).ok
    ensures var r := Arrived(self, v, ch, p, now).state;
            var w := TakenPacket(self, v, ch, p, now);
            && Ready(w, self) && w.state == Running && w.params == v.params && v.trace <= w.trace
            && w.channels == v.channels.(inputs := v.channels.inputs[ch := Some(RI.Drain(r))])
            && (forall a | a in r.outgoing :: Send(AckFrame(Framing(self, v.params), ch, a)) in w.trace)
            && (forall k | 0 <= k < 4 :: Surfaced(w.trace, k) == Surfaced(v.trace, k) + if k == ch then r.appData else [])
  {
    hide StageOf, TakeIn, RI.Receive, PacketFrame, AckFrame, OutputsOk, AllFlushed, EndedBy, CanTakeIn, DatagramVerdict, AckActs, DataActs, Heard, Surfaced, Sound;
    var f, r, h := Framing(self, v.params), Arrived(self, v, ch, p, now).state, Heard(v, now);
    HearsHarmlessly(self, v, now);
    PacketArrives(self, v, ch, p, 0, now);
    TakeInKeeps(self, v, PacketFrame(f, ch, p), 0, now);
    var call := Call(ChannelCall(if p.kind == RO.ReliableDataFragment then Protocol.ReliableDataFragment else Protocol.ReliableData, ch, p.payload));
    PacketSurfaces(f, v.trace, h.trace, call, ch, r.outgoing, r.appData);
  }

  lemma PacketSurfaces(f: Protocol.Codec, before: seq<Act>, heard: seq<Act>, call: Act, at: nat, acks: seq<RI.Ack>, data: seq<bytes>)
    requires f.crcLength <= 4 && at < 4 && Extends(before, heard) && call.Call?
    ensures var trace := heard + ([call] + AckActs(f, at, acks) + DataActs(at, data));
            && before <= trace
            && (forall a | a in acks :: Send(AckFrame(f, at, a)) in trace)
            && (forall k | 0 <= k < 4 :: Surfaced(trace, k) == Surfaced(before, k) + if k == at then data else [])
  {
    hide AckFrame, AckActs, DataActs, Surfaced;
    var sent, got := [call] + AckActs(f, at, acks), DataActs(at, data);
    FlushSends(f, at, acks, []);
    forall a | a in acks
      ensures Send(AckFrame(f, at, a)) in sent
    {
      var k :| 0 <= k < |acks| && acks[k] == a;
      assert sent[k + 1] == AckActs(f, at, acks)[k];
    }
    forall k | 0 <= k < 4
      ensures Surfaced(heard + (sent + got), k) == Surfaced(before, k) + if k == at then data else []
    {
      ExtendsKeepsSurfaced(before, heard, k);
      SurfacedAppend(heard, sent + got, k);
      SurfacedAppend(sent, got, k);
      SurfacedNone(sent, k);
      SurfacedData(at, data, k);
      assert Surfaced(before, k) + ([] + Surfaced(got, k)) == Surfaced(before, k) + Surfaced(got, k);
    }
  }

  /** The direction the packet belongs to takes its step. */
  lemma PacketOn(c: E.Config, self: Self, v: View, ch: nat, s: E.System, d: E.Datagram, now: nat)
    requires E.WellConfigured(c) && E.Inv(c, s) && Ready(v, self) && v.state == Running && ch < 4 && ReceivesOn(self, v, ch, s)
    requires E.Enabled(WithReceiver(self, v, ch, s, now), E.DeliverData(d, now))
    ensures var s', w := Delivered(self, v, ch, s, d, now), TakenPacket(self, v, ch, d.packet, now);
            && E.Inv(c, s') && |d.packet.payload| >= 3 && Arrived(self, v, ch, d.packet, now).ok
            && Ready(w, self) && ReceivesOn(self, w, ch, s') && s'.sender == s.sender && s'.network == s.network
  {
    hide StageOf, E.Inv, RI.Receive, PacketFrame, AckFrame, Surfaced, OutputsOk, AllFlushed, Sound, E.WellConfigured, TakeIn;
    AlwaysRoomy(c);
    var s1 := WithReceiver(self, v, ch, s, now);
    TimeIsFree(c, s, s1.receiver.lastAckAllTime);
    assert s1 == s.(receiver := s.receiver.(lastAckAllTime := s1.receiver.lastAckAllTime));
    E.DeliverDataKeepsInv(c, s1, d, now);
    NotCorrupt(c, E.Next(s1, E.DeliverData(d, now)));
    PayloadsAreLong(c, s, d);
    PacketTaken(self, v, ch, d.packet, now);
  }

  lemma NotCorrupt(c: E.Config, s: E.System)
    requires c.output.maxDataLength >= 6 && E.Inv(c, s)
    ensures !s.corrupt
  {
  }

  lemma TakePacketKeeps(c: E.Config, c': E.Config, ends: Ends, l: Link, ch: nat, d: E.Datagram, now: nat)
    requires Ready(l.near, ends.near) && Ready(l.far, ends.far) && l.near.state == Running && E.WellConfigured(c) && E.WellConfigured(c')
    requires FlowsOk(c, ends.near, ends.far, l.near, l.far, l.out) && FlowsOk(c', ends.far, ends.near, l.far, l.near, l.back)
    requires Allowed(ends.near, l, TakePacket(ch, d, now))
    ensures var l' := Live(ends.near, l, TakePacket(ch, d, now));
            && Ready(l'.near, ends.near) && l'.near.state == Running && l'.near.params == l.near.params
            && |l'.out| == 4 && |l'.back| == 4
            && FlowsOk(c, ends.near, ends.far, l'.near, l'.far, l'.out) && FlowsOk(c', ends.far, ends.near, l'.far, l'.near, l'.back)
  {
    hide StageOf, E.Inv, PacketFrame, AckFrame, Surfaced, E.Enabled, E.Next, OutputsOk, AllFlushed, Sound, Arrived, TakenPacket, AtRest, Delivered;
    var self, l' := ends.near, Live(ends.near, l, TakePacket(ch, d, now));
    assert FlowOk(c', ends.far, self, l.far, l.near, ch, l.back[ch]);
    PacketOn(c', self, l.near, ch, l.back[ch], d, now);
    PacketTaken(self, l.near, ch, d.packet, now);
    forall k | 0 <= k < 4
      ensures FlowOk(c, self, ends.far, l'.near, l'.far, k, l'.out[k])
      ensures FlowOk(c', ends.far, self, l'.far, l'.near, k, l'.back[k])
    {
      assert FlowOk(c, self, ends.far, l.near, l.far, k, l.out[k]);
      assert FlowOk(c', ends.far, self, l.far, l.near, k, l.back[k]);
    }
  }

  // ----- All moves ---------------------------------------------------------------------------

  lemma LossKeeps(c: E.Config, ends: Ends, l: Link, m: Move)
    requires Ready(l.near, ends.near) && Ready(l.far, ends.far) && E.WellConfigured(c) && (m.LosePackets? || m.LoseAck?)
    requires FlowsOk(c, ends.near, ends.far, l.near, l.far, l.out) && |l.back| == 4 && Allowed(ends.near, l, m)
    ensures |Step(ends.near, l, m).out| == 4 && FlowsOk(c, ends.near, ends.far, l.near, l.far, Step(ends.near, l, m).out)
  {
    hide StageOf, E.Inv, PacketFrame, AckFrame, Surfaced, AtRest;
    AlwaysRoomy(c);
    var a := if m.LosePackets? then E.LoseData(m.lost) else E.LoseAck(m.index);
    forall ch | 0 <= ch < 4
      ensures FlowOk(c, ends.near, ends.far, l.near, l.far, ch, Step(ends.near, l, m).out[ch])
    {
      assert FlowOk(c, ends.near, ends.far, l.near, l.far, ch, l.out[ch]);
      if ch == m.ch { E.LossKeepsInv(c, l.out[ch], a); }
    }
  }

  lemma OnwardSame(self: Self, v: View, w: View, p: Parameters)
    requires Onward(self, v, w) && Same(v.params, p)
    ensures Ready(w, self) && Same(w.params, p) && w.state != Negotiating
  {
  }

  lemma StepKeepsLinked(ends: Ends, p: Parameters, q: Parameters, l: Link, m: Move)
    requires Matched(ends, p, q) && Linked(ends, p, q, l) && Allowed(ends.near, l, m)
    ensures Linked(ends, p, q, Step(ends.near, l, m))
  {
    hide E.WellConfigured, E.WindowsAgree, FlowsOk, AtRest, Onward, SendersTicked, ReceiversTicked, Allowed, Taken, TakenPacket;
    hide Tick, End, Enqueue, Same, Framing, Expired, Delivered, ChannelFor;
    AlwaysRoomy(Flow(p, q, ends.near.cipher));
    AlwaysRoomy(Flow(q, p, ends.far.cipher));
    if m.LosePackets? || m.LoseAck? {
      LossKeeps(Flow(p, q, ends.near.cipher), ends, l, m);
    } else if l.near.state == Running {
      LiveKeepsLinked(ends, p, q, l, m);
    }
  }

  lemma LiveKeepsLinked(ends: Ends, p: Parameters, q: Parameters, l: Link, m: Move)
    requires Matched(ends, p, q) && Linked(ends, p, q, l) && Allowed(ends.near, l, m) && l.near.state == Running
    requires !m.LosePackets? && !m.LoseAck?
    ensures Linked(ends, p, q, Live(ends.near, l, m))
  {
    hide E.WellConfigured, E.WindowsAgree, FlowsOk, AtRest, Onward, SendersTicked, ReceiversTicked, Taken, TakenPacket;
    hide Tick, End, Enqueue, Same, Framing, Expired, Delivered, ChannelFor, E.Enabled, OtherKind, Protocol.Classify;
    var c, c', self, l' := Flow(p, q, ends.near.cipher), Flow(q, p, ends.far.cipher), ends.near, Live(ends.near, l, m);
    AlwaysRoomy(c);
    AlwaysRoomy(c');
    match m
    case Offer(data, channel) =>
      OfferKeeps(c, ends, l, data, channel);
      OnwardSame(self, l.near, l'.near, p);
      ReceiversStay(c', ends, l, l'.near);
    case RunTick(now) =>
      TickTicks(self, l.near, now);
      TickedOnward(self, l.near, l'.near, now);
      OnwardSame(self, l.near, l'.near, p);
      SendersKeep(c, ends, l, l'.near, now);
      if Expired(l.near, now) { ReceiversStay(c', ends, l, l'.near); } else { ReceiversKeep(c', ends, l, l'.near, now); }
    case TakePacket(ch, d, now) => TakePacketKeeps(c, c', ends, l, ch, d, now);
    case TakeAck(ch, now) =>
      TakeAckKeeps(c, ends, l, ch, now);
      OnwardSame(self, l.near, l'.near, p);
      ReceiversStay(c', ends, l, l'.near);
    case TakeOther(datagram, random, now) =>
      OtherArrives(self, l.near, datagram, random, now);
      HarmlessKeeps(c, c', ends, l, l'.near, now, p);
    case Quit(reason, notify, now) =>
      StaysReady(self, l.near);
      EndsHarmlessly(self, l.near, l.near, Ending(reason, notify, false), now);
      HarmlessKeeps(c, c', ends, l, l'.near, now, p);
  }

  lemma StaysReady(self: Self, v: View)
    requires Ready(v, self) && v.state == Running
    ensures Onward(self, v, v)
  {
  }

  lemma TickedOnward(self: Self, v: View, w: View, now: nat)
    requires Ready(v, self) && SendersTicked(self, v, w, now)
    ensures Onward(self, v, w)
  {
  }

  lemma HarmlessKeeps(c: E.Config, c': E.Config, ends: Ends, l: Link, w: View, now: nat, p: Parameters)
    requires Ready(l.near, ends.near) && Ready(l.far, ends.far) && E.WellConfigured(c) && c'.output.maxDataLength >= 6
    requires FlowsOk(c, ends.near, ends.far, l.near, l.far, l.out) && FlowsOk(c', ends.far, ends.near, l.far, l.near, l.back)
    requires Harmless(ends.near, l.near, w, now) && Same(l.near.params, p)
    ensures Ready(w, ends.near) && Same(w.params, p) && w.state != Negotiating && c.output.maxDataLength >= 6
    ensures FlowsOk(c, ends.near, ends.far, w, l.far, if w.state == Terminated then SendersTick(l.out, now) else l.out)
    ensures FlowsOk(c', ends.far, ends.near, l.far, w, l.back)
  {
    hide FlowsOk, AtRest, Onward, SendersTicked, Same, Usable;
    AlwaysRoomy(c);
    if w.state == Terminated {
      TickedOnward(ends.near, l.near, w, now);
      SendersKeep(c, ends, l, w, now);
    } else {
      SendersStay(c, ends, l, w);
    }
    OnwardSame(ends.near, l.near, w, p);
    ReceiversStay(c', ends, l, w);
  }

  // ----- Runs --------------------------------------------------------------------------------

  /** A move of one of the ends. */
  datatype Turn = Turn(byNear: bool, move: Move)

  ghost predicate Steady(ends: Ends, l: Link) {
    Ready(l.near, ends.near) && Ready(l.far, ends.far) && |l.out| == 4 && |l.back| == 4
  }

  ghost predicate CanMove(ends: Ends, l: Link, t: Turn)
    requires Steady(ends, l)
  {
    if t.byNear then Allowed(ends.near, l, t.move) else Allowed(ends.far, Flip(l), t.move)
  }

  ghost function Moved(ends: Ends, l: Link, t: Turn): Link
    requires Steady(ends, l) && CanMove(ends, l, t)
  {
    if t.byNear then Step(ends.near, l, t.move) else Flip(Step(ends.far, Flip(l), t.move))
  }

  /** Turns that can happen, one after the other. */
  ghost predicate Possible(ends: Ends, l: Link, turns: seq<Turn>)
    decreases |turns|, 0
  {
    turns == [] ||
    var before := turns[..|turns| - 1];
    && Possible(ends, l, before) && Steady(ends, Play(ends, l, before))
    && CanMove(ends, Play(ends, l, before), turns[|turns| - 1])
  }

  ghost function Play(ends: Ends, l: Link, turns: seq<Turn>): Link
    requires Possible(ends, l, turns)
    decreases |turns|, 1
  {
    if turns == [] then l else Moved(ends, Play(ends, l, turns[..|turns| - 1]), turns[|turns| - 1])
  }

  lemma LinkedIsSteady(ends: Ends, p: Parameters, q: Parameters, l: Link)
    requires Matched(ends, p, q) && Linked(ends, p, q, l)
    ensures Steady(ends, l)
  {
  }

  lemma MovedKeepsLinked(ends: Ends, p: Parameters, q: Parameters, l: Link, t: Turn)
    requires Matched(ends, p, q) && Linked(ends, p, q, l) && Steady(ends, l) && CanMove(ends, l, t)
    ensures Linked(ends, p, q, Moved(ends, l, t))
  {
    hide Matched, Linked, Ready, Step, Allowed;
    if t.byNear {
      StepKeepsLinked(ends, p, q, l, t.move);
    } else {
      FlippedLink(ends, p, q, l);
      StepKeepsLinked(Other(ends), q, p, Flip(l), t.move);
      FlippedLink(Other(ends), q, p, Step(ends.far, Flip(l), t.move));
    }
  }

  /** Every direction of every channel stays a state of EndToEnd, and either end is always ready for more. */
  lemma {:induction false} LinkHolds(ends: Ends, p: Parameters, q: Parameters, l: Link, turns: seq<Turn>)
    requires Matched(ends, p, q) && Linked(ends, p, q, l) && Possible(ends, l, turns)
    ensures Linked(ends, p, q, Play(ends, l, turns)) && Steady(ends, Play(ends, l, turns))
    decreases |turns|
  {
    hide Matched, Linked, CanMove, Moved, Steady;
    LinkedIsSteady(ends, p, q, l);
    if turns != [] {
      var before := turns[..|turns| - 1];
      LinkHolds(ends, p, q, l, before);
      MovedKeepsLinked(ends, p, q, Play(ends, l, before), turns[|turns| - 1]);
      LinkedIsSteady(ends, p, q, Play(ends, l, turns));
    }
  }

  // ----- The theorems ------------------------------------------------------------------------

  /** One direction of one channel. */
  lemma FlowDelivers(c: E.Config, from: Self, to: Self, sender: View, receiver: View, ch: nat, s: E.System)
    requires Four(sender.channels) && Usable(sender.params) && Four(receiver.channels) && Usable(receiver.params) && ch < 4
    requires E.WellConfigured(c) && FlowOk(c, from, to, sender, receiver, ch, s)
    ensures Surfaced(receiver.trace, ch) <= DataCodec.SurfacedAll(c.cipher, s.enqueued)
    ensures DataCodec.Intact(c.cipher, s.enqueued) ==> Surfaced(receiver.trace, ch) <= s.enqueued
  {
    hide DataCodec.AcceptAll, DataCodec.EncodeAll, DataCodec.AllFit, Surfaced, PacketFrame, AckFrame;
    E.HistoryIsAccepted(c, s);
    DataCodec.AcceptedPrefix(DataCodec.Idle(c.cipher), E.History(c, s), s.receiver.windowStart);
    DataCodec.SurfacedIntactIff(c.cipher, s.enqueued);
  }

  /** Whatever the network does, on every reliable channel and in both directions a session surfaces a prefix of
      what the other was given to send: exactly once, in order, intact. */
  lemma SessionsDeliverInOrder(ends: Ends, p: Parameters, q: Parameters, l: Link, turns: seq<Turn>, ch: nat)
    requires Matched(ends, p, q) && Linked(ends, p, q, l) && Possible(ends, l, turns) && ch < 4
    ensures var l' := Play(ends, l, turns);
            && |l'.out| == 4 && |l'.back| == 4
            && Surfaced(l'.far.trace, ch) <= DataCodec.SurfacedAll(ends.near.cipher, l'.out[ch].enqueued)
            && Surfaced(l'.near.trace, ch) <= DataCodec.SurfacedAll(ends.near.cipher, l'.back[ch].enqueued)
            && (DataCodec.Intact(ends.near.cipher, l'.out[ch].enqueued) ==> Surfaced(l'.far.trace, ch) <= l'.out[ch].enqueued)
            && (DataCodec.Intact(ends.near.cipher, l'.back[ch].enqueued) ==> Surfaced(l'.near.trace, ch) <= l'.back[ch].enqueued)
  {
    hide Play, E.WellConfigured, E.WindowsAgree, FlowOk, Surfaced, AtRest;
    LinkHolds(ends, p, q, l, turns);
    var l' := Play(ends, l, turns);
    FlowDelivers(Flow(p, q, ends.near.cipher), ends.near, ends.far, l'.near, l'.far, ch, l'.out[ch]);
    FlowDelivers(Flow(q, p, ends.far.cipher), ends.far, ends.near, l'.far, l'.near, ch, l'.back[ch]);
  }

  /** A reliable packet or an acknowledgement of the peer never ends a session. */
  lemma ReliableTrafficIsSafe(ends: Ends, p: Parameters, q: Parameters, l: Link, turns: seq<Turn>, m: Move)
    requires Matched(ends, p, q) && Linked(ends, p, q, l) && Possible(ends, l, turns)
    requires Steady(ends, Play(ends, l, turns)) && Allowed(ends.near, Play(ends, l, turns), m) && (m.TakePacket? || m.TakeAck?)
    ensures Step(ends.near, Play(ends, l, turns), m).near.state == Play(ends, l, turns).near.state
  {
    hide Play, E.WellConfigured, E.WindowsAgree, FlowsOk, AtRest, TakenPacket, Taken, Delivered, Same, Framing;
    LinkHolds(ends, p, q, l, turns);
    var l' := Play(ends, l, turns);
    if l'.near.state == Running {
      AlwaysRoomy(Flow(p, q, ends.near.cipher));
      AlwaysRoomy(Flow(q, p, ends.far.cipher));
      if m.TakePacket? {
        TakePacketKeeps(Flow(p, q, ends.near.cipher), Flow(q, p, ends.far.cipher), ends, l', m.ch, m.packet, m.now);
      } else {
        TakeAckKeeps(Flow(p, q, ends.near.cipher), ends, l', m.ch, m.now);
      }
    }
  }

  // ----- From the handshake on -----------------------------------------------------------------

  /** Right after the handshake nothing is on the way. */
  ghost function Fresh(client: View, server: View, cipher: Option<Cipher>): Link
    requires Usable(client.params) && Usable(server.params)
  {
    Link(client, server, seq(4, _ => E.Start(Flow(client.params, server.params, cipher))),
                         seq(4, _ => E.Start(Flow(server.params, client.params, cipher))))
  }

  lemma StartsIn(c: E.Config)
    requires E.WellConfigured(c) && E.WindowsAgree(c)
    ensures c.output.maxDataLength >= 6 && E.Inv(c, E.Start(c))
  {
    E.InvHolds(c, []);
  }

  lemma HandshakeLinks(ends: Ends, client: View, server: View, pc: Parameters, ps: Parameters, sessionId: nat, seed: nat)
    requires Agreed(client, server, pc, ps, sessionId, seed) && Ready(client, ends.near) && Ready(server, ends.far)
    requires Matched(ends, client.params, server.params)
    ensures Linked(ends, client.params, server.params, Fresh(client, server, ends.near.cipher))
  {
    hide E.Inv, E.WellConfigured, E.WindowsAgree, StageOf, PacketFrame, AckFrame, FrameRequest, FrameResponse;
    var c, c' := Flow(client.params, server.params, ends.near.cipher), Flow(server.params, client.params, ends.far.cipher);
    StartsIn(c);
    StartsIn(c');
    forall ch | 0 <= ch < 4
      ensures Surfaced(client.trace, ch) == [] && Surfaced(server.trace, ch) == []
    {
      SurfacedNone(client.trace, ch);
      SurfacedNone(server.trace, ch);
    }
  }

  /** From the first datagram to the last: once a client and a server with the same cipher and hash have shaken
      hands, and their windows are safe in both directions, all that either surfaces on a reliable channel is a
      prefix of what the other was given to send on it. */
  lemma HandshakeThenDelivery(ends: Ends, pc: Parameters, ps: Parameters, sessionId: nat, seed: nat, t: Times,
                              client: View, server: View, turns: seq<Turn>, ch: nat)
    requires ends.near.mode == Client && ends.far.mode == Server && Sized(pc) && Sized(ps) && FitsU32(sessionId) && FitsU32(seed)
    requires 0 !in ps.applicationProtocol && Exchanged(ends.near, ends.far, pc, ps, sessionId, seed, t, client, server)
    requires Matched(ends, ClientSettings(pc, ps, seed), ServerSettings(pc, ps, seed)) && ch < 4
    ensures Agreed(client, server, pc, ps, sessionId, seed)
    ensures var start := Fresh(client, server, ends.near.cipher);
            Possible(ends, start, turns) ==>
              var l := Play(ends, start, turns);
              && |l.out| == 4 && |l.back| == 4
              && (DataCodec.Intact(ends.near.cipher, l.out[ch].enqueued) ==> Surfaced(l.far.trace, ch) <= l.out[ch].enqueued)
              && (DataCodec.Intact(ends.near.cipher, l.back[ch].enqueued) ==> Surfaced(l.near.trace, ch) <= l.back[ch].enqueued)
  {
    hide Possible, Play, Surfaced, AtRest, Linked, Exchanged, E.WellConfigured, E.WindowsAgree;
    ExchangeAgrees(ends.near, ends.far, pc, ps, sessionId, seed, t, client, server);
    HandshakeLinks(ends, client, server, pc, ps, sessionId, seed);
    var start := Fresh(client, server, ends.near.cipher);
    if Possible(ends, start, turns) { SessionsDeliverInOrder(ends, client.params, server.params, start, turns, ch); }
  }
}
