/** One sending and one receiving channel joined by a network that loses, duplicates and reorders
    data packets and loses acknowledgements. Whatever the network does, the receiving application
    sees a prefix of what the sending application enqueued, through any number of wraps of the
    16-bit sequences. */
module EndToEnd {
  import opened Bytes
  import opened Rc4
  import opened DataCodec
  import opened SequenceNumbers
  import opened ReliableOutput
  import opened OutputWindow
  import opened ReliableInput

  datatype Config = Config(output: OutputConfig, input: InputConfig, cipher: Option<Cipher>, start: nat)

  /** A data packet on the network, with the full-width sequence its sender gave it. The receiver is
      handed only the packet; the sequence serves to say how old a delivered packet may be. */
  datatype Datagram = Datagram(sequence: nat, packet: OutgoingReliable)

  datatype System = System(
    sender: OutputState, receiver: InputState,
    network: set<Datagram>, acks: seq<Ack>,
    enqueued: seq<bytes>, delivered: seq<bytes>, corrupt: bool)

  /** A datagram stays on the network when it is delivered, so it may be delivered again, later and
      in any order. Acknowledgements arrive in the order they were emitted. */
  datatype Action =
    | EnqueueData(data: bytes)
    | SenderTick(now: nat)
    | DeliverData(datagram: Datagram, now: nat)
    | LoseData(lost: set<Datagram>)
    | ReceiverTick(now: nat)
    | DeliverAck(now: nat)
    | LoseAck(index: nat)

  /** The configurations the theorems speak about: the channels' own preconditions, and windows small
      enough for 16 bits. */
  ghost predicate WellConfigured(c: Config) {
    var m, w := c.input.maxQueuedIncoming, c.output.maxQueuedOutgoing;
    c.output.maxDataLength >= 6 && m >= 1 && w >= 1 && 2 * w <= 65535 && 2 * m + w <= 65535
  }

  function Start(c: Config): System {
    System(Initial(c.output, c.cipher), InitialInput(c.input, c.cipher, c.start), {}, [], [], [], false)
  }

  ghost predicate Enabled(s: System, a: Action) {
    match a
    case EnqueueData(data) =>
      && s.sender.config.maxDataLength >= 6
      && (data == [] || LengthFits(s.sender.config.maxDataLength, WireUnit(s.sender.cipher, data)))
    case DeliverData(d, _) =>
      && d in s.network
      && d.sequence > s.receiver.windowStart + s.receiver.config.maxQueuedIncoming - 65536
    case DeliverAck(_) => s.acks != []
    case LoseAck(index) => index < |s.acks|
    case _ => true
  }

  /** Hands the receiver's acknowledgements to the network and its data to the application. */
  function Flush(s: System, r: InputState): System {
    s.(receiver := Drain(r), acks := s.acks + r.outgoing, delivered := s.delivered + r.appData)
  }

  function Acked(o: OutputState, a: Ack, now: nat): OutputState {
    if a.all then AcknowledgeAll(o, a.sequence % 0x1_0000, now) else Acknowledge(o, a.sequence % 0x1_0000, now)
  }

  ghost function Next(s: System, a: Action): System
    requires Enabled(s, a)
  {
    match a
    case EnqueueData(data) =>
      s.(sender := Enqueue(s.sender, data), enqueued := s.enqueued + if data == [] then [] else [data])
    case SenderTick(now) =>
      var due, o := Due(s.sender, now), RunTick(s.sender, now);
      s.(sender := TakeOutgoing(o),
         network := s.network + set k | 0 <= k < |due| && k < |o.outgoing| :: Datagram(due[k].sequence, o.outgoing[k]))
    case DeliverData(d, now) =>
      var r := Receive(s.receiver, d.packet.kind == ReliableDataFragment, d.packet.payload, now);
      Flush(s, r.state).(corrupt := s.corrupt || !r.ok)
    case LoseData(lost) => s.(network := s.network - lost)
    case ReceiverTick(now) => Flush(s, InputTick(s.receiver, now))
    case DeliverAck(now) => s.(sender := Acked(s.sender, s.acks[0], now), acks := s.acks[1..])
    case LoseAck(index) => s.(acks := s.acks[..index] + s.acks[index + 1..])
  }

  /** A list of actions that can happen, one after the other. */
  ghost predicate Possible(c: Config, actions: seq<Action>)
    decreases |actions|, 0
  {
    actions == [] ||
    var before := actions[..|actions| - 1];
    Possible(c, before) && Enabled(Execute(c, before), actions[|actions| - 1])
  }

  ghost function Execute(c: Config, actions: seq<Action>): System
    requires Possible(c, actions)
    decreases |actions|, 1
  {
    if actions == [] then Start(c)
    else Next(Execute(c, actions[..|actions| - 1]), actions[|actions| - 1])
  }

  // ----- The invariant ---------------------------------------------------------------------

  /** Every packet that was ever queued, by sequence. */
  function History(c: Config, s: System): seq<Item>
    requires c.output.maxDataLength >= 6
  {
    EncodeAll(c.cipher, c.output.maxDataLength, s.enqueued).items
  }

  predicate IsPacket(history: seq<Item>, sequence: nat, isFragment: bool, data: bytes) {
    && sequence < |history|
    && isFragment == history[sequence].isFragment
    && data == U16(sequence) + history[sequence].body
  }

  predicate InHistory(history: seq<Item>, p: QueuedPacket) {
    IsPacket(history, p.sequence, p.isFragment, p.data)
  }

  predicate Accepted(r: InputState, sequence: int) {
    sequence < r.windowStart || sequence in r.stash
  }

  /** The sender's stream: every message fits, and the cipher and the sequence count are those after
      all of them. */
  ghost predicate StreamOk(c: Config, o: OutputState, enqueued: seq<bytes>)
    requires c.output.maxDataLength >= 6
  {
    var e := EncodeAll(c.cipher, c.output.maxDataLength, enqueued);
    && AllFit(c.cipher, c.output.maxDataLength, enqueued)
    && o.cipher == e.cipher && o.totalSequence == |e.items|
  }

  /** The queue holds true packets, among them every one above the highest acknowledged. */
  ghost predicate SenderOk(c: Config, history: seq<Item>, o: OutputState) {
    && o.config == c.output && o.outgoing == [] && o.totalSequence == |history|
    && QueueOk(o.queue, c.output.maxQueuedOutgoing, o.dispatchIndex)
    && (forall i | 0 <= i < |o.queue| :: InHistory(history, o.queue[i]))
    && (forall t: nat | o.maxClientSequence < t < |history| :: Queued(o.queue, t))
  }

  /** The receiver has consumed exactly the packets below its window and stashed true ones above. */
  ghost predicate ReceiverOk(c: Config, history: seq<Item>, r: InputState, delivered: seq<bytes>) {
    && r.config == c.input && r.outgoing == [] && r.appData == []
    && r.windowStart <= |history|
    && AcceptAll(Idle(c.cipher), history[..r.windowStart]) == Some(Decoded(r.decoder, delivered))
    && (forall k | k in r.stash ::
          r.windowStart < k <= r.windowStart + c.input.maxQueuedIncoming && k < |history| && r.stash[k] == history[k])
    && r.lastAckAll >= -1
  }

  /** No premature release: what the sender no longer holds, the receiver has. */
  ghost predicate Retained(o: OutputState, r: InputState) {
    forall t: nat | t < o.totalSequence :: Queued(o.queue, t) || Accepted(r, t)
  }

  /** What the network carries and what the receiver has is at most one window above the highest
      acknowledged sequence. */
  ghost predicate NetworkOk(c: Config, history: seq<Item>, s: System) {
    var w, limit := c.output.maxQueuedOutgoing, s.sender.maxClientSequence + c.output.maxQueuedOutgoing;
    && (forall d | d in s.network ::
          && IsPacket(history, d.sequence, d.packet.kind == ReliableDataFragment, d.packet.payload)
          && d.sequence <= limit
          && (w == 1 ==> d.sequence <= s.receiver.windowStart))
    && s.receiver.windowStart <= limit + 1
    && (forall k | k in s.receiver.stash :: k <= limit && w != 1)
  }

  /** How far an acknowledged sequence can be ahead of the receiver's window: a window of one packet
      never lets the receiver run ahead. */
  function Lead(c: Config): nat {
    if c.output.maxQueuedOutgoing == 1 then 0 else c.input.maxQueuedIncoming
  }

  /** How far an acknowledgement can be behind the receiver's window when it is emitted: one packet, by
      an ack-all, unless packets are acknowledged singly and old ones are not answered. */
  function Slack(c: Config): nat {
    if c.input.acknowledgeAllData && c.input.maxAckDelay == 0 then 0 else 1
  }

  ghost predicate AckOk(c: Config, high: nat, r: InputState, a: Ack) {
    && 0 <= a.sequence <= r.windowStart + Lead(c)
    && a.sequence >= high - Lead(c) - Slack(c)
    && (if a.all then a.sequence < r.windowStart else Accepted(r, a.sequence))
  }

  /** Acknowledgements in flight are true, and none is far behind one emitted before it; `high` is
      the highest sequence acknowledged so far. */
  ghost predicate AcksOk(c: Config, high: nat, r: InputState, acks: seq<Ack>) {
    && high <= r.windowStart + Lead(c)
    && (forall i | 0 <= i < |acks| :: AckOk(c, high, r, acks[i]))
    && (forall i, j | 0 <= i < j < |acks| :: acks[j].sequence >= acks[i].sequence - Lead(c) - Slack(c))
  }

  ghost predicate Inv(c: Config, s: System)
    requires c.output.maxDataLength >= 6
  {
    var history := History(c, s);
    && !s.corrupt
    && StreamOk(c, s.sender, s.enqueued)
    && SenderOk(c, history, s.sender)
    && ReceiverOk(c, history, s.receiver, s.delivered)
    && Retained(s.sender, s.receiver)
    && NetworkOk(c, history, s)
    && AcksOk(c, s.sender.maxClientSequence, s.receiver, s.acks)
  }

  /** Windows that are safe. Sharpness.dfy says exactly which configurations are. */
  predicate WindowsAgree(c: Config) {
    c.input.maxQueuedIncoming + Slack(c) <= c.output.maxQueuedOutgoing || c.output.maxQueuedOutgoing == 1
  }

  // ----- Enqueueing ------------------------------------------------------------------------

  /** A new message extends the history; the old part of it stays. */
  lemma EnqueueExtendsHistory(c: Config, s: System, data: bytes)
    requires c.output.maxDataLength >= 6 && s.sender.config == c.output && StreamOk(c, s.sender, s.enqueued)
    requires Enabled(s, EnqueueData(data))
    ensures var s' := Next(s, EnqueueData(data));
            var e := EncodeMessage(s.sender.cipher, c.output.maxDataLength, data);
            && StreamOk(c, s'.sender, s'.enqueued) && History(c, s') == History(c, s) + e.items
            && s'.sender == StashAll(s.sender, e.items).(cipher := s'.sender.cipher)
  {
    hide AcceptAll, Fragments, WireUnit, LengthFits;
    var s' := Next(s, EnqueueData(data));
    var e := EncodeMessage(s.sender.cipher, c.output.maxDataLength, data);
    StashAllAppends(s.sender, e.items);
    StashAllAppends(s.sender.(cipher := e.cipher), e.items);
    var n := |s.enqueued|;
    if data == [] {
      assert s'.enqueued == s.enqueued;
    } else {
      assert s'.enqueued[..n] == s.enqueued;
      assert forall k | 0 <= k < n :: s'.enqueued[..k] == s.enqueued[..k];
    }
  }

  lemma ConfigOfSender(c: Config, history: seq<Item>, o: OutputState)
    requires SenderOk(c, history, o)
    ensures o.config == c.output
  {
  }

  lemma SenderKeepsWindow(c: Config, history: seq<Item>, o: OutputState)
    requires SenderOk(c, history, o)
    ensures WindowOk(o)
  {
    hide QueueOk;
    assert forall i | 0 <= i < |o.queue| :: InHistory(history, o.queue[i]);
  }

  lemma StashKeepsSender(c: Config, history: seq<Item>, o: OutputState, items: seq<Item>)
    requires SenderOk(c, history, o)
    ensures var o' := StashAll(o, items);
            && SenderOk(c, history + items, o')
            && (forall t | Queued(o.queue, t) || |history| <= t < |history| + |items| :: Queued(o'.queue, t))
            && o'.maxClientSequence == o.maxClientSequence
  {
    hide QueueOk, StashAll, Queued, InHistory;
    StashAllAppends(o, items);
    SenderKeepsWindow(c, history, o);
    StashKeepsWindow(o, items);
    StashKeepsHistory(c, history, o, items);
    StashKeepsQueued(o, items);
  }

  lemma StashKeepsHistory(c: Config, history: seq<Item>, o: OutputState, items: seq<Item>)
    requires SenderOk(c, history, o)
    ensures forall p | p in StashAll(o, items).queue :: InHistory(history + items, p)
  {
    hide QueueOk, StashAll, U16, Queued;
    StashAllAppends(o, items);
    var o', history' := StashAll(o, items), history + items;
    forall i | 0 <= i < |o'.queue|
      ensures InHistory(history', o'.queue[i])
    {
      if i < |o.queue| {
        assert InHistory(history, o.queue[i]);
      } else {
        assert o'.queue[i] == NewPacket(|history| + (i - |o.queue|), items[i - |o.queue|]);
        assert history'[|history| + (i - |o.queue|)] == items[i - |o.queue|];
      }
    }
  }

  lemma StashKeepsQueued(o: OutputState, items: seq<Item>)
    ensures var o' := StashAll(o, items);
            forall t | Queued(o.queue, t) || o.totalSequence <= t < o.totalSequence + |items| :: Queued(o'.queue, t)
  {
    hide StashAll, U16;
    StashAllAppends(o, items);
    var o' := StashAll(o, items);
    forall t | Queued(o.queue, t) || o.totalSequence <= t < o.totalSequence + |items|
      ensures Queued(o'.queue, t)
    {
      if Queued(o.queue, t) {
        var i :| 0 <= i < |o.queue| && o.queue[i].sequence == t;
        assert o'.queue[i].sequence == t;
      } else {
        assert o'.queue[|o.queue| + (t - o.totalSequence)].sequence == t;
      }
    }
  }

  lemma EnqueueKeepsInv(c: Config, s: System, data: bytes)
    requires WellConfigured(c) && Inv(c, s) && Enabled(s, EnqueueData(data))
    ensures Inv(c, Next(s, EnqueueData(data)))
  {
    hide AcceptAll, EncodeAll, AllFit, EncodeMessage, StashAll, Enqueue, QueueOk;
    var s' := Next(s, EnqueueData(data));
    var e := EncodeMessage(s.sender.cipher, c.output.maxDataLength, data);
    var history := History(c, s);
    ConfigOfSender(c, history, s.sender);
    EnqueueExtendsHistory(c, s, data);
    StashKeepsSender(c, history, s.sender, e.items);
    assert (history + e.items)[..s.receiver.windowStart] == history[..s.receiver.windowStart];
    StashKeepsRest(s.sender, e.items);
  }

  lemma StashKeepsRest(o: OutputState, items: seq<Item>)
    ensures var o' := StashAll(o, items);
            o' == o.(queue := o'.queue, totalSequence := o.totalSequence + |items|)
  {
    StashAllAppends(o, items);
  }

  // ----- Sending ---------------------------------------------------------------------------

  /** In a sorted queue that still holds everything above `c`, position `i` is at most `i + 1` above. */
  lemma {:induction false} PositionBoundsSequence(queue: seq<QueuedPacket>, window: nat, index: nat, high: nat, total: nat, i: nat)
    requires QueueOk(queue, window, index) && i < |queue| && queue[i].sequence < total
    requires forall t | high < t < total :: Queued(queue, t)
    ensures queue[i].sequence <= high + i + 1
  {
    if queue[i].sequence > high + 1 {
      assert Queued(queue, queue[i].sequence - 1);
      var j :| 0 <= j < |queue| && queue[j].sequence == queue[i].sequence - 1;
      assert j < i && queue[i - 1].sequence < queue[i].sequence;
      assert queue[j].sequence <= queue[i - 1].sequence;
      PositionBoundsSequence(queue, window, index, high, total, i - 1);
    }
  }

  /** With a window of one packet, only the packet the receiver waits for (or an older one) is sent. */
  lemma FrontIsNext(c: Config, s: System)
    requires WellConfigured(c) && Inv(c, s) && s.sender.queue != []
    ensures s.sender.queue[0].sequence <= s.receiver.windowStart
  {
    hide EncodeAll, AcceptAll, AllFit;
    var front, w := s.sender.queue[0].sequence, s.receiver.windowStart;
    assert InHistory(History(c, s), s.sender.queue[0]);
    assert w < s.sender.totalSequence ==> Queued(s.sender.queue, w) || Accepted(s.receiver, w);
  }

  lemma TickKeepsSender(c: Config, history: seq<Item>, o: OutputState, now: nat)
    requires SenderOk(c, history, o)
    ensures var o' := TakeOutgoing(RunTick(o, now));
            && SenderOk(c, history, o')
            && (forall t | Queued(o.queue, t) :: Queued(o'.queue, t))
            && o'.maxClientSequence == o.maxClientSequence
            && o'.cipher == o.cipher
  {
    hide RunTick, QueueOk;
    var o' := TakeOutgoing(RunTick(o, now));
    TickKeepsQueue(o, now, c.output.maxQueuedOutgoing);
    forall i | 0 <= i < |o'.queue|
      ensures InHistory(history, o'.queue[i])
    {
      assert InHistory(history, o.queue[i]);
    }
    forall t | Queued(o.queue, t)
      ensures Queued(o'.queue, t)
    {
      var i :| 0 <= i < |o.queue| && o.queue[i].sequence == t;
      assert o'.queue[i].sequence == t;
    }
  }

  /** What a tick puts on the network: packets of the window, unchanged. */
  lemma TickDispatches(c: Config, s: System, now: nat, d: Datagram)
    requires WellConfigured(c) && Inv(c, s)
    requires d in Next(s, SenderTick(now)).network && d !in s.network
    ensures var limit := s.sender.maxClientSequence + c.output.maxQueuedOutgoing;
            && IsPacket(History(c, s), d.sequence, d.packet.kind == ReliableDataFragment, d.packet.payload)
            && d.sequence <= limit
            && (c.output.maxQueuedOutgoing == 1 ==> d.sequence <= s.receiver.windowStart)
  {
    hide AcceptAll, EncodeAll, AllFit, RunTick, Due, QueueOk, ReceiverOk, NetworkOk, AcksOk;
    var o, history := s.sender, History(c, s);
    TickEmits(o, now);
    var k :| 0 <= k < |Due(o, now)| && d == Datagram(Due(o, now)[k].sequence, Wire(Due(o, now)[k]));
    var i := DispatchStart(o, now) + k;
    assert InHistory(history, o.queue[i]);
    PositionBoundsSequence(o.queue, c.output.maxQueuedOutgoing, o.dispatchIndex, o.maxClientSequence, |history|, i);
    FrontIsNext(c, s);
  }

  lemma TickEmits(o: OutputState, now: nat)
    requires o.outgoing == []
    ensures RunTick(o, now).outgoing == WireAll(Due(o, now))
    ensures forall k | 0 <= k < |Due(o, now)| ::
      var i := DispatchStart(o, now) + k;
      i < |o.queue| && i < o.config.maxQueuedOutgoing && Due(o, now)[k] == o.queue[i]
  {
  }

  lemma SenderTickKeepsInv(c: Config, s: System, now: nat)
    requires WellConfigured(c) && Inv(c, s)
    ensures Inv(c, Next(s, SenderTick(now)))
  {
    hide AcceptAll, EncodeAll, AllFit, RunTick, Due, QueueOk;
    var s', history := Next(s, SenderTick(now)), History(c, s);
    TickKeepsSender(c, history, s.sender, now);
    forall d | d in s'.network && d !in s.network
      ensures IsPacket(history, d.sequence, d.packet.kind == ReliableDataFragment, d.packet.payload)
      ensures d.sequence <= s.sender.maxClientSequence + c.output.maxQueuedOutgoing
      ensures c.output.maxQueuedOutgoing == 1 ==> d.sequence <= s.receiver.windowStart
    {
      TickDispatches(c, s, now, d);
    }
  }

  // ----- Acknowledgements ------------------------------------------------------------------

  /** Every acknowledgement decodes to the sequence the receiver meant. */
  lemma AckDecodes(c: Config, s: System)
    requires WellConfigured(c) && WindowsAgree(c) && Inv(c, s) && s.acks != []
    ensures TrueIncoming(s.sender, s.acks[0].sequence % 0x1_0000) == s.acks[0].sequence
  {
    var a := s.acks[0];
    assert AckOk(c, s.sender.maxClientSequence, s.receiver, a);
    assert Accepted(s.receiver, a.sequence);
    UnwrapIsExact(a.sequence, s.sender.maxClientSequence, c.output.maxQueuedOutgoing);
  }

  /** An acknowledgement that decodes to `t` releases packets up to `t`, and only accepted ones. */
  lemma AckKeepsSender(c: Config, history: seq<Item>, o: OutputState, r: InputState, a: Ack, now: nat)
    requires SenderOk(c, history, o) && a.sequence >= 0
    requires TrueIncoming(o, a.sequence % 0x1_0000) == a.sequence
    requires if a.all then a.sequence < r.windowStart else Accepted(r, a.sequence)
    ensures var o' := Acked(o, a, now);
            && SenderOk(c, history, o')
            && o'.maxClientSequence == Max(o.maxClientSequence, a.sequence)
            && (forall t | Queued(o.queue, t) :: Queued(o'.queue, t) || Accepted(r, t))
            && o'.cipher == o.cipher
  {
    hide TrueIncomingSequence, TrueIncoming, LastSample, UpdateRto, QueueOk, Sample, InHistory, ApplySample;
    var t := a.sequence;
    var from, to, sample := 0, 0, None;
    if a.all {
      to := LeadCount(o.queue, t);
      sample := LastSample(o.queue[..to], now);
    } else if Position(o.queue, t) < |o.queue| {
      from := Position(o.queue, t);
      to := from + 1;
      sample := Sample(o.queue[from], now);
    }
    var o' := Release(o, from, to, sample, t);
    assert o' == Acked(o, a, now);
    ReleaseKeepsQueue(o, c.output.maxQueuedOutgoing, from, to, sample, t);
    forall u | Queued(o.queue, u)
      ensures Queued(o'.queue, u) || (u <= t && Accepted(r, u))
    {
      var i :| 0 <= i < |o.queue| && o.queue[i].sequence == u;
      if from <= i < to { assert o.queue[i].sequence <= t; }
    }
    forall u: nat | o'.maxClientSequence < u < |history|
      ensures Queued(o'.queue, u)
    {
      assert Queued(o.queue, u);
    }
  }

  /** An acknowledgement that decodes to what was meant. */
  lemma TrueAckKeepsInv(c: Config, s: System, now: nat)
    requires WellConfigured(c) && Inv(c, s) && s.acks != []
    requires TrueIncoming(s.sender, s.acks[0].sequence % 0x1_0000) == s.acks[0].sequence
    ensures Inv(c, Next(s, DeliverAck(now)))
  {
    hide AcceptAll, EncodeAll, AllFit, TrueIncoming, TrueIncomingSequence, QueueOk, Acked;
    var a, history := s.acks[0], History(c, s);
    assert AckOk(c, s.sender.maxClientSequence, s.receiver, a);
    AckKeepsSender(c, history, s.sender, s.receiver, a, now);
    var s' := Next(s, DeliverAck(now));
    forall i | 0 <= i < |s'.acks|
      ensures AckOk(c, s'.sender.maxClientSequence, s.receiver, s'.acks[i])
    {
      assert s'.acks[i] == s.acks[i + 1] && AckOk(c, s.sender.maxClientSequence, s.receiver, s.acks[i + 1]);
    }
  }

  lemma DeliverAckKeepsInv(c: Config, s: System, now: nat)
    requires WellConfigured(c) && WindowsAgree(c) && Inv(c, s) && s.acks != []
    ensures Inv(c, Next(s, DeliverAck(now)))
  {
    hide Inv, Next, TrueIncoming;
    AckDecodes(c, s);
    TrueAckKeepsInv(c, s, now);
  }

  // ----- Receiving -------------------------------------------------------------------------

  /** The true packet the receiver waits for is well formed and extends what it has consumed. */
  lemma NextItemIsAccepted(d0: Decoder, history: seq<Item>, w: nat, d: Decoder, output: seq<bytes>)
    requires w < |history| && AcceptAll(d0, history).Some?
    requires AcceptAll(d0, history[..w]) == Some(Decoded(d, output))
    ensures var r := Accept(d, history[w]);
            r.Some? && AcceptAll(d0, history[..w + 1]) == Some(Decoded(r.value.decoder, output + r.value.output))
  {
    hide Accept;
    AcceptedPrefix(d0, history, w + 1);
    AcceptAllAppend(d0, history[..w], [history[w]]);
    assert history[..w + 1] == history[..w] + [history[w]];
    AcceptOne(d, history[w]);
  }

  lemma AcceptOne(d: Decoder, item: Item)
    ensures AcceptAll(d, [item]) == Accept(d, item)
  {
    hide Accept;
    if Accept(d, item).Some? {
      var output := Accept(d, item).value.output;
      assert output + [] == output;
    }
  }

  /** A receiver in the middle of a call: `delivered` went out before, `appData` is about to. */
  ghost predicate MidCall(c: Config, history: seq<Item>, r: InputState, delivered: seq<bytes>) {
    && r.config == c.input
    && r.windowStart <= |history|
    && AcceptAll(Idle(c.cipher), history[..r.windowStart]) == Some(Decoded(r.decoder, delivered + r.appData))
    && (forall k | k in r.stash ::
          r.windowStart <= k < r.windowStart + c.input.maxQueuedIncoming && k < |history| && r.stash[k] == history[k])
    && r.lastAckAll >= -1
  }

  /** What one call may change about the window: it moves forward over accepted packets only. */
  ghost predicate Advances(r: InputState, r': InputState) {
    && r'.windowStart >= r.windowStart
    && r'.stash.Keys <= r.stash.Keys
    && forall t :: Accepted(r', t) <==> Accepted(r, t)
  }

  lemma TakeNextTrue(c: Config, history: seq<Item>, r: InputState, delivered: seq<bytes>)
    requires AcceptAll(Idle(c.cipher), history).Some? && r.windowStart < |history|
    requires AcceptAll(Idle(c.cipher), history[..r.windowStart]) == Some(Decoded(r.decoder, delivered + r.appData))
    ensures var n := TakeNext(r, history[r.windowStart]);
            && n.ok && n.state == r.(decoder := n.state.decoder, windowStart := r.windowStart + 1,
                                     appData := n.state.appData, stats := n.state.stats)
            && AcceptAll(Idle(c.cipher), history[..r.windowStart + 1])
               == Some(Decoded(n.state.decoder, delivered + n.state.appData))
  {
    hide AcceptAll, Accept;
    NextItemIsAccepted(Idle(c.cipher), history, r.windowStart, r.decoder, delivered + r.appData);
    var output := Accept(r.decoder, history[r.windowStart]).value.output;
    assert (delivered + r.appData) + output == delivered + (r.appData + output);
  }

  lemma {:induction false} ConsumeTrue(c: Config, history: seq<Item>, r: InputState, delivered: seq<bytes>)
    requires AcceptAll(Idle(c.cipher), history).Some? && MidCall(c, history, r, delivered)
    ensures var n := ConsumeStashed(r);
            && n.ok && MidCall(c, history, n.state, delivered) && Advances(r, n.state)
            && n.state.windowStart !in n.state.stash && n.state.outgoing == r.outgoing
    decreases |r.stash|
  {
    hide AcceptAll, TakeNext;
    if r.windowStart in r.stash {
      var r1 := r.(stash := r.stash - {r.windowStart});
      TakeNextTrue(c, history, r1, delivered);
      var r2 := TakeNext(r1, r.stash[r.windowStart]).state;
      ConsumeTrue(c, history, r2, delivered);
    }
  }

  /** A true packet of sequence `t`, as the receiver sees it. */
  lemma ReceiveTrue(c: Config, history: seq<Item>, r: InputState, delivered: seq<bytes>, t: nat, now: nat)
    requires WellConfigured(c) && AcceptAll(Idle(c.cipher), history).Some?
    requires ReceiverOk(c, history, r, delivered) && t < |history|
    requires r.windowStart + c.input.maxQueuedIncoming - 65536 < t <= r.windowStart - c.input.maxQueuedIncoming + 65535
    ensures var n := Receive(r, history[t].isFragment, U16(t) + history[t].body, now);
            && n.ok && ReceiverOk(c, history, Drain(n.state), delivered + n.state.appData)
            && n.state.windowStart >= r.windowStart
            && (forall u :: Accepted(n.state, u) <==> Accepted(r, u) || (u == t <= r.windowStart + c.input.maxQueuedIncoming))
            && (forall k | k in n.state.stash :: k in r.stash || k == t > r.windowStart)
            && |n.state.outgoing| <= 1
            && (n.state.outgoing != [] ==>
                  var a := n.state.outgoing[0];
                  || (a == Ack(false, t) && r.windowStart <= t && Accepted(n.state, t))
                  || (a == Ack(true, r.windowStart - 1) && r.windowStart >= 1 && Slack(c) == 1))
  {
    hide AcceptAll, TakeNext, ConsumeStashed, TrueIncomingSequence;
    var m := c.input.maxQueuedIncoming;
    var data := U16(t) + history[t].body;
    ReceivedSequence(c, r, t, data);
    assert data[2..] == history[t].body;
    assert delivered + [] == delivered;
    if TrueIncomingSequence(ReadU16(data), r.windowStart, m) == r.windowStart {
      ReceiveNext(c, history, r, delivered, now);
    }
  }

  /** The packet the receiver waits for, and everything it releases. */
  lemma ReceiveNext(c: Config, history: seq<Item>, r: InputState, delivered: seq<bytes>, now: nat)
    requires AcceptAll(Idle(c.cipher), history).Some?
    requires ReceiverOk(c, history, r, delivered) && r.windowStart < |history|
    ensures var next := TakeNext(AckOne(CountReceived(r), r.windowStart), history[r.windowStart]);
            next.ok && var n := ConsumeStashed(next.state);
            && n.ok && ReceiverOk(c, history, Drain(n.state), delivered + n.state.appData)
            && n.state.windowStart > r.windowStart && n.state.stash.Keys <= r.stash.Keys
            && (forall u :: Accepted(n.state, u) <==> Accepted(r, u) || u == r.windowStart)
            && n.state.outgoing == if c.input.acknowledgeAllData then [Ack(false, r.windowStart)] else []
  {
    hide AcceptAll, TakeNext, ConsumeStashed;
    var r1 := AckOne(CountReceived(r), r.windowStart);
    assert delivered + [] == delivered;
    TakeNextTrue(c, history, r1, delivered);
    var r2 := TakeNext(r1, history[r.windowStart]).state;
    assert MidCall(c, history, r2, delivered);
    ConsumeTrue(c, history, r2, delivered);
    assert forall u :: Accepted(r2, u) <==> Accepted(r, u) || u == r.windowStart;
  }

  /** The receiver reads the true sequence of a packet, or drops it. */
  lemma ReceivedSequence(c: Config, r: InputState, t: nat, data: bytes)
    requires WellConfigured(c) && |data| >= 2 && data[..2] == U16(t)
    requires r.windowStart + c.input.maxQueuedIncoming - 65536 < t <= r.windowStart - c.input.maxQueuedIncoming + 65535
    ensures var m := c.input.maxQueuedIncoming;
            var decoded := TrueIncomingSequence(ReadU16(data), r.windowStart, m);
            decoded == t || (decoded > r.windowStart + m && t < r.windowStart - m)
  {
    var m := c.input.maxQueuedIncoming;
    assert data[0] == U16(t)[0] && data[1] == U16(t)[1];
    U16RoundTrip(t, data);
    UnwrapIsExact(t, r.windowStart, m);
    UnwrapIsExact(t + 65536, r.windowStart, m);
  }

  lemma HistoryIsAccepted(c: Config, s: System)
    requires WellConfigured(c) && StreamOk(c, s.sender, s.enqueued)
    ensures AcceptAll(Idle(c.cipher), History(c, s)).Some?
    ensures AcceptAll(Idle(c.cipher), History(c, s)).value.output == SurfacedAll(c.cipher, s.enqueued)
  {
    StreamRoundTrip(c.cipher, c.output.maxDataLength, s.enqueued);
  }

  lemma DeliverDataKeepsInv(c: Config, s: System, d: Datagram, now: nat)
    requires WellConfigured(c) && Inv(c, s) && Enabled(s, DeliverData(d, now))
    ensures Inv(c, Next(s, DeliverData(d, now)))
  {
    hide AcceptAll, EncodeAll, AllFit, Receive, TrueIncomingSequence, QueueOk;
    HistoryIsAccepted(c, s);
    var history := History(c, s);
    ReceiveTrue(c, history, s.receiver, s.delivered, d.sequence, now);
    var n := Receive(s.receiver, d.packet.kind == ReliableDataFragment, d.packet.payload, now);
    EmitKeepsAcks(c, s.sender.maxClientSequence, s.receiver, n.state, s.acks);
    assert Accepted(n.state, n.state.windowStart - 1);
  }

  /** New acknowledgements are true, and not far behind the ones emitted before. */
  lemma EmitKeepsAcks(c: Config, high: nat, r: InputState, r': InputState, acks: seq<Ack>)
    requires AcksOk(c, high, r, acks) && |r'.outgoing| <= 1 && r'.windowStart >= r.windowStart
    requires forall t :: Accepted(r, t) ==> Accepted(r', t)
    requires forall t | Accepted(r', t) :: t <= r'.windowStart + Lead(c)
    requires r'.outgoing != [] ==>
      var a := r'.outgoing[0];
      && a.sequence >= r.windowStart - Slack(c) && a.sequence >= 0
      && if a.all then a.sequence < r'.windowStart else Accepted(r', a.sequence)
    ensures AcksOk(c, high, Drain(r'), acks + r'.outgoing)
  {
    var all := acks + r'.outgoing;
    forall i | 0 <= i < |all|
      ensures AckOk(c, high, Drain(r'), all[i])
    {
      if i < |acks| { assert AckOk(c, high, r, acks[i]); }
      assert Accepted(Drain(r'), all[i].sequence) <==> Accepted(r', all[i].sequence);
    }
    forall i, j | 0 <= i < j < |all|
      ensures all[j].sequence >= all[i].sequence - Lead(c) - Slack(c)
    {
      assert AckOk(c, high, r, acks[i]);
    }
  }

  lemma ReceiverTickKeepsInv(c: Config, s: System, now: nat)
    requires WellConfigured(c) && Inv(c, s)
    ensures Inv(c, Next(s, ReceiverTick(now)))
  {
    hide AcceptAll, EncodeAll, AllFit;
    var r := InputTick(s.receiver, now);
    assert s.delivered + [] == s.delivered;
    EmitKeepsAcks(c, s.sender.maxClientSequence, s.receiver, r, s.acks);
  }

  lemma LossKeepsInv(c: Config, s: System, a: Action)
    requires WellConfigured(c) && Inv(c, s) && Enabled(s, a) && (a.LoseData? || a.LoseAck?)
    ensures Inv(c, Next(s, a))
  {
    hide AcceptAll, EncodeAll, AllFit;
    var s' := Next(s, a);
    if a.LoseAck? {
      forall i | 0 <= i < |s'.acks|
        ensures s'.acks[i] == s.acks[if i < a.index then i else i + 1]
        ensures AckOk(c, s.sender.maxClientSequence, s.receiver, s'.acks[i])
      {
        assert AckOk(c, s.sender.maxClientSequence, s.receiver, s.acks[if i < a.index then i else i + 1]);
      }
    }
  }

  lemma NextKeepsInv(c: Config, s: System, a: Action)
    requires WellConfigured(c) && WindowsAgree(c) && Inv(c, s) && Enabled(s, a)
    ensures Inv(c, Next(s, a))
  {
    hide Inv, Next;
    match a
    case EnqueueData(data) => EnqueueKeepsInv(c, s, data);
    case SenderTick(now) => SenderTickKeepsInv(c, s, now);
    case DeliverData(d, now) => DeliverDataKeepsInv(c, s, d, now);
    case LoseData(_) => LossKeepsInv(c, s, a);
    case ReceiverTick(now) => ReceiverTickKeepsInv(c, s, now);
    case DeliverAck(now) => DeliverAckKeepsInv(c, s, now);
    case LoseAck(_) => LossKeepsInv(c, s, a);
  }

  lemma {:induction false} InvHolds(c: Config, actions: seq<Action>)
    requires WellConfigured(c) && WindowsAgree(c) && Possible(c, actions)
    ensures Inv(c, Execute(c, actions))
  {
    if actions == [] {
      assert EncodeAll(c.cipher, c.output.maxDataLength, []).items == [];
    } else {
      hide Inv, Next, Enabled;
      InvHolds(c, actions[..|actions| - 1]);
      NextKeepsInv(c, Execute(c, actions[..|actions| - 1]), actions[|actions| - 1]);
    }
  }

  // ----- The theorems ----------------------------------------------------------------------

  /** In every run, what the receiving application has got is a prefix of what the messages enqueued
      so far surface as, and no packet was ever found malformed. */
  lemma DeliveredIsPrefix(c: Config, actions: seq<Action>)
    requires WellConfigured(c) && WindowsAgree(c) && Possible(c, actions)
    ensures var s := Execute(c, actions);
            !s.corrupt && s.delivered <= SurfacedAll(c.cipher, s.enqueued)
  {
    InvHolds(c, actions);
    var s := Execute(c, actions);
    HistoryIsAccepted(c, s);
    AcceptedPrefix(Idle(c.cipher), History(c, s), s.receiver.windowStart);
  }

  /** Exactly once, in order and intact: with encryption always, without it for messages that do not
      look like a bundle. */
  lemma DeliveredInOrder(c: Config, actions: seq<Action>)
    requires WellConfigured(c) && WindowsAgree(c) && Possible(c, actions)
    requires Intact(c.cipher, Execute(c, actions).enqueued)
    ensures Execute(c, actions).delivered <= Execute(c, actions).enqueued
  {
    DeliveredIsPrefix(c, actions);
    SurfacedIntactIff(c.cipher, Execute(c, actions).enqueued);
  }

  /** In every run the sender releases only what the receiver has, an acknowledgement decodes to the
      sequence that was meant, and nothing is sent further ahead than both windows together. */
  lemma NoPrematureRelease(c: Config, actions: seq<Action>)
    requires WellConfigured(c) && WindowsAgree(c) && Possible(c, actions)
    ensures var s := Execute(c, actions);
            && Retained(s.sender, s.receiver)
            && (s.acks != [] ==> TrueIncoming(s.sender, s.acks[0].sequence % 0x1_0000) == s.acks[0].sequence)
            && (forall d | d in s.network ::
                  d.sequence <= s.receiver.windowStart + c.input.maxQueuedIncoming + c.output.maxQueuedOutgoing)
  {
    InvHolds(c, actions);
    var s := Execute(c, actions);
    if s.acks != [] { AckDecodes(c, s); }
  }
}
