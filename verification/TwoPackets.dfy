/** A sending window of two packets without an acknowledgement delay (src/channel/output.rs,
    src/channel/input.rs): an ack-all is only sent when nothing is stashed, so no acknowledgement is far
    behind another, and receiving windows of two and three packets are safe as well. */
module TwoPackets {
  import opened Bytes
  import opened Rc4
  import opened DataCodec
  import opened SequenceNumbers
  import opened ReliableOutput
  import opened OutputWindow
  import opened ReliableInput
  import opened EndToEnd
  import OR = OutputRuns
  import InputLedger

  predicate Twofold(c: Config) {
    c.output.maxQueuedOutgoing == 2 && !c.input.acknowledgeAllData && c.input.maxAckDelay == 0
  }

  /** No packet was sent over two that are still queued. */
  ghost predicate SecondIsLast(s: System) {
    |s.sender.queue| >= 2 ==>
      && (forall d | d in s.network :: d.sequence <= s.sender.queue[1].sequence)
      && (forall k | k in s.receiver.stash :: k <= s.sender.queue[1].sequence)
  }

  /** What the next ack-all will be the first to acknowledge is still queued, or not sent. */
  ghost predicate NextAllQueued(s: System) {
    && s.receiver.lastAckAll < s.receiver.windowStart
    && (0 <= s.receiver.lastAckAll + 1 < s.sender.totalSequence ==> Queued(s.sender.queue, s.receiver.lastAckAll + 1))
    && (forall k | 0 <= k < |s.acks| ::
          if s.acks[k].all then s.acks[k].sequence <= s.receiver.lastAckAll else s.acks[k].sequence != s.receiver.lastAckAll + 1)
  }

  /** Acknowledgements are less than a receiving window behind. */
  ghost predicate CloseAcks(c: Config, s: System) {
    var lag := c.input.maxQueuedIncoming - 1;
    && (s.sender.maxClientSequence == 0 || Accepted(s.receiver, s.sender.maxClientSequence))
    && (forall k | 0 <= k < |s.acks| :: s.acks[k].sequence >= s.sender.maxClientSequence - lag)
    && (forall i, j | 0 <= i < j < |s.acks| :: s.acks[j].sequence >= s.acks[i].sequence - lag)
  }

  ghost predicate Tight(c: Config, s: System)
    requires c.output.maxDataLength >= 6
  {
    Inv(c, s) && SecondIsLast(s) && NextAllQueued(s) && CloseAcks(c, s)
  }

  // ----- Sending -----------------------------------------------------------------------------

  lemma EnqueueKeepsTight(c: Config, s: System, data: bytes)
    requires WellConfigured(c) && Tight(c, s) && Enabled(s, EnqueueData(data))
    ensures Tight(c, Next(s, EnqueueData(data)))
  {
    hide AcceptAll, EncodeAll, AllFit, EncodeMessage, StashAll, QueueOk, LengthFits, WireUnit, U16;
    EnqueueKeepsInv(c, s, data);
    var history := History(c, s);
    ConfigOfSender(c, history, s.sender);
    var items := EncodeMessage(s.sender.cipher, c.output.maxDataLength, data).items;
    OR.EnqueueIsStash(s.sender, data);
    hide Enqueue, Queued;
    StashAllAppends(s.sender, items);
    StashKeepsQueued(s.sender, items);
    assert s.sender.totalSequence == |history|;
  }

  lemma TickKeepsTight(c: Config, s: System, now: nat)
    requires WellConfigured(c) && Twofold(c) && Tight(c, s)
    ensures Tight(c, Next(s, SenderTick(now)))
  {
    hide Inv, RunTick, Due;
    SenderTickKeepsInv(c, s, now);
    TickStaysSecond(c, s, now);
  }

  /** A tick sends the first two packets at most. */
  lemma TickStaysSecond(c: Config, s: System, now: nat)
    requires WellConfigured(c) && Twofold(c) && Inv(c, s) && SecondIsLast(s)
    ensures var s' := Next(s, SenderTick(now));
            && SecondIsLast(s') && (forall t | Queued(s.sender.queue, t) :: Queued(s'.sender.queue, t))
            && s'.sender.totalSequence == s.sender.totalSequence && s'.sender.maxClientSequence == s.sender.maxClientSequence
  {
    hide AcceptAll, EncodeAll, AllFit, RunTick, Due, ReceiverOk, NetworkOk, Retained, AcksOk, InHistory;
    var o, o' := s.sender, RunTick(s.sender, now);
    TickKeepsSender(c, History(c, s), o, now);
    TickKeepsQueue(o, now, 2);
    TickEmits(o, now);
    assert forall i | 0 <= i < |o.queue| :: o'.queue[i].sequence == o.queue[i].sequence;
    hide SenderOk;
    forall d | d in Next(s, SenderTick(now)).network && d !in s.network && |o.queue| >= 2
      ensures d.sequence <= o.queue[1].sequence
    {
      var k :| 0 <= k < |Due(o, now)| && d.sequence == Due(o, now)[k].sequence;
      assert DispatchStart(o, now) + k <= 1;
    }
  }

  // ----- Receiving ---------------------------------------------------------------------------

  /** A receiver with a backlog has nothing stashed: the packet its next ack-all starts with and the one it waits
      for fill the sender's window. */
  lemma BacklogIsAll(c: Config, s: System)
    requires WellConfigured(c) && Tight(c, s) && Backlog(s.receiver) > 0
    ensures forall t | Accepted(s.receiver, t) :: t < s.receiver.windowStart
  {
    hide AcceptAll, EncodeAll, AllFit, InHistory;
    assert s.receiver.windowStart < s.sender.totalSequence ==> Queued(s.sender.queue, s.receiver.windowStart);
  }

  lemma ReceiverTickKeepsTight(c: Config, s: System, now: nat)
    requires WellConfigured(c) && Twofold(c) && Tight(c, s)
    ensures Tight(c, Next(s, ReceiverTick(now)))
  {
    hide AcceptAll, EncodeAll, AllFit, QueueOk, Inv;
    ReceiverTickKeepsInv(c, s, now);
    TickAcks(c, s, now);
    AckedIsAccepted(c, s);
    if InputTick(s.receiver, now).outgoing != [] {
      BacklogIsAll(c, s);
      NextIsQueued(c, s);
    } else {
      assert s.acks + [] == s.acks;
    }
  }

  lemma NextIsQueued(c: Config, s: System)
    requires WellConfigured(c) && Inv(c, s)
    ensures s.receiver.windowStart < s.sender.totalSequence ==> Queued(s.sender.queue, s.receiver.windowStart)
  {
    hide AcceptAll, EncodeAll, AllFit;
  }

  lemma TickAcks(c: Config, s: System, now: nat)
    requires WellConfigured(c) && Inv(c, s)
    ensures var r, s' := InputTick(s.receiver, now), Next(s, ReceiverTick(now));
            && s'.acks == s.acks + r.outgoing && s'.sender == s.sender && s'.network == s.network
            && s'.receiver.stash == s.receiver.stash && s'.receiver.windowStart == s.receiver.windowStart
            && (if r.outgoing == [] then s'.receiver.lastAckAll == s.receiver.lastAckAll
                else r.outgoing == [Ack(true, s.receiver.windowStart - 1)] && s'.receiver.lastAckAll == s.receiver.windowStart - 1
                     && Backlog(s.receiver) > 0 && s.receiver.windowStart >= 1)
  {
    hide AcceptAll, EncodeAll, AllFit;
  }

  /** What is on the way as acknowledged, or was, is accepted. */
  lemma AckedIsAccepted(c: Config, s: System)
    requires WellConfigured(c) && Inv(c, s)
    ensures forall k | 0 <= k < |s.acks| :: Accepted(s.receiver, s.acks[k].sequence)
  {
    forall k | 0 <= k < |s.acks|
      ensures Accepted(s.receiver, s.acks[k].sequence)
    {
      assert AckOk(c, s.sender.maxClientSequence, s.receiver, s.acks[k]);
    }
  }

  /** A packet makes the receiver emit at most its own acknowledgement, and only when it is ahead. */
  lemma PacketAcks(c: Config, s: System, d: Datagram, now: nat)
    requires WellConfigured(c) && Twofold(c) && Inv(c, s) && Enabled(s, DeliverData(d, now))
    ensures var r, s' := Receive(s.receiver, d.packet.kind == ReliableDataFragment, d.packet.payload, now).state, Next(s, DeliverData(d, now));
            && s'.acks == s.acks + r.outgoing && s'.sender == s.sender && s'.network == s.network
            && s'.receiver.lastAckAll == s.receiver.lastAckAll && s'.receiver.windowStart >= s.receiver.windowStart
            && (r.outgoing == [] || (r.outgoing == [Ack(false, d.sequence)] && d.sequence > s.receiver.windowStart))
            && (forall k | k in s'.receiver.stash :: k in s.receiver.stash || k == d.sequence)
            && (forall u | Accepted(s'.receiver, u) :: Accepted(s.receiver, u) || u == d.sequence <= s.receiver.windowStart + c.input.maxQueuedIncoming)
            && (forall u | Accepted(s.receiver, u) :: Accepted(s'.receiver, u))
  {
    hide AcceptAll, EncodeAll, AllFit, TakeNext, ConsumeStashed, TrueIncomingSequence, QueueOk, U16, SenderOk;
    var t, history, r := d.sequence, History(c, s), s.receiver;
    HistoryIsAccepted(c, s);
    ReceiveTrue(c, history, r, s.delivered, t, now);
    ReceivedSequence(c, r, t, d.packet.payload);
    assert d.packet.payload[2..] == history[t].body;
    InputLedger.NextOwesNothing(AckOne(CountReceived(r), r.windowStart), history[t]);
  }

  lemma DeliverDataKeepsTight(c: Config, s: System, d: Datagram, now: nat)
    requires WellConfigured(c) && Twofold(c) && Tight(c, s) && Enabled(s, DeliverData(d, now))
    ensures Tight(c, Next(s, DeliverData(d, now)))
  {
    hide Inv, Next, Receive, Accepted;
    DeliverDataKeepsInv(c, s, d, now);
    PacketAcks(c, s, d, now);
    AckedIsAccepted(c, s);
    StashBounds(c, s);
    var r := Receive(s.receiver, d.packet.kind == ReliableDataFragment, d.packet.payload, now).state;
    if r.outgoing == [] { assert s.acks + [] == s.acks; }
  }

  /** Nothing accepted is beyond the receiver's window. */
  lemma StashBounds(c: Config, s: System)
    requires WellConfigured(c) && Inv(c, s)
    ensures forall u | Accepted(s.receiver, u) :: u <= s.receiver.windowStart + c.input.maxQueuedIncoming
  {
    hide AcceptAll, EncodeAll, AllFit;
  }

  // ----- Acknowledgements --------------------------------------------------------------------

  lemma DeliverAckKeepsTight(c: Config, s: System, now: nat)
    requires WellConfigured(c) && Twofold(c) && c.input.maxQueuedIncoming <= 3 && Tight(c, s) && s.acks != []
    ensures Tight(c, Next(s, DeliverAck(now)))
  {
    hide AcceptAll, EncodeAll, AllFit, TrueIncomingSequence, TrueIncoming, QueueOk, Acked;
    var a, o := s.acks[0], s.sender;
    ConfigOfSender(c, History(c, s), o);
    AckedIsAccepted(c, s);
    assert AckOk(c, o.maxClientSequence, s.receiver, a);
    CloseDecodes(o, a.sequence);
    TrueAckKeepsInv(c, s, now);
    AckReleases(c, History(c, s), o, a, now);
  }

  lemma CloseDecodes(o: OutputState, t: int)
    requires o.config.maxQueuedOutgoing == 2 && o.maxClientSequence - 2 <= t <= o.maxClientSequence + 65533
    ensures TrueIncoming(o, t % 0x1_0000) == t
  {
    hide TrueIncomingSequence;
    UnwrapIsExact(t, o.maxClientSequence, 2);
  }

  /** What an acknowledgement that is read as it was meant leaves in the queue. */
  lemma AckReleases(c: Config, history: seq<Item>, o: OutputState, a: Ack, now: nat)
    requires SenderOk(c, history, o) && TrueIncoming(o, a.sequence % 0x1_0000) == a.sequence
    ensures var o' := Acked(o, a, now);
            && o'.maxClientSequence == Max(o.maxClientSequence, a.sequence) && o'.totalSequence == o.totalSequence
            && (forall t | Queued(o.queue, t) && (if a.all then t > a.sequence else t != a.sequence) :: Queued(o'.queue, t))
            && (|o'.queue| >= 2 ==> |o.queue| >= 2 && o'.queue[1].sequence >= o.queue[1].sequence)
  {
    hide TrueIncoming, TrueIncomingSequence, Acknowledge, AcknowledgeAll, ApplySample, LastSample, Sample, InHistory;
    var call := if a.all then OR.AcknowledgedAll(a.sequence % 0x1_0000, now) else OR.Acknowledged(a.sequence % 0x1_0000, now);
    OR.AcknowledgementReleases(o, call);
    var r, o' := OR.Releases(o, call), Acked(o, a, now);
    assert o' == Release(o, r.from, r.to, r.sample, r.sequence);
    ReleasedAre(o, call);
    ReleaseKeepsQueue(o, c.output.maxQueuedOutgoing, r.from, r.to, r.sample, r.sequence);
    hide Acked, QueueOk, SenderOk, OR.Releases;
    forall t | Queued(o.queue, t) && (if a.all then t > a.sequence else t != a.sequence)
      ensures Queued(o'.queue, t)
    {
      var i :| 0 <= i < |o.queue| && o.queue[i].sequence == t;
      assert i < r.from || r.to <= i;
    }
    if |o'.queue| >= 2 {
      var k := if 1 < r.from then 1 else 1 + r.to - r.from;
      assert o'.queue[1] == o.queue[k];
      SortedAt(o, k);
    }
  }

  lemma ReleasedAre(o: OutputState, call: OR.Call)
    requires OR.Callable(o.config, call) && (call.Acknowledged? || call.AcknowledgedAll?)
    ensures var r, t := OR.Releases(o, call), TrueIncoming(o, call.sequence);
            r.from <= r.to <= |o.queue| && r.sequence == t &&
            forall i | r.from <= i < r.to :: if call.AcknowledgedAll? then o.queue[i].sequence <= t else o.queue[i].sequence == t
  {
    hide TrueIncoming, LastSample, Sample;
  }

  lemma SortedAt(o: OutputState, k: nat)
    requires QueueOk(o.queue, o.config.maxQueuedOutgoing, o.dispatchIndex) && 1 <= k < |o.queue|
    ensures o.queue[1].sequence <= o.queue[k].sequence
  {
  }

  // ----- All runs ----------------------------------------------------------------------------

  lemma LossKeepsTight(c: Config, s: System, a: Action)
    requires WellConfigured(c) && Tight(c, s) && Enabled(s, a) && (a.LoseData? || a.LoseAck?)
    ensures Tight(c, Next(s, a))
  {
    hide Inv;
    LossKeepsInv(c, s, a);
  }

  lemma NextKeepsTight(c: Config, s: System, a: Action)
    requires WellConfigured(c) && Twofold(c) && c.input.maxQueuedIncoming <= 3 && Tight(c, s) && Enabled(s, a)
    ensures Tight(c, Next(s, a))
  {
    hide Tight, Next;
    match a
    case EnqueueData(data) => EnqueueKeepsTight(c, s, data);
    case SenderTick(now) => TickKeepsTight(c, s, now);
    case DeliverData(d, now) => DeliverDataKeepsTight(c, s, d, now);
    case ReceiverTick(now) => ReceiverTickKeepsTight(c, s, now);
    case DeliverAck(now) => DeliverAckKeepsTight(c, s, now);
    case _ => LossKeepsTight(c, s, a);
  }

  lemma {:induction false} TightHolds(c: Config, actions: seq<Action>)
    requires WellConfigured(c) && Twofold(c) && c.input.maxQueuedIncoming <= 3 && Possible(c, actions)
    ensures Tight(c, Execute(c, actions))
  {
    if actions == [] {
      assert EncodeAll(c.cipher, c.output.maxDataLength, []).items == [];
    } else {
      hide Tight, Next, Enabled;
      TightHolds(c, actions[..|actions| - 1]);
      NextKeepsTight(c, Execute(c, actions[..|actions| - 1]), actions[|actions| - 1]);
    }
  }

  /** With a sending window of two and a receiving window of up to three every such run is in order. */
  lemma TwoDeliverInOrder(c: Config, actions: seq<Action>)
    requires WellConfigured(c) && Twofold(c) && c.input.maxQueuedIncoming <= 3 && Possible(c, actions)
    ensures var s := Execute(c, actions);
            && Retained(s.sender, s.receiver) && !s.corrupt && s.delivered <= SurfacedAll(c.cipher, s.enqueued)
            && (Intact(c.cipher, s.enqueued) ==> s.delivered <= s.enqueued)
  {
    hide AcceptAll, EncodeAll, AllFit, SecondIsLast, NextAllQueued, CloseAcks;
    TightHolds(c, actions);
    var s := Execute(c, actions);
    SurfacedIntactIff(c.cipher, s.enqueued);
    HistoryIsAccepted(c, s);
    AcceptedPrefix(Idle(c.cipher), History(c, s), s.receiver.windowStart);
  }
}
