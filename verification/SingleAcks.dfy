/** Sessions that acknowledge every packet singly and have no acknowledgement delay (src/channel/input.rs):
    they are in order whatever their windows. An acknowledgement may be read one block of 65536 too high,
    but then nothing that was not sent yet is ever sent: the sender's window is full for good. */
module SingleAcks {
  import opened Bytes
  import opened Rc4
  import opened DataCodec
  import opened SequenceNumbers
  import opened ReliableOutput
  import opened OutputWindow
  import opened ReliableInput
  import opened EndToEnd

  /** No ack-all is ever sent. */
  predicate Singly(c: Config) {
    c.input.acknowledgeAllData && c.input.maxAckDelay == 0
  }

  predicate OnlySingles(acks: seq<Ack>) {
    forall k | 0 <= k < |acks| :: !acks[k].all && acks[k].sequence >= 0
  }

  /** The queue is true and in order, whatever was acknowledged. */
  ghost predicate QueueTrue(c: Config, history: seq<Item>, o: OutputState) {
    SenderOk(c, history, o.(maxClientSequence := |history|))
  }

  /** After an acknowledgement was misread at `h`: the window above it stays queued, so nothing beyond it is sent. */
  ghost predicate Frozen(c: Config, s: System, h: nat)
    requires c.output.maxDataLength >= 6
  {
    var history, w := History(c, s), c.output.maxQueuedOutgoing;
    && !s.corrupt && StreamOk(c, s.sender, s.enqueued) && QueueTrue(c, history, s.sender)
    && ReceiverOk(c, history, s.receiver, s.delivered)
    && StaysQueued(s.sender, h, w) && s.sender.maxClientSequence > h + 2 * w
    && h <= s.receiver.windowStart + c.input.maxQueuedIncoming
    && (forall d | d in s.network :: IsPacket(history, d.sequence, d.packet.kind == ReliableDataFragment, d.packet.payload) && d.sequence <= h + w)
    && OnlySingles(s.acks)
  }

  ghost predicate StaysQueued(o: OutputState, h: nat, w: nat) {
    forall t: nat | h < t <= h + w && t < o.totalSequence :: Queued(o.queue, t)
  }

  /** Frozen at some point, or not at all yet. */
  ghost predicate Safe(c: Config, s: System)
    requires c.output.maxDataLength >= 6
  {
    (Inv(c, s) && OnlySingles(s.acks)) || exists h: nat :: Frozen(c, s, h)
  }

  // ----- Before ------------------------------------------------------------------------------

  lemma StaysSingle(c: Config, s: System, a: Action)
    requires WellConfigured(c) && Singly(c) && Inv(c, s) && OnlySingles(s.acks) && Enabled(s, a)
    ensures OnlySingles(Next(s, a).acks)
  {
    hide AcceptAll, EncodeAll, AllFit, Enqueue, RunTick, Receive, Acked, QueueOk;
    match a
    case DeliverData(d, now) =>
      HistoryIsAccepted(c, s);
      ReceiveTrue(c, History(c, s), s.receiver, s.delivered, d.sequence, now);
    case _ =>
  }

  /** An acknowledgement that is not read as what was meant freezes the sender. */
  lemma MisreadFreezes(c: Config, s: System, now: nat)
    requires WellConfigured(c) && Inv(c, s) && OnlySingles(s.acks) && s.acks != [] && Slack(c) == 0
    requires TrueIncoming(s.sender, s.acks[0].sequence % 0x1_0000) != s.acks[0].sequence
    ensures Frozen(c, Next(s, DeliverAck(now)), s.sender.maxClientSequence)
  {
    hide AcceptAll, EncodeAll, AllFit, TrueIncomingSequence, QueueOk, Acked, ReceiverOk, Retained;
    var a, o, w, h := s.acks[0], s.sender, c.output.maxQueuedOutgoing, s.sender.maxClientSequence;
    assert AckOk(c, h, s.receiver, a);
    ConfigOfSender(c, History(c, s), o);
    UnwrapLandsInRange(a.sequence % 0x1_0000, h, w);
    UnwrapIsExact(a.sequence, h, w);
    var t := TrueIncoming(o, a.sequence % 0x1_0000);
    FarAbove(a.sequence, t, h, c.input.maxQueuedIncoming, w);
    AckAbove(c, History(c, s), o, a, now, h);
  }

  lemma FarAbove(a: int, t: int, h: int, m: int, w: int)
    requires a % 0x1_0000 == t % 0x1_0000 && a >= h - m && a < h - w && t >= h - w && 2 * m + w <= 65535
    ensures t > h + 2 * w
  {
  }

  /** A single acknowledgement that is read as something above the window leaves the window queued. */
  lemma AckAbove(c: Config, history: seq<Item>, o: OutputState, a: Ack, now: nat, h: nat)
    requires QueueTrue(c, history, o) && StaysQueued(o, h, c.output.maxQueuedOutgoing) && !a.all
    requires TrueIncoming(o, a.sequence % 0x1_0000) > h + c.output.maxQueuedOutgoing
    ensures var o' := Acked(o, a, now);
            && QueueTrue(c, history, o') && StaysQueued(o', h, c.output.maxQueuedOutgoing)
            && o'.maxClientSequence == Max(o.maxClientSequence, TrueIncoming(o, a.sequence % 0x1_0000))
            && o' == o.(queue := o'.queue, dispatchIndex := o'.dispatchIndex, timer := o'.timer, maxClientSequence := o'.maxClientSequence, stats := o'.stats)
  {
    hide TrueIncomingSequence, TrueIncoming, UpdateRto, QueueOk, Sample, InHistory, ApplySample;
    var t := TrueIncoming(o, a.sequence % 0x1_0000);
    var p := Position(o.queue, t);
    var from, to := if p < |o.queue| then p else 0, if p < |o.queue| then p + 1 else 0;
    var sample := if p < |o.queue| then Sample(o.queue[p], now) else None;
    var o' := Release(o, from, to, sample, t);
    assert o' == Acked(o, a, now);
    ReleaseKeepsQueue(o, c.output.maxQueuedOutgoing, from, to, sample, t);
    forall u: nat | h < u <= h + c.output.maxQueuedOutgoing && u < o.totalSequence
      ensures Queued(o'.queue, u)
    {
      assert Queued(o.queue, u);
      var i :| 0 <= i < |o.queue| && o.queue[i].sequence == u;
      assert i < from || i >= to;
    }
  }

  // ----- After -------------------------------------------------------------------------------

  lemma EnqueueKeepsFrozen(c: Config, s: System, h: nat, data: bytes)
    requires WellConfigured(c) && Frozen(c, s, h) && Enabled(s, EnqueueData(data))
    ensures Frozen(c, Next(s, EnqueueData(data)), h)
  {
    hide AcceptAll, EncodeAll, AllFit, EncodeMessage, StashAll, Enqueue, QueueOk, Queued;
    var s', history := Next(s, EnqueueData(data)), History(c, s);
    var e := EncodeMessage(s.sender.cipher, c.output.maxDataLength, data);
    EnqueueExtendsHistory(c, s, data);
    StashKeepsSender(c, history, s.sender.(maxClientSequence := |history|), e.items);
    StashKeepsRest(s.sender, e.items);
    StashIgnoresHigh(s.sender, e.items, |history|);
    StashKeepsQueued(s.sender, e.items);
    assert (history + e.items)[..s.receiver.windowStart] == history[..s.receiver.windowStart];
    assert QueueTrue(c, history + e.items, s'.sender) by { TrueHigher(c, history + e.items, s'.sender, |history|); }
  }

  lemma StashIgnoresHigh(o: OutputState, items: seq<Item>, high: nat)
    ensures StashAll(o.(maxClientSequence := high), items) == StashAll(o, items).(maxClientSequence := high)
  {
    StashAllAppends(o, items);
    StashAllAppends(o.(maxClientSequence := high), items);
  }

  lemma TrueHigher(c: Config, history: seq<Item>, o: OutputState, high: nat)
    requires SenderOk(c, history, o.(maxClientSequence := high))
    ensures QueueTrue(c, history, o)
  {
    hide QueueOk, InHistory;
  }

  /** A packet above the frozen window is behind all of it. */
  lemma BeyondIsBehind(c: Config, history: seq<Item>, o: OutputState, h: nat, i: nat)
    requires QueueTrue(c, history, o) && StaysQueued(o, h, c.output.maxQueuedOutgoing) && i < |o.queue|
    requires o.queue[i].sequence > h + c.output.maxQueuedOutgoing && c.output.maxQueuedOutgoing >= 1
    ensures i >= c.output.maxQueuedOutgoing
  {
    var w := c.output.maxQueuedOutgoing;
    assert InHistory(history, o.queue[i]);
    assert Queued(o.queue, h + w);
    var j :| 0 <= j < |o.queue| && o.queue[j].sequence == h + w;
    assert j < i;
    PositionBoundsSequence(o.queue, w, o.dispatchIndex, h, h + w + 1, j);
  }

  lemma TickKeepsFrozen(c: Config, s: System, h: nat, now: nat)
    requires WellConfigured(c) && Frozen(c, s, h)
    ensures Frozen(c, Next(s, SenderTick(now)), h)
  {
    hide AcceptAll, EncodeAll, AllFit, RunTick, Due, QueueOk, ReceiverOk;
    var o, s', history := s.sender, Next(s, SenderTick(now)), History(c, s);
    var o1 := o.(maxClientSequence := |history|);
    TickKeepsSender(c, history, o1, now);
    TickIgnoresHigh(o, |history|, now);
    assert TakeOutgoing(RunTick(o1, now)) == s'.sender.(maxClientSequence := |history|);
    TickLeavesRest(c, o, now);
    TickEmits(o, now);
    forall d | d in s'.network && d !in s.network
      ensures IsPacket(history, d.sequence, d.packet.kind == ReliableDataFragment, d.packet.payload) && d.sequence <= h + c.output.maxQueuedOutgoing
    {
      var k :| 0 <= k < |Due(o, now)| && d == Datagram(Due(o, now)[k].sequence, Wire(Due(o, now)[k]));
      var i := DispatchStart(o, now) + k;
      assert InHistory(history, o.queue[i]);
      if o.queue[i].sequence > h + c.output.maxQueuedOutgoing { BeyondIsBehind(c, history, o, h, i); }
    }
  }

  lemma TickLeavesRest(c: Config, o: OutputState, now: nat)
    ensures RunTick(o, now).maxClientSequence == o.maxClientSequence && RunTick(o, now).totalSequence == o.totalSequence
    ensures RunTick(o, now).cipher == o.cipher
  {
    hide CountSent;
  }

  lemma TickIgnoresHigh(o: OutputState, high: nat, now: nat)
    ensures RunTick(o.(maxClientSequence := high), now) == RunTick(o, now).(maxClientSequence := high)
  {
    hide CountSent;
  }

  lemma DeliverDataKeepsFrozen(c: Config, s: System, h: nat, d: Datagram, now: nat)
    requires WellConfigured(c) && Singly(c) && Frozen(c, s, h) && Enabled(s, DeliverData(d, now))
    requires c.output.maxQueuedOutgoing <= c.input.maxQueuedIncoming
    ensures Frozen(c, Next(s, DeliverData(d, now)), h)
  {
    hide AcceptAll, EncodeAll, AllFit, Receive, TrueIncomingSequence, QueueOk, QueueTrue;
    HistoryIsAccepted(c, s);
    ReceiveTrue(c, History(c, s), s.receiver, s.delivered, d.sequence, now);
  }

  lemma DeliverAckKeepsFrozen(c: Config, s: System, h: nat, now: nat)
    requires WellConfigured(c) && Frozen(c, s, h) && s.acks != []
    ensures Frozen(c, Next(s, DeliverAck(now)), h)
  {
    hide AcceptAll, EncodeAll, AllFit, TrueIncomingSequence, QueueOk, Acked, ReceiverOk, QueueTrue;
    var a, o := s.acks[0], s.sender;
    TrueConfig(c, History(c, s), o);
    UnwrapLandsInRange(a.sequence % 0x1_0000, o.maxClientSequence, c.output.maxQueuedOutgoing);
    AckAbove(c, History(c, s), o, a, now, h);
  }

  lemma TrueConfig(c: Config, history: seq<Item>, o: OutputState)
    requires QueueTrue(c, history, o)
    ensures o.config == c.output
  {
  }

  lemma OthersKeepFrozen(c: Config, s: System, h: nat, a: Action)
    requires WellConfigured(c) && Singly(c) && Frozen(c, s, h) && Enabled(s, a) && (a.ReceiverTick? || a.LoseData? || a.LoseAck?)
    ensures Frozen(c, Next(s, a), h)
  {
    hide AcceptAll, EncodeAll, AllFit, QueueOk, QueueTrue;
    assert s.delivered + [] == s.delivered && s.acks + [] == s.acks;
  }

  lemma NextKeepsFrozen(c: Config, s: System, h: nat, a: Action)
    requires WellConfigured(c) && Singly(c) && Frozen(c, s, h) && Enabled(s, a)
    requires c.output.maxQueuedOutgoing <= c.input.maxQueuedIncoming
    ensures Frozen(c, Next(s, a), h)
  {
    hide Frozen, Next;
    match a
    case EnqueueData(data) => EnqueueKeepsFrozen(c, s, h, data);
    case SenderTick(now) => TickKeepsFrozen(c, s, h, now);
    case DeliverData(d, now) => DeliverDataKeepsFrozen(c, s, h, d, now);
    case DeliverAck(now) => DeliverAckKeepsFrozen(c, s, h, now);
    case _ => OthersKeepFrozen(c, s, h, a);
  }

  lemma NextIsSafe(c: Config, s: System, a: Action)
    requires WellConfigured(c) && Singly(c) && Safe(c, s) && Enabled(s, a) && c.output.maxQueuedOutgoing <= c.input.maxQueuedIncoming
    ensures Safe(c, Next(s, a))
  {
    hide Inv, Frozen, Next, TrueIncoming;
    if Inv(c, s) && OnlySingles(s.acks) {
      StaysSingle(c, s, a);
      match a
      case EnqueueData(data) => EnqueueKeepsInv(c, s, data);
      case SenderTick(now) => SenderTickKeepsInv(c, s, now);
      case DeliverData(d, now) => DeliverDataKeepsInv(c, s, d, now);
      case ReceiverTick(now) => ReceiverTickKeepsInv(c, s, now);
      case DeliverAck(now) =>
        if TrueIncoming(s.sender, s.acks[0].sequence % 0x1_0000) == s.acks[0].sequence {
          TrueAckKeepsInv(c, s, now);
        } else {
          MisreadFreezes(c, s, now);
        }
      case _ => LossKeepsInv(c, s, a);
    } else {
      var h: nat :| Frozen(c, s, h);
      NextKeepsFrozen(c, s, h, a);
    }
  }

  lemma {:induction false} SafeHolds(c: Config, actions: seq<Action>)
    requires WellConfigured(c) && Singly(c) && Possible(c, actions) && c.output.maxQueuedOutgoing <= c.input.maxQueuedIncoming
    ensures Safe(c, Execute(c, actions))
  {
    if actions == [] {
      assert EncodeAll(c.cipher, c.output.maxDataLength, []).items == [];
    } else {
      hide Safe, Next, Enabled;
      SafeHolds(c, actions[..|actions| - 1]);
      NextIsSafe(c, Execute(c, actions[..|actions| - 1]), actions[|actions| - 1]);
    }
  }

  /** With single acknowledgements and no delay every run is in order, for any windows. */
  lemma SinglesDeliverInOrder(c: Config, actions: seq<Action>)
    requires WellConfigured(c) && Singly(c) && Possible(c, actions)
    ensures var s := Execute(c, actions);
            && !s.corrupt && s.delivered <= SurfacedAll(c.cipher, s.enqueued)
            && (Intact(c.cipher, s.enqueued) ==> s.delivered <= s.enqueued)
  {
    var s := Execute(c, actions);
    SurfacedIntactIff(c.cipher, s.enqueued);
    if c.output.maxQueuedOutgoing > c.input.maxQueuedIncoming {
      DeliveredIsPrefix(c, actions);
    } else {
      SafeHolds(c, actions);
      SafeDelivers(c, s);
    }
  }

  lemma SafeDelivers(c: Config, s: System)
    requires WellConfigured(c) && Safe(c, s)
    ensures !s.corrupt && s.delivered <= SurfacedAll(c.cipher, s.enqueued)
  {
    hide AcceptAll, EncodeAll, AllFit, QueueOk;
    HistoryIsAccepted(c, s);
    AcceptedPrefix(Idle(c.cipher), History(c, s), s.receiver.windowStart);
  }
}
