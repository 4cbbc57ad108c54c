/** When acknowledgements are lost (src/channel/input.rs, src/channel/output.rs): an old packet is answered
    only while the last ack-all is young, so once the acknowledgements of a full window are gone nothing is
    ever delivered again. Exactly then: in every other state some continuation delivers more. And every
    configuration can get there. */
module Stall {
  import opened Bytes
  import opened Rc4
  import opened DataCodec
  import opened SequenceNumbers
  import opened ReliableOutput
  import opened OutputWindow
  import RI = ReliableInput
  import opened EndToEnd
  import OR = OutputRuns
  import R = Retransmission
  import InputLedger

  // ----- Later -------------------------------------------------------------------------------

  /** The clock is not set back. */
  predicate Later(a: Action, time: nat) {
    match a
    case SenderTick(now) => now >= time
    case DeliverData(_, now) => now >= time
    case ReceiverTick(now) => now >= time
    case DeliverAck(now) => now >= time
    case _ => true
  }

  predicate AllLater(actions: seq<Action>, time: nat) {
    forall k | 0 <= k < |actions| :: Later(actions[k], time)
  }

  /** The receiver has moved on at the end of some continuation. */
  ghost predicate CanAdvance(c: Config, actions: seq<Action>, time: nat)
    requires Possible(c, actions)
  {
    exists more: seq<Action> ::
      && AllLater(more, time) && Possible(c, actions + more)
      && Execute(c, actions + more).receiver.windowStart > Execute(c, actions).receiver.windowStart
  }

  lemma Extended(c: Config, actions: seq<Action>, a: Action)
    requires Possible(c, actions) && Enabled(Execute(c, actions), a)
    ensures Possible(c, actions + [a]) && Execute(c, actions + [a]) == Next(Execute(c, actions), a)
  {
    hide Enabled, Next;
    assert (actions + [a])[..|actions|] == actions;
  }

  // ----- Stalled -----------------------------------------------------------------------------

  /** The sender's whole window is of packets the receiver has consumed, no acknowledgement is on the way, and the
      receiver will not send one of its own. */
  ghost predicate Stalled(c: Config, s: System) {
    && s.acks == [] && |s.sender.queue| >= c.output.maxQueuedOutgoing
    && (forall p | p in R.Window(s.sender) :: p.sequence < s.receiver.windowStart)
    && (c.input.acknowledgeAllData || RI.Backlog(s.receiver) <= 0)
  }

  /** Nothing that was not sent yet is on the network or in the stash, or comes before something that is. */
  ghost predicate Unsent(s: System) {
    && R.SentOk(s)
    && (forall p, d | p in s.sender.queue && !p.sent && d in s.network :: d.sequence < p.sequence)
    && (forall p, k | p in s.sender.queue && !p.sent && k in s.receiver.stash :: k < p.sequence)
  }

  lemma TickKeepsUnsent(c: Config, s: System, now: nat)
    requires WellConfigured(c) && Inv(c, s) && Unsent(s)
    ensures Unsent(Next(s, SenderTick(now)))
  {
    hide AcceptAll, EncodeAll, AllFit, RunTick, Due, QueueOk, R.SentOk, R.Late, R.Window, Inv;
    R.TickKeepsSent(c, s, now);
    var o, o', s' := s.sender, RunTick(s.sender, now), Next(s, SenderTick(now));
    SenderFits(c, s);
    R.TickMarks(o, now);
    SentInStep(s);
    R.TickAdds(c, s, now);
    forall i, d | 0 <= i < |o'.queue| && !o'.queue[i].sent && d in s'.network
      ensures d.sequence < o'.queue[i].sequence
    {
      assert o.queue[i] in o.queue && !o.queue[i].sent;
      if d !in s.network {
        var p :| p in R.Window(o) && d == Datagram(p.sequence, Wire(p));
        InWindowIsBefore(o, now, p, i);
      }
    }
    forall i, k | 0 <= i < |o'.queue| && !o'.queue[i].sent && k in s.receiver.stash
      ensures k < o'.queue[i].sequence
    {
      assert o.queue[i] in o.queue && !o.queue[i].sent;
    }
  }

  lemma SenderFits(c: Config, s: System)
    requires WellConfigured(c) && Inv(c, s)
    ensures WindowOk(s.sender)
  {
    hide AcceptAll, EncodeAll, AllFit;
    SenderKeepsWindow(c, History(c, s), s.sender);
  }

  /** What a tick leaves unsent comes after the window. */
  lemma InWindowIsBefore(o: OutputState, now: nat, p: QueuedPacket, i: nat)
    requires WindowOk(o) && p in R.Window(o) && i < |o.queue| && |RunTick(o, now).queue| == |o.queue| && !RunTick(o, now).queue[i].sent
    ensures p.sequence < o.queue[i].sequence
  {
    hide RunTick;
    TickSendsWindow(o, now);
    var j :| 0 <= j < |R.Window(o)| && R.Window(o)[j] == p;
    assert o.queue[j] == p && j < i;
  }

  lemma SentInStep(s: System)
    requires R.SentOk(s)
    ensures R.InStep(s.sender)
  {
  }

  lemma EnqueueKeepsUnsent(c: Config, s: System, data: bytes)
    requires WellConfigured(c) && Inv(c, s) && Unsent(s) && Enabled(s, EnqueueData(data))
    ensures Unsent(Next(s, EnqueueData(data)))
  {
    hide AcceptAll, EncodeAll, AllFit, EncodeMessage, StashAll, QueueOk, LengthFits, WireUnit, U16, R.SentOk;
    R.EnqueueKeepsSent(c, s, data);
    ConfigOfSender(c, History(c, s), s.sender);
    var items := EncodeMessage(s.sender.cipher, c.output.maxDataLength, data).items;
    OR.EnqueueIsStash(s.sender, data);
    hide Enqueue;
    StashAllAppends(s.sender, items);
  }

  lemma DeliverDataKeepsUnsent(c: Config, s: System, d: Datagram, now: nat)
    requires WellConfigured(c) && Inv(c, s) && Unsent(s) && Enabled(s, DeliverData(d, now))
    ensures Unsent(Next(s, DeliverData(d, now)))
  {
    hide AcceptAll, EncodeAll, AllFit, RI.Receive, QueueOk, R.SentOk;
    R.DeliverDataKeepsSent(c, s, d, now);
    HistoryIsAccepted(c, s);
    ReceiveTrue(c, History(c, s), s.receiver, s.delivered, d.sequence, now);
  }

  lemma OthersKeepUnsent(c: Config, s: System, a: Action)
    requires WellConfigured(c) && WindowsAgree(c) && Inv(c, s) && Unsent(s) && Enabled(s, a)
    requires a.ReceiverTick? || a.DeliverAck? || a.LoseData? || a.LoseAck?
    ensures Unsent(Next(s, a))
  {
    hide AcceptAll, EncodeAll, AllFit, R.SentOk, TrueIncoming, Acknowledge, AcknowledgeAll, ApplySample, Inv;
    match a
    case ReceiverTick(now) => R.ReceiverTickKeepsSent(s, now);
    case DeliverAck(now) =>
      R.DeliverAckKeepsSent(c, s, now);
      AckOnlyReleases(s.sender, s.acks[0], now);
    case _ => R.LossKeepsSent(s, a);
  }

  lemma AckOnlyReleases(o: OutputState, a: RI.Ack, now: nat)
    ensures forall p | p in Acked(o, a, now).queue :: p in o.queue
  {
    hide TrueIncoming, ApplySample, Acknowledge, AcknowledgeAll, LastSample, Sample;
    var call := if a.all then OR.AcknowledgedAll(a.sequence % 0x1_0000, now) else OR.Acknowledged(a.sequence % 0x1_0000, now);
    OR.AcknowledgementReleases(o, call);
    assert Acked(o, a, now) == OR.Apply(o, call);
    var r := OR.Releases(o, call);
    assert forall p | p in o.queue[..r.from] + o.queue[r.to..] :: p in o.queue;
  }

  lemma {:induction false} UnsentHolds(c: Config, actions: seq<Action>)
    requires WellConfigured(c) && WindowsAgree(c) && Possible(c, actions)
    ensures Inv(c, Execute(c, actions)) && Unsent(Execute(c, actions))
  {
    InvHolds(c, actions);
    if actions == [] { return; }
    hide Inv, Unsent, Next, Enabled;
    var n := |actions| - 1;
    var s := Execute(c, actions[..n]);
    UnsentHolds(c, actions[..n]);
    match actions[n]
    case EnqueueData(data) => EnqueueKeepsUnsent(c, s, data);
    case SenderTick(now) => TickKeepsUnsent(c, s, now);
    case DeliverData(d, now) => DeliverDataKeepsUnsent(c, s, d, now);
    case _ => OthersKeepUnsent(c, s, actions[n]);
  }

  /** In a stalled state all that ever reached the network is old. */
  lemma OnlyOldPackets(c: Config, s: System)
    requires WellConfigured(c) && Inv(c, s) && Unsent(s) && Stalled(c, s)
    ensures forall d | d in s.network :: d.sequence < s.receiver.windowStart
  {
    hide AcceptAll, EncodeAll, AllFit, R.SentOk;
    var queue, w, ws := s.sender.queue, c.output.maxQueuedOutgoing, s.receiver.windowStart;
    assert forall k | 0 <= k < w :: R.Window(s.sender)[k] == queue[k];
    if ws < s.sender.totalSequence {
      assert Queued(queue, ws);
      var i :| 0 <= i < |queue| && queue[i].sequence == ws;
      assert i >= w;
      assert queue[i] in queue && !queue[i].sent;
    }
  }

  // ----- Stalled for good ----------------------------------------------------------------------

  /** What stays the same. */
  ghost predicate AsBefore(c: Config, s: System, s': System) {
    && s'.receiver.windowStart == s.receiver.windowStart && s'.delivered == s.delivered
    && s'.receiver.lastAckAllTime == s.receiver.lastAckAllTime
    && Stalled(c, s')
  }

  /** An old packet is not answered any more. */
  lemma OldPacketIsIgnored(c: Config, s: System, d: Datagram, now: nat)
    requires WellConfigured(c) && Inv(c, s) && Enabled(s, DeliverData(d, now)) && d.sequence < s.receiver.windowStart
    requires now >= s.receiver.lastAckAllTime + c.input.maxAckDelay
    ensures var r := RI.Receive(s.receiver, d.packet.kind == ReliableDataFragment, d.packet.payload, now).state;
            r == s.receiver.(stats := r.stats)
  {
    hide AcceptAll, EncodeAll, AllFit, RI.TakeNext, RI.ConsumeStashed, TrueIncomingSequence, U16;
    var payload := d.packet.payload;
    var body := History(c, s)[d.sequence].body;
    assert payload == U16(d.sequence) + body && payload[..2] == U16(d.sequence);
    ReceivedSequence(c, s.receiver, d.sequence, payload);
  }

  lemma StaysStalled(c: Config, s: System, a: Action, time: nat)
    requires WellConfigured(c) && Inv(c, s) && Unsent(s) && Stalled(c, s) && Enabled(s, a) && Later(a, time)
    requires time >= s.receiver.lastAckAllTime + c.input.maxAckDelay
    ensures AsBefore(c, s, Next(s, a))
  {
    hide AcceptAll, EncodeAll, AllFit, RunTick, Due, Enqueue, RI.Receive, QueueOk, R.SentOk;
    match a
    case EnqueueData(data) => MoreQueued(c, s, data);
    case SenderTick(now) => WindowStays(c, s, now);
    case DeliverData(d, now) =>
      OnlyOldPackets(c, s);
      OldPacketIsIgnored(c, s, d, now);
      assert s.delivered + [] == s.delivered;
    case ReceiverTick(now) => assert s.delivered + [] == s.delivered;
    case _ =>
  }

  lemma MoreQueued(c: Config, s: System, data: bytes)
    requires WellConfigured(c) && Inv(c, s) && Stalled(c, s) && Enabled(s, EnqueueData(data))
    ensures AsBefore(c, s, Next(s, EnqueueData(data)))
  {
    hide AcceptAll, EncodeAll, AllFit, EncodeMessage, StashAll, QueueOk, LengthFits, WireUnit, U16;
    ConfigOfSender(c, History(c, s), s.sender);
    var items := EncodeMessage(s.sender.cipher, c.output.maxDataLength, data).items;
    OR.EnqueueIsStash(s.sender, data);
    hide Enqueue;
    StashAllAppends(s.sender, items);
    assert R.Window(Next(s, EnqueueData(data)).sender) == R.Window(s.sender);
  }

  lemma WindowStays(c: Config, s: System, now: nat)
    requires WellConfigured(c) && Inv(c, s) && Stalled(c, s)
    ensures AsBefore(c, s, Next(s, SenderTick(now)))
  {
    hide AcceptAll, EncodeAll, AllFit, RunTick, Due, QueueOk;
    ConfigOfSender(c, History(c, s), s.sender);
    SenderFits(c, s);
    TickKeepsQueue(s.sender, now, c.output.maxQueuedOutgoing);
    R.TickMarks(s.sender, now);
    var w, o := c.output.maxQueuedOutgoing, Next(s, SenderTick(now)).sender;
    forall k | 0 <= k < w
      ensures R.Window(o)[k].sequence < s.receiver.windowStart
    {
      assert R.Window(s.sender)[k] in R.Window(s.sender);
    }
  }

  /** Whatever happens from then on, nothing more is delivered. */
  lemma {:induction false} StalledForGood(c: Config, actions: seq<Action>, more: seq<Action>, time: nat)
    requires WellConfigured(c) && WindowsAgree(c) && Possible(c, actions) && Possible(c, actions + more) && AllLater(more, time)
    requires Stalled(c, Execute(c, actions)) && time >= Execute(c, actions).receiver.lastAckAllTime + c.input.maxAckDelay
    ensures AsBefore(c, Execute(c, actions), Execute(c, actions + more))
    decreases |more|
  {
    hide Inv, Unsent, Stalled, Next, Enabled, Later;
    if more == [] {
      assert actions + more == actions;
    } else {
      var n := |more| - 1;
      assert (actions + more)[..|actions + more| - 1] == actions + more[..n];
      StalledForGood(c, actions, more[..n], time);
      UnsentHolds(c, actions + more[..n]);
      StaysStalled(c, Execute(c, actions + more[..n]), more[n], time);
    }
  }

  // ----- Not stalled -------------------------------------------------------------------------

  /** The packet the receiver waits for is in the sender's window. */
  ghost predicate InReach(s: System) {
    exists p :: p in R.Window(s.sender) && p.sequence == s.receiver.windowStart
  }

  lemma NextInReach(s: System, i: nat)
    requires i < |s.sender.queue| && i < s.sender.config.maxQueuedOutgoing && s.sender.queue[i].sequence == s.receiver.windowStart
    ensures InReach(s)
  {
    assert R.Window(s.sender)[i] == s.sender.queue[i];
  }

  /** Late enough, a tick sends the whole window. */
  lemma SendsWindow(c: Config, s: System, time: nat) returns (now: nat)
    requires WellConfigured(c) && Inv(c, s) && R.SentOk(s)
    ensures now >= time && R.Datagrams(R.Window(s.sender)) <= Next(s, SenderTick(now)).network
  {
    hide AcceptAll, EncodeAll, AllFit;
    var o := s.sender;
    now := time + (if o.queue != [] && o.queue[0].sentAt.Some? then o.queue[0].sentAt.value + o.timer.rto + 1 else 0);
    R.TickAdds(c, s, now);
    if !R.Late(o, now) {
      assert o.queue != [] ==> !o.queue[0].sent;
      SenderFits(c, s);
      assert forall p | p in R.Window(o) :: !p.sent;
    }
  }

  /** The sender ticks and the packet the receiver waits for arrives. */
  lemma DeliversNext(c: Config, actions: seq<Action>, time: nat) returns (more: seq<Action>)
    requires WellConfigured(c) && WindowsAgree(c) && Possible(c, actions) && InReach(Execute(c, actions))
    ensures AllLater(more, time) && Possible(c, actions + more)
    ensures Execute(c, actions + more).receiver.windowStart > Execute(c, actions).receiver.windowStart
  {
    hide Inv, Next, Enabled, R.SentOk;
    var s := Execute(c, actions);
    UnsentHolds(c, actions);
    SentOf(s);
    var now := SendsWindow(c, s, time);
    R.AlwaysTicks(s, now);
    NextKeepsInv(c, s, SenderTick(now));
    var p :| p in R.Window(s.sender) && p.sequence == s.receiver.windowStart;
    var d := Datagram(p.sequence, Wire(p));
    assert d in R.Datagrams(R.Window(s.sender));
    R.NextArrives(c, s, d, now, time);
    Extended(c, actions, SenderTick(now));
    Extended(c, actions + [SenderTick(now)], DeliverData(d, time));
    more := [SenderTick(now), DeliverData(d, time)];
    assert actions + more == actions + [SenderTick(now)] + [DeliverData(d, time)];
    SameWindowStart(s, now);
  }

  lemma SentOf(s: System)
    requires Unsent(s)
    ensures R.SentOk(s)
  {
  }

  lemma SameWindowStart(s: System, now: nat)
    ensures Enabled(s, SenderTick(now)) && Next(s, SenderTick(now)).receiver == s.receiver
  {
  }

  /** The receiver acknowledges all that it has consumed, and that arrives: what is left in the queue is new. */
  lemma FreesWindow(c: Config, actions: seq<Action>, time: nat) returns (more: seq<Action>)
    requires WellConfigured(c) && WindowsAgree(c) && Possible(c, actions)
    requires var s := Execute(c, actions); s.acks == [] && !c.input.acknowledgeAllData && RI.Backlog(s.receiver) > 0
    ensures AllLater(more, time) && Possible(c, actions + more)
    ensures var s, s' := Execute(c, actions), Execute(c, actions + more);
            && s'.receiver.windowStart == s.receiver.windowStart && s'.sender.totalSequence == s.sender.totalSequence
            && forall p | p in s'.sender.queue :: p.sequence >= s.receiver.windowStart
  {
    hide Inv, Next, Enabled;
    var s := Execute(c, actions);
    InvHolds(c, actions);
    var now := time + s.receiver.lastAckAllTime + c.input.maxAckDelay + 1;
    var tick, ack := ReceiverTick(now), DeliverAck(now);
    TickAcknowledges(c, s, now);
    Extended(c, actions, tick);
    AckFrees(c, Next(s, tick), now);
    Extended(c, actions + [tick], ack);
    more := [tick, ack];
    assert actions + more == actions + [tick] + [ack];
  }

  lemma TickAcknowledges(c: Config, s: System, now: nat)
    requires WellConfigured(c) && Inv(c, s) && s.acks == [] && !c.input.acknowledgeAllData && RI.Backlog(s.receiver) > 0
    requires now > s.receiver.lastAckAllTime + c.input.maxAckDelay
    ensures Enabled(s, ReceiverTick(now))
    ensures var s' := Next(s, ReceiverTick(now));
            && Inv(c, s') && s'.acks == [RI.Ack(true, s.receiver.windowStart - 1)] && s'.sender == s.sender
            && s'.receiver.windowStart == s.receiver.windowStart && RI.Backlog(s'.receiver) == 0
  {
    hide AcceptAll, EncodeAll, AllFit;
    ReceiverTickKeepsInv(c, s, now);
  }

  lemma AckFrees(c: Config, s: System, now: nat)
    requires WellConfigured(c) && WindowsAgree(c) && Inv(c, s) && s.acks == [RI.Ack(true, s.receiver.windowStart - 1)]
    ensures Enabled(s, DeliverAck(now))
    ensures var s' := Next(s, DeliverAck(now));
            && s'.receiver == s.receiver && s'.sender.totalSequence == s.sender.totalSequence
            && forall p | p in s'.sender.queue :: p.sequence >= s.receiver.windowStart
  {
    hide Inv, TrueIncoming, ApplySample, LastSample, QueueOk;
    AckDecodes(c, s);
    SenderFits(c, s);
    var queue, t := s.sender.queue, s.receiver.windowStart - 1;
    var n := LeadCount(queue, t);
    var rest := Next(s, DeliverAck(now)).sender.queue;
    assert rest == queue[n..];
    forall k | 0 <= k < |rest|
      ensures rest[k].sequence > t
    {
      Sorted(s.sender, n, n + k);
    }
  }

  lemma Sorted(o: OutputState, i: nat, j: nat)
    requires WindowOk(o) && i <= j < |o.queue|
    ensures o.queue[i].sequence <= o.queue[j].sequence
  {
  }

  /** One more message. */
  lemma EnqueuesNext(c: Config, actions: seq<Action>) returns (more: seq<Action>)
    requires WellConfigured(c) && WindowsAgree(c) && Possible(c, actions)
    requires var s := Execute(c, actions);
             s.receiver.windowStart == s.sender.totalSequence && |s.sender.queue| < c.output.maxQueuedOutgoing
    ensures more == [EnqueueData([0])] && Possible(c, actions + more)
    ensures Execute(c, actions + more).receiver == Execute(c, actions).receiver && InReach(Execute(c, actions + more))
    ensures var s, s' := Execute(c, actions), Execute(c, actions + more);
            && s' == s.(sender := s'.sender, enqueued := s'.enqueued)
            && s'.sender.totalSequence == s.sender.totalSequence + 1 && |s'.sender.queue| == |s.sender.queue| + 1
  {
    hide Inv, EncodeMessage, StashAll;
    var s := Execute(c, actions);
    InvHolds(c, actions);
    OneByteFits(c, s);
    Extended(c, actions, EnqueueData([0]));
    more := [EnqueueData([0])];
    var items := EncodeMessage(s.sender.cipher, c.output.maxDataLength, [0]).items;
    OR.EnqueueIsStash(s.sender, [0]);
    hide Enqueue;
    StashAllAppends(s.sender, items);
    NextInReach(Execute(c, actions + more), |s.sender.queue|);
  }

  lemma OneByteFits(c: Config, s: System)
    requires WellConfigured(c) && Inv(c, s)
    ensures Enabled(s, EnqueueData([0])) && s.sender.config == c.output
    ensures |EncodeMessage(s.sender.cipher, c.output.maxDataLength, [0]).items| == 1
  {
    hide AcceptAll, EncodeAll, AllFit, Transform;
    ConfigOfSender(c, History(c, s), s.sender);
  }

  /** What the receiver waits for is queued, and in reach if it stands where the window is. */
  lemma WaitedForIsQueued(c: Config, s: System) returns (i: nat)
    requires WellConfigured(c) && Inv(c, s) && s.receiver.windowStart != s.sender.totalSequence
    ensures i < |s.sender.queue| && s.sender.queue[i].sequence == s.receiver.windowStart && s.sender.config == c.output
    ensures forall k | 0 <= k < |s.sender.queue| && s.sender.queue[k].sequence >= s.receiver.windowStart :: i <= k
  {
    hide AcceptAll, EncodeAll, AllFit;
    assert Queued(s.sender.queue, s.receiver.windowStart);
    i :| 0 <= i < |s.sender.queue| && s.sender.queue[i].sequence == s.receiver.windowStart;
  }

  lemma CompletedQueue(c: Config, s: System)
    requires WellConfigured(c) && Inv(c, s) && s.receiver.windowStart == s.sender.totalSequence
    ensures forall p | p in s.sender.queue :: p.sequence < s.receiver.windowStart
  {
    hide AcceptAll, EncodeAll, AllFit;
    assert forall i | 0 <= i < |s.sender.queue| :: InHistory(History(c, s), s.sender.queue[i]);
  }

  /** If the queue holds new packets only, or is shorter than the window, or its window holds a new one. */
  lemma RoomToAdvance(c: Config, actions: seq<Action>, time: nat) returns (more: seq<Action>)
    requires WellConfigured(c) && WindowsAgree(c) && Possible(c, actions)
    requires var s := Execute(c, actions);
             || |s.sender.queue| < c.output.maxQueuedOutgoing
             || (exists p :: p in R.Window(s.sender) && p.sequence >= s.receiver.windowStart)
    ensures AllLater(more, time) && Possible(c, actions + more)
    ensures Execute(c, actions + more).receiver.windowStart > Execute(c, actions).receiver.windowStart
  {
    hide Inv, Next, Enabled, InReach;
    var s := Execute(c, actions);
    InvHolds(c, actions);
    if s.receiver.windowStart == s.sender.totalSequence {
      CompletedQueue(c, s);
      var one := EnqueuesNext(c, actions);
      var rest := DeliversNext(c, actions + one, time);
      more := one + rest;
      assert actions + more == actions + one + rest;
    } else {
      var i := WaitedForIsQueued(c, s);
      if |s.sender.queue| >= c.output.maxQueuedOutgoing {
        var p :| p in R.Window(s.sender) && p.sequence >= s.receiver.windowStart;
        var k :| 0 <= k < |R.Window(s.sender)| && R.Window(s.sender)[k] == p;
        assert s.sender.queue[k] == p;
      }
      NextInReach(s, i);
      more := DeliversNext(c, actions, time);
    }
  }

  /** With no acknowledgement on the way and the last ack-all no longer young, the receiver can get further exactly
      if the state is not stalled: then, and only then, some continuation makes it advance. */
  lemma CanAdvanceIff(c: Config, actions: seq<Action>, time: nat)
    requires WellConfigured(c) && WindowsAgree(c) && Possible(c, actions) && Execute(c, actions).acks == []
    requires time >= Execute(c, actions).receiver.lastAckAllTime + c.input.maxAckDelay
    ensures CanAdvance(c, actions, time) <==> !Stalled(c, Execute(c, actions))
  {
    hide Inv, Next, Enabled, Later;
    var s := Execute(c, actions);
    if Stalled(c, s) {
      forall more: seq<Action> | AllLater(more, time) && Possible(c, actions + more)
        ensures Execute(c, actions + more).receiver.windowStart == s.receiver.windowStart
      {
        StalledForGood(c, actions, more, time);
      }
    } else {
      var more: seq<Action>;
      if |s.sender.queue| < c.output.maxQueuedOutgoing || exists p :: p in R.Window(s.sender) && p.sequence >= s.receiver.windowStart {
        more := RoomToAdvance(c, actions, time);
      } else {
        var freed := FreesWindow(c, actions, time);
        FreedWindow(c, actions + freed, s.receiver.windowStart);
        var rest := RoomToAdvance(c, actions + freed, time);
        more := freed + rest;
        assert actions + more == actions + freed + rest;
      }
      assert CanAdvance(c, actions, time);
    }
  }

  lemma FreedWindow(c: Config, actions: seq<Action>, start: nat)
    requires WellConfigured(c) && WindowsAgree(c) && Possible(c, actions)
    requires var s := Execute(c, actions); s.receiver.windowStart == start && forall p | p in s.sender.queue :: p.sequence >= start
    ensures var s := Execute(c, actions);
            || |s.sender.queue| < c.output.maxQueuedOutgoing
            || (exists p :: p in R.Window(s.sender) && p.sequence >= s.receiver.windowStart)
  {
    hide AcceptAll, EncodeAll, AllFit, Execute;
    InvHolds(c, actions);
    var s := Execute(c, actions);
    ConfigOfSender(c, History(c, s), s.sender);
    if |s.sender.queue| >= c.output.maxQueuedOutgoing { assert R.Window(s.sender)[0] in R.Window(s.sender); }
  }

  // ----- Getting there -----------------------------------------------------------------------

  /** All was delivered, and none of it acknowledged together or on the way to be. */
  ghost predicate Unacknowledged(c: Config, s: System, n: nat) {
    && |s.sender.queue| == n && s.receiver.windowStart == s.sender.totalSequence && s.receiver.windowStart >= n
    && s.acks == [] && s.receiver.lastAckAll == -1 && s.receiver.lastAckAllTime == c.start
  }

  /** The packet the receiver waits for makes it emit no ack-all. */
  lemma NextIsQuiet(c: Config, s: System, d: Datagram, now: nat)
    requires WellConfigured(c) && Inv(c, s) && Enabled(s, DeliverData(d, now)) && d.sequence == s.receiver.windowStart
    ensures var s' := Next(s, DeliverData(d, now));
            && s'.sender == s.sender && s.receiver.windowStart < s'.receiver.windowStart <= s.sender.totalSequence
            && |s'.acks| <= |s.acks| + 1
            && s'.receiver.lastAckAll == s.receiver.lastAckAll && s'.receiver.lastAckAllTime == s.receiver.lastAckAllTime
  {
    hide AcceptAll, EncodeAll, AllFit, RI.TakeNext, RI.ConsumeStashed, TrueIncomingSequence, U16, QueueOk;
    var ws, history := s.receiver.windowStart, History(c, s);
    HistoryIsAccepted(c, s);
    ReceiveNext(c, history, s.receiver, s.delivered, now);
    ReceivedSequence(c, s.receiver, ws, d.packet.payload);
    assert d.packet.payload[2..] == history[ws].body;
    InputLedger.NextOwesNothing(RI.AckOne(RI.CountReceived(s.receiver), ws), history[ws]);
  }

  /** One more message goes through and what acknowledges it is lost. */
  lemma OneMore(c: Config, actions: seq<Action>, n: nat) returns (longer: seq<Action>)
    requires WellConfigured(c) && WindowsAgree(c) && Possible(c, actions)
    requires Unacknowledged(c, Execute(c, actions), n) && n < c.output.maxQueuedOutgoing
    ensures Possible(c, longer) && Unacknowledged(c, Execute(c, longer), n + 1)
  {
    hide Inv, Next, Enabled, R.SentOk;
    var one := EnqueuesNext(c, actions);
    var a1 := actions + one;
    var s1 := Execute(c, a1);
    UnsentHolds(c, a1);
    SentOf(s1);
    var now := SendsWindow(c, s1, 0);
    SameWindowStart(s1, now);
    KeepsQueue(c, s1, now);
    NextKeepsInv(c, s1, SenderTick(now));
    var p :| p in R.Window(s1.sender) && p.sequence == s1.receiver.windowStart;
    var d := Datagram(p.sequence, Wire(p));
    assert d in R.Datagrams(R.Window(s1.sender));
    R.NextArrives(c, s1, d, now, now);
    NextIsQuiet(c, Next(s1, SenderTick(now)), d, now);
    Extended(c, a1, SenderTick(now));
    Extended(c, a1 + [SenderTick(now)], DeliverData(d, now));
    longer := a1 + [SenderTick(now)] + [DeliverData(d, now)];
    if Execute(c, longer).acks != [] { longer := LosesAck(c, longer); }
  }

  lemma KeepsQueue(c: Config, s: System, now: nat)
    requires WellConfigured(c) && Inv(c, s)
    ensures var s' := Next(s, SenderTick(now));
            |s'.sender.queue| == |s.sender.queue| && s'.sender.totalSequence == s.sender.totalSequence && s'.acks == s.acks
  {
    hide AcceptAll, EncodeAll, AllFit, Due, CountSent, QueueOk, TimedOut;
  }

  lemma LosesAck(c: Config, actions: seq<Action>) returns (longer: seq<Action>)
    requires Possible(c, actions) && |Execute(c, actions).acks| == 1
    ensures Possible(c, longer) && Execute(c, longer) == Execute(c, actions).(acks := [])
  {
    assert Execute(c, actions).acks[..0] + Execute(c, actions).acks[1..] == [];
    Extended(c, actions, LoseAck(0));
    longer := actions + [LoseAck(0)];
  }

  lemma {:induction false} FillsWindow(c: Config, n: nat) returns (actions: seq<Action>)
    requires WellConfigured(c) && WindowsAgree(c) && n <= c.output.maxQueuedOutgoing
    ensures Possible(c, actions) && Unacknowledged(c, Execute(c, actions), n)
  {
    hide Inv, Next, Enabled;
    if n == 0 {
      actions := [];
    } else {
      actions := FillsWindow(c, n - 1);
      actions := OneMore(c, actions, n - 1);
    }
  }

  /** Every configuration has a run that ends in a stalled state: a window of messages is delivered, and all that
      acknowledges it is lost. */
  lemma AnyConfigurationCanStall(c: Config) returns (actions: seq<Action>)
    requires WellConfigured(c) && WindowsAgree(c)
    ensures Possible(c, actions) && Stalled(c, Execute(c, actions))
  {
    hide Inv, Next, Enabled;
    actions := FillsWindow(c, c.output.maxQueuedOutgoing);
    var s := Execute(c, actions);
    InvHolds(c, actions);
    CompletedQueue(c, s);
    if !c.input.acknowledgeAllData {
      var now := c.start + c.input.maxAckDelay + 1;
      TickAcknowledges(c, s, now);
      Extended(c, actions, ReceiverTick(now));
      actions := LosesAck(c, actions + [ReceiverTick(now)]);
    }
  }
}
