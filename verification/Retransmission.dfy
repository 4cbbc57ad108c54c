/** When a packet is sent again (src/channel/output.rs): a tick resends the whole window exactly when the
    oldest packet is overdue. Otherwise it sends what was never sent, unless a packet that was never sent
    has been acknowledged. Over any runs of one channel, and between two channels on a network that loses,
    duplicates and reorders. */
module Retransmission {
  import opened Bytes
  import opened Rc4
  import opened DataCodec
  import opened ReliableOutput
  import opened OutputWindow
  import opened OutputRuns
  import RI = ReliableInput
  import E = EndToEnd

  /** The front packet was dispatched, the last time longer ago than the current timeout. */
  ghost predicate Overdue(o: OutputState, log: seq<Dispatch>, now: nat) {
    && o.queue != []
    && var times := Times(log, o.queue[0].sequence);
       times != [] && now > times[|times| - 1] + o.timer.rto
  }

  lemma OverdueIsTimedOut(o: OutputState, log: seq<Dispatch>, now: nat)
    requires LogOk(o, log)
    ensures Overdue(o, log, now) <==> TimedOut(o, now)
  {
    hide QueueOk, Times, Sequences;
    if o.queue != [] { assert MarksOk(o.queue[0], Times(log, o.queue[0].sequence)); }
  }

  /** What a tick hands out and does to the timer, by the front packet and the dispatch index. */
  lemma TickIs(o: OutputState, now: nat)
    requires WindowOk(o)
    ensures var o', n := RunTick(o, now), Min(|o.queue|, o.config.maxQueuedOutgoing);
            if TimedOut(o, now) then
              o'.outgoing == o.outgoing + WireAll(o.queue[..n]) && o'.timer == o.timer.(rto := Min(2 * o.timer.rto, 8_000_000_000))
            else
              && (o.dispatchIndex <= n ==> o'.outgoing == o.outgoing + WireAll(o.queue[o.dispatchIndex..n]))
              && o'.timer == o.timer
  {
    hide CountSent, QueueOk, TimedOut;
    var n := Min(|o.queue|, o.config.maxQueuedOutgoing);
    assert o.queue[n..n] == [] && o.outgoing + [] == o.outgoing && o.queue[0..n] == o.queue[..n];
  }

  /** In every run a tick that finds the front packet overdue hands out the first min(length, window) packets
      once more and doubles the timeout, up to 8 seconds; any other tick leaves the timeout alone. */
  lemma TimeoutResends(config: OutputConfig, cipher: Option<Cipher>, calls: seq<Call>, now: nat)
    requires forall k | 0 <= k < |calls| :: Callable(config, calls[k])
    ensures var o, log := Run(Initial(config, cipher), calls), Log(Initial(config, cipher), calls);
            var o', n := RunTick(o, now), Min(|o.queue|, config.maxQueuedOutgoing);
            if Overdue(o, log, now) then
              o'.outgoing == o.outgoing + WireAll(o.queue[..n]) && o'.timer == o.timer.(rto := Min(2 * o.timer.rto, 8_000_000_000))
            else
              o'.timer == o.timer
  {
    hide Run, Log, Sequences, RunTick, Overdue, TimedOut;
    LogHolds(config, cipher, calls);
    var o, log := Run(Initial(config, cipher), calls), Log(Initial(config, cipher), calls);
    OverdueIsTimedOut(o, log, now);
    TickIs(o, now);
  }

  /** How often a tick found the front packet overdue. */
  ghost function Timeouts(o: OutputState, calls: seq<Call>): nat
    requires forall k | 0 <= k < |calls| :: Callable(o.config, calls[k])
    decreases |calls|
  {
    if calls == [] then 0 else
      var before, last := calls[..|calls| - 1], calls[|calls| - 1];
      Timeouts(o, before) + if last.Tick? && Overdue(Run(o, before), Log(o, before), last.now) then 1 else 0
  }

  function Doubled(wait: nat, n: nat): nat {
    if n == 0 then wait else Min(2 * Doubled(wait, n - 1), 8_000_000_000)
  }

  /** As long as nothing is acknowledged the timeout is the configured wait, doubled once for each timeout. */
  lemma {:induction false} BackoffDoubles(config: OutputConfig, cipher: Option<Cipher>, calls: seq<Call>)
    requires forall k | 0 <= k < |calls| :: Callable(config, calls[k]) && !calls[k].Acknowledged? && !calls[k].AcknowledgedAll?
    ensures var o0 := Initial(config, cipher);
            Run(o0, calls).timer == Timer(None, 0, Doubled(config.ackWait, Timeouts(o0, calls)))
    decreases |calls|
  {
    hide Enqueue, RunTick, Overdue, Log, EncodeMessage, StashAll;
    if calls != [] {
      var before, last := calls[..|calls| - 1], calls[|calls| - 1];
      BackoffDoubles(config, cipher, before);
      var o := Run(Initial(config, cipher), before);
      match last
      case EnqueueData(data) =>
        EnqueueIsStash(o, data);
        StashAllAppends(o, EncodeMessage(o.cipher, o.config.maxDataLength, data).items);
      case Tick(now) => TimeoutResends(config, cipher, before, now);
      case Take =>
    }
  }

  // ----- Nothing is sent twice before the timeout ----------------------------------------------

  /** Dispatch goes on where the packets never sent begin. */
  ghost predicate InStep(o: OutputState) {
    forall i | 0 <= i < |o.queue| :: o.queue[i].sent <==> i < o.dispatchIndex
  }

  /** A single acknowledgement of a packet that is queued and was never sent, while others are in flight. */
  ghost predicate Untimely(o: OutputState, call: Call)
    requires Callable(o.config, call)
  {
    && call.Acknowledged? && o.queue != [] && o.queue[0].sent
    && exists i :: 0 <= i < |o.queue| && o.queue[i].sequence == TrueIncoming(o, call.sequence) && !o.queue[i].sent
  }

  /** Only such an acknowledgement brings dispatch out of step. */
  lemma StaysInStepIff(o: OutputState, call: Call)
    requires Callable(o.config, call) && WindowOk(o) && InStep(o)
    ensures InStep(Apply(o, call)) <==> !Untimely(o, call)
  {
    hide Enqueue, RunTick, TrueIncoming, UpdateRto, EncodeMessage, StashAll, LastSample, Sample, U16;
    match call
    case EnqueueData(data) =>
      EnqueueIsStash(o, data);
      StashAllAppends(o, EncodeMessage(o.cipher, o.config.maxDataLength, data).items);
    case Tick(now) => TickStaysInStep(o, now);
    case Take =>
    case Acknowledged(sequence, now) => AckStaysInStepIff(o, sequence, now);
    case AcknowledgedAll(sequence, now) =>
      var n := LeadCount(o.queue, TrueIncoming(o, sequence));
      assert forall i | 0 <= i < |o.queue| - n :: Apply(o, call).queue[i] == o.queue[i + n];
  }

  lemma TickStaysInStep(o: OutputState, now: nat)
    requires WindowOk(o) && InStep(o)
    ensures InStep(RunTick(o, now))
  {
    hide CountSent, TimedOut;
    TickSendsWindow(o, now);
  }

  lemma AckStaysInStepIff(o: OutputState, sequence: nat, now: nat)
    requires sequence < 0x1_0000 && WindowOk(o) && InStep(o)
    ensures InStep(Acknowledge(o, sequence, now)) <==> !Untimely(o, Acknowledged(sequence, now))
  {
    hide TrueIncoming, UpdateRto, Sample;
    var t, o' := TrueIncoming(o, sequence), Acknowledge(o, sequence, now);
    var p := Position(o.queue, t);
    if p < |o.queue| {
      assert forall i | 0 <= i < |o'.queue| :: o'.queue[i] == o.queue[if i < p then i else i + 1];
      assert forall i | 0 <= i < |o.queue| && o.queue[i].sequence == t :: i == p;
      if Untimely(o, Acknowledged(sequence, now)) { assert o'.queue[o.dispatchIndex - 1].sent; }
    }
  }

  /** A packet acknowledged singly was dispatched before. */
  ghost predicate Known(o: OutputState, log: seq<Dispatch>, call: Call)
    requires Callable(o.config, call)
  {
    call.Acknowledged? ==>
      forall p | p in o.queue && p.sequence == TrueIncoming(o, call.sequence) :: Times(log, p.sequence) != []
  }

  /** In no call of the run is a packet acknowledged singly that was never dispatched. */
  ghost predicate Honest(config: OutputConfig, cipher: Option<Cipher>, calls: seq<Call>)
    requires forall k | 0 <= k < |calls| :: Callable(config, calls[k])
  {
    var o0 := Initial(config, cipher);
    forall k | 0 <= k < |calls| :: Known(Run(o0, calls[..k]), Log(o0, calls[..k]), calls[k])
  }

  lemma {:induction false} HonestStaysInStep(config: OutputConfig, cipher: Option<Cipher>, calls: seq<Call>)
    requires forall k | 0 <= k < |calls| :: Callable(config, calls[k])
    requires Honest(config, cipher, calls)
    ensures InStep(Run(Initial(config, cipher), calls))
    decreases |calls|
  {
    hide Apply, QueueOk, Times, Sequences, TrueIncoming, InStep, Untimely, LogOk, Known, Honest, Log;
    var o0 := Initial(config, cipher);
    if calls == [] {
      NothingSent(config, cipher);
    } else {
      var before, call := calls[..|calls| - 1], calls[|calls| - 1];
      HonestFront(config, cipher, calls);
      HonestStaysInStep(config, cipher, before);
      var o, log := Run(o0, before), Log(o0, before);
      LogHolds(config, cipher, before);
      NotUntimely(o, log, call);
      WindowHolds(config, cipher, before);
      StaysInStepIff(o, call);
    }
  }

  lemma HonestFront(config: OutputConfig, cipher: Option<Cipher>, calls: seq<Call>)
    requires forall k | 0 <= k < |calls| :: Callable(config, calls[k])
    requires calls != [] && Honest(config, cipher, calls)
    ensures var o0, before := Initial(config, cipher), calls[..|calls| - 1];
            Honest(config, cipher, before) && Known(Run(o0, before), Log(o0, before), calls[|calls| - 1])
  {
    hide Run, Log, Known, Callable;
    var before := calls[..|calls| - 1];
    assert forall k | 0 <= k < |before| :: before[..k] == calls[..k] && before[k] == calls[k];
  }

  lemma NothingSent(config: OutputConfig, cipher: Option<Cipher>)
    ensures InStep(Initial(config, cipher))
  {
  }

  lemma NotUntimely(o: OutputState, log: seq<Dispatch>, call: Call)
    requires Callable(o.config, call) && LogOk(o, log) && Known(o, log, call)
    ensures !Untimely(o, call)
  {
    hide QueueOk, Times, Sequences, TrueIncoming;
    if !call.Acknowledged? { return; }
    forall i | 0 <= i < |o.queue| && o.queue[i].sequence == TrueIncoming(o, call.sequence)
      ensures o.queue[i].sent
    {
      assert o.queue[i] in o.queue;
      assert MarksOk(o.queue[i], Times(log, o.queue[i].sequence));
    }
  }

  /** In every honest run a tick that finds nothing overdue hands out exactly the packets of the window that
      were never dispatched: those from position `j` on. */
  lemma OnlyNewPackets(config: OutputConfig, cipher: Option<Cipher>, calls: seq<Call>, now: nat) returns (j: nat)
    requires forall k | 0 <= k < |calls| :: Callable(config, calls[k])
    requires Honest(config, cipher, calls)
    requires !Overdue(Run(Initial(config, cipher), calls), Log(Initial(config, cipher), calls), now)
    ensures var o, log := Run(Initial(config, cipher), calls), Log(Initial(config, cipher), calls);
            var n := Min(|o.queue|, config.maxQueuedOutgoing);
            && j <= n && RunTick(o, now).outgoing == o.outgoing + WireAll(o.queue[j..n])
            && forall i | 0 <= i < |o.queue| :: Times(log, o.queue[i].sequence) == [] <==> j <= i
  {
    hide Run, Log, Sequences, RunTick, Overdue, TimedOut, Times, Honest;
    LogHolds(config, cipher, calls);
    var o, log := Run(Initial(config, cipher), calls), Log(Initial(config, cipher), calls);
    OverdueIsTimedOut(o, log, now);
    TickIs(o, now);
    HonestStaysInStep(config, cipher, calls);
    j := o.dispatchIndex;
    assert j > 0 ==> o.queue[j - 1].sent;
    forall i | 0 <= i < |o.queue|
      ensures Times(log, o.queue[i].sequence) == [] <==> j <= i
    {
      assert MarksOk(o.queue[i], Times(log, o.queue[i].sequence));
    }
  }

  /** Otherwise not: after an untimely acknowledgement the next tick hands a packet out again that is not
      overdue. */
  lemma UntimelyResends(o: OutputState, call: Call, now: nat)
    requires Callable(o.config, call) && WindowOk(o) && InStep(o) && Untimely(o, call)
    requires !TimedOut(Apply(o, call), now)
    ensures var o1, i := Apply(o, call), o.dispatchIndex - 1;
            && 0 <= i < |o1.queue| && o1.queue[i].sent
            && Wire(o1.queue[i]) in RunTick(o1, now).outgoing[|o1.outgoing|..]
  {
    hide TrueIncoming, UpdateRto, Sample, TimedOut, RunTick;
    var t, i, o1 := TrueIncoming(o, call.sequence), o.dispatchIndex - 1, Apply(o, call);
    var p := Position(o.queue, t);
    assert o.queue[i].sent && p > i && o1.queue[i] == o.queue[i];
    ApplyKeepsWindow(o, call);
    TickIs(o1, now);
    var n := Min(|o1.queue|, o1.config.maxQueuedOutgoing);
    assert o1.dispatchIndex == i && i < n;
    assert WireAll(o1.queue[i..n])[0] == Wire(o1.queue[i]);
  }

  // ----- Between two channels ------------------------------------------------------------------

  /** Dispatch is in step, and whatever was sent or has arrived is marked as sent. */
  ghost predicate SentOk(s: E.System) {
    && InStep(s.sender) && (forall p | p in s.sender.queue && p.sent :: p.sentAt.Some?)
    && (forall p, d | p in s.sender.queue && d in s.network && d.sequence == p.sequence :: p.sent)
    && (forall p | p in s.sender.queue && E.Accepted(s.receiver, p.sequence) :: p.sent)
  }

  lemma EnqueueKeepsSent(c: E.Config, s: E.System, data: bytes)
    requires E.WellConfigured(c) && E.Inv(c, s) && SentOk(s) && E.Enabled(s, E.EnqueueData(data))
    ensures SentOk(E.Next(s, E.EnqueueData(data)))
  {
    hide AcceptAll, EncodeAll, AllFit, EncodeMessage, StashAll, QueueOk, LengthFits, WireUnit, U16;
    E.ConfigOfSender(c, E.History(c, s), s.sender);
    E.SenderKeepsWindow(c, E.History(c, s), s.sender);
    var items := EncodeMessage(s.sender.cipher, c.output.maxDataLength, data).items;
    EnqueueIsStash(s.sender, data);
    hide Enqueue;
    StashAllAppends(s.sender, items);
    assert s.sender.dispatchIndex <= |s.sender.queue| by { WindowIndex(s.sender); }
  }

  lemma WindowIndex(o: OutputState)
    requires WindowOk(o)
    ensures o.dispatchIndex <= |o.queue|
  {
  }

  lemma TickKeepsSent(c: E.Config, s: E.System, now: nat)
    requires E.WellConfigured(c) && E.Inv(c, s) && SentOk(s)
    ensures SentOk(E.Next(s, E.SenderTick(now)))
  {
    hide AcceptAll, EncodeAll, AllFit, RunTick, Due, InStep, QueueOk, WindowEnd, E.ReceiverOk, E.NetworkOk, E.AcksOk, E.Retained;
    var o, o', s' := s.sender, RunTick(s.sender, now), E.Next(s, E.SenderTick(now));
    E.SenderKeepsWindow(c, E.History(c, s), o);
    TickStaysInStep(o, now);
    TickMarks(o, now);
    forall i, d | 0 <= i < |o'.queue| && d in s'.network && d.sequence == o'.queue[i].sequence
      ensures o'.queue[i].sent
    {
      assert o.queue[i] in o.queue;
    }
    forall i | 0 <= i < |o'.queue| && E.Accepted(s.receiver, o'.queue[i].sequence)
      ensures o'.queue[i].sent
    {
      assert o.queue[i] in o.queue;
    }
    forall i | 0 <= i < |o'.queue| && o'.queue[i].sent
      ensures o'.queue[i].sentAt.Some?
    {
      assert o.queue[i] in o.queue;
    }
    SameDispatch(o');
  }

  lemma SameDispatch(o: OutputState)
    requires InStep(o)
    ensures InStep(TakeOutgoing(o))
  {
  }

  lemma TickMarks(o: OutputState, now: nat)
    requires WindowOk(o)
    ensures var queue := RunTick(o, now).queue;
            && |queue| == |o.queue|
            && (forall i | 0 <= i < |queue| ::
                  && queue[i].sequence == o.queue[i].sequence && (o.queue[i].sent ==> queue[i].sent)
                  && (queue[i].sent ==> queue[i] == o.queue[i] || queue[i].sentAt.Some?))
            && (forall i, k | 0 <= i < |queue| && 0 <= k < |Due(o, now)| && Due(o, now)[k].sequence == queue[i].sequence :: queue[i].sent)
  {
    hide RunTick, QueueOk, TimedOut;
    TickKeepsQueue(o, now, o.config.maxQueuedOutgoing);
    TickSendsWindow(o, now);
    var queue := RunTick(o, now).queue;
    forall i, k | 0 <= i < |queue| && 0 <= k < |Due(o, now)| && Due(o, now)[k].sequence == queue[i].sequence
      ensures queue[i].sent
    {
      Sorted(o, i, DispatchStart(o, now) + k);
    }
  }

  lemma Sorted(o: OutputState, i: nat, j: nat)
    requires WindowOk(o) && i < |o.queue| && j < |o.queue| && o.queue[i].sequence == o.queue[j].sequence
    ensures i == j
  {
  }

  lemma DeliverDataKeepsSent(c: E.Config, s: E.System, d: E.Datagram, now: nat)
    requires E.WellConfigured(c) && E.Inv(c, s) && SentOk(s) && E.Enabled(s, E.DeliverData(d, now))
    ensures SentOk(E.Next(s, E.DeliverData(d, now)))
  {
    hide AcceptAll, EncodeAll, AllFit, RI.Receive, QueueOk, InStep;
    E.HistoryIsAccepted(c, s);
    E.ReceiveTrue(c, E.History(c, s), s.receiver, s.delivered, d.sequence, now);
    var n := RI.Receive(s.receiver, d.packet.kind == ReliableDataFragment, d.packet.payload, now);
    assert forall u :: E.Accepted(RI.Drain(n.state), u) <==> E.Accepted(n.state, u);
  }

  lemma ReceiverTickKeepsSent(s: E.System, now: nat)
    requires SentOk(s)
    ensures SentOk(E.Next(s, E.ReceiverTick(now)))
  {
    hide InStep;
    assert forall u :: E.Accepted(RI.Drain(RI.InputTick(s.receiver, now)), u) <==> E.Accepted(s.receiver, u);
  }

  lemma DeliverAckKeepsSent(c: E.Config, s: E.System, now: nat)
    requires E.WellConfigured(c) && E.WindowsAgree(c) && E.Inv(c, s) && SentOk(s) && s.acks != []
    ensures SentOk(E.Next(s, E.DeliverAck(now)))
  {
    hide AcceptAll, EncodeAll, AllFit, QueueOk, TrueIncoming, Acknowledge, AcknowledgeAll, InStep, Releases, ApplySample;
    var a, o := s.acks[0], s.sender;
    var call := if a.all then AcknowledgedAll(a.sequence % 0x1_0000, now) else Acknowledged(a.sequence % 0x1_0000, now);
    E.AckDecodes(c, s);
    assert E.AckOk(c, o.maxClientSequence, s.receiver, a);
    assert !Untimely(o, call);
    E.SenderKeepsWindow(c, E.History(c, s), o);
    StaysInStepIff(o, call);
    AcknowledgementReleases(o, call);
    assert E.Acked(o, a, now) == Apply(o, call);
    assert forall p | p in Apply(o, call).queue :: p in o.queue;
  }

  lemma {:induction false} SentHolds(c: E.Config, actions: seq<E.Action>)
    requires E.WellConfigured(c) && E.WindowsAgree(c) && E.Possible(c, actions)
    ensures SentOk(E.Execute(c, actions))
  {
    if actions == [] { return; }
    hide E.Inv, SentOk, E.Next, E.Enabled;
    var n := |actions| - 1;
    var s := E.Execute(c, actions[..n]);
    SentHolds(c, actions[..n]);
    E.InvHolds(c, actions[..n]);
    match actions[n]
    case EnqueueData(data) => EnqueueKeepsSent(c, s, data);
    case SenderTick(now) => TickKeepsSent(c, s, now);
    case DeliverData(d, now) => DeliverDataKeepsSent(c, s, d, now);
    case ReceiverTick(now) => ReceiverTickKeepsSent(s, now);
    case DeliverAck(now) => NotEmpty(s, now); DeliverAckKeepsSent(c, s, now);
    case LoseData(_) => LossKeepsSent(s, actions[n]);
    case LoseAck(_) => LossKeepsSent(s, actions[n]);
  }

  lemma NotEmpty(s: E.System, now: nat)
    requires E.Enabled(s, E.DeliverAck(now))
    ensures s.acks != []
  {
  }

  lemma LossKeepsSent(s: E.System, a: E.Action)
    requires SentOk(s) && E.Enabled(s, a) && (a.LoseData? || a.LoseAck?)
    ensures SentOk(E.Next(s, a))
  {
    hide InStep;
  }

  /** Queued packets as they travel. */
  function Datagrams(packets: seq<QueuedPacket>): set<E.Datagram> {
    set p | p in packets :: E.Datagram(p.sequence, Wire(p))
  }

  /** The oldest packet has been out for longer than the timeout. */
  predicate Late(o: OutputState, now: nat) {
    && o.queue != [] && o.queue[0].sent && o.queue[0].sentAt.Some?
    && now > o.queue[0].sentAt.value + o.timer.rto
  }

  function Window(o: OutputState): seq<QueuedPacket> {
    o.queue[..Min(|o.queue|, o.config.maxQueuedOutgoing)]
  }

  lemma TickAdds(c: E.Config, s: E.System, now: nat)
    requires E.WellConfigured(c) && E.Inv(c, s) && SentOk(s)
    ensures E.Next(s, E.SenderTick(now)).network == s.network +
      if Late(s.sender, now) then Datagrams(Window(s.sender)) else set p | p in Window(s.sender) && !p.sent :: E.Datagram(p.sequence, Wire(p))
  {
    hide AcceptAll, EncodeAll, AllFit, CountSent, RunTick, U16, Due, E.InHistory, E.IsPacket;
    var o, s', window := s.sender, E.Next(s, E.SenderTick(now)), Window(s.sender);
    E.SenderKeepsWindow(c, E.History(c, s), o);
    E.TickEmits(o, now);
    DueIs(o, now);
    var due := Due(o, now);
    assert s'.network == s.network + Datagrams(due) by {
      assert forall k | 0 <= k < |due| :: E.Datagram(due[k].sequence, WireAll(due)[k]) == E.Datagram(due[k].sequence, Wire(due[k]));
    }
  }

  /** The packets a tick dispatches: the whole window, or what was never sent of it. */
  lemma DueIs(o: OutputState, now: nat)
    requires WindowOk(o) && InStep(o)
    ensures forall p :: p in Due(o, now) <==> p in Window(o) && (Late(o, now) || !p.sent)
  {
    var start, end := DispatchStart(o, now), WindowEnd(o);
    WindowIndex(o);
    assert start <= end by { assert start > 0 ==> o.queue[start - 1].sent; }
    hide QueueOk;
    assert Due(o, now) == o.queue[start..end] == Window(o)[start..];
    forall p
      ensures p in Due(o, now) <==> p in Window(o) && (Late(o, now) || !p.sent)
    {
      if p in Due(o, now) {
        var k :| start <= k < end && o.queue[k] == p;
        assert Window(o)[k] == p;
      } else if p in Window(o) {
        var k :| 0 <= k < end && Window(o)[k] == p;
        assert k < start;
      }
    }
  }

  /** In every reachable state: once the front packet has been out for longer than the timeout, a tick puts
      the whole window on the network again, whatever was lost. Before that it adds just the packets of the
      window that were never sent. */
  lemma TickRefillsNetwork(c: E.Config, actions: seq<E.Action>, now: nat)
    requires E.WellConfigured(c) && E.WindowsAgree(c) && E.Possible(c, actions)
    ensures var s := E.Execute(c, actions);
            E.Next(s, E.SenderTick(now)).network == s.network +
              if Late(s.sender, now) then Datagrams(Window(s.sender))
              else set p | p in Window(s.sender) && !p.sent :: E.Datagram(p.sequence, Wire(p))
  {
    hide E.Inv, SentOk, E.Next;
    E.InvHolds(c, actions);
    SentHolds(c, actions);
    TickAdds(c, E.Execute(c, actions), now);
  }

  /** The packet the receiver waits for arrives. */
  ghost predicate Advances(s: E.System, d: E.Datagram, now: nat) {
    && d.sequence == s.receiver.windowStart && E.Enabled(s, E.DeliverData(d, now))
    && E.Next(s, E.DeliverData(d, now)).receiver.windowStart > s.receiver.windowStart
  }

  /** Whatever was lost: after a tick that finds the front packet late, either delivering one packet makes the
      receiver advance, or it has everything that was enqueued, or it has the whole window. */
  lemma TimeoutRecovers(c: E.Config, actions: seq<E.Action>, now: nat, later: nat)
    requires E.WellConfigured(c) && E.WindowsAgree(c) && E.Possible(c, actions)
    requires Late(E.Execute(c, actions).sender, now)
    ensures var s := E.Execute(c, actions);
            || s.receiver.windowStart == s.sender.totalSequence
            || (forall p | p in Window(s.sender) :: E.Accepted(s.receiver, p.sequence))
            || (exists d :: Advances(E.Next(s, E.SenderTick(now)), d, later))
  {
    hide E.Inv, SentOk, E.Next, E.Enabled;
    E.InvHolds(c, actions);
    SentHolds(c, actions);
    var s := E.Execute(c, actions);
    TickAdds(c, s, now);
    E.NextKeepsInv(c, s, E.SenderTick(now)) by { AlwaysTicks(s, now); }
    if s.receiver.windowStart != s.sender.totalSequence && !(forall p | p in Window(s.sender) :: E.Accepted(s.receiver, p.sequence)) {
      var p := MissingInWindow(c, s);
      var d := E.Datagram(p.sequence, Wire(p));
      assert d in Datagrams(Window(s.sender));
      NextArrives(c, s, d, now, later);
    }
  }

  lemma AlwaysTicks(s: E.System, now: nat)
    ensures E.Enabled(s, E.SenderTick(now))
  {
  }

  lemma MissingInWindow(c: E.Config, s: E.System) returns (p: QueuedPacket)
    requires E.WellConfigured(c) && E.Inv(c, s) && s.receiver.windowStart != s.sender.totalSequence
    requires !(forall p | p in Window(s.sender) :: E.Accepted(s.receiver, p.sequence))
    ensures p in Window(s.sender) && p.sequence == s.receiver.windowStart
  {
    hide AcceptAll, EncodeAll, AllFit, E.InHistory;
    var w, queue := s.receiver.windowStart, s.sender.queue;
    assert Queued(queue, w);
    var i :| 0 <= i < |queue| && queue[i].sequence == w;
    p := queue[i];
    var late :| late in Window(s.sender) && !E.Accepted(s.receiver, late.sequence);
    var j :| 0 <= j < |Window(s.sender)| && Window(s.sender)[j] == late;
    assert queue[j] == late && i <= j && Window(s.sender)[i] == p;
  }

  lemma NextArrives(c: E.Config, s: E.System, d: E.Datagram, now: nat, later: nat)
    requires E.WellConfigured(c) && E.Inv(c, s) && E.Inv(c, E.Next(s, E.SenderTick(now)))
    requires d in E.Next(s, E.SenderTick(now)).network && d.sequence == s.receiver.windowStart
    ensures Advances(E.Next(s, E.SenderTick(now)), d, later)
  {
    hide AcceptAll, EncodeAll, AllFit, RunTick, Due, QueueOk, RI.Receive, E.SenderOk;
    var s', history := E.Next(s, E.SenderTick(now)), E.History(c, s);
    E.HistoryIsAccepted(c, s');
    E.ReceiveTrue(c, history, s'.receiver, s'.delivered, d.sequence, later);
    var n := RI.Receive(s'.receiver, d.packet.kind == ReliableDataFragment, d.packet.payload, later);
    assert E.Accepted(n.state, d.sequence);
  }
}
