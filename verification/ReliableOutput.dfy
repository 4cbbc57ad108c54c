/** The state of the reliable output channel and what each of its operations does to it
    (src/channel/output.rs). OutputChannel.dfy proves the in-place implementation against these
    functions; times are nanoseconds. */
module ReliableOutput {
  import opened Bytes
  import opened Rc4
  import opened DataCodec
  import opened SequenceNumbers

  const RTO_GRANULARITY := 100_000_000
  const RTO_MIN := 200_000_000
  const RTO_MAX := 8_000_000_000

  datatype OutputConfig = OutputConfig(maxDataLength: nat, maxQueuedOutgoing: nat, ackWait: nat)

  datatype OutputStats = OutputStats(
    totalSent: nat, totalResent: nat, incomingAcknowledgeCount: nat, actualAcknowledgeCount: nat)

  datatype ReliableKind = ReliableData | ReliableDataFragment

  datatype OutgoingReliable = OutgoingReliable(kind: ReliableKind, payload: bytes)

  /** A queued packet: `data` is the big-endian sequence followed by the body. */
  datatype QueuedPacket = QueuedPacket(
    sequence: nat, isFragment: bool, data: bytes, sent: bool, sentAt: Option<nat>, resent: bool)

  /** The retransmission timer: smoothed round trip, its variation and the current timeout. */
  datatype Timer = Timer(srtt: Option<nat>, rttvar: nat, rto: nat)

  datatype OutputState = OutputState(
    config: OutputConfig, cipher: Option<Cipher>, queue: seq<QueuedPacket>,
    totalSequence: nat, maxClientSequence: nat, dispatchIndex: nat,
    timer: Timer, outgoing: seq<OutgoingReliable>, stats: OutputStats)

  function Initial(config: OutputConfig, cipher: Option<Cipher>): OutputState {
    OutputState(config, cipher, [], 0, 0, 0, Timer(None, 0, config.ackWait), [], OutputStats(0, 0, 0, 0))
  }

  /** `Instant::duration_since`: zero when the later time is not later. */
  function Since(now: nat, then_: nat): nat {
    if now >= then_ then now - then_ else 0
  }

  // ----- Enqueueing ------------------------------------------------------------------------

  function NewPacket(sequence: nat, item: Item): QueuedPacket {
    QueuedPacket(sequence, item.isFragment, U16(sequence) + item.body, false, None, false)
  }

  function Stash(s: OutputState, item: Item): OutputState {
    s.(queue := s.queue + [NewPacket(s.totalSequence, item)], totalSequence := s.totalSequence + 1)
  }

  function StashAll(s: OutputState, items: seq<Item>): OutputState
    decreases items
  {
    if items == [] then s else StashAll(Stash(s, items[0]), items[1..])
  }

  function Enqueue(s: OutputState, data: bytes): OutputState
    requires s.config.maxDataLength >= 6
  {
    var e := EncodeMessage(s.cipher, s.config.maxDataLength, data);
    StashAll(s.(cipher := e.cipher), e.items)
  }

  // ----- Dispatching -----------------------------------------------------------------------

  /** The oldest packet has been in flight for longer than the current timeout. */
  predicate TimedOut(s: OutputState, now: nat) {
    && s.queue != []
    && s.queue[0].sent
    && s.queue[0].sentAt.Some?
    && Since(now, s.queue[0].sentAt.value) > s.timer.rto
  }

  function WindowEnd(s: OutputState): nat {
    Min(|s.queue|, s.config.maxQueuedOutgoing)
  }

  /** Where dispatch starts: a timeout goes back to the front of the window. */
  function DispatchStart(s: OutputState, now: nat): nat {
    if TimedOut(s, now) then 0 else s.dispatchIndex
  }

  function Span(queue: seq<QueuedPacket>, from: nat, to: nat): seq<QueuedPacket> {
    if from < to <= |queue| then queue[from..to] else []
  }

  /** The packets a tick dispatches. */
  function Due(s: OutputState, now: nat): seq<QueuedPacket> {
    Span(s.queue, DispatchStart(s, now), WindowEnd(s))
  }

  function MarkSent(p: QueuedPacket, now: nat): QueuedPacket {
    p.(sent := true, sentAt := Some(now), resent := p.resent || p.sent)
  }

  function Wire(p: QueuedPacket): OutgoingReliable {
    OutgoingReliable(if p.isFragment then ReliableDataFragment else ReliableData, p.data)
  }

  function WireAll(packets: seq<QueuedPacket>): seq<OutgoingReliable> {
    seq(|packets|, k requires 0 <= k < |packets| => Wire(packets[k]))
  }

  function CountSent(packets: seq<QueuedPacket>): (n: nat)
    ensures n <= |packets|
  {
    if packets == [] then 0
    else CountSent(packets[..|packets| - 1]) + if packets[|packets| - 1].sent then 1 else 0
  }

  function RunTick(s: OutputState, now: nat): OutputState {
    var timer := if TimedOut(s, now) then s.timer.(rto := Min(s.timer.rto * 2, RTO_MAX)) else s.timer;
    DispatchAll(s.(timer := timer, dispatchIndex := DispatchStart(s, now)), now)
  }

  /** Dispatches the packets from `dispatchIndex` to the end of the window. */
  function DispatchAll(s: OutputState, now: nat): OutputState {
    var start, due := s.dispatchIndex, Span(s.queue, s.dispatchIndex, WindowEnd(s));
    s.(queue := seq(|s.queue|, k requires 0 <= k < |s.queue| =>
         if start <= k < WindowEnd(s) then MarkSent(s.queue[k], now) else s.queue[k]),
       dispatchIndex := Max(start, WindowEnd(s)),
       outgoing := s.outgoing + WireAll(due),
       stats := s.stats.(totalSent := s.stats.totalSent + |due|,
                         totalResent := s.stats.totalResent + CountSent(due)))
  }

  /** One round of the dispatch loop. */
  function DispatchNext(s: OutputState, now: nat): OutputState
    requires s.dispatchIndex < |s.queue|
  {
    var p := s.queue[s.dispatchIndex];
    s.(queue := s.queue[s.dispatchIndex := MarkSent(p, now)],
       dispatchIndex := s.dispatchIndex + 1,
       outgoing := s.outgoing + [Wire(p)],
       stats := s.stats.(totalSent := s.stats.totalSent + 1,
                         totalResent := s.stats.totalResent + if p.sent then 1 else 0))
  }

  lemma DispatchStep(s: OutputState, now: nat)
    requires s.dispatchIndex < WindowEnd(s)
    ensures DispatchAll(DispatchNext(s, now), now) == DispatchAll(s, now)
  {
    var s' := DispatchNext(s, now);
    var p := s.queue[s.dispatchIndex];
    var due, due' := Span(s.queue, s.dispatchIndex, WindowEnd(s)), Span(s'.queue, s'.dispatchIndex, WindowEnd(s'));
    assert due == [p] + due';
    CountSentAppend([p], due');
    assert s.outgoing + WireAll(due) == s'.outgoing + WireAll(due');
    assert DispatchAll(s', now).queue == DispatchAll(s, now).queue;
  }

  lemma {:induction false} CountSentAppend(a: seq<QueuedPacket>, b: seq<QueuedPacket>)
    ensures CountSent(a + b) == CountSent(a) + CountSent(b)
    decreases b
  {
    if b == [] {
      assert a + b == a;
    } else {
      assert (a + b)[..|a + b| - 1] == a + b[..|b| - 1];
      CountSentAppend(a, b[..|b| - 1]);
    }
  }

  lemma NothingDue(s: OutputState, now: nat)
    requires s.dispatchIndex >= WindowEnd(s)
    ensures DispatchAll(s, now) == s
  {
    assert DispatchAll(s, now).queue == s.queue;
    assert s.outgoing + [] == s.outgoing;
  }

  // ----- Acknowledgements ------------------------------------------------------------------

  function AbsDiff(a: nat, b: nat): nat {
    if a >= b then a - b else b - a
  }

  function Clamp(rto: nat): nat {
    Min(Max(rto, RTO_MIN), RTO_MAX)
  }

  /** Folds one round-trip sample into the estimates (RFC 6298, sections 2.2 and 2.3). */
  function UpdateRto(t: Timer, sample: nat): Timer {
    var srtt := if t.srtt.None? then sample else (t.srtt.value * 7 + sample) / 8;
    var rttvar := if t.srtt.None? then sample / 2 else (t.rttvar * 3 + AbsDiff(t.srtt.value, sample)) / 4;
    Timer(Some(srtt), rttvar, Clamp(srtt + Max(RTO_GRANULARITY, rttvar * 4)))
  }

  /** The round-trip sample a packet offers: none once it has been retransmitted. */
  function Sample(p: QueuedPacket, now: nat): Option<nat> {
    if p.sent && !p.resent && p.sentAt.Some? then Some(Since(now, p.sentAt.value)) else None
  }

  function LastSample(packets: seq<QueuedPacket>, now: nat): Option<nat> {
    if packets == [] then None else
      var last := Sample(packets[|packets| - 1], now);
      if last.Some? then last else LastSample(packets[..|packets| - 1], now)
  }

  lemma NoSample(now: nat)
    ensures LastSample([], now) == None
  {
  }

  lemma LastSampleStep(queue: seq<QueuedPacket>, n: nat, now: nat)
    requires n < |queue|
    ensures LastSample(queue[..n + 1], now) ==
      if Sample(queue[n], now).Some? then Sample(queue[n], now) else LastSample(queue[..n], now)
  {
    assert queue[..n + 1][..n] == queue[..n];
  }

  function ApplySample(t: Timer, sample: Option<nat>): Timer {
    if sample.None? then t else UpdateRto(t, sample.value)
  }

  function TrueIncoming(s: OutputState, sequence: nat): int
    requires sequence < 0x1_0000
  {
    TrueIncomingSequence(sequence, s.maxClientSequence, s.config.maxQueuedOutgoing)
  }

  /** The position of the first packet with the given sequence, or the length of the queue. */
  function Position(queue: seq<QueuedPacket>, sequence: int): (p: nat)
    ensures p <= |queue|
    ensures p < |queue| ==> queue[p].sequence == sequence
    ensures forall k | 0 <= k < p :: queue[k].sequence != sequence
  {
    if queue == [] then 0
    else if queue[0].sequence == sequence then 0
    else 1 + Position(queue[1..], sequence)
  }

  /** The number of packets at the front with a sequence up to the given one. */
  function LeadCount(queue: seq<QueuedPacket>, sequence: int): (n: nat)
    ensures n <= |queue|
    ensures forall k | 0 <= k < n :: queue[k].sequence <= sequence
    ensures n < |queue| ==> queue[n].sequence > sequence
  {
    if queue == [] || queue[0].sequence > sequence then 0 else 1 + LeadCount(queue[1..], sequence)
  }

  /** Removes the packets at positions `from` to `to`, as acknowledged. */
  function Release(s: OutputState, from: nat, to: nat, sample: Option<nat>, sequence: int): OutputState
    requires from <= to <= |s.queue|
  {
    s.(queue := s.queue[..from] + s.queue[to..],
       dispatchIndex := Max(s.dispatchIndex - (to - from), 0),
       timer := ApplySample(s.timer, sample),
       maxClientSequence := Max(s.maxClientSequence, sequence),
       stats := s.stats.(incomingAcknowledgeCount := s.stats.incomingAcknowledgeCount + 1,
                         actualAcknowledgeCount := s.stats.actualAcknowledgeCount + (to - from)))
  }

  function Acknowledge(s: OutputState, sequence: nat, now: nat): OutputState
    requires sequence < 0x1_0000
  {
    var t := TrueIncoming(s, sequence);
    var p := Position(s.queue, t);
    if p < |s.queue| then Release(s, p, p + 1, Sample(s.queue[p], now), t) else Release(s, 0, 0, None, t)
  }

  function AcknowledgeAll(s: OutputState, sequence: nat, now: nat): OutputState
    requires sequence < 0x1_0000
  {
    var t := TrueIncoming(s, sequence);
    var n := LeadCount(s.queue, t);
    Release(s, 0, n, LastSample(s.queue[..n], now), t)
  }

  function TakeOutgoing(s: OutputState): OutputState {
    s.(outgoing := [])
  }

  lemma {:induction false} StashAllAppends(s: OutputState, items: seq<Item>)
    ensures StashAll(s, items) == s.(
      queue := s.queue + seq(|items|, k requires 0 <= k < |items| => NewPacket(s.totalSequence + k, items[k])),
      totalSequence := s.totalSequence + |items|)
    decreases items
  {
    if items != [] {
      StashAllAppends(Stash(s, items[0]), items[1..]);
    } else {
      assert s.queue + [] == s.queue;
    }
  }
}
