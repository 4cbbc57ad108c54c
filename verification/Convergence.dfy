/** A pair of channels wired together without loss, as the channels' own end-to-end tests pump them
    (tests/data_channel_fuzz.rs): every round the sender ticks, its packets are delivered in order,
    the receiver ticks and its acknowledgements come back. The queue drains in ceil(n / window)
    rounds and every message arrives. */
module Convergence {
  import opened Bytes
  import opened DataCodec
  import opened SequenceNumbers
  import opened ReliableOutput
  import opened ReliableInput
  import opened EndToEnd

  datatype Link = Link(sender: OutputState, receiver: InputState, delivered: seq<bytes>)

  function Deliver(r: InputState, packets: seq<OutgoingReliable>, now: nat): InputState
    decreases packets
  {
    if packets == [] then r else
      var p := packets[0];
      Deliver(Receive(r, p.kind == ReliableDataFragment, p.payload, now).state, packets[1..], now)
  }

  function Return(o: OutputState, acks: seq<Ack>, now: nat): OutputState
    decreases acks
  {
    if acks == [] then o else Return(Acked(o, acks[0], now), acks[1..], now)
  }

  function Round(l: Link, now: nat): Link {
    var o := RunTick(l.sender, now);
    var r := InputTick(Deliver(l.receiver, o.outgoing, now), now);
    Link(Return(TakeOutgoing(o), r.outgoing, now), Drain(r), l.delivered + r.appData)
  }

  function Rounds(l: Link, times: seq<nat>): Link
    decreases times
  {
    if times == [] then l else Rounds(Round(l, times[0]), times[1..])
  }

  /** Each round comes more than the acknowledgement delay after the one before. */
  ghost predicate Spaced(start: nat, delay: nat, times: seq<nat>)
    decreases times
  {
    times == [] || (times[0] > start + delay && Spaced(times[0], delay, times[1..]))
  }

  // ----- Between rounds --------------------------------------------------------------------

  /** A queue that holds the history from `base` on, nothing of it in flight. */
  ghost predicate Pending(queue: seq<QueuedPacket>, history: seq<Item>, base: nat) {
    && base + |queue| == |history|
    && forall i | 0 <= i < |queue| :: queue[i] == NewPacket(base + i, history[base + i])
  }

  ghost predicate Caught(c: Config, history: seq<Item>, r: InputState, delivered: seq<bytes>) {
    && r.config == c.input && r.stash == map[] && r.windowStart <= |history|
    && AcceptAll(Idle(c.cipher), history[..r.windowStart]) == Some(Decoded(r.decoder, delivered + r.appData))
  }

  ghost predicate Synced(c: Config, history: seq<Item>, l: Link) {
    && l.sender.config == c.output && l.sender.outgoing == [] && l.sender.dispatchIndex == 0
    && Pending(l.sender.queue, history, l.receiver.windowStart)
    && l.sender.maxClientSequence == Max(l.receiver.windowStart - 1, 0)
    && Caught(c, history, l.receiver, l.delivered)
    && l.receiver.outgoing == [] && l.receiver.appData == []
    && (!c.input.acknowledgeAllData ==> l.receiver.lastAckAll == l.receiver.windowStart - 1)
  }

  /** The windows of a lossless link need not agree; both must fit 16 bits. */
  ghost predicate Usable(c: Config) {
    && c.output.maxDataLength >= 6 && c.output.maxQueuedOutgoing >= 1 && 2 * c.output.maxQueuedOutgoing <= 65535
    && c.input.maxQueuedIncoming <= 32767
  }

  // ----- One round -------------------------------------------------------------------------

  lemma TickSendsFront(c: Config, history: seq<Item>, l: Link, now: nat)
    requires Usable(c) && Synced(c, history, l)
    ensures var o, n := RunTick(l.sender, now), Min(|l.sender.queue|, c.output.maxQueuedOutgoing);
            && |o.outgoing| == n && |o.queue| == |l.sender.queue| && o.dispatchIndex == n
            && (forall i | 0 <= i < n :: o.outgoing[i] == Wire(NewPacket(l.receiver.windowStart + i, history[l.receiver.windowStart + i])))
            && (forall i | 0 <= i < |o.queue| :: o.queue[i].sequence == l.receiver.windowStart + i)
            && (forall i | n <= i < |o.queue| :: o.queue[i] == l.sender.queue[i])
            && o.maxClientSequence == l.sender.maxClientSequence && o.config == c.output
  {
    hide AcceptAll, CountSent, U16;
  }

  /** The acknowledgements of packets received in order. */
  function SingleAcks(c: Config, base: nat, n: nat): seq<Ack> {
    if c.input.acknowledgeAllData then seq(n, k requires 0 <= k < n => Ack(false, base + k)) else []
  }

  lemma NextSequence(c: Config, w: nat, body: bytes)
    requires Usable(c)
    ensures TrueIncomingSequence(ReadU16(U16(w) + body), w, c.input.maxQueuedIncoming) == w
  {
    hide TrueIncomingSequence;
    var data := U16(w) + body;
    assert data[0] == U16(w)[0] && data[1] == U16(w)[1];
    U16RoundTrip(w, data);
    UnwrapIsExact(w, w, c.input.maxQueuedIncoming);
  }

  lemma ReceiveInOrder(c: Config, history: seq<Item>, r: InputState, delivered: seq<bytes>, now: nat)
    requires Usable(c) && AcceptAll(Idle(c.cipher), history).Some?
    requires Caught(c, history, r, delivered) && r.windowStart < |history|
    ensures var w := r.windowStart;
            var r' := Receive(r, history[w].isFragment, U16(w) + history[w].body, now).state;
            && Caught(c, history, r', delivered) && r'.windowStart == w + 1
            && r'.outgoing == r.outgoing + SingleAcks(c, w, 1)
            && r'.lastAckAll == r.lastAckAll && r'.lastAckAllTime == r.lastAckAllTime
  {
    hide AcceptAll, Receive, TakeNext;
    var w := r.windowStart;
    assert r.outgoing + [] == r.outgoing;
    TakeNextTrue(c, history, AckOne(CountReceived(r), w), delivered);
    ReceiveIsTake(c, r, history[w], now);
  }

  /** With nothing stashed, the next packet is all that a call takes in. */
  lemma ReceiveIsTake(c: Config, r: InputState, item: Item, now: nat)
    requires Usable(c) && r.config == c.input && r.stash == map[]
    requires var t := TakeNext(AckOne(CountReceived(r), r.windowStart), item); t.ok && t.state.stash == map[]
    ensures Receive(r, item.isFragment, U16(r.windowStart) + item.body, now)
         == TakeNext(AckOne(CountReceived(r), r.windowStart), item)
  {
    hide TrueIncomingSequence, TakeNext, U16;
    NextSequence(c, r.windowStart, item.body);
    assert (U16(r.windowStart) + item.body)[2..] == item.body;
  }

  lemma {:induction false} DeliverInOrder(c: Config, history: seq<Item>, r: InputState, delivered: seq<bytes>, packets: seq<OutgoingReliable>, now: nat)
    requires Usable(c) && AcceptAll(Idle(c.cipher), history).Some?
    requires Caught(c, history, r, delivered) && r.windowStart + |packets| <= |history|
    requires forall i | 0 <= i < |packets| :: packets[i] == Wire(NewPacket(r.windowStart + i, history[r.windowStart + i]))
    ensures var r' := Deliver(r, packets, now);
            && Caught(c, history, r', delivered) && r'.windowStart == r.windowStart + |packets|
            && r'.outgoing == r.outgoing + SingleAcks(c, r.windowStart, |packets|)
            && r'.lastAckAll == r.lastAckAll && r'.lastAckAllTime == r.lastAckAllTime
    decreases packets
  {
    hide AcceptAll, Receive, Caught, U16;
    if packets == [] {
      assert r.outgoing + [] == r.outgoing;
    } else {
      var p, w := packets[0], r.windowStart;
      assert p.payload == U16(w) + history[w].body;
      ReceiveInOrder(c, history, r, delivered, now);
      var r1 := Receive(r, p.kind == ReliableDataFragment, p.payload, now).state;
      DeliverInOrder(c, history, r1, delivered, packets[1..], now);
      assert r.outgoing + SingleAcks(c, w, |packets|)
          == (r.outgoing + SingleAcks(c, w, 1)) + SingleAcks(c, w + 1, |packets| - 1);
    }
  }

  /** A sender whose first packets, `base` on, are in flight up to the dispatch index. */
  ghost predicate InFlight(c: Config, o: OutputState, base: nat) {
    && o.config == c.output && o.outgoing == []
    && o.dispatchIndex <= |o.queue| && o.dispatchIndex <= c.output.maxQueuedOutgoing
    && (forall i | 0 <= i < |o.queue| :: o.queue[i].sequence == base + i)
    && o.maxClientSequence == Max(base - 1, 0)
  }

  /** One acknowledgement that covers the first `n` packets in flight releases exactly those. */
  lemma AckReleasesFront(c: Config, o: OutputState, base: nat, a: Ack, n: nat, now: nat)
    requires Usable(c) && InFlight(c, o, base) && 1 <= n <= o.dispatchIndex
    requires a.sequence == base + n - 1 && (a.all || n == 1)
    ensures var o' := Acked(o, a, now);
            && InFlight(c, o', base + n) && o'.queue == o.queue[n..]
            && o'.dispatchIndex == o.dispatchIndex - n
  {
    hide Acked, ApplySample;
    var sample := AckIsRelease(c, o, base, a, n, now);
    assert o.queue[..0] + o.queue[n..] == o.queue[n..];
  }

  lemma AckIsRelease(c: Config, o: OutputState, base: nat, a: Ack, n: nat, now: nat) returns (sample: Option<nat>)
    requires Usable(c) && InFlight(c, o, base) && 1 <= n <= o.dispatchIndex
    requires a.sequence == base + n - 1 && (a.all || n == 1)
    ensures Acked(o, a, now) == Release(o, 0, n, sample, a.sequence)
  {
    FrontDecodes(c, o, base, a, n);
    FrontCounts(c, o, base, n);
    hide InFlight, TrueIncoming, LastSample, Sample, LeadCount, Position, Release;
    sample := if a.all then LastSample(o.queue[..n], now) else Sample(o.queue[0], now);
  }

  lemma FrontCounts(c: Config, o: OutputState, base: nat, n: nat)
    requires InFlight(c, o, base) && 1 <= n <= o.dispatchIndex
    ensures LeadCount(o.queue, base + n - 1) == n && Position(o.queue, base) == 0
  {
    assert n < |o.queue| ==> o.queue[n].sequence == base + n;
  }

  lemma FrontDecodes(c: Config, o: OutputState, base: nat, a: Ack, n: nat)
    requires Usable(c) && InFlight(c, o, base) && 1 <= n <= o.dispatchIndex && a.sequence == base + n - 1
    ensures TrueIncoming(o, a.sequence % 0x1_0000) == a.sequence
  {
    hide TrueIncomingSequence;
    UnwrapIsExact(a.sequence, o.maxClientSequence, c.output.maxQueuedOutgoing);
  }

  lemma {:induction false} SingleAcksRelease(c: Config, o: OutputState, base: nat, now: nat)
    requires Usable(c) && InFlight(c, o, base) && c.input.acknowledgeAllData
    ensures var n := o.dispatchIndex;
            var o' := Return(o, SingleAcks(c, base, n), now);
            InFlight(c, o', base + n) && o'.queue == o.queue[n..] && o'.dispatchIndex == 0
    decreases o.dispatchIndex
  {
    hide Acked;
    var n := o.dispatchIndex;
    if n == 0 {
      assert o.queue[0..] == o.queue;
    } else {
      var acks := SingleAcks(c, base, n);
      assert acks[0] == Ack(false, base) && acks[1..] == SingleAcks(c, base + 1, n - 1);
      AckReleasesFront(c, o, base, acks[0], 1, now);
      SingleAcksRelease(c, Acked(o, acks[0], now), base + 1, now);
      assert o.queue[1..][n - 1..] == o.queue[n..];
    }
  }

  /** A round delivers and releases the first min(window, queued) packets, and the link is in step
      again. */
  lemma RoundKeepsSync(c: Config, history: seq<Item>, l: Link, now: nat)
    requires Usable(c) && AcceptAll(Idle(c.cipher), history).Some? && Synced(c, history, l)
    requires now > l.receiver.lastAckAllTime + c.input.maxAckDelay
    ensures var l', n := Round(l, now), Min(|l.sender.queue|, c.output.maxQueuedOutgoing);
            && Synced(c, history, l') && l'.receiver.windowStart == l.receiver.windowStart + n
            && l'.sender.queue == l.sender.queue[n..]
            && l'.receiver.lastAckAllTime <= Max(now, l.receiver.lastAckAllTime)
  {
    hide AcceptAll, RunTick, Deliver, Return, U16;
    var base, n := l.receiver.windowStart, Min(|l.sender.queue|, c.output.maxQueuedOutgoing);
    TickSendsFront(c, history, l, now);
    var o := TakeOutgoing(RunTick(l.sender, now));
    DeliverInOrder(c, history, l.receiver, l.delivered, RunTick(l.sender, now).outgoing, now);
    var r := Deliver(l.receiver, RunTick(l.sender, now).outgoing, now);
    AcksRelease(c, o, r, base, now);
    assert l.delivered + r.appData + [] == l.delivered + r.appData;
    assert o.queue[n..] == l.sender.queue[n..];
  }

  /** The acknowledgements of one round release what is in flight. */
  lemma AcksRelease(c: Config, o: OutputState, r: InputState, base: nat, now: nat)
    requires Usable(c) && InFlight(c, o, base) && r.config == c.input
    requires r.windowStart == base + o.dispatchIndex && r.outgoing == SingleAcks(c, base, o.dispatchIndex)
    requires now > r.lastAckAllTime + c.input.maxAckDelay
    requires !c.input.acknowledgeAllData ==> r.lastAckAll == base - 1
    ensures var n := o.dispatchIndex;
            var o' := Return(o, InputTick(r, now).outgoing, now);
            InFlight(c, o', base + n) && o'.queue == o.queue[n..] && o'.dispatchIndex == 0
  {
    hide Acked, InFlight;
    var n := o.dispatchIndex;
    if c.input.acknowledgeAllData {
      SingleAcksRelease(c, o, base, now);
    } else if n > 0 {
      var a := Ack(true, base + n - 1);
      AckReleasesFront(c, o, base, a, n, now);
      assert InputTick(r, now).outgoing == [a];
      assert Return(o, [a], now) == Acked(o, a, now);
    } else {
      assert InputTick(r, now).outgoing == [];
      assert o.queue[0..] == o.queue;
    }
  }

  // ----- All rounds ------------------------------------------------------------------------

  /** Every round takes min(window, queued) packets off the queue; once it is empty, everything is
      delivered. */
  lemma {:induction false} RoundsDrain(c: Config, history: seq<Item>, l: Link, times: seq<nat>)
    requires Usable(c) && AcceptAll(Idle(c.cipher), history).Some? && Synced(c, history, l)
    requires Spaced(l.receiver.lastAckAllTime, c.input.maxAckDelay, times)
    ensures var l' := Rounds(l, times);
            && Synced(c, history, l')
            && |l'.sender.queue| == Max(|l.sender.queue| - |times| * c.output.maxQueuedOutgoing, 0)
    decreases times
  {
    hide AcceptAll, Round, Synced;
    if times != [] {
      RoundKeepsSync(c, history, l, times[0]);
      var l1, w := Round(l, times[0]), c.output.maxQueuedOutgoing;
      RoundsDrain(c, history, l1, times[1..]);
      assert |times| * w == w + |times[1..]| * w;
    } else {
      assert |times| * c.output.maxQueuedOutgoing == 0;
    }
  }

  function EnqueueAll(o: OutputState, messages: seq<bytes>): (o': OutputState)
    requires o.config.maxDataLength >= 6
    ensures o'.config == o.config
  {
    if messages == [] then o else
      var before := EnqueueAll(o, messages[..|messages| - 1]);
      var e := EncodeMessage(before.cipher, o.config.maxDataLength, messages[|messages| - 1]);
      StashAllAppends(before.(cipher := e.cipher), e.items);
      Enqueue(before, messages[|messages| - 1])
  }

  lemma {:induction false} EnqueuedQueue(c: Config, messages: seq<bytes>)
    requires Usable(c)
    ensures var o, e := EnqueueAll(Initial(c.output, c.cipher), messages), EncodeAll(c.cipher, c.output.maxDataLength, messages);
            && o == Initial(c.output, c.cipher).(queue := o.queue, totalSequence := |e.items|, cipher := e.cipher)
            && Pending(o.queue, e.items, 0)
  {
    hide EncodeMessage, StashAll, U16;
    if messages != [] {
      var n := |messages| - 1;
      EnqueuedQueue(c, messages[..n]);
      var o := EnqueueAll(Initial(c.output, c.cipher), messages[..n]);
      var e := EncodeMessage(o.cipher, c.output.maxDataLength, messages[n]);
      StashAllAppends(o.(cipher := e.cipher), e.items);
    }
  }

  /** Any list of messages, enqueued on fresh channels: after `k` rounds exactly k windows have left
      the queue, so it is empty after ceil(n / window) rounds and no earlier, and from then on every
      message has been delivered. */
  lemma LosslessLinkDelivers(c: Config, messages: seq<bytes>, times: seq<nat>)
    requires Usable(c) && AllFit(c.cipher, c.output.maxDataLength, messages)
    requires Spaced(c.start, c.input.maxAckDelay, times)
    ensures var n := |EncodeAll(c.cipher, c.output.maxDataLength, messages).items|;
            var l := Rounds(Link(EnqueueAll(Initial(c.output, c.cipher), messages), InitialInput(c.input, c.cipher, c.start), []), times);
            && |l.sender.queue| == Max(n - |times| * c.output.maxQueuedOutgoing, 0)
            && (l.sender.queue == [] ==> l.delivered == SurfacedAll(c.cipher, messages))
  {
    hide AcceptAll, EncodeAll, Rounds, SurfacedAll, AllFit, EnqueueAll;
    var history := EncodeAll(c.cipher, c.output.maxDataLength, messages).items;
    var l0 := Link(EnqueueAll(Initial(c.output, c.cipher), messages), InitialInput(c.input, c.cipher, c.start), []);
    EnqueuedQueue(c, messages);
    StreamRoundTrip(c.cipher, c.output.maxDataLength, messages);
    NothingAccepted(Idle(c.cipher), history);
    var none: seq<bytes> := [];
    assert none + none == none;
    assert Synced(c, history, l0);
    RoundsDrain(c, history, l0, times);
    var l := Rounds(l0, times);
    if l.sender.queue == [] {
      assert history[..l.receiver.windowStart] == history;
      assert l.delivered + [] == l.delivered;
    }
  }

  lemma NothingAccepted(d: Decoder, history: seq<Item>)
    ensures AcceptAll(d, history[..0]) == Some(Decoded(d, []))
  {
  }
}
