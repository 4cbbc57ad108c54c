/** The send window: whatever is enqueued, however often the channel ticks and whatever is
    acknowledged, the queue stays sorted and what is in flight is a prefix of it that fits the
    window (src/channel/output.rs). */
module OutputWindow {
  import opened Bytes
  import opened DataCodec
  import opened ReliableOutput

  predicate Queued(queue: seq<QueuedPacket>, sequence: int) {
    exists i :: 0 <= i < |queue| && queue[i].sequence == sequence
  }

  /** The queue is sorted; the packets in flight come first and fit the window. */
  ghost predicate QueueOk(queue: seq<QueuedPacket>, window: nat, index: nat) {
    && (forall i, j | 0 <= i < j < |queue| :: queue[i].sequence < queue[j].sequence)
    && (forall i, j | 0 <= i < j < |queue| :: queue[j].sent ==> queue[i].sent)
    && (forall i | 0 <= i < |queue| :: queue[i].sent ==> i < window)
    && index <= |queue| && (forall i | 0 <= i < index :: queue[i].sent)
  }

  ghost predicate WindowOk(o: OutputState) {
    && QueueOk(o.queue, o.config.maxQueuedOutgoing, o.dispatchIndex)
    && forall i | 0 <= i < |o.queue| :: o.queue[i].sequence < o.totalSequence
  }

  lemma StashKeepsWindow(o: OutputState, items: seq<Item>)
    requires WindowOk(o)
    ensures WindowOk(StashAll(o, items))
  {
    hide U16;
    var o', n := StashAll(o, items), |o.queue|;
    StashAllAppends(o, items);
    assert forall i | 0 <= i < n :: o'.queue[i] == o.queue[i];
    assert forall i | n <= i < |o'.queue| :: !o'.queue[i].sent && o'.queue[i].sequence == o.totalSequence + (i - n);
  }

  lemma TickKeepsQueue(o: OutputState, now: nat, window: nat)
    requires QueueOk(o.queue, window, o.dispatchIndex) && o.config.maxQueuedOutgoing == window
    ensures var o' := RunTick(o, now);
            && QueueOk(o'.queue, window, o'.dispatchIndex) && |o'.queue| == |o.queue|
            && (forall i | 0 <= i < |o.queue| :: o'.queue[i] == o.queue[i] || o'.queue[i] == MarkSent(o.queue[i], now))
            && o' == o.(queue := o'.queue, dispatchIndex := o'.dispatchIndex, timer := o'.timer,
                        outgoing := o'.outgoing, stats := o'.stats)
  {
    hide CountSent;
    var o' := RunTick(o, now);
    assert forall i | 0 <= i < |o.queue| :: o'.queue[i].sequence == o.queue[i].sequence;
    assert forall i | 0 <= i < |o.queue| ::
      o'.queue[i].sent <==> o.queue[i].sent || DispatchStart(o, now) <= i < WindowEnd(o);
  }

  /** After a tick, with a timeout or without, exactly the first min(length, window) packets are in
      flight. */
  lemma TickSendsWindow(o: OutputState, now: nat)
    requires WindowOk(o)
    ensures forall i | 0 <= i < |o.queue| :: RunTick(o, now).queue[i].sent <==> i < WindowEnd(o)
  {
    hide CountSent;
    var o' := RunTick(o, now);
    assert forall i | 0 <= i < |o.queue| ::
      o'.queue[i].sent <==> o.queue[i].sent || DispatchStart(o, now) <= i < WindowEnd(o);
  }

  /** Taking acknowledged packets out keeps the order, the window and everything else queued. */
  lemma ReleaseKeepsQueue(o: OutputState, window: nat, from: nat, to: nat, sample: Option<nat>, sequence: int)
    requires QueueOk(o.queue, window, o.dispatchIndex) && from <= to <= |o.queue|
    ensures var o' := Release(o, from, to, sample, sequence);
            && QueueOk(o'.queue, window, o'.dispatchIndex)
            && (forall i | 0 <= i < |o'.queue| :: o'.queue[i] in o.queue)
            && (forall i | (0 <= i < from || to <= i < |o.queue|) :: Queued(o'.queue, o.queue[i].sequence))
  {
    var o' := Release(o, from, to, sample, sequence);
    forall i | 0 <= i < |o'.queue|
      ensures o'.queue[i] == o.queue[if i < from then i else i + (to - from)]
    {
    }
    forall i | 0 <= i < from || to <= i < |o.queue|
      ensures Queued(o'.queue, o.queue[i].sequence)
    {
      assert o'.queue[if i < from then i else i - (to - from)] == o.queue[i];
    }
  }
}
