/** Which configurations are in order, exactly. When the receiver's window is at least as large as the
    sender's and the sender's holds more than one packet, some run delivers wrong data, encrypted or not. A
    packet is lost, the receiver acknowledges many later ones singly, and then a late ack-all is read one
    block of 65536 too high: the sender drops everything it still holds, the lost packet included, and much
    later the receiver takes a packet 65536 further on for the lost one. With an acknowledgement delay the
    ack-all answers an old packet, without one it is a tick's; and where the sender's window holds two
    packets only, a second acknowledgement of the same packet is read too high before. Safe all the same are
    configurations without a delay that acknowledge singly, or have windows of two and up to three. */
module Sharpness {
  import opened Bytes
  import Rc4
  import opened DataCodec
  import opened SequenceNumbers
  import opened ReliableOutput
  import opened OutputWindow
  import opened ReliableInput
  import opened EndToEnd
  import SingleAcks
  import TwoPackets

  /** The configurations the run is for: windows the wrong way round, and an ack-all that may come late. */
  ghost predicate Bad(c: Config) {
    && WellConfigured(c) && 2 <= c.output.maxQueuedOutgoing <= c.input.maxQueuedIncoming
    && (c.input.maxAckDelay >= 1 || (!c.input.acknowledgeAllData && (c.output.maxQueuedOutgoing >= 3 || c.input.maxQueuedIncoming >= 4)))
  }

  /** No delay, and a sending window of two: a single acknowledgement comes late as well. */
  predicate Twin(c: Config) {
    c.input.maxAckDelay == 0 && c.output.maxQueuedOutgoing == 2
  }

  /** How many consumed packets the sender still holds: without a delay packet 0 waits for the late ack-all. */
  function Held(c: Config): nat {
    if c.input.maxAckDelay == 0 && c.output.maxQueuedOutgoing >= 3 then 1 else 0
  }

  /** The packet that gets lost, and the number of all of them: the last one is 65536 further on. */
  function Victim(c: Config): nat {
    if Twin(c) then c.input.maxQueuedIncoming + 2 else 1
  }

  function Count(c: Config): (n: nat)
    ensures n >= 65538
  {
    Victim(c) + 65537
  }

  /** One-byte messages, but for the last. */
  function Message(c: Config, k: nat): bytes {
    if k == Count(c) - 1 then [1, 1] else [0]
  }

  function Messages(c: Config, n: nat): seq<bytes> {
    seq(n, k requires 0 <= k < n => Message(c, k))
  }

  /** The cipher state once `n` messages are enqueued. */
  function CipherAt(c: Config, n: nat): Option<Rc4.Cipher> {
    Advance(c.cipher, if n >= Count(c) then n + 1 else n)
  }

  /** What message `k` becomes on the wire. */
  function Unit(c: Config, k: nat): (unit: bytes)
    ensures 1 <= |unit| <= 3
  {
    hide Rc4.Transform;
    WireUnit(CipherAt(c, k), Message(c, k))
  }

  function Items(c: Config, n: nat): seq<Item> {
    seq(n, k requires 0 <= k < n => Item(false, Unit(c, k)))
  }

  ghost predicate Reachable(c: Config, s: System) {
    exists actions :: Possible(c, actions) && Execute(c, actions) == s
  }

  lemma ReachNext(c: Config, s: System, a: Action)
    requires Reachable(c, s) && Enabled(s, a)
    ensures Reachable(c, Next(s, a))
  {
    hide Enabled, Next;
    var actions :| Possible(c, actions) && Execute(c, actions) == s;
    var longer := actions + [a];
    assert longer[..|longer| - 1] == actions && longer[|longer| - 1] == a;
    assert Possible(c, longer) && Execute(c, longer) == Next(s, a);
  }

  // ----- Filling the queue -----------------------------------------------------------------

  /** The system after the first `n` messages. */
  function Filled(c: Config, n: nat): System {
    var s := Start(c);
    s.(enqueued := Messages(c, n), sender := s.sender.(totalSequence := n, cipher := CipherAt(c, n),
      queue := seq(n, k requires 0 <= k < n => NewPacket(k, Item(false, Unit(c, k))))))
  }

  lemma CipherStep(c: Config, k: nat)
    requires k < Count(c)
    ensures Advance(CipherAt(c, k), |Message(c, k)|) == CipherAt(c, k + 1)
  {
    hide Rc4.After;
    if c.cipher.Some? { Rc4.AfterComposes(c.cipher.value, k, |Message(c, k)|); }
  }

  lemma MessageIsOneItem(c: Config, k: nat)
    requires Bad(c) && k < Count(c)
    ensures EncodeMessage(CipherAt(c, k), c.output.maxDataLength, Message(c, k))
         == Encoding(CipherAt(c, k + 1), [Item(false, Unit(c, k))])
  {
    hide CipherAt, Advance;
    CipherStep(c, k);
  }

  lemma {:induction false} FilledIsReachable(c: Config, n: nat)
    requires Bad(c) && n <= Count(c)
    ensures Reachable(c, Filled(c, n))
  {
    if n == 0 {
      assert Possible(c, []) && Execute(c, []) == Start(c);
      assert Filled(c, 0).sender.queue == Start(c).sender.queue && Filled(c, 0).enqueued == [];
      assert CipherAt(c, 0) == c.cipher;
    } else {
      hide *;
      FilledIsReachable(c, n - 1);
      FillOne(c, n);
    }
  }

  lemma FillOne(c: Config, n: nat)
    requires Bad(c) && 1 <= n <= Count(c) && Reachable(c, Filled(c, n - 1))
    ensures Reachable(c, Filled(c, n))
  {
    var s, data, item := Filled(c, n - 1), Message(c, n - 1), Item(false, Unit(c, n - 1));
    assert s.sender.config == c.output && s.sender.cipher == CipherAt(c, n - 1);
    hide Message, Reachable, Unit, CipherAt, EncodeMessage, WireUnit, Filled, Stash;
    MessageIsOneItem(c, n - 1);
    ShortMessage(c, n - 1);
    EnqueueIsStep(c, s, data, item);
    FilledStep(c, n);
  }

  lemma ShortMessage(c: Config, k: nat)
    ensures Message(c, k) != [] && |WireUnit(CipherAt(c, k), Message(c, k))| <= 3
  {
    hide CipherAt;
  }

  lemma FilledStep(c: Config, n: nat)
    requires n >= 1
    ensures var s, item := Filled(c, n - 1), Item(false, Unit(c, n - 1));
            Filled(c, n) == s.(enqueued := s.enqueued + [Message(c, n - 1)], sender := Stash(s.sender, item).(cipher := CipherAt(c, n)))
  {
    hide Message, U16, Unit, CipherAt;
    var s, item := Filled(c, n - 1), Item(false, Unit(c, n - 1));
    assert Filled(c, n).sender.queue == s.sender.queue + [NewPacket(n - 1, item)];
    assert Messages(c, n) == Messages(c, n - 1) + [Message(c, n - 1)];
  }

  lemma EnqueueIsStep(c: Config, s: System, data: bytes, item: Item)
    requires Reachable(c, s) && s.sender.config == c.output && c.output.maxDataLength >= 6 && data != []
    requires |WireUnit(s.sender.cipher, data)| <= 3
    requires EncodeMessage(s.sender.cipher, c.output.maxDataLength, data)
          == Encoding(EncodeMessage(s.sender.cipher, c.output.maxDataLength, data).cipher, [item])
    ensures var cipher := EncodeMessage(s.sender.cipher, c.output.maxDataLength, data).cipher;
            Reachable(c, s.(enqueued := s.enqueued + [data], sender := Stash(s.sender, item).(cipher := cipher)))
  {
    hide WireUnit, EncodeMessage;
    ReachNext(c, s, EnqueueData(data));
    var cipher := EncodeMessage(s.sender.cipher, c.output.maxDataLength, data).cipher;
    assert StashAll(s.sender.(cipher := cipher), [item]) == Stash(s.sender.(cipher := cipher), item);
  }

  // ----- The shape of every later state ----------------------------------------------------

  /** The queue holds true packets, what is in flight is on the network, and the receiver waits for
      the packet `w` of its window, all at the time of the start. */
  ghost predicate Shape(c: Config, s: System, window: nat) {
    && s.sender.config == c.output
    && SenderShape(c, s.sender, s.network)
    && ReceiverShape(c, s.receiver, window)
    && s.enqueued == Messages(c, Count(c))
  }

  ghost predicate SenderShape(c: Config, o: OutputState, network: set<Datagram>) {
    && o.config == c.output && o.outgoing == [] && o.totalSequence == Count(c)
    && QueueOk(o.queue, c.output.maxQueuedOutgoing, o.dispatchIndex)
    && (forall i | 0 <= i < |o.queue| :: PacketShape(c, o.queue[i], network))
  }

  ghost predicate ReceiverShape(c: Config, r: InputState, window: nat) {
    && r.config == c.input && r.outgoing == [] && r.appData == []
    && r.decoder == Idle(CipherAt(c, window)) && r.lastAckAllTime >= c.start && r.windowStart == window && window !in r.stash
  }

  function Sent(c: Config, k: nat): Datagram
    requires k < Count(c)
  {
    Datagram(k, OutgoingReliable(ReliableData, U16(k) + Unit(c, k)))
  }

  lemma SentIsWire(c: Config, p: QueuedPacket)
    requires InHistory(Items(c, Count(c)), p)
    ensures Sent(c, p.sequence) == Datagram(p.sequence, Wire(p))
  {
  }

  /** A tick puts the whole window in flight. */
  lemma TickFillsWindow(c: Config, s: System, window: nat)
    requires Reachable(c, s) && Shape(c, s, window)
    ensures var s' := Next(s, SenderTick(c.start));
            && Reachable(c, s') && Shape(c, s', window)
            && s' == s.(sender := s'.sender, network := s'.network) && s.network <= s'.network
            && s'.sender.maxClientSequence == s.sender.maxClientSequence
            && |s'.sender.queue| == |s.sender.queue|
            && (forall i | 0 <= i < |s.sender.queue| :: s'.sender.queue[i].sequence == s.sender.queue[i].sequence)
            && (forall i | 0 <= i < |s.sender.queue| && i < c.output.maxQueuedOutgoing ::
                  Sent(c, s.sender.queue[i].sequence) in s'.network)
  {
    hide Messages, ReceiverShape, SenderShape, RunTick, Due, Sent;
    ReachNext(c, s, SenderTick(c.start));
    TickKeepsShape(c, s);
  }

  lemma TickKeepsShape(c: Config, s: System)
    requires SenderShape(c, s.sender, s.network)
    ensures var o, s' := s.sender, Next(s, SenderTick(c.start));
            && SenderShape(c, s'.sender, s'.network)
            && s'.sender == o.(queue := s'.sender.queue, dispatchIndex := s'.sender.dispatchIndex,
                               timer := s'.sender.timer, stats := s'.sender.stats)
            && |s'.sender.queue| == |o.queue|
            && forall i | 0 <= i < |o.queue| ::
                 && s'.sender.queue[i].sequence == o.queue[i].sequence < Count(c)
                 && (i < c.output.maxQueuedOutgoing ==> Sent(c, o.queue[i].sequence) in s'.network)
  {
    hide Items, QueueOk, RunTick, Due, Sent, InHistory, MarkSent;
    ItemsAre(c);
    var o, s' := s.sender, Next(s, SenderTick(c.start));
    TickKeepsQueue(o, c.start, c.output.maxQueuedOutgoing);
    forall i | 0 <= i < |o.queue|
      ensures PacketShape(c, s'.sender.queue[i], s'.network) && s'.sender.queue[i].sequence == o.queue[i].sequence < Count(c)
      ensures i < c.output.maxQueuedOutgoing ==> Sent(c, o.queue[i].sequence) in s'.network
    {
      TickKeepsPacket(c, s, i);
    }
    assert forall i | 0 <= i < |o.queue| :: PacketShape(c, s'.sender.queue[i], s'.network);
  }

  ghost predicate PacketShape(c: Config, p: QueuedPacket, network: set<Datagram>) {
    && InHistory(Items(c, Count(c)), p)
    && (p.sent ==> Datagram(p.sequence, Wire(p)) in network)
    && (p.sentAt == None || p.sentAt == Some(c.start))
  }

  lemma TickKeepsPacket(c: Config, s: System, i: nat)
    requires SenderShape(c, s.sender, s.network) && i < |s.sender.queue|
    ensures var o, s' := s.sender, Next(s, SenderTick(c.start));
            && |s'.sender.queue| == |o.queue| && PacketShape(c, s'.sender.queue[i], s'.network)
            && s'.sender.queue[i].sequence == o.queue[i].sequence < Count(c)
            && (i < c.output.maxQueuedOutgoing ==> Sent(c, o.queue[i].sequence) in s'.network)
  {
    hide Items, QueueOk, RunTick, Due, Sent, DispatchStart, Unit, U16;
    ItemsAre(c);
    var o, s' := s.sender, Next(s, SenderTick(c.start));
    TickKeepsQueue(o, c.start, c.output.maxQueuedOutgoing);
    TickReaches(o, c.output.maxQueuedOutgoing, c.start);
    assert PacketShape(c, o.queue[i], s.network);
    assert o.queue[i].sequence < Count(c) && InHistory(Items(c, Count(c)), s'.sender.queue[i]);
    SentIsWire(c, o.queue[i]);
    SentIsWire(c, s'.sender.queue[i]);
    hide InHistory;
    if !o.queue[i].sent && (i < c.output.maxQueuedOutgoing || s'.sender.queue[i].sent) {
      InNetworkAfterTick(s, i - DispatchStart(o, c.start), c.start);
    }
  }

  lemma InNetworkAfterTick(s: System, k: nat, now: nat)
    requires s.sender.outgoing == [] && k < |Due(s.sender, now)|
    ensures var p := Due(s.sender, now)[k]; Datagram(p.sequence, Wire(p)) in Next(s, SenderTick(now)).network
  {
    hide RunTick, Due;
    var o := s.sender;
    TickEmits(o, now);
    assert Datagram(Due(o, now)[k].sequence, RunTick(o, now).outgoing[k]) in Next(s, SenderTick(now)).network;
  }

  lemma TickReaches(o: OutputState, window: nat, now: nat)
    requires QueueOk(o.queue, window, o.dispatchIndex) && o.config.maxQueuedOutgoing == window
    requires forall i | 0 <= i < |o.queue| :: o.queue[i].sentAt == None || o.queue[i].sentAt == Some(now)
    ensures forall i | 0 <= i < |o.queue| && !o.queue[i].sent && (i < window || RunTick(o, now).queue[i].sent) ::
      var k := i - DispatchStart(o, now);
      0 <= k < |Due(o, now)| && Due(o, now)[k] == o.queue[i]
  {
    hide CountSent;
    assert !TimedOut(o, now);
  }

  /** Packet 0 once more: the receiver answers with an ack-all of what it has consumed. */
  lemma OldPacketNudges(c: Config, s: System)
    requires Bad(c) && c.input.maxAckDelay >= 1
    requires Reachable(c, s) && Shape(c, s, 1) && s.acks == [] && Sent(c, 0) in s.network
    ensures var s' := Next(s, DeliverData(Sent(c, 0), c.start));
            && Reachable(c, s') && Shape(c, s', 1)
            && s' == s.(receiver := s'.receiver, acks := [Ack(true, 0)])
            && s'.receiver.lastAckAll == 0 && s'.receiver.stash == s.receiver.stash
  {
    hide SenderShape, Messages, TrueIncomingSequence;
    ReachNext(c, s, DeliverData(Sent(c, 0), c.start));
    UnwrapIsExact(0, 1, c.input.maxQueuedIncoming);
    assert ReadU16(U16(0) + Unit(c, 0)) == 0;
    assert s.delivered + [] == s.delivered;
    assert s.acks + [Ack(true, 0)] == [Ack(true, 0)];
  }

  /** An ack-all of packet 0: the answer to its arriving again, or a tick's. */
  lemma AckAllComes(c: Config, s: System) returns (s': System)
    requires Bad(c) && Reachable(c, s) && Shape(c, s, 1) && s.acks == [] && Sent(c, 0) in s.network
    requires c.input.maxAckDelay == 0 ==> s.receiver.lastAckAll == -1
    ensures Reachable(c, s') && Shape(c, s', 1) && s' == s.(receiver := s'.receiver, acks := [Ack(true, 0)])
    ensures s'.receiver.lastAckAll == 0 && s'.receiver.stash == s.receiver.stash
  {
    hide SenderShape, Messages, TrueIncomingSequence, Sent;
    if c.input.maxAckDelay >= 1 {
      OldPacketNudges(c, s);
      s' := Next(s, DeliverData(Sent(c, 0), c.start));
    } else {
      TickAcknowledges(c, s, 1);
      s' := Next(s, ReceiverTick(s.receiver.lastAckAllTime + 1));
    }
  }

  /** Without a delay the next tick acknowledges all that was consumed since the last ack-all. */
  lemma TickAcknowledges(c: Config, s: System, window: nat)
    requires c.input.maxAckDelay == 0 && !c.input.acknowledgeAllData
    requires Reachable(c, s) && Shape(c, s, window) && s.acks == [] && s.receiver.lastAckAll < window - 1
    ensures var s' := Next(s, ReceiverTick(s.receiver.lastAckAllTime + 1));
            && Reachable(c, s') && Shape(c, s', window) && s' == s.(receiver := s'.receiver, acks := [Ack(true, window - 1)])
            && s'.receiver.lastAckAll == window - 1 && s'.receiver.stash == s.receiver.stash
  {
    hide SenderShape, Messages, CipherAt, Reachable, Sent;
    ReachNext(c, s, ReceiverTick(s.receiver.lastAckAllTime + 1));
    TickEmitsAll(s.receiver);
    assert s.delivered + [] == s.delivered && s.acks + [Ack(true, window - 1)] == [Ack(true, window - 1)];
  }

  lemma TickEmitsAll(r: InputState)
    requires r.config.maxAckDelay == 0 && !r.config.acknowledgeAllData && r.lastAckAll < r.windowStart - 1 && r.outgoing == []
    ensures InputTick(r, r.lastAckAllTime + 1) == r.(outgoing := [Ack(true, r.windowStart - 1)], lastAckAll := r.windowStart - 1,
      lastAckAllTime := r.lastAckAllTime + 1, stats := r.stats.(acknowledgeCount := r.stats.acknowledgeCount + 1))
  {
  }

  // ----- The run ---------------------------------------------------------------------------

  /** Packet 1 is lost; packets below `k` are acknowledged, the last of them singly. */
  ghost predicate Stuck(c: Config, s: System, k: nat) {
    && Shape(c, s, 1) && s.acks == [] && Sent(c, 0) in s.network && s.delivered == [[0]]
    && 2 <= k < Count(c) - 1 && |s.sender.queue| == Count(c) - k + 1 + Held(c)
    && s.sender.maxClientSequence == (if k == 2 then 0 else k - 1)
    && (Held(c) == 1 ==> s.sender.queue[0].sequence == 0) && s.receiver.lastAckAll == Held(c) * -1
    && (k >= 3 ==> Sent(c, 1) in s.network && Sent(c, 2) in s.network) && Stashed(c, s.receiver.stash, 2, k)
    && s.sender.queue[Held(c)].sequence == 1
    && forall i | Held(c) < i < |s.sender.queue| :: s.sender.queue[i].sequence == k + i - 1 - Held(c)
  }

  /** Exactly the packets from `from` to `to` are stashed. */
  ghost predicate Stashed(c: Config, stash: map<int, Item>, from: nat, to: nat) {
    forall k :: (k in stash <==> from <= k < to) && (k in stash ==> k >= 0 && stash[k] == Item(false, Unit(c, k)))
  }

  /** All messages are enqueued, a window is sent, and packet 0 arrives. */
  lemma FirstDelivery(c: Config)
    requires Bad(c)
    ensures exists s :: Reachable(c, s) && Begun(c, s)
  {
    hide SenderShape, Next, TrueIncomingSequence, Sent;
    var s0 := Filled(c, Count(c));
    FilledIsReachable(c, Count(c));
    FilledHasShape(c);
    TickFillsWindow(c, s0, 0);
    var s1 := Next(s0, SenderTick(c.start));
    assert Sent(c, s0.sender.queue[0].sequence) in s1.network;
    FirstPacket(c, s1);
    var s2 :| Reachable(c, s2) && FirstIsIn(c, s1, s2);
    assert Begun(c, s2);
  }

  ghost predicate Begun(c: Config, s: System) {
    && Shape(c, s, 1) && s.acks == [] && Sent(c, 0) in s.network && s.delivered == [[0]]
    && |s.sender.queue| == Count(c) && s.sender.maxClientSequence == 0 && s.receiver.lastAckAll == -1 && s.receiver.stash == map[]
    && forall i | 0 <= i < Count(c) :: s.sender.queue[i].sequence == i
  }

  lemma FilledHasShape(c: Config)
    requires Bad(c)
    ensures Shape(c, Filled(c, Count(c)), 0)
  {
    hide Items, Message, U16;
    var s := Filled(c, Count(c));
    ItemsAre(c);
    assert forall i | 0 <= i < Count(c) :: s.sender.queue[i] == NewPacket(i, Item(false, Unit(c, i)));
  }

  lemma FirstAck(c: Config)
    requires Bad(c)
    ensures exists s :: Reachable(c, s) && Stuck(c, s, 2)
  {
    hide SenderShape, Next, TrueIncomingSequence, Sent;
    FirstDelivery(c);
    var s :| Reachable(c, s) && Begun(c, s);
    if Held(c) == 1 {
      assert Stuck(c, s, 2);
      return;
    }
    var s1 := AckAllComes(c, s);
    UnwrapIsExact(0, 0, c.output.maxQueuedOutgoing);
    ReleaseAt(c, s1, 0, 0);
    assert Stuck(c, Next(s1, DeliverAck(c.start)), 2);
  }

  lemma ItemsAre(c: Config)
    ensures |Items(c, Count(c))| == Count(c)
    ensures forall k | 0 <= k < Count(c) :: Items(c, Count(c))[k] == Item(false, Unit(c, k))
  {
  }

  ghost predicate FirstIsIn(c: Config, s: System, s': System) {
    && Shape(c, s', 1) && s'.acks == [] && s'.delivered == [[0]]
    && s'.sender == s.sender && s'.network == s.network && s'.receiver.lastAckAll == s.receiver.lastAckAll && s'.receiver.stash == s.receiver.stash
  }

  /** Packet 0 arrives; where it is acknowledged on its own, that is lost. */
  lemma FirstPacket(c: Config, s: System)
    requires Bad(c) && s.acks == []
    requires Reachable(c, s) && Shape(c, s, 0) && Sent(c, 0) in s.network && s.receiver.stash == map[] && s.delivered == []
    ensures exists s' :: Reachable(c, s') && FirstIsIn(c, s, s')
  {
    hide SenderShape, Messages, Unit, CipherAt, Receive;
    ReachNext(c, s, DeliverData(Sent(c, 0), c.start));
    ReceiveFirst(c, s.receiver);
    assert s.delivered + [[0]] == [[0]];
    var s1 := Next(s, DeliverData(Sent(c, 0), c.start));
    if c.input.acknowledgeAllData {
      assert s1.acks == [Ack(false, 0)];
      ReachNext(c, s1, LoseAck(0));
      assert Next(s1, LoseAck(0)).acks == [];
    } else {
      assert s1.acks == [];
    }
  }

  lemma ReceiveFirst(c: Config, r: InputState)
    requires Bad(c) && ReceiverShape(c, r, 0) && r.stash == map[]
    ensures var n := Receive(r, false, U16(0) + Unit(c, 0), c.start);
            && n.ok && n.state == r.(decoder := Idle(CipherAt(c, 1)), windowStart := 1, appData := [[0]],
                                     outgoing := if c.input.acknowledgeAllData then [Ack(false, 0)] else [],
                                     stats := n.state.stats)
  {
    hide TrueIncomingSequence, CipherAt, TakeNext;
    UnwrapIsExact(0, 0, c.input.maxQueuedIncoming);
    var data := U16(0) + Unit(c, 0);
    assert ReadU16(data) == 0 && data[2..] == Unit(c, 0);
    CipherStep(c, 0);
    UnitRoundTrip(CipherAt(c, 0), [0]);
    TakeUnit(AckOne(CountReceived(r), 0), Unit(c, 0), [0]);
  }

  /** A packet that holds a whole unit is handed to the application at once. */
  lemma TakeUnit(r: InputState, unit: bytes, message: bytes)
    requires r.decoder.buffer == None && ProcessData(r.decoder.cipher, unit).output == [message]
    ensures var n := TakeNext(r, Item(false, unit));
            n.ok && n.state == r.(decoder := r.decoder.(cipher := ProcessData(r.decoder.cipher, unit).cipher),
              windowStart := r.windowStart + 1, appData := r.appData + [message], stats := n.state.stats)
  {
    hide ProcessData;
  }

  /** The sender reads the one acknowledgement in flight as `t` and releases what it covers. */
  lemma ReleaseAt(c: Config, s: System, t: nat, from: nat)
    requires Reachable(c, s) && Shape(c, s, s.receiver.windowStart) && |s.acks| == 1
    requires TrueIncoming(s.sender, s.acks[0].sequence % 0x1_0000) == t
    requires from < |s.sender.queue| && s.sender.queue[from].sequence == t && (s.acks[0].all ==> from == 0)
    ensures var s' := Next(s, DeliverAck(c.start));
            && Reachable(c, s') && Shape(c, s', s.receiver.windowStart)
            && s'.sender.queue == s.sender.queue[..from] + s.sender.queue[from + 1..]
            && s'.sender.maxClientSequence == Max(s.sender.maxClientSequence, t)
            && s' == s.(sender := s'.sender, acks := [])
  {
    hide ReceiverShape, Messages, SenderShape, Acked, TrueIncoming, TrueIncomingSequence;
    ReachNext(c, s, DeliverAck(c.start));
    AckReleasesOne(c, s.sender, s.network, s.acks[0], t, from);
  }

  lemma AckReleasesOne(c: Config, o: OutputState, network: set<Datagram>, a: Ack, t: nat, from: nat)
    requires SenderShape(c, o, network) && TrueIncoming(o, a.sequence % 0x1_0000) == t
    requires from < |o.queue| && o.queue[from].sequence == t && (a.all ==> from == 0)
    ensures var o' := Acked(o, a, c.start);
            && SenderShape(c, o', network) && o'.config == o.config
            && o'.queue == o.queue[..from] + o.queue[from + 1..]
            && o'.maxClientSequence == Max(o.maxClientSequence, t)
  {
    hide TrueIncoming, TrueIncomingSequence, QueueOk, InHistory, LastSample, Sample, UpdateRto;
    var sample := if a.all then LastSample(o.queue[..1], c.start) else Sample(o.queue[from], c.start);
    SortedQueue(o.queue, c.output.maxQueuedOutgoing, o.dispatchIndex, from);
    assert a.all ==> LeadCount(o.queue, t) == 1;
    assert !a.all ==> Position(o.queue, t) == from;
    assert Acked(o, a, c.start) == Release(o, from, from + 1, sample, t);
    ReleaseKeepsQueue(o, c.output.maxQueuedOutgoing, from, from + 1, sample, t);
  }

  lemma SortedQueue(queue: seq<QueuedPacket>, window: nat, index: nat, from: nat)
    requires QueueOk(queue, window, index) && from < |queue|
    ensures forall i | 0 <= i < from :: queue[i].sequence < queue[from].sequence
    ensures forall i | from < i < |queue| :: queue[i].sequence > queue[from].sequence
  {
  }

  /** One more packet behind the lost one is delivered and acknowledged on its own. */
  lemma AckNext(c: Config, s: System, k: nat)
    requires Bad(c) && Reachable(c, s) && Stuck(c, s, k) && k <= c.input.maxQueuedIncoming + 1
    ensures exists s' :: Reachable(c, s') && Stuck(c, s', k + 1)
  {
    hide SenderShape, TrueIncomingSequence, Sent, Stashed, Shape;
    var s2 := AheadArrives(c, s, k);
    OneMoreStashed(c, s.receiver.stash, k);
    SenderConfig(c, s2, 1);
    WindowOf(c, s2, 1);
    UnwrapIsExact(k, s2.sender.maxClientSequence, c.output.maxQueuedOutgoing);
    hide Next;
    ReleaseAt(c, s2, k, 1 + Held(c));
    var s3 := Next(s2, DeliverAck(c.start));
    assert Stuck(c, s3, k + 1);
  }

  /** A tick, and the packet arrives. */
  lemma AheadArrives(c: Config, s: System, k: nat) returns (s': System)
    requires Bad(c) && Reachable(c, s) && Stuck(c, s, k) && k <= c.input.maxQueuedIncoming + 1
    ensures Reachable(c, s') && Shape(c, s', 1) && s'.acks == [Ack(false, k)] && s'.delivered == s.delivered
    ensures |s'.sender.queue| == |s.sender.queue| && s'.sender.maxClientSequence == s.sender.maxClientSequence
    ensures forall i | 0 <= i < |s.sender.queue| :: s'.sender.queue[i].sequence == s.sender.queue[i].sequence
    ensures s'.receiver.lastAckAll == s.receiver.lastAckAll
    ensures s'.receiver.stash == if k in s.receiver.stash then s.receiver.stash else s.receiver.stash[k := Item(false, Unit(c, k))]
    ensures s.network <= s'.network && Sent(c, 1) in s'.network && Sent(c, k) in s'.network
  {
    hide SenderShape, Next, Sent, Stashed, Shape, CipherAt, Unit;
    TickFillsWindow(c, s, 1);
    var s1 := Next(s, SenderTick(c.start));
    assert Sent(c, s.sender.queue[1 + Held(c)].sequence) in s1.network;
    assert Sent(c, s.sender.queue[Held(c)].sequence) in s1.network;
    AheadIsAcked(c, s1, k);
    s' := Next(s1, DeliverData(Sent(c, k), c.start));
  }

  lemma OneMoreStashed(c: Config, stash: map<int, Item>, k: nat)
    requires Stashed(c, stash, 2, k) && k >= 2
    ensures k !in stash && Stashed(c, stash[k := Item(false, Unit(c, k))], 2, k + 1)
  {
    hide Unit;
  }

  lemma WindowOf(c: Config, s: System, window: nat)
    requires Shape(c, s, window)
    ensures s.receiver.windowStart == window
  {
  }

  lemma AheadIsAcked(c: Config, s: System, k: nat)
    requires 1 <= c.input.maxQueuedIncoming <= 32767 && 2 <= k <= c.input.maxQueuedIncoming + 1
    requires Reachable(c, s) && Shape(c, s, 1) && s.acks == [] && Sent(c, k) in s.network
    ensures Enabled(s, DeliverData(Sent(c, k), c.start))
    ensures var s' := Next(s, DeliverData(Sent(c, k), c.start));
            && Reachable(c, s') && Shape(c, s', 1) && s' == s.(receiver := s'.receiver, acks := [Ack(false, k)])
            && s'.receiver.lastAckAll == s.receiver.lastAckAll
            && s'.receiver.stash == (if k in s.receiver.stash then s.receiver.stash else s.receiver.stash[k := Item(false, Unit(c, k))])
  {
    hide SenderShape, Messages, Receive;
    ReachNext(c, s, DeliverData(Sent(c, k), c.start));
    ReceiveAhead(c, s.receiver, k);
    assert s.delivered + [] == s.delivered;
    assert s.acks + [Ack(false, k)] == [Ack(false, k)];
  }

  lemma ReceiveAhead(c: Config, r: InputState, k: nat)
    requires 1 <= r.config.maxQueuedIncoming <= 32767 && r.windowStart == 1
    requires 2 <= k <= r.config.maxQueuedIncoming + 1
    ensures Receive(r, false, U16(k) + Unit(c, k), c.start)
         == Outcome(Hold(AckOne(CountReceived(r), k), k, Item(false, Unit(c, k))), true)
  {
    hide TrueIncomingSequence, Unit;
    UnwrapIsExact(k, 1, r.config.maxQueuedIncoming);
    var data := U16(k) + Unit(c, k);
    assert data[0] == U16(k)[0] && data[1] == U16(k)[1] && data[2..] == Unit(c, k);
    U16RoundTrip(k, data);
  }

  lemma {:induction false} AckUpTo(c: Config, k: nat)
    requires Bad(c) && 2 <= k <= c.input.maxQueuedIncoming + 2
    ensures exists s :: Reachable(c, s) && Stuck(c, s, k)
  {
    hide Stuck, Reachable;
    if k == 2 {
      FirstAck(c);
    } else {
      AckUpTo(c, k - 1);
      var s :| Reachable(c, s) && Stuck(c, s, k - 1);
      AckNext(c, s, k - 1);
    }
  }

  /** Only the last packet is left, and the one the receiver waits for never arrived. */
  ghost predicate Lost(c: Config, s: System) {
    && Shape(c, s, Victim(c)) && |s.delivered| == Victim(c)
    && |s.sender.queue| == 1 && s.sender.queue[0].sequence == Count(c) - 1
  }

  /** An old ack-all is read 65536 too high: everything but the last packet is released, the one the receiver waits
      for among it. */
  lemma PrematureRelease(c: Config)
    requires Bad(c)
    ensures exists s :: Reachable(c, s) && Lost(c, s) && !Retained(s.sender, s.receiver)
  {
    hide SenderShape, Next, TrueIncomingSequence, Sent, Stashed, ReceiverShape, Ends, InHistory;
    AckUpTo(c, c.input.maxQueuedIncoming + 2);
    var s :| Reachable(c, s) && Stuck(c, s, c.input.maxQueuedIncoming + 2);
    var s1: System;
    if Twin(c) {
      s1 := SecondMisread(c, s);
    } else {
      StuckEnds(c, s, c.input.maxQueuedIncoming + 2);
      s1 := AckAllComes(c, s);
      UnwrapIsExact(65536, c.input.maxQueuedIncoming + 1, c.output.maxQueuedOutgoing);
    }
    MisreadAck(c, s1);
    var s2 :| Reachable(c, s2) && Lost(c, s2);
    LostIsNotRetained(c, s2);
  }

  lemma LostIsNotRetained(c: Config, s: System)
    requires Lost(c, s)
    ensures !Retained(s.sender, s.receiver)
  {
    assert !Queued(s.sender.queue, Victim(c)) && !Accepted(s.receiver, Victim(c));
  }

  /** The queue ends with the last two packets. */
  ghost predicate Ends(c: Config, queue: seq<QueuedPacket>) {
    var n := |queue|;
    n >= 2 && queue[n - 1].sequence == Count(c) - 1 && queue[n - 2].sequence == Count(c) - 2
  }

  lemma StuckEnds(c: Config, s: System, k: nat)
    requires Stuck(c, s, k) && k <= 65535
    ensures Ends(c, s.sender.queue)
  {
    hide Shape, Sent;
  }

  lemma MisreadAck(c: Config, s: System)
    requires Reachable(c, s) && Shape(c, s, Victim(c)) && |s.delivered| == Victim(c) && |s.acks| == 1 && s.acks[0].all
    requires TrueIncoming(s.sender, s.acks[0].sequence % 0x1_0000) == Count(c) - 2 && Ends(c, s.sender.queue)
    ensures exists s' :: Reachable(c, s') && Lost(c, s')
  {
    hide ReceiverShape, Messages, SenderShape, Acked, TrueIncoming;
    ReachNext(c, s, DeliverAck(c.start));
    AckAllReleases(c, s.sender, s.network, s.acks[0]);
    ShapeConfig(c, Acked(s.sender, s.acks[0], c.start), s.network);
    assert Lost(c, Next(s, DeliverAck(c.start)));
  }

  lemma ShapeConfig(c: Config, o: OutputState, network: set<Datagram>)
    requires SenderShape(c, o, network)
    ensures o.config == c.output
  {
  }

  lemma AckAllReleases(c: Config, o: OutputState, network: set<Datagram>, a: Ack)
    requires SenderShape(c, o, network) && a.all && TrueIncoming(o, a.sequence % 0x1_0000) == Count(c) - 2 && Ends(c, o.queue)
    ensures var o' := Acked(o, a, c.start);
            SenderShape(c, o', network) && |o'.queue| == 1 && o'.queue[0].sequence == Count(c) - 1
  {
    hide TrueIncoming, TrueIncomingSequence, InHistory, QueueOk, LastSample, UpdateRto;
    var n := |o.queue| - 1;
    SortedQueue(o.queue, c.output.maxQueuedOutgoing, o.dispatchIndex, n);
    SortedQueue(o.queue, c.output.maxQueuedOutgoing, o.dispatchIndex, n - 1);
    assert LeadCount(o.queue, Count(c) - 2) == n;
    var sample := LastSample(o.queue[..n], c.start);
    ReleaseKeepsQueue(o, c.output.maxQueuedOutgoing, 0, n, sample, Count(c) - 2);
    assert Acked(o, a, c.start) == Release(o, 0, n, sample, Count(c) - 2);
    assert Acked(o, a, c.start).queue == [o.queue[n]];
  }

  // ----- A window of two without a delay -------------------------------------------------------

  /** The highest acknowledged sequence has jumped to 65538 by then: packet 2 arrived twice, and its second
      acknowledgement was read too high. Packet 1 and all that is stashed are consumed, and a tick acknowledges
      them together. */
  lemma SecondMisread(c: Config, s: System) returns (s': System)
    requires Bad(c) && Twin(c) && Reachable(c, s) && Stuck(c, s, c.input.maxQueuedIncoming + 2)
    ensures Reachable(c, s') && Shape(c, s', Victim(c)) && |s'.delivered| == Victim(c)
    ensures s'.acks == [Ack(true, Victim(c) - 1)]
    ensures TrueIncoming(s'.sender, (Victim(c) - 1) % 0x1_0000) == Count(c) - 2 && Ends(c, s'.sender.queue)
  {
    hide SenderShape, Next, TrueIncomingSequence, Sent, Shape, Stashed;
    var s1 := Jumps(c, s);
    StashIsConsumed(c, s1);
    var s2 := Next(s1, DeliverData(Sent(c, 1), c.start));
    TickAcknowledges(c, s2, Victim(c));
    s' := Next(s2, ReceiverTick(s2.receiver.lastAckAllTime + 1));
    SenderConfig(c, s', Victim(c));
    UnwrapIsExact(Count(c) - 2, 65538, 2);
  }

  lemma SenderConfig(c: Config, s: System, window: nat)
    requires Shape(c, s, window)
    ensures s.sender.config == c.output
  {
  }

  /** Packet 2 arrives once more. */
  lemma Jumps(c: Config, s: System) returns (s': System)
    requires Bad(c) && Twin(c) && Reachable(c, s) && Stuck(c, s, c.input.maxQueuedIncoming + 2)
    ensures Reachable(c, s') && Shape(c, s', 1) && s'.acks == [] && s'.delivered == [[0]] && Sent(c, 1) in s'.network
    ensures s'.sender.maxClientSequence == 65538 && Ends(c, s'.sender.queue)
    ensures s'.receiver.lastAckAll == 0 && Stashed(c, s'.receiver.stash, 2, Victim(c))
  {
    hide SenderShape, Next, TrueIncomingSequence, Sent, Stashed;
    var m := c.input.maxQueuedIncoming;
    AheadIsAcked(c, s, 2);
    var s1 := Next(s, DeliverData(Sent(c, 2), c.start));
    UnwrapIsExact(65538, m + 1, 2);
    ReleaseAt(c, s1, 65538, 65537 - m);
    s' := Next(s1, DeliverAck(c.start));
    IsStashed(c, s.receiver.stash, 2, m + 2, 2);
  }

  lemma IsStashed(c: Config, stash: map<int, Item>, from: nat, to: nat, k: nat)
    requires Stashed(c, stash, from, to) && from <= k < to
    ensures k in stash
  {
  }

  /** Packet 1 arrives at last, and the receiver consumes all it has stashed. */
  lemma StashIsConsumed(c: Config, s: System)
    requires Bad(c) && Twin(c) && Reachable(c, s) && Shape(c, s, 1) && s.acks == [] && s.delivered == [[0]]
    requires Sent(c, 1) in s.network && s.receiver.lastAckAll == 0 && Stashed(c, s.receiver.stash, 2, Victim(c))
    ensures Enabled(s, DeliverData(Sent(c, 1), c.start))
    ensures var s' := Next(s, DeliverData(Sent(c, 1), c.start));
            && Reachable(c, s') && Shape(c, s', Victim(c)) && s'.acks == [] && |s'.delivered| == Victim(c)
            && s'.sender == s.sender && s'.receiver.lastAckAll == 0
  {
    hide SenderShape, Messages, Receive, Unit, CipherAt, Stashed;
    ReachNext(c, s, DeliverData(Sent(c, 1), c.start));
    ReceiveMissing(c, s.receiver);
    assert s.acks + [] == s.acks;
  }

  lemma ReceiveMissing(c: Config, r: InputState)
    requires Bad(c) && Twin(c) && ReceiverShape(c, r, 1) && Stashed(c, r.stash, 2, Victim(c))
    ensures var n := Receive(r, false, U16(1) + Unit(c, 1), c.start);
            && n.ok && n.state.outgoing == [] && |n.state.appData| == Victim(c) - 1
            && n.state.config == r.config && n.state.decoder == Idle(CipherAt(c, Victim(c))) && n.state.windowStart == Victim(c)
            && Victim(c) !in n.state.stash && n.state.lastAckAll == r.lastAckAll && n.state.lastAckAllTime == r.lastAckAllTime
  {
    hide TrueIncomingSequence, Unit, CipherAt, ConsumeStashed, TakeNext, Stashed;
    UnwrapIsExact(1, 1, r.config.maxQueuedIncoming);
    var data := U16(1) + Unit(c, 1);
    assert ReadU16(data) == 1 && data[2..] == Unit(c, 1);
    var r1 := AckOne(CountReceived(r), 1);
    UnitIsTaken(c, r1, 1);
    ConsumeUnits(c, TakeNext(r1, Item(false, Unit(c, 1))).state, 2, Victim(c));
  }

  /** A packet taken in its turn yields one message. */
  lemma UnitIsTaken(c: Config, r: InputState, k: nat)
    requires r.decoder == Idle(CipherAt(c, k)) && r.windowStart == k < Count(c)
    ensures var n := TakeNext(r, Item(false, Unit(c, k)));
            && n.ok && |n.state.appData| == |r.appData| + 1
            && n.state == r.(decoder := Idle(CipherAt(c, k + 1)), windowStart := k + 1, appData := n.state.appData, stats := n.state.stats)
  {
    hide CipherAt, TakeNext;
    CipherStep(c, k);
    UnitRoundTrip(CipherAt(c, k), Message(c, k));
    OnePlain(CipherAt(c, k), Message(c, k));
    TakeUnit(r, Unit(c, k), Message(c, k));
  }

  lemma OnePlain(cipher: Option<Rc4.Cipher>, message: bytes)
    requires |message| <= 2
    ensures Surfaced(cipher, message) == [message]
  {
  }

  lemma {:induction false} ConsumeUnits(c: Config, r: InputState, from: nat, to: nat)
    requires r.decoder == Idle(CipherAt(c, from)) && r.windowStart == from <= to < Count(c) && Stashed(c, r.stash, from, to)
    ensures var n := ConsumeStashed(r);
            && n.ok && |n.state.appData| == |r.appData| + (to - from) && n.state.windowStart == to && to !in n.state.stash
            && n.state.decoder == Idle(CipherAt(c, to)) && n.state.outgoing == r.outgoing && n.state.config == r.config
            && n.state.lastAckAll == r.lastAckAll && n.state.lastAckAllTime == r.lastAckAllTime
    decreases Count(c) - from
  {
    hide CipherAt, Unit, TakeNext;
    if from < to {
      var r1 := r.(stash := r.stash - {from});
      UnitIsTaken(c, r1, from);
      ConsumeUnits(c, TakeNext(r1, r.stash[from]).state, from + 1, to);
    }
  }

  // ----- The wrong delivery --------------------------------------------------------------------

  /** The packet 65536 beyond the lost one is taken for it: the message then delivered has not even the
      right length. */
  lemma WrongDelivery(c: Config)
    requires Bad(c)
    ensures exists s :: Reachable(c, s) && !(s.delivered <= s.enqueued) && Intact(c.cipher, s.enqueued)
  {
    hide SenderShape, Next, Sent;
    PrematureRelease(c);
    var s :| Reachable(c, s) && Lost(c, s);
    TickFillsWindow(c, s, Victim(c));
    var s1 := Next(s, SenderTick(c.start));
    assert Sent(c, s.sender.queue[0].sequence) in s1.network;
    LastPacketIsTaken(c, s1);
    var s2 := Next(s1, DeliverData(Sent(c, Count(c) - 1), c.start));
    assert |s2.enqueued[Victim(c)]| == 1;
  }

  lemma LastPacketIsTaken(c: Config, s: System)
    requires Bad(c)
    requires Reachable(c, s) && Shape(c, s, Victim(c)) && Sent(c, Count(c) - 1) in s.network && |s.delivered| == Victim(c)
    ensures var s', k := Next(s, DeliverData(Sent(c, Count(c) - 1), c.start)), Victim(c);
            Reachable(c, s') && s'.enqueued == s.enqueued && |s'.delivered| > k && |s'.delivered[k]| == 2
  {
    hide SenderShape, Messages, Receive, Unit, CipherAt;
    ReachNext(c, s, DeliverData(Sent(c, Count(c) - 1), c.start));
    ReceiveLast(c, s.receiver);
  }

  lemma ReceiveLast(c: Config, r: InputState)
    requires Bad(c) && ReceiverShape(c, r, Victim(c))
    ensures var data := Receive(r, false, U16(Count(c) - 1) + Unit(c, Count(c) - 1), c.start).state.appData;
            data != [] && |data[0]| == 2
  {
    hide TrueIncomingSequence, ConsumeStashed, TakeNext, CipherAt, ProcessData;
    var k := Victim(c);
    UnwrapIsExact(k, k, r.config.maxQueuedIncoming);
    var unit := Unit(c, Count(c) - 1);
    var data := U16(Count(c) - 1) + unit;
    assert data[0] == U16(Count(c) - 1)[0] && data[1] == U16(Count(c) - 1)[1] && data[2..] == unit;
    U16RoundTrip(Count(c) - 1, data);
    SameCipherKind(c);
    var message := WrongCipher(CipherAt(c, Count(c) - 1), CipherAt(c, k), Message(c, Count(c) - 1));
    var r1 := AckOne(CountReceived(r), k);
    TakeUnit(r1, unit, message);
    ConsumeExtends(TakeNext(r1, Item(false, unit)).state);
  }

  lemma SameCipherKind(c: Config)
    ensures CipherAt(c, Count(c) - 1).Some? == CipherAt(c, Victim(c)).Some?
  {
    hide Rc4.After;
  }

  /** A short unit decrypts to one message of its own length, whatever the cipher state. */
  lemma WrongCipher(c: Option<Rc4.Cipher>, c': Option<Rc4.Cipher>, message: bytes) returns (other: bytes)
    requires c.Some? == c'.Some? && 1 <= |message| <= 2
    ensures ProcessData(c', WireUnit(c, message)).output == [other] && |other| == |message|
  {
    hide Rc4.After;
    var unit := WireUnit(c, message);
    UnitRoundTrip(c, message);
    var units := [unit];
    assert !IsBundle(unit) && units[1..] == [];
    assert DecryptAll(c', units).output == [Decrypt(c', unit)];
    if c.None? {
      DecryptAllPlain([unit]);
      other := unit;
    } else {
      var cipherText := Rc4.Transform(c.value, message);
      assert Unpad(c', unit) == cipherText && |cipherText| == |message|;
      other := Rc4.Transform(c'.value, cipherText);
      assert Decrypt(c', unit) == other;
    }
  }

  lemma {:induction false} ConsumeExtends(r: InputState)
    ensures r.appData <= ConsumeStashed(r).state.appData
    decreases |r.stash|
  {
    hide Accept;
    if r.windowStart in r.stash {
      var n := TakeNext(r.(stash := r.stash - {r.windowStart}), r.stash[r.windowStart]);
      if n.ok { ConsumeExtends(n.state); }
    }
  }

  // ----- The theorem -----------------------------------------------------------------------

  /** Every run of every configuration with these windows delivers a prefix of what was enqueued. */
  ghost predicate AlwaysInOrder(m: nat, w: nat) {
    forall c: Config, actions: seq<Action> |
      && WellConfigured(c) && c.input.maxQueuedIncoming == m && c.output.maxQueuedOutgoing == w
      && Possible(c, actions) && Intact(c.cipher, Execute(c, actions).enqueued) ::
      Execute(c, actions).delivered <= Execute(c, actions).enqueued
  }

  /** The exact condition for end-to-end safety on the windows alone. The defaults, a receiving window of
      256 packets and a sending window of 196, do not meet it. */
  lemma InOrderIffWindowsAgree(m: nat, w: nat)
    requires m >= 1 && w >= 1 && 2 * w <= 65535 && 2 * m + w <= 65535
    ensures AlwaysInOrder(m, w) <==> m < w || w == 1
  {
    if m < w || w == 1 {
      forall c: Config, actions: seq<Action> |
        && WellConfigured(c) && c.input.maxQueuedIncoming == m && c.output.maxQueuedOutgoing == w
        && Possible(c, actions) && Intact(c.cipher, Execute(c, actions).enqueued)
        ensures Execute(c, actions).delivered <= Execute(c, actions).enqueued
      {
        DeliveredInOrder(c, actions);
      }
    } else {
      var c := Config(OutputConfig(6, w, 1), InputConfig(m, false, 0, 1), None, 0);
      InOrderIff(c);
      var actions :| Possible(c, actions) && Intact(c.cipher, Execute(c, actions).enqueued)
        && !(Execute(c, actions).delivered <= Execute(c, actions).enqueued);
    }
  }

  /** Every run of one configuration delivers a prefix of what was enqueued. */
  ghost predicate InOrder(c: Config)
    requires WellConfigured(c)
  {
    forall actions: seq<Action> | Possible(c, actions) && Intact(c.cipher, Execute(c, actions).enqueued) ::
      Execute(c, actions).delivered <= Execute(c, actions).enqueued
  }

  /** The exact condition for each configuration, encrypted or not. */
  lemma InOrderIff(c: Config)
    requires WellConfigured(c)
    ensures var m, w := c.input.maxQueuedIncoming, c.output.maxQueuedOutgoing;
            InOrder(c) <==>
              || m < w || w == 1
              || (c.input.maxAckDelay == 0 && (c.input.acknowledgeAllData || (w == 2 && m <= 3)))
  {
    if WindowsAgree(c) || SingleAcks.Singly(c) || (TwoPackets.Twofold(c) && c.input.maxQueuedIncoming <= 3) {
      forall actions: seq<Action> | Possible(c, actions) && Intact(c.cipher, Execute(c, actions).enqueued)
        ensures Execute(c, actions).delivered <= Execute(c, actions).enqueued
      {
        if WindowsAgree(c) {
          DeliveredInOrder(c, actions);
        } else if SingleAcks.Singly(c) {
          SingleAcks.SinglesDeliverInOrder(c, actions);
        } else {
          TwoPackets.TwoDeliverInOrder(c, actions);
        }
      }
    } else {
      WrongDelivery(c);
      var s :| Reachable(c, s) && !(s.delivered <= s.enqueued) && Intact(c.cipher, s.enqueued);
      var actions :| Possible(c, actions) && Execute(c, actions) == s;
    }
  }

  /** What a session with default parameters gives its channels. */
  function Defaults(): Config {
    Config(OutputConfig(512 - 2 - 2, 196, 500_000_000), InputConfig(256, false, 32, 2_000_000), None, 0)
  }

  /** The defaults deliver wrong data in some run. */
  lemma DefaultsDeliverWrongly()
    ensures exists s :: Reachable(Defaults(), s) && !(s.delivered <= s.enqueued) && Intact(None, s.enqueued)
  {
    WrongDelivery(Defaults());
  }
}
