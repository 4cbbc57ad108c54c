/** The reliable output channel as the source keeps it (src/channel/output.rs): fields updated in
    place by each method, proved against module ReliableOutput. */
module OutputChannel {
  import opened Bytes
  import opened Rc4
  import opened DataCodec
  import opened ReliableOutput
  import opened SequenceNumbers

  class ReliableDataOutputChannel {
    var config: OutputConfig
    var cipher: Option<Cipher>
    var queue: seq<QueuedPacket>
    var totalSequence: nat
    var maxClientSequence: nat
    var dispatchIndex: nat
    var srtt: Option<nat>
    var rttvar: nat
    var rto: nat
    var outgoing: seq<OutgoingReliable>
    var stats: OutputStats

    ghost function State(): OutputState
      reads this
    {
      OutputState(config, cipher, queue, totalSequence, maxClientSequence, dispatchIndex,
                  Timer(srtt, rttvar, rto), outgoing, stats)
    }

    constructor (config: OutputConfig, cipher: Option<Cipher>)
      ensures State() == Initial(config, cipher)
    {
      this.config, this.cipher := config, cipher;
      queue, totalSequence, maxClientSequence, dispatchIndex := [], 0, 0, 0;
      srtt, rttvar, rto := None, 0, config.ackWait;
      outgoing, stats := [], OutputStats(0, 0, 0, 0);
    }

    method TakeOutgoing() returns (taken: seq<OutgoingReliable>)
      modifies this
      ensures taken == old(outgoing) && State() == ReliableOutput.TakeOutgoing(old(State()))
    {
      taken := outgoing;
      outgoing := [];
    }

    method SetMaxDataLength(maxDataLength: nat)
      modifies this
      ensures State() == old(State()).(config := old(config).(maxDataLength := maxDataLength))
    {
      config := config.(maxDataLength := maxDataLength);
    }

    method EnqueueData(data: bytes)
      requires config.maxDataLength >= 6
      modifies this
      ensures State() == Enqueue(old(State()), data)
    {
      hide Pieces, Fragments, Stash, Transform, After;
      if data == [] { return; }
      var remaining := data;
      if cipher.Some? { remaining := Encrypt(data); }
      ghost var unit := remaining;
      ghost var start := State();
      var isFragment := |remaining| > config.maxDataLength - 2;
      remaining := StashFragment(remaining, true, isFragment);
      while remaining != []
        invariant config == old(config)
        invariant StashAll(State(), Pieces(config.maxDataLength - 2, remaining))
               == StashAll(start, Fragments(config.maxDataLength, unit))
        decreases |remaining|
      {
        remaining := StashFragment(remaining, false, true);
      }
      NoPieces(config.maxDataLength - 2);
    }

    method Encrypt(data: bytes) returns (unit: bytes)
      requires cipher.Some? && data != []
      modifies this`cipher
      ensures unit == WireUnit(old(cipher), data) && cipher == Advance(old(cipher), |data|)
    {
      var cipherText := Transform(cipher.value, data);
      cipher := Some(After(cipher.value, |data|));
      var buf := [0] + cipherText;
      unit := if buf[1] == 0 then buf else buf[1..];
    }

    /** Queues the next packet of a unit and returns what is left of the unit. */
    method StashFragment(data: bytes, isMaster: bool, isFragment: bool) returns (rest: bytes)
      requires config.maxDataLength >= 6 && data != []
      requires isFragment || (isMaster && |data| <= config.maxDataLength - 2)
      requires isMaster && isFragment ==> |data| > config.maxDataLength - 2
      modifies this`queue, this`totalSequence
      ensures |rest| < |data| || (isMaster && isFragment)
      ensures var items := if isMaster then Fragments(config.maxDataLength, data)
                           else Pieces(config.maxDataLength - 2, data);
              items != [] && State() == Stash(old(State()), items[0])
              && items[1..] == Pieces(config.maxDataLength - 2, rest)
    {
      var amount := Min(|data|, config.maxDataLength - 2);
      var buf := U16(totalSequence);
      if isMaster && isFragment {
        buf := buf + U32(|data|);
        amount := amount - 4;
        assert buf + data[..amount] == U16(totalSequence) + (U32(|data|) + data[..amount]);
      }
      buf := buf + data[..amount];
      queue := queue + [QueuedPacket(totalSequence, isFragment, buf, false, None, false)];
      totalSequence := totalSequence + 1;
      rest := data[amount..];
      assert |data| == amount ==> data[..amount] == data;
    }

    method RunTick(now: nat)
      modifies this
      ensures State() == ReliableOutput.RunTick(old(State()), now)
    {
      hide DispatchAll, Wire, MarkSent;
      var timedOut := false;
      if queue != [] && queue[0].sent && queue[0].sentAt.Some? {
        timedOut := Since(now, queue[0].sentAt.value) > rto;
      }
      if timedOut {
        dispatchIndex := 0;
        rto := Min(rto * 2, RTO_MAX);
      }
      var maxIndex := Min(|queue|, config.maxQueuedOutgoing);
      while dispatchIndex < maxIndex
        invariant maxIndex == WindowEnd(State())
        invariant DispatchAll(State(), now) == ReliableOutput.RunTick(old(State()), now)
      {
        DispatchStep(State(), now);
        Dispatch(now);
      }
      NothingDue(State(), now);
    }

    /** The body of the dispatch loop. */
    method Dispatch(now: nat)
      requires dispatchIndex < |queue|
      modifies this
      ensures State() == DispatchNext(old(State()), now)
    {
      var packet := queue[dispatchIndex];
      var kind := if packet.isFragment then ReliableDataFragment else ReliableData;
      stats := stats.(totalSent := stats.totalSent + 1);
      var resent := packet.resent;
      if packet.sent {
        stats := stats.(totalResent := stats.totalResent + 1);
        resent := true;
      }
      queue := queue[dispatchIndex := packet.(sent := true, sentAt := Some(now), resent := resent)];
      outgoing := outgoing + [OutgoingReliable(kind, packet.data)];
      dispatchIndex := dispatchIndex + 1;
    }

    method UpdateRto(sample: nat)
      modifies this`srtt, this`rttvar, this`rto
      ensures Timer(srtt, rttvar, rto) == ReliableOutput.UpdateRto(old(Timer(srtt, rttvar, rto)), sample)
    {
      match srtt {
        case None =>
          srtt := Some(sample);
          rttvar := sample / 2;
        case Some(value) =>
          var diff := AbsDiff(value, sample);
          rttvar := (rttvar * 3 + diff) / 4;
          srtt := Some((value * 7 + sample) / 8);
      }
      rto := Clamp(srtt.value + Max(RTO_GRANULARITY, rttvar * 4));
    }

    method NotifyOfAcknowledge(sequence: nat, now: nat)
      requires sequence < 0x1_0000
      modifies this
      ensures State() == Acknowledge(old(State()), sequence, now)
    {
      hide TrueIncomingSequence, ReliableOutput.UpdateRto, Position, Sample;
      var t := TrueIncomingSequence(sequence, maxClientSequence, config.maxQueuedOutgoing);
      stats := stats.(incomingAcknowledgeCount := stats.incomingAcknowledgeCount + 1);
      var pos := FindPosition(t);
      assert queue[..0] + queue[0..] == queue;
      var sample: Option<nat> := None;
      if pos < |queue| { sample := Remove(pos, now); }
      Conclude(sample, t);
    }

    method Remove(pos: nat, now: nat) returns (sample: Option<nat>)
      requires pos < |queue|
      modifies this`queue, this`dispatchIndex, this`stats
      ensures sample == Sample(old(queue[pos]), now) && queue == old(queue)[..pos] + old(queue)[pos + 1..]
      ensures dispatchIndex == Max(old(dispatchIndex) - 1, 0)
      ensures stats == old(stats).(actualAcknowledgeCount := old(stats).actualAcknowledgeCount + 1)
    {
      sample := Sample(queue[pos], now);
      queue := queue[..pos] + queue[pos + 1..];
      dispatchIndex := Max(dispatchIndex - 1, 0);
      stats := stats.(actualAcknowledgeCount := stats.actualAcknowledgeCount + 1);
    }

    method FindPosition(t: int) returns (pos: nat)
      ensures pos == Position(queue, t)
    {
      pos := 0;
      while pos < |queue| && queue[pos].sequence != t
        invariant pos <= |queue|
        invariant forall k | 0 <= k < pos :: queue[k].sequence != t
      {
        pos := pos + 1;
      }
    }

    method NotifyOfAcknowledgeAll(sequence: nat, now: nat)
      requires sequence < 0x1_0000
      modifies this
      ensures State() == AcknowledgeAll(old(State()), sequence, now)
    {
      hide TrueIncomingSequence, ReliableOutput.UpdateRto, LeadCount, LastSample;
      var t := TrueIncomingSequence(sequence, maxClientSequence, config.maxQueuedOutgoing);
      stats := stats.(incomingAcknowledgeCount := stats.incomingAcknowledgeCount + 1);
      var sample := PopAcknowledged(t, now);
      assert queue == old(queue)[..0] + queue;
      Conclude(sample, t);
    }

    /** Releases every packet at the front up to sequence `t` and keeps the freshest sample. */
    method PopAcknowledged(t: int, now: nat) returns (sample: Option<nat>)
      modifies this`queue, this`dispatchIndex, this`stats
      ensures var n := LeadCount(old(queue), t);
              && queue == old(queue)[n..] && sample == LastSample(old(queue)[..n], now)
              && dispatchIndex == Max(old(dispatchIndex) - n, 0)
              && stats == old(stats).(actualAcknowledgeCount := old(stats).actualAcknowledgeCount + n)
    {
      hide Sample, LastSample;
      sample := None;
      ghost var n := 0;
      NoSample(now);
      while queue != [] && queue[0].sequence <= t
        invariant n <= |old(queue)| && queue == old(queue)[n..]
        invariant LeadCount(old(queue), t) == n + LeadCount(queue, t)
        invariant sample == LastSample(old(queue)[..n], now)
        invariant dispatchIndex == Max(old(dispatchIndex) - n, 0)
        invariant stats == old(stats).(actualAcknowledgeCount := old(stats).actualAcknowledgeCount + n)
        decreases |queue|
      {
        var thisSample := Sample(queue[0], now);
        if thisSample.Some? { sample := thisSample; }
        LastSampleStep(old(queue), n, now);
        queue := queue[1..];
        n := n + 1;
        dispatchIndex := Max(dispatchIndex - 1, 0);
        stats := stats.(actualAcknowledgeCount := stats.actualAcknowledgeCount + 1);
      }
    }

    /** The end of both acknowledgement handlers: the sample, if any, and the highest sequence. */
    method Conclude(sample: Option<nat>, t: int)
      modifies this
      ensures State() == old(State()).(timer := ApplySample(old(State()).timer, sample),
                                       maxClientSequence := Max(old(maxClientSequence), t))
    {
      if sample.Some? { UpdateRto(sample.value); }
      if t > maxClientSequence { maxClientSequence := t; }
    }
  }
}
