/** What the input channel owes (src/channel/input.rs): exactly when it acknowledges, by the
    acknowledgements it sent before; which packet of a sequence counts; and what became of every packet
    it was handed. Over arbitrary calls. */
module InputLedger {
  import opened Bytes
  import opened Rc4
  import opened DataCodec
  import opened SequenceNumbers
  import opened ReliableOutput
  import opened ReliableInput
  import opened InputRuns

  // ----- When it acknowledges ----------------------------------------------------------------

  /** What a call emits. */
  function Emitted(s: InputState, call: Call): seq<Ack> {
    if call.Take? || |Apply(s, call).outgoing| < |s.outgoing| then [] else Apply(s, call).outgoing[|s.outgoing|..]
  }

  datatype Sent = Sent(ack: Ack, time: nat)

  function Stamped(acks: seq<Ack>, time: nat): seq<Sent> {
    seq(|acks|, k requires 0 <= k < |acks| => Sent(acks[k], time))
  }

  /** Everything emitted during a run. */
  function AckLog(s: InputState, calls: seq<Call>): seq<Sent> {
    if calls == [] then [] else
      var before, call := calls[..|calls| - 1], calls[|calls| - 1];
      AckLog(s, before) + if call.Take? then [] else Stamped(Emitted(Run(s, before), call), call.now)
  }

  /** The last ack-all; before the first one, all up to -1 at the start. */
  function LastAll(log: seq<Sent>, start: nat): Sent {
    if log == [] then Sent(Ack(true, -1), start)
    else if log[|log| - 1].ack.all then log[|log| - 1]
    else LastAll(log[..|log| - 1], start)
  }

  function CountAll(log: seq<Sent>): nat {
    if log == [] then 0 else CountAll(log[..|log| - 1]) + if log[|log| - 1].ack.all then 1 else 0
  }

  lemma LastAllStep(log: seq<Sent>, entry: Sent, start: nat)
    ensures LastAll(log + [entry], start) == if entry.ack.all then entry else LastAll(log, start)
    ensures CountAll(log + [entry]) == CountAll(log) + if entry.ack.all then 1 else 0
  {
    assert (log + [entry])[..|log|] == log;
  }

  /** What the state remembers of the acknowledgements. */
  ghost predicate Remembers(s: InputState, log: seq<Sent>, start: nat) {
    && LastAll(log, start) == Sent(Ack(true, s.lastAckAll), s.lastAckAllTime)
    && s.stats.acknowledgeCount == CountAll(log)
  }

  /** The sequence a packet is taken for. */
  function Decoded(s: InputState, data: bytes): int
    requires |data| >= 2
  {
    TrueIncomingSequence(ReadU16(data), s.windowStart, s.config.maxQueuedIncoming)
  }

  /** What a call has to emit, given the last ack-all. */
  function Owed(s: InputState, call: Call, last: Sent): seq<Ack> {
    match call
    case Take => []
    case Tick(now) =>
      var backlog := s.windowStart - 1 - last.ack.sequence;
      if !s.config.acknowledgeAllData && backlog > 0
         && (now > last.time + s.config.maxAckDelay || backlog >= s.config.dataAckWindow / 2)
      then [Ack(true, s.windowStart - 1)] else []
    case Packet(_, data, now) =>
      if |data| < 2 || Decoded(s, data) > s.windowStart + s.config.maxQueuedIncoming then []
      else if Decoded(s, data) < s.windowStart then
        if s.config.maxAckDelay > 0 && now < last.time + s.config.maxAckDelay then [Ack(true, s.windowStart - 1)] else []
      else if s.config.acknowledgeAllData || Decoded(s, data) > s.windowStart then [Ack(false, Decoded(s, data))]
      else []
  }

  lemma {:induction false} ConsumeOwesNothing(s: InputState)
    ensures var r := ConsumeStashed(s).state;
            && r.outgoing == s.outgoing && r.lastAckAll == s.lastAckAll && r.lastAckAllTime == s.lastAckAllTime
            && r.config == s.config
            && r.stats == s.stats.(totalReceivedBytes := r.stats.totalReceivedBytes)
    decreases |s.stash|
  {
    hide Accept;
    if s.windowStart in s.stash {
      var r := TakeNext(s.(stash := s.stash - {s.windowStart}), s.stash[s.windowStart]);
      if r.ok { ConsumeOwesNothing(r.state); }
    }
  }

  lemma NextOwesNothing(s: InputState, item: Item)
    ensures var r := TakeNext(s, item);
            var n := if r.ok then ConsumeStashed(r.state).state else r.state;
            && n.outgoing == s.outgoing && n.lastAckAll == s.lastAckAll && n.lastAckAllTime == s.lastAckAllTime
            && n.config == s.config
            && n.stats == s.stats.(totalReceivedBytes := n.stats.totalReceivedBytes)
  {
    hide Accept, ConsumeStashed;
    var r := TakeNext(s, item);
    if r.ok { ConsumeOwesNothing(r.state); }
  }

  lemma CallEmits(s: InputState, call: Call)
    requires !call.Take?
    ensures var s', owed := Apply(s, call), Owed(s, call, Sent(Ack(true, s.lastAckAll), s.lastAckAllTime));
            && s'.outgoing == s.outgoing + owed && Emitted(s, call) == owed && |owed| <= 1
            && (if owed != [] && owed[0].all then s'.lastAckAll == owed[0].sequence && s'.lastAckAllTime == call.now
                else s'.lastAckAll == s.lastAckAll && s'.lastAckAllTime == s.lastAckAllTime)
            && s'.stats.acknowledgeCount == s.stats.acknowledgeCount + (if owed != [] && owed[0].all then 1 else 0)
  {
    hide TrueIncomingSequence, TakeNext, ConsumeStashed;
    assert s.outgoing + [] == s.outgoing;
    if call.Packet? && |call.data| >= 2 {
      NextOwesNothing(AckOne(CountReceived(s), Decoded(s, call.data)), Item(call.isFragment, call.data[2..]));
    }
  }

  lemma {:induction false} RunRemembers(config: InputConfig, cipher: Option<Cipher>, start: nat, calls: seq<Call>)
    ensures var s0 := InitialInput(config, cipher, start);
            Remembers(Run(s0, calls), AckLog(s0, calls), start)
  {
    hide Apply, Owed, Emitted;
    if calls != [] {
      var s0, before, call := InitialInput(config, cipher, start), calls[..|calls| - 1], calls[|calls| - 1];
      RunRemembers(config, cipher, start, before);
      var s, log := Run(s0, before), AckLog(s0, before);
      if call.Take? {
        TakeForgetsNothing(s);
        assert log + [] == log;
      } else {
        CallEmits(s, call);
        var owed := Emitted(s, call);
        if owed == [] {
          assert Stamped(owed, call.now) == [] && log + [] == log;
        } else {
          assert Stamped(owed, call.now) == [Sent(owed[0], call.now)];
          LastAllStep(log, Sent(owed[0], call.now), start);
          if owed[0].all { OnlyAllsAreRemembered(s, call); }
        }
      }
    }
  }

  lemma TakeForgetsNothing(s: InputState)
    ensures Apply(s, Take) == s.(outgoing := [], appData := [])
  {
  }

  lemma OnlyAllsAreRemembered(s: InputState, call: Call)
    requires !call.Take? && Emitted(s, call) != [] && Emitted(s, call)[0].all
    ensures Emitted(s, call)[0] == Ack(true, Apply(s, call).lastAckAll)
  {
    hide Apply, Owed;
    CallEmits(s, call);
  }

  /** Exactly when the channel acknowledges, in any run: a tick acknowledges all that was consumed since the last
      ack-all if that is older than the delay or half an acknowledgement window back; an old packet gets an
      ack-all only while the last one is younger than the delay; and packets in the window are acknowledged
      singly when they are ahead, or all of them are. */
  lemma AcknowledgesExactly(config: InputConfig, cipher: Option<Cipher>, start: nat, calls: seq<Call>, call: Call)
    ensures var s0 := InitialInput(config, cipher, start);
            var s, last := Run(s0, calls), LastAll(AckLog(s0, calls), start);
            Emitted(s, call) == Owed(s, call, last)
  {
    hide Run, AckLog, Apply, Owed;
    RunRemembers(config, cipher, start, calls);
    if call.Take? { NothingIsOwed(Run(InitialInput(config, cipher, start), calls), LastAll(AckLog(InitialInput(config, cipher, start), calls), start)); }
    else { CallEmits(Run(InitialInput(config, cipher, start), calls), call); }
  }

  lemma NothingIsOwed(s: InputState, last: Sent)
    ensures Emitted(s, Take) == Owed(s, Take, last)
  {
  }

  // ----- The first packet of a sequence counts -------------------------------------------------

  lemma {:induction false} ConsumeKeepsRest(s: InputState)
    ensures var r := ConsumeStashed(s).state;
            && r.windowStart >= s.windowStart
            && (forall k | k in r.stash :: k in s.stash && r.stash[k] == s.stash[k])
            && (forall k | k in s.stash && k > r.windowStart :: k in r.stash)
    decreases |s.stash|
  {
    hide Accept;
    if s.windowStart in s.stash {
      var r := TakeNext(s.(stash := s.stash - {s.windowStart}), s.stash[s.windowStart]);
      if r.ok { ConsumeKeepsRest(r.state); }
    }
  }

  /** Whatever arrives, a stashed packet stays as it is until the window reaches it, and a packet is stashed only
      under its own sequence. */
  lemma FirstPacketCounts(s: InputState, call: Call)
    ensures var s' := Apply(s, call);
            && (forall k | k in s.stash && k > s'.windowStart :: k in s'.stash && s'.stash[k] == s.stash[k])
            && (forall k | k in s'.stash && k !in s.stash ::
                  call.Packet? && |call.data| >= 2 && k == Decoded(s, call.data) && s'.stash[k] == Item(call.isFragment, call.data[2..]))
  {
    hide TrueIncomingSequence, TakeNext, ConsumeStashed;
    if call.Packet? && |call.data| >= 2 {
      var r := TakeNext(AckOne(CountReceived(s), Decoded(s, call.data)), Item(call.isFragment, call.data[2..]));
      NextKeepsStash(AckOne(CountReceived(s), Decoded(s, call.data)), Item(call.isFragment, call.data[2..]));
      if r.ok { ConsumeKeepsRest(r.state); }
    }
  }

  lemma NextKeepsStash(s: InputState, item: Item)
    ensures var r := TakeNext(s, item).state; r.stash == s.stash && r.windowStart >= s.windowStart
  {
  }

  // ----- Every packet is accounted for ---------------------------------------------------------

  /** What becomes of a packet: too short or too far ahead, a duplicate, ahead of its turn, or next. */
  datatype Fate = Dropped | Duplicate | Repeated | Stashed | Next

  function FateOf(s: InputState, data: bytes): Fate {
    if |data| < 2 || Decoded(s, data) > s.windowStart + s.config.maxQueuedIncoming then Dropped
    else if Decoded(s, data) < s.windowStart then Duplicate
    else if Decoded(s, data) == s.windowStart then Next
    else if Decoded(s, data) in s.stash then Repeated
    else Stashed
  }

  function Fates(s: InputState, calls: seq<Call>): seq<Fate> {
    if calls == [] then [] else
      var before, call := calls[..|calls| - 1], calls[|calls| - 1];
      Fates(s, before) + if call.Packet? then [FateOf(Run(s, before), call.data)] else []
  }

  /** No packet of the run was malformed. */
  predicate WellFormed(s: InputState, calls: seq<Call>) {
    calls == [] ||
    var before, call := calls[..|calls| - 1], calls[|calls| - 1];
    WellFormed(s, before) && (call.Packet? ==> Receive(Run(s, before), call.isFragment, call.data, call.now).ok)
  }

  /** All data that was surfaced, taken or not. */
  function Surfaced(s: InputState, calls: seq<Call>): seq<bytes> {
    if calls == [] then [] else
      var before, call := calls[..|calls| - 1], calls[|calls| - 1];
      Surfaced(s, before) + if call.Take? then Run(s, before).appData else []
  }

  function Count(fates: seq<Fate>, f: Fate): nat {
    if fates == [] then 0 else Count(fates[..|fates| - 1], f) + if fates[|fates| - 1] == f then 1 else 0
  }

  lemma CountStep(fates: seq<Fate>, last: Fate, f: Fate)
    ensures Count(fates + [last], f) == Count(fates, f) + if last == f then 1 else 0
  {
    assert (fates + [last])[..|fates|] == fates;
  }

  lemma SmallerStash(stash: map<int, Item>, k: int)
    requires k in stash
    ensures |stash - {k}| == |stash| - 1
  {
    assert (stash - {k}).Keys == stash.Keys - {k};
  }

  lemma LargerStash(stash: map<int, Item>, k: int, item: Item)
    requires k !in stash
    ensures |stash[k := item]| == |stash| + 1
  {
    assert stash[k := item].Keys == stash.Keys + {k};
  }

  lemma TakeNextCounts(s: InputState, item: Item)
    ensures var r := TakeNext(s, item);
            && r.state.stash == s.stash && (r.ok ==> r.state.windowStart == s.windowStart + 1)
            && r.state.stats.totalReceivedBytes - TotalLength(r.state.appData) == s.stats.totalReceivedBytes - TotalLength(s.appData)
  {
    hide TotalLength, Accept;
    if Accept(s.decoder, item).Some? { TotalLengthAppend(s.appData, Accept(s.decoder, item).value.output); }
  }

  lemma {:induction false} ConsumeCounts(s: InputState)
    ensures var r := ConsumeStashed(s);
            && (r.ok ==> r.state.windowStart + |r.state.stash| == s.windowStart + |s.stash|)
            && r.state.stats.totalReceivedBytes - TotalLength(r.state.appData) == s.stats.totalReceivedBytes - TotalLength(s.appData)
    decreases |s.stash|
  {
    hide TotalLength, TakeNext;
    if s.windowStart in s.stash {
      var rest := s.(stash := s.stash - {s.windowStart});
      SmallerStash(s.stash, s.windowStart);
      TakeNextCounts(rest, s.stash[s.windowStart]);
      var r := TakeNext(rest, s.stash[s.windowStart]);
      if r.ok { ConsumeCounts(r.state); }
    }
  }

  lemma PacketCounts(s: InputState, call: Call)
    requires call.Packet?
    ensures var s', f := Apply(s, call), FateOf(s, call.data);
            && s'.stats.totalReceived == s.stats.totalReceived + 1
            && s'.stats.duplicateCount == s.stats.duplicateCount + (if f == Duplicate || f == Repeated then 1 else 0)
            && s'.stats.outOfOrderCount == s.stats.outOfOrderCount + (if f == Stashed || f == Repeated then 1 else 0)
            && s'.stats.totalReceivedBytes - TotalLength(s'.appData) == s.stats.totalReceivedBytes - TotalLength(s.appData)
            && (Receive(s, call.isFragment, call.data, call.now).ok ==>
                  s'.windowStart + |s'.stash| == s.windowStart + |s.stash| + if f == Next || f == Stashed then 1 else 0)
  {
    hide TrueIncomingSequence, TakeNext, ConsumeStashed, TotalLength;
    if |call.data| >= 2 {
      var t, item := Decoded(s, call.data), Item(call.isFragment, call.data[2..]);
      var s1 := AckOne(CountReceived(s), t);
      var r := TakeNext(s1, item);
      TakeNextCounts(s1, item);
      NextOwesNothing(s1, item);
      if r.ok { ConsumeCounts(r.state); }
      if t !in s.stash { LargerStash(s.stash, t, item); }
    }
  }

  lemma OtherCallsCountNothing(s: InputState, call: Call)
    requires !call.Packet?
    ensures var s' := Apply(s, call);
            && s'.stats == s.stats.(acknowledgeCount := s'.stats.acknowledgeCount)
            && s'.windowStart == s.windowStart && s'.stash == s.stash
            && s'.appData == if call.Take? then [] else s.appData
  {
  }

  ghost predicate Accounts(s: InputState, fates: seq<Fate>) {
    && s.stats.totalReceived == |fates|
    && s.stats.duplicateCount == Count(fates, Duplicate) + Count(fates, Repeated)
    && s.stats.outOfOrderCount == Count(fates, Stashed) + Count(fates, Repeated)
  }

  /** In every run the counters tell the fates of all packets and the length of all data that was surfaced, and
      as long as none was malformed each packet taken for a new sequence has been consumed or is stashed. */
  lemma {:induction false} EveryPacketCounts(config: InputConfig, cipher: Option<Cipher>, start: nat, calls: seq<Call>)
    ensures var s0 := InitialInput(config, cipher, start);
            var s, fates := Run(s0, calls), Fates(s0, calls);
            && Accounts(s, fates)
            && s.stats.totalReceivedBytes == TotalLength(Surfaced(s0, calls)) + TotalLength(s.appData)
            && (WellFormed(s0, calls) ==> s.windowStart + |s.stash| == Count(fates, Next) + Count(fates, Stashed))
  {
    hide Apply, TotalLength, FateOf, Receive;
    var s0 := InitialInput(config, cipher, start);
    if calls == [] {
      NothingCounts();
    } else {
      var before, call := calls[..|calls| - 1], calls[|calls| - 1];
      EveryPacketCounts(config, cipher, start, before);
      var s, fates := Run(s0, before), Fates(s0, before);
      if call.Packet? {
        PacketCounts(s, call);
        ReceiveIsApply(s, call);
        var f := FateOf(s, call.data);
        CountStep(fates, f, Duplicate);
        CountStep(fates, f, Repeated);
        CountStep(fates, f, Stashed);
        CountStep(fates, f, Next);
        assert Surfaced(s0, before) + [] == Surfaced(s0, before);
      } else {
        OtherCallsCountNothing(s, call);
        NothingCounts();
        TotalLengthAppend(Surfaced(s0, before), if call.Take? then s.appData else []);
        assert fates + [] == fates;
      }
    }
  }

  lemma ReceiveIsApply(s: InputState, call: Call)
    requires call.Packet?
    ensures Apply(s, call) == Receive(s, call.isFragment, call.data, call.now).state
  {
  }

  lemma NothingCounts()
    ensures TotalLength([]) == 0
  {
  }
}
