/** Runs of the output channel under arbitrary calls, bogus acknowledgements included
    (src/channel/output.rs): the send window, Karn's rule and the counters. */
module OutputRuns {
  import opened Bytes
  import opened Rc4
  import opened DataCodec
  import opened ReliableOutput
  import opened OutputWindow

  datatype Call =
    | EnqueueData(data: bytes)
    | Tick(now: nat)
    | Acknowledged(sequence: nat, now: nat)
    | AcknowledgedAll(sequence: nat, now: nat)
    | Take

  predicate Callable(config: OutputConfig, call: Call) {
    match call
    case EnqueueData(_) => config.maxDataLength >= 6
    case Acknowledged(sequence, _) => sequence < 0x1_0000
    case AcknowledgedAll(sequence, _) => sequence < 0x1_0000
    case _ => true
  }

  function Apply(o: OutputState, call: Call): OutputState
    requires Callable(o.config, call)
  {
    match call
    case EnqueueData(data) => Enqueue(o, data)
    case Tick(now) => RunTick(o, now)
    case Acknowledged(sequence, now) => Acknowledge(o, sequence, now)
    case AcknowledgedAll(sequence, now) => AcknowledgeAll(o, sequence, now)
    case Take => TakeOutgoing(o)
  }

  lemma ApplyKeepsConfig(o: OutputState, call: Call)
    requires Callable(o.config, call)
    ensures Apply(o, call).config == o.config
  {
    if call.EnqueueData? {
      var e := EncodeMessage(o.cipher, o.config.maxDataLength, call.data);
      StashAllAppends(o.(cipher := e.cipher), e.items);
    }
  }

  function Run(o: OutputState, calls: seq<Call>): (o': OutputState)
    requires forall k | 0 <= k < |calls| :: Callable(o.config, calls[k])
    ensures o'.config == o.config
    decreases |calls|
  {
    if calls == [] then o else
      var before := Run(o, calls[..|calls| - 1]);
      ApplyKeepsConfig(before, calls[|calls| - 1]);
      Apply(before, calls[|calls| - 1])
  }

  // ----- The window ------------------------------------------------------------------------

  /** The part of the queue an acknowledgement releases, and the sample it offers. */
  datatype Released = Released(from: nat, to: nat, sample: Option<nat>, sequence: int)

  function Releases(o: OutputState, call: Call): Released
    requires Callable(o.config, call) && (call.Acknowledged? || call.AcknowledgedAll?)
  {
    var t := TrueIncoming(o, call.sequence);
    if call.AcknowledgedAll? then
      var n := LeadCount(o.queue, t);
      Released(0, n, LastSample(o.queue[..n], call.now), t)
    else
      var p := Position(o.queue, t);
      if p < |o.queue| then Released(p, p + 1, Sample(o.queue[p], call.now), t) else Released(0, 0, None, t)
  }

  lemma AcknowledgementReleases(o: OutputState, call: Call)
    requires Callable(o.config, call) && (call.Acknowledged? || call.AcknowledgedAll?)
    ensures var r := Releases(o, call);
            r.from <= r.to <= |o.queue| && Apply(o, call) == Release(o, r.from, r.to, r.sample, r.sequence)
  {
    hide TrueIncoming, LastSample, UpdateRto;
  }

  lemma ApplyKeepsWindow(o: OutputState, call: Call)
    requires Callable(o.config, call) && WindowOk(o)
    ensures WindowOk(Apply(o, call))
  {
    hide QueueOk, RunTick, Enqueue, Releases, Acknowledge, AcknowledgeAll, EncodeMessage, StashAll;
    match call
    case EnqueueData(data) =>
      EnqueueIsStash(o, data);
      StashKeepsWindow(o, EncodeMessage(o.cipher, o.config.maxDataLength, data).items);
      assert Apply(o, call) == Enqueue(o, data);
    case Tick(now) =>
      TickKeepsQueue(o, now, o.config.maxQueuedOutgoing);
      var o' := RunTick(o, now);
      assert forall i | 0 <= i < |o.queue| :: o'.queue[i].sequence == o.queue[i].sequence;
      assert Apply(o, call) == o';
    case Take =>
    case _ =>
      AcknowledgementReleases(o, call);
      var r := Releases(o, call);
      ReleaseKeepsQueue(o, o.config.maxQueuedOutgoing, r.from, r.to, r.sample, r.sequence);
      assert forall p | p in Apply(o, call).queue :: p in o.queue;
  }

  lemma EnqueueIsStash(o: OutputState, data: bytes)
    requires o.config.maxDataLength >= 6
    ensures var e := EncodeMessage(o.cipher, o.config.maxDataLength, data);
            Enqueue(o, data) == StashAll(o, e.items).(cipher := e.cipher)
  {
    var e := EncodeMessage(o.cipher, o.config.maxDataLength, data);
    StashAllAppends(o, e.items);
    StashAllAppends(o.(cipher := e.cipher), e.items);
  }

  /** In every run the queue is strictly sorted by sequence and the packets in flight are a prefix of
      it, at most one window long, that reaches at least to the dispatch index. */
  lemma {:induction false} WindowHolds(config: OutputConfig, cipher: Option<Cipher>, calls: seq<Call>)
    requires forall k | 0 <= k < |calls| :: Callable(config, calls[k])
    ensures WindowOk(Run(Initial(config, cipher), calls))
    decreases |calls|
  {
    hide Apply, QueueOk;
    if calls == [] {
      InitialWindow(config, cipher);
    } else {
      WindowHolds(config, cipher, calls[..|calls| - 1]);
      ApplyKeepsWindow(Run(Initial(config, cipher), calls[..|calls| - 1]), calls[|calls| - 1]);
    }
  }

  lemma InitialWindow(config: OutputConfig, cipher: Option<Cipher>)
    ensures WindowOk(Initial(config, cipher))
  {
  }

  // ----- The dispatch log ------------------------------------------------------------------

  datatype Dispatch = Dispatch(sequence: nat, time: nat)

  function DispatchesOf(packets: seq<QueuedPacket>, now: nat): seq<Dispatch> {
    seq(|packets|, k requires 0 <= k < |packets| => Dispatch(packets[k].sequence, now))
  }

  /** What a call puts on the wire, by full-width sequence. */
  function Dispatched(o: OutputState, call: Call): seq<Dispatch> {
    if call.Tick? then DispatchesOf(Due(o, call.now), call.now) else []
  }

  function Log(o: OutputState, calls: seq<Call>): seq<Dispatch>
    requires forall k | 0 <= k < |calls| :: Callable(o.config, calls[k])
    decreases |calls|
  {
    if calls == [] then [] else
      var before := calls[..|calls| - 1];
      Log(o, before) + Dispatched(Run(o, before), calls[|calls| - 1])
  }

  /** The times at which one sequence was dispatched. */
  function Times(log: seq<Dispatch>, sequence: nat): seq<nat> {
    if log == [] then [] else
      var before := Times(log[..|log| - 1], sequence);
      if log[|log| - 1].sequence == sequence then before + [log[|log| - 1].time] else before
  }

  /** The marks on a queued packet say how often and when last it was dispatched. */
  ghost predicate MarksOk(p: QueuedPacket, times: seq<nat>) {
    && (p.sent <==> times != [])
    && (p.resent <==> |times| >= 2)
    && p.sentAt == if times == [] then None else Some(times[|times| - 1])
  }

  function Sequences(log: seq<Dispatch>): set<nat> {
    set d | d in log :: d.sequence
  }

  ghost predicate LogOk(o: OutputState, log: seq<Dispatch>) {
    && WindowOk(o)
    && (forall i | 0 <= i < |o.queue| :: MarksOk(o.queue[i], Times(log, o.queue[i].sequence)))
    && (forall t | t in Sequences(log) :: t < o.totalSequence)
    && o.stats.totalSent == |log|
    && o.stats.totalSent - o.stats.totalResent == |Sequences(log)|
    && o.totalSequence == |o.queue| + o.stats.actualAcknowledgeCount
  }

  lemma {:induction false} TimesOfOthers(log: seq<Dispatch>, sequence: nat)
    ensures Times(log, sequence) == [] <==> sequence !in Sequences(log)
  {
    if log != [] {
      var n := |log| - 1;
      TimesOfOthers(log[..n], sequence);
      assert log == log[..n] + [log[n]];
    }
  }

  lemma TimesStep(log: seq<Dispatch>, d: Dispatch, sequence: nat)
    ensures Times(log + [d], sequence) == Times(log, sequence) + if d.sequence == sequence then [d.time] else []
  {
    assert (log + [d])[..|log|] == log;
  }

  lemma LongerSpan(queue: seq<QueuedPacket>, log: seq<Dispatch>, from: nat, end: nat, now: nat)
    requires from < end <= |queue|
    ensures log + DispatchesOf(queue[from..end], now)
         == log + DispatchesOf(queue[from..end - 1], now) + [Dispatch(queue[end - 1].sequence, now)]
  {
    assert DispatchesOf(queue[from..end], now) == DispatchesOf(queue[from..end - 1], now) + [Dispatch(queue[end - 1].sequence, now)];
  }

  /** The dispatches of a span of the queue: one more time for each packet of the span. */
  lemma {:induction false} SpanTimes(queue: seq<QueuedPacket>, log: seq<Dispatch>, from: nat, end: nat, now: nat, i: nat)
    requires forall i, j | 0 <= i < j < |queue| :: queue[i].sequence != queue[j].sequence
    requires from <= end <= |queue| && i < |queue|
    ensures Times(log + DispatchesOf(queue[from..end], now), queue[i].sequence)
         == Times(log, queue[i].sequence) + if from <= i < end then [now] else []
    decreases end
  {
    hide Times, DispatchesOf;
    if from == end {
      NoDispatches(queue[from..end], now);
      assert log + [] == log;
    } else {
      SpanTimes(queue, log, from, end - 1, now, i);
      LongerSpan(queue, log, from, end, now);
      TimesStep(log + DispatchesOf(queue[from..end - 1], now), Dispatch(queue[end - 1].sequence, now), queue[i].sequence);
    }
  }

  /** Dispatching a span adds exactly its unsent packets to the distinct sequences. */
  lemma {:induction false} SpanSequences(queue: seq<QueuedPacket>, log: seq<Dispatch>, from: nat, end: nat, now: nat)
    requires forall i, j | 0 <= i < j < |queue| :: queue[i].sequence != queue[j].sequence
    requires forall i | 0 <= i < |queue| :: queue[i].sent <==> queue[i].sequence in Sequences(log)
    requires from <= end <= |queue|
    ensures var log' := log + DispatchesOf(queue[from..end], now);
            && |Sequences(log')| == |Sequences(log)| + (end - from) - CountSent(queue[from..end])
            && (forall t | t in Sequences(log') :: t in Sequences(log) || exists i :: from <= i < end && queue[i].sequence == t)
            && Sequences(log) <= Sequences(log')
    decreases end
  {
    hide Sequences, DispatchesOf;
    if from == end {
      assert log + DispatchesOf(queue[from..end], now) == log by { NoDispatches(queue[from..end], now); }
    } else {
      SpanSequences(queue, log, from, end - 1, now);
      var p, shorter := queue[end - 1], log + DispatchesOf(queue[from..end - 1], now);
      OneMoreDispatch(queue, log, from, end, now);
      assert queue[from..end][..end - from - 1] == queue[from..end - 1];
      assert p.sequence in Sequences(shorter) <==> p.sent;
    }
  }

  lemma NoDispatches(packets: seq<QueuedPacket>, now: nat)
    ensures packets == [] ==> DispatchesOf(packets, now) == []
  {
  }

  lemma OneMoreDispatch(queue: seq<QueuedPacket>, log: seq<Dispatch>, from: nat, end: nat, now: nat)
    requires from < end <= |queue|
    ensures Sequences(log + DispatchesOf(queue[from..end], now))
         == Sequences(log + DispatchesOf(queue[from..end - 1], now)) + {queue[end - 1].sequence}
  {
    var shorter, last := log + DispatchesOf(queue[from..end - 1], now), Dispatch(queue[end - 1].sequence, now);
    LongerSpan(queue, log, from, end, now);
    hide DispatchesOf;
    assert last in shorter + [last];
  }

  lemma SentIsLogged(o: OutputState, log: seq<Dispatch>)
    requires LogOk(o, log)
    ensures forall i | 0 <= i < |o.queue| :: o.queue[i].sent <==> o.queue[i].sequence in Sequences(log)
    ensures forall i, j | 0 <= i < j < |o.queue| :: o.queue[i].sequence != o.queue[j].sequence
  {
    hide Sequences, Times;
    forall i | 0 <= i < |o.queue|
      ensures o.queue[i].sent <==> o.queue[i].sequence in Sequences(log)
    {
      TimesOfOthers(log, o.queue[i].sequence);
      assert MarksOk(o.queue[i], Times(log, o.queue[i].sequence));
    }
  }

  /** The packets a tick dispatches, as a span of the queue. */
  lemma DueSpan(o: OutputState, now: nat) returns (to: nat)
    requires WindowOk(o)
    ensures DispatchStart(o, now) <= to <= |o.queue| && Due(o, now) == o.queue[DispatchStart(o, now)..to]
    ensures |RunTick(o, now).queue| == |o.queue| && forall i | 0 <= i < |o.queue| ::
      RunTick(o, now).queue[i] == (if DispatchStart(o, now) <= i < to then MarkSent(o.queue[i], now) else o.queue[i])
  {
    DispatchStartInQueue(o, now);
    to := Max(DispatchStart(o, now), WindowEnd(o));
    hide CountSent, TimedOut;
  }

  lemma TickKeepsMarks(o: OutputState, log: seq<Dispatch>, now: nat, i: nat)
    requires LogOk(o, log) && i < |o.queue|
    ensures var p := RunTick(o, now).queue[i];
            p.sequence == o.queue[i].sequence && MarksOk(p, Times(log + Dispatched(o, Tick(now)), p.sequence))
  {
    hide QueueOk, CountSent, Times, Sequences, RunTick, Due, DispatchStart, DispatchesOf;
    var to := DueSpan(o, now);
    SentIsLogged(o, log);
    SpanTimes(o.queue, log, DispatchStart(o, now), to, now, i);
    assert MarksOk(o.queue[i], Times(log, o.queue[i].sequence));
  }

  lemma TickKeepsCounts(o: OutputState, log: seq<Dispatch>, now: nat)
    requires LogOk(o, log)
    ensures var o', log' := RunTick(o, now), log + Dispatched(o, Tick(now));
            && o'.totalSequence == o.totalSequence && |o'.queue| == |o.queue|
            && (forall t | t in Sequences(log') :: t < o'.totalSequence)
            && o'.stats.totalSent == |log'| && o'.stats.totalSent - o'.stats.totalResent == |Sequences(log')|
            && o'.stats.actualAcknowledgeCount == o.stats.actualAcknowledgeCount
  {
    hide QueueOk, CountSent, Times, Sequences, DispatchesOf, TimedOut;
    var to := DueSpan(o, now);
    SentIsLogged(o, log);
    SpanSequences(o.queue, log, DispatchStart(o, now), to, now);
    assert |DispatchesOf(Due(o, now), now)| == |Due(o, now)| by { DispatchesLength(Due(o, now), now); }
  }

  lemma DispatchesLength(packets: seq<QueuedPacket>, now: nat)
    ensures |DispatchesOf(packets, now)| == |packets|
  {
  }

  lemma TickKeepsLog(o: OutputState, log: seq<Dispatch>, now: nat)
    requires LogOk(o, log)
    ensures LogOk(RunTick(o, now), log + Dispatched(o, Tick(now)))
  {
    hide QueueOk, CountSent, Times, Sequences, Dispatched, MarksOk, RunTick;
    TickKeepsQueue(o, now, o.config.maxQueuedOutgoing);
    TickKeepsCounts(o, log, now);
    forall i | 0 <= i < |o.queue|
      ensures var p := RunTick(o, now).queue[i];
              p.sequence == o.queue[i].sequence && MarksOk(p, Times(log + Dispatched(o, Tick(now)), p.sequence))
    {
      TickKeepsMarks(o, log, now, i);
    }
  }

  lemma DispatchStartInQueue(o: OutputState, now: nat)
    requires WindowOk(o)
    ensures DispatchStart(o, now) <= |o.queue|
  {
  }

  lemma EnqueueKeepsLog(o: OutputState, log: seq<Dispatch>, data: bytes)
    requires LogOk(o, log) && o.config.maxDataLength >= 6
    ensures LogOk(Enqueue(o, data), log)
  {
    hide QueueOk, Times, Sequences, EncodeMessage, StashAll, Enqueue, U16;
    var items := EncodeMessage(o.cipher, o.config.maxDataLength, data).items;
    EnqueueIsStash(o, data);
    StashAllAppends(o, items);
    ApplyKeepsWindow(o, EnqueueData(data));
    var o' := Enqueue(o, data);
    forall i | 0 <= i < |o'.queue|
      ensures MarksOk(o'.queue[i], Times(log, o'.queue[i].sequence))
    {
      TimesOfOthers(log, o'.queue[i].sequence);
      if i < |o.queue| { assert MarksOk(o.queue[i], Times(log, o.queue[i].sequence)); }
    }
  }

  lemma AckKeepsLog(o: OutputState, log: seq<Dispatch>, call: Call)
    requires LogOk(o, log) && Callable(o.config, call) && (call.Acknowledged? || call.AcknowledgedAll?)
    ensures LogOk(Apply(o, call), log)
  {
    hide QueueOk, Times, Sequences, Releases, Acknowledge, AcknowledgeAll, UpdateRto;
    ApplyKeepsWindow(o, call);
    AcknowledgementReleases(o, call);
    var o' := Apply(o, call);
    assert forall p | p in o'.queue :: p in o.queue;
  }

  lemma {:induction false} LogHolds(config: OutputConfig, cipher: Option<Cipher>, calls: seq<Call>)
    requires forall k | 0 <= k < |calls| :: Callable(config, calls[k])
    ensures LogOk(Run(Initial(config, cipher), calls), Log(Initial(config, cipher), calls))
    decreases |calls|
  {
    hide QueueOk, Enqueue, RunTick, Acknowledge, AcknowledgeAll, LogOk;
    var o0 := Initial(config, cipher);
    if calls == [] {
      InitialLog(config, cipher);
    } else {
      var before, call := calls[..|calls| - 1], calls[|calls| - 1];
      LogHolds(config, cipher, before);
      var o, log := Run(o0, before), Log(o0, before);
      if !call.Tick? { assert Log(o0, calls) == log; }
      match call
      case EnqueueData(data) => EnqueueKeepsLog(o, log, data);
      case Tick(now) => TickKeepsLog(o, log, now);
      case Take => TakeKeepsLog(o, log);
      case _ => AckKeepsLog(o, log, call);
    }
  }

  lemma InitialLog(config: OutputConfig, cipher: Option<Cipher>)
    ensures LogOk(Initial(config, cipher), [])
  {
    assert Sequences([]) == {};
  }

  lemma TakeKeepsLog(o: OutputState, log: seq<Dispatch>)
    requires LogOk(o, log)
    ensures LogOk(TakeOutgoing(o), log)
  {
  }

  // ----- Karn's rule and conservation --------------------------------------------------------

  /** A sample is the time since the only dispatch of the last released packet that has just one. */
  ghost predicate SampledFrom(o: OutputState, log: seq<Dispatch>, r: Released, i: nat, now: nat) {
    && r.from <= i < r.to <= |o.queue|
    && (forall j | i < j < r.to :: |Times(log, o.queue[j].sequence)| != 1)
    && var times := Times(log, o.queue[i].sequence);
       |times| == 1 && r.sample == Some(if now >= times[0] then now - times[0] else 0)
  }

  /** Karn's rule (RFC 6298, section 3): in every run, a sample an acknowledgement folds into the
      timer is the time since the only dispatch of the freshest packet that it releases and that was
      dispatched exactly once; and there is a sample if it releases any such packet. */
  lemma SamplesAreUnambiguous(config: OutputConfig, cipher: Option<Cipher>, calls: seq<Call>, call: Call)
    requires forall k | 0 <= k < |calls| :: Callable(config, calls[k])
    requires Callable(config, call) && (call.Acknowledged? || call.AcknowledgedAll?)
    ensures var o, log := Run(Initial(config, cipher), calls), Log(Initial(config, cipher), calls);
            var r := Releases(o, call);
            && r.to <= |o.queue| && Apply(o, call).timer == ApplySample(o.timer, r.sample)
            && (r.sample.Some? ==> exists i :: SampledFrom(o, log, r, i, call.now))
            && (r.sample.None? ==> forall i | r.from <= i < r.to :: |Times(log, o.queue[i].sequence)| != 1)
  {
    hide Run, Log, LogOk, Apply, Releases, Times, UpdateRto;
    LogHolds(config, cipher, calls);
    SampleIsOnlyDispatch(Run(Initial(config, cipher), calls), Log(Initial(config, cipher), calls), call);
  }

  lemma SampleIsOnlyDispatch(o: OutputState, log: seq<Dispatch>, call: Call)
    requires LogOk(o, log) && Callable(o.config, call) && (call.Acknowledged? || call.AcknowledgedAll?)
    ensures var r := Releases(o, call);
            && r.to <= |o.queue| && Apply(o, call).timer == ApplySample(o.timer, r.sample)
            && (r.sample.Some? ==> exists i :: SampledFrom(o, log, r, i, call.now))
            && (r.sample.None? ==> forall i | r.from <= i < r.to :: |Times(log, o.queue[i].sequence)| != 1)
  {
    hide LogOk, Times, Apply, TrueIncoming, UpdateRto, Sample, Release;
    AcknowledgementReleases(o, call);
    ReleaseSamples(o, Releases(o, call));
    var r := Releases(o, call);
    assert forall k | 0 <= k < r.to :: o.queue[..r.to][k] == o.queue[k];
    OnlyOnce(o, log, call.now);
    if r.sample.Some? {
      var i := if call.AcknowledgedAll? then SampledPacket(o.queue[..r.to], call.now) else r.from;
      assert Sample(o.queue[i], call.now) == r.sample;
      assert forall j | i < j < r.to :: o.queue[..r.to][j] == o.queue[j];
      assert SampledFrom(o, log, r, i, call.now);
    } else if call.AcknowledgedAll? {
      NoSampleInBatch(o.queue[..r.to], call.now);
    }
  }

  lemma ReleaseSamples(o: OutputState, r: Released)
    requires r.from <= r.to <= |o.queue|
    ensures Release(o, r.from, r.to, r.sample, r.sequence).timer == ApplySample(o.timer, r.sample)
  {
    hide UpdateRto;
  }

  /** Just the packets dispatched exactly once offer a sample. */
  lemma OnlyOnce(o: OutputState, log: seq<Dispatch>, now: nat)
    requires LogOk(o, log)
    ensures forall i | 0 <= i < |o.queue| ::
      var times := Times(log, o.queue[i].sequence);
      Sample(o.queue[i], now) == if |times| == 1 then Some(if now >= times[0] then now - times[0] else 0) else None
  {
    hide QueueOk, Times, Sequences;
    forall i | 0 <= i < |o.queue|
      ensures var times := Times(log, o.queue[i].sequence);
              Sample(o.queue[i], now) == if |times| == 1 then Some(if now >= times[0] then now - times[0] else 0) else None
    {
      assert MarksOk(o.queue[i], Times(log, o.queue[i].sequence));
    }
  }

  lemma {:induction false} NoSampleInBatch(packets: seq<QueuedPacket>, now: nat)
    requires LastSample(packets, now) == None
    ensures forall i | 0 <= i < |packets| :: Sample(packets[i], now) == None
  {
    if packets != [] { NoSampleInBatch(packets[..|packets| - 1], now); }
  }

  /** The packet the sample of a batch was taken from: the last one that offers any. */
  function SampledPacket(packets: seq<QueuedPacket>, now: nat): (i: nat)
    requires LastSample(packets, now).Some?
    ensures i < |packets| && Sample(packets[i], now) == LastSample(packets, now)
    ensures forall j | i < j < |packets| :: Sample(packets[j], now) == None
  {
    var n := |packets| - 1;
    if Sample(packets[n], now).Some? then n else SampledPacket(packets[..n], now)
  }

  /** How many acknowledgements came in. */
  function Incoming(calls: seq<Call>): nat {
    if calls == [] then 0 else
      var last := calls[|calls| - 1];
      Incoming(calls[..|calls| - 1]) + if last.Acknowledged? || last.AcknowledgedAll? then 1 else 0
  }

  lemma {:induction false} IncomingAreCounted(config: OutputConfig, cipher: Option<Cipher>, calls: seq<Call>)
    requires forall k | 0 <= k < |calls| :: Callable(config, calls[k])
    ensures Run(Initial(config, cipher), calls).stats.incomingAcknowledgeCount == Incoming(calls)
    decreases |calls|
  {
    hide Enqueue, Acknowledge, AcknowledgeAll, Releases, UpdateRto, EncodeMessage, StashAll;
    if calls != [] {
      var before, call := calls[..|calls| - 1], calls[|calls| - 1];
      IncomingAreCounted(config, cipher, before);
      var o := Run(Initial(config, cipher), before);
      match call
      case EnqueueData(data) =>
        EnqueueIsStash(o, data);
        StashAllAppends(o, EncodeMessage(o.cipher, o.config.maxDataLength, data).items);
      case Tick(_) =>
      case Take =>
      case _ => AcknowledgementReleases(o, call);
    }
  }

  /** The counters in every run: what was sent first, again and acknowledged, and how often. */
  lemma CountersAreExact(config: OutputConfig, cipher: Option<Cipher>, calls: seq<Call>)
    requires forall k | 0 <= k < |calls| :: Callable(config, calls[k])
    ensures var o, log := Run(Initial(config, cipher), calls), Log(Initial(config, cipher), calls);
            && o.stats.totalSent == |log|
            && o.stats.totalSent - o.stats.totalResent == |Sequences(log)|
            && o.totalSequence == |o.queue| + o.stats.actualAcknowledgeCount
            && o.stats.incomingAcknowledgeCount == Incoming(calls)
  {
    hide Run, Log;
    LogHolds(config, cipher, calls);
    IncomingAreCounted(config, cipher, calls);
  }
}
