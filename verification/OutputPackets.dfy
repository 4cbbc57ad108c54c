/** What the output channel hands out (src/channel/output.rs): in every run its packets carry their
    sequence and fit the maximum length, and the dispatch log of OutputRuns is the list of all packets
    handed out. */
module OutputPackets {
  import opened Bytes
  import opened Rc4
  import opened DataCodec
  import opened ReliableOutput
  import opened OutputWindow
  import opened OutputRuns

  /** The data of a packet starts with its sequence and fits. */
  predicate DataOk(data: bytes, sequence: nat, maxDataLength: nat) {
    2 <= |data| <= maxDataLength && data[..2] == U16(sequence)
  }

  ghost predicate PacketsOk(o: OutputState) {
    && (forall i | 0 <= i < |o.queue| :: DataOk(o.queue[i].data, o.queue[i].sequence, o.config.maxDataLength))
    && (forall i | 0 <= i < |o.outgoing| :: 2 <= |o.outgoing[i].payload| <= o.config.maxDataLength)
  }

  lemma EnqueueKeepsPackets(o: OutputState, data: bytes)
    requires PacketsOk(o) && o.config.maxDataLength >= 6
    ensures PacketsOk(Enqueue(o, data))
  {
    hide U16, Fragments, WireUnit;
    var e := EncodeMessage(o.cipher, o.config.maxDataLength, data);
    if data != [] { FragmentsFit(o.config.maxDataLength, WireUnit(o.cipher, data)); }
    hide EncodeMessage, Enqueue, StashAll;
    EnqueueIsStash(o, data);
    StashAllAppends(o, e.items);
    var o' := Enqueue(o, data);
    forall i | 0 <= i < |o'.queue|
      ensures DataOk(o'.queue[i].data, o'.queue[i].sequence, o.config.maxDataLength)
    {
      if i >= |o.queue| { assert o'.queue[i] == NewPacket(o.totalSequence + (i - |o.queue|), e.items[i - |o.queue|]); }
    }
  }

  lemma TickKeepsPackets(o: OutputState, now: nat)
    requires PacketsOk(o)
    ensures PacketsOk(RunTick(o, now))
    ensures RunTick(o, now).outgoing == o.outgoing + WireAll(Due(o, now))
    ensures forall k | 0 <= k < |Due(o, now)| :: Due(o, now)[k] in o.queue
  {
    hide CountSent, U16, TimedOut;
  }

  lemma ApplyKeepsPackets(o: OutputState, call: Call)
    requires Callable(o.config, call) && PacketsOk(o)
    ensures PacketsOk(Apply(o, call))
  {
    hide Enqueue, RunTick, Releases, Acknowledge, AcknowledgeAll, U16, UpdateRto;
    ApplyKeepsConfig(o, call);
    match call
    case EnqueueData(data) => EnqueueKeepsPackets(o, data);
    case Tick(now) => TickKeepsPackets(o, now);
    case Take =>
    case _ =>
      AcknowledgementReleases(o, call);
      var r := Releases(o, call);
      assert forall i | 0 <= i < |Apply(o, call).queue| ::
        Apply(o, call).queue[i] == o.queue[if i < r.from then i else i + (r.to - r.from)];
  }

  /** In every run, whatever is enqueued, no packet is longer than the configured maximum, queued or handed
      out. */
  lemma {:induction false} PacketsFit(config: OutputConfig, cipher: Option<Cipher>, calls: seq<Call>)
    requires forall k | 0 <= k < |calls| :: Callable(config, calls[k])
    ensures PacketsOk(Run(Initial(config, cipher), calls))
    decreases |calls|
  {
    hide Apply;
    if calls != [] {
      PacketsFit(config, cipher, calls[..|calls| - 1]);
      ApplyKeepsPackets(Run(Initial(config, cipher), calls[..|calls| - 1]), calls[|calls| - 1]);
    }
  }

  // ----- The log is what was handed out ------------------------------------------------------

  /** The packets that were taken during a run. */
  function Taken(o: OutputState, calls: seq<Call>): seq<OutgoingReliable>
    requires forall k | 0 <= k < |calls| :: Callable(o.config, calls[k])
    decreases |calls|
  {
    if calls == [] then [] else
      var before := calls[..|calls| - 1];
      Taken(o, before) + if calls[|calls| - 1].Take? then Run(o, before).outgoing else []
  }

  /** Entry by entry, the packets carry the sequences of the log. */
  ghost predicate Records(log: seq<Dispatch>, packets: seq<OutgoingReliable>) {
    && |log| == |packets|
    && forall k | 0 <= k < |log| :: |packets[k].payload| >= 2 && packets[k].payload[..2] == U16(log[k].sequence)
  }

  lemma RecordsOn(log: seq<Dispatch>, packets: seq<OutgoingReliable>, due: seq<QueuedPacket>, now: nat, maxDataLength: nat)
    requires Records(log, packets) && forall k | 0 <= k < |due| :: DataOk(due[k].data, due[k].sequence, maxDataLength)
    ensures Records(log + DispatchesOf(due, now), packets + WireAll(due))
  {
    hide U16;
  }

  lemma CallRecords(o: OutputState, call: Call)
    requires Callable(o.config, call) && !call.Tick?
    ensures Dispatched(o, call) == [] && (!call.Take? ==> Apply(o, call).outgoing == o.outgoing)
    ensures call.Take? ==> Apply(o, call).outgoing == []
  {
    hide Enqueue, Acknowledge, AcknowledgeAll, Releases, UpdateRto, EncodeMessage, StashAll;
    match call
    case EnqueueData(data) =>
      EnqueueIsStash(o, data);
      StashAllAppends(o, EncodeMessage(o.cipher, o.config.maxDataLength, data).items);
    case Take =>
    case _ => AcknowledgementReleases(o, call);
  }

  /** In every run the dispatch log has an entry for each packet handed out, those not taken yet included,
      and no other; in order, by the sequence the packet carries. */
  lemma {:induction false} LogIsTrue(config: OutputConfig, cipher: Option<Cipher>, calls: seq<Call>)
    requires forall k | 0 <= k < |calls| :: Callable(config, calls[k])
    ensures var o0 := Initial(config, cipher);
            Records(Log(o0, calls), Taken(o0, calls) + Run(o0, calls).outgoing)
    decreases |calls|
  {
    hide Apply, U16, Records, Dispatched;
    var o0 := Initial(config, cipher);
    if calls == [] {
      NothingRecorded();
      assert Log(o0, calls) == [] && Taken(o0, calls) + Run(o0, calls).outgoing == [];
    } else {
      var before, call := calls[..|calls| - 1], calls[|calls| - 1];
      LogIsTrue(config, cipher, before);
      var o, taken := Run(o0, before), Taken(o0, before);
      if call.Tick? {
        TickRecords(config, cipher, before, call.now, Log(o0, before), taken);
        assert call == Tick(call.now) && Taken(o0, calls) == taken;
      } else {
        CallRecords(o, call);
        assert Log(o0, calls) == Log(o0, before);
        if call.Take? {
          assert taken + o.outgoing + [] == taken + o.outgoing;
        } else {
          assert Taken(o0, calls) == taken;
        }
      }
    }
  }

  lemma NothingRecorded()
    ensures Records([], [])
  {
  }

  lemma TickRecords(config: OutputConfig, cipher: Option<Cipher>, calls: seq<Call>, now: nat, log: seq<Dispatch>, taken: seq<OutgoingReliable>)
    requires forall k | 0 <= k < |calls| :: Callable(config, calls[k])
    requires Records(log, taken + Run(Initial(config, cipher), calls).outgoing)
    ensures var o := Run(Initial(config, cipher), calls);
            Records(log + Dispatched(o, Tick(now)), taken + Apply(o, Tick(now)).outgoing)
  {
    hide U16, Records, Due, RunTick, Run;
    var o := Run(Initial(config, cipher), calls);
    PacketsFit(config, cipher, calls);
    TickKeepsPackets(o, now);
    RecordsOn(log, taken + o.outgoing, Due(o, now), now, o.config.maxDataLength);
    assert taken + (o.outgoing + WireAll(Due(o, now))) == taken + o.outgoing + WireAll(Due(o, now));
  }
}
