/** Runs of the input channel under arbitrary packets (src/channel/input.rs): the stash window, the
    release of stashed packets and the throttling of acknowledgements. */
module InputRuns {
  import opened Bytes
  import opened Rc4
  import opened DataCodec
  import opened SequenceNumbers
  import opened ReliableOutput
  import opened ReliableInput

  datatype Call =
    | Packet(isFragment: bool, data: bytes, now: nat)
    | Tick(now: nat)
    | Take

  function Apply(s: InputState, call: Call): InputState {
    match call
    case Packet(isFragment, data, now) => Receive(s, isFragment, data, now).state
    case Tick(now) => InputTick(s, now)
    case Take => Drain(s)
  }

  function Run(s: InputState, calls: seq<Call>): InputState {
    if calls == [] then s else Apply(Run(s, calls[..|calls| - 1]), calls[|calls| - 1])
  }

  // ----- Releasing stashed packets -----------------------------------------------------------

  /** The number of consecutive sequences from `from` on that are stashed. */
  function RunLength(stash: map<int, Item>, from: int): (n: nat)
    ensures forall k | from <= k < from + n :: k in stash
    ensures from + n !in stash
    decreases |stash|
  {
    if from !in stash then 0 else
      var rest := stash - {from};
      assert from !in rest;
      var tail := RunLength(rest, from + 1);
      assert forall k | from + 1 <= k < from + 1 + tail :: k in rest && k in stash;
      assert from + (1 + tail) !in rest;
      1 + tail
  }

  function StashedRun(stash: map<int, Item>, from: int): seq<Item> {
    seq(RunLength(stash, from), k requires 0 <= k < RunLength(stash, from) => stash[from + k])
  }

  /** `rest` is the stash without the `n` sequences from `from` on. */
  ghost predicate Without(stash: map<int, Item>, from: int, n: nat, rest: map<int, Item>) {
    forall k :: (k in rest <==> k in stash && !(from <= k < from + n)) && (k in rest ==> rest[k] == stash[k])
  }

  /** Exactly the maximal run of consecutive packets is released, in order, unless one of them is
      malformed; everything else stays stashed. */
  lemma {:induction false} ReleasesMaximalRun(s: InputState)
    ensures var run, r := StashedRun(s.stash, s.windowStart), ConsumeStashed(s);
            var taken := AcceptAll(s.decoder, run);
            && r.ok == taken.Some?
            && (r.ok ==>
                  && r.state.decoder == taken.value.decoder
                  && r.state.appData == s.appData + taken.value.output
                  && r.state.windowStart == s.windowStart + |run|
                  && Without(s.stash, s.windowStart, |run|, r.state.stash))
            && (!r.ok ==> s.windowStart <= r.state.windowStart < s.windowStart + |run|)
    decreases |s.stash|
  {
    hide Accept, RunLength, Without, StashedRun;
    var w := s.windowStart;
    RunStep(s.stash, w);
    if w in s.stash {
      hide AcceptAll;
      AcceptAllFirst(s.decoder, s.stash[w], StashedRun(s.stash - {w}, w + 1));
      var rest := s.(stash := s.stash - {w});
      var r := TakeNext(rest, s.stash[w]);
      if r.ok {
        ReleasesMaximalRun(r.state);
        var run := StashedRun(rest.stash, w + 1);
        var taken := AcceptAll(r.state.decoder, run);
        var first := Accept(s.decoder, s.stash[w]).value.output;
        if taken.Some? {
          assert (s.appData + first) + taken.value.output == s.appData + (first + taken.value.output);
          RemoveRun(s.stash, w, |run|, ConsumeStashed(s).state.stash);
        }
      }
    } else {
      assert s.appData + [] == s.appData;
      RemoveNothing(s.stash, w);
    }
  }

  lemma RunStep(stash: map<int, Item>, w: int)
    ensures StashedRun(stash, w) == if w in stash then [stash[w]] + StashedRun(stash - {w}, w + 1) else []
  {
  }

  lemma RemoveNothing(stash: map<int, Item>, w: int)
    ensures Without(stash, w, 0, stash)
  {
  }

  lemma RemoveRun(stash: map<int, Item>, w: int, n: nat, rest: map<int, Item>)
    requires Without(stash - {w}, w + 1, n, rest)
    ensures Without(stash, w, n + 1, rest)
  {
  }

  // ----- The stash window --------------------------------------------------------------------

  /** Stashed packets lie in the window, never the one waited for, a live reassembly buffer still
      awaits more, and no ack-all ran ahead of what was consumed. */
  ghost predicate InputOk(s: InputState) {
    && (forall k | k in s.stash :: s.windowStart < k <= s.windowStart + s.config.maxQueuedIncoming)
    && AwaitsMore(s.decoder)
    && -1 <= s.lastAckAll <= s.windowStart - 1
  }

  lemma {:induction false} ConsumeKeepsOk(s: InputState)
    requires forall k | k in s.stash :: s.windowStart <= k <= s.windowStart + s.config.maxQueuedIncoming
    requires AwaitsMore(s.decoder) && -1 <= s.lastAckAll <= s.windowStart - 1
    ensures InputOk(ConsumeStashed(s).state) && ConsumeStashed(s).state.config == s.config
    ensures ConsumeStashed(s).state.windowStart >= s.windowStart
    ensures ConsumeStashed(s).state.lastAckAll == s.lastAckAll
    decreases |s.stash|
  {
    hide Accept;
    if s.windowStart in s.stash {
      var item := s.stash[s.windowStart];
      var r := TakeNext(s.(stash := s.stash - {s.windowStart}), item);
      if r.ok {
        AcceptAwaitsMore(s.decoder, item);
        ConsumeKeepsOk(r.state);
      }
    }
  }

  /** A call moves the window and the last ack-all forward only. */
  ghost predicate Forward(s: InputState, s': InputState) {
    s'.config == s.config && s'.windowStart >= s.windowStart && s'.lastAckAll >= s.lastAckAll
  }

  lemma PacketKeepsOk(s: InputState, isFragment: bool, data: bytes, now: nat)
    requires InputOk(s)
    ensures var s' := Receive(s, isFragment, data, now).state; InputOk(s') && Forward(s, s')
  {
    hide Accept, ConsumeStashed, TrueIncomingSequence, AwaitsMore;
    if |data| >= 2 {
      var t := TrueIncomingSequence(ReadU16(data), s.windowStart, s.config.maxQueuedIncoming);
      if t == s.windowStart {
        var item := Item(isFragment, data[2..]);
        var r := TakeNext(AckOne(CountReceived(s), t), item);
        if r.ok {
          AcceptAwaitsMore(s.decoder, item);
          ConsumeKeepsOk(r.state);
        }
      }
    }
  }

  lemma ApplyKeepsOk(s: InputState, call: Call)
    requires InputOk(s)
    ensures InputOk(Apply(s, call)) && Forward(s, Apply(s, call))
  {
    hide Receive;
    if call.Packet? { PacketKeepsOk(s, call.isFragment, call.data, call.now); }
  }

  /** Whatever packets arrive: stashed sequences stay within the ring's window, so its slots never
      collide, the buffer stays short of the length it waits for, and ack-alls stay true. */
  lemma {:induction false} InputHolds(config: InputConfig, cipher: Option<Cipher>, start: nat, calls: seq<Call>)
    ensures var s := Run(InitialInput(config, cipher, start), calls);
            InputOk(s) && s.config == config
  {
    hide Apply;
    if calls != [] {
      InputHolds(config, cipher, start, calls[..|calls| - 1]);
      ApplyKeepsOk(Run(InitialInput(config, cipher, start), calls[..|calls| - 1]), calls[|calls| - 1]);
    }
  }

  // ----- Throttling --------------------------------------------------------------------------

  /** The ack-alls that ticks emitted, with their full-width sequences. */
  function TickAcks(s: InputState, calls: seq<Call>): seq<int> {
    if calls == [] then [] else
      var before, call := calls[..|calls| - 1], calls[|calls| - 1];
      var s1 := Run(s, before);
      TickAcks(s, before) +
        if call.Tick? && InputTick(s1, call.now) != s1 then [InputTick(s1, call.now).lastAckAll] else []
  }

  /** Strictly increasing from at least zero, up to `last`. */
  ghost predicate Climbs(acks: seq<int>, last: int) {
    && (forall i, j | 0 <= i < j < |acks| :: acks[i] < acks[j])
    && (forall i | 0 <= i < |acks| :: i <= acks[i] <= last)
    && -1 <= last && |acks| <= last + 1
  }

  lemma ClimbsOn(acks: seq<int>, last: int, next: int)
    requires Climbs(acks, last) && last < next
    ensures Climbs(acks + [next], next)
  {
  }

  /** Ticks never acknowledge the same sequence twice: their ack-alls are strictly increasing, so
      there are at most as many as sequences consumed, past any wrap of the wire sequence. */
  lemma {:induction false} TickAcksIncrease(config: InputConfig, cipher: Option<Cipher>, start: nat, calls: seq<Call>)
    ensures var s, acks := Run(InitialInput(config, cipher, start), calls), TickAcks(InitialInput(config, cipher, start), calls);
            Climbs(acks, s.lastAckAll) && s.lastAckAll <= s.windowStart - 1 && |acks| <= s.windowStart
  {
    var s0 := InitialInput(config, cipher, start);
    InputHolds(config, cipher, start, calls);
    if calls != [] {
      hide Apply, InputTick, Climbs;
      var before, call := calls[..|calls| - 1], calls[|calls| - 1];
      TickAcksIncrease(config, cipher, start, before);
      var s, earlier := Run(s0, before), TickAcks(s0, before);
      InputHolds(config, cipher, start, before);
      ApplyKeepsOk(s, call);
      assert earlier + [] == earlier;
      if call.Tick? {
        TickAcknowledges(s, call.now);
        if InputTick(s, call.now) != s { ClimbsOn(earlier, s.lastAckAll, s.windowStart - 1); }
      } else {
        LaterAcks(earlier, s.lastAckAll, Apply(s, call).lastAckAll);
      }
      assert Climbs(TickAcks(s0, calls), Run(s0, calls).lastAckAll);
      ClimbsLength(TickAcks(s0, calls), Run(s0, calls).lastAckAll);
    }
  }

  lemma LaterAcks(acks: seq<int>, last: int, later: int)
    requires Climbs(acks, last) && last <= later
    ensures Climbs(acks, later)
  {
  }

  lemma ClimbsLength(acks: seq<int>, last: int)
    requires Climbs(acks, last)
    ensures |acks| <= last + 1
  {
  }

  lemma TickAcknowledges(s: InputState, now: nat)
    ensures var s' := InputTick(s, now);
            Apply(s, Tick(now)) == s' && (s' != s ==> s'.lastAckAll == s.windowStart - 1 > s.lastAckAll)
  {
  }

  /** When packets are not acknowledged singly, a tick leaves no backlog, or one that is both young
      and small. */
  lemma TickBoundsBacklog(config: InputConfig, cipher: Option<Cipher>, start: nat, calls: seq<Call>, now: nat)
    requires !config.acknowledgeAllData
    ensures var s := InputTick(Run(InitialInput(config, cipher, start), calls), now);
            || Backlog(s) == 0
            || (Backlog(s) > 0 && Since(now, s.lastAckAllTime) <= config.maxAckDelay
                && Backlog(s) < config.dataAckWindow / 2)
  {
    InputHolds(config, cipher, start, calls);
  }
}
