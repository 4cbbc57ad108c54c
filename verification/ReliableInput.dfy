/** The state of the reliable input channel and what each of its operations does to it
    (src/channel/input.rs). The stash is a map from full-width sequences here and acknowledgements
    carry full-width sequences; InputChannel.dfy keeps the stash in a ring and truncates the
    sequences, and is proved against these functions. */
module ReliableInput {
  import opened Bytes
  import opened Rc4
  import opened DataCodec
  import opened SequenceNumbers
  import opened ReliableOutput

  datatype InputConfig = InputConfig(
    maxQueuedIncoming: nat, acknowledgeAllData: bool, dataAckWindow: nat, maxAckDelay: nat)

  datatype InputStats = InputStats(
    totalReceived: nat, duplicateCount: nat, outOfOrderCount: nat,
    totalReceivedBytes: nat, acknowledgeCount: nat)

  /** An acknowledgement of one sequence, or of all up to and including it. */
  datatype Ack = Ack(all: bool, sequence: int)

  datatype InputState = InputState(
    config: InputConfig, decoder: Decoder, windowStart: nat,
    lastAckAll: int, lastAckAllTime: nat, stash: map<int, Item>,
    stats: InputStats, outgoing: seq<Ack>, appData: seq<bytes>)

  function InitialInput(config: InputConfig, cipher: Option<Cipher>, now: nat): InputState {
    InputState(config, Idle(cipher), 0, -1, now, map[], InputStats(0, 0, 0, 0, 0), [], [])
  }

  // ----- Acknowledging ---------------------------------------------------------------------

  function SendAckAll(s: InputState, sequence: int, now: nat): InputState {
    s.(outgoing := s.outgoing + [Ack(true, sequence)],
       stats := s.stats.(acknowledgeCount := s.stats.acknowledgeCount + 1),
       lastAckAll := sequence, lastAckAllTime := now)
  }

  /** Sequences consumed but not yet acknowledged together. */
  function Backlog(s: InputState): int {
    s.windowStart - 1 - s.lastAckAll
  }

  function InputTick(s: InputState, now: nat): InputState {
    if s.config.acknowledgeAllData || Backlog(s) <= 0 then s
    else if Since(now, s.lastAckAllTime) > s.config.maxAckDelay || Backlog(s) >= s.config.dataAckWindow / 2 then
      SendAckAll(s, s.windowStart - 1, now)
    else s
  }

  // ----- Receiving -------------------------------------------------------------------------

  function CountReceived(s: InputState): InputState {
    s.(stats := s.stats.(totalReceived := s.stats.totalReceived + 1))
  }

  function CountDuplicate(s: InputState): InputState {
    s.(stats := s.stats.(duplicateCount := s.stats.duplicateCount + 1))
  }

  /** A packet from below the window: it asks for an ack-all, but only while the last one is
      younger than the acknowledgement delay. */
  function Nudge(s: InputState, now: nat): InputState {
    CountDuplicate(
      if Since(now, s.lastAckAllTime) < s.config.maxAckDelay then SendAckAll(s, s.windowStart - 1, now) else s)
  }

  /** Acknowledges a packet in the window on its own, if it is ahead or everything is. */
  function AckOne(s: InputState, sequence: int): InputState {
    if s.config.acknowledgeAllData || sequence != s.windowStart then
      s.(outgoing := s.outgoing + [Ack(false, sequence)])
    else s
  }

  function Hold(s: InputState, sequence: int, item: Item): InputState {
    var s' := s.(stats := s.stats.(outOfOrderCount := s.stats.outOfOrderCount + 1));
    if sequence in s.stash then CountDuplicate(s') else s'.(stash := s.stash[sequence := item])
  }

  function TotalBytes(parts: seq<bytes>): nat {
    TotalLength(parts)
  }

  /** A state and whether the packet was well formed. */
  datatype Outcome = Outcome(state: InputState, ok: bool)

  /** Takes in the packet at the start of the window. */
  function TakeNext(s: InputState, item: Item): Outcome {
    var r := Accept(s.decoder, item);
    if r.None? then Outcome(s, false) else
      Outcome(s.(decoder := r.value.decoder, windowStart := s.windowStart + 1,
                 appData := s.appData + r.value.output,
                 stats := s.stats.(totalReceivedBytes := s.stats.totalReceivedBytes + TotalBytes(r.value.output))),
              true)
  }

  /** Takes in stashed packets for as long as the next one is there. */
  function ConsumeStashed(s: InputState): Outcome
    decreases |s.stash|
  {
    if s.windowStart !in s.stash then Outcome(s, true) else
      var r := TakeNext(s.(stash := s.stash - {s.windowStart}), s.stash[s.windowStart]);
      if r.ok then ConsumeStashed(r.state) else r
  }

  function Receive(s: InputState, isFragment: bool, data: bytes, now: nat): Outcome {
    var s1 := CountReceived(s);
    if |data| < 2 then Outcome(s1, true) else
      var t := TrueIncomingSequence(ReadU16(data), s.windowStart, s.config.maxQueuedIncoming);
      var item := Item(isFragment, data[2..]);
      if t > s.windowStart + s.config.maxQueuedIncoming then Outcome(s1, true)
      else if t < s.windowStart then Outcome(Nudge(s1, now), true)
      else if t > s.windowStart then Outcome(Hold(AckOne(s1, t), t, item), true)
      else
        var r := TakeNext(AckOne(s1, t), item);
        if r.ok then ConsumeStashed(r.state) else r
  }

  function Drain(s: InputState): InputState {
    s.(outgoing := [], appData := [])
  }
}
