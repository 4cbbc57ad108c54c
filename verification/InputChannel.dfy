/** The reliable input channel as the source keeps it (src/channel/input.rs): the stash is a ring of
    `max_queued_incoming` slots, application data is decrypted as it is released, acknowledgements
    carry 16-bit sequences. Proved against module ReliableInput. */
module InputChannel {
  import opened Bytes
  import opened Bits
  import opened Rc4
  import opened DataCodec
  import opened Varint
  import opened VarintCursor
  import opened Io
  import opened SequenceNumbers
  import opened ReliableOutput
  import opened ReliableInput

  datatype OutgoingContextual = OutgoingContextual(all: bool, sequence: nat)

  function WireAck(a: Ack): OutgoingContextual {
    OutgoingContextual(a.all, a.sequence % 0x1_0000)
  }

  function WireAcks(acks: seq<Ack>): seq<OutgoingContextual> {
    seq(|acks|, k requires 0 <= k < |acks| => WireAck(acks[k]))
  }

  /** What a ring of `|ring|` slots holds for the sequences from `low` on: slot `s % |ring|` stands
      for the one sequence of that residue. */
  ghost function RingContents(ring: seq<Option<Item>>, low: nat): map<int, Item>
    requires ring != []
  {
    map s: int | low <= s < low + |ring| && ring[s % |ring|].Some? :: ring[s % |ring|].value
  }

  lemma SlotsAreDistinct(a: nat, b: nat, m: nat)
    requires m >= 1 && a % m == b % m && a < b + m && b < a + m
    ensures a == b
  {
    var k := a / m - b / m;
    assert k * m == a - b by {
      assert a == a / m * m + a % m;
      assert b == b / m * m + b % m;
    }
    ScaleBounds(k, m);
  }

  /** Filling the slot of one sequence of the window leaves every other sequence alone. */
  lemma FillSlot(ring: seq<Option<Item>>, low: nat, t: nat, item: Item)
    requires ring != [] && low <= t < low + |ring|
    ensures RingContents(ring[t % |ring| := Some(item)], low) == RingContents(ring, low)[t := item]
    ensures t in RingContents(ring, low) <==> ring[t % |ring|].Some?
  {
    var m := |ring|;
    var ring' := ring[t % m := Some(item)];
    forall s: int | low <= s < low + m && s != t
      ensures ring'[s % m] == ring[s % m]
    {
      if s % m == t % m { SlotsAreDistinct(s, t, m); }
    }
  }

  /** Taking the first sequence of the window out frees its slot for the one that enters at the far
      end, which the ring does not hold yet. */
  lemma TakeSlot(ring: seq<Option<Item>>, low: nat)
    requires ring != []
    ensures RingContents(ring[low % |ring| := None], low + 1) == RingContents(ring, low) - {low}
    ensures low in RingContents(ring, low) <==> ring[low % |ring|].Some?
    ensures low in RingContents(ring, low) ==> ring[low % |ring|] == Some(RingContents(ring, low)[low])
  {
    var m := |ring|;
    var ring' := ring[low % m := None];
    assert (low + m) % m == low % m by {
      assert low + m == (low / m + 1) * m + low % m;
      RemainderIs(low + m, m, low / m + 1, low % m);
    }
    forall s: int | low < s < low + m
      ensures ring'[s % m] == ring[s % m]
    {
      if s % m == low % m { SlotsAreDistinct(s, low, m); }
    }
  }

  lemma DecryptOne(c: Option<Cipher>, data: bytes)
    ensures DecryptAll(c, [data]) == Plain(Advance(c, |Unpad(c, data)|), [Decrypt(c, data)])
    ensures TotalBytes([Decrypt(c, data)]) == |Decrypt(c, data)|
  {
    hide Decrypt, Unpad;
    var one, plain: seq<bytes> := [data], [Decrypt(c, data)];
    assert one[1..] == [] && plain[1..] == [] && plain + [] == plain;
    assert TotalLength(plain) == |plain[0]| + TotalLength(plain[1..]);
  }

  lemma SliceOfSuffix(data: bytes, offset: nat, from: nat, to: nat)
    requires offset <= |data| && from <= to <= |data| - offset
    ensures data[offset..][from..to] == data[offset + from..offset + to]
  {
  }

  lemma BundleParts(data: bytes, offset: nat, start: nat, end: nat)
    requires offset <= start <= end <= |data|
    requires var p := DecodeDataBundle(data[offset..]);
             p.Some? && start == offset + p.value.size && end == start + p.value.value
    ensures Chunks(data[offset..]) == [data[start..end]] + Chunks(data[end..])
  {
    hide DecodeDataBundle;
    assert data[offset..][start - offset..end - offset] == data[start..end] by {
      SliceOfSuffix(data, offset, start - offset, end - offset);
    }
    assert data[offset..][end - offset..] == data[end..] by {
      SliceOfSuffix(data, offset, end - offset, |data| - offset);
    }
  }

  /** The next chunk of a bundle body, or nothing once the body is used up or malformed. */
  method NextChunk(reader: BinaryReader) returns (chunk: Option<bytes>)
    requires reader.Valid()
    modifies reader
    ensures reader.Valid()
    ensures var chunks := Chunks(old(reader.Rest()));
            if chunks == [] then chunk == None else
              chunk == Some(chunks[0]) && Chunks(reader.Rest()) == chunks[1..] && reader.offset > old(reader.offset)
  {
    hide DecodeDataBundle;
    ghost var body := reader.Rest();
    if |reader.data| - reader.offset == 0 { return None; }
    var length := ReadDataBundle(reader);
    if length.None? { return None; }
    var start := reader.offset;
    var skipped := reader.Skip(length.value);
    if !skipped { return None; }
    BundleParts(reader.data, |reader.data| - |body|, start, reader.offset);
    chunk := Some(reader.data[start..start + length.value]);
  }

  class ReliableDataInputChannel {
    const config: InputConfig
    var cipher: Option<Cipher>
    var windowStart: nat
    var buffer: Option<bytes>
    var expected: nat
    var lastAckAll: int
    var lastAckAllTime: nat
    const stash: array<Option<Item>>
    var stats: InputStats
    var outgoing: seq<OutgoingContextual>
    var appData: seq<bytes>
    /** The acknowledgements in `outgoing` with their full-width sequences. */
    ghost var acks: seq<Ack>

    ghost predicate Valid()
      reads this
    {
      && config.maxQueuedIncoming >= 1
      && stash.Length == config.maxQueuedIncoming
      && outgoing == WireAcks(acks)
    }

    /** The state, with the ring read as the window of sequences from `low` on. */
    ghost function StateFrom(low: nat): InputState
      requires Valid()
      reads this, stash
    {
      InputState(config, Decoder(cipher, buffer, expected), windowStart, lastAckAll, lastAckAllTime,
                 RingContents(stash[..], low), stats, acks, appData)
    }

    /** Between calls the ring holds the sequences after the one the channel waits for. */
    ghost function State(): InputState
      requires Valid()
      reads this, stash
    {
      StateFrom(windowStart + 1)
    }

    constructor (config: InputConfig, cipher: Option<Cipher>, now: nat)
      requires config.maxQueuedIncoming >= 1
      ensures Valid() && fresh(stash) && State() == InitialInput(config, cipher, now)
    {
      this.config, this.cipher := config, cipher;
      windowStart, buffer, expected := 0, None, 0;
      lastAckAll, lastAckAllTime := -1, now;
      stash := new Option<Item>[config.maxQueuedIncoming](_ => None);
      stats, outgoing, appData, acks := InputStats(0, 0, 0, 0, 0), [], [], [];
    }

    method TakeOutgoing() returns (taken: seq<OutgoingContextual>)
      requires Valid()
      modifies this`outgoing, this`acks
      ensures Valid() && taken == WireAcks(old(acks)) && State() == old(State()).(outgoing := [])
    {
      taken := outgoing;
      outgoing, acks := [], [];
    }

    method TakeAppData() returns (taken: seq<bytes>)
      requires Valid()
      modifies this`appData
      ensures Valid() && taken == old(appData) && State() == old(State()).(appData := [])
    {
      taken := appData;
      appData := [];
    }

    method Emit(all: bool, sequence: nat, ghost trueSequence: int)
      requires Valid() && sequence == trueSequence % 0x1_0000
      modifies this`outgoing, this`acks
      ensures Valid() && acks == old(acks) + [Ack(all, trueSequence)]
    {
      outgoing := outgoing + [OutgoingContextual(all, sequence)];
      acks := acks + [Ack(all, trueSequence)];
    }

    method SendAckAll(sequence: int, now: nat)
      requires Valid()
      modifies this`outgoing, this`acks, this`stats, this`lastAckAll, this`lastAckAllTime
      ensures Valid() && State() == ReliableInput.SendAckAll(old(State()), sequence, now)
    {
      Emit(true, sequence % 0x1_0000, sequence);
      stats := stats.(acknowledgeCount := stats.acknowledgeCount + 1);
      lastAckAll := sequence;
      lastAckAllTime := now;
    }

    method RunTick(now: nat)
      requires Valid()
      modifies this
      ensures Valid() && State() == InputTick(old(State()), now)
    {
      var toAck := windowStart - 1;
      if config.acknowledgeAllData || toAck <= lastAckAll { return; }
      var needAck := Since(now, lastAckAllTime) > config.maxAckDelay
                  || toAck >= lastAckAll + config.dataAckWindow / 2;
      if needAck { SendAckAll(toAck, now); }
    }

    method HandleReliableData(data: bytes, now: nat) returns (ok: bool)
      requires Valid()
      modifies this, stash
      ensures Valid() && Outcome(State(), ok) == Receive(old(State()), false, data, now)
    {
      hide TrueIncomingSequence, TakeNext, ReliableInput.ConsumeStashed, AckOne, CountReceived;
      var immediate := Preprocess(data, false, now);
      if !immediate { return true; }
      ok := TakeIn(Item(false, data[2..]), windowStart + 1);
      ok := ConsumeStashed();
    }

    method HandleReliableDataFragment(data: bytes, now: nat) returns (ok: bool)
      requires Valid()
      modifies this, stash
      ensures Valid() && Outcome(State(), ok) == Receive(old(State()), true, data, now)
    {
      hide TrueIncomingSequence, TakeNext, ReliableInput.ConsumeStashed, AckOne, CountReceived;
      var immediate := Preprocess(data, true, now);
      if !immediate { return true; }
      ok := TakeIn(Item(true, data[2..]), windowStart + 1);
      if !ok { return; }
      ok := ConsumeStashed();
    }

    /** Takes in the packet the channel waits for; `low` is where the ring is read from. */
    method TakeIn(item: Item, ghost low: nat) returns (ok: bool)
      requires Valid()
      modifies this
      ensures Valid() && (item.isFragment || ok)
      ensures outgoing == old(outgoing)
      ensures windowStart == if ok then old(windowStart) + 1 else old(windowStart)
      ensures Outcome(StateFrom(low), ok) == TakeNext(old(StateFrom(low)), item)
    {
      hide ProcessData;
      if item.isFragment {
        ok := WriteImmediateFragment(item.body);
        if !ok { return; }
        TryProcessCurrentBuffer();
      } else {
        ProcessReleased(item.body);
        ok := true;
      }
      windowStart := windowStart + 1;
    }

    /** Validates a packet and stashes it if it is ahead. True when it is the next one; then nothing
        but the counters and the acknowledgements has changed. */
    method Preprocess(data: bytes, isFragment: bool, now: nat) returns (immediate: bool)
      requires Valid()
      modifies this, stash
      ensures Valid()
      ensures immediate <==> (|data| >= 2 &&
        TrueIncomingSequence(ReadU16(data), old(windowStart), config.maxQueuedIncoming) == old(windowStart))
      ensures if immediate then State() == AckOne(CountReceived(old(State())), old(windowStart))
              else Outcome(State(), true) == Receive(old(State()), isFragment, data, now)
    {
      hide TrueIncomingSequence, RingContents;
      stats := stats.(totalReceived := stats.totalReceived + 1);
      var sequence := CheckWindow(data, now);
      if sequence.None? { return false; }
      var t := sequence.value;
      var ahead := t != windowStart;
      if config.acknowledgeAllData || ahead { Emit(false, ReadU16(data), t); }
      if !ahead { return true; }
      stats := stats.(outOfOrderCount := stats.outOfOrderCount + 1);
      var spot := t % config.maxQueuedIncoming;
      ghost var ring := stash[..];
      FillSlot(ring, windowStart + 1, t, Item(isFragment, data[2..]));
      if stash[spot].Some? {
        stats := stats.(duplicateCount := stats.duplicateCount + 1);
        return false;
      }
      stash[spot] := Some(Item(isFragment, data[2..]));
      assert stash[..] == ring[spot := Some(Item(isFragment, data[2..]))];
      immediate := false;
    }

    /** The full-width sequence of a packet inside the window; a packet below it may be answered with
        an ack-all. */
    method CheckWindow(data: bytes, now: nat) returns (sequence: Option<nat>)
      requires Valid()
      modifies this`outgoing, this`acks, this`stats, this`lastAckAll, this`lastAckAllTime
      ensures Valid()
      ensures |data| < 2 ==> sequence == None && State() == old(State())
      ensures |data| >= 2 ==>
        var t := TrueIncomingSequence(ReadU16(data), windowStart, config.maxQueuedIncoming);
        && (sequence.Some? <==> windowStart <= t <= windowStart + config.maxQueuedIncoming)
        && (sequence.Some? ==> sequence.value == t && t % 0x1_0000 == ReadU16(data))
        && State() == if t < windowStart then Nudge(old(State()), now) else old(State())
    {
      if |data| < 2 { return None; }
      hide TrueIncomingSequence;
      var packetSequence := ReadU16(data);
      UnwrapKeepsLowBits(packetSequence, windowStart, config.maxQueuedIncoming);
      var t := TrueIncomingSequence(packetSequence, windowStart, config.maxQueuedIncoming);
      if t > windowStart + config.maxQueuedIncoming { return None; }
      if t >= windowStart { return Some(t); }
      if Since(now, lastAckAllTime) < config.maxAckDelay { SendAckAll(windowStart - 1, now); }
      stats := stats.(duplicateCount := stats.duplicateCount + 1);
      sequence := None;
    }

    method WriteImmediateFragment(data: bytes) returns (ok: bool)
      modifies this`buffer, this`expected
      ensures var w := WriteFragment(old(Decoder(cipher, buffer, expected)), data);
              ok == w.Some?
              && Decoder(cipher, buffer, expected) == if ok then w.value else old(Decoder(cipher, buffer, expected))
    {
      if buffer.Some? {
        buffer := Some(buffer.value + data);
      } else {
        if |data| < 4 { return false; }
        expected := ReadU32(data);
        buffer := Some(data[4..]);
      }
      ok := true;
    }

    method TryProcessCurrentBuffer()
      modifies this`cipher, this`buffer, this`expected, this`stats, this`appData
      ensures var r := TryProcess(old(Decoder(cipher, buffer, expected)));
              && Decoder(cipher, buffer, expected) == r.decoder
              && appData == old(appData) + r.output
              && stats == old(stats).(totalReceivedBytes := old(stats.totalReceivedBytes) + TotalBytes(r.output))
    {
      hide ProcessData;
      if buffer.None? || |buffer.value| < expected { return; }
      var buf := buffer.value;
      buffer := None;
      ProcessReleased(buf);
      expected := 0;
    }

    /** Releases everything up to the first gap; stops at a malformed fragment. */
    method ConsumeStashed() returns (ok: bool)
      requires Valid()
      modifies this, stash
      ensures Valid() && Outcome(State(), ok) == ReliableInput.ConsumeStashed(old(StateFrom(windowStart)))
    {
      hide TakeNext, RingContents;
      while true
        invariant Valid()
        invariant ReliableInput.ConsumeStashed(StateFrom(windowStart))
               == ReliableInput.ConsumeStashed(old(StateFrom(windowStart)))
        decreases |RingContents(stash[..], windowStart)|
      {
        ghost var ring := stash[..];
        TakeSlot(ring, windowStart);
        var spot := windowStart % config.maxQueuedIncoming;
        var slot := stash[spot];
        stash[spot] := None;
        assert stash[..] == ring[spot := None];
        if slot.None? {
          assert RingContents(ring, windowStart) - {windowStart} == RingContents(ring, windowStart);
          return true;
        }
        ok := TakeIn(slot.value, windowStart + 1);
        if !ok { return; }
      }
      ok := true;
    }

    /** Hands on one complete unit, or each chunk of a bundle. */
    method ProcessReleased(data: bytes)
      modifies this`cipher, this`stats, this`appData
      ensures var p := ProcessData(old(cipher), data);
              && cipher == p.cipher && appData == old(appData) + p.output
              && stats == old(stats).(totalReceivedBytes := old(stats.totalReceivedBytes) + TotalBytes(p.output))
    {
      if |data| > 2 && data[..2] == [0x00, 0x19] {
        HandleBundle(data);
      } else {
        DecryptOne(cipher, data);
        DecryptAndHandle(data);
      }
    }

    method HandleBundle(data: bytes)
      requires IsBundle(data)
      modifies this`cipher, this`stats, this`appData
      ensures var p := DecryptAll(old(cipher), Chunks(data[2..]));
              && cipher == p.cipher && appData == old(appData) + p.output
              && stats == old(stats).(totalReceivedBytes := old(stats.totalReceivedBytes) + TotalBytes(p.output))
    {
      hide Decrypt, Unpad, Chunks;
      var reader := new BinaryReader(data);
      var _ := reader.Skip(2);
      ghost var all := DecryptAll(cipher, Chunks(data[2..]));
      ghost var released: seq<bytes> := [];
      while true
        invariant reader.Valid() && fresh(reader)
        invariant appData == old(appData) + released
        invariant stats == old(stats).(totalReceivedBytes := old(stats.totalReceivedBytes) + TotalBytes(released))
        invariant var rest := DecryptAll(cipher, Chunks(reader.Rest()));
                  all == Plain(rest.cipher, released + rest.output)
        decreases |reader.data| - reader.offset
      {
        ghost var chunks := Chunks(reader.Rest());
        var chunk := NextChunk(reader);
        if chunk.None? { break; }
        ghost var plain := Decrypt(cipher, chunk.value);
        ghost var rest := DecryptAll(Advance(cipher, |Unpad(cipher, chunk.value)|), chunks[1..]);
        assert released + ([plain] + rest.output) == (released + [plain]) + rest.output;
        DecryptOne(cipher, chunk.value);
        TotalLengthAppend(released, [plain]);
        released := released + [plain];
        DecryptAndHandle(chunk.value);
      }
      assert released + [] == released;
    }

    method DecryptAndHandle(data: bytes)
      modifies this`cipher, this`stats, this`appData
      ensures cipher == Advance(old(cipher), |Unpad(old(cipher), data)|)
      ensures appData == old(appData) + [Decrypt(old(cipher), data)]
      ensures stats == old(stats).(
        totalReceivedBytes := old(stats.totalReceivedBytes) + |Decrypt(old(cipher), data)|)
    {
      var processed := data;
      if cipher.Some? {
        if |data| > 1 && data[0] == 0 { processed := data[1..]; }
        var length := |processed|;
        processed := Transform(cipher.value, processed);
        cipher := Some(After(cipher.value, length));
      }
      stats := stats.(totalReceivedBytes := stats.totalReceivedBytes + |processed|);
      appData := appData + [processed];
    }
  }
}
