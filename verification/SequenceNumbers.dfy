/** Un-wrapping of 16-bit wire sequences to full-width ones (src/channel/mod.rs). */
module SequenceNumbers {
  import opened Bits

  /** The full-width sequence a 16-bit `packetSequence` stands for, given the last known sequence
      `current` and the window size `maxQueued`. The source inserts the packet sequence into the
      low 16 bits of `current` with a mask; BitMaskInsertsPacketSequence shows that its mask
      computes the sum written here. */
  function TrueIncomingSequence(packetSequence: nat, current: nat, maxQueued: nat): int {
    var inserted := current - current % 0x1_0000 + packetSequence;
    var back := if inserted > current + maxQueued then inserted - 0x1_0000 else inserted;
    if back < current - maxQueued then back + 0x1_0000 else back
  }

  /** The decoder inverts the truncation to 16 bits on exactly the 65536 sequences that start
      `maxQueued` below `current`, so it returns the one representative in that range. */
  lemma UnwrapIsExact(t: int, current: nat, maxQueued: nat)
    requires maxQueued <= 32767
    ensures TrueIncomingSequence(t % 0x1_0000, current, maxQueued) == t
       <==> current - maxQueued <= t <= current - maxQueued + 65535
  {
  }

  /** Anything else decodes into that range too: one block too high or too low, never in between. */
  lemma UnwrapLandsInRange(packetSequence: nat, current: nat, maxQueued: nat)
    requires packetSequence < 0x1_0000 && maxQueued <= 32767
    ensures var t := TrueIncomingSequence(packetSequence, current, maxQueued);
            && t % 0x1_0000 == packetSequence
            && current - maxQueued <= t <= current - maxQueued + 65535
  {
  }

  lemma UnwrapKeepsLowBits(packetSequence: nat, current: nat, maxQueued: nat)
    requires packetSequence < 0x1_0000
    ensures TrueIncomingSequence(packetSequence, current, maxQueued) % 0x1_0000 == packetSequence
  {
  }

  ghost predicate ExactOnWindow(maxQueued: nat) {
    forall current: nat, t: int | current - maxQueued <= t <= current + maxQueued ::
      TrueIncomingSequence(t % 0x1_0000, current, maxQueued) == t
  }

  /** 32767 is the exact limit: a wider window contains two sequences with the same low 16 bits,
      and the decoder then picks the wrong one. */
  lemma WindowLimitIsSharp(maxQueued: nat)
    ensures ExactOnWindow(maxQueued) <==> maxQueued <= 32767
  {
    if maxQueued <= 32767 {
      forall current: nat, t: int | current - maxQueued <= t <= current + maxQueued
        ensures TrueIncomingSequence(t % 0x1_0000, current, maxQueued) == t
      {
        UnwrapIsExact(t, current, maxQueued);
      }
    } else {
      var current, t := 0x1_0000, 0x8000;
      assert TrueIncomingSequence(t % 0x1_0000, current, maxQueued) == 0x1_8000;
    }
  }

  /** The source's expression `packet | (current & (i64::MAX ^ 0xFFFF))` on every non-negative
      64-bit `current`. */
  lemma BitMaskInsertsPacketSequence(packetSequence: nat, current: nat)
    requires packetSequence < 0x1_0000 && current < 0x8000_0000_0000_0000
    ensures BitOr(packetSequence, BitAnd(current, 0x7FFF_FFFF_FFFF_0000))
         == current - current % 0x1_0000 + packetSequence
  {
    Pow2Values();
    AndClearsLowBits(current, 16, 63);
    OrFillsLowBits(packetSequence, current - current % 0x1_0000, 16);
  }
}
