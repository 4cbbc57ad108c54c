/** The RC4 key state as the source keeps it (src/rc4.rs): a 256-byte array swapped in place and two
    indices, proved against the key stream of module Rc4. */
module Rc4Implementation {
  import opened Bytes
  import Rc4

  class Rc4KeyState {
    const state: array<byte>
    var index1: nat
    var index2: nat

    ghost predicate Valid()
      reads this
    {
      state.Length == 256 && index1 < 256 && index2 < 256
    }

    ghost function View(): Rc4.Cipher
      requires Valid()
      reads this, state
    {
      Rc4.KeyState(state[..], index1, index2)
    }

    constructor (key: bytes)
      requires 1 <= |key| <= 256
      ensures Valid() && fresh(state)
      ensures View() == Rc4.KeySchedule(key)
    {
      state := new byte[256](i requires 0 <= i < 256 => i);
      index1, index2 := 0, 0;
      new;
      assert state[..] == Rc4.Identity();
      var swapIndex1, swapIndex2 := 0, 0;
      hide Rc4.Identity, Rc4.ScheduleSwap, Rc4.CyclicIndex;
      for i := 0 to 256
        invariant index1 == index2 == 0
        invariant swapIndex1 == Rc4.CyclicIndex(i, |key|)
        invariant (state[..], swapIndex2) == Rc4.Scheduled(key, i)
      {
        swapIndex2 := ScheduleSwap(i, key[swapIndex1], swapIndex2);
        Rc4.CyclicSuccessor(i, |key|);
        swapIndex1 := (swapIndex1 + 1) % |key|;
      }
    }

    /** One round of the key-schedule loop. */
    method ScheduleSwap(i: nat, k: byte, swapIndex2: nat) returns (j: nat)
      requires state.Length == 256 && i < 256
      modifies state
      ensures (state[..], j) == Rc4.ScheduleSwap((old(state[..]), swapIndex2), i, k)
    {
      j := (swapIndex2 + state[i] + k) % 256;
      state[i], state[j] := state[j], state[i];
    }

    method Increment()
      requires Valid()
      modifies this, state
      ensures Valid() && View() == Rc4.Increment(old(View()))
    {
      index1 := (index1 + 1) % 256;
      index2 := (index2 + state[index1]) % 256;
      state[index1], state[index2] := state[index2], state[index1];
    }

    method Transform(input: bytes, output: array<byte>)
      requires Valid() && output != state && output.Length >= |input|
      modifies this, state, output
      ensures Valid() && View() == Rc4.After(old(View()), |input|)
      ensures output[..] == Rc4.Transform(old(View()), input) + old(output[..])[|input|..]
    {
      hide Rc4.Increment, Rc4.Xor;
      for i := 0 to |input|
        invariant Valid() && View() == Rc4.After(old(View()), i)
        invariant forall k | 0 <= k < i :: output[k] == Rc4.Transform(old(View()), input)[k]
        invariant forall k | i <= k < output.Length :: output[k] == old(output[k])
      {
        Increment();
        var xorIndex := (state[index1] as int + state[index2]) % 256;
        output[i] := Rc4.Xor(input[i], state[xorIndex]);
      }
    }

    method TransformInPlace(buffer: array<byte>)
      requires Valid() && buffer != state
      modifies this, state, buffer
      ensures Valid() && View() == Rc4.After(old(View()), buffer.Length)
      ensures buffer[..] == Rc4.Transform(old(View()), old(buffer[..]))
    {
      hide Rc4.Increment, Rc4.Xor;
      for i := 0 to buffer.Length
        invariant Valid() && View() == Rc4.After(old(View()), i)
        invariant forall k | 0 <= k < i :: buffer[k] == Rc4.Transform(old(View()), old(buffer[..]))[k]
        invariant forall k | i <= k < buffer.Length :: buffer[k] == old(buffer[k])
      {
        Increment();
        var xorIndex := (state[index1] as int + state[index2]) % 256;
        buffer[i] := Rc4.Xor(buffer[i], state[xorIndex]);
      }
    }

    method Advance(amount: nat)
      requires Valid()
      modifies this, state
      ensures Valid() && View() == Rc4.After(old(View()), amount)
    {
      for i := 0 to amount
        invariant Valid() && View() == Rc4.After(old(View()), i)
      {
        Increment();
      }
    }
  }
}
