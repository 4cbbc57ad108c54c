/** The RC4 stream cipher (src/rc4.rs): the key stream as a function of the key state, the laws that
    make one continuous stream symmetric. Rc4KeyState.dfy proves the in-place implementation against it. */
module Rc4 {
  import opened Bytes
  import opened Bits

  datatype KeyState = KeyState(state: seq<byte>, index1: nat, index2: nat)

  type Cipher = k: KeyState | |k.state| == 256 && k.index1 < 256 && k.index2 < 256
    witness KeyState(seq(256, _ => 0), 0, 0)

  function Xor(a: byte, b: byte): byte {
    assert Pow2(8) == 256;
    BitXor(a, b, 8)
  }

  function Swap(s: seq<byte>, i: nat, j: nat): (r: seq<byte>)
    requires i < |s| && j < |s|
    ensures |r| == |s|
  {
    s[i := s[j]][j := s[i]]
  }

  function Increment(c: Cipher): Cipher {
    var i := (c.index1 + 1) % 256;
    var j := (c.index2 + c.state[i]) % 256;
    KeyState(Swap(c.state, i, j), i, j)
  }

  /** The key state after `n` steps. */
  function After(c: Cipher, n: nat): Cipher {
    if n == 0 then c else Increment(After(c, n - 1))
  }

  /** The key byte a state offers to the byte being transformed. */
  function KeyByte(c: Cipher): byte {
    c.state[(c.state[c.index1] as int + c.state[c.index2]) % 256]
  }

  /** `data` transformed with the key stream that starts after state `c`. */
  function Transform(c: Cipher, data: bytes): (out: bytes)
    ensures |out| == |data|
  {
    seq(|data|, k requires 0 <= k < |data| => Xor(data[k], KeyByte(After(c, k + 1))))
  }

  lemma TransformIsSymmetric(c: Cipher, data: bytes)
    ensures Transform(c, Transform(c, data)) == data
  {
    forall k | 0 <= k < |data|
      ensures Transform(c, Transform(c, data))[k] == data[k]
    {
      assert Pow2(8) == 256;
      XorCancels(data[k], KeyByte(After(c, k + 1)), 8);
    }
  }

  lemma {:induction false} AfterComposes(c: Cipher, m: nat, n: nat)
    ensures After(After(c, m), n) == After(c, m + n)
  {
    hide Increment;
    if n != 0 { AfterComposes(c, m, n - 1); }
  }

  /** One continuous stream: how the data is cut into blocks does not matter, only its total length
      advances the state. */
  lemma TransformIsContinuous(c: Cipher, a: bytes, b: bytes)
    ensures Transform(c, a + b) == Transform(c, a) + Transform(After(c, |a|), b)
    ensures After(After(c, |a|), |b|) == After(c, |a + b|)
  {
    hide Increment, KeyByte, Xor;
    AfterComposes(c, |a|, |b|);
    forall k | 0 <= k < |b|
      ensures Transform(c, a + b)[|a| + k] == Transform(After(c, |a|), b)[k]
    {
      AfterComposes(c, |a|, k + 1);
      assert (a + b)[|a| + k] == b[k];
    }
    assert Transform(c, a + b) == Transform(c, a) + Transform(After(c, |a|), b);
  }

  function Identity(): seq<byte> {
    seq(256, i requires 0 <= i < 256 => i)
  }

  /** The swap the key schedule makes at position `i` with the key byte `k`. */
  function ScheduleSwap(s: (seq<byte>, nat), i: nat, k: byte): (r: (seq<byte>, nat))
    requires |s.0| == 256 && i < 256
    ensures |r.0| == 256 && r.1 < 256
  {
    var j := (s.1 + s.0[i] + k) % 256;
    (Swap(s.0, i, j), j)
  }

  /** The key byte used in round `i`: the key repeats. */
  function CyclicIndex(i: nat, n: nat): (r: nat)
    requires n >= 1
    ensures r < n
  {
    i % n
  }

  lemma SuccessorIs(i: nat, n: nat, q: nat, r: nat)
    requires n >= 1 && i == q * n + r && r < n
    ensures (i + 1) % n == if r + 1 < n then r + 1 else 0
  {
    if r + 1 < n {
      RemainderIs(i + 1, n, q, r + 1);
    } else {
      assert (q + 1) * n == q * n + n;
      RemainderIs(i + 1, n, q + 1, 0);
    }
  }

  lemma CyclicSuccessor(i: nat, n: nat)
    requires n >= 1
    ensures (CyclicIndex(i, n) + 1) % n == CyclicIndex(i + 1, n)
  {
    SuccessorIs(i, n, i / n, i % n);
    SuccessorIs(i % n, n, 0, i % n);
  }

  /** The first `n` swaps of the key schedule. */
  function Scheduled(key: bytes, n: nat): (s: (seq<byte>, nat))
    requires key != [] && n <= 256
    ensures |s.0| == 256 && s.1 < 256
  {
    if n == 0 then (Identity(), 0) else ScheduleSwap(Scheduled(key, n - 1), n - 1, key[CyclicIndex(n - 1, |key|)])
  }

  function KeySchedule(key: bytes): Cipher
    requires 1 <= |key| <= 256
  {
    KeyState(Scheduled(key, 256).0, 0, 0)
  }

  lemma SwapPermutes(s: seq<byte>, i: nat, j: nat)
    requires i < |s| && j < |s|
    ensures multiset(Swap(s, i, j)) == multiset(s)
  {
  }

  lemma {:induction false} SchedulePermutes(key: bytes, n: nat)
    requires key != [] && n <= 256
    ensures multiset(Scheduled(key, n).0) == multiset(Identity())
  {
    if n != 0 {
      SchedulePermutes(key, n - 1);
      var s := Scheduled(key, n - 1);
      SwapPermutes(s.0, n - 1, (s.1 + s.0[n - 1] + key[CyclicIndex(n - 1, |key|)]) % 256);
    }
  }

  lemma IncrementPermutes(c: Cipher)
    ensures multiset(Increment(c).state) == multiset(c.state)
  {
    var i := (c.index1 + 1) % 256;
    SwapPermutes(c.state, i, (c.index2 + c.state[i]) % 256);
  }

  /** At every point of every key stream the state is a permutation of the 256 byte values. */
  lemma {:induction false} StateStaysPermutation(key: bytes, n: nat)
    requires 1 <= |key| <= 256
    ensures multiset(After(KeySchedule(key), n).state) == multiset(Identity())
  {
    hide Increment, Scheduled, Identity;
    if n == 0 {
      SchedulePermutes(key, 256);
    } else {
      StateStaysPermutation(key, n - 1);
      IncrementPermutes(After(KeySchedule(key), n - 1));
    }
  }
}
