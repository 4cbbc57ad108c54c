/** Bitwise operators on natural numbers, bit by bit, and the division facts the proofs share. */
module Bits {
  import opened Bytes

  function BitAnd(a: nat, b: nat): nat {
    if a == 0 then 0 else (a % 2) * (b % 2) + 2 * BitAnd(a / 2, b / 2)
  }

  function BitOr(a: nat, b: nat): nat {
    if a == 0 then b else Max(a % 2, b % 2) + 2 * BitOr(a / 2, b / 2)
  }

  /** Exclusive or of two `width`-bit numbers. */
  function BitXor(a: nat, b: nat, width: nat): (r: nat)
    requires a < Pow2(width) && b < Pow2(width)
    ensures r < Pow2(width)
  {
    if width == 0 then 0 else (a + b) % 2 + 2 * BitXor(a / 2, b / 2, width - 1)
  }

  lemma LowBit(bit: nat, rest: nat)
    requires bit <= 1
    ensures (bit + 2 * rest) / 2 == rest && (bit + 2 * rest) % 2 == bit
  {
  }

  lemma ParityCancels(a: nat, b: nat, x: nat)
    ensures ((a + b) % 2 + 2 * x + b) % 2 == a % 2
  {
  }

  lemma {:induction false} XorCancels(a: nat, b: nat, width: nat)
    requires a < Pow2(width) && b < Pow2(width)
    ensures BitXor(BitXor(a, b, width), b, width) == a
  {
    if width != 0 {
      var x := BitXor(a / 2, b / 2, width - 1);
      var y := BitXor(a, b, width);
      assert y / 2 == x by { LowBit((a + b) % 2, x); }
      assert (y + b) % 2 == a % 2 by { ParityCancels(a, b, x); }
      XorCancels(a / 2, b / 2, width - 1);
    }
  }

  function Pow2(n: nat): (p: nat)
    ensures p >= 1
  {
    if n == 0 then 1 else 2 * Pow2(n - 1)
  }

  lemma {:induction false} Pow2Monotone(k: nat, n: nat)
    requires k <= n
    ensures Pow2(k) <= Pow2(n)
  {
    if k < n { Pow2Monotone(k, n - 1); }
  }

  lemma {:induction false} Pow2Adds(a: nat, b: nat)
    ensures Pow2(a + b) == Pow2(a) * Pow2(b)
  {
    if b != 0 {
      Pow2Adds(a, b - 1);
      assert Pow2(a + b) == 2 * (Pow2(a) * Pow2(b - 1)) == Pow2(a) * Pow2(b);
    }
  }

  lemma Pow2Values()
    ensures Pow2(16) == 0x1_0000 && Pow2(63) == 0x8000_0000_0000_0000
  {
    assert Pow2(7) == 128 && Pow2(8) == 256;
    Pow2Adds(8, 8);
    Pow2Adds(8, 7);
    Pow2Adds(16, 16);
    Pow2Adds(32, 16);
    Pow2Adds(48, 15);
  }

  lemma HalveModulus(c: nat, p: nat)
    requires p >= 1
    ensures c % (2 * p) == 2 * (c / 2 % p) + c % 2
  {
    var q := c / 2 / p;
    assert c / 2 == q * p + c / 2 % p;
    var r := 2 * (c / 2 % p) + c % 2;
    assert c == q * (2 * p) + r && 0 <= r < 2 * p;
    RemainderIs(c, 2 * p, q, r);
  }

  lemma RemainderIs(c: nat, d: nat, q: int, r: nat)
    requires c == q * d + r && r < d
    ensures c % d == r
  {
    var q', r' := c / d, c % d;
    assert (q - q') * d == r' - r by {
      assert c == q' * d + r';
    }
    ScaleBounds(q - q', d);
  }

  lemma ScaleBounds(k: int, d: nat)
    ensures k >= 1 ==> k * d >= d
    ensures k <= -1 ==> k * d <= 0 - d
  {
    if k >= 1 { assert (k - 1) * d >= 0; }
    if k <= -1 { assert (-1 - k) * d >= 0; }
  }

  /** Masking with the bits k..n clears exactly the low k bits. */
  lemma {:induction false} AndClearsLowBits(c: nat, k: nat, n: nat)
    requires k <= n && c < Pow2(n)
    ensures Pow2(k) <= Pow2(n)
    ensures BitAnd(c, Pow2(n) - Pow2(k)) == c - c % Pow2(k)
    decreases n
  {
    hide BitAnd;
    Pow2Monotone(k, n);
    if c == 0 {
      AndZero(Pow2(n) - Pow2(k));
    } else {
      if k == 0 {
        Pow2Monotone(0, n - 1);
        AndClearsLowBits(c / 2, 0, n - 1);
        AndStep(c, Pow2(n) - 1, Pow2(n - 1) - 1, 1);
      } else {
        var p := Pow2(k - 1);
        AndClearsLowBits(c / 2, k - 1, n - 1);
        AndStep(c, Pow2(n) - Pow2(k), Pow2(n - 1) - p, 0);
        assert Pow2(k) == 2 * p;
        DoubleCleared(c, p);
      }
    }
  }

  lemma AndZero(mask: nat)
    ensures BitAnd(0, mask) == 0
  {
  }

  lemma DoubleCleared(c: nat, p: nat)
    requires p >= 1
    ensures 2 * (c / 2 - c / 2 % p) == c - c % (2 * p)
  {
    HalveModulus(c, p);
  }

  lemma AndStep(c: nat, mask: nat, half: nat, bit: nat)
    requires c != 0 && bit <= 1 && mask == 2 * half + bit
    ensures BitAnd(c, mask) == c % 2 * bit + 2 * BitAnd(c / 2, half)
  {
    LowBit(bit, half);
  }

  lemma {:induction false} OrFillsLowBits(p: nat, x: nat, k: nat)
    requires p < Pow2(k) && x % Pow2(k) == 0
    ensures BitOr(p, x) == p + x
  {
    if p != 0 {
      HalveModulus(x, Pow2(k - 1));
      OrFillsLowBits(p / 2, x / 2, k - 1);
    }
  }
}
