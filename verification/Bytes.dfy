/** Bytes, options and the big-endian fixed-width integers every SOE packet is built from. */
module Bytes {

  type byte = x: int | 0 <= x < 256

  type bytes = seq<byte>

  datatype Option<+T> = None | Some(value: T)

  function Min(a: int, b: int): int {
    if a <= b then a else b
  }

  function Max(a: int, b: int): int {
    if a >= b then a else b
  }

  /** The big-endian form of `n as u16`: the conversion keeps the low 16 bits. */
  function U16(n: int): (b: bytes)
    ensures |b| == 2
  {
    var low := n % 0x1_0000;
    [low / 256, low % 256]
  }

  function ReadU16(b: bytes): (n: nat)
    requires |b| >= 2
    ensures n < 0x1_0000
  {
    b[0] as int * 256 + b[1]
  }

  /** The big-endian form of `n as u32`: the conversion keeps the low 32 bits. */
  function U32(n: int): (b: bytes)
    ensures |b| == 4
  {
    var low := n % 0x1_0000_0000;
    U16(low / 0x1_0000) + U16(low)
  }

  function ReadU32(b: bytes): (n: nat)
    requires |b| >= 4
    ensures n < 0x1_0000_0000
  {
    ReadU16(b[..2]) * 0x1_0000 + ReadU16(b[2..4])
  }

  lemma U16RoundTrip(n: int, b: bytes)
    requires |b| >= 2
    ensures ReadU16(U16(n)) == n % 0x1_0000
    ensures U16(ReadU16(b)) == b[..2]
  {
    DigitsOf(b[0], b[1]);
    assert b[..2] == [b[0], b[1]];
  }

  lemma DigitsOf(high: byte, low: byte)
    ensures var n := high as int * 256 + low; 0 <= n < 0x1_0000 && n / 256 == high && n % 256 == low
  {
  }

  lemma U32Truncates(n: int)
    ensures ReadU32(U32(n)) == n % 0x1_0000_0000
  {
    var low := n % 0x1_0000_0000;
    var hi, lo := low / 0x1_0000, low % 0x1_0000;
    assert U32(n)[..2] == U16(hi) && U32(n)[2..4] == U16(low);
    U16RoundTrip(hi, U16(hi));
    U16RoundTrip(low, U16(low));
  }

  /** Reading looks only at the bytes it needs. */
  lemma ReadU32Prefix(b: bytes, rest: bytes)
    requires |b| == 4
    ensures ReadU32(b + rest) == ReadU32(b)
  {
    assert (b + rest)[..2] == b[..2] && (b + rest)[2..4] == b[2..4];
  }

  /** The number that digits of base 256 stand for, the most significant one first. */
  function Number(b: bytes): nat {
    if b == [] then 0 else Number(b[..|b| - 1]) * 256 + b[|b| - 1] as int
  }

  /** On the wire integers are big-endian, and reading takes their bytes as digits. */
  lemma BigEndian(n: int, b: bytes)
    ensures Number(U16(n)) == n % 0x1_0000 && Number(U32(n)) == n % 0x1_0000_0000
    ensures |b| >= 2 ==> ReadU16(b) == Number(b[..2])
    ensures |b| >= 4 ==> ReadU32(b) == Number(b[..4])
  {
    TwoDigits(U16(n));
    FourDigits(U32(n));
    U32Truncates(n);
    if |b| >= 2 { TwoDigits(b[..2]); }
    if |b| >= 4 {
      FourDigits(b[..4]);
      assert b[..4][..2] == b[..2] && b[..4][2..4] == b[2..4];
    }
  }

  lemma TwoDigits(b: bytes)
    requires |b| == 2
    ensures Number(b) == b[0] as int * 256 + b[1]
  {
    assert b[..1][..0] == [];
    assert Number(b[..1]) == b[0] as int;
  }

  lemma FourDigits(b: bytes)
    requires |b| == 4
    ensures Number(b) == ReadU32(b)
  {
    TwoDigits(b[..2]);
    assert b[..3][..2] == b[..2] && b[..4] == b;
    assert Number(b[..3]) == Number(b[..2]) * 256 + b[2] as int;
  }
}
