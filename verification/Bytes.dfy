/**
 Bytes as small integers, with the operators the wire formats use: exclusive or, and big-endian
 numbers (encoding/binary).
 */
module Bytes {

  type Byte = x: int | 0 <= x < 256

  const TWO32: nat := 0x1_0000_0000
  const TWO64: nat := 0x1_0000_0000_0000_0000

  // ---------------------------------------------------------------- exclusive or

  /** The low n bits of a ^ b. */
  function XorBits(a: nat, b: nat, n: nat): nat {
    if n == 0 then 0 else 2 * XorBits(a / 2, b / 2, n - 1) + if a % 2 == b % 2 then 0 else 1
  }

  function Pow2(n: nat): (p: nat)
    ensures p > 0
  {
    if n == 0 then 1 else 2 * Pow2(n - 1)
  }

  lemma {:induction false} XorBitsBound(a: nat, b: nat, n: nat)
    ensures XorBits(a, b, n) < Pow2(n)
    decreases n
  {
    if n > 0 {
      XorBitsBound(a / 2, b / 2, n - 1);
    }
  }

  lemma HalveTwice(half: nat, bit: nat)
    requires bit < 2
    ensures (2 * half + bit) / 2 == half && (2 * half + bit) % 2 == bit
  {
  }

  /** Exclusive or with the same value twice restores the bits. */
  lemma {:induction false} XorBitsTwice(a: nat, b: nat, n: nat)
    requires a < Pow2(n)
    ensures XorBits(XorBits(a, b, n), b, n) == a
    decreases n
  {
    if n > 0 {
      XorBitsTwice(a / 2, b / 2, n - 1);
      HalveTwice(XorBits(a / 2, b / 2, n - 1), if a % 2 == b % 2 then 0 else 1);
    }
  }

  function Xor(a: Byte, b: Byte): Byte {
    XorBitsBound(a, b, 8);
    assert Pow2(8) == 256 by { Pow2Eight(); }
    XorBits(a, b, 8)
  }

  lemma Pow2Eight()
    ensures Pow2(8) == 256
  {
    assert Pow2(2) == 4 && Pow2(4) == 16 && Pow2(6) == 64;
  }

  /** Bit k of a number. */
  function BitAt(a: nat, k: nat): nat {
    a / Pow2(k) % 2
  }

  lemma {:induction false} BitAtHalf(a: nat, k: nat)
    requires k > 0
    ensures BitAt(a, k) == BitAt(a / 2, k - 1)
  {
    DivideTwice(a, Pow2(k - 1));
  }

  lemma DivideTwice(a: nat, p: nat)
    requires p > 0
    ensures a / (2 * p) == a / 2 / p
  {
    var q, r := a / 2 / p, a / 2 % p;
    assert a / 2 == p * q + r;
    assert a == 2 * p * q + (2 * r + a % 2) && 2 * r + a % 2 < 2 * p;
    QuotientIs(a, 2 * p, q, 2 * r + a % 2);
  }

  lemma QuotientIs(a: nat, d: nat, q: nat, r: nat)
    requires a == d * q + r && r < d
    ensures a / d == q
  {
    assert d * (a / d - q) == r - a % d;
    FarFromZero(d, a / d - q);
  }

  lemma FarFromZero(d: nat, x: int)
    ensures x >= 1 ==> d * x >= d
    ensures x <= -1 ==> d * x <= -(d as int)
  {
  }

  lemma {:induction false} XorBitsAt(a: nat, b: nat, n: nat, k: nat)
    requires k < n
    ensures BitAt(XorBits(a, b, n), k) == if BitAt(a, k) == BitAt(b, k) then 0 else 1
    decreases n
  {
    var half, bit := XorBits(a / 2, b / 2, n - 1), if a % 2 == b % 2 then 0 else 1;
    HalveTwice(half, bit);
    if k > 0 {
      BitAtHalf(XorBits(a, b, n), k);
      BitAtHalf(a, k);
      BitAtHalf(b, k);
      XorBitsAt(a / 2, b / 2, n - 1, k - 1);
    }
  }

  /** Each bit of an exclusive or is set exactly when the bits of the two bytes differ. */
  lemma XorIsBitwise(a: Byte, b: Byte, k: nat)
    requires k < 8
    ensures BitAt(Xor(a, b), k) == 1 <==> BitAt(a, k) != BitAt(b, k)
  {
    XorBitsAt(a, b, 8, k);
  }

  lemma XorTwice(a: Byte, b: Byte)
    ensures Xor(Xor(a, b), b) == a
  {
    Pow2Eight();
    XorBitsTwice(a, b, 8);
  }

  // ---------------------------------------------------------------- big-endian numbers

  function Power256(k: nat): (p: nat)
    ensures p > 0
  {
    if k == 0 then 1 else 256 * Power256(k - 1)
  }

  lemma Powers()
    ensures Power256(0) == 1 && Power256(2) == 65536 && Power256(4) == TWO32 && Power256(8) == TWO64
  {
    assert Power256(2) == 256 * Power256(1) && Power256(1) == 256 * Power256(0);
    assert Power256(4) == 256 * Power256(3) && Power256(3) == 256 * Power256(2);
    assert Power256(6) == 256 * Power256(5) && Power256(5) == 256 * Power256(4);
    assert Power256(8) == 256 * Power256(7) && Power256(7) == 256 * Power256(6);
  }

  /** The number a byte string spells, most significant byte first. */
  function BigEndian(s: seq<Byte>): nat
    decreases |s|
  {
    if s == [] then 0 else 256 * BigEndian(s[..|s| - 1]) + s[|s| - 1]
  }

  /** The last k bytes of a number. */
  function PutBigEndian(n: nat, k: nat): (s: seq<Byte>)
    ensures |s| == k
  {
    if k == 0 then [] else PutBigEndian(n / 256, k - 1) + [n % 256]
  }

  lemma {:induction false} PutThenRead(n: nat, k: nat)
    requires n < Power256(k)
    ensures BigEndian(PutBigEndian(n, k)) == n
    decreases k
  {
    if k > 0 {
      PutThenRead(n / 256, k - 1);
      assert PutBigEndian(n, k)[..k - 1] == PutBigEndian(n / 256, k - 1);
    }
  }

  lemma {:induction false} ReadThenPut(s: seq<Byte>)
    ensures PutBigEndian(BigEndian(s), |s|) == s && BigEndian(s) < Power256(|s|)
    decreases |s|
  {
    if s != [] {
      var k := |s| - 1;
      ReadThenPut(s[..k]);
      var n := BigEndian(s);
      assert n / 256 == BigEndian(s[..k]) && n % 256 == s[k];
      assert s == s[..k] + [s[k]];
    }
  }

  /** Most significant byte first: each byte weighs 256 times the one behind it. */
  lemma {:induction false} BigEndianConcat(a: seq<Byte>, b: seq<Byte>)
    ensures BigEndian(a + b) == BigEndian(a) * Power256(|b|) + BigEndian(b)
    decreases |b|
  {
    if b == [] {
      assert a + b == a;
    } else {
      var k := |b| - 1;
      assert (a + b)[..|a + b| - 1] == a + b[..k];
      BigEndianConcat(a, b[..k]);
      Regroup(BigEndian(a), Power256(k));
    }
  }

  lemma Regroup(x: nat, p: nat)
    ensures 256 * (x * p) == x * (256 * p)
  {
  }

  lemma BigEndianOne(x: Byte)
    ensures BigEndian([x]) == x && BigEndian([]) == 0
  {
    assert [x][..0] == [];
  }
}
