/**
 Base-128 numbers (readVarint in internal/grpcx/decode.go): seven bits a byte, least significant
 first, at most ten bytes and 64 bits. Setting bits above the ones already read is written as
 adding them.
 */
module Varint {
  import opened Bytes

  const MAX_VARINT_BYTES := 10

  datatype Number = Number(value: nat, used: nat) | Bad

  /** The number at the front of b, if i bytes of it came before. */
  function From(b: seq<Byte>, i: nat): (r: Number)
    ensures r.Number? ==> 1 <= r.used <= |b|
    decreases |b|
  {
    if b == [] || i >= MAX_VARINT_BYTES then Bad
    else if b[0] < 128 then if i == 9 && b[0] > 1 then Bad else Number(b[0], 1)
    else
      var rest := From(b[1..], i + 1);
      if rest.Bad? then Bad else Number(b[0] - 128 + 128 * rest.value, rest.used + 1)
  }

  function Read(b: seq<Byte>): (r: Number)
    ensures r.Number? ==> 1 <= r.used <= |b|
  {
    From(b, 0)
  }

  function Power128(i: nat): (p: nat)
    ensures p > 0
  {
    if i == 0 then 1 else 128 * Power128(i - 1)
  }

  /** What byte i contributes. */
  function Weighted(x: Byte, i: nat): nat {
    x % 128 * Power128(i)
  }

  /** readVarint. */
  method ReadVarint(b: seq<Byte>) returns (r: Number)
    ensures r == Read(b)
  {
    var v: nat, i: nat := 0, 0;
    while i < |b| && i < MAX_VARINT_BYTES
      invariant 0 <= i <= |b| && i <= MAX_VARINT_BYTES
      invariant Read(b) == Shifted(From(b[i..], i), v, i)
    {
      var x := b[i];
      FromStep(b, i, v);
      v := v + Weighted(x, i);
      if x < 128 {
        if i == 9 && x > 1 {
          return Bad;
        }
        return Number(v, i + 1);
      }
      i := i + 1;
    }
    return Bad;
  }

  /** A number read behind i bytes that spelled v. */
  function Shifted(r: Number, v: nat, i: nat): Number {
    if r.Bad? then Bad else Number(v + r.value * Power128(i), r.used + i)
  }

  lemma FromStep(b: seq<Byte>, i: nat, v: nat)
    requires i < |b| && i < MAX_VARINT_BYTES
    ensures b[i] < 128 ==>
      Shifted(From(b[i..], i), v, i)
      == if i == 9 && b[i] > 1 then Bad else Number(v + Weighted(b[i], i), i + 1)
    ensures b[i] >= 128 ==>
      Shifted(From(b[i..], i), v, i) == Shifted(From(b[i + 1..], i + 1), v + Weighted(b[i], i), i + 1)
  {
    assert b[i..][0] == b[i] && b[i..][1..] == b[i + 1..];
    var rest := From(b[i + 1..], i + 1);
    if b[i] >= 128 && rest.Number? {
      Distribute(b[i] - 128, rest.value, Power128(i));
    }
  }

  lemma Distribute(low: nat, high: nat, p: nat)
    ensures (low + 128 * high) * p == low * p + high * (128 * p)
  {
  }

  // ---------------------------------------------------------------- encoding

  function Put(v: nat): (b: seq<Byte>)
    ensures |b| >= 1
  {
    if v < 128 then [v] else [128 + v % 128] + Put(v / 128)
  }

  /** How large a number may still be after i bytes. */
  function Limit(i: nat): nat
    requires i <= 9
    decreases 9 - i
  {
    if i == 9 then 2 else 128 * Limit(i + 1)
  }

  lemma LimitIs64Bits()
    ensures Limit(0) == TWO64
  {
    assert Limit(7) == 128 * Limit(8) && Limit(8) == 128 * Limit(9);
    assert Limit(5) == 128 * Limit(6) && Limit(6) == 128 * Limit(7);
    assert Limit(3) == 128 * Limit(4) && Limit(4) == 128 * Limit(5);
    assert Limit(1) == 128 * Limit(2) && Limit(2) == 128 * Limit(3);
    assert Limit(0) == 128 * Limit(1);
  }

  lemma {:induction false} FromPut(v: nat, rest: seq<Byte>, i: nat)
    requires i <= 9 && v < Limit(i)
    ensures From(Put(v) + rest, i) == Number(v, |Put(v)|)
    decreases 9 - i
  {
    if v >= 128 {
      FromPut(v / 128, rest, i + 1);
      assert (Put(v) + rest)[1..] == Put(v / 128) + rest;
    }
  }

  /** Every 64-bit number is read back from its encoding, whatever follows. */
  lemma RoundTrip(v: nat, rest: seq<Byte>)
    requires v < TWO64
    ensures Read(Put(v) + rest) == Number(v, |Put(v)|)
  {
    LimitIs64Bits();
    FromPut(v, rest, 0);
  }

  lemma {:induction false} FromBound(b: seq<Byte>, i: nat)
    requires i <= 9 && From(b, i).Number?
    ensures From(b, i).value < Limit(i) && From(b, i).used <= MAX_VARINT_BYTES - i
    decreases 9 - i
  {
    if b[0] >= 128 && i < 9 {
      FromBound(b[1..], i + 1);
    } else if i < 9 {
      LimitGrows(i);
    }
  }

  lemma {:induction false} LimitGrows(i: nat)
    requires i < 9
    ensures Limit(i) >= 256
    decreases 9 - i
  {
    if i < 8 {
      LimitGrows(i + 1);
    } else {
      assert Limit(8) == 128 * Limit(9);
    }
  }

  /** Whatever is read fits 64 bits, and took at most ten bytes. */
  lemma ReadsFit(b: seq<Byte>)
    requires Read(b).Number?
    ensures Read(b).value < TWO64 && Read(b).used <= MAX_VARINT_BYTES
  {
    LimitIs64Bits();
    FromBound(b, 0);
  }

  /** The value of n groups of seven bits, the first one least significant. */
  function Groups(b: seq<Byte>, n: nat): nat
    requires n <= |b|
  {
    if n == 0 then 0 else Groups(b, n - 1) + b[n - 1] % 128 * Power128(n - 1)
  }

  /** The first byte of b at or behind i that ends a number, with at most ten bytes in all. */
  ghost predicate EndsAt(b: seq<Byte>, n: nat) {
    0 < n <= |b| && n <= 10 && b[n - 1] < 128 && forall j | 0 <= j < n - 1 :: b[j] >= 128
  }

  lemma {:induction false} GroupsStep(b: seq<Byte>, n: nat)
    requires 0 < n <= |b|
    ensures Groups(b, n) == b[0] % 128 + 128 * Groups(b[1..], n - 1)
    decreases n
  {
    if n > 1 {
      GroupsStep(b, n - 1);
      assert b[1..][n - 2] == b[n - 1];
      Scale(b[n - 1] % 128, Power128(n - 2));
    }
  }

  lemma Scale(x: nat, p: nat)
    ensures 128 * (x * p) == x * (128 * p)
  {
  }

  lemma {:induction false} FromValue(b: seq<Byte>, i: nat)
    requires i <= 10
    ensures
      var r := From(b, i);
      r.Number? ==>
        && r.used + i <= 10 && (forall j | 0 <= j < r.used - 1 :: b[j] >= 128) && b[r.used - 1] < 128
        && (r.used + i == 10 ==> b[r.used - 1] <= 1) && r.value == Groups(b, r.used)
    decreases |b|
  {
    if b != [] && i < 10 {
      GroupsStep(b, 1);
      if b[0] >= 128 {
        FromValue(b[1..], i + 1);
        var r := From(b, i);
        if r.Number? {
          GroupsStep(b, r.used);
          assert forall j | 0 < j < |b| :: b[j] == b[1..][j - 1];
        }
      }
    }
  }

  lemma {:induction false} FromFinds(b: seq<Byte>, i: nat, n: nat)
    requires 0 < n <= |b| && n + i <= 10 && b[n - 1] < 128 && (n + i == 10 ==> b[n - 1] <= 1)
    requires forall j | 0 <= j < n - 1 :: b[j] >= 128
    ensures From(b, i).Number? && From(b, i).used == n
    decreases n
  {
    if n > 1 {
      assert b[0] >= 128;
      FromFinds(b[1..], i + 1, n - 1);
    }
  }

  /** A number is read exactly when one of the first ten bytes is the first below 128, and below 2 if it is the tenth;
      the number is the base-128 value of the bytes up to there. */
  lemma ReadExactly(b: seq<Byte>)
    ensures forall n: nat | EndsAt(b, n) && (n == 10 ==> b[n - 1] <= 1) :: Read(b) == Number(Groups(b, n), n)
    ensures Read(b).Number? ==> EndsAt(b, Read(b).used)
    ensures Read(b).Bad? <==> forall n: nat | EndsAt(b, n) :: n == 10 && b[n - 1] > 1
  {
    FromValue(b, 0);
    forall n: nat | EndsAt(b, n) && (n == 10 ==> b[n - 1] <= 1) ensures Read(b) == Number(Groups(b, n), n) {
      FromFinds(b, 0, n);
    }
  }
}
