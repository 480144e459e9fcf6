/** Go's 64-bit (and 32-bit) signed integers: wrap-around, truncating division and
    bitwise exclusive-or, written out over unbounded integers. */
module Int64 {

  const MAX: int := 0x7fff_ffff_ffff_ffff
  const MIN: int := -0x8000_0000_0000_0000
  const MODULUS: int := 0x1_0000_0000_0000_0000
  const MODULUS32: int := 0x1_0000_0000
  const MIN32: int := -0x8000_0000
  const MAX32: int := 0x7fff_ffff

  type int64 = x: int | -0x8000_0000_0000_0000 <= x <= 0x7fff_ffff_ffff_ffff
  type int32 = x: int | -0x8000_0000 <= x <= 0x7fff_ffff

  /** The 64-bit value that differs from `x` by a multiple of 2^64. */
  function Wrap(x: int): int64
    decreases Abs(2 * x + 1)
  {
    if x > MAX then Wrap(x - MODULUS) else if x < MIN then Wrap(x + MODULUS) else x
  }

  function Wrap32(x: int): int32
    decreases Abs(2 * x + 1)
  {
    if x > MAX32 then Wrap32(x - MODULUS32) else if x < MIN32 then Wrap32(x + MODULUS32) else x
  }

  function Abs(x: int): (r: int)
    ensures r >= 0 && (r == x || r == -x)
  {
    if x < 0 then -x else x
  }

  lemma {:induction false} WrapQuotient(x: int) returns (k: int)
    ensures x == Wrap(x) + k * MODULUS
    decreases Abs(2 * x + 1)
  {
    if x > MAX {
      k := WrapQuotient(x - MODULUS);
      k := k + 1;
    } else if x < MIN {
      k := WrapQuotient(x + MODULUS);
      k := k - 1;
    } else {
      k := 0;
    }
  }

  lemma {:induction false} Wrap32Quotient(x: int) returns (k: int)
    ensures x == Wrap32(x) + k * MODULUS32
    decreases Abs(2 * x + 1)
  {
    if x > MAX32 {
      k := Wrap32Quotient(x - MODULUS32);
      k := k + 1;
    } else if x < MIN32 {
      k := Wrap32Quotient(x + MODULUS32);
      k := k - 1;
    } else {
      k := 0;
    }
  }

  /** Values that differ by a multiple of the modulus wrap to the same word. */
  lemma WrapCongruent(x: int, y: int, k: int)
    requires x == y + k * MODULUS
    ensures Wrap(x) == Wrap(y)
  {
    var kx := WrapQuotient(x);
    var ky := WrapQuotient(y);
  }

  lemma Wrap32Congruent(x: int, y: int, k: int)
    requires x == y + k * MODULUS32
    ensures Wrap32(x) == Wrap32(y)
  {
    var kx := Wrap32Quotient(x);
    var ky := Wrap32Quotient(y);
  }

  lemma MulMonotone(a: int, b: int, m: int)
    requires a <= b && 0 <= m
    ensures a * m <= b * m
  {
  }

  lemma MulAssoc(a: int, b: int, c: int)
    ensures a * b * c == a * (b * c)
  {
  }

  /** Wrapping an operand before a linear operation does not show in the wrapped result. */
  lemma WrapLinear(a: int, k: int, b: int)
    ensures Wrap(Wrap(a) * k + b) == Wrap(a * k + b)
  {
    var j := WrapQuotient(a);
    assert a * k + b == Wrap(a) * k + b + (j * k) * MODULUS by {
      assert (j * MODULUS) * k == (j * k) * MODULUS;
    }
    WrapCongruent(a * k + b, Wrap(a) * k + b, j * k);
  }

  lemma Wrap32Sum(a: int, b: int)
    ensures Wrap32(Wrap32(a) + b) == Wrap32(a + b)
    ensures Wrap32(a + Wrap32(b)) == Wrap32(a + b)
  {
    var j := Wrap32Quotient(a);
    var k := Wrap32Quotient(b);
    Wrap32Congruent(a + b, Wrap32(a) + b, j);
    Wrap32Congruent(a + b, a + Wrap32(b), k);
  }

  /** Go's `/`: the quotient rounded toward zero. */
  function TruncDiv(x: int, y: int): (q: int)
    requires y != 0
    ensures x == q * y + TruncRem(x, y)
    ensures -Abs(x) <= q <= Abs(x)
  {
    TruncDivFacts(x, y);
    var q := Abs(x) / Abs(y);
    if (x < 0) == (y < 0) then q else -q
  }

  /** Go's `%`: what `/` leaves, with the sign of the dividend. */
  function TruncRem(x: int, y: int): (r: int)
    requires y != 0
    ensures -Abs(y) < r < Abs(y)
  {
    var r := Abs(x) % Abs(y);
    if x < 0 then -r else r
  }

  lemma TruncDivFacts(x: int, y: int)
    requires y != 0
    ensures var q := Abs(x) / Abs(y);
            var s := if (x < 0) == (y < 0) then q else -q;
            x == s * y + TruncRem(x, y) && 0 <= q <= Abs(x)
  {
    var n, m := Abs(x), Abs(y);
    var q := n / m;
    assert n == q * m + n % m;
    SignedProduct(q, y);
    MulMonotone(1, m, q);
  }

  lemma SignedProduct(q: int, y: int)
    ensures q * Abs(y) == (if y < 0 then (-q) * y else q * y) == Abs(y) * q
    ensures (-q) * y == -(q * y)
  {
  }

  /** The unsigned word that holds `x` in two's complement. */
  function Word(x: int64): (w: nat)
    ensures w < MODULUS
  {
    if x < 0 then x + MODULUS else x
  }

  function Pow2(n: nat): (p: nat)
    ensures p > 0
  {
    if n == 0 then 1 else 2 * Pow2(n - 1)
  }

  /** Exclusive-or of the low `n` bits. */
  function XorBits(n: nat, a: nat, b: nat): (r: nat)
    ensures r < Pow2(n)
  {
    if n == 0 then 0
    else 2 * XorBits(n - 1, a / 2, b / 2) + (a % 2 + b % 2) % 2
  }

  /** Go's `^` on int64. */
  function Xor(a: int64, b: int64): (r: int64)
  {
    Wrap(XorBits(64, Word(a), Word(b)))
  }

  /** The top bit of an exclusive-or is the exclusive-or of the top bits. */
  lemma {:induction false} XorTopBit(n: nat, a: nat, b: nat)
    requires n > 0 && a < Pow2(n) && b < Pow2(n)
    ensures XorBits(n, a, b) >= Pow2(n - 1) <==> (a >= Pow2(n - 1)) != (b >= Pow2(n - 1))
  {
    if n > 1 {
      XorTopBit(n - 1, a / 2, b / 2);
    } else {
      assert XorBits(1, a, b) == (a % 2 + b % 2) % 2;
      assert Pow2(0) == 1;
    }
  }

  lemma {:induction false} Pow2Of64()
    ensures Pow2(64) == MODULUS && Pow2(63) == -MIN
  {
    assert Pow2(8) == 256;
    Pow2Add(8, 8);
    Pow2Add(16, 16);
    Pow2Add(32, 32);
  }

  lemma {:induction false} Pow2Add(m: nat, n: nat)
    ensures Pow2(m + n) == Pow2(m) * Pow2(n)
  {
    if m > 0 {
      Pow2Add(m - 1, n);
    }
  }

  /** `(a ^ b) >= 0` in Go says that `a` and `b` have the same sign. */
  lemma XorSign(a: int64, b: int64)
    ensures Xor(a, b) >= 0 <==> (a < 0) == (b < 0)
  {
    Pow2Of64();
    XorTopBit(64, Word(a), Word(b));
    var x := XorBits(64, Word(a), Word(b));
    assert x < MODULUS;
    if x >= -MIN {
      WrapCongruent(x, x - MODULUS, 1);
    }
  }
}
