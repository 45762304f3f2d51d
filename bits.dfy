/**
 * Go's integer operators on unbounded integers: bitwise or, and and
 * complement in two's complement (as if the word were infinitely wide, which
 * agrees with Go's 64-bit int on every 64-bit value), single-bit tests, and
 * Go's truncating division and remainder.
 */
module Bits {

  /** The distance of x from the all-zero or all-one pattern, halved at each step. */
  function Mag(x: int): nat
  {
    if x >= 0 then x else -x - 1
  }

  lemma MagHalf(x: int)
    ensures Mag(x / 2) <= Mag(x)
    ensures Mag(x) > 0 ==> Mag(x / 2) < Mag(x)
  {
  }

  /** Bit k of x in two's complement: bit 0 is the lowest. */
  function Bit(x: int, k: nat): bool
    decreases k
  {
    if k == 0 then x % 2 == 1 else Bit(x / 2, k - 1)
  }

  function Pow2(k: nat): (p: nat)
    ensures p >= 1
  {
    if k == 0 then 1 else 2 * Pow2(k - 1)
  }

  /** Go's `a | b`. */
  function Or(a: int, b: int): int
    decreases Mag(a) + Mag(b)
  {
    if Mag(a) == 0 && Mag(b) == 0 then (if a < 0 || b < 0 then -1 else 0)
    else
      MagHalf(a); MagHalf(b);
      2 * Or(a / 2, b / 2) + (if a % 2 == 1 || b % 2 == 1 then 1 else 0)
  }

  /** Go's `a & b`. */
  function And(a: int, b: int): int
    decreases Mag(a) + Mag(b)
  {
    if Mag(a) == 0 && Mag(b) == 0 then (if a < 0 && b < 0 then -1 else 0)
    else
      MagHalf(a); MagHalf(b);
      2 * And(a / 2, b / 2) + (if a % 2 == 1 && b % 2 == 1 then 1 else 0)
  }

  /** Go's unary `^a`. */
  function Not(a: int): int
  {
    -a - 1
  }

  /** Halving 2x + e, for a bit e, gives back x with remainder e. */
  lemma HalfOf(x: int, e: int)
    requires e == 0 || e == 1
    ensures (2 * x + e) / 2 == x && (2 * x + e) % 2 == e
  {
  }

  /** Or is bit 0 or-ed onto the or of the halves, also once both words are 0 or -1. */
  lemma OrStep(a: int, b: int)
    ensures Or(a, b) == 2 * Or(a / 2, b / 2) + (if a % 2 == 1 || b % 2 == 1 then 1 else 0)
  {
    if Mag(a) == 0 && Mag(b) == 0 {
      assert a / 2 == a && b / 2 == b;
    }
  }

  /** And is bit 0 and-ed onto the and of the halves, also once both words are 0 or -1. */
  lemma AndStep(a: int, b: int)
    ensures And(a, b) == 2 * And(a / 2, b / 2) + (if a % 2 == 1 && b % 2 == 1 then 1 else 0)
  {
    if Mag(a) == 0 && Mag(b) == 0 {
      assert a / 2 == a && b / 2 == b;
    }
  }

  lemma {:induction false} OrBits(a: int, b: int, k: nat)
    ensures Bit(Or(a, b), k) == (Bit(a, k) || Bit(b, k))
    decreases k
  {
    OrStep(a, b);
    HalfOf(Or(a / 2, b / 2), if a % 2 == 1 || b % 2 == 1 then 1 else 0);
    if k > 0 {
      OrBits(a / 2, b / 2, k - 1);
    }
  }

  lemma {:induction false} AndBits(a: int, b: int, k: nat)
    ensures Bit(And(a, b), k) == (Bit(a, k) && Bit(b, k))
    decreases k
  {
    AndStep(a, b);
    HalfOf(And(a / 2, b / 2), if a % 2 == 1 && b % 2 == 1 then 1 else 0);
    if k > 0 {
      AndBits(a / 2, b / 2, k - 1);
    }
  }

  lemma {:induction false} NotBits(a: int, k: nat)
    ensures Bit(Not(a), k) == !Bit(a, k)
    decreases k
  {
    if k > 0 {
      assert Not(a) / 2 == Not(a / 2);
      NotBits(a / 2, k - 1);
    }
  }

  /** 1 << n has exactly bit n set. */
  lemma {:induction false} Pow2Bits(n: nat, k: nat)
    ensures Bit(Pow2(n), k) == (k == n)
    decreases n
  {
    if n == 0 {
      if k > 0 { ZeroBits(k - 1); }
    } else if k > 0 {
      assert Pow2(n) / 2 == Pow2(n - 1);
      Pow2Bits(n - 1, k - 1);
    }
  }

  lemma {:induction false} ZeroBits(k: nat)
    ensures !Bit(0, k)
    decreases k
  {
    if k > 0 { ZeroBits(k - 1); }
  }

  /** Masking with an even constant clears bit 0, so the result is never 1. */
  lemma AndEvenMask(x: int, m: int)
    requires m % 2 == 0
    ensures And(x, m) % 2 == 0
    ensures And(x, m) != 1
  {
  }

  /** `x & 1 == 1` tests bit 0. */
  lemma AndOne(x: int)
    ensures (And(x, 1) == 1) == Bit(x, 0)
  {
    if Mag(x) > 0 {
      assert And(x, 1) == 2 * And(x / 2, 0) + (if x % 2 == 1 then 1 else 0);
      AndZero(x / 2);
    }
  }

  lemma {:induction false} AndZero(x: int)
    ensures And(x, 0) == 0
    decreases Mag(x)
  {
    if Mag(x) > 0 {
      MagHalf(x);
      AndZero(x / 2);
    }
  }

  function Abs(x: int): (r: int)
    ensures r >= 0 && (r == x || r == -x)
  {
    if x >= 0 then x else -x
  }

  /** Go's `a / b`: the quotient truncated toward zero. */
  function TruncDiv(a: int, b: int): int
    requires b != 0
  {
    var q := Abs(a) / Abs(b);
    if (a < 0) == (b < 0) then q else -q
  }

  /** Go's `a % b`: the remainder takes the sign of the dividend. */
  function TruncMod(a: int, b: int): int
    requires b != 0
  {
    if a >= 0 then a % Abs(b) else -((-a) % Abs(b))
  }

  /** Go's defining identity a == (a / b) * b + a % b, and the remainder's sign and size. */
  lemma TruncDivMod(a: int, b: int)
    requires b != 0
    ensures a == TruncDiv(a, b) * b + TruncMod(a, b)
    ensures a >= 0 ==> 0 <= TruncMod(a, b) < Abs(b)
    ensures a < 0 ==> -Abs(b) < TruncMod(a, b) <= 0
  {
    var q := Abs(a) / Abs(b);
    var r := Abs(a) % Abs(b);
    assert Abs(a) == q * Abs(b) + r;
    if a < 0 && b < 0 {
      assert TruncDiv(a, b) * b == -(q * Abs(b));
    } else if a < 0 {
      assert TruncDiv(a, b) * b == -(q * Abs(b));
    } else if b < 0 {
      assert TruncDiv(a, b) * b == q * Abs(b);
    }
  }
}
