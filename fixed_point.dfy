/** Integer division as Rust performs it on `i128`: the quotient is truncated
    toward zero. Dafny's own `/` is Euclidean (the remainder is never negative),
    which differs from Rust's when the dividend is negative. */
module FixedPoint {

  function Abs(x: int): (r: nat)
    ensures r == x || r == -x
  {
    if x < 0 then -x else x
  }

  /** Rust's `a / b` on signed integers (truncating toward zero). Rust panics on
      `b == 0`; every caller in the contracts proves `b != 0`. */
  function Quot(a: int, b: int): int
    requires b != 0
  {
    var m := Abs(a) / Abs(b);
    if (a < 0) == (b < 0) then m else -m
  }

  /** What truncation means: the quotient's magnitude is the floor of the
      magnitudes' ratio, and its sign is the product of the operands' signs
      (or it is zero). */
  lemma QuotBounds(a: int, b: int)
    requires b != 0
    ensures Abs(Quot(a, b)) * Abs(b) <= Abs(a) < (Abs(Quot(a, b)) + 1) * Abs(b)
    ensures Quot(a, b) == 0 || ((Quot(a, b) < 0) <==> ((a < 0) != (b < 0)))
  {
    DivBounds(Abs(a), Abs(b));
  }

  lemma DivBounds(n: nat, d: int)
    requires d > 0
    ensures 0 <= n / d && (n / d) * d <= n < (n / d + 1) * d
  {
    assert n == (n / d) * d + n % d;
  }

  /** On a non-negative dividend and a positive divisor, truncation and
      Euclidean division agree. */
  lemma QuotOfNonNegative(a: int, b: int)
    requires a >= 0 && b > 0
    ensures Quot(a, b) == a / b
    ensures 0 <= Quot(a, b) * b <= a < Quot(a, b) * b + b
  {
  }

  /** Dividing an exact multiple gives back the factor, whatever its sign. */
  lemma QuotOfMultiple(k: int, b: int)
    requires b > 0
    ensures Quot(k * b, b) == k
  {
    MulStrictLeft(b, k, 0);
    MulMonotone(0, Abs(k), b);
    assert Abs(k * b) == Abs(k) * b;
    DivOfMultiple(Abs(k), b);
  }

  lemma DivOfMultiple(n: nat, b: int)
    requires b > 0 && n * b >= 0
    ensures (n * b) / b == n
  {
    var q := (n * b) / b;
    DivBounds(n * b, b);
    MulStrictLeft(b, q, n + 1);
    MulStrictLeft(b, n, q + 1);
  }

  /** For a positive factor, multiplication preserves strict order in both
      directions. */
  lemma MulStrictLeft(b: int, x: int, y: int)
    requires b > 0
    ensures x * b < y * b <==> x < y
  {
    if x < y {
      assert y * b - x * b == (y - x) * b;
    } else {
      assert x * b - y * b == (x - y) * b;
    }
  }

  /** Multiplying by a non-negative factor preserves order. */
  lemma MulMonotone(x: int, y: int, k: int)
    requires x <= y && k >= 0
    ensures x * k <= y * k
  {
    assert y * k - x * k == (y - x) * k;
  }

  /** Truncating division by a positive divisor is monotone in the dividend. */
  lemma QuotMonotone(a: int, a': int, b: int)
    requires a <= a' && b > 0
    ensures Quot(a, b) <= Quot(a', b)
  {
    if 0 <= a {
      assert Quot(a, b) == a / b && Quot(a', b) == a' / b;
      DivMonotone(a, a', b);
    } else if a' < 0 {
      assert Quot(a, b) == -((-a) / b) && Quot(a', b) == -((-a') / b);
      DivMonotone(-a', -a, b);
    } else {
      DivBounds(-a, b);
      DivBounds(a', b);
      assert Quot(a, b) == -((-a) / b) <= 0;
      assert Quot(a', b) == a' / b >= 0;
    }
  }

  lemma DivMonotone(a: nat, a': nat, b: int)
    requires a <= a' && b > 0
    ensures a / b <= a' / b
  {
    DivBounds(a, b);
    DivBounds(a', b);
    MulStrictLeft(b, a / b, a' / b + 1);
  }

  /** Truncating division of a non-negative value never exceeds `c` when the
      dividend is at most `c * b`. */
  lemma QuotAtMost(a: int, b: int, c: int)
    requires 0 <= a <= c * b && b > 0
    ensures Quot(a, b) <= c
  {
    QuotMonotone(a, c * b, b);
    QuotOfMultiple(c, b);
  }

  /** And it reaches at least `c` when the dividend is at least `c * b`. */
  lemma QuotAtLeast(a: int, b: int, c: int)
    requires c * b <= a && b > 0
    ensures c <= Quot(a, b)
  {
    QuotMonotone(c * b, a, b);
    QuotOfMultiple(c, b);
  }
}
