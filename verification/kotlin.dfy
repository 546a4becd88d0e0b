/**
 * Kotlin/JVM integer conventions the carousel code relies on.
 *
 * Dafny's `%` and `/` are Euclidean; Kotlin's truncate toward zero, so the
 * remainder takes the sign of the dividend. `KRem` and `KDiv` restate the
 * Kotlin operators so the model can use them wherever the source does.
 */
module Kotlin {

  const INT_MIN: int := -0x8000_0000
  const INT_MAX: int := 0x7FFF_FFFF
  const LONG_MIN: int := -0x8000_0000_0000_0000
  const LONG_MAX: int := 0x7FFF_FFFF_FFFF_FFFF

  /** RecyclerView.NO_POSITION. */
  const NO_POSITION: int := -1

  predicate IsInt(x: int) { INT_MIN <= x <= INT_MAX }

  predicate IsLong(x: int) { LONG_MIN <= x <= LONG_MAX }

  /**
   * A pixel coordinate well inside the 32-bit range: differences and sums of
   * two such values never overflow and never reach `Int.MIN_VALUE`, the
   * sentinel the source uses for "no offset".
   */
  predicate IsPixel(x: int) { -0x4000_0000 < x < 0x4000_0000 }

  function Abs(x: int): (r: nat)
    ensures r == x || r == -x
  {
    if x < 0 then -x else x
  }

  /** Kotlin's `a % b`: the remainder truncated toward zero. */
  function KRem(a: int, b: int): (r: int)
    requires b != 0
    ensures Abs(r) < Abs(b)
    ensures a >= 0 ==> 0 <= r
    ensures a < 0 ==> r <= 0
  {
    if a >= 0 then a % b else -((-a) % b)
  }

  /** Kotlin's `a / b`: the quotient truncated toward zero. */
  function KDiv(a: int, b: int): (q: int)
    requires b != 0
    ensures a >= 0 && b > 0 ==> q == a / b
    ensures a < 0 && b > 0 ==> q == -((-a) / b)
  {
    if a >= 0 then a / b else -((-a) / b)
  }

  /** On a non-negative dividend and a positive divisor both conventions agree. */
  lemma KRemNonNegative(a: int, b: int)
    requires a >= 0 && b > 0
    ensures KRem(a, b) == a % b
    ensures 0 <= KRem(a, b) < b
  {
  }

  /** Euclidean division is unique: any quotient/remainder pair is the one Dafny computes. */
  lemma ModUnique(x: int, n: int, q: int, r: int)
    requires n > 0 && 0 <= r < n && x == q * n + r
    ensures x % n == r && x / n == q
  {
    var q', r' := x / n, x % n;
    var d := q - q';
    assert d * n == r' - r;
    assert d * n < n && -n < d * n;
  }

  /** Kotlin's remainder is congruent to its dividend. */
  lemma KRemCongruent(a: int, b: int)
    requires b > 0
    ensures KRem(a, b) % b == a % b
  {
    if a < 0 {
      if (-a) % b == 0 {
        NegExactCongruent(a, b);
      } else {
        NegInexactCongruent(a, b);
      }
    }
  }

  /** A negative multiple of `b` has Kotlin remainder 0, as it should. */
  lemma NegExactCongruent(a: int, b: int)
    requires a < 0 && b > 0 && (-a) % b == 0
    ensures KRem(a, b) % b == a % b
  {
    var q := (-a) / b;
    assert -a == q * b;
    ModUnique(a, b, -q, 0);
  }

  /** Otherwise Kotlin's remainder `-m` and Dafny's `b - m` differ by `b`. */
  lemma NegInexactCongruent(a: int, b: int)
    requires a < 0 && b > 0 && (-a) % b != 0
    ensures KRem(a, b) % b == a % b
  {
    var q := (-a) / b;
    var m := (-a) % b;
    assert -a == q * b + m;
    assert a == (-q - 1) * b + (b - m) by {
      assert (-q - 1) * b == -(q * b) - b;
    }
    ModUnique(a, b, -q - 1, b - m);
    ModUnique(-m, b, -1, b - m);
  }

  /**
   * The idiom `(t % n + n) % n` maps every integer, including negative ones,
   * into `[0, n)` and keeps it congruent to `t`.
   */
  lemma NormalizeInRange(t: int, n: int)
    requires n > 0
    ensures 0 <= KRem(KRem(t, n) + n, n) < n
    ensures KRem(KRem(t, n) + n, n) == t % n
  {
    var r := KRem(t, n);
    KRemNonNegative(r + n, n);
    KRemCongruent(t, n);
    if r >= 0 {
      ModUnique(r, n, 0, r);
      ModUnique(r + n, n, 1, r);
    } else {
      ModUnique(r + n, n, 0, r + n);
      ModUnique(r, n, -1, r + n);
    }
  }
}
