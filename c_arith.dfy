/** Signed integer arithmetic as C performs it (ISO C99, section 6.5.5):
    `/` truncates toward zero and `%` takes the sign of the dividend.
    Every divisor in the watchface is a positive constant, so both
    operations are defined here for positive divisors only. */
module CArith {

  const INT32_MIN: int := -0x8000_0000
  const INT32_MAX: int := 0x7FFF_FFFF

  /** The value is representable in `int32_t` (and in a 32-bit `int`). */
  predicate IsInt32(x: int) {
    INT32_MIN <= x <= INT32_MAX
  }

  /** C's `a / d` for `d > 0`: the quotient rounded toward zero. */
  function Div(a: int, d: int): (q: int)
    requires d > 0
    ensures a >= 0 ==> q == a / d
    ensures a >= 0 ==> 0 <= d * q <= a < d * q + d
    ensures a < 0 ==> d * q - d < a <= d * q <= 0
  {
    if a >= 0 then
      FloorBounds(a, d);
      a / d
    else
      FloorBounds(-a, d);
      assert d * -((-a) / d) == -(d * ((-a) / d));
      -((-a) / d)
  }

  /** C's `a % d` for `d > 0`: what is left after the truncated quotient. */
  function Rem(a: int, d: int): (r: int)
    requires d > 0
    ensures a == d * Div(a, d) + r
    ensures a >= 0 ==> r == a % d
    ensures -d < r < d
    ensures a >= 0 ==> r >= 0
    ensures a <= 0 ==> r <= 0
    ensures r % d == a % d
  {
    var q := Div(a, d);
    ModMultiple(a, d, q);
    if a >= 0 then FloorBounds(a, d); a - d * q else a - d * q
  }

  /** Euclidean quotient and remainder of a non-negative dividend. */
  lemma FloorBounds(a: int, d: int)
    requires a >= 0 && d > 0
    ensures a == d * (a / d) + a % d && 0 <= a % d < d
    ensures 0 <= d * (a / d) <= a < d * (a / d) + d
    ensures a / d >= 0
  {
  }

  lemma MulNegative(d: int, m: int)
    requires d > 0 && m < 0
    ensures d * m <= -d
    decreases -m
  {
    assert d * m == d * (m + 1) - d;
    if m + 1 < 0 {
      MulNegative(d, m + 1);
    }
  }

  lemma MulPositive(d: int, m: int)
    requires d > 0 && m > 0
    ensures d * m >= d
  {
    assert d * m == d * (m - 1) + d;
    if m - 1 > 0 {
      MulPositive(d, m - 1);
    }
  }

  /** A decomposition `a == d * k + r` with `0 <= r < d` is the Euclidean one. */
  lemma ModUnique(a: int, d: int, k: int, r: int)
    requires d > 0 && a == d * k + r && 0 <= r < d
    ensures a % d == r
  {
    var m := a / d - k;
    assert d * m == r - a % d by {
      assert a == d * (a / d) + a % d;
      assert d * m == d * (a / d) - d * k;
    }
    if m > 0 {
      MulPositive(d, m);
    } else if m < 0 {
      MulNegative(d, m);
    }
  }

  /** Subtracting a multiple of `d` does not change the (Euclidean) residue. */
  lemma ModMultiple(a: int, d: int, q: int)
    requires d > 0
    ensures (a - d * q) % d == a % d
  {
    var r := a % d;
    assert a == d * (a / d) + r;
    assert a - d * q == d * (a / d - q) + r;
    ModUnique(a - d * q, d, a / d - q, r);
  }
}
