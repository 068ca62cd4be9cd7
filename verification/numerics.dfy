/** The numeric primitives the scripts take from Python and numpy, on exact
    reals: `ceil`, round-half-to-even (`round`, `np.round`), rounding to two
    decimals, and the rounded square root of the EOQ formula. */
module Numerics {

  /** `np.ceil` / `math.ceil`: the least integer not below `x`. */
  function Ceil(x: real): (r: int)
    ensures x <= r as real < x + 1.0
  {
    -((-x).Floor)
  }

  /** `k` is the integer nearest `x`; an exact half goes to the even neighbour. */
  predicate IsRoundHalfEven(x: real, k: int) {
    var d := x - k as real;
    (-0.5 < d < 0.5) || ((d == 0.5 || d == -0.5) && k % 2 == 0)
  }

  /** Python's `round(x)` and numpy's `np.round(x)` (banker's rounding). */
  function RoundHalfEven(x: real): (k: int)
    ensures IsRoundHalfEven(x, k)
  {
    var f := x.Floor;
    var d := x - f as real;
    if d < 0.5 then f
    else if d > 0.5 then f + 1
    else if f % 2 == 0 then f
    else f + 1
  }

  /** There is only one nearest-integer-ties-to-even. */
  lemma RoundHalfEvenUnique(x: real, k1: int, k2: int)
    requires IsRoundHalfEven(x, k1) && IsRoundHalfEven(x, k2)
    ensures k1 == k2
  {
  }

  /** Rounding is monotone. */
  lemma RoundHalfEvenMonotone(x: real, y: real)
    requires x <= y
    ensures RoundHalfEven(x) <= RoundHalfEven(y)
  {
  }

  /** Rounding commutes with subtraction from an even integer. */
  lemma RoundHalfEvenReflect(n: int, x: real)
    requires n % 2 == 0
    ensures RoundHalfEven(n as real - x) == n - RoundHalfEven(x)
  {
    var k := RoundHalfEven(x);
    EvenDifference(n, k);
    assert IsRoundHalfEven(n as real - x, n - k);
    RoundHalfEvenUnique(n as real - x, RoundHalfEven(n as real - x), n - k);
  }

  lemma EvenDifference(n: int, k: int)
    requires n % 2 == 0
    ensures ((n - k) % 2 == 0) == (k % 2 == 0)
  {
    var m := n / 2;
    var j := k / 2;
    assert n == 2 * m;
    assert k == 2 * j + k % 2;
    assert n - k == 2 * (m - j - 1) + (2 - k % 2);
  }

  /** Python's `round(x, 2)` on an exact real. */
  function Round2(x: real): real {
    RoundHalfEven(100.0 * x) as real / 100.0
  }

  /** Rounding to two decimals commutes with `100 - x`: a rounded service
      level and a rounded stockout rate still add up to exactly 100. */
  lemma Round2Complement(x: real)
    ensures Round2(100.0 - x) == 100.0 - Round2(x)
  {
    assert 100.0 * (100.0 - x) == 10000 as real - 100.0 * x;
    RoundHalfEvenReflect(10000, 100.0 * x);
  }

  /** Two-decimal rounding keeps a value inside an interval with
      two-decimal end points. */
  lemma Round2Bounds(x: real, lo: int, hi: int)
    requires lo as real <= x <= hi as real
    ensures lo as real <= Round2(x) <= hi as real
  {
    RoundHalfEvenMonotone(100.0 * lo as real, 100.0 * x);
    RoundHalfEvenMonotone(100.0 * x, 100.0 * hi as real);
    assert RoundHalfEven(100.0 * lo as real) == 100 * lo by {
      RoundHalfEvenUnique(100.0 * lo as real, RoundHalfEven(100.0 * lo as real), 100 * lo);
    }
    assert RoundHalfEven(100.0 * hi as real) == 100 * hi by {
      RoundHalfEvenUnique(100.0 * hi as real, RoundHalfEven(100.0 * hi as real), 100 * hi);
    }
  }

  function Sq(a: real): real {
    a * a
  }

  lemma SqMonotone(a: real, b: real)
    requires 0.0 <= a <= b
    ensures Sq(a) <= Sq(b)
    ensures a < b ==> Sq(a) < Sq(b)
  {
    var c, d := b - a, b + a;
    assert Sq(b) - Sq(a) == c * d;
    if a < b {
      PositiveProduct(c, d);
    }
  }

  lemma PositiveProduct(c: real, d: real)
    requires c > 0.0 && d > 0.0
    ensures c * d > 0.0
  {
  }

  /** `k` is the integer nearest the square root of `x`, an exact half going
      to the even neighbour: `np.round(np.sqrt(x))`, stated without a square
      root. */
  predicate IsRoundSqrt(x: real, k: int) {
    && k >= 0
    && (k == 0 || Sq(k as real - 0.5) <= x)
    && x <= Sq(k as real + 0.5)
    && (x == Sq(k as real + 0.5) ==> k % 2 == 0)
    && (k > 0 && x == Sq(k as real - 0.5) ==> k % 2 == 0)
  }

  /** The least `r >= k` whose upper half-step square reaches `x`. */
  function SqrtSearch(x: real, k: nat): (r: nat)
    requires x >= 0.0
    requires k == 0 || Sq(k as real - 0.5) < x
    ensures r >= k
    ensures r == 0 || Sq(r as real - 0.5) < x
    ensures x <= Sq(r as real + 0.5)
    decreases x.Floor + 1 - k
  {
    if x <= Sq(k as real + 0.5) then k
    else
      assert Sq(k as real + 0.5) == (k * k) as real + k as real + 0.25;
      assert (k + 1) as real - 0.5 == k as real + 0.5;
      SqrtSearch(x, k + 1)
  }

  /** `np.round(np.sqrt(x))` for `x >= 0`, computed exactly. */
  function RoundSqrt(x: real): (k: int)
    requires x >= 0.0
    ensures IsRoundSqrt(x, k)
  {
    var k0 := SqrtSearch(x, 0);
    if x == Sq(k0 as real + 0.5) && k0 % 2 == 1 then
      SqMonotone(k0 as real + 0.5, k0 as real + 1.5);
      assert (k0 + 1) as real - 0.5 == k0 as real + 0.5;
      k0 + 1
    else
      k0
  }

  /** The rounded square root is unique. */
  lemma RoundSqrtUnique(x: real, k1: int, k2: int)
    requires IsRoundSqrt(x, k1) && IsRoundSqrt(x, k2)
    ensures k1 == k2
  {
    if k1 < k2 {
      SqMonotone(k1 as real + 0.5, k2 as real - 0.5);
    } else if k2 < k1 {
      SqMonotone(k2 as real + 0.5, k1 as real - 0.5);
    }
  }
}
