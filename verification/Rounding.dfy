/** `Decimal.quantize` on exact fractions: the integer nearest to `n / d`, in units of the quantum. */
module Rounding {

  function Abs(x: int): nat {
    if x < 0 then -x else x
  }

  /** ROUND_HALF_EVEN, the decimal context's default. */
  function HalfEven(n: int, d: int): int
    requires d > 0
  {
    var q, rem := n / d, n % d;
    if 2 * rem < d || (2 * rem == d && q % 2 == 0) then q else q + 1
  }

  /** ROUND_HALF_UP: ties go away from zero. */
  function HalfUp(n: int, d: int): int
    requires d > 0
  {
    var q, rem := n / d, n % d;
    if 2 * rem < d || (2 * rem == d && n < 0) then q else q + 1
  }

  /** The nearest integer, the even one of two nearest: rounding is the only such choice. */
  lemma HalfEvenIff(n: int, d: int, r: int)
    requires d > 0
    ensures r == HalfEven(n, d) <==> 2 * Abs(r * d - n) < d || (2 * Abs(r * d - n) == d && r % 2 == 0)
  {
    Bracket(n, d, r);
  }

  /** The nearest integer, the one farther from zero of two nearest. */
  lemma HalfUpIff(n: int, d: int, r: int)
    requires d > 0
    ensures r == HalfUp(n, d) <==> 2 * Abs(r * d - n) < d || (2 * Abs(r * d - n) == d && Abs(n) < Abs(r * d))
  {
    Bracket(n, d, r);
    QuotientSign(n, d);
    var q, rem, p := n / d, n % d, r * d;
    if r == q {
      assert p == n - rem;
    } else if r == q + 1 {
      assert p == n + d - rem;
    }
  }

  lemma QuotientSign(n: int, d: int)
    requires d > 0
    ensures 0 <= n ==> 0 <= n - n % d
    ensures n < 0 ==> n - n % d + d <= 0
  {
    var q := n / d;
    assert n == q * d + n % d;
    if 0 <= n {
      Scale(0, q, d);
    } else {
      Scale(q + 1, 0, d);
      assert (q + 1) * d == q * d + d;
    }
  }

  /** How far `r` lies from the fraction, by the distance of `r` from the quotient. */
  lemma Bracket(n: int, d: int, r: int)
    requires d > 0
    ensures var rem := n % d;
            && n == n / d * d + rem && 0 <= rem < d
            && (r == n / d ==> r * d - n == -rem)
            && (r == n / d + 1 ==> r * d - n == d - rem)
            && (r < n / d ==> r * d - n <= -d - rem)
            && (r > n / d + 1 ==> r * d - n >= 2 * d - rem)
  {
    var q := n / d;
    assert n == q * d + n % d;
    assert (r - q) * d == r * d - q * d;
    if r < q { Scale(r - q, -1, d); }
    if r > q + 1 { Scale(2, r - q, d); }
  }

  lemma Scale(a: int, b: int, d: int)
    requires a <= b && d >= 0
    ensures a * d <= b * d
  {
  }

  /** Rounding keeps the order of fractions, whatever their denominators. */
  lemma HalfEvenMonotone(n: int, d: int, m: int, e: int)
    requires d > 0 && e > 0 && n * e <= m * d
    ensures HalfEven(n, d) <= HalfEven(m, e)
  {
    hide HalfEven;
    var r, s := HalfEven(n, d), HalfEven(m, e);
    if s < r {
      HalfEvenIff(n, d, r);
      HalfEvenIff(m, e, s);
      // r*d - n <= d/2 and m - s*e <= e/2, so (2r - 1)*d*e <= 2*n*e <= 2*m*d <= (2s + 1)*d*e
      Scale(2 * r * d - d, 2 * n, e);
      Scale(2 * m, 2 * s * e + e, d);
      Midway(n, d, m, e, r, s);
    }
  }

  /** With distinct results both sides must sit on one tie, which has only one even neighbour. */
  lemma Midway(n: int, d: int, m: int, e: int, r: int, s: int)
    requires d > 0 && e > 0 && n * e <= m * d && s < r
    requires 2 * r * d - d <= 2 * n && 2 * m <= 2 * s * e + e
    ensures r == s + 1 && 2 * r * d - d == 2 * n && 2 * m == 2 * s * e + e
  {
    var de := d * e;
    Scale(2 * r * d - d, 2 * n, e);
    Scale(2 * m, 2 * s * e + e, d);
    OddMultiple(r, d, e);
    OddMultiple(s + 1, e, d);
    assert 2 * n * e <= 2 * m * d;
    if s + 1 < r {
      StrictScale(2 * s + 1, 2 * r - 1, de);
    }
    if 2 * r * d - d < 2 * n { StrictScale(2 * r * d - d, 2 * n, e); }
    if 2 * m < 2 * s * e + e { StrictScale(2 * m, 2 * s * e + e, d); }
  }

  lemma OddMultiple(r: int, d: int, e: int)
    ensures (2 * r * d - d) * e == (2 * r - 1) * (d * e)
    ensures 2 * r * d - d == 2 * (r - 1) * d + d
    ensures d * e == e * d
  {
    var x := 2 * r - 1;
    assert 2 * r * d - d == x * d;
    assert x * d * e == x * (d * e);
  }

  lemma StrictScale(a: int, b: int, d: int)
    requires a < b && d > 0
    ensures a * d < b * d
  {
  }

  lemma HalfEvenOfWhole(k: int, d: int)
    requires d > 0
    ensures HalfEven(k * d, d) == k
  {
    HalfEvenIff(k * d, d, k);
  }

  /** Rounding cannot move a fraction across an integer. */
  lemma HalfEvenBound(n: int, d: int, k: int)
    requires d > 0
    ensures n <= k * d ==> HalfEven(n, d) <= k
    ensures k * d <= n ==> k <= HalfEven(n, d)
  {
    HalfEvenOfWhole(k, d);
    if n <= k * d { HalfEvenMonotone(n, d, k * d, d) by { Scale(n, k * d, d); } }
    if k * d <= n { HalfEvenMonotone(k * d, d, n, d) by { Scale(k * d, n, d); } }
  }

  /** The same for rounding half up. */
  lemma HalfUpBound(n: int, d: int, k: int)
    requires d > 0
    ensures n <= k * d ==> HalfUp(n, d) <= k
    ensures k * d <= n ==> k <= HalfUp(n, d)
  {
    hide HalfUp;
    var r := HalfUp(n, d);
    HalfUpIff(n, d, r);
    assert (k + 1) * d == k * d + d && (k - 1) * d == k * d - d;
    if k < r { Scale(k + 1, r, d); HalfUpIff(n, d, k); }
    if r < k { Scale(r, k - 1, d); HalfUpIff(n, d, k); }
  }

  // ---------- rounding exact reals ----------

  /** ROUND_HALF_EVEN of a value that no table stores as a fraction. */
  function Nearest(x: real): int {
    var d := x - x.Floor as real;
    if d < 0.5 || (d == 0.5 && x.Floor % 2 == 0) then x.Floor else x.Floor + 1
  }

  /** The nearest integer, the even one of two nearest. */
  lemma NearestIff(x: real, r: int)
    ensures r == Nearest(x) <==>
        -0.5 < r as real - x < 0.5 || ((r as real - x == 0.5 || x - r as real == 0.5) && r % 2 == 0)
  {
    if r < x.Floor {
      assert (r as real) <= (x.Floor - 1) as real;
    } else if r > x.Floor + 1 {
      assert (r as real) >= (x.Floor + 2) as real;
    }
  }

  lemma NearestBound(x: real, k: int)
    ensures x <= k as real ==> Nearest(x) <= k
    ensures k as real <= x ==> k <= Nearest(x)
  {
  }

  /** On fractions it is the rounding of fractions. */
  lemma NearestOfFraction(n: int, d: int)
    requires d > 0
    ensures Nearest(n as real / d as real) == HalfEven(n, d)
  {
    hide *;
    var x, r := n as real / d as real, HalfEven(n, d);
    HalfEvenIff(n, d, r);
    NearestIff(x, r);
    Distances(x, n, d, r);
  }

  /** How far an integer is from a fraction, measured in reals and in multiples of the denominator. */
  lemma Distances(x: real, n: int, d: int, r: int)
    requires d > 0 && x == n as real / d as real
    ensures -0.5 < r as real - x < 0.5 <==> 2 * Abs(r * d - n) < d
    ensures r as real - x == 0.5 || x - r as real == 0.5 <==> 2 * Abs(r * d - n) == d
  {
    hide *;
    var k := r * d - n;
    assert x * d as real == n as real;
    Spread(r, x, d, n);
    Scaled(r as real - x, d as real, k as real);
    Halves(k, d);
  }

  lemma Halves(k: int, d: int)
    requires d > 0
    ensures -0.5 * d as real < k as real < 0.5 * d as real <==> 2 * Abs(k) < d
    ensures k as real == 0.5 * d as real || -(k as real) == 0.5 * d as real <==> 2 * Abs(k) == d
  {
  }

  lemma Spread(r: int, x: real, d: int, n: int)
    requires x * d as real == n as real
    ensures (r as real - x) * d as real == (r * d - n) as real
  {
    assert (r as real - x) * d as real == r as real * d as real - x * d as real;
    assert r as real * d as real == (r * d) as real;
  }

  lemma Scaled(e: real, d: real, product: real)
    requires d > 0.0 && e * d == product
    ensures e < 0.5 <==> product < 0.5 * d
    ensures -0.5 < e <==> -0.5 * d < product
    ensures e == 0.5 <==> product == 0.5 * d
    ensures -e == 0.5 <==> -product == 0.5 * d
  {
    Sign(0.5 - e, d, 0.5 * d - product) by { assert (0.5 - e) * d == 0.5 * d - e * d; }
    Sign(e + 0.5, d, product + 0.5 * d) by { assert (e + 0.5) * d == e * d + 0.5 * d; }
  }

  lemma Sign(u: real, d: real, product: real)
    requires d > 0.0 && u * d == product
    ensures u > 0.0 <==> product > 0.0
    ensures u == 0.0 <==> product == 0.0
  {
    if u < 0.0 { assert (-u) * d > 0.0; }
  }
}
