/** Exact decimal arithmetic of `BigDecimal`, on integers of minor units. */
module Money {

  function Abs(x: int): nat { if x < 0 then -x else x }

  /** `a.divide(b, 0, RoundingMode.UP)` for a positive divisor: the quotient
      rounded away from zero. */
  function DivideUp(a: int, b: int): (q: int)
    requires b > 0
  {
    if a >= 0 then (a + b - 1) / b else -((-a + b - 1) / b)
  }

  /** Euclidean division by a positive divisor, written out for the solver. */
  lemma DivMod(x: int, d: int)
    requires d > 0
    ensures x == (x / d) * d + x % d && 0 <= x % d < d
  {
  }

  lemma MulAtLeast(x: int, y: int)
    requires x >= 1 && y > 0
    ensures x * y >= y
  {
  }

  lemma MulAtMost(x: int, y: int)
    requires x <= 0 && y > 0
    ensures x * y <= 0
  {
  }

  /** For a positive dividend, DivideUp is the least number of b-sized steps
      that covers a; otherwise it is not positive. */
  lemma DivideUpBounds(a: int, b: int)
    requires b > 0
    ensures a > 0 ==> DivideUp(a, b) >= 1 && DivideUp(a, b) * b >= a && (DivideUp(a, b) - 1) * b < a
    ensures a <= 0 ==> DivideUp(a, b) <= 0
  {
    if a > 0 {
      var q := (a + b - 1) / b;
      DivMod(a + b - 1, b);
      assert q * b >= a;
      assert (q - 1) * b == q * b - b;
      if q <= 0 { MulAtMost(q, b); }
    } else if a < 0 {
      DivMod(-a + b - 1, b);
      var q := (-a + b - 1) / b;
      if q < 0 { MulAtMost(q, b); }
    }
  }

  /** HALF_UP rounding of a non-negative quotient, as an inequality on the
      product. */
  lemma HalfUpMagnitude(a: int, b: int)
    requires a >= 0 && b > 0
    ensures var q := (2 * a + b) / (2 * b);
      q >= 0 && -b < 2 * (q * b - a) <= b && (2 * (q * b - a) == b ==> q * b > a)
  {
    var q := (2 * a + b) / (2 * b);
    DivMod(2 * a + b, 2 * b);
    assert q * (2 * b) == 2 * (q * b);
    if q < 0 { MulAtMost(q, 2 * b); }
  }

  /** `a.divide(b, 0, RoundingMode.HALF_UP)`: the nearest integer to a / b,
      halves rounded away from zero. */
  function HalfUp(a: int, b: int): int
    requires b != 0
  {
    var q := (2 * Abs(a) + Abs(b)) / (2 * Abs(b));
    if (a >= 0) == (b > 0) then q else -q
  }

  /** A multiple of b is rounded to itself. */
  lemma HalfUpExactMagnitude(k: int, b: int)
    requires k >= 0 && b > 0
    ensures (2 * (k * b) + b) / (2 * b) == k
  {
    var m := 2 * b;
    var x := 2 * (k * b) + b;
    assert x == k * m + b;
    var q := x / m;
    var rr := x % m;
    DivMod(x, m);
    assert q * m + rr == k * m + b;
    var diff := q - k;
    assert diff * m == q * m - k * m;
    assert diff * m == b - rr;
    if diff >= 1 { MulAtLeast(diff, m); }
    if diff <= -1 { MulAtLeast(-diff, m); }
  }

  /** HALF_UP lands within half a unit of the exact quotient, and exactly on
      a half it moves away from zero. */
  lemma HalfUpNearest(a: int, b: int)
    requires b != 0
    ensures 2 * Abs(HalfUp(a, b) * b - a) <= Abs(b)
    ensures 2 * Abs(HalfUp(a, b) * b - a) == Abs(b) ==> Abs(HalfUp(a, b) * b) > Abs(a)
  {
    var A: int, B: int := Abs(a), Abs(b);
    var q: int := (2 * A + B) / (2 * B);
    HalfUpMagnitude(A, B);
    var r := HalfUp(a, b);
    if b > 0 {
      assert r * b == (if a >= 0 then q * B else -(q * B));
    } else {
      assert r * b == (if a >= 0 then q * B else -(q * B));
    }
  }

  lemma MulMono(x: int, y: int, c: int)
    requires x <= y && c > 0
    ensures x * c <= y * c
  {
    assert y * c - x * c == (y - x) * c;
  }

  /** A quotient a / b between 0 and n rounds to a value between 0 and n. */
  lemma HalfUpWithin(a: int, b: int, n: int)
    requires b > 0 && 0 <= a <= n * b
    ensures 0 <= HalfUp(a, b) <= n
  {
    var q := (2 * a + b) / (2 * b);
    HalfUpMagnitude(a, b);
    DivMod(2 * a + b, 2 * b);
    assert q * (2 * b) <= 2 * a + b;
    assert 2 * a + b < (n + 1) * (2 * b);
    if q > n { MulMono(n + 1, q, 2 * b); }
  }

  /** An exact quotient is not rounded. */
  lemma HalfUpExact(k: int, b: int)
    requires b != 0
    ensures HalfUp(k * b, b) == k
  {
    var B: int := Abs(b);
    var K: int := Abs(k);
    assert Abs(k * b) == K * B;
    HalfUpExactMagnitude(K, B);
  }

  /** The sum of a list of amounts (`reduce(ZERO, BigDecimal::add)`). */
  function Sum(xs: seq<int>): int {
    if xs == [] then 0 else Sum(xs[..|xs| - 1]) + xs[|xs| - 1]
  }
}
