/** Fixed-scale decimal arithmetic as the money path uses it.

A decimal is an integer counted in some power-of-ten unit: money in micro-units
(six places), exchange rates in units of 1e-8.  Two rounding operations occur:
a division rounded to a number of places, and a rounding that drops places.
*/
module Decimal {

  const FX_ONE := 100_000_000

  function Abs(x: int): nat {
    if x < 0 then -x else x
  }

  /** Integer division that truncates toward zero (big.Int.Quo). */
  function Quo(n: int, d: int): int
    requires d > 0
  {
    if n < 0 then -(-n / d) else n / d
  }

  /** q is the integer nearest to n/d; a tie goes away from zero. */
  predicate Nearest(n: int, d: int, q: int)
  {
    && 2 * Abs(n - q * d) <= d
    && (2 * Abs(n - q * d) == d ==> Abs(n) < Abs(q * d))
  }

  /** Multiples of d are at least d apart, and change sign only through zero. */
  lemma Multiples(q: int, r: int, d: int)
    requires d > 0 && q < r
    ensures q * d + d <= r * d
    ensures q < 0 ==> q * d + d <= 0
    ensures r > 0 ==> r * d >= d
    ensures q >= 0 ==> q * d >= 0
    ensures r <= 0 ==> r * d <= 0
  {
    Product(r - q - 1, d);
    assert (r - q - 1) * d == r * d - q * d - d;
    if q >= 0 {
      Product(q, d);
    } else {
      Product(-q - 1, d);
      assert (-q - 1) * d == -(q * d) - d;
    }
    if r > 0 {
      Product(r - 1, d);
      assert (r - 1) * d == r * d - d;
    } else {
      Product(-r, d);
      assert (-r) * d == -(r * d);
    }
  }

  lemma Product(a: int, d: int)
    requires a >= 0 && d > 0
    ensures a * d >= 0
  {
  }

  /** The nearest integer is unique, so Nearest determines a rounding. */
  lemma NearestUnique(n: int, d: int, q: int, r: int)
    requires d > 0 && Nearest(n, d, q) && Nearest(n, d, r)
    ensures q == r
  {
    if q < r {
      Multiples(q, r, d);
    } else if r < q {
      Multiples(r, q, d);
    }
  }

  /** Rounding is monotone in the numerator. */
  lemma NearestMonotone(m: int, n: int, d: int, q: int, r: int)
    requires d > 0 && 0 <= m <= n && Nearest(m, d, q) && Nearest(n, d, r)
    ensures 0 <= q <= r
  {
    if q < 0 {
      Multiples(q, 0, d);
    }
    if r < q {
      Multiples(r, q, d);
    }
  }

  /** Division rounded to the unit of the result: truncate, then look at twice the remainder. */
  function DivRound(n: int, d: int): (q: int)
    requires d > 0
    ensures Nearest(n, d, q)
  {
    var q := Quo(n, d);
    var r := n - q * d;
    if 2 * Abs(r) < d then q
    else if n < 0 then q - 1
    else q + 1
  }

  /** Drop trailing places: truncate to one place more than wanted (unit p), add half away
      from zero, drop that place.  The unit kept is 10 * p. */
  function Round(v: int, p: int): (q: int)
    requires p > 0
  {
    var t := Quo(v, p);
    if t < 0 then -((-t + 5) / 10) else (t + 5) / 10
  }

  /** Truncating to one extra place before rounding loses nothing. */
  lemma RoundIsNearest(v: int, p: int)
    requires p > 0
    ensures Nearest(v, 10 * p, Round(v, p))
  {
    if v < 0 {
      RoundIsNearestNat(-v, p);
      assert Quo(v, p) == -(-v / p);
      assert Round(v, p) == -Round(-v, p);
      assert -Round(-v, p) * (10 * p) == -(Round(-v, p) * (10 * p));
    } else {
      RoundIsNearestNat(v, p);
    }
  }

  lemma RoundIsNearestNat(v: nat, p: int)
    requires p > 0
    ensures Nearest(v, 10 * p, Round(v, p))
  {
    var t, q := v / p, Round(v, p);
    assert v == t * p + v % p;
    Digits(v, p, t, v % p, q, t + 5 - 10 * q);
  }

  lemma Digits(v: int, p: int, t: int, e: int, q: int, f: int)
    requires p > 0 && v >= 0 && v == t * p + e && 0 <= e < p && 0 <= f <= 9 && t + 5 == 10 * q + f
    ensures Nearest(v, 10 * p, q)
  {
    var k := f - 5;
    assert v - q * (10 * p) == k * p + e by {
      assert t * p == (10 * q + k) * p;
    }
    assert -5 * p <= k * p <= 4 * p by {
      assert (k + 5) * p >= 0 && (4 - k) * p >= 0;
    }
  }

  /** Both roundings agree. */
  lemma RoundIsDivRound(v: int, p: int)
    requires p > 0
    ensures Round(v, p) == DivRound(v, 10 * p)
  {
    RoundIsNearest(v, p);
    NearestUnique(v, 10 * p, Round(v, p), DivRound(v, 10 * p));
  }
}
