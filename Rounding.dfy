/**
 * Exact integer versions of the two rounding operations the application applies to
 * quotients: `Math.round(n / d)` (round half up, i.e. floor(n/d + 1/2)) and
 * `Math.floor(n / d)`, both for a positive divisor and any integer numerator.
 */
module Rounding {

  /** `Math.round(n / d)`: the integer nearest to n/d, halves going up. */
  function RoundDiv(n: int, d: int): (r: int)
    requires d > 0
    ensures 2 * d * r - d <= 2 * n < 2 * d * r + d
  {
    var q := (2 * n + d) / (2 * d);
    var m := (2 * n + d) % (2 * d);
    assert 2 * n + d == 2 * d * q + m && 0 <= m < 2 * d;
    q
  }

  /** `Math.floor(n / d)`. */
  function FloorDiv(n: int, d: int): (r: int)
    requires d > 0
    ensures d * r <= n < d * r + d
  {
    n / d
  }

  /** For d > 0, d * x grows by at least d with each step of x. */
  lemma MulStep(d: int, x: int, y: int)
    requires d > 0 && x < y
    ensures d * x + d <= d * y
    decreases y - x
  {
    assert d * y == d * (y - 1) + d;
    if y - 1 > x {
      MulStep(d, x, y - 1);
    }
  }

  /** The contract pins the result down: any value meeting it is the result. */
  lemma RoundDivUnique(n: int, d: int, r: int)
    requires d > 0
    requires 2 * d * r - d <= 2 * n < 2 * d * r + d
    ensures r == RoundDiv(n, d)
  {
    var q := RoundDiv(n, d);
    if r < q {
      MulStep(2 * d, r, q);
    } else if r > q {
      MulStep(2 * d, q, r);
    }
  }

  /** Rounding never falls below flooring and exceeds it by at most one. */
  lemma FloorBelowRound(n: int, d: int)
    requires d > 0
    ensures FloorDiv(n, d) <= RoundDiv(n, d) <= FloorDiv(n, d) + 1
    ensures RoundDiv(n, d) == FloorDiv(n, d) <==> 2 * (n - d * FloorDiv(n, d)) < d
  {
    var f, r := FloorDiv(n, d), RoundDiv(n, d);
    if r < f {
      MulStep(d, r, f);
    }
    if r > f + 1 {
      MulStep(d, f + 1, r);
    }
    if r == f + 1 {
      assert d * r == d * f + d;
    }
  }
}
