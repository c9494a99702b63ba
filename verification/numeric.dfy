/**
 * The two pieces of JavaScript arithmetic the tutor uses on ratios of
 * integer counts: `Math.round(p / q)` and the index
 * `Math.floor(Math.random() * n)` drawn from a value of `Math.random()`.
 */
module Numeric {

  /**
   * `Math.round(p / q)` for a positive denominator: the integer nearest to
   * `p / q`, with halves rounded up (towards positive infinity).
   */
  function RoundDiv(p: int, q: int): (r: int)
    requires q > 0
    ensures q * (2 * r - 1) <= 2 * p < q * (2 * r + 1)
  {
    var r := (2 * p + q) / (2 * q);
    assert 2 * p + q == (2 * q) * r + (2 * p + q) % (2 * q);
    r
  }

  lemma MulCancel(q: int, a: int, b: int)
    requires q > 0 && q * a < q * b
    ensures a < b
  {
  }

  /** A ratio that lies between two integers rounds to a value between them. */
  lemma RoundDivBetween(p: int, q: int, lo: int, hi: int)
    requires q > 0
    requires lo * q <= p <= hi * q
    ensures lo <= RoundDiv(p, q) <= hi
  {
    var r := RoundDiv(p, q);
    assert q * (2 * r - 1) < q * (2 * hi + 1);
    MulCancel(q, 2 * r - 1, 2 * hi + 1);
    assert q * (2 * lo - 1) < q * (2 * r + 1);
    MulCancel(q, 2 * lo - 1, 2 * r + 1);
  }

  /** Rounding `100 * k / n` for `0 <= k <= n` gives a percentage in [0, 100]. */
  lemma PercentInRange(k: nat, n: nat)
    requires 0 < n && k <= n
    ensures 0 <= RoundDiv(100 * k, n) <= 100
  {
    RoundDivBetween(100 * k, n, 0, 100);
  }

  /**
   * `Math.floor(random * n)` for a value `random` of `Math.random()`, which
   * lies in [0, 1): always a valid index into a list of `n` elements.
   */
  function RandomIndex(random: real, n: nat): (i: nat)
    requires 0.0 <= random < 1.0 && n > 0
    ensures i < n
  {
    var x := random * (n as real);
    assert 0.0 <= x < n as real by {
      assert (1.0 - random) * (n as real) > 0.0;
    }
    x.Floor
  }

  /** Every index is drawn by some value of `Math.random()`: namely by `i / n`. */
  lemma RandomIndexReaches(i: nat, n: nat)
    requires i < n
    ensures 0.0 <= (i as real) / (n as real) < 1.0
    ensures RandomIndex((i as real) / (n as real), n) == i
  {
    var r := (i as real) / (n as real);
    assert r * (n as real) == i as real;
  }
}
