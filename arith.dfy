/** Integer facts the rounding proofs need and the solver does not find on
    its own. */
module Arith {

  /** Multiplying by a non-negative factor preserves order. */
  lemma MulMono(k: int, x: int, y: int)
    requires k >= 0 && x <= y
    ensures k * x <= k * y
  {
    assert k * y - k * x == k * (y - x);
  }

  /** Multiplying by a positive factor preserves strict order, so the factor
      can be cancelled. */
  lemma MulCancel(k: int, x: int, y: int)
    requires k > 0 && k * x < k * y
    ensures x < y
  {
    if y <= x {
      MulMono(k, y, x);
    }
  }

  /** Euclidean division by a positive divisor: the quotient times the
      divisor lies within one divisor below the dividend. */
  lemma DivBounds(n: int, d: int)
    requires d > 0
    ensures d * (n / d) <= n < d * (n / d) + d
  {
    assert n == d * (n / d) + n % d;
  }

  /** A mean of `n` values within `[lo, hi]`, rounded half up, stays within
      `[lo, hi]`: `r` is the rounding of `sum / n` when
      `2nr <= 2sum + n < 2nr + 2n`. */
  lemma RoundedMeanWithin(n: int, sum: int, r: int, lo: int, hi: int)
    requires n > 0 && n * lo <= sum <= n * hi
    requires 2 * (n * r) <= 2 * sum + n < 2 * (n * r) + 2 * n
    ensures lo <= r <= hi
  {
    if r > hi {
      assert n * (hi + 1) == n * hi + n;
      MulMono(n, hi + 1, r);
    }
    if r < lo {
      assert n * (r + 1) == n * r + n;
      MulMono(n, r + 1, lo);
    }
  }
}
