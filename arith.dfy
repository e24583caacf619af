/**
 * Percentages as the source computes them: `int(part / total * 100)` on
 * exact integers, and `part / total * 100` kept as an exact rational.
 */
module Percentages {

  /**
   * `int(part / total * 100)` for `0 <= part <= total`, `total > 0`, as
   * the floor of the exact quotient: at most 100, and 100 only for the whole.
   */
  function FloorPercent(part: nat, total: nat): (p: nat)
    requires 0 < total && part <= total
    ensures p <= 100
    ensures p == 100 <==> part == total
  {
    QuotientBounds(part, total);
    part * 100 / total
  }

  lemma QuotientBounds(part: nat, total: nat)
    requires 0 < total && part <= total
    ensures part * 100 / total <= 100
    ensures part * 100 / total == 100 <==> part == total
  {
    var q := part * 100 / total;
    assert q * total <= part * 100;
    if part == total {
      assert part * 100 == total * 100;
    } else {
      assert part * 100 < total * 100;
      assert q * total < total * 100;
    }
  }

  /** `part / whole * 100`, kept exact (the source then rounds the float to one decimal). */
  function ExactPercent(part: nat, whole: nat): real
    requires 0 < whole
  {
    part as real / whole as real * 100.0
  }

  /** The share of a part lies in [0, 100] and is 100 only for the whole. */
  lemma ExactPercentRange(part: nat, whole: nat)
    requires 0 < whole && part <= whole
    ensures 0.0 <= ExactPercent(part, whole) <= 100.0
    ensures ExactPercent(part, whole) == 100.0 <==> part == whole
  {
    Fraction(part, whole);
  }

  /** A count over a non-empty total, as a fraction: between 0 and 1, at the ends exactly for none and for all. */
  lemma Fraction(n: nat, m: nat)
    requires 0 < m && n <= m
    ensures var q := n as real / m as real;
      && 0.0 <= q <= 1.0
      && (q == 0.0 <==> n == 0)
      && (q == 1.0 <==> n == m)
  {
    var q := n as real / m as real;
    assert q * m as real == n as real;
  }
}
