/** Percentages of a count in a total, as Python computes them with true division. */
module Ratios {

  /** `count / total * 100`. */
  function Percent(count: nat, total: nat): real
    requires total > 0
  {
    count as real / total as real * 100.0
  }

  /** A part of a total is between 0% and 100%. */
  lemma PercentBounds(count: nat, total: nat)
    requires count <= total && total > 0
    ensures 0.0 <= Percent(count, total) <= 100.0
  {
    var q := count as real / total as real;
    assert q * total as real == count as real;
  }

  /** Percentages of parts that partition a total add up to 100. */
  lemma PercentsAddUp(a: nat, b: nat, c: nat, d: nat, total: nat)
    requires total > 0 && a + b + c + d == total
    ensures Percent(a, total) + Percent(b, total) + Percent(c, total) + Percent(d, total) == 100.0
  {
    var n := total as real;
    var qa, qb, qc, qd := a as real / n, b as real / n, c as real / n, d as real / n;
    DivAdd(a as real, b as real, n);
    DivAdd((a + b) as real, c as real, n);
    DivAdd((a + b + c) as real, d as real, n);
    assert qa + qb + qc + qd == n / n == 1.0;
    assert qa * 100.0 + qb * 100.0 + qc * 100.0 + qd * 100.0 == (qa + qb + qc + qd) * 100.0;
  }

  lemma DivAdd(x: real, y: real, n: real)
    requires n > 0.0
    ensures x / n + y / n == (x + y) / n
  {
  }

  /** A percentage times its total gives back a hundred times the count. */
  lemma PercentTimesTotal(count: nat, total: nat)
    requires total > 0
    ensures Percent(count, total) * total as real == 100.0 * count as real
  {
    var q := count as real / total as real;
    assert q * total as real == count as real;
    assert Percent(count, total) == q * 100.0;
    assert q * 100.0 * total as real == (q * total as real) * 100.0;
  }

  /** Multiplying by a positive number keeps the sign. */
  lemma PositiveScaling(x: real, n: real)
    requires n > 0.0
    ensures x > 0.0 <==> x * n > 0.0
  {
  }

  /** A part is more than a quarter of the total exactly when its percentage exceeds 25. */
  lemma PercentAboveQuarter(count: nat, total: nat)
    requires total > 0
    ensures Percent(count, total) > 25.0 <==> 4 * count > total
  {
    var p := Percent(count, total);
    var n := total as real;
    PercentTimesTotal(count, total);
    PositiveScaling(p - 25.0, n);
    assert (p - 25.0) * n == 100.0 * count as real - 25.0 * n;
    assert (4 * count) as real == 4.0 * count as real;
  }
}
