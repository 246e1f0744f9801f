/**
 * Rounding and guarded division as the dashboard uses them.
 *
 * Python's `round(x, d)` and pandas' `.round(d)` round half to even on binary
 * floating point; here rounding is exact half-up on rationals.  What is proved
 * about it, and what callers rely on, is only that the result is within half a
 * unit of the last kept digit and that rounding is monotone.
 */
module Numbers {

  /** `round(x, 1)` */
  function Round1(x: real): real {
    (x * 10.0 + 0.5).Floor as real / 10.0
  }

  /** `round(x, 2)` */
  function Round2(x: real): real {
    (x * 100.0 + 0.5).Floor as real / 100.0
  }

  /** A one-decimal rounded value is within 0.05 of the exact value. */
  lemma Round1Close(x: real)
    ensures x - 0.05 < Round1(x) <= x + 0.05
  {
    var f := (x * 10.0 + 0.5).Floor as real;
    assert x * 10.0 - 0.5 < f <= x * 10.0 + 0.5;
  }

  /** A two-decimal rounded value is within 0.005 of the exact value. */
  lemma Round2Close(x: real)
    ensures x - 0.005 < Round2(x) <= x + 0.005
  {
    var f := (x * 100.0 + 0.5).Floor as real;
    assert x * 100.0 - 0.5 < f <= x * 100.0 + 0.5;
  }

  lemma Round1Monotone(x: real, y: real)
    requires x <= y
    ensures Round1(x) <= Round1(y)
  {
    assert (x * 10.0 + 0.5).Floor <= (y * 10.0 + 0.5).Floor;
  }

  /** One-decimal rounding keeps a value inside [0, 100] inside [0, 100]. */
  lemma Round1Within(x: real)
    requires 0.0 <= x <= 100.0
    ensures 0.0 <= Round1(x) <= 100.0
  {
    Round1Monotone(0.0, x);
    Round1Monotone(x, 100.0);
    assert (0.0 * 10.0 + 0.5).Floor == 0;
    assert (100.0 * 10.0 + 0.5).Floor == 1000;
  }

  /** pandas' `.replace(0, 1)` on a denominator. */
  function NonZero(d: real): (r: real)
    ensures r != 0.0
    ensures d != 0.0 ==> r == d
  {
    if d == 0.0 then 1.0 else d
  }

  /** `n / d * 100` with the dashboard's `replace(0, 1)` guard: a zero denominator yields `n * 100`, not 0. */
  function GuardedPercent(n: real, d: real): (r: real)
    ensures d != 0.0 ==> r * d == n * 100.0
    ensures d == 0.0 ==> r == n * 100.0
  {
    n / NonZero(d) * 100.0
  }

  /** The guarded percentage is the plain quotient whenever the denominator is not 0. */
  lemma GuardedQuotient(n: real, d: real)
    ensures d != 0.0 ==> GuardedPercent(n, d) == n / d * 100.0
    ensures d == 0.0 ==> GuardedPercent(n, d) == n * 100.0
  {
  }

  /** The exact share `count / total` as a percentage. */
  function Percent(count: nat, total: nat): (r: real)
    requires total > 0
    ensures r * total as real == count as real * 100.0
    ensures count <= total ==> 0.0 <= r <= 100.0
  {
    count as real / total as real * 100.0
  }

  /** For a count out of a positive total the guard never fires. */
  lemma GuardedIsPercent(count: nat, total: nat)
    requires total > 0
    ensures GuardedPercent(count as real, total as real) == Percent(count, total)
  {
    GuardedQuotient(count as real, total as real);
  }

  /** `round(count / total * 100, 1)` */
  function Rate(count: nat, total: nat): real
    requires total > 0
  {
    Round1(Percent(count, total))
  }

  /** A rounded rate lies in [0, 100] and within 0.05 of the exact percentage. */
  lemma RateBounds(count: nat, total: nat)
    requires 0 < total && count <= total
    ensures 0.0 <= Rate(count, total) <= 100.0
    ensures Percent(count, total) - 0.05 < Rate(count, total) <= Percent(count, total) + 0.05
  {
    Round1Within(Percent(count, total));
    Round1Close(Percent(count, total));
  }

  /** The fixture used throughout the dashboard's history: 8,706 late of 24,521 reads 35.5. */
  lemma LateRateAnchor()
    ensures Rate(8706, 24521) == 35.5
  {
    var p := Percent(8706, 24521);
    assert p * 24521.0 == 870600.0;
    assert 355.0 <= p * 10.0 + 0.5 < 356.0;
    assert (p * 10.0 + 0.5).Floor == 355;
  }
}
