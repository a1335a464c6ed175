/**
 * The SIP calculator: a fixed monthly instalment, compounded monthly and
 * invested at the start of each month (an annuity due), with a year-by-year
 * series of values.
 */
module Sip {
  import opened Wrappers
  import opened Numbers

  /** Value after `n` monthly instalments of `p` at monthly rate `r`. */
  function FutureValue(p: real, r: real, n: nat): real {
    if r > 0.0 && n > 0 then p * ((Pow(1.0 + r, n) - 1.0) / r) * (1.0 + r)
    else p * (n as real)
  }

  /**
   * At a positive rate the closed form is the sum of every instalment
   * grown to the end: `p (1+r) + p (1+r)^2 + ... + p (1+r)^n`.
   */
  lemma FutureValueIsAnnuityDue(p: real, r: real, n: nat)
    requires r > 0.0
    ensures FutureValue(p, r, n) == p * (1.0 + r) * GeomSum(1.0 + r, n)
  {
    GeomClosed(1.0 + r, n);
    if n > 0 {
      var g := GeomSum(1.0 + r, n);
      assert Pow(1.0 + r, n) - 1.0 == r * g;
      assert (r * g) / r == g;
    }
  }

  /** At a non-negative rate the value is at least what was paid in. */
  lemma {:induction false} ReturnsNonNegative(p: real, r: real, n: nat)
    requires p >= 0.0 && r >= 0.0
    ensures FutureValue(p, r, n) >= p * (n as real)
  {
    if r > 0.0 {
      FutureValueIsAnnuityDue(p, r, n);
      GeomBounds(1.0 + r, n);
      var g := GeomSum(1.0 + r, n);
      assert (1.0 + r) * g >= g;
      MulLeftMonotone(p, (1.0 + r) * g, n as real);
    }
  }

  datatype Outcome = Outcome(months: nat, monthlyRate: real, invested: real, futureValue: real,
                             gain: real, hasResult: bool)

  /** The page's figures; the tenure is a whole number of years. */
  function Calculate(monthly: Option<real>, rate: Option<real>, years: Option<nat>): Outcome {
    var p := OrZero(monthly);
    var n := OrZeroYears(years) * 12;
    var r := OrZero(rate) / 12.0 / 100.0;
    var fv := FutureValue(p, r, n);
    Outcome(n, r, p * (n as real), fv, fv - p * (n as real), p > 0.0 && n > 0)
  }

  /**
   * Twelve instalments a year at a twelfth of the annual rate; returns are
   * what the value adds to the amount paid in, never negative at a
   * non-negative rate; a result shows only with a positive instalment and
   * tenure.
   */
  lemma CalculateParts(monthly: Option<real>, rate: Option<real>, years: Option<nat>)
    ensures var o := Calculate(monthly, rate, years);
      && o.months == 12 * OrZeroYears(years)
      && o.monthlyRate == OrZero(rate) / 1200.0
      && o.invested == OrZero(monthly) * (o.months as real)
      && o.gain == o.futureValue - o.invested
      && (OrZero(monthly) >= 0.0 && OrZero(rate) >= 0.0 ==> o.gain >= 0.0)
      && (o.hasResult <==> OrZero(monthly) > 0.0 && o.months > 0)
  {
    var o := Calculate(monthly, rate, years);
    if OrZero(monthly) >= 0.0 && OrZero(rate) >= 0.0 {
      ReturnsNonNegative(OrZero(monthly), o.monthlyRate, o.months);
    }
  }

  /** The placeholder figures: 5000 a month for 10 years puts in 600000. */
  lemma PlaceholderExample(rate: Option<real>)
    ensures Calculate(Some(5000.0), rate, Some(10)).invested == 600000.0
  {
  }

  /** One point of the chart, as the chart loop computes it. */
  function SeriesPoint(p: real, r: real, months: nat): real {
    if r > 0.0 then p * ((Pow(1.0 + r, months) - 1.0) / r) * (1.0 + r) else p * (months as real)
  }

  /**
   * The chart loop: one point per whole year, the value after `12 y`
   * instalments, so the last point is the future value.
   */
  method YearlySeries(p: real, r: real, years: nat) returns (series: seq<real>)
    ensures |series| == years
    ensures forall y :: 1 <= y <= years ==> series[y - 1] == FutureValue(p, r, 12 * y)
    ensures years > 0 ==> series[years - 1] == FutureValue(p, r, 12 * years)
  {
    series := [];
    var y := 1;
    while y <= years
      invariant 1 <= y <= years + 1
      invariant |series| == y - 1
      invariant forall k :: 1 <= k < y ==> series[k - 1] == FutureValue(p, r, 12 * k)
    {
      var months := y * 12;
      series := series + [SeriesPoint(p, r, months)];
      y := y + 1;
    }
  }
}
