/**
 * The SI / CI / EMI calculator: simple interest, interest compounded
 * yearly, the equal monthly instalment of a loan at the same rate, and a
 * year-by-year compound-growth series.
 */
module SimpleInterest {
  import opened Wrappers
  import opened Numbers

  function SimpleInterestOf(p: real, r: real, t: nat): real {
    p * r * (t as real) / 100.0
  }

  function CompoundInterestOf(p: real, r: real, t: nat): real {
    p * Pow(1.0 + r / 100.0, t) - p
  }

  /** After one year compounding and simple interest agree. */
  lemma OneYearSame(p: real, r: real)
    ensures CompoundInterestOf(p, r, 1) == SimpleInterestOf(p, r, 1)
  {
  }

  /** Over whole years and at a non-negative rate, compounding earns at least simple interest. */
  lemma CompoundAtLeastSimple(p: real, r: real, t: nat)
    requires p >= 0.0 && r >= 0.0
    ensures CompoundInterestOf(p, r, t) >= SimpleInterestOf(p, r, t)
  {
    Bernoulli(r / 100.0, t);
    MulLeftMonotone(p, Pow(1.0 + r / 100.0, t), 1.0 + (t as real) * (r / 100.0));
  }

  /** The instalment; 0 unless both the number of months and the monthly rate are positive. */
  function Emi(p: real, monthlyRate: real, months: nat): (e: real)
    ensures months == 0 || monthlyRate <= 0.0 ==> e == 0.0
  {
    if months > 0 && monthlyRate > 0.0 then
      PowAboveOne(1.0 + monthlyRate, months);
      Annuity(p, monthlyRate, Pow(1.0 + monthlyRate, months))
    else 0.0
  }

  /** The amortisation formula, with `big` the growth factor over the whole loan. */
  function Annuity(p: real, rate: real, big: real): real
    requires big > 1.0
  {
    p * rate * big / (big - 1.0)
  }

  /**
   * The instalment amortises the loan: `months` payments, each grown to
   * the end of the loan, equal the principal grown to the end.
   */
  lemma EmiRepaysLoan(p: real, monthlyRate: real, months: nat)
    requires months > 0 && monthlyRate > 0.0
    ensures Emi(p, monthlyRate, months) * GeomSum(1.0 + monthlyRate, months)
         == p * Pow(1.0 + monthlyRate, months)
  {
    var x := 1.0 + monthlyRate;
    GeomClosed(x, months);
    GeomBounds(x, months);
    PowAboveOne(x, months);
    AnnuityAlgebra(p, monthlyRate, Pow(x, months), GeomSum(x, months));
  }

  /** The algebra behind the amortisation, with the power and the sum as plain numbers. */
  lemma AnnuityAlgebra(p: real, rate: real, big: real, g: real)
    requires rate > 0.0 && g > 0.0 && big - 1.0 == rate * g && big > 1.0
    ensures Annuity(p, rate, big) * g == p * big
  {
    assert p * rate * big == (p * big) * rate;
    CancelFactors(p * big, rate, g);
  }

  /** The instalments add up to at least the principal, so the total interest shown is non-negative. */
  lemma EmiCoversPrincipal(p: real, monthlyRate: real, months: nat)
    requires p >= 0.0 && months > 0 && monthlyRate > 0.0
    ensures Emi(p, monthlyRate, months) * (months as real) >= p
  {
    var big, g := EmiGrowth(p, monthlyRate, months);
    CoverAlgebra(p, Emi(p, monthlyRate, months), months as real, big, g);
  }

  /** The growth factor of the loan and the grown sum of its instalments. */
  lemma EmiGrowth(p: real, monthlyRate: real, months: nat) returns (big: real, g: real)
    requires months > 0 && monthlyRate > 0.0
    ensures big >= 1.0 && 0.0 < g <= (months as real) * big
    ensures Emi(p, monthlyRate, months) * g == p * big
  {
    var x := 1.0 + monthlyRate;
    big, g := Pow(x, months), GeomSum(x, months);
    GeomBounds(x, months);
    PowAboveOne(x, months);
    EmiRepaysLoan(p, monthlyRate, months);
  }

  /** If `e g = p big` with `0 < g <= m big`, then `e m >= p`. */
  lemma CoverAlgebra(p: real, e: real, m: real, big: real, g: real)
    requires p >= 0.0 && big >= 1.0 && 0.0 < g <= m * big && e * g == p * big
    ensures e * m >= p
  {
    MulLeftMonotone(p, big, 0.0);
    CancelPositive(e, 0.0, g);
    MulLeftMonotone(e, m * big, g);
    assert (e * m) * big >= p * big;
    CancelPositive(e * m, p, big);
  }

  datatype Outcome = Outcome(si: real, totalSi: real, ci: real, totalCi: real, monthlyRate: real,
                             months: nat, emi: real, hasResult: bool)

  /**
   * The page's figures; the period is a whole number of years. The totals
   * add the interest to the principal; the loan runs 12 months a year at a
   * twelfth of the rate; a result shows only for a positive principal and
   * period.
   */
  function Calculate(principal: Option<real>, rate: Option<real>, years: Option<nat>): (o: Outcome)
    ensures o.si == SimpleInterestOf(OrZero(principal), OrZero(rate), OrZeroYears(years))
    ensures o.ci == CompoundInterestOf(OrZero(principal), OrZero(rate), OrZeroYears(years))
    ensures o.totalSi == OrZero(principal) + o.si && o.totalCi == OrZero(principal) + o.ci
    ensures o.months == 12 * OrZeroYears(years) && o.monthlyRate == OrZero(rate) / 1200.0
    ensures o.emi == Emi(OrZero(principal), o.monthlyRate, o.months)
    ensures o.hasResult <==> OrZero(principal) > 0.0 && OrZeroYears(years) > 0
  {
    var p := OrZero(principal);
    var r := OrZero(rate);
    var t := OrZeroYears(years);
    var si := SimpleInterestOf(p, r, t);
    var ci := CompoundInterestOf(p, r, t);
    var mr := r / 12.0 / 100.0;
    Outcome(si, p + si, ci, p + ci, mr, t * 12, Emi(p, mr, t * 12), p > 0.0 && t > 0)
  }

  /** The chart loop: one point per whole year, the principal grown `y` years. */
  method YearlySeries(p: real, r: real, years: nat) returns (series: seq<real>)
    ensures |series| == years
    ensures forall y :: 1 <= y <= years ==> series[y - 1] == p + CompoundInterestOf(p, r, y)
  {
    series := [];
    var y := 1;
    while y <= years
      invariant 1 <= y <= years + 1
      invariant |series| == y - 1
      invariant forall k :: 1 <= k < y ==> series[k - 1] == p + CompoundInterestOf(p, r, k)
    {
      series := series + [p * Pow(1.0 + r / 100.0, y)];
      y := y + 1;
    }
  }
}
