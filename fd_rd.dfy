/**
 * The FD / RD calculator: a fixed deposit compounded quarterly, or a
 * recurring monthly deposit whose instalments each compound for the
 * quarters left, with tax on the interest at the chosen bracket.
 *
 * An RD instalment paid `k` months before maturity grows by
 * `(1 + rate/400)^(k/3)`. That power has a fractional exponent, so the
 * model takes the monthly factor `c`, a cube root of `1 + rate/400`, as a
 * parameter and writes the growth as `c^k`.
 */
module FdRd {
  import opened Wrappers
  import opened Numbers

  datatype Deposit = Fd | Rd

  /** The brackets the selector offers; the page opens on 30. */
  predicate IsBracket(b: real) {
    b == 0.0 || b == 5.0 || b == 10.0 || b == 15.0 || b == 20.0 || b == 30.0
  }

  /** Quarterly compounding for a whole number of quarters. */
  function FdValue(p: real, annualRate: real, quarters: nat): real {
    p * Pow(1.0 + annualRate / 400.0, quarters)
  }

  /**
   * The first `m` of `months` instalments, each grown for the months left
   * to maturity: instalment `i` grows for `months - i + 1` months.
   */
  function RdPartial(p: real, c: real, months: nat, m: nat): real
    requires m <= months
    decreases m
  {
    if m == 0 then 0.0 else RdPartial(p, c, months, m - 1) + p * Pow(c, months - m + 1)
  }

  function RdValue(p: real, c: real, months: nat): real {
    RdPartial(p, c, months, months)
  }

  /** The month loop that accumulates the RD maturity. */
  method RdTotal(p: real, c: real, months: nat) returns (total: real)
    ensures total == RdValue(p, c, months)
  {
    total := 0.0;
    var m := 1;
    while m <= months
      invariant 1 <= m <= months + 1
      invariant total == RdPartial(p, c, months, m - 1)
    {
      total := total + p * Pow(c, months - m + 1);
      m := m + 1;
    }
  }

  /** The first `m` instalments in closed form. */
  lemma {:induction false} RdPartialClosed(p: real, c: real, months: nat, m: nat)
    requires m <= months
    ensures RdPartial(p, c, months, m) == p * Pow(c, months - m + 1) * GeomSum(c, m)
    decreases m
  {
    if m == 0 {
      RdPartialNone(p, c, months);
    } else {
      RdPartialClosed(p, c, months, m - 1);
      RdPartialStep(p, c, months, m);
    }
  }

  /** No instalments sum to nothing. */
  lemma RdPartialNone(p: real, c: real, months: nat)
    ensures RdPartial(p, c, months, 0) == p * Pow(c, months + 1) * GeomSum(c, 0)
  {
    assert GeomSum(c, 0) == 0.0;
    assert p * Pow(c, months + 1) * 0.0 == 0.0;
  }

  /** The closed form for `m - 1` instalments gives the one for `m`. */
  lemma RdPartialStep(p: real, c: real, months: nat, m: nat)
    requires 0 < m <= months
    requires RdPartial(p, c, months, m - 1) == p * Pow(c, months - (m - 1) + 1) * GeomSum(c, m - 1)
    ensures RdPartial(p, c, months, m) == p * Pow(c, months - m + 1) * GeomSum(c, m)
  {
    var q := Pow(c, months - m + 1);
    var g := GeomSum(c, m - 1);
    var rest := RdPartial(p, c, months, m - 1);
    assert rest == p * (c * q) * g by {
      assert months - (m - 1) + 1 == (months - m + 1) + 1;
    }
    assert GeomSum(c, m) == 1.0 + c * g by {
      GeomShift(c, m);
    }
    PrependTerm(p, c, q, g, rest, RdPartial(p, c, months, m), GeomSum(c, m));
  }

  /**
   * Adding the term `p q` in front of a sum already grown by `c`: plain
   * algebra, stated apart from the unfolded sums so the solver sees only it.
   */
  lemma PrependTerm(p: real, c: real, q: real, g: real, rest: real, whole: real, g1: real)
    requires rest == p * (c * q) * g && whole == rest + p * q && g1 == 1.0 + c * g
    ensures whole == p * q * g1
  {
  }

  /**
   * The RD maturity is the sum of every instalment grown for its remaining
   * months: `p c + p c^2 + ... + p c^months`.
   */
  lemma RdClosedForm(p: real, c: real, months: nat)
    ensures RdValue(p, c, months) == p * c * GeomSum(c, months)
  {
    RdPartialClosed(p, c, months, months);
  }

  /** At a non-negative rate an RD returns at least what was paid in. */
  lemma RdAtLeastDeposits(p: real, c: real, months: nat)
    requires p >= 0.0 && c >= 1.0
    ensures RdValue(p, c, months) >= p * (months as real)
  {
    RdClosedForm(p, c, months);
    GeomBounds(c, months);
    var g := GeomSum(c, months);
    MulLeftMonotone(c, g, months as real);
    assert c * g >= g;
    MulLeftMonotone(p, c * g, months as real);
    assert p * c * g == p * (c * g);
  }

  /** Three months of RD growth are one quarter of FD growth. */
  lemma QuarterlyAgreement(p: real, annualRate: real, c: real, quarters: nat)
    requires c * c * c == 1.0 + annualRate / 400.0
    ensures p * Pow(c, 3 * quarters) == FdValue(p, annualRate, quarters)
  {
    PowCube(c, quarters);
  }

  lemma {:induction false} PowCube(c: real, q: nat)
    ensures Pow(c, 3 * q) == Pow(c * c * c, q)
    decreases q
  {
    if q > 0 {
      PowCube(c, q - 1);
      PowAdd(c, 3, 3 * (q - 1));
      assert 3 * q == 3 + 3 * (q - 1);
    }
  }

  /** The FD chart loop: the deposit's value at the end of each whole year. */
  method FdChart(p: real, annualRate: real, years: nat) returns (chart: seq<real>)
    ensures |chart| == years
    ensures forall y :: 1 <= y <= years ==> chart[y - 1] == FdValue(p, annualRate, 4 * y)
  {
    chart := [];
    var y := 1;
    while y <= years
      invariant 1 <= y <= years + 1
      invariant |chart| == y - 1
      invariant forall k :: 1 <= k < y ==> chart[k - 1] == FdValue(p, annualRate, 4 * k)
    {
      chart := chart + [p * Pow(1.0 + annualRate / 400.0, 4 * y)];
      y := y + 1;
    }
  }

  /** The RD chart loop: the inner month loop rerun for every whole year. */
  method RdChart(p: real, c: real, years: nat) returns (chart: seq<real>)
    ensures |chart| == years
    ensures forall y :: 1 <= y <= years ==> chart[y - 1] == RdValue(p, c, 12 * y)
  {
    chart := [];
    var y := 1;
    while y <= years
      invariant 1 <= y <= years + 1
      invariant |chart| == y - 1
      invariant forall k :: 1 <= k < y ==> chart[k - 1] == RdValue(p, c, 12 * k)
    {
      var value := RdTotal(p, c, 12 * y);
      chart := chart + [value];
      y := y + 1;
    }
  }

  /**
   * The yearly percentage the net maturity earns over what was paid in:
   * the principal for an FD, every monthly instalment for an RD; zero
   * without a principal or a tenure.
   */
  function EffectiveReturn(netMaturity: real, p: real, years: nat, kind: Deposit): (r: real)
    ensures p <= 0.0 || years == 0 ==> r == 0.0
  {
    if p > 0.0 && years > 0 then
      (netMaturity / (if kind == Fd then p else p * (years as real) * 12.0) - 1.0) * 100.0 / (years as real)
    else 0.0
  }

  datatype Outcome = Outcome(maturity: real, interest: real, tax: real, netInterest: real,
                             netMaturity: real, effectiveReturn: real, chart: seq<real>,
                             hasResult: bool)

  /** What the deposit is worth after `years` whole years. */
  function Value(kind: Deposit, p: real, annualRate: real, c: real, years: nat): real {
    if kind == Fd then FdValue(p, annualRate, 4 * years) else RdValue(p, c, 12 * years)
  }

  /** What is paid in over `years` whole years: the principal once, or every monthly instalment. */
  function PaidIn(kind: Deposit, p: real, years: nat): real {
    if kind == Fd then p else p * ((12 * years) as real)
  }

  /**
   * The deposit-specific half of the calculation: the maturity, the
   * interest over what was paid in, and the chart, whose last point is the
   * maturity.
   */
  method Grow(kind: Deposit, p: real, annualRate: real, c: real, years: nat)
    returns (maturity: real, interest: real, chart: seq<real>)
    ensures maturity == Value(kind, p, annualRate, c, years)
    ensures interest == maturity - PaidIn(kind, p, years)
    ensures |chart| == years
    ensures forall y :: 1 <= y <= years ==> chart[y - 1] == Value(kind, p, annualRate, c, y)
    ensures years > 0 ==> chart[years - 1] == maturity
  {
    if kind == Fd {
      maturity := p * Pow(1.0 + annualRate / 400.0, 4 * years);
      interest := maturity - p;
      chart := FdChart(p, annualRate, years);
    } else {
      var months := 12 * years;
      maturity := RdTotal(p, c, months);
      interest := maturity - p * (months as real);
      chart := RdChart(p, c, years);
    }
  }

  /**
   * The page's figures and its year-by-year chart. The tenure is a whole
   * number of years; `c` is the RD's monthly growth factor.
   */
  method Calculate(principal: Option<real>, rate: Option<real>, tenure: Option<nat>, bracket: real,
                   kind: Deposit, c: real) returns (o: Outcome)
    requires IsBracket(bracket)
    requires c > 0.0 && c * c * c == 1.0 + OrZero(rate) / 400.0
    ensures var p, years := OrZero(principal), OrZeroYears(tenure);
      && o.maturity == Value(kind, p, OrZero(rate), c, years)
      && o.interest == o.maturity - PaidIn(kind, p, years)
    ensures |o.chart| == OrZeroYears(tenure)
    ensures forall y :: 1 <= y <= |o.chart| ==> o.chart[y - 1] == Value(kind, OrZero(principal), OrZero(rate), c, y)
    ensures |o.chart| > 0 ==> o.chart[|o.chart| - 1] == o.maturity
    ensures o.tax == o.interest * bracket / 100.0
    ensures o.netInterest + o.tax == o.interest && o.netMaturity == o.maturity - o.tax
    ensures bracket == 0.0 ==> o.netInterest == o.interest && o.netMaturity == o.maturity
    ensures OrZero(principal) <= 0.0 || OrZeroYears(tenure) == 0 ==> o.effectiveReturn == 0.0
    ensures o.hasResult <==> OrZero(principal) > 0.0 && OrZeroYears(tenure) > 0 && OrZero(rate) > 0.0
  {
    var p := OrZero(principal);
    var annualRate := OrZero(rate);
    var years := OrZeroYears(tenure);
    var maturity, interest, chart := Grow(kind, p, annualRate, c, years);
    var tax := interest * bracket / 100.0;
    var netMaturity := maturity - tax;
    var effectiveReturn := EffectiveReturn(netMaturity, p, years, kind);
    o := Outcome(maturity, interest, tax, interest - tax, netMaturity, effectiveReturn, chart,
                 p > 0.0 && years > 0 && annualRate > 0.0);
  }
}
