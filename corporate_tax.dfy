/**
 * The corporate-tax calculator: a base rate per company type, a surcharge
 * picked from that type's thresholds, 4% cess and the effective rate.
 */
module CorporateTax {
  import opened Wrappers
  import opened Numbers

  datatype CompanyType = Normal | Sec115BAA | Sec115BAB | Msme

  /** A surcharge applies at `rate` percent once taxable income exceeds `above`. */
  datatype Threshold = Threshold(above: real, rate: real)

  datatype Config = Config(rate: real, thresholds: seq<Threshold>)

  /** The page opens on section 115BAA. */
  const DefaultType: CompanyType := Sec115BAA

  /** The `rates` table. */
  function Rates(t: CompanyType): (c: Config)
    ensures t == Normal ==> c.rate == 30.0
    ensures t == Sec115BAA ==> c.rate == 22.0
    ensures t == Sec115BAB ==> c.rate == 15.0
    ensures t == Msme ==> c.rate == 25.0
  {
    match t
    case Normal => Config(30.0, [Threshold(10000000.0, 7.0), Threshold(100000000.0, 12.0)])
    case Sec115BAA => Config(22.0, [Threshold(0.0, 10.0)])
    case Sec115BAB => Config(15.0, [Threshold(0.0, 10.0)])
    case Msme => Config(25.0, [Threshold(10000000.0, 7.0), Threshold(100000000.0, 12.0)])
  }

  /**
   * The rate of the last threshold that the taxable income exceeds, or 0
   * when it exceeds none.
   */
  function LastExceeded(taxable: real, ts: seq<Threshold>): real
    decreases |ts|
  {
    if ts == [] then 0.0
    else if taxable > ts[|ts| - 1].above then ts[|ts| - 1].rate
    else LastExceeded(taxable, ts[..|ts| - 1])
  }

  /** The loop that overwrites the surcharge rate at every exceeded threshold. */
  method SurchargeRate(taxable: real, ts: seq<Threshold>) returns (rate: real)
    ensures rate == LastExceeded(taxable, ts)
  {
    rate := 0.0;
    var i := 0;
    while i < |ts|
      invariant 0 <= i <= |ts|
      invariant rate == LastExceeded(taxable, ts[..i])
    {
      assert ts[..i + 1][..i] == ts[..i];
      if taxable > ts[i].above {
        rate := ts[i].rate;
      }
      i := i + 1;
    }
    assert ts[..|ts|] == ts;
  }

  /** The surcharge ladders of every company type. */
  lemma SurchargeLadders(t: CompanyType, taxable: real)
    ensures var r := LastExceeded(taxable, Rates(t).thresholds);
      (t == Normal || t == Msme) ==>
        && (taxable <= 10000000.0 ==> r == 0.0)
        && (10000000.0 < taxable <= 100000000.0 ==> r == 7.0)
        && (100000000.0 < taxable ==> r == 12.0)
    ensures var r := LastExceeded(taxable, Rates(t).thresholds);
      (t == Sec115BAA || t == Sec115BAB) ==>
        && (taxable > 0.0 ==> r == 10.0)
        && (taxable <= 0.0 ==> r == 0.0)
  {
    var ts := Rates(t).thresholds;
    if |ts| == 2 {
      assert ts[..1] == [ts[0]];
    }
  }

  datatype Outcome = Outcome(taxable: real, baseTax: real, surchargeRate: real, surcharge: real,
                             cess: real, totalTax: real, effectiveRate: real, netIncome: real,
                             hasResult: bool)

  /** The page's figures for the two fields and the selected company type. */
  function Calculate(revenue: Option<real>, deductions: Option<real>, t: CompanyType): Outcome {
    var totalRevenue := OrZero(revenue);
    var taxable := Max(totalRevenue - OrZero(deductions), 0.0);
    var config := Rates(t);
    var baseTax := taxable * config.rate / 100.0;
    var rate := LastExceeded(taxable, config.thresholds);
    var surcharge := baseTax * rate / 100.0;
    var cess := (baseTax + surcharge) * 0.04;
    var totalTax := baseTax + surcharge + cess;
    Outcome(taxable, baseTax, rate, surcharge, cess, totalTax,
            if taxable > 0.0 then totalTax / taxable * 100.0 else 0.0,
            taxable - totalTax, totalRevenue > 0.0)
  }

  /**
   * Taxable income is revenue less deductions, floored at 0; cess is 4% of
   * base tax plus surcharge; net income is what the total tax leaves; a
   * result shows whenever revenue is positive, even with nothing taxable.
   */
  lemma CalculateParts(revenue: Option<real>, deductions: Option<real>, t: CompanyType)
    ensures var o := Calculate(revenue, deductions, t);
      && o.taxable == Max(OrZero(revenue) - OrZero(deductions), 0.0)
      && o.taxable >= 0.0
      && o.baseTax == o.taxable * Rates(t).rate / 100.0
      && o.cess == 0.04 * (o.baseTax + o.surcharge)
      && o.totalTax == o.baseTax + o.surcharge + o.cess
      && o.netIncome + o.totalTax == o.taxable
      && (o.hasResult <==> OrZero(revenue) > 0.0)
      && (o.taxable == 0.0 ==> o.effectiveRate == 0.0 && o.totalTax == 0.0)
  {
    var o := Calculate(revenue, deductions, t);
    if o.taxable == 0.0 {
      assert o.baseTax == 0.0;
      assert o.surcharge == 0.0;
    }
  }

  /** `(x * k) / x * 100` is `100 k` for positive `x`. */
  lemma RateOf(x: real, k: real)
    requires x > 0.0
    ensures (x * k) / x * 100.0 == k * 100.0
  {
    assert (x * k) / x == k;
  }

  /**
   * The effective rates quoted beside the calculator: exactly 25.168% under
   * section 115BAA and 17.16% under section 115BAB for any positive income.
   */
  lemma EffectiveRates(revenue: Option<real>, deductions: Option<real>)
    ensures var o := Calculate(revenue, deductions, Sec115BAA);
      o.taxable > 0.0 ==> o.effectiveRate == 25.168
    ensures var o := Calculate(revenue, deductions, Sec115BAB);
      o.taxable > 0.0 ==> o.effectiveRate == 17.16
  {
    var a := Calculate(revenue, deductions, Sec115BAA);
    if a.taxable > 0.0 {
      SurchargeLadders(Sec115BAA, a.taxable);
      assert a.totalTax == a.taxable * 0.25168;
      RateOf(a.taxable, 0.25168);
    }
    var b := Calculate(revenue, deductions, Sec115BAB);
    if b.taxable > 0.0 {
      SurchargeLadders(Sec115BAB, b.taxable);
      assert b.totalTax == b.taxable * 0.1716;
      RateOf(b.taxable, 0.1716);
    }
  }

  /** Under every regime the total tax is below the taxable income. */
  lemma NetIncomeNonNegative(revenue: Option<real>, deductions: Option<real>, t: CompanyType)
    ensures Calculate(revenue, deductions, t).netIncome >= 0.0
  {
    var o := Calculate(revenue, deductions, t);
    SurchargeLadders(t, o.taxable);
    assert 0.0 <= o.surchargeRate <= 12.0;
    assert o.baseTax <= 0.3 * o.taxable;
    MulLeftMonotone(o.baseTax, 12.0, o.surchargeRate);
    assert o.surcharge <= 0.12 * o.baseTax;
  }
}
