/**
 * The income-tax calculator (FY 2025-26): slab tax, surcharge, 4% cess,
 * the section 87A rebate, and the comparison of the old and new regimes.
 */
module IncomeTax {
  import opened Wrappers
  import opened Numbers

  /** One slab; `max == None` is the open top slab (`Infinity`). */
  datatype Slab = Slab(min: real, max: Option<real>, rate: real)

  const OldSlabs: seq<Slab> := [
    Slab(0.0, Some(250000.0), 0.0),
    Slab(250000.0, Some(500000.0), 5.0),
    Slab(500000.0, Some(1000000.0), 20.0),
    Slab(1000000.0, None, 30.0)
  ]

  const NewSlabs: seq<Slab> := [
    Slab(0.0, Some(400000.0), 0.0),
    Slab(400000.0, Some(800000.0), 5.0),
    Slab(800000.0, Some(1200000.0), 10.0),
    Slab(1200000.0, Some(1600000.0), 15.0),
    Slab(1600000.0, Some(2000000.0), 20.0),
    Slab(2000000.0, Some(2400000.0), 25.0),
    Slab(2400000.0, None, 30.0)
  ]

  /** `Math.min(income, slab.max) - slab.min`. */
  function InSlab(income: real, s: Slab): real {
    (if s.max.Some? && s.max.value < income then s.max.value else income) - s.min
  }

  /** `taxableInSlab * slab.rate / 100`. */
  function SlabShare(income: real, s: Slab): real {
    InSlab(income, s) * s.rate / 100.0
  }

  /**
   * The tax the slab loop accumulates: each slab taxes its share at its
   * rate, and the walk stops at the first slab the income does not exceed.
   */
  function SlabTax(income: real, slabs: seq<Slab>): real
    decreases |slabs|
  {
    if slabs == [] || income <= slabs[0].min then 0.0
    else SlabShare(income, slabs[0]) + SlabTax(income, slabs[1..])
  }

  /** `calcTax`. */
  method CalcTax(income: real, slabs: seq<Slab>) returns (tax: real)
    ensures tax == SlabTax(income, slabs)
  {
    tax := 0.0;
    var i := 0;
    while i < |slabs|
      invariant 0 <= i <= |slabs|
      invariant tax + SlabTax(income, slabs[i..]) == SlabTax(income, slabs)
    {
      var slab := slabs[i];
      if income <= slab.min {
        break;
      }
      var taxableInSlab := InSlab(income, slab);
      tax := tax + taxableInSlab * slab.rate / 100.0;
      assert slabs[i..][1..] == slabs[i + 1..];
      i := i + 1;
    }
  }

  /** Each slab has a non-negative width and a rate between 0 and `top`. */
  predicate SaneSlabs(slabs: seq<Slab>, top: real) {
    forall k :: 0 <= k < |slabs| ==>
      0.0 <= slabs[k].rate <= top && (slabs[k].max.Some? ==> slabs[k].min <= slabs[k].max.value)
  }

  /** Every slab starts where the previous one ends. */
  ghost predicate Contiguous(slabs: seq<Slab>) {
    forall j, k :: 0 <= j < k < |slabs| && k == j + 1 ==> slabs[j].max == Some(slabs[k].min)
  }

  lemma TablesSane()
    ensures SaneSlabs(OldSlabs, 30.0) && Contiguous(OldSlabs)
    ensures SaneSlabs(NewSlabs, 30.0) && Contiguous(NewSlabs)
  {
  }

  lemma {:induction false} SlabTaxNonNegative(income: real, slabs: seq<Slab>)
    requires SaneSlabs(slabs, 100.0)
    ensures SlabTax(income, slabs) >= 0.0
    decreases |slabs|
  {
    if slabs != [] && income > slabs[0].min {
      assert SaneSlabs(slabs[1..], 100.0) by {
        forall k | 0 <= k < |slabs[1..]| ensures 0.0 <= slabs[1..][k].rate <= 100.0 {
          assert slabs[1..][k] == slabs[k + 1];
        }
      }
      SlabTaxNonNegative(income, slabs[1..]);
      MulLeftMonotone(slabs[0].rate, InSlab(income, slabs[0]), 0.0);
      assert InSlab(income, slabs[0]) * slabs[0].rate >= 0.0;
    }
  }

  lemma SaneTail(slabs: seq<Slab>, top: real)
    requires slabs != [] && SaneSlabs(slabs, top)
    ensures SaneSlabs(slabs[1..], top)
  {
    forall k | 0 <= k < |slabs[1..]|
      ensures 0.0 <= slabs[1..][k].rate <= top
      ensures slabs[1..][k].max.Some? ==> slabs[1..][k].min <= slabs[1..][k].max.value
    {
      assert slabs[1..][k] == slabs[k + 1];
    }
  }

  /** More income never means less tax. */
  lemma {:induction false} SlabTaxMonotone(a: real, b: real, slabs: seq<Slab>)
    requires a <= b && SaneSlabs(slabs, 100.0)
    ensures SlabTax(a, slabs) <= SlabTax(b, slabs)
    decreases |slabs|
  {
    if slabs == [] {
    } else if a <= slabs[0].min {
      SlabTaxNonNegative(b, slabs);
    } else {
      SaneTail(slabs, 100.0);
      SlabTaxMonotone(a, b, slabs[1..]);
      var sa, sb := SlabShare(a, slabs[0]), SlabShare(b, slabs[0]);
      SlabShareMonotone(a, b, slabs[0]);
      assert SlabTax(a, slabs) == sa + SlabTax(a, slabs[1..]);
      assert SlabTax(b, slabs) == sb + SlabTax(b, slabs[1..]);
    }
  }

  /** One slab's share of the tax grows with the income. */
  lemma SlabShareMonotone(a: real, b: real, s: Slab)
    requires a <= b && s.rate >= 0.0
    ensures SlabShare(a, s) <= SlabShare(b, s)
  {
    assert InSlab(a, s) <= InSlab(b, s);
    MulLeftMonotone(s.rate, InSlab(b, s), InSlab(a, s));
    assert InSlab(a, s) * s.rate <= InSlab(b, s) * s.rate;
  }

  lemma ContiguousTail(slabs: seq<Slab>)
    requires slabs != [] && Contiguous(slabs)
    ensures Contiguous(slabs[1..])
  {
    forall j, k | 0 <= j < k < |slabs[1..]| && k == j + 1
      ensures slabs[1..][j].max == Some(slabs[1..][k].min)
    {
      assert slabs[1..][j] == slabs[j + 1] && slabs[1..][k] == slabs[k + 1];
    }
  }

  /** The first slab's tax is at most 30% of its share, and its share at most the income above its lower edge. */
  lemma HeadShareAtMostTop(income: real, s: Slab)
    requires 0.0 <= s.rate <= 30.0 && income > s.min
    requires s.max.Some? ==> s.min <= s.max.value
    ensures 0.0 <= InSlab(income, s) <= income - s.min
    ensures InSlab(income, s) * s.rate / 100.0 <= 0.3 * InSlab(income, s)
  {
    var part := InSlab(income, s);
    MulLeftMonotone(part, 30.0, s.rate);
  }

  /** Unfolding one slab: its tax is at most 30% of its share. */
  lemma HeadStepAtMostTop(income: real, slabs: seq<Slab>)
    requires slabs != [] && SaneSlabs(slabs, 30.0) && income > slabs[0].min
    ensures SlabTax(income, slabs) <= 0.3 * InSlab(income, slabs[0]) + SlabTax(income, slabs[1..])
  {
    HeadShareAtMostTop(income, slabs[0]);
  }

  /** The share of a slab that the income passes is the slab's whole width. */
  lemma TailStepAtMostTop(income: real, slabs: seq<Slab>)
    requires |slabs| > 1 && SaneSlabs(slabs, 30.0) && Contiguous(slabs) && income > slabs[0].min
    requires income > slabs[1].min ==> SlabTax(income, slabs[1..]) <= 0.3 * (income - slabs[1].min)
    requires income <= slabs[1].min ==> SlabTax(income, slabs[1..]) == 0.0
    ensures 0.3 * InSlab(income, slabs[0]) + SlabTax(income, slabs[1..]) <= 0.3 * (income - slabs[0].min)
  {
    assert slabs[0].max == Some(slabs[1].min);
  }

  /**
   * With contiguous slabs taxed at no more than 30%, the tax is at most 30%
   * of the income above the first slab's lower edge.
   */
  lemma {:induction false} SlabTaxAtMostTop(income: real, slabs: seq<Slab>)
    requires slabs != [] && SaneSlabs(slabs, 30.0) && Contiguous(slabs)
    ensures income <= slabs[0].min ==> SlabTax(income, slabs) == 0.0
    ensures income > slabs[0].min ==> SlabTax(income, slabs) <= 0.3 * (income - slabs[0].min)
    decreases |slabs|
  {
    if income > slabs[0].min {
      HeadStepAtMostTop(income, slabs);
      if |slabs| == 1 {
        assert slabs[1..] == [];
        assert InSlab(income, slabs[0]) <= income - slabs[0].min;
      } else {
        SaneTail(slabs, 30.0);
        ContiguousTail(slabs);
        SlabTaxAtMostTop(income, slabs[1..]);
        TailStepAtMostTop(income, slabs);
      }
    }
  }

  /** Tax never exceeds 30% of the income, under either regime. */
  lemma TaxAtMostThirtyPercent(income: real)
    requires income >= 0.0
    ensures 0.0 <= SlabTax(income, OldSlabs) <= 0.3 * income
    ensures 0.0 <= SlabTax(income, NewSlabs) <= 0.3 * income
  {
    TablesSane();
    SlabTaxAtMostTop(income, OldSlabs);
    SlabTaxAtMostTop(income, NewSlabs);
    SlabTaxNonNegative(income, OldSlabs);
    SlabTaxNonNegative(income, NewSlabs);
  }

  /** No tax up to the basic exemption: 250000 (old) and 400000 (new). */
  lemma ExemptionLimits(income: real)
    ensures income <= 250000.0 ==> SlabTax(income, OldSlabs) == 0.0
    ensures income <= 400000.0 ==> SlabTax(income, NewSlabs) == 0.0
  {
    assert OldSlabs[1..][0] == OldSlabs[1];
    assert NewSlabs[1..][0] == NewSlabs[1];
  }

  /** Slab fixed points of both tables. */
  lemma SlabFixedPoints()
    ensures SlabTax(500000.0, OldSlabs) == 12500.0
    ensures SlabTax(1000000.0, OldSlabs) == 112500.0
    ensures SlabTax(1200000.0, NewSlabs) == 60000.0
  {
  }

  /**
   * `calcSurcharge`, as written: both branches above 20,000,000 give 25%.
   */
  function Surcharge(tax: real, income: real): (r: real)
    ensures income <= 5000000.0 ==> r == 0.0
    ensures 5000000.0 < income <= 10000000.0 ==> r == tax * 0.10
    ensures 10000000.0 < income <= 20000000.0 ==> r == tax * 0.15
    ensures 20000000.0 < income ==> r == tax * 0.25
  {
    if income > 50000000.0 then tax * 0.25
    else if income > 20000000.0 then tax * 0.25
    else if income > 10000000.0 then tax * 0.15
    else if income > 5000000.0 then tax * 0.10
    else 0.0
  }

  /** The six input fields, each `None` when empty or unparsable. */
  datatype Inputs = Inputs(gross: Option<real>, ded80C: Option<real>, ded80D: Option<real>,
                           hra: Option<real>, otherDed: Option<real>, stdDed: Option<real>)

  datatype Regime = Old | New

  /** What one regime's column shows. */
  datatype RegimeTax = RegimeTax(deductions: real, taxable: real, tax: real, surcharge: real,
                                 cess: real, total: real, payable: real)

  datatype Outcome = Outcome(income: real, oldRegime: RegimeTax, newRegime: RegimeTax, savings: real,
                             better: Regime, hasResult: bool)

  /** Tax, surcharge, cess and the all-or-nothing rebate up to `rebateLimit`. */
  function RegimeColumn(deductions: real, taxable: real, slabs: seq<Slab>, rebateLimit: real): RegimeTax {
    var tax := SlabTax(taxable, slabs);
    var surcharge := Surcharge(tax, taxable);
    var cess := (tax + surcharge) * 0.04;
    var total := tax + surcharge + cess;
    RegimeTax(deductions, taxable, tax, surcharge, cess, total, if taxable <= rebateLimit then 0.0 else total)
  }

  function OldDeductions(inp: Inputs): real {
    Min(OrZero(inp.ded80C), 150000.0) + Min(OrZero(inp.ded80D), 100000.0)
    + OrZero(inp.hra) + OrZero(inp.otherDed) + OrDefault(inp.stdDed, 75000.0)
  }

  /** The calculator page's figures for the current inputs. */
  function Calculate(inp: Inputs): Outcome {
    var income := OrZero(inp.gross);
    var deductions := OldDeductions(inp);
    var oldR := RegimeColumn(deductions, Max(income - deductions, 0.0), OldSlabs, 500000.0);
    var newR := RegimeColumn(75000.0, Max(income - 75000.0, 0.0), NewSlabs, 1200000.0);
    Compare(income, oldR, newR)
  }

  /** Savings and the better regime (the old one on a tie). */
  function Compare(income: real, oldR: RegimeTax, newR: RegimeTax): (o: Outcome)
    ensures o.better == Old <==> oldR.payable <= newR.payable
    ensures o.savings == newR.payable - oldR.payable
    ensures o.better == New ==> o.savings < 0.0
    ensures o.hasResult <==> income > 0.0
  {
    Outcome(income, oldR, newR, newR.payable - oldR.payable,
            if oldR.payable <= newR.payable then Old else New, income > 0.0)
  }

  /**
   * Old-regime deductions: 80C capped at 150000, 80D at 100000, and a
   * standard deduction left empty or typed as 0 becomes 75000; the taxable
   * income is never negative.
   */
  lemma OldRegimeDeductions(inp: Inputs)
    ensures var d := Calculate(inp).oldRegime.deductions;
      d == Min(OrZero(inp.ded80C), 150000.0) + Min(OrZero(inp.ded80D), 100000.0)
           + OrZero(inp.hra) + OrZero(inp.otherDed)
           + (if inp.stdDed.Some? && inp.stdDed.value != 0.0 then inp.stdDed.value else 75000.0)
    ensures Calculate(inp).oldRegime.taxable == Max(OrZero(inp.gross) - Calculate(inp).oldRegime.deductions, 0.0)
    ensures Calculate(inp).oldRegime.taxable >= 0.0
  {
  }

  /** A standard deduction typed as 0 counts as 75000. */
  lemma ZeroStandardDeduction(inp: Inputs)
    requires inp.stdDed == Some(0.0)
    ensures OldDeductions(inp) == OldDeductions(inp.(stdDed := Some(75000.0)))
    ensures OldDeductions(inp) == OldDeductions(inp.(stdDed := None))
  {
  }

  /** The new regime ignores every entered deduction and subtracts exactly 75000. */
  lemma NewRegimeIgnoresDeductions(a: Inputs, b: Inputs)
    requires a.gross == b.gross
    ensures Calculate(a).newRegime == Calculate(b).newRegime
    ensures Calculate(a).newRegime.taxable == Max(OrZero(a.gross) - 75000.0, 0.0)
  {
  }

  /**
   * Cess is 4% of tax plus surcharge; the payable amount is 0 up to the
   * rebate limit and the full total above it.
   */
  lemma CessAndRebate(deductions: real, taxable: real, slabs: seq<Slab>, limit: real)
    ensures var c := RegimeColumn(deductions, taxable, slabs, limit);
      && c.cess == 0.04 * (c.tax + c.surcharge)
      && c.total == 1.04 * (c.tax + c.surcharge)
      && (taxable <= limit ==> c.payable == 0.0)
      && (taxable > limit ==> c.payable == c.total)
  {
  }

  /**
   * No marginal relief: one rupee of new-regime taxable income above
   * 1200000 moves the payable tax from 0 to more than 60000.
   */
  lemma NoMarginalRelief()
    ensures RegimeColumn(75000.0, 1200000.0, NewSlabs, 1200000.0).payable == 0.0
    ensures RegimeColumn(75000.0, 1200001.0, NewSlabs, 1200000.0).payable > 60000.0
  {
    SlabFixedPoints();
    SlabTaxMonotone(1200000.0, 1200001.0, NewSlabs);
  }
}
