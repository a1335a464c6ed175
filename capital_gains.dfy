/**
 * The capital-gains calculator: the holding period decides long- or
 * short-term treatment per asset class, which fixes the rate and the
 * exemption; tax carries 4% cess.
 */
module CapitalGains {
  import opened Wrappers
  import opened Numbers

  datatype Asset = Equity | Debt | Property

  /** Months of holding from which a gain is long-term. */
  function LtcgMonths(a: Asset): real {
    match a
    case Equity => 12.0
    case Debt => 36.0
    case Property => 24.0
  }

  /** Rate in percent and exempt amount of one treatment. */
  datatype Levy = Levy(rate: real, exemption: real)

  function LevyFor(a: Asset, longTerm: bool): Levy {
    match a
    case Equity => if longTerm then Levy(12.5, 125000.0) else Levy(20.0, 0.0)
    case Debt => Levy(if longTerm then 20.0 else 30.0, 0.0)
    case Property => Levy(if longTerm then 12.5 else 30.0, 0.0)
  }

  /** The rate table: only long-term equity has an exemption. */
  lemma LevyTable(a: Asset, longTerm: bool)
    ensures var l := LevyFor(a, longTerm);
      && (a == Equity ==> l.rate == (if longTerm then 12.5 else 20.0))
      && (a == Debt ==> l.rate == (if longTerm then 20.0 else 30.0))
      && (a == Property ==> l.rate == (if longTerm then 12.5 else 30.0))
      && (l.exemption > 0.0 <==> a == Equity && longTerm)
      && (l.exemption > 0.0 ==> l.exemption == 125000.0)
      && 0.0 <= l.rate <= 30.0
  {
  }

  datatype Outcome = Outcome(gain: real, longTerm: bool, levy: Levy, taxableGain: real,
                             tax: real, cess: real, totalTax: real, netGain: real,
                             exemptionShown: real, hasResult: bool)

  function Calculate(purchase: Option<real>, sale: Option<real>, months: Option<real>, a: Asset): Outcome {
    var p := OrZero(purchase);
    var s := OrZero(sale);
    var gain := s - p;
    var longTerm := OrZero(months) >= LtcgMonths(a);
    var levy := LevyFor(a, longTerm);
    var taxableGain := Max(gain - levy.exemption, 0.0);
    var tax := taxableGain * levy.rate / 100.0;
    var cess := tax * 0.04;
    Outcome(gain, longTerm, levy, taxableGain, tax, cess, tax + cess, gain - (tax + cess),
            Min(levy.exemption, gain), s > 0.0 && p > 0.0)
  }

  /**
   * Long-term treatment starts at 12 months for equity, 36 for debt and 24
   * for property; the taxable gain is the gain above the exemption, never
   * negative; the total tax is the tax plus 4%; a result shows only when
   * both prices are positive; the exemption row shows no more than the gain.
   */
  lemma CalculateParts(purchase: Option<real>, sale: Option<real>, months: Option<real>, a: Asset)
    ensures var o := Calculate(purchase, sale, months, a);
      && o.gain == OrZero(sale) - OrZero(purchase)
      && (o.longTerm <==> OrZero(months) >= LtcgMonths(a))
      && o.levy == LevyFor(a, o.longTerm)
      && o.taxableGain == Max(o.gain - o.levy.exemption, 0.0)
      && o.totalTax == 1.04 * o.tax
      && o.netGain == o.gain - o.totalTax
      && (o.hasResult <==> OrZero(purchase) > 0.0 && OrZero(sale) > 0.0)
      && o.exemptionShown == Min(o.levy.exemption, o.gain)
  {
  }

  /** A loss, or a gain within the exemption, pays nothing and keeps the whole gain. */
  lemma WithinExemptionUntaxed(purchase: Option<real>, sale: Option<real>, months: Option<real>, a: Asset)
    ensures var o := Calculate(purchase, sale, months, a);
      o.gain <= o.levy.exemption ==> o.totalTax == 0.0 && o.netGain == o.gain
  {
  }

  /** Tax never takes the whole gain: a non-negative gain leaves a non-negative net gain. */
  lemma NetGainNonNegative(purchase: Option<real>, sale: Option<real>, months: Option<real>, a: Asset)
    ensures var o := Calculate(purchase, sale, months, a);
      o.gain >= 0.0 ==> 0.0 <= o.totalTax <= o.gain && o.netGain >= 0.0
  {
    var o := Calculate(purchase, sale, months, a);
    LevyTable(a, o.longTerm);
    if o.gain >= 0.0 {
      assert 0.0 <= o.taxableGain <= o.gain;
      MulLeftMonotone(o.taxableGain, 30.0, o.levy.rate);
      MulLeftMonotone(o.levy.rate, o.taxableGain, 0.0);
      assert 0.0 <= o.tax <= 0.3 * o.taxableGain;
    }
  }
}
