/**
 * The GST calculator: GST added to a base amount (exclusive) or taken out
 * of a gross amount (inclusive), shown as CGST and SGST within a state or
 * as IGST between states.
 */
module GstCalculator {
  import opened Wrappers
  import opened Numbers

  datatype Mode = Exclusive | Inclusive

  datatype Supply = IntraState | InterState

  /** The rates the selector offers; the page opens on 18. */
  predicate IsGstRate(rate: real) {
    rate == 5.0 || rate == 12.0 || rate == 18.0 || rate == 28.0
  }

  const DefaultRate: real := 18.0

  datatype Amounts = Amounts(base: real, gst: real, total: real)

  function Compute(amount: real, rate: real, mode: Mode): (r: Amounts)
    requires IsGstRate(rate)
    ensures r.base + r.gst == r.total
    ensures mode == Exclusive ==> r.base == amount && r.gst == amount * rate / 100.0
    ensures mode == Inclusive ==> r.total == amount && r.base * (100.0 + rate) == amount * 100.0
  {
    match mode
    case Exclusive =>
      var gst := amount * rate / 100.0;
      Amounts(amount, gst, amount + gst)
    case Inclusive =>
      var base := amount * 100.0 / (100.0 + rate);
      Amounts(base, amount - base, amount)
  }

  /**
   * Feeding the exclusive total back in inclusive mode at the same rate
   * gives back the original base and the same GST.
   */
  lemma RoundTrip(amount: real, rate: real)
    requires IsGstRate(rate)
    ensures var e := Compute(amount, rate, Exclusive);
      Compute(e.total, rate, Inclusive) == e
  {
    var e := Compute(amount, rate, Exclusive);
    var i := Compute(e.total, rate, Inclusive);
    assert e.total == amount * (100.0 + rate) / 100.0;
    assert i.base * (100.0 + rate) == amount * (100.0 + rate);
  }

  datatype Head = CGST | SGST | IGST

  /** One line of the breakdown: the head, its rate and its amount. */
  datatype TaxLine = TaxLine(head: Head, rate: real, amount: real)

  function Breakdown(gst: real, rate: real, supply: Supply): (lines: seq<TaxLine>)
    ensures supply == InterState ==> lines == [TaxLine(IGST, rate, gst)]
    ensures supply == IntraState ==> |lines| == 2 && lines[0].head == CGST && lines[1].head == SGST
    ensures supply == IntraState ==> lines[0].amount == lines[1].amount && lines[0].rate == lines[1].rate
    ensures supply == IntraState ==> lines[0].amount + lines[1].amount == gst && lines[0].rate + lines[1].rate == rate
  {
    match supply
    case InterState => [TaxLine(IGST, rate, gst)]
    case IntraState => [TaxLine(CGST, rate / 2.0, gst / 2.0), TaxLine(SGST, rate / 2.0, gst / 2.0)]
  }

  datatype Outcome = Outcome(amounts: Amounts, lines: seq<TaxLine>, hasResult: bool)

  /** The page's figures; a result shows only for a positive amount. */
  function Calculate(amount: Option<real>, rate: real, mode: Mode, supply: Supply): (o: Outcome)
    requires IsGstRate(rate)
    ensures o.hasResult <==> OrZero(amount) > 0.0
    ensures o.amounts.base + o.amounts.gst == o.amounts.total
  {
    var a := Compute(OrZero(amount), rate, mode);
    Outcome(a, Breakdown(a.gst, rate, supply), OrZero(amount) > 0.0)
  }
}
