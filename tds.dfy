/**
 * The TDS calculator: a rate looked up in the table of sections, tax
 * deducted at that rate and the net amount payable.
 */
module Tds {
  import opened Wrappers
  import opened Numbers

  /**
   * One row of the table. `rate` is the parsed rate text; section 192's
   * "As per slab" does not parse, which is `None`.
   */
  datatype TdsSection = TdsSection(section: string, rate: Option<real>)

  const Sections: seq<TdsSection> := [
    TdsSection("192", None),
    TdsSection("194A", Some(10.0)),
    TdsSection("194B", Some(30.0)),
    TdsSection("194C", Some(1.0)),
    TdsSection("194C", Some(2.0)),
    TdsSection("194H", Some(5.0)),
    TdsSection("194I(a)", Some(2.0)),
    TdsSection("194I(b)", Some(10.0)),
    TdsSection("194J(a)", Some(2.0)),
    TdsSection("194J(b)", Some(10.0)),
    TdsSection("194N", Some(2.0)),
    TdsSection("194Q", Some(0.1)),
    TdsSection("195", Some(20.0))
  ]

  /** The page opens on the second row. */
  const DefaultIndex: nat := 1

  lemma TableShape()
    ensures |Sections| == 13
    ensures Sections[DefaultIndex].section == "194A" && Sections[DefaultIndex].rate == Some(10.0)
    ensures forall i :: 0 <= i < |Sections| ==> 0.0 <= OrZero(Sections[i].rate) <= 30.0
  {
  }

  datatype Outcome = Outcome(rate: real, tds: real, netPayable: real, hasResult: bool)

  /** The selector only offers indices of the table. */
  function Calculate(amount: Option<real>, selected: nat): (o: Outcome)
    requires selected < |Sections|
    ensures o.tds + o.netPayable == OrZero(amount)
    ensures o.hasResult <==> OrZero(amount) > 0.0 && o.rate > 0.0
  {
    var payment := OrZero(amount);
    var rate := OrZero(Sections[selected].rate);
    var tds := payment * rate / 100.0;
    Outcome(rate, tds, payment - tds, payment > 0.0 && rate > 0.0)
  }

  /** Section 192 coerces to rate 0, so it never shows a result. */
  lemma SalaryNeverShown(amount: Option<real>)
    ensures Calculate(amount, 0).rate == 0.0
    ensures !Calculate(amount, 0).hasResult
  {
  }

  /** The deduction is the amount times the rate, and never more than the amount. */
  lemma DeductionBounded(amount: Option<real>, selected: nat)
    requires selected < |Sections|
    ensures var o := Calculate(amount, selected);
      && o.tds == OrZero(amount) * o.rate / 100.0
      && (OrZero(amount) >= 0.0 ==> 0.0 <= o.tds <= OrZero(amount) && o.netPayable >= 0.0)
  {
    TableShape();
    var o := Calculate(amount, selected);
    if OrZero(amount) >= 0.0 {
      MulLeftMonotone(OrZero(amount), 30.0, o.rate);
      MulLeftMonotone(OrZero(amount), o.rate, 0.0);
    }
  }

  /** 500000 to an individual contractor (194C, 1%): 5000 deducted, 495000 paid. */
  lemma ContractorExample()
    ensures Calculate(Some(500000.0), 3).tds == 5000.0
    ensures Calculate(Some(500000.0), 3).netPayable == 495000.0
  {
  }
}
