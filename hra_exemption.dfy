/**
 * The HRA exemption calculator (section 10(13A) of the Income Tax Act):
 * the exemption is the least of the HRA received, 50% or 40% of basic
 * salary, and rent above 10% of basic salary.
 */
module HraExemption {
  import opened Wrappers
  import opened Numbers

  datatype Outcome = Outcome(option1: real, option2: real, option3: real, exempt: real,
                             taxable: real, hasResult: bool)

  function Calculate(basicSalary: Option<real>, hraReceived: Option<real>, rentPaid: Option<real>,
                     metro: bool): Outcome
  {
    var basic := OrZero(basicSalary);
    var hra := OrZero(hraReceived);
    var rent := OrZero(rentPaid);
    var option2 := basic * (if metro then 50.0 else 40.0) / 100.0;
    var option3 := Max(rent - basic * 0.1, 0.0);
    var exempt := Min(Min(hra, option2), option3);
    Outcome(hra, option2, option3, exempt, Max(hra - exempt, 0.0), basic > 0.0)
  }

  /**
   * The exemption is one of the three options and no larger than any of
   * them, so never more than the HRA received; the options are the HRA,
   * half (metro) or 40% (elsewhere) of basic salary, and rent above a
   * tenth of it; a result shows only for a positive basic salary.
   */
  lemma ExemptIsLeastOption(basicSalary: Option<real>, hraReceived: Option<real>, rentPaid: Option<real>,
                            metro: bool)
    ensures var o := Calculate(basicSalary, hraReceived, rentPaid, metro);
      && o.option1 == OrZero(hraReceived)
      && o.option2 == OrZero(basicSalary) * (if metro then 0.5 else 0.4)
      && o.option3 == Max(OrZero(rentPaid) - 0.1 * OrZero(basicSalary), 0.0)
      && o.exempt <= o.option1 && o.exempt <= o.option2 && o.exempt <= o.option3
      && (o.exempt == o.option1 || o.exempt == o.option2 || o.exempt == o.option3)
      && o.taxable == Max(o.option1 - o.exempt, 0.0)
      && (o.hasResult <==> OrZero(basicSalary) > 0.0)
  {
  }

  /** With non-negative inputs the HRA splits into the exempt and the taxable part. */
  lemma HraSplits(basicSalary: Option<real>, hraReceived: Option<real>, rentPaid: Option<real>,
                  metro: bool)
    requires OrZero(basicSalary) >= 0.0 && OrZero(hraReceived) >= 0.0
    ensures var o := Calculate(basicSalary, hraReceived, rentPaid, metro);
      && 0.0 <= o.exempt
      && o.exempt + o.taxable == OrZero(hraReceived)
      && (OrZero(rentPaid) <= 0.1 * OrZero(basicSalary) ==> o.exempt == 0.0)
  {
  }

  /** Living in a metro never lowers the exemption. */
  lemma MetroAtLeastNonMetro(basicSalary: Option<real>, hraReceived: Option<real>, rentPaid: Option<real>)
    requires OrZero(basicSalary) >= 0.0
    ensures Calculate(basicSalary, hraReceived, rentPaid, true).exempt
         >= Calculate(basicSalary, hraReceived, rentPaid, false).exempt
  {
  }

  /** The placeholder figures: basic 600000, HRA 240000, rent 180000 in a metro. */
  lemma PlaceholderExample()
    ensures var o := Calculate(Some(600000.0), Some(240000.0), Some(180000.0), true);
      o.exempt == 120000.0 && o.taxable == 120000.0
  {
  }
}
