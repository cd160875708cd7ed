/** The amount formula of `updateAmounts`: base amount, the two GST components
    and the grand total, recomputed from the four form inputs. */
module InvoiceAmounts {
  import opened Wrappers
  import opened JsBuiltins

  datatype Amounts = Amounts(base: real, cgstAmount: real, sgstAmount: real, grandTotal: real)

  /** Each input is `parseFloat(field) || 0`; the parse is given as an `Option`.
      The grand total is the base plus both taxes, and the two taxes together
      are the combined rate applied to the base. */
  function ComputeAmounts(qty: Option<real>, rate: Option<real>, cgst: Option<real>, sgst: Option<real>): (a: Amounts)
    ensures a.grandTotal == a.base + a.cgstAmount + a.sgstAmount
    ensures a.cgstAmount + a.sgstAmount == a.base * (FloatOrZero(cgst) + FloatOrZero(sgst)) / 100.0
  {
    var base := FloatOrZero(qty) * FloatOrZero(rate);
    var cgstAmount := base * (FloatOrZero(cgst) / 100.0);
    var sgstAmount := base * (FloatOrZero(sgst) / 100.0);
    Amounts(base, cgstAmount, sgstAmount, base + cgstAmount + sgstAmount)
  }

  /** The grand total is the base amount scaled by one plus the combined rate. */
  lemma GrandTotalIsTaxedBase(qty: Option<real>, rate: Option<real>, cgst: Option<real>, sgst: Option<real>)
    ensures var a := ComputeAmounts(qty, rate, cgst, sgst);
      a.base == FloatOrZero(qty) * FloatOrZero(rate) &&
      a.grandTotal == a.base * (1.0 + (FloatOrZero(cgst) + FloatOrZero(sgst)) / 100.0)
  {
  }

  /** Each tax is its own rate applied to the base: CGST does not depend on
      the SGST rate, nor SGST on the CGST rate. */
  lemma TaxComponents(qty: Option<real>, rate: Option<real>, cgst: Option<real>, sgst: Option<real>)
    ensures var a := ComputeAmounts(qty, rate, cgst, sgst);
      a.cgstAmount == a.base * FloatOrZero(cgst) / 100.0 &&
      a.sgstAmount == a.base * FloatOrZero(sgst) / 100.0
  {
  }

  /** With both rates zero (or unparsable) there is no tax and the grand total is the base. */
  lemma ZeroRatesGrandIsBase(qty: Option<real>, rate: Option<real>, cgst: Option<real>, sgst: Option<real>)
    requires FloatOrZero(cgst) == 0.0 && FloatOrZero(sgst) == 0.0
    ensures var a := ComputeAmounts(qty, rate, cgst, sgst);
      a.cgstAmount == 0.0 && a.sgstAmount == 0.0 && a.grandTotal == a.base
  {
  }

  /** An unparsable input gives exactly the amounts of an input of 0. */
  lemma UnparsableIsZero(qty: Option<real>, rate: Option<real>, cgst: Option<real>, sgst: Option<real>)
    ensures ComputeAmounts(None, rate, cgst, sgst) == ComputeAmounts(Some(0.0), rate, cgst, sgst)
    ensures ComputeAmounts(qty, None, cgst, sgst) == ComputeAmounts(qty, Some(0.0), cgst, sgst)
    ensures ComputeAmounts(qty, rate, None, sgst) == ComputeAmounts(qty, rate, Some(0.0), sgst)
    ensures ComputeAmounts(qty, rate, cgst, None) == ComputeAmounts(qty, rate, cgst, Some(0.0))
  {
  }

  /** Non-negative inputs give non-negative amounts and a grand total at least the base. */
  lemma NonNegativeInputs(qty: Option<real>, rate: Option<real>, cgst: Option<real>, sgst: Option<real>)
    requires FloatOrZero(qty) >= 0.0 && FloatOrZero(rate) >= 0.0
    requires FloatOrZero(cgst) >= 0.0 && FloatOrZero(sgst) >= 0.0
    ensures var a := ComputeAmounts(qty, rate, cgst, sgst);
      0.0 <= a.base <= a.grandTotal && a.cgstAmount >= 0.0 && a.sgstAmount >= 0.0
  {
  }

  /** Equal CGST and SGST rates give equal tax components. */
  lemma EqualRatesEqualTaxes(qty: Option<real>, rate: Option<real>, gst: Option<real>)
    ensures var a := ComputeAmounts(qty, rate, gst, gst); a.cgstAmount == a.sgstAmount
  {
  }

  /** Quantity 2, rate 500, CGST 9 and SGST 9 give 1000, 90, 90 and 1180. */
  lemma ExampleInvoice()
    ensures ComputeAmounts(Some(2.0), Some(500.0), Some(9.0), Some(9.0)) == Amounts(1000.0, 90.0, 90.0, 1180.0)
  {
  }

  /** Quantity 1, rate 1000, CGST 18 and an unparsable SGST give 1000, 180, 0
      and 1180: the rates are not pooled. */
  lemma ExampleUnequalRates()
    ensures ComputeAmounts(Some(1.0), Some(1000.0), Some(18.0), None) == Amounts(1000.0, 180.0, 0.0, 1180.0)
  {
  }
}
