/**
  The invoice summary of the order-details page and its PDF export
  (src/pages/OrderDetails.tsx): delivery charge, GST and final total,
  derived from the order's stored subtotal in rupees.  Amounts are exact
  reals; the two-decimal rounding of the display is not modelled.
 */
module Invoice {

  /** Delivery is free only strictly above this subtotal. */
  const FreeDeliveryAbove: real := 500.0

  /** Delivery charge when the subtotal does not exceed the threshold. */
  const DeliveryFee: real := 40.0

  /** Goods and services tax: a flat 5 %. */
  const GstRate: real := 0.05

  datatype Invoice = Invoice(subtotal: real, delivery: real, gst: real, total: real)

  /** Delivery, GST and final total for a stored subtotal. */
  function ComputeInvoice(subtotal: real): (inv: Invoice)
    ensures inv.subtotal == subtotal
    ensures inv.delivery == 0.0 <==> subtotal > FreeDeliveryAbove
    ensures inv.delivery == 0.0 || inv.delivery == DeliveryFee
    ensures inv.gst * 20.0 == subtotal
    ensures inv.total == inv.subtotal + inv.delivery + inv.gst
  {
    var delivery := if subtotal > FreeDeliveryAbove then 0.0 else DeliveryFee;
    var gst := subtotal * GstRate;
    Invoice(subtotal, delivery, gst, subtotal + delivery + gst)
  }

  /** For a non-negative subtotal the final total lies between the subtotal and 105 % of it plus the fee. */
  lemma TotalBounds(subtotal: real)
    requires subtotal >= 0.0
    ensures subtotal <= ComputeInvoice(subtotal).total <= subtotal * 105.0 / 100.0 + DeliveryFee
  {
  }

  /** Exactly 500 still pays the fee; anything above is free. */
  lemma DeliveryBoundary()
    ensures ComputeInvoice(500.0).delivery == 40.0
    ensures ComputeInvoice(500.01).delivery == 0.0
  {
  }

  /** The worked figures: 400 gives 40 + 20 = 460, 600 gives 0 + 30 = 630. */
  lemma InvoiceExamples()
    ensures ComputeInvoice(400.0) == Invoice(400.0, 40.0, 20.0, 460.0)
    ensures ComputeInvoice(600.0) == Invoice(600.0, 0.0, 30.0, 630.0)
  {
  }

  /**
    The final total is not monotone in the subtotal: crossing the threshold
    drops the fee, so a slightly larger order can cost less in total.
   */
  lemma TotalDropsAcrossThreshold(below: real, above: real)
    requires below <= FreeDeliveryAbove < above < below + 38.0
    ensures ComputeInvoice(above).total < ComputeInvoice(below).total
  {
  }

  /** Within one side of the threshold a larger subtotal never costs less. */
  lemma TotalMonotoneWithinBand(a: real, b: real)
    requires a <= b
    requires (b <= FreeDeliveryAbove) || (a > FreeDeliveryAbove)
    ensures ComputeInvoice(a).total <= ComputeInvoice(b).total
  {
  }
}
