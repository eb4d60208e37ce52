/**
 * The quantity arithmetic of the reorder decision engine: how much an
 * automatic reorder asks for, how a manual order is clipped to the space
 * left in its warehouse, and how much of an order a receipt credits.
 */
module Policy {
  import opened Entities

  /** An order quantity together with its capacity_issue flag. */
  datatype Clip = Clip(quantity: int, capacityIssue: bool)

  /** The trigger of an automatic reorder. */
  predicate NeedsReorder(p: Product) {
    p.stock < p.threshold
  }

  /**
   * The quantity that brings stock up to twice the threshold. When the
   * trigger holds it exceeds the shortage, so it is positive.
   */
  function DesiredQuantity(p: Product): (q: int)
    ensures p.stock + q == 2 * p.threshold
    ensures 0 <= p.stock && NeedsReorder(p) ==> 0 < p.threshold - p.stock < q
  {
    p.threshold * 2 - p.stock
  }

  /**
   * Quantity of an automatic reorder: nothing, flagged, when the warehouse
   * has no room; otherwise the desired quantity cut to the room left, with
   * the flag clear even when the cut happens.
   */
  function AutoClip(desired: int, available: int): (c: Clip)
    ensures available <= 0 ==> c == Clip(0, true)
    ensures 0 < available ==> !c.capacityIssue
    ensures c.quantity <= Max(0, available)
    ensures 0 < available ==> c.quantity <= desired && (c.quantity == desired || c.quantity == available)
    ensures 0 < desired ==> 0 <= c.quantity && (0 < available <==> 0 < c.quantity)
  {
    if available <= 0 then Clip(0, true) else Clip(Min(desired, available), false)
  }

  /**
   * Quantity of a manual order: the requested quantity, or as much as fits
   * (possibly nothing) with the flag set when it does not fit.
   */
  function ManualClip(requested: int, available: int): (c: Clip)
    ensures c.capacityIssue <==> available <= 0 || available < requested
    ensures !c.capacityIssue ==> c.quantity == requested
    ensures c.capacityIssue ==> c.quantity == Max(0, available)
    ensures c.quantity <= Max(0, available)
  {
    if available <= 0 then Clip(0, true)
    else if requested > available then Clip(available, true)
    else Clip(requested, false)
  }

  /**
   * The part of an order a receipt can credit: all of it when it fits,
   * otherwise the non-negative part of the room left.
   */
  function ReceiptQuantity(ordered: int, available: int): (q: int)
    ensures ordered <= available ==> q == ordered
    ensures 0 <= ordered ==> 0 <= q <= ordered
    ensures q <= Max(0, available)
    ensures q < ordered <==> available < ordered && 0 < ordered
    ensures available < ordered ==> q == Max(0, available)
  {
    if ordered > available then Max(0, available) else ordered
  }

  /**
   * For non-negative requests both clipping rules are
   * `min(requested, max(0, available))`, and the manual and receipt rules
   * agree on the quantity.
   */
  lemma ClippingIsMinimum(requested: int, available: int)
    requires 0 <= requested
    ensures ManualClip(requested, available).quantity == Min(requested, Max(0, available))
    ensures ReceiptQuantity(requested, available) == Min(requested, Max(0, available))
    ensures 0 <= ReceiptQuantity(requested, available)
  {
  }

  /**
   * The automatic rule is the manual rule with a different flag: it cuts
   * to the same quantity, but flags only an order with no room at all.
   */
  lemma AutoIsManualUnflagged(desired: int, available: int)
    ensures AutoClip(desired, available).quantity == ManualClip(desired, available).quantity
    ensures AutoClip(desired, available).capacityIssue <==> available <= 0
    ensures 0 < available < desired ==>
      ManualClip(desired, available).capacityIssue && !AutoClip(desired, available).capacityIssue
  {
  }
}
