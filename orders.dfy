/**
 * The purchase-order table: which orders are outstanding for a
 * (product, warehouse) pair, how an automatic reorder is built, and the
 * single-outstanding-order property that the automatic path keeps.
 */
module OrderBook {
  import opened Entities
  import opened Policy

  /** An order still outstanding for the pair (product, warehouse). */
  predicate PendingFor(o: PurchaseOrder, product: int, warehouse: int) {
    o.status == Pending && o.product == product && o.warehouse == warehouse
  }

  /**
   * `SELECT * FROM purchase_orders WHERE product_id = ? AND warehouse_id = ?
   * AND status = 'pending'` finds a row.
   */
  predicate HasPending(orders: map<int, PurchaseOrder>, product: int, warehouse: int) {
    exists id :: id in orders && PendingFor(orders[id], product, warehouse)
  }

  /** At most one outstanding order per (product, warehouse) pair. */
  ghost predicate SinglePending(orders: map<int, PurchaseOrder>) {
    forall a, b ::
      (a in orders && b in orders && orders[a].status == Pending &&
       PendingFor(orders[b], orders[a].product, orders[a].warehouse)) ==> a == b
  }

  /** Every existing order id is below the next id the table hands out. */
  ghost predicate IdsBelow(orders: map<int, PurchaseOrder>, next: int) {
    forall id :: id in orders ==> id < next
  }

  /** Rows of `before` are all still in `after`, unchanged. */
  ghost predicate Extends(before: map<int, PurchaseOrder>, after: map<int, PurchaseOrder>) {
    forall id :: id in before ==> id in after && after[id] == before[id]
  }

  /**
   * The order `ensureReorderForProduct` inserts for a product below its
   * threshold, given the space left in the product's warehouse and today.
   */
  function AutoOrder(p: Product, available: int, today: int): (po: PurchaseOrder)
    requires NeedsReorder(p)
    ensures PendingFor(po, p.id, p.warehouse)
    ensures po.supplier == OrElse(p.defaultSupplier, FALLBACK_SUPPLIER) && po.supplier != 0
    ensures po.orderDay == today && po.expectedDay == today + LEAD_TIME_DAYS
    ensures available <= 0 ==> po.quantity == 0 && po.capacityIssue
    ensures 0 < available ==> !po.capacityIssue && po.quantity == Min(DesiredQuantity(p), available)
    ensures 0 <= p.stock && 0 < available ==> 0 < po.quantity <= available
    ensures 0 <= p.stock ==> 0 <= po.quantity && p.stock + po.quantity <= 2 * p.threshold
  {
    var c := AutoClip(DesiredQuantity(p), available);
    PurchaseOrder(p.id, OrElse(p.defaultSupplier, FALLBACK_SUPPLIER), p.warehouse,
                  c.quantity, today, today + LEAD_TIME_DAYS, Pending, c.capacityIssue)
  }

  /** The order a manual request inserts, after defaults and clipping. */
  function ManualOrder(product: int, supplier: int, warehouse: int, c: Clip, today: int): (po: PurchaseOrder)
    ensures PendingFor(po, product, warehouse)
    ensures po.quantity == c.quantity && po.capacityIssue == c.capacityIssue
    ensures po.supplier == supplier
    ensures po.orderDay == today && po.expectedDay == today + LEAD_TIME_DAYS
  {
    PurchaseOrder(product, supplier, warehouse, c.quantity, today, today + LEAD_TIME_DAYS, Pending, c.capacityIssue)
  }

  /**
   * The reorder guard shared by the read and adjust paths: insert an
   * automatic order at id `next` only when the product is below its
   * threshold and its (product, warehouse) pair has no outstanding order.
   */
  function GuardedReorder(orders: map<int, PurchaseOrder>, next: int, p: Product, available: int, today: int)
    : (r: map<int, PurchaseOrder>)
    requires IdsBelow(orders, next)
    ensures Extends(orders, r) && IdsBelow(r, next + 1)
    ensures NeedsReorder(p) ==> HasPending(r, p.id, p.warehouse)
    ensures SinglePending(orders) ==> SinglePending(r)
    ensures !NeedsReorder(p) || HasPending(orders, p.id, p.warehouse) ==> r == orders
    ensures forall id :: id in r && id !in orders ==> id == next && r[id] == AutoOrder(p, available, today)
  {
    if NeedsReorder(p) && !HasPending(orders, p.id, p.warehouse) then
      var po := AutoOrder(p, available, today);
      var r := orders[next := po];
      assert Extends(orders, r);
      assert PendingFor(r[next], p.id, p.warehouse);
      InsertKeepsSinglePending(orders, next, po);
      r
    else
      orders
  }

  /**
   * Inserting an outstanding order for a pair that has none keeps at most
   * one outstanding order per pair, and gives the pair one.
   */
  lemma InsertKeepsSinglePending(orders: map<int, PurchaseOrder>, id: int, po: PurchaseOrder)
    requires id !in orders && !HasPending(orders, po.product, po.warehouse)
    ensures SinglePending(orders) ==> SinglePending(orders[id := po])
    ensures po.status == Pending ==> HasPending(orders[id := po], po.product, po.warehouse)
  {
    var after := orders[id := po];
    if po.status == Pending {
      assert PendingFor(after[id], po.product, po.warehouse);
    }
  }

  /** Adding rows never removes an outstanding order. */
  lemma ExtendsKeepsPending(before: map<int, PurchaseOrder>, after: map<int, PurchaseOrder>, product: int, warehouse: int)
    requires Extends(before, after)
    ensures HasPending(before, product, warehouse) ==> HasPending(after, product, warehouse)
  {
    if HasPending(before, product, warehouse) {
      var id :| id in before && PendingFor(before[id], product, warehouse);
      assert PendingFor(after[id], product, warehouse);
    }
  }

  /** An outstanding row is a witness of an outstanding order for its pair. */
  lemma PendingRow(orders: map<int, PurchaseOrder>, id: int)
    requires id in orders && orders[id].status == Pending
    ensures HasPending(orders, orders[id].product, orders[id].warehouse)
  {
    assert PendingFor(orders[id], orders[id].product, orders[id].warehouse);
  }

  /** Receiving an order removes an outstanding order and adds none. */
  lemma ReceiveKeepsSinglePending(orders: map<int, PurchaseOrder>, id: int)
    requires id in orders
    ensures SinglePending(orders) ==> SinglePending(orders[id := orders[id].(status := Received)])
  {
  }

  /**
   * The manual path has no outstanding-order check, so it can leave two
   * outstanding orders for one pair.
   */
  lemma ManualOrderCanDuplicate()
    ensures var first := ManualOrder(1, 1, 1, Clip(5, false), 0);
            var orders := map[1 := first];
            SinglePending(orders) && HasPending(orders, 1, 1) &&
            !SinglePending(orders[2 := ManualOrder(1, 1, 1, Clip(5, false), 0)])
  {
    var first := ManualOrder(1, 1, 1, Clip(5, false), 0);
    var after := map[1 := first][2 := first];
    assert PendingFor(after[2], after[1].product, after[1].warehouse);
    assert PendingFor(map[1 := first][1], 1, 1);
  }
}
