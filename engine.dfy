/**
 * The inventory service's handlers as one object over its three tables.
 * Each handler runs as one atomic step; its answer is a `Result`.
 */
module Engine {
  import opened Entities
  import opened Ledger
  import opened Policy
  import opened OrderBook

  /** What a handler reports about an order it inserted. */
  datatype OrderInfo = OrderInfo(orderId: int, quantity: int, capacityIssue: bool)

  /** The answer of a successful stock adjustment. */
  datatype Adjustment = Adjustment(product: Product, reorder: Option<OrderInfo>)

  /** The answer of a successful receipt. */
  datatype Receipt = Receipt(added: int, capacityLimited: bool)

  class Inventory {
    var products: seq<Product>
    var warehouses: map<int, Warehouse>
    var orders: map<int, PurchaseOrder>
    var nextOrderId: int

    /**
     * Table invariant: product ids are a key, stock is never negative, and
     * every product and every order points at a warehouse that exists
     * (and every order at a product that exists).
     */
    ghost predicate Valid()
      reads this
    {
      TablesValid(products, warehouses, orders, nextOrderId)
    }

    /** A store holding the given warehouses and products and no orders. */
    constructor (warehouses: map<int, Warehouse>, products: seq<Product>)
      requires DistinctIds(products) && AllNonNegative(products)
      requires forall k :: 0 <= k < |products| ==> products[k].warehouse in warehouses
      ensures Valid()
      ensures this.warehouses == warehouses && this.products == products
      ensures orders == map[] && nextOrderId == 1
    {
      this.warehouses := warehouses;
      this.products := products;
      orders := map[];
      nextOrderId := 1;
    }

    /** `GET /warehouses`: every warehouse with its available space. */
    function WarehouseSpaces(): (spaces: map<int, int>)
      reads this
      requires Valid()
      ensures spaces.Keys == warehouses.Keys
      ensures forall w :: w in spaces ==> spaces[w] + WarehouseStock(products, w) == warehouses[w].capacity
      ensures forall w :: w in spaces ==> spaces[w] <= warehouses[w].capacity
      ensures forall w :: w in spaces && (forall k :: 0 <= k < |products| ==> products[k].warehouse != w) ==>
                spaces[w] == warehouses[w].capacity
    {
      map w | w in warehouses :: AvailableSpace(warehouses, products, w)
    }

    /**
     * `ensureReorderForProduct`: nothing when the product is at or above
     * its threshold; otherwise one new outstanding order for the product's
     * own warehouse, sized by the space left there. No stock changes.
     */
    method EnsureReorder(p: Product, today: int) returns (info: Option<OrderInfo>)
      requires Valid() && p in products
      modifies this
      ensures Valid()
      ensures products == old(products) && warehouses == old(warehouses)
      ensures !NeedsReorder(p) ==>
        info == None && orders == old(orders) && nextOrderId == old(nextOrderId)
      ensures NeedsReorder(p) ==>
        var po := AutoOrder(p, AvailableSpace(warehouses, products, p.warehouse), today);
        && orders == old(orders)[old(nextOrderId) := po]
        && nextOrderId == old(nextOrderId) + 1
        && info == Some(OrderInfo(old(nextOrderId), po.quantity, po.capacityIssue))
    {
      if !NeedsReorder(p) {
        return None;
      }
      var available := AvailableSpace(warehouses, products, p.warehouse);
      var po := AutoOrder(p, available, today);
      var id := nextOrderId;
      orders := orders[id := po];
      nextOrderId := id + 1;
      info := Some(OrderInfo(id, po.quantity, po.capacityIssue));
    }

    /**
     * The guard of the read and adjust paths: reorder only when the
     * product is below its threshold and its (product, warehouse) pair has
     * no outstanding order.
     */
    method ReorderUnlessPending(p: Product, today: int) returns (info: Option<OrderInfo>)
      requires Valid() && p in products
      modifies this
      ensures Valid()
      ensures products == old(products) && warehouses == old(warehouses)
      ensures orders == GuardedReorder(old(orders), old(nextOrderId), p,
                                       AvailableSpace(warehouses, products, p.warehouse), today)
      ensures nextOrderId == old(nextOrderId) + (if old(nextOrderId) in orders then 1 else 0)
      ensures info.Some? <==> old(nextOrderId) in orders
      ensures info.Some? ==> info == Some(OrderInfo(old(nextOrderId), orders[old(nextOrderId)].quantity,
                                                    orders[old(nextOrderId)].capacityIssue))
    {
      var existing := HasPending(orders, p.id, p.warehouse);
      info := None;
      if NeedsReorder(p) && !existing {
        info := EnsureReorder(p, today);
      }
    }

    /**
     * `GET /products`: runs the guarded reorder for every product in
     * turn, then answers the (unchanged) products. Afterwards every
     * product below its threshold has an outstanding order for its pair.
     * The sweep adds only automatic orders, each for a product below its
     * threshold whose pair had no outstanding order before the sweep, and
     * at most one per pair.
     */
    method ListProducts(today: int) returns (rows: seq<Product>)
      requires Valid()
      modifies this
      ensures Valid()
      ensures rows == products == old(products) && warehouses == old(warehouses)
      ensures Extends(old(orders), orders)
      ensures forall k :: 0 <= k < |rows| && NeedsReorder(rows[k]) ==>
                HasPending(orders, rows[k].id, rows[k].warehouse)
      ensures old(SinglePending(orders)) ==> SinglePending(orders)
      ensures forall id :: id in orders && id !in old(orders) ==> orders[id].status == Pending
      ensures SweepOrders(old(orders), orders, rows, warehouses, today)
      ensures old(nextOrderId) <= nextOrderId
      ensures forall id :: (id in orders && id !in old(orders)) <==> old(nextOrderId) <= id < nextOrderId
      ensures forall id :: id in orders && id !in old(orders) ==>
                !HasPending(old(orders), orders[id].product, orders[id].warehouse)
    {
      var all := products;
      for i := 0 to |all|
        invariant Valid()
        invariant products == all && warehouses == old(warehouses)
        invariant old(SinglePending(orders)) ==> SinglePending(orders)
        invariant Swept(old(orders), old(nextOrderId), orders, nextOrderId, all, warehouses, today, i)
      {
        ghost var before, next := orders, nextOrderId;
        var _ := ReorderUnlessPending(all[i], today);
        SweepAdvance(old(orders), old(nextOrderId), before, orders, next, nextOrderId, all, warehouses, today, i);
      }
      rows := products;
    }

    /**
     * `GET /products/:id`: NotFound for an unknown id; otherwise the
     * guarded reorder for that product, then the product itself.
     */
    method GetProduct(id: int, today: int) returns (r: Result<Product>)
      requires Valid()
      modifies this
      ensures Valid()
      ensures products == old(products) && warehouses == old(warehouses)
      ensures r.Err? <==> Find(products, id).None?
      ensures r.Err? ==> r.error == NotFound && orders == old(orders) && nextOrderId == old(nextOrderId)
      ensures r.Ok? ==>
        var p := products[Find(products, id).value];
        && r.value == p
        && orders == GuardedReorder(old(orders), old(nextOrderId), p,
                                    AvailableSpace(warehouses, products, p.warehouse), today)
        && nextOrderId == old(nextOrderId) + (if old(nextOrderId) in orders then 1 else 0)
    {
      var k := Find(products, id);
      if k.None? {
        return Err(NotFound);
      }
      var p := products[k.value];
      var _ := ReorderUnlessPending(p, today);
      r := Ok(p);
    }

    /**
     * `POST /products/:id/adjust-stock`: a non-numeric delta is
     * InvalidInput, an unknown id NotFound, a result below zero
     * InvalidState; none of them changes anything. Otherwise only that
     * product's stock changes, by exactly `delta`, and then the guarded
     * reorder runs for the updated product.
     */
    method AdjustStock(id: int, delta: Option<int>, today: int) returns (r: Result<Adjustment>)
      requires Valid()
      modifies this
      ensures Valid() && warehouses == old(warehouses)
      ensures r.Err? ==> products == old(products) && orders == old(orders) && nextOrderId == old(nextOrderId)
      ensures r.Err? ==> r.error in {InvalidInput, NotFound, InvalidState}
      ensures r == Err(InvalidInput) <==> delta.None?
      ensures delta.Some? ==> (r == Err(NotFound) <==> Find(old(products), id).None?)
      ensures delta.Some? && Find(old(products), id).Some? ==>
        var was := old(products)[Find(old(products), id).value];
        && (r == Err(InvalidState) <==> was.stock + delta.value < 0)
        && (r.Ok? ==>
              var now := was.(stock := was.stock + delta.value);
              && products == AdjustRow(old(products), id, delta.value)
              && r.value.product == now
              && orders == GuardedReorder(old(orders), old(nextOrderId), now,
                                          AvailableSpace(warehouses, products, now.warehouse), today)
              && nextOrderId == old(nextOrderId) + (if old(nextOrderId) in orders then 1 else 0)
              && (r.value.reorder.Some? <==> old(nextOrderId) in orders)
              && (r.value.reorder.Some? ==>
                    r.value.reorder.value == OrderInfo(old(nextOrderId), orders[old(nextOrderId)].quantity,
                                                       orders[old(nextOrderId)].capacityIssue)))
    {
      if delta.None? {
        return Err(InvalidInput);
      }
      var k := Find(products, id);
      if k.None? {
        return Err(NotFound);
      }
      var i := k.value;
      var newQty := products[i].stock + delta.value;
      if newQty < 0 {
        return Err(InvalidState);
      }
      AdjustKeepsValid(products, warehouses, orders, nextOrderId, i, delta.value);
      products := AdjustRow(products, id, delta.value);
      var updated := products[i];
      var info := ReorderUnlessPending(updated, today);
      r := Ok(Adjustment(updated, info));
    }

    /**
     * `POST /orders`: a missing product id or non-numeric quantity is
     * InvalidInput, an unknown product NotFound, an unknown warehouse a
     * server error; none of them changes anything. Otherwise supplier and
     * warehouse default to the product's, the quantity is clipped to the
     * space left, and one outstanding order is inserted, whether or not
     * the pair already has one.
     */
    method CreateOrder(productId: int, supplierId: int, warehouseId: int, quantity: Option<int>, today: int)
      returns (r: Result<OrderInfo>)
      requires Valid()
      modifies this
      ensures Valid() && products == old(products) && warehouses == old(warehouses)
      ensures r.Err? ==> orders == old(orders) && nextOrderId == old(nextOrderId)
      ensures r.Err? ==> r.error in {InvalidInput, NotFound, ServerError}
      ensures r == Err(InvalidInput) <==> productId == 0 || quantity.None?
      ensures productId != 0 && quantity.Some? ==> (r == Err(NotFound) <==> Find(products, productId).None?)
      ensures productId != 0 && quantity.Some? && Find(products, productId).Some? ==>
        var p := products[Find(products, productId).value];
        var w := OrElse(warehouseId, p.warehouse);
        var s := OrElse(supplierId, OrElse(p.defaultSupplier, FALLBACK_SUPPLIER));
        && (r == Err(ServerError) <==> w !in warehouses)
        && (r.Ok? ==>
              var c := ManualClip(quantity.value, AvailableSpace(warehouses, products, w));
              && r.value == OrderInfo(old(nextOrderId), c.quantity, c.capacityIssue)
              && orders == old(orders)[old(nextOrderId) := ManualOrder(productId, s, w, c, today)]
              && nextOrderId == old(nextOrderId) + 1)
    {
      if productId == 0 || quantity.None? {
        return Err(InvalidInput);
      }
      var k := Find(products, productId);
      if k.None? {
        return Err(NotFound);
      }
      var p := products[k.value];
      var supplier := OrElse(supplierId, OrElse(p.defaultSupplier, FALLBACK_SUPPLIER));
      var warehouse := OrElse(warehouseId, p.warehouse);
      if warehouse !in warehouses {
        return Err(ServerError);
      }
      var c := ManualClip(quantity.value, AvailableSpace(warehouses, products, warehouse));
      var id := nextOrderId;
      orders := orders[id := ManualOrder(productId, supplier, warehouse, c, today)];
      nextOrderId := id + 1;
      r := Ok(OrderInfo(id, c.quantity, c.capacityIssue));
    }

    /**
     * `POST /orders/:id/receive`: NotFound for an unknown order,
     * AlreadyReceived for a received one; neither changes anything.
     * Otherwise the space of the order's warehouse is measured again, the
     * product is credited with what fits (if anything), and the order
     * becomes received, so a second receipt fails. The order's warehouse
     * ends within its capacity whenever stock was added.
     */
    method Receive(id: int) returns (r: Result<Receipt>)
      requires Valid()
      modifies this
      ensures Valid() && warehouses == old(warehouses) && nextOrderId == old(nextOrderId)
      ensures r.Err? ==> products == old(products) && orders == old(orders)
      ensures r.Err? ==> r.error in {NotFound, AlreadyReceived}
      ensures r == Err(NotFound) <==> id !in old(orders)
      ensures r == Err(AlreadyReceived) <==> id in old(orders) && old(orders)[id].status == Received
      ensures r.Ok? ==>
        var po := old(orders)[id];
        var q := ReceiptQuantity(po.quantity, AvailableSpace(warehouses, old(products), po.warehouse));
        && r.value == Receipt(q, q < po.quantity)
        && orders == old(orders)[id := po.(status := Received)]
        && products == Credit(old(products), po.product, q)
      ensures r.Ok? ==> orders[id].status == Received
      ensures r.Ok? && 0 < r.value.added ==>
        WarehouseStock(products, orders[id].warehouse) <= warehouses[orders[id].warehouse].capacity
      ensures old(SinglePending(orders)) ==> SinglePending(orders)
    {
      if id !in orders {
        return Err(NotFound);
      }
      var po := orders[id];
      if po.status == Received {
        return Err(AlreadyReceived);
      }
      var available := AvailableSpace(warehouses, products, po.warehouse);
      var qtyToAdd := ReceiptQuantity(po.quantity, available);
      ReceiptKeepsValid(products, warehouses, orders, nextOrderId, id, qtyToAdd);
      ReceiveKeepsSinglePending(orders, id);
      if qtyToAdd > 0 {
        products := AdjustRow(products, po.product, qtyToAdd);
      }
      orders := orders[id := po.(status := Received)];
      r := Ok(Receipt(qtyToAdd, qtyToAdd < po.quantity));
    }
  }

  ghost predicate TablesValid(products: seq<Product>, warehouses: map<int, Warehouse>,
                              orders: map<int, PurchaseOrder>, nextOrderId: int)
  {
    && DistinctIds(products)
    && AllNonNegative(products)
    && (forall k :: 0 <= k < |products| ==> products[k].warehouse in warehouses)
    && IdsBelow(orders, nextOrderId)
    && (forall id :: id in orders ==>
          orders[id].warehouse in warehouses && Find(products, orders[id].product).Some?)
  }

  /**
   * The rows a sweep over `rows` added to `before`: each is the automatic
   * order of a product below its threshold whose pair had no outstanding
   * order in `before`, sized by the space of the product's warehouse, and
   * no two of them are for the same pair.
   */
  ghost predicate SweepOrders(before: map<int, PurchaseOrder>, after: map<int, PurchaseOrder>,
                              rows: seq<Product>, warehouses: map<int, Warehouse>, today: int)
  {
    && (forall id :: id in after && id !in before ==>
          exists k :: 0 <= k < |rows| && rows[k].warehouse in warehouses && NeedsReorder(rows[k])
                    && !HasPending(before, rows[k].id, rows[k].warehouse)
                    && after[id] == AutoOrder(rows[k], AvailableSpace(warehouses, rows, rows[k].warehouse), today))
    && (forall a, b ::
          (a in after && b in after && a !in before && b !in before &&
           after[a].product == after[b].product && after[a].warehouse == after[b].warehouse) ==> a == b)
  }

  /**
   * What the sweep has done after its first `i` products, starting from the
   * orders `start` and the counter `startNext`: every old order is kept,
   * each of the first `i` products below its threshold has an outstanding
   * order for its pair, and the added orders are outstanding, described by
   * `SweepOrders`, and hold exactly the ids from `startNext` below `next`.
   */
  ghost predicate Swept(start: map<int, PurchaseOrder>, startNext: int, orders: map<int, PurchaseOrder>, next: int,
                        rows: seq<Product>, warehouses: map<int, Warehouse>, today: int, i: nat)
  {
    && i <= |rows|
    && Extends(start, orders)
    && (forall k :: 0 <= k < i && NeedsReorder(rows[k]) ==> HasPending(orders, rows[k].id, rows[k].warehouse))
    && (forall id :: id in orders && id !in start ==> orders[id].status == Pending)
    && SweepOrders(start, orders, rows, warehouses, today)
    && startNext <= next
    && (forall id :: (id in orders && id !in start) <==> startNext <= id < next)
  }

  /** One guarded reorder, for product `i`, advances `Swept` to `i + 1`. */
  lemma SweepAdvance(start: map<int, PurchaseOrder>, startNext: int, before: map<int, PurchaseOrder>,
                     after: map<int, PurchaseOrder>, next: int, newNext: int,
                     rows: seq<Product>, warehouses: map<int, Warehouse>, today: int, i: nat)
    requires Swept(start, startNext, before, next, rows, warehouses, today, i)
    requires i < |rows| && rows[i].warehouse in warehouses && IdsBelow(before, next)
    requires after == GuardedReorder(before, next, rows[i], AvailableSpace(warehouses, rows, rows[i].warehouse), today)
    requires newNext == next + (if next in after then 1 else 0)
    ensures Swept(start, startNext, after, newNext, rows, warehouses, today, i + 1)
  {
    forall k | 0 <= k < i && NeedsReorder(rows[k])
      ensures HasPending(after, rows[k].id, rows[k].warehouse)
    {
      ExtendsKeepsPending(before, after, rows[k].id, rows[k].warehouse);
    }
    SweepStep(start, before, after, rows, warehouses, next, i, today);
    SweepIds(start, before, after, startNext, next, newNext);
  }

  /** One guarded reorder of the sweep keeps `SweepOrders`. */
  lemma SweepStep(start: map<int, PurchaseOrder>, before: map<int, PurchaseOrder>, after: map<int, PurchaseOrder>,
                  rows: seq<Product>, warehouses: map<int, Warehouse>, next: int, i: nat, today: int)
    requires i < |rows| && rows[i].warehouse in warehouses
    requires IdsBelow(before, next) && Extends(start, before)
    requires forall id :: id in before && id !in start ==> before[id].status == Pending
    requires SweepOrders(start, before, rows, warehouses, today)
    requires after == GuardedReorder(before, next, rows[i], AvailableSpace(warehouses, rows, rows[i].warehouse), today)
    ensures SweepOrders(start, after, rows, warehouses, today)
  {
    var p := rows[i];
    if after != before {
      assert NeedsReorder(p) && !HasPending(before, p.id, p.warehouse);
      ExtendsKeepsPending(start, before, p.id, p.warehouse);
      forall a | a in before && a !in start
        ensures HasPending(before, before[a].product, before[a].warehouse)
      {
        PendingRow(before, a);
      }
      assert next in after && next !in before;
      assert after[next] == AutoOrder(p, AvailableSpace(warehouses, rows, p.warehouse), today);
    }
  }

  /**
   * The ids a sweep has added are the consecutive ids from the counter at
   * its start up to the current counter; a step that inserts at most the
   * current counter and advances it past the insertion keeps this.
   */
  lemma SweepIds(start: map<int, PurchaseOrder>, before: map<int, PurchaseOrder>, after: map<int, PurchaseOrder>,
                 startNext: int, next: int, newNext: int)
    requires Extends(start, before) && Extends(before, after) && IdsBelow(before, next)
    requires startNext <= next
    requires forall id :: (id in before && id !in start) <==> startNext <= id < next
    requires forall id :: id in after && id !in before ==> id == next
    requires newNext == next + (if next in after then 1 else 0)
    ensures startNext <= newNext
    ensures forall id :: (id in after && id !in start) <==> startNext <= id < newNext
  {
  }

  /** Adding a non-negative amount to one product's stock keeps the tables valid. */
  lemma AdjustKeepsValid(products: seq<Product>, warehouses: map<int, Warehouse>,
                         orders: map<int, PurchaseOrder>, nextOrderId: int, i: nat, delta: int)
    requires TablesValid(products, warehouses, orders, nextOrderId)
    requires i < |products| && 0 <= products[i].stock + delta
    ensures TablesValid(AdjustRow(products, products[i].id, delta), warehouses, orders, nextOrderId)
  {
    AdjustRowKeepsShape(products, products[i].id, delta);
    AdjustRowKeepsFind(products, products[i].id, delta);
  }

  /**
   * A receipt that credits at most the space of the order's warehouse
   * keeps the tables valid and leaves that warehouse within its capacity.
   */
  lemma ReceiptKeepsValid(products: seq<Product>, warehouses: map<int, Warehouse>,
                          orders: map<int, PurchaseOrder>, nextOrderId: int, id: int, q: int)
    requires TablesValid(products, warehouses, orders, nextOrderId) && id in orders
    requires 0 < q ==> q <= AvailableSpace(warehouses, products, orders[id].warehouse)
    ensures var po := orders[id];
            var rows := Credit(products, po.product, q);
            && TablesValid(rows, warehouses, orders[id := po.(status := Received)], nextOrderId)
            && (0 < q ==> WarehouseStock(rows, po.warehouse) <= warehouses[po.warehouse].capacity)
  {
    var po := orders[id];
    if 0 < q {
      var i := Find(products, po.product).value;
      CreditWithinCapacity(products, warehouses, i, po.warehouse, q);
      AdjustKeepsValid(products, warehouses, orders, nextOrderId, i, q);
    }
  }

  /**
   * Crediting a product with at most the space left in warehouse `w`
   * never takes `w` over its capacity, whichever warehouse the product is in.
   */
  lemma CreditWithinCapacity(products: seq<Product>, warehouses: map<int, Warehouse>, i: nat, w: int, q: int)
    requires DistinctIds(products) && i < |products| && w in warehouses
    requires 0 < q <= AvailableSpace(warehouses, products, w)
    ensures WarehouseStock(AdjustRow(products, products[i].id, q), w) <= warehouses[w].capacity
  {
    AdjustRowTotal(products, i, q, w);
  }

  /** A row update keeps every id findable. */
  lemma AdjustRowKeepsFind(rows: seq<Product>, id: int, delta: int)
    ensures forall x :: Find(rows, x).Some? ==> Find(AdjustRow(rows, id, delta), x).Some?
  {
    forall x | Find(rows, x).Some?
      ensures Find(AdjustRow(rows, id, delta), x).Some?
    {
      var k := Find(rows, x).value;
      assert AdjustRow(rows, id, delta)[k].id == x;
    }
  }
}
