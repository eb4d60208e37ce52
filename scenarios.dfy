/**
 * Concrete runs of the handlers, proved from their contracts alone: the
 * reorder sizing, a receipt cut short by stock that arrived meanwhile, a
 * second receipt, a rejected adjustment, and a receipt that overfills the
 * product's warehouse because the order named another one.
 */
module Scenarios {
  import opened Entities
  import opened Ledger
  import opened Policy
  import opened OrderBook
  import opened Engine

  /**
   * Threshold 10, stock 4: the automatic order asks for 16 when 50 units
   * fit, for 5 (unflagged) when 5 fit, and for nothing (flagged) when the
   * warehouse is full.
   */
  method ReorderSizing() returns (roomy: PurchaseOrder, tight: PurchaseOrder, full: PurchaseOrder)
    ensures roomy.quantity == 16 && !roomy.capacityIssue
    ensures tight.quantity == 5 && !tight.capacityIssue
    ensures full.quantity == 0 && full.capacityIssue
    ensures roomy.status == Pending && roomy.expectedDay == roomy.orderDay + 3
  {
    var p := Product(1, "SKU-1", "rice", 4, 10, 7, 1);
    assert Find([p], 1) == Some(0);
    assert WarehouseStock([p], 1) == 4;
    var inv := new Inventory(map[1 := Warehouse("main", 54)], [p]);
    var _ := inv.GetProduct(1, 100);
    assert !HasPending(map[], 1, 1);
    roomy := inv.orders[1];

    inv := new Inventory(map[1 := Warehouse("main", 9)], [p]);
    var _ := inv.GetProduct(1, 100);
    tight := inv.orders[1];

    inv := new Inventory(map[1 := Warehouse("main", 4)], [p]);
    var _ := inv.GetProduct(1, 100);
    full := inv.orders[1];
  }

  /**
   * An order for 10 is placed while there is room; more stock then arrives
   * and leaves only 3 units of room. The receipt adds 3, reports the cut,
   * and the order is received; a second receipt fails and adds nothing.
   */
  method ReceiveWithDrift() returns (first: Result<Receipt>, second: Result<Receipt>, stockAfter: int)
    ensures first == Ok(Receipt(3, true))
    ensures second == Err(AlreadyReceived)
    ensures stockAfter == 97 + 3
  {
    var p := Product(1, "SKU-A", "oil", 4, 0, 0, 1);
    assert Find([p], 1) == Some(0) && WarehouseStock([p], 1) == 4;
    var inv := new Inventory(map[1 := Warehouse("main", 100)], [p]);
    var placed := inv.CreateOrder(1, 0, 0, Some(10), 100);
    assert inv.orders[1].quantity == 10;
    var adjusted := inv.AdjustStock(1, Some(93), 101);
    assert inv.products == [p.(stock := 97)];
    assert WarehouseStock(inv.products, 1) == 97;
    first := inv.Receive(1);
    assert inv.products == [p.(stock := 100)];
    second := inv.Receive(1);
    stockAfter := inv.products[0].stock;
  }

  /** Stock 5 and delta -10: InvalidState, and the stock stays 5. */
  method RejectNegativeStock() returns (r: Result<Adjustment>, stockAfter: int)
    ensures r == Err(InvalidState) && stockAfter == 5
  {
    var p := Product(1, "SKU-1", "tea", 5, 2, 0, 1);
    assert Find([p], 1) == Some(0);
    var inv := new Inventory(map[1 := Warehouse("main", 50)], [p]);
    r := inv.AdjustStock(1, Some(-10), 100);
    stockAfter := inv.products[0].stock;
  }

  /**
   * A product fills warehouse 1 (capacity 10). A manual order for it names
   * warehouse 2, which has room, so nothing is clipped; the receipt
   * measures warehouse 2 but credits the product, and warehouse 1 ends
   * 50 units over its capacity.
   */
  method ForeignWarehouseOverfill() returns (added: int, total: int, capacity: int)
    ensures added == 50
    ensures total == 60 && capacity == 10 && total > capacity
  {
    var p := Product(1, "SKU-1", "flour", 10, 0, 0, 1);
    assert Find([p], 1) == Some(0);
    assert WarehouseStock([p], 2) == 0;
    var inv := new Inventory(map[1 := Warehouse("north", 10), 2 := Warehouse("south", 100)], [p]);
    var placed := inv.CreateOrder(1, 0, 2, Some(50), 100);
    assert placed == Ok(OrderInfo(1, 50, false));
    var r := inv.Receive(1);
    assert inv.products == [p.(stock := 60)];
    assert WarehouseStock([p.(stock := 60)], 1) == 60;
    added := r.value.added;
    total := WarehouseStock(inv.products, 1);
    capacity := inv.warehouses[1].capacity;
  }
}
