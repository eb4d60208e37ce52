/**
 * The three tables of the inventory store and the outcomes of its operations.
 *
 * Identifiers are integers. As in the service, an identifier of 0 stands for
 * "not given" (a missing or falsy JSON field, or a NULL column): the service
 * reads such fields with `||` and falls back to a default.
 */
module Entities {

  /** Lead time between the order day and the expected arrival day. */
  const LEAD_TIME_DAYS: int := 3

  /** The supplier used when neither the request nor the product names one. */
  const FALLBACK_SUPPLIER: int := 1

  /** A row of the products table. */
  datatype Product = Product(
    id: int,
    sku: string,
    name: string,
    stock: int,            // quantity_in_stock
    threshold: int,        // reorder_threshold
    defaultSupplier: int,  // default_supplier_id, 0 when not set
    warehouse: int         // warehouse_id
  )

  /** A row of the warehouses table. */
  datatype Warehouse = Warehouse(name: string, capacity: int)

  datatype Status = Pending | Received

  /** A row of the purchase_orders table; days are day numbers. */
  datatype PurchaseOrder = PurchaseOrder(
    product: int,
    supplier: int,
    warehouse: int,
    quantity: int,         // quantity_ordered
    orderDay: int,
    expectedDay: int,
    status: Status,
    capacityIssue: bool
  )

  /** The error answers of the service's handlers. */
  datatype Error =
    | NotFound         // unknown product or order id (404)
    | InvalidInput     // missing id or non-numeric amount (400)
    | InvalidState     // stock would become negative (400)
    | AlreadyReceived  // order already received (400)
    | ServerError      // a lookup of a missing warehouse row throws; the handler answers 500

  datatype Result<T> = Ok(value: T) | Err(error: Error)

  datatype Option<T> = None | Some(value: T)

  /** JavaScript's `id || fallback` for identifiers, where 0 is falsy. */
  function OrElse(id: int, fallback: int): (r: int)
    ensures id != 0 ==> r == id
    ensures id == 0 ==> r == fallback
    ensures fallback != 0 ==> r != 0
  {
    if id != 0 then id else fallback
  }

  function Min(a: int, b: int): (r: int) { if a <= b then a else b }

  function Max(a: int, b: int): (r: int) { if a >= b then a else b }
}
