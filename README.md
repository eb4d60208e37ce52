# Souk inventory: reorder and purchase-order engine

A Dafny model of the business logic of the Souk inventory service
(`server.js`). The service keeps three tables: products (stock, reorder
threshold, default supplier, warehouse), warehouses (capacity) and purchase
orders (product, supplier, warehouse, quantity, order and expected day, status
`pending`/`received`, capacity-issue flag). Its handlers do the following:

- read products, and place an automatic reorder for every product below its
  threshold that has no pending order;
- adjust a product's stock by a signed delta;
- place a manual order;
- receive an order, crediting only what still fits in the warehouse;
- report each warehouse's available space.

Layout, one module per component:

- `entities.dfy` (`Entities`): the table rows, the error answers, the lead
  time of 3 days and the supplier fallback of 1. Id 0 stands for the falsy
  "not given" id that the service replaces with `||`.
- `ledger.dfy` (`Ledger`): the products table as a sequence of rows with
  distinct ids, the per-warehouse stock sum, available space, and the
  single-row stock update.
- `policy.dfy` (`Policy`): the quantity arithmetic. It covers the desired
  reorder quantity, the automatic and manual clipping rules and the receipt
  amount.
- `orders.dfy` (`OrderBook`): pending-order lookup, the orders each path
  inserts, the reorder guard, and the property "at most one pending order per
  (product, warehouse)".
- `engine.dfy` (`Engine`): class `Inventory`, which holds the three tables and
  the next order id. It has one method per handler, and `Valid()` is the
  table invariant: stock is never negative, and every product and order points
  at an existing warehouse and product.
- `scenarios.dfy` (`Scenarios`): concrete runs of the handlers, proved from
  their contracts alone.

Each handler is one atomic step. Today's date is passed in as a day number,
and the expected day is the order day + 3.

Behaviour of the code that the model keeps as it is:

- The automatic reorder records `capacity_issue = 0` when it cuts the
  quantity down to the space left. Only a full warehouse, which gives a
  zero-quantity order, is flagged (`Policy.AutoIsManualUnflagged`).
- The automatic path skips a product whose pair already has a pending order.
  The manual path inserts without checking for a pending order, so a pair can
  end up with two (`OrderBook.ManualOrderCanDuplicate`).
- Receipt measures the space of the order's warehouse but credits the
  product, wherever that product lives. The order's warehouse never goes over
  capacity (`Engine.Inventory.Receive`). A manual order that names another
  warehouse can overfill the product's own warehouse
  (`Scenarios.ForeignWarehouseOverfill`).
- Manual quantities may be negative, because the service only checks that the
  value is a number. When the warehouse has space such an order is kept as
  requested and unflagged; when it has none the order becomes 0 and flagged,
  like any other. A receipt of a negative order reports the negative amount
  as added, or 0 when the warehouse is over-full by more than that, and
  credits no stock.

## Model

| member | source | states |
|---|---|---|
| `Entities.OrElse` | server.js:229-230 | `x \|\| fallback` on ids: a given id is kept, a missing one is replaced, and a non-zero fallback gives a non-zero id |
| `Ledger.Find` | server.js:177-178 | the product lookup returns a position holding that id, or reports that no row has it |
| `Ledger.WarehouseStock` | server.js:70-76 | the per-warehouse stock sum is non-negative when all stock is |
| `Ledger.EmptyWarehouseStock` | server.js:72 | the sum is 0 (the `IFNULL(…, 0)` case) for a warehouse that no product is assigned to |
| `Ledger.AvailableSpace` | server.js:88-90 | space plus the warehouse's stock sum is its capacity; an empty warehouse has its whole capacity free; space never exceeds capacity |
| `Ledger.AdjustRow` | server.js:279 | the stock update changes exactly the row with that id, by exactly the delta, and leaves every other row as it was |
| `Ledger.Credit` | server.js:278-280 | the receipt's update adds `q` to exactly the rows with that id when `q` is positive and leaves the table unchanged otherwise |
| `Ledger.AdjustRowTotal` | server.js:183 | with distinct ids, a stock update moves the product's own warehouse sum by exactly the delta and leaves every other warehouse's sum unchanged |
| `Policy.NeedsReorder` | server.js:83 | the reorder trigger: stock strictly below the reorder threshold |
| `Policy.DesiredQuantity` | server.js:85-87 | the reorder quantity brings stock to twice the threshold, and for non-negative stock below the threshold it exceeds the shortage |
| `Policy.AutoClip` | server.js:92-111 | automatic quantity: 0 and flagged when there is no space; otherwise unflagged, at most the space, equal to the desired quantity or the space, and positive when the desired quantity is |
| `Policy.ManualClip` | server.js:237-245 | manual quantity: flagged exactly when there is no space or the request exceeds it; unflagged keeps the request, flagged gives max(0, space); never above max(0, space) |
| `Policy.ReceiptQuantity` | server.js:272-276 | an order that fits (ordered ≤ space) is taken whole, negative ones included; otherwise the amount is max(0, space). It is at most max(0, space), at most a non-negative order and not negative for one, and it is cut exactly when space < ordered and the order is positive |
| `Policy.ClippingIsMinimum` | server.js:237-245 | for non-negative requests both the manual rule and the receipt rule equal min(request, max(0, space)) |
| `Policy.AutoIsManualUnflagged` | server.js:103-109 | the automatic rule cuts to the same quantity as the manual rule, but flags only a full warehouse, so a partial cut is unflagged |
| `OrderBook.HasPending` | server.js:126-127 | the pending-order query: some order of the table is pending for that product and that warehouse |
| `OrderBook.AutoOrder` | server.js:94-111 | the automatic order is pending for (product, product's warehouse). Its supplier is the default or 1 and its expected day is order day + 3. Its quantity is 0 and flagged with no space, else min(desired, space) unflagged. Stock plus quantity never exceeds twice the threshold |
| `OrderBook.ManualOrder` | server.js:247-252 | the manual order is pending for the requested pair, with the chosen supplier, the clipped quantity and flag, an order day of today and an expected day of today + 3 |
| `OrderBook.GuardedReorder` | server.js:152-157 | the reorder guard keeps every existing order. Afterwards a product below its threshold has a pending order for its pair. At most one pending order per pair is preserved. Nothing is inserted at or above the threshold or when a pending order exists. The only new row is the automatic order under the next id |
| `OrderBook.InsertKeepsSinglePending` | server.js:126-129 | inserting a pending order for a pair with none keeps at most one pending order per pair and gives the pair one |
| `OrderBook.ExtendsKeepsPending` | server.js:125-131 | inserting orders never removes a pending order found earlier in the sweep |
| `OrderBook.ReceiveKeepsSinglePending` | server.js:282 | marking an order received preserves "at most one pending order per pair" |
| `OrderBook.ManualOrderCanDuplicate` | server.js:249-252 | a manual order can create a second pending order for a pair that already has one |
| `Engine.Inventory.WarehouseSpaces` | server.js:293-294 | the warehouse listing has one entry per warehouse. Each entry plus the stock sum is the capacity, never exceeds the capacity, and is the full capacity for a warehouse without products |
| `Engine.Inventory.EnsureReorder` | server.js:78-113 | nothing happens at or above the threshold; otherwise exactly one `AutoOrder` is inserted under the next id and reported. Stock and warehouses are unchanged and the invariant is kept |
| `Engine.Inventory.ReorderUnlessPending` | server.js:189-196 | the orders become `GuardedReorder` of the old orders; the next id advances and an order is reported exactly when one was inserted |
| `Engine.Inventory.ListProducts` | server.js:118-141 | after the sweep every product below its threshold has a pending order for its pair, and old orders are kept. Every new order is the `AutoOrder` of a product below its threshold whose pair had no pending order before the sweep, sized by that product's warehouse space; no pair gets two new orders, and no pair that had a pending order gets one. The new orders take exactly the consecutive ids from the old next id up to the new one, which never decreases. The products are returned unchanged |
| `Engine.Inventory.GetProduct` | server.js:144-167 | an unknown id gives NotFound with no change; otherwise the guarded reorder runs for that product and the product is returned |
| `Engine.Inventory.AdjustStock` | server.js:171-202 | a non-numeric delta gives InvalidInput, an unknown id NotFound and a negative result InvalidState, each with no change. Otherwise only that product's stock becomes stock + delta, then the guarded reorder runs with the new stock and space. The answer holds the updated product and, when an order was inserted, its id, quantity and flag |
| `Engine.Inventory.CreateOrder` | server.js:221-258 | a missing product id or non-numeric quantity gives InvalidInput, an unknown product NotFound and an unknown warehouse a server error, each with no change. Otherwise supplier and warehouse default as in the code and one `ManualOrder` with the `ManualClip` quantity is inserted under the next id, without a pending check |
| `Engine.Inventory.Receive` | server.js:261-288 | an unknown order gives NotFound and a received one AlreadyReceived, each with no change. Otherwise the product gains `ReceiptQuantity` only when it is positive and the order becomes received, so a second receipt fails. The result reports the amount and whether it was cut. The order's warehouse stays within capacity when stock is added. At most one pending order per pair is preserved |
| `Engine.SweepStep` | server.js:125-130 | one step of the sweep keeps `SweepOrders`, the account of what the sweep has added: only automatic orders for products below their threshold whose pair was free at the start, one per pair |
| `Engine.SweepIds` | server.js:125-130 | a step that inserts at most under the current counter and advances it past the insertion keeps the sweep's new ids exactly the consecutive range from the starting counter |
| `Engine.SweepAdvance` | server.js:125-130 | one guarded reorder for the next product advances the whole account of the sweep: old orders kept, the products seen so far covered, the new orders automatic, pending and one per pair, and their ids consecutive |
| `Engine.AdjustKeepsValid` | server.js:180-183 | a stock update that leaves the stock non-negative keeps the table invariant (no negative stock, ids unique, references resolve) |
| `Engine.ReceiptKeepsValid` | server.js:268-282 | a receipt that credits at most the space of the order's warehouse keeps the table invariant and leaves that warehouse within capacity when stock is added |
| `Engine.CreditWithinCapacity` | server.js:268-280 | crediting at most the space of a warehouse never takes that warehouse over its capacity, whichever warehouse the product is in |
| `Scenarios.ReorderSizing` | server.js:87-111 | threshold 10 and stock 4 give an order of 16 with 50 free, 5 (unflagged) with 5 free, and 0 (flagged) with the warehouse full |
| `Scenarios.ReceiveWithDrift` | server.js:264-284 | an order of 10 is placed, then stock grows until only 3 units fit. The receipt adds 3 and reports the cut; the second receipt gives AlreadyReceived and adds nothing |
| `Scenarios.RejectNegativeStock` | server.js:180-181 | stock 5 with delta -10 gives InvalidState and leaves stock 5 |
| `Scenarios.ForeignWarehouseOverfill` | server.js:269-279 | a manual order that names a roomy warehouse for a product in a full one is received in full, leaving the product's warehouse 50 units over capacity |

## Left out

- HTTP routing, body parsing, CORS, status codes and JSON shaping: the error
  answers are the constructors of `Entities.Error`.
- SQLite, the promise wrappers, schema bootstrapping and `app.listen`: the
  tables are in-memory fields. The constructor stands in for a loaded
  database and starts with no orders.
- `GET /orders` and the joins that only add supplier, warehouse and product
  names: these are presentation-only reads.
- Date formatting: dates are day numbers, and "now" is a parameter.
- The audit `console.log` line of the stock adjustment, and its `reason`
  field, which is only logged.
- Interleaving between awaits, so the races on the pending check and the
  capacity check: each handler is one atomic step.
- Non-integer numbers (including NaN) for `delta` and `quantity_ordered`: the
  amounts are integers, and a non-number is `None`.
- The `if (!product)` guard of `ensureReorderForProduct`: every caller passes
  an existing row.
- A product or order pointing at a missing warehouse: `Valid()` excludes it,
  because nothing in the engine creates one. The one reachable crash is a
  manual order naming an unknown warehouse, which is modelled as
  `ServerError` with no change.
- String ids from the URL: ids are integers.
- Number width: stock, capacities and quantities are JavaScript doubles in
  the service, and the stock sum is an SQLite 64-bit integer. The model uses
  unbounded integers, so it does not capture rounding above 2^53 or SUM
  overflow.
