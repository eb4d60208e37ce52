/**
 * The stock ledger and the capacity oracle: the products table as a sequence
 * of rows, the per-warehouse stock total (`getWarehouseCurrentStock`, a SQL
 * SUM with IFNULL(…, 0)), the available space of a warehouse, and the single
 * row update the service performs on stock.
 */
module Ledger {
  import opened Entities

  /** Product ids are a key of the table. */
  ghost predicate DistinctIds(rows: seq<Product>) {
    forall a, b :: 0 <= a < b < |rows| ==> rows[a].id != rows[b].id
  }

  ghost predicate AllNonNegative(rows: seq<Product>) {
    forall k :: 0 <= k < |rows| ==> rows[k].stock >= 0
  }

  /** `SELECT * FROM products WHERE id = ?`: the position of the row with that id. */
  function Find(rows: seq<Product>, id: int): (r: Option<nat>)
    ensures r.Some? ==> r.value < |rows| && rows[r.value].id == id
    ensures r.None? ==> forall k :: 0 <= k < |rows| ==> rows[k].id != id
  {
    if rows == [] then None
    else if rows[|rows| - 1].id == id then Some(|rows| - 1)
    else Find(rows[..|rows| - 1], id)
  }

  /** What one row adds to the stock total of warehouse `w`. */
  function Share(p: Product, w: int): (r: int) {
    if p.warehouse == w then p.stock else 0
  }

  /**
   * Sum of the stock of the products assigned to warehouse `w`; 0 when it
   * has none.
   */
  function WarehouseStock(rows: seq<Product>, w: int): (total: int)
    ensures AllNonNegative(rows) ==> total >= 0
  {
    if rows == [] then 0 else Share(rows[0], w) + WarehouseStock(rows[1..], w)
  }

  /** A warehouse that no product is assigned to has a stock total of 0. */
  lemma {:induction false} EmptyWarehouseStock(rows: seq<Product>, w: int)
    ensures (forall k :: 0 <= k < |rows| ==> rows[k].warehouse != w) ==> WarehouseStock(rows, w) == 0
  {
    if rows != [] && forall k :: 0 <= k < |rows| ==> rows[k].warehouse != w {
      assert forall k :: 0 <= k < |rows| - 1 ==> rows[1..][k] == rows[k + 1];
      EmptyWarehouseStock(rows[1..], w);
    }
  }

  /** Capacity minus the warehouse's stock total; negative when over-full. */
  function AvailableSpace(warehouses: map<int, Warehouse>, rows: seq<Product>, w: int): (space: int)
    requires w in warehouses
    ensures (forall k :: 0 <= k < |rows| ==> rows[k].warehouse != w) ==> space == warehouses[w].capacity
    ensures AllNonNegative(rows) ==> space <= warehouses[w].capacity
    ensures space + WarehouseStock(rows, w) == warehouses[w].capacity
  {
    EmptyWarehouseStock(rows, w);
    warehouses[w].capacity - WarehouseStock(rows, w)
  }

  /**
   * `UPDATE products SET quantity_in_stock = quantity_in_stock + delta
   * WHERE id = ?`: every row with that id gains `delta`, no other row changes.
   */
  function AdjustRow(rows: seq<Product>, id: int, delta: int): (r: seq<Product>)
    ensures |r| == |rows|
    ensures forall k :: 0 <= k < |rows| ==>
      r[k] == if rows[k].id == id then rows[k].(stock := rows[k].stock + delta) else rows[k]
  {
    if rows == [] then []
    else
      var head := if rows[0].id == id then rows[0].(stock := rows[0].stock + delta) else rows[0];
      [head] + AdjustRow(rows[1..], id, delta)
  }

  /**
   * The receipt's stock update: the product gains `q` when `q` is positive;
   * otherwise the table is left as it is.
   */
  function Credit(rows: seq<Product>, id: int, q: int): (r: seq<Product>)
    ensures |r| == |rows|
    ensures forall k :: 0 <= k < |rows| ==>
      r[k] == if rows[k].id == id && 0 < q then rows[k].(stock := rows[k].stock + q) else rows[k]
  {
    if 0 < q then AdjustRow(rows, id, q) else rows
  }

  /** A row update keeps the key, the warehouses and the distinctness of ids. */
  lemma AdjustRowKeepsShape(rows: seq<Product>, id: int, delta: int)
    ensures forall k :: 0 <= k < |rows| ==>
      AdjustRow(rows, id, delta)[k].id == rows[k].id &&
      AdjustRow(rows, id, delta)[k].warehouse == rows[k].warehouse
    ensures DistinctIds(rows) ==> DistinctIds(AdjustRow(rows, id, delta))
  {
  }

  /** Updating an id that no row has leaves the table as it is. */
  lemma AdjustMissingRow(rows: seq<Product>, id: int, delta: int)
    requires forall k :: 0 <= k < |rows| ==> rows[k].id != id
    ensures AdjustRow(rows, id, delta) == rows
  {
  }

  /**
   * The stock total of every warehouse moves by `delta` exactly when the
   * updated row belongs to it: the ledger and the oracle stay consistent.
   */
  lemma {:induction false} AdjustRowTotal(rows: seq<Product>, i: nat, delta: int, w: int)
    requires i < |rows| && DistinctIds(rows)
    ensures WarehouseStock(AdjustRow(rows, rows[i].id, delta), w)
         == WarehouseStock(rows, w) + (if rows[i].warehouse == w then delta else 0)
  {
    var id := rows[i].id;
    var r := AdjustRow(rows, id, delta);
    assert r == [r[0]] + AdjustRow(rows[1..], id, delta);
    assert r[1..] == AdjustRow(rows[1..], id, delta);
    if i == 0 {
      AdjustMissingRow(rows[1..], id, delta);
    } else {
      assert rows[1..][i - 1] == rows[i];
      AdjustRowTotal(rows[1..], i - 1, delta, w);
    }
  }
}
