/**
 * The transaction record shared by every stage of the pipeline, and its line
 * revenue (quantity times unit price), the one derived quantity all the
 * aggregates are built on.
 */
module Transactions {
  import opened Collections

  /**
   * One sales line. `parse_transactions` stores it under the keys
   * TransactionID, Date, ProductID, ProductName, Quantity, UnitPrice,
   * CustomerID and Region; `parse_and_clean_data` under their snake_case
   * spellings. Money is an exact `real`.
   */
  datatype Transaction = Transaction(
    transactionId: string,
    date: string,
    productId: string,
    productName: string,
    quantity: int,
    unitPrice: real,
    customerId: string,
    region: string)

  /** `t["Quantity"] * t["UnitPrice"]`. */
  function Revenue(t: Transaction): real
  {
    t.quantity as real * t.unitPrice
  }

  function Quantity(t: Transaction): real
  {
    t.quantity as real
  }

  /** The revenue of all the transactions together. */
  function TotalRevenue(ts: seq<Transaction>): real
  {
    SumOf(ts, Revenue)
  }

  /** Transactions that all have a positive revenue have a positive total, unless there are none. */
  lemma {:induction false} TotalRevenuePositive(ts: seq<Transaction>)
    requires forall t :: t in ts ==> Revenue(t) > 0.0
    ensures ts == [] ==> TotalRevenue(ts) == 0.0
    ensures ts != [] ==> TotalRevenue(ts) > 0.0
  {
    if ts != [] {
      TotalRevenuePositive(ts[1..]);
    }
  }

  /** The number of units sold over all the transactions. */
  function TotalQuantity(ts: seq<Transaction>): real
  {
    SumOf(ts, Quantity)
  }

  /** Python's `round(x, 2)`, taken as rounding half up to two decimals. */
  function Round2(x: real): (r: real)
    ensures x - 0.005 < r <= x + 0.005
  {
    ((x * 100.0 + 0.5).Floor as real) / 100.0
  }

  function RegionOf(t: Transaction): string { t.region }
  function ProductNameOf(t: Transaction): string { t.productName }
  function CustomerOf(t: Transaction): string { t.customerId }
  function DateOf(t: Transaction): string { t.date }
}
