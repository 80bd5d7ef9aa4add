/**
 * `customer_analysis`: per customer, the money spent, the number of
 * purchases, the average order value and the products bought, ordered by
 * money spent, largest first.
 */
module Customers {
  import opened Collections
  import opened Transactions
  import opened Sorting
  import opened Grouping

  /** A `customer_data` entry while transactions are being added. */
  datatype CustomerTotals = CustomerTotals(customer: string, totalSpent: real, purchaseCount: nat, productsBought: set<string>)

  /**
   * A `customer_data` entry after the formatting loop. The source turns the
   * product set into a list in the set's iteration order; it is kept a set.
   */
  datatype CustomerStats = CustomerStats(
    customer: string,
    totalSpent: real,
    purchaseCount: nat,
    avgOrderValue: real,
    productsBought: set<string>)

  function CustomerTotalsOf(g: Group): CustomerTotals { CustomerTotals(g.key, g.revenue, g.count, g.members) }
  function CustomerTotalsKey(c: CustomerTotals): string { c.customer }
  function CustomerKey(c: CustomerStats): string { c.customer }
  function SpentOf(c: CustomerStats): real { c.totalSpent }
  function PurchasesOf(c: CustomerStats): real { c.purchaseCount as real }

  /** `sorted(..., key=lambda x: x[1]["total_spent"], reverse=True)`. */
  function BySpentDesc(a: CustomerStats, b: CustomerStats): bool { a.totalSpent > b.totalSpent }

  lemma SpentDescIsOrder()
    ensures StrictWeakOrder(BySpentDesc)
  {
  }

  /** `customer_data` after the accumulation loop, in first-seen order. */
  function CustomerTable(ts: seq<Transaction>): seq<CustomerTotals>
  {
    MapSeq(GroupBy(ts, CustomerOf, ProductNameOf), CustomerTotalsOf)
  }

  /** Every customer in the table made at least one purchase, so the average is defined. */
  lemma CustomerCountsPositive(ts: seq<Transaction>)
    ensures forall c :: c in CustomerTable(ts) ==> 1 <= |c.productsBought| <= c.purchaseCount
  {
    var g := GroupBy(ts, CustomerOf, ProductNameOf);
    GroupByMembersBounded(ts, CustomerOf, ProductNameOf);
    forall c | c in CustomerTable(ts)
      ensures 1 <= |c.productsBought| <= c.purchaseCount
    {
      var i :| 0 <= i < |g| && CustomerTable(ts)[i] == c;
      assert g[i] in g;
    }
  }

  /** The formatting loop: each entry gains `round(total / count, 2)`. */
  function WithAverages(table: seq<CustomerTotals>): seq<CustomerStats>
    requires forall c :: c in table ==> c.purchaseCount > 0
  {
    seq(|table|, i requires 0 <= i < |table| =>
      CustomerStats(table[i].customer, table[i].totalSpent, table[i].purchaseCount,
                    Round2(table[i].totalSpent / table[i].purchaseCount as real), table[i].productsBought))
  }

  /** What `customer_analysis` returns. */
  function CustomerAnalysisOf(ts: seq<Transaction>): seq<CustomerStats>
  {
    CustomerCountsPositive(ts);
    SortBy(WithAverages(CustomerTable(ts)), BySpentDesc)
  }

  /** The accumulation loop of `customer_analysis`. */
  method AccumulateCustomers(ts: seq<Transaction>) returns (table: seq<CustomerTotals>)
    ensures table == CustomerTable(ts)
  {
    table := [];
    for i := 0 to |ts|
      invariant table == CustomerTable(ts[..i])
    {
      var t := ts[i];
      ghost var g := GroupBy(ts[..i], CustomerOf, ProductNameOf);
      IndexOfSameKeys(table, CustomerTotalsKey, g, GroupKey, t.customerId);
      var k := IndexOf(table, CustomerTotalsKey, t.customerId);
      if k < 0 {
        table := table + [CustomerTotals(t.customerId, 0.0, 0, {})];
        k := |table| - 1;
        assert table[k].productsBought + {t.productName} == {t.productName};
      }
      table := table[k := table[k].(totalSpent := table[k].totalSpent + Revenue(t),
                                    purchaseCount := table[k].purchaseCount + 1,
                                    productsBought := table[k].productsBought + {t.productName})];
      assert ts[..i + 1][..i] == ts[..i] && ts[..i + 1][i] == t;
      assert GroupBy(ts[..i + 1], CustomerOf, ProductNameOf) == AddTo(g, t, CustomerOf, ProductNameOf);
    }
    assert ts[..|ts|] == ts;
  }

  /** `customer_analysis`. */
  method CustomerAnalysis(ts: seq<Transaction>) returns (r: seq<CustomerStats>)
    ensures r == CustomerAnalysisOf(ts)
    ensures Sorted(r, BySpentDesc)
    ensures DistinctBy(r, CustomerKey)
    ensures forall k :: k in MapSeq(r, CustomerKey) <==> k in MapSeq(ts, CustomerOf)
    ensures forall c :: c in r ==> 1 <= |c.productsBought| <= c.purchaseCount
    ensures forall c :: c in r ==>
      c.totalSpent / c.purchaseCount as real - 0.005 < c.avgOrderValue <= c.totalSpent / c.purchaseCount as real + 0.005
    ensures SumOf(r, SpentOf) == TotalRevenue(ts)
    ensures SumOf(r, PurchasesOf) == |ts| as real
  {
    var table := AccumulateCustomers(ts);
    CustomerCountsPositive(ts);
    var stats: seq<CustomerStats> := [];
    for j := 0 to |table|
      invariant stats == WithAverages(table[..j])
    {
      assert table[j] in table;
      var c := table[j];
      stats := stats + [CustomerStats(c.customer, c.totalSpent, c.purchaseCount,
                                      Round2(c.totalSpent / c.purchaseCount as real), c.productsBought)];
    }
    assert table[..|table|] == table;
    r := SortBy(stats, BySpentDesc);
    CustomerAnalysisSorted(ts);
    CustomerAnalysisDict(ts);
    CustomerAnalysisEntries(ts);
    CustomerAnalysisConserves(ts);
  }

  lemma CustomerAnalysisSorted(ts: seq<Transaction>)
    ensures Sorted(CustomerAnalysisOf(ts), BySpentDesc)
  {
    SpentDescIsOrder();
    CustomerCountsPositive(ts);
    SortBySorted(WithAverages(CustomerTable(ts)), BySpentDesc);
  }

  /** One entry per customer that occurs, and no other. */
  lemma CustomerAnalysisDict(ts: seq<Transaction>)
    ensures DistinctBy(CustomerAnalysisOf(ts), CustomerKey)
    ensures forall k :: k in MapSeq(CustomerAnalysisOf(ts), CustomerKey) <==> k in MapSeq(ts, CustomerOf)
  {
    var g := GroupBy(ts, CustomerOf, ProductNameOf);
    CustomerCountsPositive(ts);
    var u := WithAverages(CustomerTable(ts));
    GroupByIsDict(ts, CustomerOf, ProductNameOf);
    assert forall i :: 0 <= i < |g| ==> CustomerKey(u[i]) == GroupKey(g[i]);
    ViewIsDict(g, GroupKey, u, CustomerKey, CustomerAnalysisOf(ts));
  }

  /**
   * Each entry holds exactly its customer's purchases: the money spent, how
   * many, which products, and the average rounded to two decimals.
   */
  lemma CustomerAnalysisEntries(ts: seq<Transaction>)
    ensures forall c :: c in CustomerAnalysisOf(ts) ==>
      var sel := Select(ts, CustomerOf, c.customer);
      c.totalSpent == TotalRevenue(sel) && c.purchaseCount == |sel| &&
      c.productsBought == MemberSet(sel, ProductNameOf) &&
      1 <= |c.productsBought| <= c.purchaseCount &&
      c.totalSpent / c.purchaseCount as real - 0.005 < c.avgOrderValue <= c.totalSpent / c.purchaseCount as real + 0.005
  {
    var g := GroupBy(ts, CustomerOf, ProductNameOf);
    CustomerCountsPositive(ts);
    var u := WithAverages(CustomerTable(ts));
    GroupByEntries(ts, CustomerOf, ProductNameOf);
    forall c | c in CustomerAnalysisOf(ts)
      ensures var sel := Select(ts, CustomerOf, c.customer);
        c.totalSpent == TotalRevenue(sel) && c.purchaseCount == |sel| &&
        c.productsBought == MemberSet(sel, ProductNameOf) &&
        1 <= |c.productsBought| <= c.purchaseCount &&
        c.totalSpent / c.purchaseCount as real - 0.005 < c.avgOrderValue <= c.totalSpent / c.purchaseCount as real + 0.005
    {
      assert c in multiset(SortBy(u, BySpentDesc));
      var i :| 0 <= i < |u| && u[i] == c;
      assert EntryIsSelection(ts, CustomerOf, ProductNameOf, g[i]);
      assert CustomerTable(ts)[i] in CustomerTable(ts);
    }
  }

  /** Money spent adds up to the total revenue, purchases to the number of transactions. */
  lemma CustomerAnalysisConserves(ts: seq<Transaction>)
    ensures SumOf(CustomerAnalysisOf(ts), SpentOf) == TotalRevenue(ts)
    ensures SumOf(CustomerAnalysisOf(ts), PurchasesOf) == |ts| as real
  {
    var g := GroupBy(ts, CustomerOf, ProductNameOf);
    CustomerCountsPositive(ts);
    var u := WithAverages(CustomerTable(ts));
    GroupByConserves(ts, CustomerOf, ProductNameOf);
    SumOfSortBy(u, BySpentDesc, SpentOf);
    SumOfSortBy(u, BySpentDesc, PurchasesOf);
    SumOfPointwise(g, GroupRevenue, u, SpentOf);
    SumOfPointwise(g, GroupCount, u, PurchasesOf);
  }
}
