/**
 * `calculate_total_revenue` and `region_wise_sales`: the grand total, and
 * per region its sales, its number of transactions and its share of the
 * grand total in percent, ordered by sales, largest first.
 */
module Regions {
  import opened Wrappers
  import opened Collections
  import opened Transactions
  import opened Sorting
  import opened Grouping

  /** `calculate_total_revenue`: the revenue of every transaction, added up in order. */
  method CalculateTotalRevenue(ts: seq<Transaction>) returns (total: real)
    ensures total == TotalRevenue(ts)
  {
    total := 0.0;
    for i := 0 to |ts|
      invariant total == TotalRevenue(ts[..i])
    {
      assert ts[..i + 1] == ts[..i] + [ts[i]];
      SumOfAppend(ts[..i], [ts[i]], Revenue);
      assert [ts[i]][1..] == [];
      total := total + Revenue(ts[i]);
    }
    assert ts[..|ts|] == ts;
  }

  /** The "division by zero" the source raises when it computes a share of a zero total. */
  datatype ArithmeticError = ZeroDivisionError

  /** A `region_data` entry while transactions are being added. */
  datatype RegionTotals = RegionTotals(region: string, totalSales: real, transactionCount: nat)

  /** A `region_data` entry once its percentage is set. */
  datatype RegionSales = RegionSales(region: string, totalSales: real, transactionCount: nat, percentage: real)

  function RegionTotalsOf(g: Group): RegionTotals { RegionTotals(g.key, g.revenue, g.count) }
  function RegionTotalsKey(r: RegionTotals): string { r.region }
  function RegionName(r: RegionSales): string { r.region }
  function SalesOf(r: RegionSales): real { r.totalSales }
  function TransactionsOf(r: RegionSales): real { r.transactionCount as real }
  function PercentageOf(r: RegionSales): real { r.percentage }

  /** `sorted(..., key=lambda x: x[1]["total_sales"], reverse=True)`. */
  function BySalesDesc(a: RegionSales, b: RegionSales): bool { a.totalSales > b.totalSales }

  lemma SalesDescIsOrder()
    ensures StrictWeakOrder(BySalesDesc)
  {
  }

  /** The region dict after the accumulation loop, in first-seen order. */
  function RegionTable(ts: seq<Transaction>): seq<RegionTotals>
  {
    MapSeq(GroupBy(ts, RegionOf, RegionOf), RegionTotalsOf)
  }

  /** The percentage loop: each region's share of `total`, rounded to two decimals. */
  function WithPercentages(table: seq<RegionTotals>, total: real): seq<RegionSales>
    requires table != [] ==> total != 0.0
  {
    seq(|table|, i requires 0 <= i < |table| =>
      RegionSales(table[i].region, table[i].totalSales, table[i].transactionCount,
                  Round2(table[i].totalSales / total * 100.0)))
  }

  /** What `region_wise_sales` returns, or the error it raises. */
  function RegionSalesOf(ts: seq<Transaction>): Result<seq<RegionSales>, ArithmeticError>
  {
    var table := RegionTable(ts);
    var total := TotalRevenue(ts);
    if table != [] && total == 0.0 then Failure(ZeroDivisionError)
    else Success(SortBy(WithPercentages(table, total), BySalesDesc))
  }

  /** The first loop of `region_wise_sales`: sales and transaction count per region, in first-seen order. */
  method AccumulateRegions(ts: seq<Transaction>) returns (table: seq<RegionTotals>)
    ensures table == RegionTable(ts)
  {
    table := [];
    for i := 0 to |ts|
      invariant table == RegionTable(ts[..i])
    {
      var t := ts[i];
      ghost var g := GroupBy(ts[..i], RegionOf, RegionOf);
      IndexOfSameKeys(table, RegionTotalsKey, g, GroupKey, t.region);
      var k := IndexOf(table, RegionTotalsKey, t.region);
      if k < 0 {
        table := table + [RegionTotals(t.region, 0.0, 0)];
        k := |table| - 1;
        MapSeqAppend(g, Group(t.region, Revenue(t), 1, t.quantity, {t.region}), RegionTotalsOf);
      } else {
        MapSeqUpdate(g, k, AddTo(g, t, RegionOf, RegionOf)[k], RegionTotalsOf);
      }
      table := table[k := table[k].(totalSales := table[k].totalSales + Revenue(t),
                                    transactionCount := table[k].transactionCount + 1)];
      assert ts[..i + 1][..i] == ts[..i] && ts[..i + 1][i] == t;
      assert GroupBy(ts[..i + 1], RegionOf, RegionOf) == AddTo(g, t, RegionOf, RegionOf);
    }
    assert ts[..|ts|] == ts;
  }

  /** `region_wise_sales`. */
  method RegionWiseSales(ts: seq<Transaction>) returns (r: Result<seq<RegionSales>, ArithmeticError>)
    ensures r == RegionSalesOf(ts)
    ensures r.Failure? <==> ts != [] && TotalRevenue(ts) == 0.0
    ensures r.Success? ==> Sorted(r.value, BySalesDesc)
    ensures r.Success? ==> DistinctBy(r.value, RegionName)
    ensures r.Success? ==> forall k :: k in MapSeq(r.value, RegionName) <==> k in MapSeq(ts, RegionOf)
    ensures r.Success? ==> SumOf(r.value, SalesOf) == TotalRevenue(ts)
    ensures r.Success? ==> SumOf(r.value, TransactionsOf) == |ts| as real
  {
    var total := CalculateTotalRevenue(ts);
    var table := AccumulateRegions(ts);
    var sales: seq<RegionSales> := [];
    for j := 0 to |table|
      invariant j > 0 ==> total != 0.0
      invariant sales == WithPercentages(table[..j], total)
    {
      if total == 0.0 {
        RegionTableEmpty(ts);
        return Failure(ZeroDivisionError);
      }
      sales := sales + [RegionSales(table[j].region, table[j].totalSales, table[j].transactionCount,
                                    Round2(table[j].totalSales / total * 100.0))];
    }
    assert table[..|table|] == table;
    RegionTableEmpty(ts);
    r := Success(SortBy(sales, BySalesDesc));
    RegionSalesSorted(ts);
    RegionSalesDict(ts);
    RegionSalesConserve(ts);
  }

  /** When every line has positive revenue, as after validation, the shares are always defined. */
  lemma RegionSalesSucceed(ts: seq<Transaction>)
    requires forall t :: t in ts ==> Revenue(t) > 0.0
    ensures RegionSalesOf(ts).Success?
  {
    TotalRevenuePositive(ts);
    RegionTableEmpty(ts);
  }

  lemma RegionTableEmpty(ts: seq<Transaction>)
    ensures RegionTable(ts) == [] <==> ts == []
  {
    GroupByIsDict(ts, RegionOf, RegionOf);
  }

  /** Regions come out ordered by sales, largest first, ties in first-seen order. */
  lemma RegionSalesSorted(ts: seq<Transaction>)
    requires RegionSalesOf(ts).Success?
    ensures Sorted(RegionSalesOf(ts).value, BySalesDesc)
  {
    SalesDescIsOrder();
    var table := RegionTable(ts);
    SortBySorted(WithPercentages(table, TotalRevenue(ts)), BySalesDesc);
  }

  /** The result is a dict whose keys are exactly the regions that occur. */
  lemma RegionSalesDict(ts: seq<Transaction>)
    requires RegionSalesOf(ts).Success?
    ensures DistinctBy(RegionSalesOf(ts).value, RegionName)
    ensures forall k :: k in MapSeq(RegionSalesOf(ts).value, RegionName) <==> k in MapSeq(ts, RegionOf)
  {
    var g := GroupBy(ts, RegionOf, RegionOf);
    var u := WithPercentages(RegionTable(ts), TotalRevenue(ts));
    GroupByIsDict(ts, RegionOf, RegionOf);
    assert forall i :: 0 <= i < |g| ==> RegionName(u[i]) == GroupKey(g[i]);
    var r := SortBy(u, BySalesDesc);
    ViewIsDict(g, GroupKey, u, RegionName, r);
    assert r == RegionSalesOf(ts).value;
  }

  /** Region sales add up to the grand total, and region counts to the number of transactions. */
  lemma RegionSalesConserve(ts: seq<Transaction>)
    requires RegionSalesOf(ts).Success?
    ensures SumOf(RegionSalesOf(ts).value, SalesOf) == TotalRevenue(ts)
    ensures SumOf(RegionSalesOf(ts).value, TransactionsOf) == |ts| as real
  {
    var g := GroupBy(ts, RegionOf, RegionOf);
    var u := WithPercentages(RegionTable(ts), TotalRevenue(ts));
    GroupByConserves(ts, RegionOf, RegionOf);
    SumOfSortBy(u, BySalesDesc, SalesOf);
    SumOfSortBy(u, BySalesDesc, TransactionsOf);
    SumOfPointwise(g, GroupRevenue, u, SalesOf);
    SumOfPointwise(g, GroupCount, u, TransactionsOf);
  }

  /** Each region's entry holds the sales and the number of exactly that region's transactions. */
  lemma RegionSalesEntries(ts: seq<Transaction>)
    requires RegionSalesOf(ts).Success?
    ensures forall x :: x in RegionSalesOf(ts).value ==>
      x.totalSales == TotalRevenue(Select(ts, RegionOf, x.region)) &&
      x.transactionCount == |Select(ts, RegionOf, x.region)|
  {
    var g := GroupBy(ts, RegionOf, RegionOf);
    var u := WithPercentages(RegionTable(ts), TotalRevenue(ts));
    GroupByEntries(ts, RegionOf, RegionOf);
    forall x | x in RegionSalesOf(ts).value
      ensures x.totalSales == TotalRevenue(Select(ts, RegionOf, x.region))
      ensures x.transactionCount == |Select(ts, RegionOf, x.region)|
    {
      assert x in multiset(SortBy(u, BySalesDesc));
      assert x in multiset(u);
      var i :| 0 <= i < |u| && u[i] == x;
      assert x.region == g[i].key && x.totalSales == g[i].revenue && x.transactionCount == g[i].count;
      assert EntryIsSelection(ts, RegionOf, RegionOf, g[i]);
    }
  }

  lemma ShareIsScaled(a: real, total: real)
    requires total != 0.0
    ensures a / total * 100.0 == a * (100.0 / total)
  {
    var d, q := a / total, 100.0 / total;
    assert d * total == a && q * total == 100.0;
    calc {
      a * q;
      (d * total) * q;
      d * (q * total);
      d * 100.0;
    }
  }

  /** Every percentage in `u` is within half a hundredth of `q` times its sales. */
  ghost predicate NearShares(u: seq<RegionSales>, q: real)
  {
    forall x :: x in u ==> SalesOf(x) * q - 0.005 < PercentageOf(x) <= SalesOf(x) * q + 0.005
  }

  /** Percentages each within half a hundredth of `q` times their sales add up to within as many half hundredths of `q` times the sales. */
  lemma {:induction false} PercentagesTrackShares(u: seq<RegionSales>, q: real)
    requires NearShares(u, q)
    ensures SumOf(u, SalesOf) * q - 0.005 * |u| as real <= SumOf(u, PercentageOf)
    ensures SumOf(u, PercentageOf) <= SumOf(u, SalesOf) * q + 0.005 * |u| as real
  {
    if u != [] {
      assert NearShares(u[1..], q) by {
        forall x | x in u[1..] ensures SalesOf(x) * q - 0.005 < PercentageOf(x) <= SalesOf(x) * q + 0.005 {
          assert x in u;
        }
      }
      PercentagesTrackShares(u[1..], q);
      assert u[0] in u;
      var a, rest := SalesOf(u[0]), SumOf(u[1..], SalesOf);
      assert (a + rest) * q == a * q + rest * q;
    }
  }

  /** Each rounded percentage is within half a hundredth of the exact share. */
  lemma WithPercentagesNearShares(table: seq<RegionTotals>, total: real)
    requires total != 0.0
    ensures NearShares(WithPercentages(table, total), 100.0 / total)
  {
    forall x | x in WithPercentages(table, total)
      ensures SalesOf(x) * (100.0 / total) - 0.005 < PercentageOf(x) <= SalesOf(x) * (100.0 / total) + 0.005
    {
      ShareIsScaled(x.totalSales, total);
    }
  }

  /** Shares rounded to within half a hundredth each add up to 100 within as many half hundredths. */
  lemma SharesAddUpTo100(u: seq<RegionSales>, total: real, q: real)
    requires SumOf(u, SalesOf) == total && q * total == 100.0
    requires NearShares(u, q)
    ensures 100.0 - 0.005 * |u| as real <= SumOf(u, PercentageOf) <= 100.0 + 0.005 * |u| as real
  {
    PercentagesTrackShares(u, q);
  }

  /** The percentage loop's output adds up to 100, up to rounding, when the sales add up to the total. */
  lemma WithPercentagesNear100(table: seq<RegionTotals>, total: real)
    requires total != 0.0 && SumOf(WithPercentages(table, total), SalesOf) == total
    ensures var u := WithPercentages(table, total);
      100.0 - 0.005 * |u| as real <= SumOf(u, PercentageOf) <= 100.0 + 0.005 * |u| as real
  {
    WithPercentagesNearShares(table, total);
    HundredOverTotal(total);
    SharesAddUpTo100(WithPercentages(table, total), total, 100.0 / total);
  }

  lemma HundredOverTotal(total: real)
    requires total != 0.0
    ensures (100.0 / total) * total == 100.0
  {
  }

  /**
   * The percentages add up to 100, up to the rounding of each one to two
   * decimals: at most half a hundredth per region either way.
   */
  lemma RegionPercentagesNear100(ts: seq<Transaction>)
    requires RegionSalesOf(ts).Success? && ts != []
    ensures var r := RegionSalesOf(ts).value;
      100.0 - 0.005 * |r| as real <= SumOf(r, PercentageOf) <= 100.0 + 0.005 * |r| as real
  {
    var total := TotalRevenue(ts);
    RegionTableEmpty(ts);
    var g := GroupBy(ts, RegionOf, RegionOf);
    var u := WithPercentages(RegionTable(ts), total);
    GroupByConserves(ts, RegionOf, RegionOf);
    SumOfPointwise(g, GroupRevenue, u, SalesOf);
    WithPercentagesNear100(RegionTable(ts), total);
    SumOfSortBy(u, BySalesDesc, PercentageOf);
  }
}
