/**
 * `daily_sales_trend` and `find_peak_sales_day`: revenue, number of
 * transactions and number of distinct customers per date, in date order,
 * and the first date of highest revenue.
 */
module Daily {
  import opened Wrappers
  import opened Collections
  import opened Text
  import opened Transactions
  import opened Sorting
  import opened Grouping

  /** A `daily_data` entry while transactions are being added. */
  datatype DayTotals = DayTotals(date: string, revenue: real, transactionCount: nat, customers: set<string>)

  /** A `daily_data` entry once the customer set is replaced by its size. */
  datatype DaySales = DaySales(date: string, revenue: real, transactionCount: nat, uniqueCustomers: nat)

  function DayTotalsOf(g: Group): DayTotals { DayTotals(g.key, g.revenue, g.count, g.members) }
  function DayTotalsKey(d: DayTotals): string { d.date }
  function DayKey(d: DaySales): string { d.date }
  function DayRevenue(d: DaySales): real { d.revenue }
  function DayCount(d: DaySales): real { d.transactionCount as real }

  /**
   * `sorted(daily_data.items())`: the items are `(date, data)` pairs with
   * distinct dates, so the tuple order is the string order of the dates.
   */
  function ByDateAsc(a: DaySales, b: DaySales): bool { StrLess(a.date, b.date) }

  lemma DateAscIsOrder()
    ensures StrictWeakOrder(ByDateAsc)
  {
    forall a: DaySales, b: DaySales | ByDateAsc(a, b)
      ensures !ByDateAsc(b, a)
    {
      StrLessAsymmetric(a.date, b.date);
    }
    forall a: DaySales, b: DaySales, c: DaySales | ByDateAsc(a, c)
      ensures ByDateAsc(a, b) || ByDateAsc(b, c)
    {
      StrLessTotal(a.date, b.date);
      StrLessTransitive(b.date, a.date, c.date);
    }
  }

  /** `daily_data` after the accumulation loop, in first-seen order. */
  function DailyTable(ts: seq<Transaction>): seq<DayTotals>
  {
    MapSeq(GroupBy(ts, DateOf, CustomerOf), DayTotalsOf)
  }

  /** The formatting loop: the customer set becomes `unique_customers`, its size. */
  function WithUniqueCounts(table: seq<DayTotals>): seq<DaySales>
  {
    seq(|table|, i requires 0 <= i < |table| =>
      DaySales(table[i].date, table[i].revenue, table[i].transactionCount, |table[i].customers|))
  }

  /** What `daily_sales_trend` returns. */
  function DailySalesOf(ts: seq<Transaction>): seq<DaySales>
  {
    SortBy(WithUniqueCounts(DailyTable(ts)), ByDateAsc)
  }

  /** The accumulation loop of `daily_sales_trend`. */
  method AccumulateDays(ts: seq<Transaction>) returns (table: seq<DayTotals>)
    ensures table == DailyTable(ts)
  {
    table := [];
    for i := 0 to |ts|
      invariant table == DailyTable(ts[..i])
    {
      var t := ts[i];
      ghost var g := GroupBy(ts[..i], DateOf, CustomerOf);
      IndexOfSameKeys(table, DayTotalsKey, g, GroupKey, t.date);
      var k := IndexOf(table, DayTotalsKey, t.date);
      if k < 0 {
        table := table + [DayTotals(t.date, 0.0, 0, {})];
        k := |table| - 1;
        assert table[k].customers + {t.customerId} == {t.customerId};
      }
      table := table[k := table[k].(revenue := table[k].revenue + Revenue(t),
                                    transactionCount := table[k].transactionCount + 1,
                                    customers := table[k].customers + {t.customerId})];
      assert ts[..i + 1][..i] == ts[..i] && ts[..i + 1][i] == t;
      assert GroupBy(ts[..i + 1], DateOf, CustomerOf) == AddTo(g, t, DateOf, CustomerOf);
    }
    assert ts[..|ts|] == ts;
  }

  /** `daily_sales_trend`. */
  method DailySalesTrend(ts: seq<Transaction>) returns (r: seq<DaySales>)
    ensures r == DailySalesOf(ts)
    ensures forall i, j :: 0 <= i < j < |r| ==> StrLess(r[i].date, r[j].date)
    ensures forall k :: k in MapSeq(r, DayKey) <==> k in MapSeq(ts, DateOf)
    ensures forall d :: d in r ==> 1 <= d.uniqueCustomers <= d.transactionCount
    ensures SumOf(r, DayRevenue) == TotalRevenue(ts)
    ensures SumOf(r, DayCount) == |ts| as real
  {
    var table := AccumulateDays(ts);
    var days: seq<DaySales> := [];
    for j := 0 to |table|
      invariant days == WithUniqueCounts(table[..j])
    {
      days := days + [DaySales(table[j].date, table[j].revenue, table[j].transactionCount, |table[j].customers|)];
    }
    assert table[..|table|] == table;
    r := SortBy(days, ByDateAsc);
    DailySalesChronological(ts);
    DailySalesDict(ts);
    DailySalesEntries(ts);
    DailySalesConserves(ts);
  }

  /** One entry per date that occurs, and no other. */
  lemma DailySalesDict(ts: seq<Transaction>)
    ensures DistinctBy(DailySalesOf(ts), DayKey)
    ensures forall k :: k in MapSeq(DailySalesOf(ts), DayKey) <==> k in MapSeq(ts, DateOf)
  {
    var g := GroupBy(ts, DateOf, CustomerOf);
    var u := WithUniqueCounts(DailyTable(ts));
    GroupByIsDict(ts, DateOf, CustomerOf);
    assert forall i :: 0 <= i < |g| ==> DayKey(u[i]) == GroupKey(g[i]);
    ViewIsDict(g, GroupKey, u, DayKey, DailySalesOf(ts));
  }

  /** The dates come out strictly increasing. */
  lemma DailySalesChronological(ts: seq<Transaction>)
    ensures forall i, j :: 0 <= i < j < |DailySalesOf(ts)| ==> StrLess(DailySalesOf(ts)[i].date, DailySalesOf(ts)[j].date)
  {
    var r := DailySalesOf(ts);
    DateAscIsOrder();
    SortBySorted(WithUniqueCounts(DailyTable(ts)), ByDateAsc);
    DailySalesDict(ts);
    forall i, j | 0 <= i < j < |r|
      ensures StrLess(r[i].date, r[j].date)
    {
      assert !ByDateAsc(r[j], r[i]);
      assert DayKey(r[i]) != DayKey(r[j]);
      StrLessTotal(r[i].date, r[j].date);
    }
  }

  /**
   * Each entry holds exactly its date's transactions: their revenue, their
   * number and the number of distinct customers among them.
   */
  lemma DailySalesEntries(ts: seq<Transaction>)
    ensures forall d :: d in DailySalesOf(ts) ==>
      var sel := Select(ts, DateOf, d.date);
      d.revenue == TotalRevenue(sel) && d.transactionCount == |sel| &&
      d.uniqueCustomers == |MemberSet(sel, CustomerOf)| &&
      1 <= d.uniqueCustomers <= d.transactionCount
  {
    var g := GroupBy(ts, DateOf, CustomerOf);
    var u := WithUniqueCounts(DailyTable(ts));
    GroupByEntries(ts, DateOf, CustomerOf);
    GroupByMembersBounded(ts, DateOf, CustomerOf);
    forall d | d in DailySalesOf(ts)
      ensures var sel := Select(ts, DateOf, d.date);
        d.revenue == TotalRevenue(sel) && d.transactionCount == |sel| &&
        d.uniqueCustomers == |MemberSet(sel, CustomerOf)| &&
        1 <= d.uniqueCustomers <= d.transactionCount
    {
      assert d in multiset(SortBy(u, ByDateAsc));
      var i :| 0 <= i < |u| && u[i] == d;
      assert EntryIsSelection(ts, DateOf, CustomerOf, g[i]);
      assert g[i] in g;
    }
  }

  /** Daily revenues add up to the total revenue, daily counts to the number of transactions. */
  lemma DailySalesConserves(ts: seq<Transaction>)
    ensures SumOf(DailySalesOf(ts), DayRevenue) == TotalRevenue(ts)
    ensures SumOf(DailySalesOf(ts), DayCount) == |ts| as real
  {
    var g := GroupBy(ts, DateOf, CustomerOf);
    var u := WithUniqueCounts(DailyTable(ts));
    GroupByConserves(ts, DateOf, CustomerOf);
    SumOfSortBy(u, ByDateAsc, DayRevenue);
    SumOfSortBy(u, ByDateAsc, DayCount);
    SumOfPointwise(g, GroupRevenue, u, DayRevenue);
    SumOfPointwise(g, GroupCount, u, DayCount);
  }

  /**
   * Where the scan of `find_peak_sales_day` stops: the first day whose
   * revenue is above every earlier day's and above 0, or -1 when no day has
   * positive revenue.
   */
  function PeakIndex(days: seq<DaySales>): (i: int)
    ensures -1 <= i < |days|
    ensures i < 0 <==> forall j :: 0 <= j < |days| ==> days[j].revenue <= 0.0
    ensures i >= 0 ==> days[i].revenue > 0.0
    ensures i >= 0 ==> forall j :: 0 <= j < |days| ==> days[j].revenue <= days[i].revenue
    ensures i >= 0 ==> forall j :: 0 <= j < i ==> days[j].revenue < days[i].revenue
  {
    if days == [] then -1
    else
      var p := PeakIndex(days[..|days| - 1]);
      var best := if p < 0 then 0.0 else days[p].revenue;
      if days[|days| - 1].revenue > best then |days| - 1 else p
  }

  /** `(peak_date, peak_revenue, peak_count)` for a day list. */
  function PeakOf(days: seq<DaySales>): (Option<string>, real, nat)
  {
    var i := PeakIndex(days);
    if i < 0 then (None, 0.0, 0) else (Some(days[i].date), days[i].revenue, days[i].transactionCount)
  }

  /** One more day of the scan replaces the peak exactly when its revenue is strictly higher. */
  lemma PeakOfStep(days: seq<DaySales>, j: nat)
    requires j < |days|
    ensures var (date, revenue, count) := PeakOf(days[..j]);
      PeakOf(days[..j + 1]) ==
        if days[j].revenue > revenue then (Some(days[j].date), days[j].revenue, days[j].transactionCount)
        else (date, revenue, count)
  {
    var prefix := days[..j + 1];
    assert prefix[..j] == days[..j] && prefix[j] == days[j];
    var p := PeakIndex(days[..j]);
    assert p >= 0 ==> prefix[p] == days[..j][p];
  }

  /** `find_peak_sales_day`. */
  method FindPeakSalesDay(ts: seq<Transaction>) returns (peakDate: Option<string>, peakRevenue: real, peakCount: nat)
    ensures (peakDate, peakRevenue, peakCount) == PeakOf(DailySalesOf(ts))
    ensures forall d :: d in DailySalesOf(ts) ==> d.revenue <= peakRevenue
    ensures peakDate.None? <==> forall d :: d in DailySalesOf(ts) ==> d.revenue <= 0.0
    ensures peakDate.None? ==> peakRevenue == 0.0 && peakCount == 0
    ensures peakDate.Some? ==>
      exists d :: d in DailySalesOf(ts) && d.date == peakDate.value && d.revenue == peakRevenue && d.transactionCount == peakCount
    ensures peakDate.Some? ==> forall d :: d in DailySalesOf(ts) && d.revenue == peakRevenue ==>
      d.date == peakDate.value || StrLess(peakDate.value, d.date)
  {
    var days := DailySalesTrend(ts);
    peakDate, peakRevenue, peakCount := None, 0.0, 0;
    for j := 0 to |days|
      invariant (peakDate, peakRevenue, peakCount) == PeakOf(days[..j])
    {
      PeakOfStep(days, j);
      if days[j].revenue > peakRevenue {
        peakRevenue := days[j].revenue;
        peakCount := days[j].transactionCount;
        peakDate := Some(days[j].date);
      }
    }
    assert days[..|days|] == days;
    PeakIsEarliestBest(ts);
  }

  /**
   * The peak is a day of the trend with the highest revenue, and the
   * earliest such date; with no positive revenue there is no peak.
   */
  lemma PeakIsEarliestBest(ts: seq<Transaction>)
    ensures var (date, revenue, count) := PeakOf(DailySalesOf(ts));
      (forall d :: d in DailySalesOf(ts) ==> d.revenue <= revenue) &&
      (date.None? <==> forall d :: d in DailySalesOf(ts) ==> d.revenue <= 0.0) &&
      (date.None? ==> revenue == 0.0 && count == 0) &&
      (date.Some? ==>
        exists d :: d in DailySalesOf(ts) && d.date == date.value && d.revenue == revenue && d.transactionCount == count) &&
      (date.Some? ==> forall d :: d in DailySalesOf(ts) && d.revenue == revenue ==>
        d.date == date.value || StrLess(date.value, d.date))
  {
    var days := DailySalesOf(ts);
    var i := PeakIndex(days);
    DailySalesChronological(ts);
    if i >= 0 {
      assert days[i] in days;
      forall d | d in days && d.revenue == days[i].revenue
        ensures d.date == days[i].date || StrLess(days[i].date, d.date)
      {
        var j :| 0 <= j < |days| && days[j] == d;
        assert !(j < i);
      }
    } else {
      forall d | d in days
        ensures d.revenue <= 0.0
      {
        var j :| 0 <= j < |days| && days[j] == d;
      }
    }
  }
}
