/**
 * `top_selling_products` and `low_performing_products`: units sold and
 * revenue per product name, then either the `n` best sellers by units or
 * every product under a unit threshold, fewest units first.
 */
module Products {
  import opened Collections
  import opened Transactions
  import opened Sorting
  import opened Grouping

  /** One `(product, quantity, revenue)` tuple of the result. */
  datatype ProductSales = ProductSales(product: string, quantity: int, revenue: real)

  function ProductSalesOf(g: Group): ProductSales { ProductSales(g.key, g.quantity, g.revenue) }
  function ProductKey(p: ProductSales): string { p.product }

  /** `product_data` after the accumulation loop, as its list of tuples, in first-seen order. */
  function ProductTable(ts: seq<Transaction>): seq<ProductSales>
  {
    MapSeq(GroupBy(ts, ProductNameOf, ProductNameOf), ProductSalesOf)
  }

  /**
   * The accumulation loop both functions share: per product name, the units
   * and the revenue of its lines.
   */
  method AccumulateProducts(ts: seq<Transaction>) returns (table: seq<ProductSales>)
    ensures table == ProductTable(ts)
  {
    table := [];
    for i := 0 to |ts|
      invariant table == ProductTable(ts[..i])
    {
      var t := ts[i];
      ghost var g := GroupBy(ts[..i], ProductNameOf, ProductNameOf);
      IndexOfSameKeys(table, ProductKey, g, GroupKey, t.productName);
      var k := IndexOf(table, ProductKey, t.productName);
      if k < 0 {
        table := table + [ProductSales(t.productName, 0, 0.0)];
        k := |table| - 1;
        MapSeqAppend(g, Group(t.productName, Revenue(t), 1, t.quantity, {t.productName}), ProductSalesOf);
      } else {
        MapSeqUpdate(g, k, AddTo(g, t, ProductNameOf, ProductNameOf)[k], ProductSalesOf);
      }
      table := table[k := table[k].(quantity := table[k].quantity + t.quantity,
                                    revenue := table[k].revenue + Revenue(t))];
      assert ts[..i + 1][..i] == ts[..i] && ts[..i + 1][i] == t;
      assert GroupBy(ts[..i + 1], ProductNameOf, ProductNameOf) == AddTo(g, t, ProductNameOf, ProductNameOf);
    }
    assert ts[..|ts|] == ts;
  }

  /**
   * The table has one tuple per product name that occurs, and each tuple
   * holds the units and the revenue of exactly that product's lines.
   */
  lemma ProductTableFacts(ts: seq<Transaction>)
    ensures DistinctBy(ProductTable(ts), ProductKey)
    ensures forall k :: k in MapSeq(ProductTable(ts), ProductKey) <==> k in MapSeq(ts, ProductNameOf)
    ensures forall p :: p in ProductTable(ts) ==>
      p.quantity as real == TotalQuantity(Select(ts, ProductNameOf, p.product)) &&
      p.revenue == TotalRevenue(Select(ts, ProductNameOf, p.product))
  {
    var g := GroupBy(ts, ProductNameOf, ProductNameOf);
    var m := ProductTable(ts);
    GroupByIsDict(ts, ProductNameOf, ProductNameOf);
    GroupByEntries(ts, ProductNameOf, ProductNameOf);
    assert forall i :: 0 <= i < |g| ==> ProductKey(m[i]) == GroupKey(g[i]);
    ViewIsDict(g, GroupKey, m, ProductKey, m);
    forall p | p in m
      ensures p.quantity as real == TotalQuantity(Select(ts, ProductNameOf, p.product))
      ensures p.revenue == TotalRevenue(Select(ts, ProductNameOf, p.product))
    {
      var i :| 0 <= i < |m| && m[i] == p;
      assert EntryIsSelection(ts, ProductNameOf, ProductNameOf, g[i]);
    }
  }

  /** The units of all the products add up to the units of all the lines. */
  lemma ProductTableConserves(ts: seq<Transaction>)
    ensures SumOf(ProductTable(ts), ProductQuantity) == TotalQuantity(ts)
    ensures SumOf(ProductTable(ts), ProductRevenue) == TotalRevenue(ts)
  {
    var g := GroupBy(ts, ProductNameOf, ProductNameOf);
    GroupByConserves(ts, ProductNameOf, ProductNameOf);
    SumOfPointwise(g, GroupQuantity, ProductTable(ts), ProductQuantity);
    SumOfPointwise(g, GroupRevenue, ProductTable(ts), ProductRevenue);
  }

  function ProductQuantity(p: ProductSales): real { p.quantity as real }
  function ProductRevenue(p: ProductSales): real { p.revenue }

  /** `sort(key=lambda x: x[1], reverse=True)`. */
  function ByQuantityDesc(a: ProductSales, b: ProductSales): bool { a.quantity > b.quantity }

  /** `sort(key=lambda x: x[1])`. */
  function ByQuantityAsc(a: ProductSales, b: ProductSales): bool { a.quantity < b.quantity }

  lemma QuantityOrders()
    ensures StrictWeakOrder(ByQuantityDesc) && StrictWeakOrder(ByQuantityAsc)
  {
  }

  /** The default `n` of `top_selling_products`, which the driver uses. */
  const DefaultTopN: int := 5

  /** What `top_selling_products(transactions, n)` returns. */
  function TopSellingOf(ts: seq<Transaction>, n: int): seq<ProductSales>
  {
    SliceTo(SortBy(ProductTable(ts), ByQuantityDesc), n)
  }

  /** `top_selling_products`. */
  method TopSellingProducts(ts: seq<Transaction>, n: int) returns (r: seq<ProductSales>)
    ensures r == TopSellingOf(ts, n)
    ensures Sorted(r, ByQuantityDesc)
    ensures DistinctBy(r, ProductKey)
    ensures forall p :: p in r ==> p in ProductTable(ts)
    ensures forall p, x :: p in ProductTable(ts) && p !in r && x in r ==> p.quantity <= x.quantity
  {
    var result := AccumulateProducts(ts);
    result := SortBy(result, ByQuantityDesc);
    r := SliceTo(result, n);
    TopSellingFacts(ts, n);
    TopSellingDominates(ts, n);
  }

  /**
   * The top `n` come out ordered by units, largest first, one tuple per
   * product, each one a tuple of the table.
   */
  lemma TopSellingFacts(ts: seq<Transaction>, n: int)
    ensures Sorted(TopSellingOf(ts, n), ByQuantityDesc)
    ensures DistinctBy(TopSellingOf(ts, n), ProductKey)
    ensures forall p :: p in TopSellingOf(ts, n) ==> p in ProductTable(ts)
  {
    var table := ProductTable(ts);
    var s := SortBy(table, ByQuantityDesc);
    var r := TopSellingOf(ts, n);
    assert r == s[..|r|];
    QuantityOrders();
    SortBySorted(table, ByQuantityDesc);
    SortedPrefix(s, |r|, ByQuantityDesc);
    ProductTableFacts(ts);
    DistinctByPermutation(table, s, ProductKey);
    DistinctByPrefix(s, |r|, ProductKey);
    forall p | p in r
      ensures p in table
    {
      assert p in s;
      assert p in multiset(s);
    }
  }

  /** No product left out of the top `n` sold more units than one kept. */
  lemma TopSellingDominates(ts: seq<Transaction>, n: int)
    ensures forall p, x :: p in ProductTable(ts) && p !in TopSellingOf(ts, n) && x in TopSellingOf(ts, n) ==>
      p.quantity <= x.quantity
  {
    var table := ProductTable(ts);
    var s := SortBy(table, ByQuantityDesc);
    var r := TopSellingOf(ts, n);
    QuantityOrders();
    SortBySorted(table, ByQuantityDesc);
    forall p, x | p in table && p !in r && x in r
      ensures p.quantity <= x.quantity
    {
      assert p in multiset(s);
      var j :| 0 <= j < |s| && s[j] == p;
      var i :| 0 <= i < |r| && r[i] == x;
      assert j >= |r|;
      assert !ByQuantityDesc(s[j], s[i]);
    }
  }

  /** Products with equal units keep the order in which they were first seen. */
  lemma TopSellingStable(ts: seq<Transaction>, e: ProductSales)
    ensures TiesWith(SortBy(ProductTable(ts), ByQuantityDesc), e, ByQuantityDesc) ==
            TiesWith(ProductTable(ts), e, ByQuantityDesc)
  {
    QuantityOrders();
    SortByStable(ProductTable(ts), e, ByQuantityDesc);
  }

  /** `[... for product, data in product_data.items() if data["quantity"] < threshold]`. */
  function Below(table: seq<ProductSales>, threshold: int): (r: seq<ProductSales>)
    ensures forall p :: p in r <==> p in table && p.quantity < threshold
  {
    if table == [] then []
    else
      assert table == [table[0]] + table[1..];
      (if table[0].quantity < threshold then [table[0]] else []) + Below(table[1..], threshold)
  }

  lemma {:induction false} BelowDistinct(table: seq<ProductSales>, threshold: int)
    requires DistinctBy(table, ProductKey)
    ensures DistinctBy(Below(table, threshold), ProductKey)
  {
    if table != [] {
      var rest := Below(table[1..], threshold);
      BelowDistinct(table[1..], threshold);
      forall x | x in rest
        ensures x.product != table[0].product
      {
        var j :| 0 <= j < |table[1..]| && table[1..][j] == x;
        assert ProductKey(table[0]) != ProductKey(table[j + 1]);
      }
    }
  }

  /** The default `threshold` of `low_performing_products`, which the driver uses. */
  const DefaultThreshold: int := 10

  /** What `low_performing_products(transactions, threshold)` returns. */
  function LowPerformingOf(ts: seq<Transaction>, threshold: int): seq<ProductSales>
  {
    SortBy(Below(ProductTable(ts), threshold), ByQuantityAsc)
  }

  /** `low_performing_products`. */
  method LowPerformingProducts(ts: seq<Transaction>, threshold: int) returns (r: seq<ProductSales>)
    ensures r == LowPerformingOf(ts, threshold)
    ensures Sorted(r, ByQuantityAsc)
    ensures DistinctBy(r, ProductKey)
    ensures forall p :: p in r <==> p in ProductTable(ts) && p.quantity < threshold
  {
    var table := AccumulateProducts(ts);
    var result := Below(table, threshold);
    result := SortBy(result, ByQuantityAsc);
    r := result;
    LowPerformingFacts(ts, threshold);
  }

  /**
   * Exactly the products with fewer units than the threshold, one tuple
   * each, fewest units first.
   */
  lemma LowPerformingFacts(ts: seq<Transaction>, threshold: int)
    ensures Sorted(LowPerformingOf(ts, threshold), ByQuantityAsc)
    ensures DistinctBy(LowPerformingOf(ts, threshold), ProductKey)
    ensures forall p :: p in LowPerformingOf(ts, threshold) <==> p in ProductTable(ts) && p.quantity < threshold
  {
    var low := Below(ProductTable(ts), threshold);
    var r := LowPerformingOf(ts, threshold);
    QuantityOrders();
    SortBySorted(low, ByQuantityAsc);
    ProductTableFacts(ts);
    BelowDistinct(ProductTable(ts), threshold);
    DistinctByPermutation(low, r, ProductKey);
    forall p
      ensures p in r <==> p in low
    {
      assert p in r <==> p in multiset(r);
      assert p in low <==> p in multiset(low);
    }
  }
}
