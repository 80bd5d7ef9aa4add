/**
 * `create_product_mapping` and `enrich_sales_data`: index the catalogue by
 * product id, then attach to each transaction the category, brand and
 * rating of the catalogue entry whose id is the number in its ProductID.
 */
module Enrichment {
  import opened Wrappers
  import opened Collections
  import opened Text
  import opened Transactions

  /**
   * One product of the catalogue, with the fields the join reads. Every
   * field is what `product.get(...)` returns, so any of them may be missing.
   */
  datatype Product = Product(
    id: Option<int>,
    title: Option<string>,
    category: Option<string>,
    brand: Option<string>,
    price: Option<real>,
    rating: Option<real>)

  /** A mapping value: `title`, `category`, `brand` and `rating`, and not the price. */
  datatype ProductInfo = ProductInfo(title: Option<string>, category: Option<string>, brand: Option<string>, rating: Option<real>)

  function InfoOf(p: Product): ProductInfo
  {
    ProductInfo(p.title, p.category, p.brand, p.rating)
  }

  function IdOf(p: Product): Option<int> { p.id }

  /** The dict `create_product_mapping` builds from `products`. */
  function ProductMapping(products: seq<Product>): map<int, ProductInfo>
  {
    if products == [] then map[]
    else
      var m := ProductMapping(products[..|products| - 1]);
      var p := products[|products| - 1];
      if p.id.Some? then m[p.id.value := InfoOf(p)] else m
  }

  /** `create_product_mapping`. */
  method CreateProductMapping(apiProducts: seq<Product>) returns (productMapping: map<int, ProductInfo>)
    ensures productMapping == ProductMapping(apiProducts)
    ensures forall k :: k in productMapping <==> Some(k) in MapSeq(apiProducts, IdOf)
  {
    productMapping := map[];
    for i := 0 to |apiProducts|
      invariant productMapping == ProductMapping(apiProducts[..i])
    {
      assert apiProducts[..i + 1][..i] == apiProducts[..i];
      var product := apiProducts[i];
      var pid := product.id;
      if pid.Some? {
        productMapping := productMapping[pid.value := ProductInfo(product.title, product.category, product.brand, product.rating)];
      }
    }
    assert apiProducts[..|apiProducts|] == apiProducts;
    MappingKeys(apiProducts);
  }

  /** The keys are exactly the ids that are present; products without an id are skipped. */
  lemma {:induction false} MappingKeys(products: seq<Product>)
    ensures forall k :: k in ProductMapping(products) <==> Some(k) in MapSeq(products, IdOf)
  {
    if products != [] {
      var init := products[..|products| - 1];
      MappingKeys(init);
      assert MapSeq(products, IdOf) == MapSeq(init, IdOf) + [IdOf(products[|products| - 1])];
    }
  }

  /** `products[i]` is the last product whose id is `id`. */
  predicate LastWithId(products: seq<Product>, i: int, id: Option<int>)
  {
    0 <= i < |products| && products[i].id == id && forall j :: i < j < |products| ==> products[j].id != id
  }

  /** The last product with an id stays the last when a product with another id is appended. */
  lemma LastWithIdExtends(products: seq<Product>, i: int, id: Option<int>)
    requires products != [] && products[|products| - 1].id != id
    requires LastWithId(products[..|products| - 1], i, id)
    ensures LastWithId(products, i, id)
  {
    assert products[i] == products[..|products| - 1][i];
  }

  /** Each key maps to the information of the last product with that id. */
  lemma {:induction false} MappingLastWins(products: seq<Product>)
    ensures forall k :: k in ProductMapping(products) ==>
      exists i :: LastWithId(products, i, Some(k)) && ProductMapping(products)[k] == InfoOf(products[i])
  {
    if products != [] {
      var init := products[..|products| - 1];
      var last := products[|products| - 1];
      MappingLastWins(init);
      var m, m' := ProductMapping(init), ProductMapping(products);
      assert m' == if last.id.Some? then m[last.id.value := InfoOf(last)] else m;
      forall k | k in m'
        ensures exists i :: LastWithId(products, i, Some(k)) && ProductMapping(products)[k] == InfoOf(products[i])
      {
        if last.id == Some(k) {
          assert LastWithId(products, |products| - 1, Some(k));
        } else {
          assert k in m && m'[k] == m[k];
          var i :| LastWithId(init, i, Some(k)) && m[k] == InfoOf(init[i]);
          LastWithIdExtends(products, i, Some(k));
        }
      }
    }
  }

  /** `int("".join(filter(str.isdigit, product_id)))`, `None` where `int` raises. */
  function NumericId(productId: string): Option<int>
  {
    ParseInt(Digits(productId))
  }

  /** The numeric id is the number the digits of the product id spell, when it has any. */
  lemma NumericIdIsDigits(productId: string)
    ensures Digits(productId) == [] ==> NumericId(productId) == None
    ensures Digits(productId) != [] ==> NumericId(productId) == Some(ValueOf(Digits(productId)))
  {
    var d := Digits(productId);
    if d != [] {
      assert IsDigit(d[0]) && IsDigit(d[|d| - 1]);
      StripUnchanged(d);
    }
  }

  /** A letter prefix followed by the digits of `n` gives back `n`, as `P101` gives 101. */
  lemma NumericIdOfCode(prefix: string, n: nat)
    requires forall i :: 0 <= i < |prefix| ==> !IsDigit(prefix[i])
    ensures NumericId(prefix + ShowNat(n)) == Some(n)
  {
    DigitsAppend(prefix, ShowNat(n));
    NoDigits(prefix);
    DigitsOfDigits(ShowNat(n));
    assert [] + ShowNat(n) == ShowNat(n);
    ParseIntShowNat(n);
  }

  lemma {:induction false} NoDigits(s: string)
    requires forall i :: 0 <= i < |s| ==> !IsDigit(s[i])
    ensures Digits(s) == []
  {
    if s != [] {
      NoDigits(s[1..]);
    }
  }

  lemma P101()
    ensures NumericId("P101") == Some(101)
  {
    assert ShowNat(101) == "101";
    assert "P" + ShowNat(101) == "P101";
    NumericIdOfCode("P", 101);
  }

  /** A transaction with the four `API_*` fields; every original field is kept in `base`. */
  datatype EnrichedTransaction = EnrichedTransaction(
    base: Transaction,
    apiCategory: Option<string>,
    apiBrand: Option<string>,
    apiRating: Option<real>,
    apiMatch: bool)

  /** The enriched copy of one transaction. A mapping value is a non-empty dict, so it is always truthy. */
  function EnrichOne(t: Transaction, m: map<int, ProductInfo>): EnrichedTransaction
  {
    var id := NumericId(t.productId);
    if id.Some? && id.value in m then
      var info := m[id.value];
      EnrichedTransaction(t, info.category, info.brand, info.rating, true)
    else EnrichedTransaction(t, None, None, None, false)
  }

  /** `enrich_sales_data`. */
  method EnrichSalesData(transactions: seq<Transaction>, productMapping: map<int, ProductInfo>) returns (enriched: seq<EnrichedTransaction>)
    ensures |enriched| == |transactions|
    ensures forall i :: 0 <= i < |transactions| ==> enriched[i] == EnrichOne(transactions[i], productMapping)
    ensures forall i :: 0 <= i < |transactions| ==> enriched[i].base == transactions[i]
    ensures forall i :: 0 <= i < |transactions| ==>
      (enriched[i].apiMatch <==> NumericId(transactions[i].productId).Some? && NumericId(transactions[i].productId).value in productMapping)
    ensures forall i :: 0 <= i < |transactions| && enriched[i].apiMatch ==>
      var info := productMapping[NumericId(transactions[i].productId).value];
      enriched[i].apiCategory == info.category && enriched[i].apiBrand == info.brand && enriched[i].apiRating == info.rating
    ensures forall i :: 0 <= i < |transactions| && !enriched[i].apiMatch ==>
      enriched[i].apiCategory.None? && enriched[i].apiBrand.None? && enriched[i].apiRating.None?
  {
    enriched := [];
    for i := 0 to |transactions|
      invariant |enriched| == i
      invariant forall j :: 0 <= j < i ==> enriched[j] == EnrichOne(transactions[j], productMapping)
    {
      var txn := transactions[i];
      var enrichedTxn := EnrichedTransaction(txn, None, None, None, false);
      var numericId := NumericId(txn.productId);
      if numericId.Some? && numericId.value in productMapping {
        var apiProduct := productMapping[numericId.value];
        enrichedTxn := enrichedTxn.(apiCategory := apiProduct.category, apiBrand := apiProduct.brand,
                                    apiRating := apiProduct.rating, apiMatch := true);
      }
      enriched := enriched + [enrichedTxn];
    }
    forall i | 0 <= i < |transactions| {
      EnrichOneFacts(transactions[i], productMapping);
    }
  }

  /** The enriched copy keeps the record, and carries the mapping's fields exactly when the numeric id is a key. */
  lemma EnrichOneFacts(t: Transaction, m: map<int, ProductInfo>)
    ensures var e, id := EnrichOne(t, m), NumericId(t.productId);
      e.base == t &&
      (e.apiMatch <==> id.Some? && id.value in m) &&
      (e.apiMatch ==> e.apiCategory == m[id.value].category && e.apiBrand == m[id.value].brand && e.apiRating == m[id.value].rating) &&
      (!e.apiMatch ==> e.apiCategory.None? && e.apiBrand.None? && e.apiRating.None?)
  {
  }

  /**
   * Joined with the mapping built from a catalogue, a transaction matches
   * exactly when some catalogue product carries its numeric id, and then
   * takes the category, brand and rating of the last such product.
   */
  lemma EnrichWithCatalogue(t: Transaction, products: seq<Product>)
    ensures var e := EnrichOne(t, ProductMapping(products));
      var id := NumericId(t.productId);
      (e.apiMatch <==> id.Some? && id in MapSeq(products, IdOf)) &&
      (e.apiMatch ==> exists i :: LastWithId(products, i, id) && e.apiCategory == products[i].category && e.apiBrand == products[i].brand && e.apiRating == products[i].rating)
  {
    MappingKeys(products);
    MappingLastWins(products);
  }
}
