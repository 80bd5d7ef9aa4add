/**
 * `validate_and_filter`: drop the transactions that break a hard rule, then
 * apply the optional region and amount filters, counting what each step
 * removes.
 */
module Validation {
  import opened Wrappers
  import opened Collections
  import opened Text
  import opened Transactions

  /** The six hard rules: positive quantity and price, `T`/`P`/`C` ids, a region that is not blank. */
  predicate HardValid(t: Transaction)
  {
    t.quantity > 0 && t.unitPrice > 0.0 &&
    StartsWith(t.transactionId, "T") && StartsWith(t.productId, "P") && StartsWith(t.customerId, "C") &&
    !IsBlank(t.region)
  }

  predicate HardInvalid(t: Transaction) { !HardValid(t) }

  /**
   * The optional arguments. Python applies a filter only when its argument is
   * truthy: `None` and `""` switch the region filter off, `None` and `0`
   * the amount bounds.
   */
  datatype Filters = Filters(region: Option<string>, minAmount: Option<real>, maxAmount: Option<real>)

  predicate RegionActive(f: Filters) { f.region.Some? && f.region.value != "" }
  predicate MinActive(f: Filters) { f.minAmount.Some? && f.minAmount.value != 0.0 }
  predicate MaxActive(f: Filters) { f.maxAmount.Some? && f.maxAmount.value != 0.0 }

  /** Which bucket a transaction that passed the hard rules ends in. */
  datatype Verdict = Kept | FilteredByRegion | FilteredByAmount

  /** The second loop: the region check first, then the lower bound, then the upper one. */
  function SoftVerdict(t: Transaction, f: Filters): Verdict
  {
    var amount := Revenue(t);
    if RegionActive(f) && t.region != f.region.value then FilteredByRegion
    else if MinActive(f) && amount < f.minAmount.value then FilteredByAmount
    else if MaxActive(f) && amount > f.maxAmount.value then FilteredByAmount
    else Kept
  }

  function KeptBy(f: Filters): Transaction -> bool { t => SoftVerdict(t, f) == Kept }
  function RegionOut(f: Filters): Transaction -> bool { t => SoftVerdict(t, f) == FilteredByRegion }
  function AmountOut(f: Filters): Transaction -> bool { t => SoftVerdict(t, f) == FilteredByAmount }

  /** The `summary` dict. */
  datatype Summary = Summary(totalInput: nat, invalid: nat, filteredByRegion: nat, filteredByAmount: nat, finalCount: nat)

  /** `(valid_transactions, invalid_count, summary)`. */
  datatype Validated = Validated(valid: seq<Transaction>, invalidCount: nat, summary: Summary)

  /** `min()` of an empty list raises `ValueError`. */
  datatype ValueError = EmptySequence

  /** What `validate_and_filter` returns, or the error it raises. */
  function ValidateOf(ts: seq<Transaction>, f: Filters): Result<Validated, ValueError>
  {
    var prelim := Filter(ts, HardValid);
    if prelim == [] then Failure(EmptySequence)
    else
      var valid := Filter(prelim, KeptBy(f));
      var invalid := |Filter(ts, HardInvalid)|;
      Success(Validated(valid, invalid,
        Summary(|ts|, invalid, |Filter(prelim, RegionOut(f))|, |Filter(prelim, AmountOut(f))|, |valid|)))
  }

  /** Step 1 of `validate_and_filter`: the hard rules, with the count of transactions that break one. */
  method HardRules(ts: seq<Transaction>) returns (prelim: seq<Transaction>, invalidCount: nat)
    ensures prelim == Filter(ts, HardValid)
    ensures invalidCount == |Filter(ts, HardInvalid)|
  {
    prelim, invalidCount := [], 0;
    for i := 0 to |ts|
      invariant prelim == Filter(ts[..i], HardValid)
      invariant invalidCount == |Filter(ts[..i], HardInvalid)|
    {
      var t := ts[i];
      assert ts[..i + 1] == ts[..i] + [t];
      FilterSnoc(ts[..i], t, HardValid);
      FilterSnoc(ts[..i], t, HardInvalid);
      if t.quantity <= 0 || t.unitPrice <= 0.0 || !StartsWith(t.transactionId, "T") ||
         !StartsWith(t.productId, "P") || !StartsWith(t.customerId, "C") || IsBlank(t.region) {
        invalidCount := invalidCount + 1;
        continue;
      }
      prelim := prelim + [t];
    }
    assert ts[..|ts|] == ts;
  }

  /** Step 3 of `validate_and_filter`: the optional filters, with a count for each. */
  method SoftFilters(prelim: seq<Transaction>, f: Filters) returns (valid: seq<Transaction>, filteredByRegion: nat, filteredByAmount: nat)
    ensures valid == Filter(prelim, KeptBy(f))
    ensures filteredByRegion == |Filter(prelim, RegionOut(f))|
    ensures filteredByAmount == |Filter(prelim, AmountOut(f))|
  {
    valid, filteredByRegion, filteredByAmount := [], 0, 0;
    for i := 0 to |prelim|
      invariant valid == Filter(prelim[..i], KeptBy(f))
      invariant filteredByRegion == |Filter(prelim[..i], RegionOut(f))|
      invariant filteredByAmount == |Filter(prelim[..i], AmountOut(f))|
    {
      var t := prelim[i];
      assert prelim[..i + 1] == prelim[..i] + [t];
      SoftSnoc(prelim[..i], t, f);
      ghost var v := SoftVerdict(t, f);
      var amount := t.quantity as real * t.unitPrice;
      if f.region.Some? && f.region.value != "" && t.region != f.region.value {
        assert v == FilteredByRegion;
        filteredByRegion := filteredByRegion + 1;
        continue;
      }
      if f.minAmount.Some? && f.minAmount.value != 0.0 && amount < f.minAmount.value {
        assert v == FilteredByAmount;
        filteredByAmount := filteredByAmount + 1;
        continue;
      }
      if f.maxAmount.Some? && f.maxAmount.value != 0.0 && amount > f.maxAmount.value {
        assert v == FilteredByAmount;
        filteredByAmount := filteredByAmount + 1;
        continue;
      }
      assert v == Kept;
      valid := valid + [t];
    }
    assert prelim[..|prelim|] == prelim;
  }

  /** Appending one transaction adds it to the bucket its verdict names, and to no other. */
  lemma SoftSnoc(ps: seq<Transaction>, t: Transaction, f: Filters)
    ensures Filter(ps + [t], KeptBy(f)) == Filter(ps, KeptBy(f)) + if SoftVerdict(t, f) == Kept then [t] else []
    ensures |Filter(ps + [t], RegionOut(f))| == |Filter(ps, RegionOut(f))| + if SoftVerdict(t, f) == FilteredByRegion then 1 else 0
    ensures |Filter(ps + [t], AmountOut(f))| == |Filter(ps, AmountOut(f))| + if SoftVerdict(t, f) == FilteredByAmount then 1 else 0
  {
    FilterSnoc(ps, t, KeptBy(f));
    FilterSnoc(ps, t, RegionOut(f));
    FilterSnoc(ps, t, AmountOut(f));
    var v := SoftVerdict(t, f);
    assert KeptBy(f)(t) == (v == Kept) && RegionOut(f)(t) == (v == FilteredByRegion) && AmountOut(f)(t) == (v == FilteredByAmount);
  }

  /**
   * `validate_and_filter`. Step 2 only prints the regions and the amount
   * range; what remains of it is that `min` fails on an empty list.
   */
  method ValidateAndFilter(ts: seq<Transaction>, f: Filters) returns (r: Result<Validated, ValueError>)
    ensures r == ValidateOf(ts, f)
    ensures r.Failure? <==> forall t :: t in ts ==> !HardValid(t)
    ensures r.Success? ==> var s := r.value.summary;
      s.invalid + s.filteredByRegion + s.filteredByAmount + s.finalCount == s.totalInput == |ts|
    ensures r.Success? ==> IsSubsequence(r.value.valid, ts)
    ensures r.Success? ==> forall t :: t in r.value.valid <==> t in ts && HardValid(t) && SoftVerdict(t, f) == Kept
  {
    var prelim, invalidCount := HardRules(ts);
    if prelim == [] {
      ValidateMembers(ts, f);
      return Failure(EmptySequence);
    }
    var valid, filteredByRegion, filteredByAmount := SoftFilters(prelim, f);
    r := Success(Validated(valid, invalidCount,
      Summary(|ts|, invalidCount, filteredByRegion, filteredByAmount, |valid|)));
    ValidatePartition(ts, f);
    ValidateSubsequence(ts, f);
    ValidateMembers(ts, f);
  }

  /** Exactly the input transactions that pass the hard rules and the filters are kept; none pass when validation fails. */
  lemma ValidateMembers(ts: seq<Transaction>, f: Filters)
    ensures ValidateOf(ts, f).Failure? <==> forall t :: t in ts ==> !HardValid(t)
    ensures ValidateOf(ts, f).Success? ==>
      forall t :: t in ValidateOf(ts, f).value.valid <==> t in ts && HardValid(t) && SoftVerdict(t, f) == Kept
  {
    var prelim := Filter(ts, HardValid);
    FilterMembers(ts, HardValid);
    FilterMembers(prelim, KeptBy(f));
    if prelim != [] {
      assert prelim[0] in prelim;
    }
  }

  /** A transaction breaks a hard rule or passes them all. */
  lemma {:induction false} HardSplit(ts: seq<Transaction>)
    ensures |Filter(ts, HardValid)| + |Filter(ts, HardInvalid)| == |ts|
  {
    if ts != [] {
      HardSplit(ts[..|ts| - 1]);
    }
  }

  /** A transaction that passed the hard rules is kept or filtered once, by region or by amount. */
  lemma {:induction false} SoftSplit(ps: seq<Transaction>, f: Filters)
    ensures |Filter(ps, KeptBy(f))| + |Filter(ps, RegionOut(f))| + |Filter(ps, AmountOut(f))| == |ps|
  {
    if ps != [] {
      SoftSplit(ps[..|ps| - 1], f);
    }
  }

  /** Every input transaction is counted in exactly one bucket of the summary. */
  lemma ValidatePartition(ts: seq<Transaction>, f: Filters)
    requires ValidateOf(ts, f).Success?
    ensures var s := ValidateOf(ts, f).value.summary;
      s.invalid + s.filteredByRegion + s.filteredByAmount + s.finalCount == s.totalInput == |ts|
  {
    HardSplit(ts);
    SoftSplit(Filter(ts, HardValid), f);
  }

  /** The kept transactions are the input with some left out, in input order. */
  lemma ValidateSubsequence(ts: seq<Transaction>, f: Filters)
    requires ValidateOf(ts, f).Success?
    ensures IsSubsequence(ValidateOf(ts, f).value.valid, ts)
  {
    var prelim := Filter(ts, HardValid);
    FilterIsSubsequence(ts, HardValid);
    FilterIsSubsequence(prelim, KeptBy(f));
    SubsequenceTransitive(Filter(prelim, KeptBy(f)), prelim, ts);
  }

  /**
   * The soft filters keep exactly the transactions in the region asked for
   * whose amount lies in the closed range, each bound counting only when it
   * is truthy.
   */
  lemma KeptIff(t: Transaction, f: Filters)
    ensures SoftVerdict(t, f) == Kept <==>
      (!RegionActive(f) || t.region == f.region.value) &&
      (!MinActive(f) || f.minAmount.value <= Revenue(t)) &&
      (!MaxActive(f) || Revenue(t) <= f.maxAmount.value)
  {
  }

  /** The region check comes first: a transaction filtered by amount is in the region asked for. */
  lemma RegionBeforeAmount(ts: seq<Transaction>, f: Filters)
    ensures forall t :: t in Filter(Filter(ts, HardValid), AmountOut(f)) ==>
      !RegionActive(f) || t.region == f.region.value
  {
    FilterMembers(Filter(ts, HardValid), AmountOut(f));
  }

  /** With no filter switched on, everything that passes the hard rules is kept. */
  lemma NoFiltersKeepAll(ts: seq<Transaction>, f: Filters)
    requires !RegionActive(f) && !MinActive(f) && !MaxActive(f)
    requires ValidateOf(ts, f).Success?
    ensures ValidateOf(ts, f).value.valid == Filter(ts, HardValid)
    ensures ValidateOf(ts, f).value.summary.filteredByRegion == 0
    ensures ValidateOf(ts, f).value.summary.filteredByAmount == 0
  {
    var prelim := Filter(ts, HardValid);
    FilterAll(prelim, KeptBy(f));
    SoftSplit(prelim, f);
  }

  /** Validating the output again with the same filters gives it back, with nothing removed. */
  lemma ValidateIdempotent(ts: seq<Transaction>, f: Filters)
    requires ValidateOf(ts, f).Success? && ValidateOf(ts, f).value.valid != []
    ensures var v := ValidateOf(ts, f).value.valid;
      ValidateOf(v, f).Success? && ValidateOf(v, f).value.valid == v &&
      ValidateOf(v, f).value.invalidCount == 0
  {
    var v := ValidateOf(ts, f).value.valid;
    ValidateMembers(ts, f);
    FilterAll(v, HardValid);
    FilterAll(v, KeptBy(f));
    HardSplit(v);
  }

  /** Every kept transaction has positive revenue, so a non-empty kept list has positive total revenue. */
  lemma ValidatedRevenuePositive(ts: seq<Transaction>, f: Filters)
    requires ValidateOf(ts, f).Success?
    ensures forall t :: t in ValidateOf(ts, f).value.valid ==> Revenue(t) > 0.0
    ensures ValidateOf(ts, f).value.valid != [] ==> TotalRevenue(ValidateOf(ts, f).value.valid) > 0.0
  {
    var v := ValidateOf(ts, f).value.valid;
    ValidateMembers(ts, f);
    forall t | t in v
      ensures Revenue(t) > 0.0
    {
      PositiveProduct(t.quantity as real, t.unitPrice);
    }
    TotalRevenuePositive(v);
  }

  lemma PositiveProduct(a: real, b: real)
    requires a > 0.0 && b > 0.0
    ensures a * b > 0.0
  {
  }
}
