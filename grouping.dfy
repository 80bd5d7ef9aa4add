/**
 * The dictionary-of-accumulators pattern every aggregate in the sales
 * pipeline uses: walk the transactions in order; look the key up; when it
 * is missing, add an entry at the end of the (insertion-ordered) dict; then
 * add the line's revenue, one to the count, its quantity, and one member to
 * the entry's set. `GroupBy` is that walk as a function, with every
 * accumulator field the aggregates use; each aggregate reads the fields it
 * needs.
 */
module Grouping {
  import opened Collections
  import opened Transactions

  datatype Group = Group(key: string, revenue: real, count: nat, quantity: int, members: set<string>)

  function GroupKey(g: Group): string { g.key }
  function GroupRevenue(g: Group): real { g.revenue }
  function GroupCount(g: Group): real { g.count as real }
  function GroupQuantity(g: Group): real { g.quantity as real }

  /** One step of the walk: fold transaction `t` into the entry for `keyOf(t)`. */
  function AddTo(groups: seq<Group>, t: Transaction, keyOf: Transaction -> string, member: Transaction -> string): seq<Group>
  {
    var k := keyOf(t);
    var i := IndexOf(groups, GroupKey, k);
    if i < 0 then groups + [Group(k, Revenue(t), 1, t.quantity, {member(t)})]
    else
      groups[i := Group(k, groups[i].revenue + Revenue(t), groups[i].count + 1,
                        groups[i].quantity + t.quantity, groups[i].members + {member(t)})]
  }

  /** The dict left after walking all of `ts`. */
  function GroupBy(ts: seq<Transaction>, keyOf: Transaction -> string, member: Transaction -> string): seq<Group>
  {
    if ts == [] then [] else AddTo(GroupBy(ts[..|ts| - 1], keyOf, member), ts[|ts| - 1], keyOf, member)
  }

  /** The transactions whose key is `k`, in input order. */
  function Select(ts: seq<Transaction>, keyOf: Transaction -> string, k: string): seq<Transaction>
  {
    if ts == [] then []
    else Select(ts[..|ts| - 1], keyOf, k) + if keyOf(ts[|ts| - 1]) == k then [ts[|ts| - 1]] else []
  }

  function MemberSet(ts: seq<Transaction>, member: Transaction -> string): set<string>
  {
    set t | t in ts :: member(t)
  }

  lemma {:induction false} SelectNone(ts: seq<Transaction>, keyOf: Transaction -> string, k: string)
    requires k !in MapSeq(ts, keyOf)
    ensures Select(ts, keyOf, k) == []
  {
    if ts != [] {
      var init := ts[..|ts| - 1];
      assert forall j :: 0 <= j < |init| ==> MapSeq(init, keyOf)[j] == MapSeq(ts, keyOf)[j];
      SelectNone(init, keyOf, k);
    }
  }

  /** The dict's keys are the distinct keys of the transactions, in order of first appearance. */
  lemma {:induction false} GroupByKeys(ts: seq<Transaction>, keyOf: Transaction -> string, member: Transaction -> string)
    ensures MapSeq(GroupBy(ts, keyOf, member), GroupKey) == Dedup(MapSeq(ts, keyOf))
  {
    if ts != [] {
      var init, t := ts[..|ts| - 1], ts[|ts| - 1];
      var g := GroupBy(init, keyOf, member);
      GroupByKeys(init, keyOf, member);
      assert MapSeq(ts, keyOf) == MapSeq(init, keyOf) + [keyOf(t)];
      assert MapSeq(ts, keyOf)[..|ts| - 1] == MapSeq(init, keyOf);
      var i := IndexOf(g, GroupKey, keyOf(t));
      if i < 0 {
        assert keyOf(t) !in MapSeq(g, GroupKey);
        MapSeqAppend(g, Group(keyOf(t), Revenue(t), 1, t.quantity, {member(t)}), GroupKey);
      } else {
        assert keyOf(t) in MapSeq(g, GroupKey);
        var v := Group(keyOf(t), g[i].revenue + Revenue(t), g[i].count + 1, g[i].quantity + t.quantity, g[i].members + {member(t)});
        MapSeqUpdate(g, i, v, GroupKey);
        assert MapSeq(g, GroupKey)[i := GroupKey(v)] == MapSeq(g, GroupKey);
      }
    }
  }

  /** Each key has exactly one entry, and the keys are exactly the keys that occur. */
  lemma GroupByIsDict(ts: seq<Transaction>, keyOf: Transaction -> string, member: Transaction -> string)
    ensures DistinctBy(GroupBy(ts, keyOf, member), GroupKey)
    ensures forall k :: k in MapSeq(GroupBy(ts, keyOf, member), GroupKey) <==> k in MapSeq(ts, keyOf)
    ensures |GroupBy(ts, keyOf, member)| == 0 <==> ts == []
  {
    var g := GroupBy(ts, keyOf, member);
    GroupByKeys(ts, keyOf, member);
    DedupFacts(MapSeq(ts, keyOf));
    assert forall i :: 0 <= i < |g| ==> GroupKey(g[i]) == MapSeq(g, GroupKey)[i];
    if ts != [] {
      assert MapSeq(ts, keyOf)[0] in MapSeq(ts, keyOf);
    }
  }

  /**
   * Each entry accumulates exactly the transactions with its key: their
   * revenue, their number, their units and the set of their members.
   */
  ghost predicate EntryIsSelection(ts: seq<Transaction>, keyOf: Transaction -> string, member: Transaction -> string, e: Group)
  {
    var sel := Select(ts, keyOf, e.key);
    e.revenue == TotalRevenue(sel) && e.count == |sel| &&
    e.quantity as real == TotalQuantity(sel) && e.members == MemberSet(sel, member)
  }

  lemma {:induction false} GroupByEntries(ts: seq<Transaction>, keyOf: Transaction -> string, member: Transaction -> string)
    ensures forall i :: 0 <= i < |GroupBy(ts, keyOf, member)| ==> EntryIsSelection(ts, keyOf, member, GroupBy(ts, keyOf, member)[i])
  {
    if ts != [] {
      var init, t := ts[..|ts| - 1], ts[|ts| - 1];
      var g := GroupBy(init, keyOf, member);
      var g' := GroupBy(ts, keyOf, member);
      GroupByEntries(init, keyOf, member);
      GroupByKeys(init, keyOf, member);
      DedupFacts(MapSeq(init, keyOf));
      var k := keyOf(t);
      var i := IndexOf(g, GroupKey, k);
      forall j | 0 <= j < |g'|
        ensures EntryIsSelection(ts, keyOf, member, g'[j])
      {
        var e := g'[j];
        assert Select(ts, keyOf, e.key) == Select(init, keyOf, e.key) + if k == e.key then [t] else [];
        if e.key == k {
          var sel := Select(init, keyOf, k);
          SumOfAppend(sel, [t], Revenue);
          SumOfAppend(sel, [t], Quantity);
          assert [t][1..] == [];
          assert SumOf([t], Revenue) == Revenue(t) && SumOf([t], Quantity) == Quantity(t);
          if i < 0 {
            assert k !in MapSeq(g, GroupKey);
            SelectNone(init, keyOf, k);
            assert j == |g|;
            assert sel + [t] == [t];
            assert e.revenue == TotalRevenue(sel + [t]);
          } else {
            assert j == i by {
              if j < |g| { assert GroupKey(g[j]) == k; }
            }
            assert EntryIsSelection(init, keyOf, member, g[i]);
            assert e.revenue == TotalRevenue(sel + [t]);
          }
          assert MemberSet(sel + [t], member) == MemberSet(sel, member) + {member(t)};
        } else {
          assert j < |g| && g'[j] == g[j];
          assert EntryIsSelection(init, keyOf, member, g[j]);
          assert Select(ts, keyOf, e.key) == Select(init, keyOf, e.key);
        }
      }
    }
  }

  /**
   * Grouping conserves the totals: the entries' revenues add up to the total
   * revenue, their counts to the number of transactions and their units to
   * the total units.
   */
  lemma {:induction false} GroupByConserves(ts: seq<Transaction>, keyOf: Transaction -> string, member: Transaction -> string)
    ensures SumOf(GroupBy(ts, keyOf, member), GroupRevenue) == TotalRevenue(ts)
    ensures SumOf(GroupBy(ts, keyOf, member), GroupCount) == |ts| as real
    ensures SumOf(GroupBy(ts, keyOf, member), GroupQuantity) == TotalQuantity(ts)
  {
    if ts != [] {
      var init, t := ts[..|ts| - 1], ts[|ts| - 1];
      GroupByConserves(init, keyOf, member);
      assert ts == init + [t];
      SumOfAppend(init, [t], Revenue);
      SumOfAppend(init, [t], Quantity);
      AddToConserves(GroupBy(init, keyOf, member), t, keyOf, member);
    }
  }

  /** One step of the walk adds the line's revenue, one transaction and its units to the totals. */
  lemma AddToConserves(g: seq<Group>, t: Transaction, keyOf: Transaction -> string, member: Transaction -> string)
    ensures SumOf(AddTo(g, t, keyOf, member), GroupRevenue) == SumOf(g, GroupRevenue) + Revenue(t)
    ensures SumOf(AddTo(g, t, keyOf, member), GroupCount) == SumOf(g, GroupCount) + 1.0
    ensures SumOf(AddTo(g, t, keyOf, member), GroupQuantity) == SumOf(g, GroupQuantity) + Quantity(t)
  {
    var i := IndexOf(g, GroupKey, keyOf(t));
    if i < 0 {
      var v := Group(keyOf(t), Revenue(t), 1, t.quantity, {member(t)});
      SumOfAppend(g, [v], GroupRevenue);
      SumOfAppend(g, [v], GroupCount);
      SumOfAppend(g, [v], GroupQuantity);
    } else {
      var v := Group(keyOf(t), g[i].revenue + Revenue(t), g[i].count + 1, g[i].quantity + t.quantity, g[i].members + {member(t)});
      SumOfUpdate(g, i, v, GroupRevenue);
      SumOfUpdate(g, i, v, GroupCount);
      SumOfUpdate(g, i, v, GroupQuantity);
    }
  }

  /** Every entry counts at least one transaction, and has no more members than transactions. */
  lemma {:induction false} GroupByMembersBounded(ts: seq<Transaction>, keyOf: Transaction -> string, member: Transaction -> string)
    ensures forall e :: e in GroupBy(ts, keyOf, member) ==> 1 <= |e.members| <= e.count
  {
    if ts != [] {
      var init, t := ts[..|ts| - 1], ts[|ts| - 1];
      var g := GroupBy(init, keyOf, member);
      GroupByMembersBounded(init, keyOf, member);
      var i := IndexOf(g, GroupKey, keyOf(t));
      if i >= 0 {
        var ms := g[i].members + {member(t)};
        assert |ms| <= |g[i].members| + 1 by {
          if member(t) in g[i].members { assert ms == g[i].members; }
        }
        assert g[i].members <= ms;
        forall e | e in GroupBy(ts, keyOf, member)
          ensures 1 <= |e.members| <= e.count
        {
          var j :| 0 <= j < |GroupBy(ts, keyOf, member)| && GroupBy(ts, keyOf, member)[j] == e;
          if j != i { assert e == g[j]; }
        }
      }
    }
  }
}
