/**
 * Python's `list.sort(key=..., reverse=...)` and `sorted(...)`: a stable
 * sort. `before(a, b)` holds when `a`'s key must come strictly before `b`'s
 * (`key(a) > key(b)` for `reverse=True`, `key(a) < key(b)` otherwise), so
 * elements neither of which comes before the other keep their input order.
 */
module Sorting {
  import opened Collections

  /** `before` is a strict weak order: asymmetric, and incomparability is transitive. */
  ghost predicate StrictWeakOrder<T(!new)>(before: (T, T) -> bool)
  {
    (forall a, b :: before(a, b) ==> !before(b, a)) &&
    (forall a, b, c :: before(a, c) ==> before(a, b) || before(b, c))
  }

  /** Neither element has to come before the other: their sort keys tie. */
  predicate Tied<T>(a: T, b: T, before: (T, T) -> bool)
  {
    !before(a, b) && !before(b, a)
  }

  /** No element comes strictly before an element placed ahead of it. */
  ghost predicate Sorted<T>(s: seq<T>, before: (T, T) -> bool)
  {
    forall i, j :: 0 <= i < j < |s| ==> !before(s[j], s[i])
  }

  /** The elements of `s` whose key ties with `e`'s, in their order in `s`. */
  function TiesWith<T>(s: seq<T>, e: T, before: (T, T) -> bool): seq<T>
  {
    if s == [] then []
    else (if Tied(s[0], e, before) then [s[0]] else []) + TiesWith(s[1..], e, before)
  }

  /** Puts `x` ahead of the first element it comes strictly before, after all its ties. */
  function Insert<T>(x: T, s: seq<T>, before: (T, T) -> bool): (r: seq<T>)
    ensures multiset(r) == multiset(s) + multiset{x}
    ensures |r| == |s| + 1
  {
    if s == [] || before(x, s[0]) then [x] + s
    else
      assert s == [s[0]] + s[1..];
      [s[0]] + Insert(x, s[1..], before)
  }

  /** The stable sort: each element, in input order, is inserted after its ties. */
  function SortBy<T>(s: seq<T>, before: (T, T) -> bool): (r: seq<T>)
    ensures multiset(r) == multiset(s)
    ensures |r| == |s|
  {
    if s == [] then []
    else
      assert s == s[..|s| - 1] + [s[|s| - 1]];
      Insert(s[|s| - 1], SortBy(s[..|s| - 1], before), before)
  }

  lemma SortedPrefix<T>(s: seq<T>, k: nat, before: (T, T) -> bool)
    requires Sorted(s, before) && k <= |s|
    ensures Sorted(s[..k], before)
  {
  }

  lemma {:induction false} InsertSorted<T(!new)>(x: T, s: seq<T>, before: (T, T) -> bool)
    requires StrictWeakOrder(before)
    requires Sorted(s, before)
    ensures Sorted(Insert(x, s, before), before)
  {
    if s != [] && !before(x, s[0]) {
      InsertSorted(x, s[1..], before);
      var r := Insert(x, s, before);
      forall j | 0 < j < |r|
        ensures !before(r[j], s[0])
      {
        assert r[j] in multiset(Insert(x, s[1..], before));
        assert r[j] == x || r[j] in s[1..];
      }
    }
  }

  /** The sort puts the elements in order. */
  lemma {:induction false} SortBySorted<T(!new)>(s: seq<T>, before: (T, T) -> bool)
    requires StrictWeakOrder(before)
    ensures Sorted(SortBy(s, before), before)
  {
    if s != [] {
      SortBySorted(s[..|s| - 1], before);
      InsertSorted(s[|s| - 1], SortBy(s[..|s| - 1], before), before);
    }
  }

  lemma {:induction false} TiesWithAppend<T>(a: seq<T>, b: seq<T>, e: T, before: (T, T) -> bool)
    ensures TiesWith(a + b, e, before) == TiesWith(a, e, before) + TiesWith(b, e, before)
  {
    if a != [] {
      assert (a + b)[1..] == a[1..] + b;
      TiesWithAppend(a[1..], b, e, before);
    } else {
      assert a + b == b;
    }
  }

  lemma {:induction false} InsertTies<T(!new)>(x: T, s: seq<T>, e: T, before: (T, T) -> bool)
    requires StrictWeakOrder(before)
    requires Sorted(s, before)
    ensures TiesWith(Insert(x, s, before), e, before)
         == TiesWith(s, e, before) + if Tied(x, e, before) then [x] else []
  {
    if s == [] {
    } else if before(x, s[0]) {
      InsertTiesAtFront(x, s, e, before);
    } else {
      SortedTail(s, before);
      InsertTies(x, s[1..], e, before);
      InsertTiesBehindHead(x, s, e, before);
    }
  }

  /** Inserting behind the head adds to the ties of `s` what inserting into its tail adds. */
  lemma {:induction false} InsertTiesBehindHead<T>(x: T, s: seq<T>, e: T, before: (T, T) -> bool)
    requires s != [] && !before(x, s[0])
    requires TiesWith(Insert(x, s[1..], before), e, before)
          == TiesWith(s[1..], e, before) + if Tied(x, e, before) then [x] else []
    ensures TiesWith(Insert(x, s, before), e, before)
         == TiesWith(s, e, before) + if Tied(x, e, before) then [x] else []
  {
    var r, rest := Insert(x, s, before), Insert(x, s[1..], before);
    var head := if Tied(s[0], e, before) then [s[0]] else [];
    var tail := if Tied(x, e, before) then [x] else [];
    assert r[0] == s[0] && r[1..] == rest;
    assert TiesWith(r, e, before) == head + TiesWith(rest, e, before);
    assert TiesWith(s, e, before) == head + TiesWith(s[1..], e, before);
    assert head + (TiesWith(s[1..], e, before) + tail) == (head + TiesWith(s[1..], e, before)) + tail;
  }

  lemma SortedTail<T>(s: seq<T>, before: (T, T) -> bool)
    requires Sorted(s, before) && s != []
    ensures Sorted(s[1..], before)
  {
    forall i, j | 0 <= i < j < |s| - 1
      ensures !before(s[1..][j], s[1..][i])
    {
      assert s[1..][j] == s[j + 1] && s[1..][i] == s[i + 1];
    }
  }

  lemma InsertTiesAtFront<T(!new)>(x: T, s: seq<T>, e: T, before: (T, T) -> bool)
    requires StrictWeakOrder(before)
    requires Sorted(s, before)
    requires s != [] && before(x, s[0])
    ensures TiesWith([x] + s, e, before) == TiesWith(s, e, before) + if Tied(x, e, before) then [x] else []
  {
    if Tied(x, e, before) {
      NoTiesAfter(x, s, e, before);
    }
    TiesWithAppend([x], s, e, before);
  }

  /** Once `x` comes before the head of a sorted `s`, nothing in `s` ties with `x`. */
  lemma {:induction false} NoTiesAfter<T(!new)>(x: T, s: seq<T>, e: T, before: (T, T) -> bool)
    requires StrictWeakOrder(before)
    requires Sorted(s, before)
    requires s != [] && before(x, s[0])
    requires Tied(x, e, before)
    ensures TiesWith(s, e, before) == []
  {
    if |s| > 1 {
      assert before(x, s[1]) by {
        assert !before(s[1], s[0]);
      }
      NoTiesAfter(x, s[1..], e, before);
    }
    assert !Tied(s[0], e, before) by {
      assert before(x, e) || before(e, s[0]);
    }
  }

  /**
   * The sort is stable: for every element, the elements tied with it appear
   * in the output in exactly the order they had in the input.
   */
  lemma {:induction false} SortByStable<T(!new)>(s: seq<T>, e: T, before: (T, T) -> bool)
    requires StrictWeakOrder(before)
    ensures TiesWith(SortBy(s, before), e, before) == TiesWith(s, e, before)
  {
    if s != [] {
      var init, last := s[..|s| - 1], s[|s| - 1];
      SortByStable(init, e, before);
      SortBySorted(init, before);
      InsertTies(last, SortBy(init, before), e, before);
      assert s == init + [last];
      TiesWithAppend(init, [last], e, before);
    }
  }

  lemma {:induction false} SumOfInsert<T>(x: T, s: seq<T>, before: (T, T) -> bool, f: T -> real)
    ensures SumOf(Insert(x, s, before), f) == SumOf(s, f) + f(x)
  {
    if s != [] && !before(x, s[0]) {
      SumOfInsert(x, s[1..], before, f);
    }
  }

  /** Sorting moves values around but does not change their sum. */
  lemma {:induction false} SumOfSortBy<T>(s: seq<T>, before: (T, T) -> bool, f: T -> real)
    ensures SumOf(SortBy(s, before), f) == SumOf(s, f)
  {
    if s != [] {
      var init, last := s[..|s| - 1], s[|s| - 1];
      SumOfSortBy(init, before, f);
      SumOfInsert(last, SortBy(init, before), before, f);
      assert s == init + [last];
      SumOfAppend(init, [last], f);
    }
  }
}
