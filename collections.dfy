/**
 * Generic facts about sequences used as Python lists and as insertion-ordered
 * Python dicts (a dict is a sequence of entries whose keys are distinct).
 */
module Collections {

  /** Sum of `f` over the elements of `s`, front to back. */
  function SumOf<T>(s: seq<T>, f: T -> real): real
  {
    if s == [] then 0.0 else f(s[0]) + SumOf(s[1..], f)
  }

  lemma {:induction false} SumOfAppend<T>(a: seq<T>, b: seq<T>, f: T -> real)
    ensures SumOf(a + b, f) == SumOf(a, f) + SumOf(b, f)
  {
    if a == [] {
      assert a + b == b;
    } else {
      assert (a + b)[1..] == a[1..] + b;
      SumOfAppend(a[1..], b, f);
    }
  }

  /** Replacing one element changes the sum by the difference of the two values. */
  lemma {:induction false} SumOfUpdate<T>(s: seq<T>, i: nat, v: T, f: T -> real)
    requires i < |s|
    ensures SumOf(s[i := v], f) == SumOf(s, f) - f(s[i]) + f(v)
  {
    if i > 0 {
      assert s[i := v][1..] == s[1..][i - 1 := v];
      SumOfUpdate(s[1..], i - 1, v, f);
    } else {
      assert s[i := v][1..] == s[1..];
    }
  }

  /** The index of the entry whose key is `k`, or -1 when no entry has that key. */
  function IndexOf<T>(s: seq<T>, key: T -> string, k: string): (i: int)
    ensures -1 <= i < |s|
    ensures i >= 0 ==> key(s[i]) == k && forall j :: 0 <= j < i ==> key(s[j]) != k
    ensures i < 0 <==> forall j :: 0 <= j < |s| ==> key(s[j]) != k
  {
    if s == [] then -1
    else if key(s[0]) == k then 0
    else
      var j := IndexOf(s[1..], key, k);
      if j < 0 then -1 else j + 1
  }

  /** Two sequences with the same keys position by position look up alike. */
  lemma {:induction false} IndexOfSameKeys<T, U>(s: seq<T>, key: T -> string, s': seq<U>, key': U -> string, k: string)
    requires |s| == |s'|
    requires forall i :: 0 <= i < |s| ==> key(s[i]) == key'(s'[i])
    ensures IndexOf(s, key, k) == IndexOf(s', key', k)
  {
    if s != [] {
      IndexOfSameKeys(s[1..], key, s'[1..], key', k);
    }
  }

  /** No two entries share a key: what makes a sequence of entries a dict. */
  ghost predicate DistinctBy<T>(s: seq<T>, key: T -> string)
  {
    forall i, j :: 0 <= i < j < |s| ==> key(s[i]) != key(s[j])
  }

  /** The keys of `s`, each kept at its first occurrence (the key order of a dict filled from `s`). */
  function Dedup(s: seq<string>): seq<string>
  {
    if s == [] then []
    else
      var d := Dedup(s[..|s| - 1]);
      if s[|s| - 1] in d then d else d + [s[|s| - 1]]
  }

  lemma {:induction false} DedupFacts(s: seq<string>)
    ensures forall i, j :: 0 <= i < j < |Dedup(s)| ==> Dedup(s)[i] != Dedup(s)[j]
    ensures forall x :: x in Dedup(s) <==> x in s
  {
    if s != [] {
      var init := s[..|s| - 1];
      DedupFacts(init);
      assert s == init + [s[|s| - 1]];
    }
  }

  lemma {:induction false} TwoOccurrences<T>(s: seq<T>, i: nat, j: nat)
    requires i < j < |s| && s[i] == s[j]
    ensures multiset(s)[s[i]] >= 2
  {
    assert s == s[..j] + [s[j]] + s[j + 1..];
    assert s[i] in multiset(s[..j]);
  }

  lemma {:induction false} DistinctCountsAtMostOne<T>(s: seq<T>, key: T -> string, v: T)
    requires DistinctBy(s, key)
    ensures multiset(s)[v] <= 1
  {
    if s != [] {
      var last := s[|s| - 1];
      var init := s[..|s| - 1];
      assert s == init + [last];
      assert DistinctBy(init, key);
      DistinctCountsAtMostOne(init, key, v);
      forall p | 0 <= p < |init|
        ensures init[p] != last
      {
        assert key(s[p]) != key(s[|s| - 1]);
      }
    }
  }

  lemma DistinctByPrefix<T>(s: seq<T>, k: nat, key: T -> string)
    requires DistinctBy(s, key) && k <= |s|
    ensures DistinctBy(s[..k], key)
  {
  }

  /** A permutation of a dict is again a dict. */
  lemma DistinctByPermutation<T>(s: seq<T>, r: seq<T>, key: T -> string)
    requires DistinctBy(s, key)
    requires multiset(r) == multiset(s)
    ensures DistinctBy(r, key)
  {
    forall i, j | 0 <= i < j < |r|
      ensures key(r[i]) != key(r[j])
    {
      assert r[i] in multiset(r) && r[j] in multiset(r);
      var p :| 0 <= p < |s| && s[p] == r[i];
      var q :| 0 <= q < |s| && s[q] == r[j];
      if p == q {
        TwoOccurrences(r, i, j);
        DistinctCountsAtMostOne(s, key, r[i]);
        assert false;
      } else if p < q {
        assert key(s[p]) != key(s[q]);
      } else {
        assert key(s[q]) != key(s[p]);
      }
    }
  }

  /** Python's `s[:n]`: the first `n` elements, or all but the last `-n` when `n` is negative. */
  function SliceTo<T>(s: seq<T>, n: int): (r: seq<T>)
    ensures |r| <= |s| && r == s[..|r|]
    ensures 0 <= n <= |s| ==> |r| == n
    ensures n > |s| ==> r == s
    ensures -|s| <= n < 0 ==> |r| == |s| + n
    ensures n < -|s| ==> r == []
  {
    if n >= 0 then (if n <= |s| then s[..n] else s)
    else if |s| + n >= 0 then s[..|s| + n]
    else []
  }

  /** `[f(x) for x in s]`. */
  function MapSeq<A, B>(s: seq<A>, f: A -> B): (r: seq<B>)
    ensures |r| == |s|
    ensures forall i :: 0 <= i < |s| ==> r[i] == f(s[i])
  {
    seq(|s|, i requires 0 <= i < |s| => f(s[i]))
  }

  lemma MapSeqAppend<A, B>(s: seq<A>, x: A, f: A -> B)
    ensures MapSeq(s + [x], f) == MapSeq(s, f) + [f(x)]
  {
  }

  lemma MapSeqUpdate<A, B>(s: seq<A>, i: nat, x: A, f: A -> B)
    requires i < |s|
    ensures MapSeq(s[i := x], f) == MapSeq(s, f)[i := f(x)]
  {
  }

  /**
   * A sequence `m` with the keys of a dict `s`, position by position, is a
   * dict with the same key set, and so is any permutation `r` of it.
   */
  lemma ViewIsDict<A, B>(s: seq<A>, key: A -> string, m: seq<B>, key': B -> string, r: seq<B>)
    requires DistinctBy(s, key)
    requires |m| == |s| && forall i :: 0 <= i < |s| ==> key'(m[i]) == key(s[i])
    requires multiset(r) == multiset(m)
    ensures DistinctBy(r, key')
    ensures forall k :: k in MapSeq(r, key') <==> k in MapSeq(s, key)
  {
    assert DistinctBy(m, key') by {
      forall i, j | 0 <= i < j < |m|
        ensures key'(m[i]) != key'(m[j])
      {
        assert key'(m[i]) == key(s[i]) && key'(m[j]) == key(s[j]);
      }
    }
    DistinctByPermutation(m, r, key');
    forall k | k in MapSeq(r, key')
      ensures k in MapSeq(s, key)
    {
      var p :| 0 <= p < |r| && MapSeq(r, key')[p] == k;
      assert r[p] in multiset(m);
      var i :| 0 <= i < |m| && m[i] == r[p];
      assert MapSeq(s, key)[i] == k;
    }
    forall k | k in MapSeq(s, key)
      ensures k in MapSeq(r, key')
    {
      var i :| 0 <= i < |s| && MapSeq(s, key)[i] == k;
      assert m[i] in multiset(r);
      var p :| 0 <= p < |r| && r[p] == m[i];
      assert MapSeq(r, key')[p] == k;
    }
  }

  /** Sums over two sequences agree when their terms agree position by position. */
  lemma {:induction false} SumOfPointwise<A, B>(s: seq<A>, f: A -> real, r: seq<B>, h: B -> real)
    requires |s| == |r|
    requires forall i :: 0 <= i < |s| ==> f(s[i]) == h(r[i])
    ensures SumOf(s, f) == SumOf(r, h)
  {
    if s != [] {
      SumOfPointwise(s[1..], f, r[1..], h);
    }
  }

  /** `[x for x in s if p(x)]`. */
  function Filter<T(!new)>(s: seq<T>, p: T -> bool): (r: seq<T>)
    ensures |r| <= |s|
  {
    if s == [] then []
    else Filter(s[..|s| - 1], p) + (if p(s[|s| - 1]) then [s[|s| - 1]] else [])
  }

  /** The filter keeps exactly the elements that pass. */
  lemma {:induction false} FilterMembers<T(!new)>(s: seq<T>, p: T -> bool)
    ensures forall x :: x in Filter(s, p) <==> x in s && p(x)
  {
    if s != [] {
      FilterMembers(s[..|s| - 1], p);
      assert s == s[..|s| - 1] + [s[|s| - 1]];
    }
  }

  lemma FilterSnoc<T(!new)>(s: seq<T>, x: T, p: T -> bool)
    ensures Filter(s + [x], p) == Filter(s, p) + if p(x) then [x] else []
  {
    assert (s + [x])[..|s|] == s;
  }

  /** `idx` lists, in increasing order, the positions of `b` the elements of `a` come from. */
  ghost predicate Embeds<T>(a: seq<T>, b: seq<T>, idx: seq<int>)
  {
    |idx| == |a| &&
    (forall i :: 0 <= i < |a| ==> 0 <= idx[i] < |b| && b[idx[i]] == a[i]) &&
    (forall i, j :: 0 <= i < j < |a| ==> idx[i] < idx[j])
  }

  /** `a` is `b` with some elements left out and the rest kept in order. */
  ghost predicate IsSubsequence<T>(a: seq<T>, b: seq<T>)
  {
    exists idx :: Embeds(a, b, idx)
  }

  lemma {:induction false} FilterIsSubsequence<T(!new)>(s: seq<T>, p: T -> bool)
    ensures IsSubsequence(Filter(s, p), s)
  {
    if s == [] {
      assert Embeds([], s, []);
    } else {
      var init := s[..|s| - 1];
      FilterIsSubsequence(init, p);
      var idx :| Embeds(Filter(init, p), init, idx);
      if p(s[|s| - 1]) {
        assert Embeds(Filter(s, p), s, idx + [|s| - 1]);
      } else {
        assert Embeds(Filter(s, p), s, idx);
      }
    }
  }

  lemma SubsequenceTransitive<T>(a: seq<T>, b: seq<T>, c: seq<T>)
    requires IsSubsequence(a, b) && IsSubsequence(b, c)
    ensures IsSubsequence(a, c)
  {
    var ab :| Embeds(a, b, ab);
    var bc :| Embeds(b, c, bc);
    var ac := seq(|a|, i requires 0 <= i < |a| => bc[ab[i]]);
    assert Embeds(a, c, ac);
  }

  /** Filtering a sequence all of whose elements pass leaves it unchanged. */
  lemma {:induction false} FilterAll<T(!new)>(s: seq<T>, p: T -> bool)
    requires forall x :: x in s ==> p(x)
    ensures Filter(s, p) == s
  {
    if s != [] {
      FilterAll(s[..|s| - 1], p);
      assert s == s[..|s| - 1] + [s[|s| - 1]];
    }
  }

  lemma {:induction false} FilterAppend<T(!new)>(a: seq<T>, b: seq<T>, p: T -> bool)
    ensures Filter(a + b, p) == Filter(a, p) + Filter(b, p)
  {
    if b == [] {
      assert a + b == a;
    } else {
      assert (a + b)[..|a + b| - 1] == a + b[..|b| - 1];
      FilterAppend(a, b[..|b| - 1], p);
    }
  }
}
