/**
 * The Python string built-ins the sales pipeline relies on: `strip`,
 * `startswith`, `replace(c, "")`, `split(sep)`, `str.isdigit`, `int()`,
 * `float()` and the `<` ordering of strings, each modelled on `seq<char>`.
 */
module Text {
  import opened Wrappers
  import opened Collections

  /** The characters Python's `str.isspace` accepts, which `strip()` removes. */
  predicate IsSpace(c: char)
  {
    c == ' ' || c == '\t' || c == '\n' || c == '\r' || c == '\U{000B}' || c == '\U{000C}'
    || ('\U{001C}' <= c <= '\U{001F}') || c == '\U{0085}' || c == '\U{00A0}' || c == '\U{1680}'
    || ('\U{2000}' <= c <= '\U{200A}') || c == '\U{2028}' || c == '\U{2029}' || c == '\U{202F}'
    || c == '\U{205F}' || c == '\U{3000}'
  }

  function TrimLeft(s: string): string
  {
    if s != [] && IsSpace(s[0]) then TrimLeft(s[1..]) else s
  }

  function TrimRight(s: string): string
  {
    if s != [] && IsSpace(s[|s| - 1]) then TrimRight(s[..|s| - 1]) else s
  }

  /** `TrimLeft` drops exactly the leading white space. */
  lemma {:induction false} TrimLeftFacts(s: string)
    ensures var r := TrimLeft(s);
      |r| <= |s| && r == s[|s| - |r|..] && (r == [] || !IsSpace(r[0])) &&
      forall i :: 0 <= i < |s| - |r| ==> IsSpace(s[i])
  {
    if s != [] && IsSpace(s[0]) {
      var t := s[1..];
      TrimLeftFacts(t);
      var r := TrimLeft(t);
      assert TrimLeft(s) == r;
      assert t[|t| - |r|..] == s[|s| - |r|..];
      forall i | 0 <= i < |s| - |r|
        ensures IsSpace(s[i])
      {
        if i > 0 {
          assert s[i] == t[i - 1];
        }
      }
    }
  }

  /** `TrimRight` drops exactly the trailing white space. */
  lemma {:induction false} TrimRightFacts(s: string)
    ensures var r := TrimRight(s);
      |r| <= |s| && r == s[..|r|] && (r == [] || !IsSpace(r[|r| - 1])) &&
      forall i :: |r| <= i < |s| ==> IsSpace(s[i])
  {
    if s != [] && IsSpace(s[|s| - 1]) {
      TrimRightFacts(s[..|s| - 1]);
    }
  }

  /** Python's `s.strip()`. */
  function Strip(s: string): string
  {
    TrimRight(TrimLeft(s))
  }

  /**
   * The strip of a string is the slice of it left when the white space at
   * both ends is cut off: what is cut is all white space, and what is left
   * neither starts nor ends with white space.
   */
  lemma StripFacts(s: string)
    ensures var r := Strip(s);
      (r == [] || (!IsSpace(r[0]) && !IsSpace(r[|r| - 1]))) &&
      exists i, j :: 0 <= i <= j <= |s| && r == s[i..j] &&
        (forall k :: 0 <= k < i ==> IsSpace(s[k])) && (forall k :: j <= k < |s| ==> IsSpace(s[k]))
  {
    var l := TrimLeft(s);
    TrimLeftFacts(s);
    TrimRightFacts(l);
    var i := |s| - |l|;
    var j := i + |Strip(s)|;
    assert Strip(s) == s[i..j];
    forall k | j <= k < |s|
      ensures IsSpace(s[k])
    {
      assert s[k] == l[k - i];
    }
  }

  /** Python's `not s.strip()`. */
  predicate IsBlank(s: string)
  {
    Strip(s) == []
  }

  /** A string is blank exactly when every character in it is white space. */
  lemma BlankIffAllSpace(s: string)
    ensures IsBlank(s) <==> forall i :: 0 <= i < |s| ==> IsSpace(s[i])
  {
    TrimLeftFacts(s);
    TrimRightFacts(TrimLeft(s));
  }

  /** A string that neither starts nor ends with white space is its own strip. */
  lemma StripUnchanged(s: string)
    requires s == [] || (!IsSpace(s[0]) && !IsSpace(s[|s| - 1]))
    ensures Strip(s) == s
  {
    TrimLeftFacts(s);
    TrimRightFacts(s);
  }

  /** Python's `s.startswith(prefix)`. */
  predicate StartsWith(s: string, prefix: string)
  {
    |prefix| <= |s| && s[..|prefix|] == prefix
  }

  /** Python's `s.replace(c, "")` for a one-character `c`. */
  function Remove(s: string, c: char): string
  {
    if s == [] then []
    else (if s[0] == c then [] else [s[0]]) + Remove(s[1..], c)
  }

  /**
   * `Remove` keeps exactly the characters other than `c`, in their order:
   * every `c` is gone and every other character stays, as often as it occurs.
   */
  lemma RemoveFacts(s: string, c: char)
    ensures Remove(s, c) == Filter(s, x => x != c)
    ensures c !in Remove(s, c)
    ensures forall x :: x != c ==> multiset(Remove(s, c))[x] == multiset(s)[x]
  {
    RemoveIsFilter(s, c);
    RemoveCounts(s, c);
  }

  lemma {:induction false} RemoveIsFilter(s: string, c: char)
    ensures Remove(s, c) == Filter(s, x => x != c)
  {
    if s != [] {
      RemoveIsFilter(s[1..], c);
      assert s == [s[0]] + s[1..];
      FilterAppend([s[0]], s[1..], x => x != c);
      assert Filter([s[0]], x => x != c) == if s[0] != c then [s[0]] else [];
    }
  }

  lemma {:induction false} RemoveCounts(s: string, c: char)
    ensures c !in Remove(s, c)
    ensures forall x :: x != c ==> multiset(Remove(s, c))[x] == multiset(s)[x]
  {
    if s != [] {
      RemoveCounts(s[1..], c);
      assert s == [s[0]] + s[1..];
    }
  }

  /** Python's `s.split(sep)` for a one-character separator. */
  function Split(s: string, sep: char): (r: seq<string>)
    ensures |r| >= 1
  {
    if s == [] then [[]]
    else
      var rest := Split(s[1..], sep);
      if s[0] == sep then [[]] + rest
      else [[s[0]] + rest[0]] + rest[1..]
  }

  /** No field of a split holds the separator. */
  lemma {:induction false} SplitFieldsFree(s: string, sep: char)
    ensures forall i :: 0 <= i < |Split(s, sep)| ==> sep !in Split(s, sep)[i]
  {
    if s != [] {
      SplitFieldsFree(s[1..], sep);
    }
  }

  /** Python's `sep.join(fields)`. */
  function Join(fields: seq<string>, sep: char): string
    requires |fields| >= 1
  {
    if |fields| == 1 then fields[0] else fields[0] + [sep] + Join(fields[1..], sep)
  }

  /** Splitting yields one field more than there are separators. */
  lemma {:induction false} SplitCount(s: string, sep: char)
    ensures |Split(s, sep)| == multiset(s)[sep] + 1
  {
    if s != [] {
      assert s == [s[0]] + s[1..];
      SplitCount(s[1..], sep);
    }
  }

  /** Joining the fields of a split gives back the line. */
  lemma {:induction false} JoinSplit(s: string, sep: char)
    ensures Join(Split(s, sep), sep) == s
  {
    if s != [] {
      var rest := Split(s[1..], sep);
      JoinSplit(s[1..], sep);
      if s[0] != sep && |rest| > 1 {
        assert Split(s, sep)[1..] == rest[1..];
      }
    }
  }

  lemma {:induction false} SplitNoSeparator(a: string, sep: char)
    requires sep !in a
    ensures Split(a, sep) == [a]
  {
    if a != [] {
      SplitNoSeparator(a[1..], sep);
      assert [a[0]] + a[1..] == a;
    }
  }

  lemma {:induction false} SplitAtSeparator(a: string, b: string, sep: char)
    requires sep !in a
    ensures Split(a + [sep] + b, sep) == [a] + Split(b, sep)
  {
    if a != [] {
      assert (a + [sep] + b)[1..] == a[1..] + [sep] + b;
      SplitAtSeparator(a[1..], b, sep);
      assert [a[0]] + a[1..] == a;
    } else {
      assert a + [sep] + b == [sep] + b;
    }
  }

  /** Splitting the join of separator-free fields gives back the fields. */
  lemma {:induction false} SplitJoin(fields: seq<string>, sep: char)
    requires |fields| >= 1
    requires forall i :: 0 <= i < |fields| ==> sep !in fields[i]
    ensures Split(Join(fields, sep), sep) == fields
  {
    if |fields| == 1 {
      SplitNoSeparator(fields[0], sep);
    } else {
      SplitJoin(fields[1..], sep);
      SplitAtSeparator(fields[0], Join(fields[1..], sep), sep);
      assert [fields[0]] + fields[1..] == fields;
    }
  }

  predicate IsDigit(c: char)
  {
    '0' <= c <= '9'
  }

  predicate AllDigits(s: string)
  {
    forall i :: 0 <= i < |s| ==> IsDigit(s[i])
  }

  function DigitValue(c: char): nat
    requires IsDigit(c)
  {
    c as int - '0' as int
  }

  /** The number a string of decimal digits denotes ("" denotes 0). */
  function ValueOf(ds: string): nat
    requires AllDigits(ds)
  {
    if ds == [] then 0 else ValueOf(ds[..|ds| - 1]) * 10 + DigitValue(ds[|ds| - 1])
  }

  /** Python's `"".join(filter(str.isdigit, s))`, for ASCII digits. */
  function Digits(s: string): (r: string)
    ensures AllDigits(r)
    ensures |r| <= |s|
  {
    if s == [] then []
    else (if IsDigit(s[0]) then [s[0]] else []) + Digits(s[1..])
  }

  /** `Digits` keeps every digit, in order, and nothing else. */
  lemma {:induction false} DigitsAppend(a: string, b: string)
    ensures Digits(a + b) == Digits(a) + Digits(b)
  {
    if a != [] {
      assert (a + b)[1..] == a[1..] + b;
      DigitsAppend(a[1..], b);
    } else {
      assert a + b == b;
    }
  }

  lemma {:induction false} DigitsOfDigits(s: string)
    requires AllDigits(s)
    ensures Digits(s) == s
  {
    if s != [] {
      DigitsOfDigits(s[1..]);
      assert [s[0]] + s[1..] == s;
    }
  }

  /** The decimal rendering of a natural number, as Python's `str(n)`. */
  function ShowNat(n: nat): (r: string)
    ensures AllDigits(r) && r != []
  {
    var d := ['0' + (n % 10) as char];
    if n < 10 then d else ShowNat(n / 10) + d
  }

  lemma {:induction false} ValueOfShowNat(n: nat)
    ensures ValueOf(ShowNat(n)) == n
  {
    var s := ShowNat(n);
    if n >= 10 {
      ValueOfShowNat(n / 10);
      assert s[..|s| - 1] == ShowNat(n / 10);
    }
  }

  /** Python's `int(s)`: optional sign and decimal digits, surrounded by white space. */
  function ParseInt(s: string): Option<int>
  {
    var t := Strip(s);
    if t != [] && (t[0] == '+' || t[0] == '-') then
      if |t| > 1 && AllDigits(t[1..]) then
        var v: int := ValueOf(t[1..]);
        Some(if t[0] == '-' then -v else v)
      else None
    else if t != [] && AllDigits(t) then Some(ValueOf(t))
    else None
  }

  function Pow10(k: nat): (p: nat)
    ensures p >= 1
  {
    if k == 0 then 1 else 10 * Pow10(k - 1)
  }

  /** An unsigned decimal: digits, optionally one '.', at least one digit in all. */
  function ParseUnsignedDecimal(t: string): Option<real>
  {
    var parts := Split(t, '.');
    if |parts| == 1 && t != [] && AllDigits(t) then
      Some(ValueOf(t) as real)
    else if |parts| == 2 && AllDigits(parts[0]) && AllDigits(parts[1]) && |parts[0]| + |parts[1]| > 0 then
      Some(ValueOf(parts[0]) as real + ValueOf(parts[1]) as real / Pow10(|parts[1]|) as real)
    else None
  }

  /** Python's `float(s)` for plain decimal notation. */
  function ParseFloat(s: string): Option<real>
  {
    var t := Strip(s);
    if t != [] && (t[0] == '+' || t[0] == '-') then
      match ParseUnsignedDecimal(t[1..])
      case Some(v) => Some(if t[0] == '-' then -v else v)
      case None => None
    else ParseUnsignedDecimal(t)
  }

  lemma DigitsHaveNoDot(t: string)
    requires AllDigits(t)
    ensures '.' !in t
  {
    forall i | 0 <= i < |t|
      ensures t[i] != '.'
    {
      assert IsDigit(t[i]);
    }
  }

  /** Every string `int()` accepts, `float()` accepts with the same value. */
  lemma IntParsesAsFloat(s: string)
    requires ParseInt(s).Some?
    ensures ParseFloat(s) == Some(ParseInt(s).value as real)
  {
    var t := Strip(s);
    if t[0] == '+' || t[0] == '-' {
      DigitsHaveNoDot(t[1..]);
      SplitNoSeparator(t[1..], '.');
    } else {
      DigitsHaveNoDot(t);
      SplitNoSeparator(t, '.');
    }
  }

  /** `int()` reads back what `str()` writes, for either sign. */
  lemma ParseIntShowNat(n: nat)
    ensures ParseInt(ShowNat(n)) == Some(n)
    ensures ParseInt("-" + ShowNat(n)) == Some(-(n as int))
  {
    var s := ShowNat(n);
    ValueOfShowNat(n);
    assert IsDigit(s[0]) && IsDigit(s[|s| - 1]);
    StripUnchanged(s);
    var m := "-" + s;
    StripUnchanged(m);
    assert m[1..] == s;
  }

  /** Python's `a < b` on strings: lexicographic by code point, a proper prefix first. */
  predicate StrLess(a: string, b: string)
  {
    if a == [] then b != []
    else if b == [] then false
    else if a[0] != b[0] then a[0] < b[0]
    else StrLess(a[1..], b[1..])
  }

  lemma {:induction false} StrLessAsymmetric(a: string, b: string)
    ensures StrLess(a, b) ==> !StrLess(b, a)
  {
    if a != [] && b != [] && a[0] == b[0] {
      StrLessAsymmetric(a[1..], b[1..]);
    }
  }

  lemma {:induction false} StrLessTransitive(a: string, b: string, c: string)
    ensures StrLess(a, b) && StrLess(b, c) ==> StrLess(a, c)
  {
    if a != [] && b != [] && c != [] && a[0] == b[0] == c[0] {
      StrLessTransitive(a[1..], b[1..], c[1..]);
    }
  }

  lemma {:induction false} StrLessTotal(a: string, b: string)
    ensures a == b || StrLess(a, b) || StrLess(b, a)
  {
    if a != [] && b != [] && a[0] == b[0] {
      StrLessTotal(a[1..], b[1..]);
      if a[1..] == b[1..] {
        assert a == [a[0]] + a[1..] && b == [b[0]] + b[1..];
      }
    }
  }
}
