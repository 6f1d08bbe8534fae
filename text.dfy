/**
 * The string primitives of the JavaScript runtime that the components use:
 * `trim`, `toLowerCase`, `startsWith`, `includes`, `join`, and the ASCII
 * identifier classes of the regular expression `[a-zA-Z_][a-zA-Z0-9_]*`.
 */
module Text {

  /** ECMAScript WhiteSpace and LineTerminator code points: what `trim` removes. */
  predicate IsSpace(c: char) {
    || c == '\t' || c == '\n' || c == '\U{000B}' || c == '\U{000C}' || c == '\r'
    || c == ' ' || c == '\U{00A0}' || c == '\U{1680}'
    || ('\U{2000}' <= c <= '\U{200A}')
    || c == '\U{2028}' || c == '\U{2029}' || c == '\U{202F}' || c == '\U{205F}'
    || c == '\U{3000}' || c == '\U{FEFF}'
  }

  predicate AllSpace(s: string) {
    forall k :: 0 <= k < |s| ==> IsSpace(s[k])
  }

  /** `s.trimStart()`: what is left after the leading white space. */
  function TrimStart(s: string): (r: string)
    ensures |r| <= |s|
  {
    if s != [] && IsSpace(s[0]) then TrimStart(s[1..]) else s
  }

  /** `trimStart` keeps a suffix, removes only white space, and stops at the first other character. */
  lemma {:induction false} TrimStartSplits(s: string)
    ensures var r := TrimStart(s);
            && r == s[|s| - |r|..]
            && AllSpace(s[..|s| - |r|])
            && (r == [] || !IsSpace(r[0]))
  {
    if s != [] && IsSpace(s[0]) {
      TrimStartSplits(s[1..]);
      var r := TrimStart(s);
      assert s[1..][|s| - 1 - |r|..] == s[|s| - |r|..];
      forall k | 0 <= k < |s| - |r|
        ensures IsSpace(s[k])
      {
        if k > 0 {
          assert s[1..][..|s| - 1 - |r|][k - 1] == s[k];
        }
      }
    } else {
      assert s[|s| - |s|..] == s;
    }
  }

  /** `s.trimEnd()`: what is left before the trailing white space. */
  function TrimEnd(s: string): (r: string)
    ensures |r| <= |s|
  {
    if s != [] && IsSpace(s[|s| - 1]) then TrimEnd(s[..|s| - 1]) else s
  }

  /** `trimEnd` keeps a prefix, removes only white space, and stops at the last other character. */
  lemma {:induction false} TrimEndSplits(s: string)
    ensures var r := TrimEnd(s);
            && r == s[..|r|]
            && AllSpace(s[|r|..])
            && (r == [] || !IsSpace(r[|r| - 1]))
  {
    if s != [] && IsSpace(s[|s| - 1]) {
      TrimEndSplits(s[..|s| - 1]);
      var r := TrimEnd(s);
      assert s[..|s| - 1][..|r|] == s[..|r|];
      forall k | |r| <= k < |s|
        ensures IsSpace(s[k])
      {
        if k < |s| - 1 {
          assert s[..|s| - 1][|r|..][k - |r|] == s[k];
        }
      }
    } else {
      assert s[..|s|] == s;
    }
  }

  /** `s.trim()`. */
  function Trim(s: string): (r: string)
    ensures |r| <= |s|
  {
    TrimEnd(TrimStart(s))
  }

  /** A trimmed string neither starts nor ends with white space. */
  lemma TrimHasNoEdgeSpace(s: string)
    ensures Trim(s) == [] || (!IsSpace(Trim(s)[0]) && !IsSpace(Trim(s)[|Trim(s)| - 1]))
  {
    var t := TrimStart(s);
    TrimStartSplits(s);
    TrimEndSplits(t);
    var r := TrimEnd(t);
    if r != [] {
      assert r[0] == t[0];
    }
  }

  lemma {:induction false} TrimStartPadded(a: string, s: string)
    requires AllSpace(a)
    ensures TrimStart(a + s) == TrimStart(s)
  {
    if a != [] {
      assert (a + s)[0] == a[0] && IsSpace(a[0]);
      assert (a + s)[1..] == a[1..] + s;
      assert TrimStart(a + s) == TrimStart(a[1..] + s);
      TrimStartPadded(a[1..], s);
    } else {
      assert a + s == s;
    }
  }

  lemma {:induction false} TrimEndPadded(s: string, b: string)
    requires AllSpace(b)
    ensures TrimEnd(s + b) == TrimEnd(s)
  {
    if b != [] {
      assert (s + b)[|s + b| - 1] == b[|b| - 1] && IsSpace(b[|b| - 1]);
      assert (s + b)[..|s + b| - 1] == s + b[..|b| - 1];
      assert TrimEnd(s + b) == TrimEnd(s + b[..|b| - 1]);
      TrimEndPadded(s, b[..|b| - 1]);
    } else {
      assert s + b == s;
    }
  }

  /** Surrounding white space does not change what `trim` returns. */
  lemma {:induction false} TrimPadded(a: string, s: string, b: string)
    requires AllSpace(a) && AllSpace(b)
    ensures Trim(a + s + b) == Trim(s)
  {
    var t := TrimStart(s);
    TrimStartSplits(s);
    var lead := s[..|s| - |t|];
    assert s == lead + t;
    TrimStartThroughPadding(a, lead, t, b);
    TrimStartOfTrimmed(t, b);
  }

  /** Leading white space, on its own or in front of `s`, is skipped together. */
  lemma {:induction false} TrimStartThroughPadding(a: string, lead: string, t: string, b: string)
    requires AllSpace(a) && AllSpace(lead)
    ensures TrimStart(a + (lead + t) + b) == TrimStart(t + b)
  {
    Regroup(a, lead, t, b);
    TrimStartPadded(a, lead + (t + b));
    TrimStartPadded(lead, t + b);
  }

  /** A suffix of a suffix is a suffix. */
  lemma SuffixOfSuffix<T>(s: seq<T>, n: nat, k: nat)
    requires k <= n <= |s|
    ensures var w := s[|s| - n..][k..]; |w| <= |s| && s[|s| - |w|..] == w
  {
    assert s[|s| - n..][k..] == s[|s| - n + k..];
  }

  lemma Regroup<T>(a: seq<T>, b: seq<T>, c: seq<T>, d: seq<T>)
    ensures a + (b + c) + d == a + (b + (c + d))
  {
  }

  lemma {:induction false} TrimStartOfTrimmed(t: string, b: string)
    requires t == [] || !IsSpace(t[0])
    requires AllSpace(b)
    ensures TrimEnd(TrimStart(t + b)) == TrimEnd(t)
  {
    if t == [] {
      assert t + b == b + [];
      TrimStartPadded(b, []);
    } else {
      assert (t + b)[0] == t[0];
      TrimEndPadded(t, b);
    }
  }

  /** A string that already starts and ends with a non-space character is its own trim. */
  lemma TrimmedIsFixed(s: string)
    requires s == [] || (!IsSpace(s[0]) && !IsSpace(s[|s| - 1]))
    ensures Trim(s) == s
  {
  }

  /** `trim` is idempotent. */
  lemma TrimIdempotent(s: string)
    ensures Trim(Trim(s)) == Trim(s)
  {
    TrimHasNoEdgeSpace(s);
    TrimmedIsFixed(Trim(s));
  }

  /** A string whose first character is not white space keeps that first character under `trim`. */
  lemma TrimKeepsFirst(s: string)
    requires s != [] && !IsSpace(s[0])
    ensures Trim(s) != [] && Trim(s)[0] == s[0]
  {
    assert TrimStart(s) == s;
    TrimEndSplits(s);
    assert s[0] == s[..|s|][0];
  }

  predicate StartsWithChar(s: string, c: char) {
    s != [] && s[0] == c
  }

  predicate EndsWithChar(s: string, c: char) {
    s != [] && s[|s| - 1] == c
  }

  /** ASCII letters are folded to lower case; every other character is kept. */
  function LowerChar(c: char): char {
    if 'A' <= c <= 'Z' then (c as int + 32) as char else c
  }

  /** `s.toLowerCase()`, for the ASCII letters. */
  function Lower(s: string): (r: string)
    ensures |r| == |s|
    ensures forall i :: 0 <= i < |s| ==> r[i] == LowerChar(s[i])
  {
    seq(|s|, i requires 0 <= i < |s| => LowerChar(s[i]))
  }

  lemma LowerIdempotent(s: string)
    ensures Lower(Lower(s)) == Lower(s)
  {
  }

  /** `s.includes(t)`: `t` occurs in `s` at some position. */
  predicate Contains(s: string, t: string) {
    t <= s || (s != [] && Contains(s[1..], t))
  }

  predicate IsDigit(c: char) {
    '0' <= c <= '9'
  }

  /** A character that may start a match of `[a-zA-Z_][a-zA-Z0-9_]*`. */
  predicate IsIdentStart(c: char) {
    ('a' <= c <= 'z') || ('A' <= c <= 'Z') || c == '_'
  }

  /** A character that may continue a match of `[a-zA-Z_][a-zA-Z0-9_]*`. */
  predicate IsIdentPart(c: char) {
    IsIdentStart(c) || IsDigit(c)
  }

  /** `s` is matched in full by `[a-zA-Z_][a-zA-Z0-9_]*`. */
  predicate IsIdentifier(s: string) {
    s != [] && IsIdentStart(s[0]) && forall k :: 0 < k < |s| ==> IsIdentPart(s[k])
  }

  /** An index clamped into `[0, n]`, as `substring` treats its arguments. */
  function Clamp(i: int, n: nat): (r: nat)
    ensures r <= n
    ensures 0 <= i <= n ==> r == i
  {
    if i < 0 then 0 else if i > n then n else i
  }

  /** `s.substring(start, end)`: both ends clamped, and swapped when `start > end`. */
  function Substring(s: string, start: int, end: int): string {
    var a := Clamp(start, |s|);
    var b := Clamp(end, |s|);
    if a <= b then s[a..b] else s[b..a]
  }

  /** `s.substring(start)`. */
  function SubstringFrom(s: string, start: int): string {
    s[Clamp(start, |s|)..]
  }

  /** `parts.join(sep)`. */
  function Join(parts: seq<string>, sep: string): string {
    if parts == [] then ""
    else if |parts| == 1 then parts[0]
    else parts[0] + sep + Join(parts[1..], sep)
  }

  /** `s` occurs in `t` at position `i`. */
  predicate OccursAt(s: string, t: string, i: nat) {
    i + |t| <= |s| && s[i..i + |t|] == t
  }

  /** The first position at which `includes` finds `t`. */
  function OccurrenceOf(s: string, t: string): (i: nat)
    requires Contains(s, t)
    ensures OccursAt(s, t, i)
  {
    if t <= s then
      assert s[0..|t|] == t;
      0
    else
      var i := OccurrenceOf(s[1..], t);
      assert s[1..][i..i + |t|] == s[i + 1..i + 1 + |t|];
      i + 1
  }

  lemma {:induction false} OccursContains(s: string, t: string, i: nat)
    requires OccursAt(s, t, i)
    ensures Contains(s, t)
  {
    if i == 0 {
      assert s[..|t|] == t;
    } else {
      assert s[1..][i - 1..i - 1 + |t|] == s[i..i + |t|];
      OccursContains(s[1..], t, i - 1);
    }
  }

  /** `includes` finds `t` exactly when `t` occurs somewhere in `s`. */
  lemma ContainsIffOccurs(s: string, t: string)
    ensures Contains(s, t) <==> exists i: nat :: OccursAt(s, t, i)
  {
    if Contains(s, t) {
      var i := OccurrenceOf(s, t);
    }
    forall i: nat | OccursAt(s, t, i)
      ensures Contains(s, t)
    {
      OccursContains(s, t, i);
    }
  }

  /** `r` is `xs` with some elements left out and the rest in their order. */
  predicate Subsequence<T(==)>(r: seq<T>, xs: seq<T>)
    decreases |xs|
  {
    if r == [] then true
    else if xs == [] then false
    else (r[0] == xs[0] && Subsequence(r[1..], xs[1..])) || Subsequence(r, xs[1..])
  }

  /** No element of `xs` occurs twice. */
  predicate NoRepeats<T(==)>(xs: seq<T>) {
    forall i, j :: 0 <= i < j < |xs| ==> xs[i] != xs[j]
  }

  lemma {:induction false} NoRepeatsCountsOnce<T>(xs: seq<T>)
    requires NoRepeats(xs)
    ensures forall x :: multiset(xs)[x] <= 1
  {
    if xs != [] {
      var t := xs[1..];
      assert NoRepeats(t) by {
        forall i, j | 0 <= i < j < |t|
          ensures t[i] != t[j]
        {
          assert t[i] == xs[i + 1] && t[j] == xs[j + 1];
        }
      }
      NoRepeatsCountsOnce(t);
      assert xs[0] !in t by {
        forall k | 0 <= k < |t|
          ensures t[k] != xs[0]
        {
          assert t[k] == xs[k + 1];
        }
      }
      assert xs == [xs[0]] + t;
      assert multiset(xs) == multiset([xs[0]]) + multiset(t);
    }
  }

  lemma RepeatCountsTwice<T>(xs: seq<T>, i: nat, j: nat)
    requires i < j < |xs|
    ensures xs[i] == xs[j] ==> multiset(xs)[xs[i]] >= 2
  {
    var x := xs[i];
    assert xs == xs[..j] + [xs[j]] + xs[j + 1..];
    assert xs[..j][i] == x;
    assert multiset(xs) == multiset(xs[..j]) + multiset([xs[j]]) + multiset(xs[j + 1..]);
    assert x in multiset(xs[..j]);
  }

  /** A sequence in which every element occurs at most once has no repeats. */
  lemma CountsOnceNoRepeats<T>(xs: seq<T>)
    requires forall x :: multiset(xs)[x] <= 1
    ensures NoRepeats(xs)
  {
    forall i, j | 0 <= i < j < |xs|
      ensures xs[i] != xs[j]
    {
      RepeatCountsTwice(xs, i, j);
    }
  }

  /** The index of the first element of `xs` that passes `f`, or `|xs|` when none does. */
  function IndexWhere<T>(xs: seq<T>, f: T -> bool): (i: nat)
    ensures i <= |xs|
  {
    if xs == [] then 0
    else if f(xs[0]) then 0
    else 1 + IndexWhere(xs[1..], f)
  }

  /** The element found passes the test, and no earlier one does. */
  lemma {:induction false} IndexWhereIsFirst<T>(xs: seq<T>, f: T -> bool)
    ensures IndexWhere(xs, f) < |xs| ==> f(xs[IndexWhere(xs, f)])
    ensures forall j :: 0 <= j < IndexWhere(xs, f) ==> !f(xs[j])
  {
    if xs != [] && !f(xs[0]) {
      IndexWhereIsFirst(xs[1..], f);
      forall j | 0 <= j < IndexWhere(xs, f)
        ensures !f(xs[j])
      {
        if j > 0 {
          assert xs[j] == xs[1..][j - 1];
        }
      }
    }
  }

  /** A `for` loop with `break` at the first element that passes `f`. */
  method FindFirst<T>(xs: seq<T>, f: T -> bool) returns (i: nat)
    ensures i == IndexWhere(xs, f)
  {
    i := 0;
    while i < |xs|
      invariant i <= |xs|
      invariant forall j :: 0 <= j < i ==> !f(xs[j])
    {
      if f(xs[i]) {
        break;
      }
      i := i + 1;
    }
    IndexWhereIsFirst(xs, f);
  }

  /** `xs.map(f)`, for an `f` that is defined on every element. */
  function Map<A, B>(xs: seq<A>, f: A --> B): (r: seq<B>)
    requires forall i :: 0 <= i < |xs| ==> f.requires(xs[i])
    ensures |r| == |xs|
    ensures forall i :: 0 <= i < |xs| ==> r[i] == f(xs[i])
  {
    if xs == [] then [] else [f(xs[0])] + Map(xs[1..], f)
  }

  /** The elements of `xs` that satisfy `f`, in order. */
  function Filter<T>(xs: seq<T>, f: T -> bool): (r: seq<T>)
    ensures |r| <= |xs|
  {
    if xs == [] then [] else (if f(xs[0]) then [xs[0]] else []) + Filter(xs[1..], f)
  }

  /**
   * `Filter` keeps exactly the elements that satisfy `f`, in their order and
   * as often as they occur.
   */
  lemma {:induction false} FilterIsOrderedFilter<T>(xs: seq<T>, f: T -> bool)
    ensures Subsequence(Filter(xs, f), xs)
    ensures forall x :: x in Filter(xs, f) <==> x in xs && f(x)
    ensures forall x :: multiset(Filter(xs, f))[x] == if f(x) then multiset(xs)[x] else 0
  {
    if xs != [] {
      FilterIsOrderedFilter(xs[1..], f);
      var rest := Filter(xs[1..], f);
      assert xs == [xs[0]] + xs[1..];
      assert multiset(xs) == multiset([xs[0]]) + multiset(xs[1..]);
      if f(xs[0]) {
        assert Filter(xs, f) == [xs[0]] + rest;
        assert Filter(xs, f)[1..] == rest;
        assert multiset(Filter(xs, f)) == multiset([xs[0]]) + multiset(rest);
      } else {
        assert Filter(xs, f) == rest;
      }
    }
  }

  /** Filtering a sequence without repeats gives one without repeats. */
  lemma FilterKeepsNoRepeats<T>(xs: seq<T>, f: T -> bool)
    requires NoRepeats(xs)
    ensures NoRepeats(Filter(xs, f))
  {
    FilterIsOrderedFilter(xs, f);
    NoRepeatsCountsOnce(xs);
    CountsOnceNoRepeats(Filter(xs, f));
  }

  /** The test that both `f` and `g` pass. */
  function Both<T>(f: T -> bool, g: T -> bool): T -> bool {
    x => f(x) && g(x)
  }

  /** Filtering twice is filtering once by both tests. */
  lemma {:induction false} FilterOfFilter<T>(xs: seq<T>, f: T -> bool, g: T -> bool)
    ensures Filter(Filter(xs, f), g) == Filter(xs, Both(f, g))
  {
    if xs != [] {
      FilterOfFilter(xs[1..], f, g);
      var rest := Filter(xs[1..], f);
      if f(xs[0]) {
        assert Filter(xs, f) == [xs[0]] + rest;
        assert ([xs[0]] + rest)[0] == xs[0] && ([xs[0]] + rest)[1..] == rest;
      } else {
        assert Filter(xs, f) == rest;
      }
    }
  }

  /** Tests that agree everywhere filter alike. */
  lemma {:induction false} FilterSameTest<T>(xs: seq<T>, f: T -> bool, g: T -> bool)
    requires forall x :: f(x) == g(x)
    ensures Filter(xs, f) == Filter(xs, g)
  {
    if xs != [] {
      FilterSameTest(xs[1..], f, g);
    }
  }
}
