/**
 * The formula editor: a text box with autocompletion of parameter names and
 * a live evaluation of what has been typed. The word under the cursor is the
 * longest identifier that ends there; suggestions are the parameter names
 * that start with it, ignoring case; choosing one replaces the word. Every
 * change is evaluated: unknown names are reported before anything runs, and
 * otherwise the text runs against a context of the numeric defaults.
 */
module FormulaEditor {
  import opened Text
  import opened Js
  import opened Wrappers
  import opened Schema

  // ---------------------------------------------------------------------
  // The word being typed
  // ---------------------------------------------------------------------

  /** The number of characters at the end of `s` that may continue an identifier. */
  function TrailingIdentRun(s: string): (n: nat)
    ensures n <= |s|
  {
    if s != [] && IsIdentPart(s[|s| - 1]) then 1 + TrailingIdentRun(s[..|s| - 1]) else 0
  }

  lemma {:induction false} TrailingIdentRunSpec(s: string)
    ensures forall i :: |s| - TrailingIdentRun(s) <= i < |s| ==> IsIdentPart(s[i])
    ensures TrailingIdentRun(s) < |s| ==> !IsIdentPart(s[|s| - TrailingIdentRun(s) - 1])
  {
    if s != [] && IsIdentPart(s[|s| - 1]) {
      var s' := s[..|s| - 1];
      TrailingIdentRunSpec(s');
      forall i | |s| - TrailingIdentRun(s) <= i < |s|
        ensures IsIdentPart(s[i])
      {
        if i < |s| - 1 {
          assert s[i] == s'[i];
        }
      }
      if TrailingIdentRun(s) < |s| {
        assert s[|s| - TrailingIdentRun(s) - 1] == s'[|s'| - TrailingIdentRun(s') - 1];
      }
    }
  }

  /** The number of digits at the start of `t`. */
  function LeadingDigits(t: string): (n: nat)
    ensures n <= |t|
  {
    if t != [] && IsDigit(t[0]) then 1 + LeadingDigits(t[1..]) else 0
  }

  lemma {:induction false} LeadingDigitsSpec(t: string)
    ensures forall i :: 0 <= i < LeadingDigits(t) ==> IsDigit(t[i])
    ensures LeadingDigits(t) < |t| ==> !IsDigit(t[LeadingDigits(t)])
  {
    if t != [] && IsDigit(t[0]) {
      LeadingDigitsSpec(t[1..]);
      forall i | 0 <= i < LeadingDigits(t)
        ensures IsDigit(t[i])
      {
        if i > 0 {
          assert t[i] == t[1..][i - 1];
        }
      }
    }
  }

  /** What `/[a-zA-Z_][a-zA-Z0-9_]*$/` matches in `s`, or the empty string. */
  function WordBefore(s: string): string {
    var run := s[|s| - TrailingIdentRun(s)..];
    run[LeadingDigits(run)..]
  }

  /** `getCurrentWord(text, position)`: the word ending at the cursor. */
  function CurrentWord(text: string, position: int): string {
    WordBefore(Substring(text, 0, position))
  }

  /** `s` has an identifier starting at position `i` and running to its end. */
  predicate IdentifierFrom(s: string, i: nat)
    requires i <= |s|
  {
    IsIdentifier(s[i..])
  }

  /** The word is a suffix of `s`, and an identifier unless it is empty. */
  lemma {:induction false} WordBeforeIsIdentifierSuffix(s: string)
    ensures var w := WordBefore(s);
            && |w| <= |s| && s[|s| - |w|..] == w
            && (w == [] || IsIdentifier(w))
  {
    WordBeforeIsSuffix(s);
    WordBeforeIsIdentifier(s);
  }

  lemma {:induction false} WordBeforeIsSuffix(s: string)
    ensures |WordBefore(s)| <= |s| && s[|s| - |WordBefore(s)|..] == WordBefore(s)
  {
    var run := s[|s| - TrailingIdentRun(s)..];
    SuffixOfSuffix(s, TrailingIdentRun(s), LeadingDigits(run));
  }

  lemma {:induction false} WordBeforeIsIdentifier(s: string)
    ensures WordBefore(s) == [] || IsIdentifier(WordBefore(s))
  {
    var run := s[|s| - TrailingIdentRun(s)..];
    TrailingRunIsIdentParts(s, run);
    RunWithoutDigitsIsIdentifier(run);
  }

  lemma {:induction false} TrailingRunIsIdentParts(s: string, run: string)
    requires run == s[|s| - TrailingIdentRun(s)..]
    ensures forall i :: 0 <= i < |run| ==> IsIdentPart(run[i])
  {
    var n := TrailingIdentRun(s);
    TrailingIdentRunSpec(s);
    forall i | 0 <= i < |run|
      ensures IsIdentPart(run[i])
    {
      assert run[i] == s[|s| - n + i];
    }
  }

  /** A run of identifier characters, once its leading digits are dropped, is an identifier or empty. */
  lemma {:induction false} RunWithoutDigitsIsIdentifier(run: string)
    requires forall i :: 0 <= i < |run| ==> IsIdentPart(run[i])
    ensures var w := run[LeadingDigits(run)..]; w == [] || IsIdentifier(w)
  {
    var k := LeadingDigits(run);
    var w := run[k..];
    LeadingDigitsSpec(run);
    if w != [] {
      assert w[0] == run[k];
      forall j | 0 < j < |w|
        ensures IsIdentPart(w[j])
      {
        assert w[j] == run[k + j];
      }
    }
  }

  /** No identifier of `s` starts in front of the word and runs to the end. */
  lemma NoIdentifierBeforeWord(s: string, i: nat)
    requires i < |s| - |WordBefore(s)|
    ensures !IdentifierFrom(s, i)
  {
    var n := TrailingIdentRun(s);
    var run := s[|s| - n..];
    TrailingIdentRunSpec(s);
    LeadingDigitsSpec(run);
    if i < |s| - n {
      var m := |s| - n - 1 - i;
      assert s[i..][m] == s[|s| - n - 1];
      if m == 0 {
        assert !IsIdentStart(s[i..][0]);
      } else {
        assert !IsIdentPart(s[i..][m]);
      }
    } else {
      assert s[i..][0] == run[i - (|s| - n)];
      assert IsDigit(s[i..][0]);
    }
  }

  /**
   * The word is the longest suffix of `s` that is an identifier: it is a
   * suffix, it is an identifier or empty, and no longer suffix is one.
   */
  lemma WordBeforeIsLongestIdentifierSuffix(s: string)
    ensures var w := WordBefore(s);
            && |w| <= |s| && s[|s| - |w|..] == w
            && (w == [] || IsIdentifier(w))
            && (forall i :: 0 <= i < |s| - |w| ==> !IdentifierFrom(s, i))
  {
    WordBeforeIsIdentifierSuffix(s);
    forall i | 0 <= i < |s| - |WordBefore(s)|
      ensures !IdentifierFrom(s, i)
    {
      NoIdentifierBeforeWord(s, i);
    }
  }

  /** The three properties of `WordBeforeIsLongestIdentifierSuffix` pin the word down. */
  lemma WordBeforeUnique(s: string, u: string)
    requires |u| <= |s| && s[|s| - |u|..] == u
    requires u == [] || IsIdentifier(u)
    requires forall i :: 0 <= i < |s| - |u| ==> !IdentifierFrom(s, i)
    ensures WordBefore(s) == u
  {
    var w := WordBefore(s);
    WordBeforeIsLongestIdentifierSuffix(s);
    assert u != [] ==> IdentifierFrom(s, |s| - |u|);
    assert w != [] ==> IdentifierFrom(s, |s| - |w|);
    assert |w| == |u|;
  }

  /** An identifier followed by another (or by nothing) is an identifier. */
  lemma IdentifierConcat(a: string, b: string)
    requires IsIdentifier(a) && (b == [] || IsIdentifier(b))
    ensures IsIdentifier(a + b)
  {
    forall k | 0 < k < |a + b|
      ensures IsIdentPart((a + b)[k])
    {
      if k >= |a| {
        assert (a + b)[k] == b[k - |a|];
      }
    }
  }

  /** A non-empty front part of an identifier is an identifier. */
  lemma IdentifierPrefix(a: string, b: string)
    requires a != [] && IsIdentifier(a + b)
    ensures IsIdentifier(a)
  {
    forall k | 0 < k < |a|
      ensures IsIdentPart(a[k])
    {
      assert a[k] == (a + b)[k];
    }
    assert a[0] == (a + b)[0];
  }

  /** An identifier running to the end of `a` still runs to the end once an identifier is appended. */
  lemma IdentifierFromExtends(a: string, w: string, i: nat)
    requires i < |a| && (w == [] || IsIdentifier(w))
    ensures IdentifierFrom(a, i) ==> IdentifierFrom(a + w, i)
  {
    if IdentifierFrom(a, i) {
      IdentifierConcat(a[i..], w);
      assert (a + w)[i..] == a[i..] + w;
    }
  }

  /** An identifier that starts inside `a` and runs to the end of `a + w` runs to the end of `a`. */
  lemma IdentifierFromShrinks(a: string, w: string, i: nat)
    requires i < |a|
    ensures IdentifierFrom(a + w, i) ==> IdentifierFrom(a, i)
  {
    if IdentifierFrom(a + w, i) {
      assert (a + w)[i..] == a[i..] + w;
      IdentifierPrefix(a[i..], w);
    }
  }

  /** The text in front of the word has no word of its own: the word would otherwise have reached further back. */
  lemma NoWordBeforeWord(s: string)
    ensures var w := WordBefore(s);
            |w| <= |s| && WordBefore(s[..|s| - |w|]) == []
  {
    var w := WordBefore(s);
    WordBeforeIsLongestIdentifierSuffix(s);
    var before := s[..|s| - |w|];
    assert s == before + w;
    forall i | 0 <= i < |before|
      ensures !IdentifierFrom(before, i)
    {
      IdentifierFromExtends(before, w, i);
    }
    WordBeforeUnique(before, []);
  }

  /** After a text with no word of its own, an identifier is the whole word. */
  lemma WordAfterNoWord(before: string, word: string)
    requires WordBefore(before) == [] && IsIdentifier(word)
    ensures WordBefore(before + word) == word
  {
    var s := before + word;
    WordBeforeIsLongestIdentifierSuffix(before);
    assert s[|s| - |word|..] == word;
    forall i | 0 <= i < |s| - |word|
      ensures !IdentifierFrom(s, i)
    {
      IdentifierFromShrinks(before, word, i);
    }
    WordBeforeUnique(s, word);
  }

  // ---------------------------------------------------------------------
  // Suggestions and the splice
  // ---------------------------------------------------------------------

  /** `v.toLowerCase().startsWith(word.toLowerCase())`. */
  predicate MatchesWord(v: string, word: string) {
    Lower(word) <= Lower(v)
  }

  /** The names, in order, that the word matches: the list the dropdown shows. */
  function Suggest(keys: seq<string>, word: string): (r: seq<string>)
    ensures |r| <= |keys|
  {
    if keys == [] then []
    else (if MatchesWord(keys[0], word) then [keys[0]] else []) + Suggest(keys[1..], word)
  }

  /** The suggestions are exactly the matching names, in the order the names are listed. */
  lemma {:induction false} SuggestIsOrderedFilter(keys: seq<string>, word: string)
    ensures forall v :: v in Suggest(keys, word) <==> v in keys && MatchesWord(v, word)
    ensures Subsequence(Suggest(keys, word), keys)
  {
    if keys != [] {
      SuggestIsOrderedFilter(keys[1..], word);
      var rest := Suggest(keys[1..], word);
      assert keys == [keys[0]] + keys[1..];
      if MatchesWord(keys[0], word) {
        assert Suggest(keys, word) == [keys[0]] + rest;
        assert Suggest(keys, word)[1..] == rest;
      } else {
        assert Suggest(keys, word) == rest;
        if rest != [] {
          assert Subsequence(rest, keys);
        }
      }
    }
  }

  /** Matching ignores ASCII case on both sides. */
  lemma MatchingIgnoresCase(v: string, word: string)
    ensures MatchesWord(v, word) <==> MatchesWord(Lower(v), Lower(word))
  {
    LowerIdempotent(v);
    LowerIdempotent(word);
  }

  /** `selectSuggestion`'s new text and new caret position. */
  function Splice(text: string, cursor: int, suggestion: string): (string, nat) {
    var word := CurrentWord(text, cursor);
    var before := Substring(text, 0, cursor - |word|);
    var after := SubstringFrom(text, cursor);
    (before + suggestion + after, |before| + |suggestion|)
  }

  /**
   * For a cursor inside the text, the splice keeps what precedes the word and
   * what follows the cursor, puts the suggestion in place of the word, and
   * leaves the caret just after it, where the suggestion is the new word.
   */
  lemma SpliceReplacesWord(text: string, cursor: nat, suggestion: string)
    requires cursor <= |text|
    ensures var w := CurrentWord(text, cursor);
            var r := Splice(text, cursor, suggestion);
            && |w| <= cursor
            && text == text[..cursor - |w|] + w + text[cursor..]
            && r.0 == text[..cursor - |w|] + suggestion + text[cursor..]
            && r.1 == cursor - |w| + |suggestion|
            && (IsIdentifier(suggestion) ==> CurrentWord(r.0, r.1) == suggestion)
  {
    var s := text[..cursor];
    assert Substring(text, 0, cursor) == s;
    var w := WordBefore(s);
    WordBeforeIsLongestIdentifierSuffix(s);
    var before := text[..cursor - |w|];
    assert Substring(text, 0, cursor - |w|) == before;
    assert s == before + w;
    assert text == s + text[cursor..];
    var r := Splice(text, cursor, suggestion);
    if IsIdentifier(suggestion) {
      assert Substring(r.0, 0, r.1) == before + suggestion;
      NoWordBeforeWord(s);
      assert s[..|s| - |w|] == before;
      WordAfterNoWord(before, suggestion);
    }
  }

  // ---------------------------------------------------------------------
  // Evaluation
  // ---------------------------------------------------------------------

  const NoParametersMessage: string := "파라미터가 정의되지 않았습니다."
  const UnknownPrefix: string := "미등록 변수: "
  const NotNumberMessage: string := "수식 결과가 유효한 숫자가 아닙니다."
  const SyntaxErrorPrefix: string := "구문 오류: "

  /** The number of characters at the start of `s` that may continue an identifier. */
  function IdentRun(s: string): (n: nat)
    ensures n <= |s|
    ensures s != [] && IsIdentPart(s[0]) ==> n >= 1
  {
    if s != [] && IsIdentPart(s[0]) then 1 + IdentRun(s[1..]) else 0
  }

  lemma {:induction false} IdentRunSpec(s: string)
    ensures forall i :: 0 <= i < IdentRun(s) ==> IsIdentPart(s[i])
    ensures IdentRun(s) < |s| ==> !IsIdentPart(s[IdentRun(s)])
  {
    if s != [] && IsIdentPart(s[0]) {
      IdentRunSpec(s[1..]);
      forall i | 0 <= i < IdentRun(s)
        ensures IsIdentPart(s[i])
      {
        if i > 0 {
          assert s[i] == s[1..][i - 1];
        }
      }
    }
  }

  /** `text.match(/[a-zA-Z_][a-zA-Z0-9_]*\/g) || []`: every identifier-shaped token, left to right. */
  function Tokens(s: string): seq<string>
    decreases |s|
  {
    if s == [] then []
    else if IsIdentStart(s[0]) then
      var n := IdentRun(s);
      [s[..n]] + Tokens(s[n..])
    else Tokens(s[1..])
  }

  /**
   * Every token is an identifier, and an identifier on its own is one token.
   * That each token runs as far as it can is `TokensSplit` and
   * `WholeIdentifierIsAToken` below.
   */
  lemma {:induction false} TokensAreMaximalIdentifiers(s: string)
    ensures forall t :: t in Tokens(s) ==> IsIdentifier(t)
    ensures IsIdentifier(s) ==> Tokens(s) == [s]
  {
    if s != [] {
      if IsIdentStart(s[0]) {
        var n := IdentRun(s);
        IdentRunSpec(s);
        TokensAreMaximalIdentifiers(s[n..]);
        assert IsIdentifier(s[..n]) by {
          forall k | 0 < k < n
            ensures IsIdentPart(s[..n][k])
          {
            assert s[..n][k] == s[k];
          }
        }
        if IsIdentifier(s) {
          assert n == |s|;
          assert s[..n] == s;
          assert Tokens(s[n..]) == [];
        }
      } else {
        TokensAreMaximalIdentifiers(s[1..]);
      }
    }
  }

  /** A run of identifier characters stops at the first character that cannot continue it. */
  lemma {:induction false} IdentRunStops(a: string, c: char, b: string)
    requires !IsIdentPart(c)
    ensures IdentRun(a + [c] + b) == IdentRun(a)
    decreases |a|
  {
    var s := a + [c] + b;
    if a == [] {
      assert s[0] == c;
    } else {
      assert s[0] == a[0];
      if IsIdentPart(a[0]) {
        assert s[1..] == a[1..] + [c] + b;
        IdentRunStops(a[1..], c, b);
      }
    }
  }

  /**
   * A character that cannot be part of an identifier splits the tokens: no
   * token runs across it, and the tokens on either side are found unchanged.
   */
  lemma {:induction false} TokensSplit(a: string, c: char, b: string)
    requires !IsIdentPart(c)
    ensures Tokens(a + [c] + b) == Tokens(a) + Tokens(b)
    decreases |a|
  {
    var s := a + [c] + b;
    if a == [] {
      assert s[0] == c && s[1..] == b;
    } else {
      assert s[0] == a[0];
      if IsIdentStart(a[0]) {
        var n := IdentRun(a);
        IdentRunStops(a, c, b);
        assert s[..n] == a[..n];
        assert s[n..] == a[n..] + [c] + b;
        TokensSplit(a[n..], c, b);
      } else {
        assert s[1..] == a[1..] + [c] + b;
        TokensSplit(a[1..], c, b);
      }
    }
  }

  /** An identifier followed by a separator is found whole, as one token. */
  lemma WholeIdentifierIsAToken(t: string, c: char, b: string)
    requires IsIdentifier(t) && !IsIdentPart(c)
    ensures Tokens(t + [c] + b) == [t] + Tokens(b)
  {
    TokensSplit(t, c, b);
    TokensAreMaximalIdentifiers(t);
  }

  /** There are no tokens exactly when no character could start an identifier. */
  lemma {:induction false} NoTokensIffNoIdentStart(s: string)
    ensures Tokens(s) == [] <==> forall k :: 0 <= k < |s| ==> !IsIdentStart(s[k])
    decreases |s|
  {
    if s != [] && !IsIdentStart(s[0]) {
      NoTokensIffNoIdentStart(s[1..]);
      if forall k :: 0 <= k < |s[1..]| ==> !IsIdentStart(s[1..][k]) {
        forall k | 0 <= k < |s|
          ensures !IsIdentStart(s[k])
        {
          if k > 0 {
            assert s[k] == s[1..][k - 1];
          }
        }
      } else {
        var k :| 0 <= k < |s[1..]| && IsIdentStart(s[1..][k]);
        assert s[k + 1] == s[1..][k];
      }
    }
  }

  /** Leading digits start no token and join none: the tokens are those of what follows them. */
  lemma {:induction false} DigitsAreSkipped(d: string, s: string)
    requires AllDigits(d)
    ensures Tokens(d + s) == Tokens(s)
    decreases |d|
  {
    if d != [] {
      assert IsDigit(d[0]);
      assert (d + s)[0] == d[0] && !IsIdentStart(d[0]);
      assert (d + s)[1..] == d[1..] + s;
      assert AllDigits(d[1..]) by {
        forall k | 0 <= k < |d[1..]|
          ensures IsDigit(d[1..][k])
        {
          assert d[1..][k] == d[k + 1];
        }
      }
      DigitsAreSkipped(d[1..], s);
    } else {
      assert d + s == s;
    }
  }

  /** A run that starts with digits, such as `2x` or `1e5`, yields the identifier after the digits. */
  lemma DigitsThenIdentifier(d: string, t: string)
    requires AllDigits(d) && IsIdentifier(t)
    ensures Tokens(d + t) == [t]
  {
    DigitsAreSkipped(d, t);
    TokensAreMaximalIdentifiers(t);
  }

  /** A number in exponent notation yields a token for its exponent part: `1e5` gives `e5`. */
  lemma ExponentIsAToken()
    ensures Tokens("1e5") == ["e5"]
  {
    assert !IsIdentStart('1');
    assert "1e5"[1..] == "e5";
    assert IdentRun("e5") == 2 by {
      assert "e5"[1..] == "5";
      assert "5"[1..] == "";
    }
    assert "e5"[..2] == "e5" && "e5"[2..] == "";
  }

  /** `variablesInFormula.filter(v => !availableVariables.includes(v))`: the unknown tokens, in order, repeats kept. */
  function Unknown(tokens: seq<string>, keys: seq<string>): (r: seq<string>)
    ensures |r| <= |tokens|
  {
    if tokens == [] then []
    else (if tokens[0] in keys then [] else [tokens[0]]) + Unknown(tokens[1..], keys)
  }

  /** Each unknown name is reported as many times as it occurs; known names never. */
  lemma {:induction false} UnknownCounts(tokens: seq<string>, keys: seq<string>)
    ensures forall x :: multiset(Unknown(tokens, keys))[x] == if x in keys then 0 else multiset(tokens)[x]
  {
    if tokens != [] {
      UnknownCounts(tokens[1..], keys);
      assert tokens == [tokens[0]] + tokens[1..];
      assert multiset(tokens) == multiset([tokens[0]]) + multiset(tokens[1..]);
    }
  }

  /** A name is reported exactly when it is a token and not a parameter. */
  lemma {:induction false} UnknownMembers(tokens: seq<string>, keys: seq<string>)
    ensures forall x :: x in Unknown(tokens, keys) <==> x in tokens && x !in keys
  {
    if tokens != [] {
      UnknownMembers(tokens[1..], keys);
      assert tokens == [tokens[0]] + tokens[1..];
    }
  }

  /** The index of the first occurrence of `x`: `xs.indexOf(x)`. */
  function FirstIndex(xs: seq<string>, x: string): (i: nat)
    requires x in xs
    ensures i < |xs| && xs[i] == x
  {
    if xs[0] == x then 0 else 1 + FirstIndex(xs[1..], x)
  }

  /** `indexOf` finds the first occurrence: nothing before it equals `x`. */
  lemma {:induction false} FirstIndexIsFirst(xs: seq<string>, x: string)
    requires x in xs
    ensures forall j :: 0 <= j < FirstIndex(xs, x) ==> xs[j] != x
  {
    if xs[0] != x {
      FirstIndexIsFirst(xs[1..], x);
      forall j | 0 <= j < FirstIndex(xs, x)
        ensures xs[j] != x
      {
        if j > 0 {
          assert xs[j] == xs[1..][j - 1];
        }
      }
    }
  }

  /** The elements `xs[i..]` keeps under `filter((v, i, arr) => arr.indexOf(v) === i)`. */
  function FirstOccurrencesFrom(xs: seq<string>, i: nat): seq<string>
    requires i <= |xs|
    decreases |xs| - i
  {
    if i == |xs| then []
    else (if FirstIndex(xs, xs[i]) == i then [xs[i]] else []) + FirstOccurrencesFrom(xs, i + 1)
  }

  /** `usedVariables`: each token once, at its first occurrence. */
  function FirstOccurrences(xs: seq<string>): seq<string> {
    FirstOccurrencesFrom(xs, 0)
  }

  lemma {:induction false} FirstOccurrencesFromMembers(xs: seq<string>, i: nat)
    requires i <= |xs|
    ensures forall x :: x in FirstOccurrencesFrom(xs, i) <==> x in xs && FirstIndex(xs, x) >= i
    decreases |xs| - i
  {
    if i < |xs| {
      FirstOccurrencesFromMembers(xs, i + 1);
      forall x | x in xs && FirstIndex(xs, x) >= i
        ensures x in FirstOccurrencesFrom(xs, i)
      {
        if FirstIndex(xs, x) == i {
          assert x == xs[i];
        }
      }
    }
  }

  /** Every element kept from `xs[i..]` first occurs at or after `i`. */
  predicate FirstFrom(xs: seq<string>, r: seq<string>, i: nat) {
    forall a :: 0 <= a < |r| ==> r[a] in xs && FirstIndex(xs, r[a]) >= i
  }

  /** The elements of `r` come in the order of their first occurrences in `xs`. */
  predicate InFirstOrder(xs: seq<string>, r: seq<string>)
    requires FirstFrom(xs, r, 0)
  {
    forall a, b :: 0 <= a < b < |r| ==> FirstIndex(xs, r[a]) < FirstIndex(xs, r[b])
  }

  lemma {:induction false} FirstOccurrencesFromOrdered(xs: seq<string>, i: nat)
    requires i <= |xs|
    ensures FirstFrom(xs, FirstOccurrencesFrom(xs, i), i)
    ensures InFirstOrder(xs, FirstOccurrencesFrom(xs, i))
    decreases |xs| - i
  {
    if i < |xs| {
      FirstOccurrencesFromOrdered(xs, i + 1);
      var rest := FirstOccurrencesFrom(xs, i + 1);
      var r := FirstOccurrencesFrom(xs, i);
      if FirstIndex(xs, xs[i]) == i {
        assert r == [xs[i]] + rest;
        FirstInFront(xs, xs[i], rest, i);
      } else {
        assert r == rest;
        FirstFromWeaken(xs, rest, i);
      }
    } else {
      assert FirstOccurrencesFrom(xs, i) == [];
    }
  }

  lemma FirstFromWeaken(xs: seq<string>, r: seq<string>, i: nat)
    requires FirstFrom(xs, r, i + 1)
    ensures FirstFrom(xs, r, i)
  {
  }

  lemma FirstInFront(xs: seq<string>, x: string, rest: seq<string>, i: nat)
    requires x in xs && FirstIndex(xs, x) == i
    requires FirstFrom(xs, rest, i + 1) && InFirstOrder(xs, rest)
    ensures FirstFrom(xs, [x] + rest, i) && InFirstOrder(xs, [x] + rest)
  {
    var r := [x] + rest;
    forall a | 0 <= a < |r|
      ensures r[a] in xs && FirstIndex(xs, r[a]) >= i
    {
      if a > 0 {
        assert r[a] == rest[a - 1];
      }
    }
    forall a, b | 0 <= a < b < |r|
      ensures FirstIndex(xs, r[a]) < FirstIndex(xs, r[b])
    {
      assert r[b] == rest[b - 1];
      if a > 0 {
        assert r[a] == rest[a - 1];
      }
    }
  }

  /**
   * The used variables hold every token exactly once, ordered by where each
   * first occurs.
   */
  lemma FirstOccurrencesSpec(xs: seq<string>)
    ensures var r := FirstOccurrences(xs);
            && (forall x :: x in r <==> x in xs)
            && (forall a, b :: 0 <= a < b < |r| ==> r[a] != r[b])
            && (forall a, b :: 0 <= a < b < |r| ==> FirstIndex(xs, r[a]) < FirstIndex(xs, r[b]))
  {
    FirstOccurrencesFromMembers(xs, 0);
    FirstOccurrencesFromOrdered(xs, 0);
    var r := FirstOccurrences(xs);
    forall a, b | 0 <= a < b < |r|
      ensures r[a] != r[b]
    {
      assert FirstIndex(xs, r[a]) < FirstIndex(xs, r[b]);
    }
  }

  /** What the context gives a parameter: its default when that is a number, 0 otherwise. */
  function NumberOrZero(v: JsValue): JsValue {
    if v.Num? then v else Int(0)
  }

  /** The context `evaluateFormula` builds. */
  function EditorContext(s: Schema): (r: Context)
    ensures forall k :: k in r <==> k in s.defs
  {
    map k | k in s.defs :: NumberOrZero(s.defs[k].Default)
  }

  /** Every parameter is in the context as a number: its numeric default, else 0, formula strings included. */
  lemma EditorContextEntries(s: Schema, k: string)
    requires k in s.defs
    ensures EditorContext(s)[k].Num?
    ensures s.defs[k].Default.Num? ==> EditorContext(s)[k] == s.defs[k].Default
    ensures !s.defs[k].Default.Num? ==> EditorContext(s)[k] == Int(0)
  {
  }

  /**
   * The `forEach` that builds the context, one parameter at a time; reading
   * `param.Default` of a `null` definition throws (`thrown`).
   */
  method BuildContext(s: Schema) returns (context: Context, thrown: bool)
    requires s.Listed() && s.Covered() && s.NullsDefined()
    ensures thrown <==> s.nulls != {}
    ensures !thrown ==> context == EditorContext(s)
  {
    context := map[];
    var i := 0;
    while i < |s.order|
      invariant 0 <= i <= |s.order|
      invariant forall k :: k in s.order[..i] ==> k !in s.nulls
      invariant forall k :: k in context <==> k in s.order[..i]
      invariant forall k :: k in context ==> context[k] == NumberOrZero(s.defs[k].Default)
    {
      var key := s.order[i];
      if key in s.nulls {
        return context, true;
      }
      var value := s.defs[key].Default;
      context := context[key := if value.Num? then value else Int(0)];
      assert s.order[..i + 1] == s.order[..i] + [key];
      i := i + 1;
    }
    assert s.order[..i] == s.order;
    thrown := false;
  }

  /** The names the editor offers: `parameters ? Object.keys(parameters) : []`. */
  function Available(parameters: Option<Schema>): seq<string> {
    if parameters.Some? then parameters.value.order else []
  }

  /** `evaluationResult`: the value, the names it used, and the context it ran in. */
  datatype Evaluation = Evaluation(value: JsValue, usedVariables: seq<string>, context: Context)

  /** What `evaluateFormula` leaves in `error` and `evaluationResult`. */
  datatype Status = Status(error: Option<string>, result: Option<Evaluation>)

  /** `evaluateFormula(formulaText)`. */
  function Evaluate(parameters: Option<Schema>, text: string, e: Engine): Status {
    if Trim(text) == [] then Status(None, None)
    else if parameters.None? then Status(Some(NoParametersMessage), None)
    else
      var s := parameters.value;
      var tokens := Tokens(text);
      var unknown := Unknown(tokens, Available(parameters));
      if |unknown| > 0 then Status(Some(UnknownPrefix + Join(unknown, ", ")), None)
      else if s.nulls != {} then Status(Some(SyntaxErrorPrefix + e.nullRead("Default")), None)
      else
        var context := EditorContext(s);
        match e.run(text, context)
        case Returned(v) =>
          if IsValidNumber(v) then Status(None, Some(Evaluation(v, FirstOccurrences(tokens), context)))
          else Status(Some(NotNumberMessage), None)
        case Thrown(m) => Status(Some(SyntaxErrorPrefix + m), None)
  }

  /** A blank formula clears both; anything else leaves exactly one of the error and the result. */
  lemma EvaluateSetsExactlyOne(parameters: Option<Schema>, text: string, e: Engine)
    ensures var r := Evaluate(parameters, text, e);
            && (Trim(text) == [] <==> r.error.None? && r.result.None?)
            && (Trim(text) != [] ==> (r.error.Some? <==> r.result.None?))
  {
  }

  /**
   * With an unknown name in the text, the error lists every unknown token and
   * nothing is run: the outcome does not depend on the evaluator.
   */
  lemma UnknownNamesStopEvaluation(s: Schema, text: string, e1: Engine, e2: Engine)
    requires Trim(text) != []
    requires Unknown(Tokens(text), s.order) != []
    ensures Evaluate(Some(s), text, e1) == Evaluate(Some(s), text, e2)
    ensures Evaluate(Some(s), text, e1).error == Some(UnknownPrefix + Join(Unknown(Tokens(text), s.order), ", "))
  {
  }

  /**
   * A result is a number other than `NaN` that the text returned in the
   * context of numeric defaults; it names only known parameters, each once.
   */
  lemma EvaluationResult(s: Schema, text: string, e: Engine)
    requires Evaluate(Some(s), text, e).result.Some?
    ensures s.nulls == {}
    ensures var r := Evaluate(Some(s), text, e).result.value;
            && IsValidNumber(r.value)
            && e.run(text, EditorContext(s)) == Returned(r.value)
            && r.context == EditorContext(s)
            && r.usedVariables == FirstOccurrences(Tokens(text))
            && (forall v :: v in r.usedVariables ==> v in s.order)
  {
    var tokens := Tokens(text);
    FirstOccurrencesSpec(tokens);
    UnknownMembers(tokens, s.order);
  }

  /**
   * Anything the text returns other than a number, or `NaN`, is one error; a
   * throw is the other, and so is a `null` definition, which throws while the
   * context is built, before the text runs.
   */
  lemma EvaluationErrors(s: Schema, text: string, e: Engine)
    requires Trim(text) != [] && Unknown(Tokens(text), s.order) == []
    ensures var out := e.run(text, EditorContext(s));
            var r := Evaluate(Some(s), text, e);
            && (s.nulls != {} ==> r.error == Some(SyntaxErrorPrefix + e.nullRead("Default")))
            && (s.nulls == {} && out.Returned? && !IsValidNumber(out.value) ==> r.error == Some(NotNumberMessage))
            && (s.nulls == {} && out.Thrown? ==> r.error == Some(SyntaxErrorPrefix + out.message))
  {
  }

  // ---------------------------------------------------------------------
  // Input style
  // ---------------------------------------------------------------------

  datatype Style = Danger | Success | Neutral

  /** `getInputStyle()`: an error outranks a result. */
  function StyleOf(status: Status): Style {
    if status.error.Some? && status.error.value != [] then Danger
    else if status.result.Some? then Success
    else Neutral
  }

  /** After an evaluation the box is red exactly on an error, green exactly on a result, and plain exactly when blank. */
  lemma StyleFollowsEvaluation(parameters: Option<Schema>, text: string, e: Engine)
    ensures var r := Evaluate(parameters, text, e);
            && (StyleOf(r) == Danger <==> r.error.Some?)
            && (StyleOf(r) == Success <==> r.result.Some?)
            && (StyleOf(r) == Neutral <==> Trim(text) == [])
  {
    var r := Evaluate(parameters, text, e);
    if r.error.Some? {
      assert r.error.value != [] by {
        assert |r.error.value| > 0;
      }
    }
  }

  // ---------------------------------------------------------------------
  // Keyboard
  // ---------------------------------------------------------------------

  datatype Key = ArrowDown | ArrowUp | Enter | Escape | OtherKey

  /** The selected index after an arrow key. */
  function MoveSelection(key: Key, index: nat, count: nat): nat {
    match key
    case ArrowDown => if index < count - 1 then index + 1 else index
    case ArrowUp => if index > 0 then index - 1 else 0
    case _ => index
  }

  /** The arrows keep the selection on a suggestion, step by one, and stop at either end. */
  lemma MoveSelectionStaysInList(key: Key, index: nat, count: nat)
    requires index < count
    ensures MoveSelection(key, index, count) < count
    ensures key == ArrowDown ==> MoveSelection(key, index, count) == if index == count - 1 then index else index + 1
    ensures key == ArrowUp ==> MoveSelection(key, index, count) == if index == 0 then 0 else index - 1
  {
  }

  // ---------------------------------------------------------------------
  // The editor
  // ---------------------------------------------------------------------

  class Editor {
    const parameters: Option<Schema>
    var formula: string
    var cursorPosition: int
    var suggestions: seq<string>
    var showSuggestions: bool
    var selectedSuggestionIndex: nat
    var error: Option<string>
    var evaluationResult: Option<Evaluation>

    /** While the list shows, the selection is one of its entries. */
    ghost predicate Valid()
      reads this
    {
      && (parameters.Some? ==> parameters.value.Valid())
      && (showSuggestions ==> selectedSuggestionIndex < |suggestions|)
    }

    constructor(parameters: Option<Schema>)
      requires parameters.Some? ==> parameters.value.Valid()
      ensures Valid()
      ensures this.parameters == parameters
      ensures formula == [] && cursorPosition == 0 && suggestions == [] && !showSuggestions
      ensures selectedSuggestionIndex == 0 && error.None? && evaluationResult.None?
    {
      this.parameters := parameters;
      formula := [];
      cursorPosition := 0;
      suggestions := [];
      showSuggestions := false;
      selectedSuggestionIndex := 0;
      error := None;
      evaluationResult := None;
    }

    /** `getInputStyle()`. */
    function InputStyle(): Style
      reads this
    {
      StyleOf(Status(error, evaluationResult))
    }

    /** `evaluateFormula(formulaText)`: sets the error and the result, and nothing else. */
    method EvaluateFormula(text: string, e: Engine)
      requires Valid()
      modifies this`error, this`evaluationResult
      ensures Valid()
      ensures Status(error, evaluationResult) == Evaluate(parameters, text, e)
    {
      if Trim(text) == [] {
        error, evaluationResult := None, None;
        return;
      }
      if parameters.None? {
        error, evaluationResult := Some(NoParametersMessage), None;
        return;
      }
      var s := parameters.value;
      var tokens := Tokens(text);
      var unknown := Unknown(tokens, s.order);
      if |unknown| > 0 {
        error, evaluationResult := Some(UnknownPrefix + Join(unknown, ", ")), None;
        return;
      }
      var context, thrown := BuildContext(s);
      if thrown {
        error, evaluationResult := Some(SyntaxErrorPrefix + e.nullRead("Default")), None;
        return;
      }
      match e.run(text, context)
      case Returned(v) =>
        if IsValidNumber(v) {
          evaluationResult, error := Some(Evaluation(v, FirstOccurrences(tokens), context)), None;
        } else {
          error, evaluationResult := Some(NotNumberMessage), None;
        }
      case Thrown(m) =>
        error, evaluationResult := Some(SyntaxErrorPrefix + m), None;
    }

    /** `handleFormulaChange`: the new text and cursor, the dropdown, then the evaluation. */
    method HandleFormulaChange(newFormula: string, newCursor: nat, e: Engine)
      requires Valid()
      modifies this
      ensures Valid()
      ensures formula == newFormula && cursorPosition == newCursor
      ensures var word := CurrentWord(newFormula, newCursor);
              var matched := Suggest(Available(parameters), word);
              && (showSuggestions <==> word != [] && matched != [])
              && (showSuggestions ==> suggestions == matched && selectedSuggestionIndex == 0)
              && (!showSuggestions ==> suggestions == old(suggestions) && selectedSuggestionIndex == old(selectedSuggestionIndex))
      ensures Status(error, evaluationResult) == Evaluate(parameters, newFormula, e)
    {
      formula := newFormula;
      cursorPosition := newCursor;
      var currentWord := CurrentWord(newFormula, newCursor);
      if |currentWord| > 0 {
        var matchedVars := Suggest(Available(parameters), currentWord);
        if |matchedVars| > 0 {
          suggestions := matchedVars;
          showSuggestions := true;
          selectedSuggestionIndex := 0;
        } else {
          showSuggestions := false;
        }
      } else {
        showSuggestions := false;
      }
      EvaluateFormula(newFormula, e);
    }

    /**
     * `selectSuggestion(suggestion)`: the word is replaced, the list closes and
     * the new text is evaluated; `caret` is where the input's caret is put.
     * The stored cursor position is left as it was.
     */
    method SelectSuggestion(suggestion: string, e: Engine) returns (caret: nat)
      requires Valid()
      modifies this
      ensures Valid()
      ensures (formula, caret) == Splice(old(formula), old(cursorPosition), suggestion)
      ensures cursorPosition == old(cursorPosition) && !showSuggestions
      ensures suggestions == old(suggestions) && selectedSuggestionIndex == old(selectedSuggestionIndex)
      ensures Status(error, evaluationResult) == Evaluate(parameters, formula, e)
    {
      var currentWord := CurrentWord(formula, cursorPosition);
      var beforeWord := Substring(formula, 0, cursorPosition - |currentWord|);
      var afterCursor := SubstringFrom(formula, cursorPosition);
      var newFormula := beforeWord + suggestion + afterCursor;
      caret := |beforeWord| + |suggestion|;
      assert (newFormula, caret) == Splice(formula, cursorPosition, suggestion);
      formula := newFormula;
      showSuggestions := false;
      EvaluateFormula(newFormula, e);
    }

    /** `handleKeyDown(e)`: a small machine over the selection, active only while the list shows. */
    method HandleKeyDown(key: Key, e: Engine)
      requires Valid()
      modifies this
      ensures Valid()
      ensures !old(showSuggestions) ==> unchanged(this)
      ensures cursorPosition == old(cursorPosition)
      ensures old(showSuggestions) && (key == ArrowDown || key == ArrowUp) ==>
                selectedSuggestionIndex == MoveSelection(key, old(selectedSuggestionIndex), |old(suggestions)|)
                && showSuggestions && suggestions == old(suggestions) && formula == old(formula)
                && error == old(error) && evaluationResult == old(evaluationResult)
      ensures old(showSuggestions) && key == Enter ==>
                formula == Splice(old(formula), old(cursorPosition), old(suggestions)[old(selectedSuggestionIndex)]).0
                && !showSuggestions
                && suggestions == old(suggestions) && selectedSuggestionIndex == old(selectedSuggestionIndex)
                && Status(error, evaluationResult) == Evaluate(parameters, formula, e)
      ensures old(showSuggestions) && key == Escape ==>
                !showSuggestions && formula == old(formula) && suggestions == old(suggestions)
                && selectedSuggestionIndex == old(selectedSuggestionIndex)
                && error == old(error) && evaluationResult == old(evaluationResult)
      ensures old(showSuggestions) && key == OtherKey ==> unchanged(this)
    {
      if !showSuggestions {
        return;
      }
      match key
      case ArrowDown =>
        MoveSelectionStaysInList(key, selectedSuggestionIndex, |suggestions|);
        selectedSuggestionIndex := if selectedSuggestionIndex < |suggestions| - 1 then selectedSuggestionIndex + 1 else selectedSuggestionIndex;
      case ArrowUp =>
        selectedSuggestionIndex := if selectedSuggestionIndex > 0 then selectedSuggestionIndex - 1 else 0;
      case Enter =>
        if |suggestions| > 0 {
          var _ := SelectSuggestion(suggestions[selectedSuggestionIndex], e);
        }
      case Escape =>
        showSuggestions := false;
      case OtherKey =>
    }

    /** `onMouseEnter` on entry `index` of the shown list: that entry becomes the selection. */
    method HoverSuggestion(index: nat)
      requires Valid() && showSuggestions && index < |suggestions|
      modifies this`selectedSuggestionIndex
      ensures Valid()
      ensures selectedSuggestionIndex == index
    {
      selectedSuggestionIndex := index;
    }
  }
}
