/**
 * The read-only registry table. It builds its own context in two passes:
 * plain defaults first (numbers and booleans as they are, anything else as
 * 0), then the formulas in order, each overwriting its entry with its result
 * or with 0. It tests for a formula on the trimmed text, does not round, and
 * falls back to 0 where the form falls back to `null`.
 */
module ParameterRegistry {
  import opened Text
  import opened Js
  import opened Wrappers
  import opened Schema
  import DynamicUi

  /** `typeof v === 'string' && v.trim().startsWith('(')`: the registry's formula test. */
  predicate IsFormulaDefault(v: JsValue) {
    v.Str? && StartsWithChar(Trim(v.s), '(')
  }

  /** `evaluateExpression(expression, context)`: a number, `null`, or the input unchanged. */
  function EvaluateExpression(expression: JsValue, context: Context, e: Engine): JsValue {
    if !(expression.Str? && expression.s != "" && IsWrapped(expression.s)) then expression
    else RunFormula(FormulaBody(expression.s), context, e)
  }

  /** The `try` block: the result when it is a number other than `NaN`, `null` otherwise or on a throw. */
  function RunFormula(body: string, context: Context, e: Engine): (r: JsValue)
    ensures r == Null || IsValidNumber(r)
    ensures e.run(body, context).Returned? && IsValidNumber(e.run(body, context).value) ==> r == e.run(body, context).value
    ensures e.run(body, context).Thrown? || !IsValidNumber(e.run(body, context).value) ==> r == Null
  {
    match e.run(body, context)
    case Returned(v) => if IsValidNumber(v) then v else Null
    case Thrown(_) => Null
  }

  /**
   * A value that is not a wrapped formula passes through. A formula gives
   * exactly the number it returned, unrounded, and `null` for anything else
   * or a thrown error.
   */
  lemma EvaluateExpressionShape(expression: JsValue, context: Context, e: Engine)
    ensures var r := EvaluateExpression(expression, context, e);
            && (!(expression.Str? && IsWrapped(expression.s)) ==> r == expression)
            && (expression.Str? && IsWrapped(expression.s) ==>
                  var out := e.run(FormulaBody(expression.s), context);
                  && (r == Null || IsValidNumber(r))
                  && (out.Returned? && IsValidNumber(out.value) ==> r == out.value)
                  && (out.Thrown? || !IsValidNumber(out.value) ==> r == Null))
  {
    if expression.Str? && IsWrapped(expression.s) {
      assert Trim(expression.s) != [];
      assert EvaluateExpression(expression, context, e) == RunFormula(FormulaBody(expression.s), context, e);
    }
  }

  /** Where the form rounds a formula's result to ten decimals, the registry shows it as returned. */
  lemma RegistryDoesNotRound(s: string, context: Context, e: Engine, x: real)
    requires IsWrapped(s)
    requires e.run(FormulaBody(s), context) == Returned(Num(Finite(x)))
    ensures EvaluateExpression(Str(s), context, e) == Num(Finite(x))
    ensures DynamicUi.EvaluateExpression(Str(s), context, e) == DynamicUi.Ok(Num(DynamicUi.Round10(Finite(x))))
  {
    assert IsValidNumber(Num(Finite(x)));
    assert EvaluateExpression(Str(s), context, e) == Num(Finite(x)) by {
      EvaluateExpressionShape(Str(s), context, e);
    }
    DynamicUi.EvaluateFormulaOutcome(s, context, e);
  }

  /** What the first pass stores for a plain default: numbers and booleans as they are, anything else 0. */
  function PlainEntry(v: JsValue): JsValue {
    if v.Num? || v.Bool? then v else Int(0)
  }

  /** The context after the first pass: the plain defaults only. */
  function Seeded(s: Schema): (r: Context)
    ensures forall k :: k in r <==> k in s.defs && !IsFormulaDefault(s.defs[k].Default)
  {
    map k | k in s.defs && !IsFormulaDefault(s.defs[k].Default) :: PlainEntry(s.defs[k].Default)
  }

  /**
   * The first pass: every plain default gets an entry; the formulas get none
   * yet. Reading `param.Default` of a `null` definition throws, and the
   * render with it: `thrown`.
   */
  method SeedContext(s: Schema) returns (context: Context, thrown: bool)
    requires s.Listed() && s.Covered() && s.NullsDefined()
    ensures thrown <==> s.nulls != {}
    ensures !thrown ==> context == Seeded(s)
  {
    context := map[];
    var i := 0;
    while i < |s.order|
      invariant 0 <= i <= |s.order|
      invariant forall k :: k in s.order[..i] ==> k !in s.nulls
      invariant forall k :: k in context <==> k in s.order[..i] && !IsFormulaDefault(s.defs[k].Default)
      invariant forall k :: k in context ==> context[k] == PlainEntry(s.defs[k].Default)
    {
      var key := s.order[i];
      if key in s.nulls {
        return context, true;
      }
      var val := s.defs[key].Default;
      if !IsFormulaDefault(val) {
        context := context[key := if val.Num? then val else if val.Bool? then val else Int(0)];
      }
      assert s.order[..i + 1] == s.order[..i] + [key];
      i := i + 1;
    }
    assert s.order[..i] == s.order;
    thrown := false;
  }

  /** The entry the second pass writes for a formula: its result, or 0 when that is `null`. */
  function FormulaEntry(result: JsValue): JsValue {
    if result != Null then result else Int(0)
  }

  /** The second pass's work on parameter `k`. */
  function FillStep(s: Schema, e: Engine, k: string, context: Context): Context
    requires k in s.defs
  {
    var v := s.defs[k].Default;
    if !IsFormulaDefault(v) then context
    else context[k := FormulaEntry(EvaluateExpression(v, context, e))]
  }

  /** The context after the second pass has visited the first `n` names, starting from `start`. */
  function Filled(s: Schema, e: Engine, start: Context, n: nat): Context
    requires s.Listed() && n <= |s.order|
  {
    if n == 0 then start else FillStep(s, e, s.order[n - 1], Filled(s, e, start, n - 1))
  }

  /** Both passes: the context the table shows. */
  function Resolve(s: Schema, e: Engine): Context
    requires s.Valid()
  {
    Filled(s, e, Seeded(s), |s.order|)
  }

  /** The second pass: each formula, in order, is evaluated against the context as it stands and overwrites its entry. */
  method FillFormulas(s: Schema, e: Engine, start: Context) returns (context: Context)
    requires s.Listed()
    ensures context == Filled(s, e, start, |s.order|)
  {
    context := start;
    var i := 0;
    while i < |s.order|
      invariant 0 <= i <= |s.order|
      invariant context == Filled(s, e, start, i)
    {
      context := FillEntry(s, e, s.order[i], context);
      i := i + 1;
    }
  }

  /** The second pass's callback for one parameter. */
  method FillEntry(s: Schema, e: Engine, key: string, context: Context) returns (updated: Context)
    requires key in s.defs
    ensures updated == FillStep(s, e, key, context)
  {
    updated := context;
    var val := s.defs[key].Default;
    if IsFormulaDefault(val) {
      var result := EvaluateExpression(val, context, e);
      updated := context[key := FormulaEntry(result)];
    }
  }

  /** Both passes, as a render runs them; `thrown` when the first one throws. */
  method BuildContext(s: Schema, e: Engine) returns (context: Context, thrown: bool)
    requires s.Valid()
    ensures thrown <==> s.nulls != {}
    ensures !thrown ==> context == Resolve(s, e) && forall k :: k in context <==> k in s.defs
  {
    var seeded;
    seeded, thrown := SeedContext(s);
    if thrown {
      return seeded, true;
    }
    context := FillFormulas(s, e, seeded);
    ResolvedKeys(s, e);
  }

  /** The step for `k` leaves every other name alone. */
  lemma FillStepFrame(s: Schema, e: Engine, k: string, context: Context, x: string)
    requires k in s.defs && x != k
    ensures x in FillStep(s, e, k, context) <==> x in context
    ensures x in context ==> FillStep(s, e, k, context)[x] == context[x]
  {
  }

  /** The step for a formula always writes its entry. */
  lemma FillStepStores(s: Schema, e: Engine, k: string, context: Context)
    requires k in s.defs && IsFormulaDefault(s.defs[k].Default)
    ensures k in FillStep(s, e, k, context)
  {
  }

  /** A formula the second pass has visited has an entry, whatever the start. */
  lemma {:induction false} FilledHasVisited(s: Schema, e: Engine, start: Context, n: nat, j: nat)
    requires s.Listed() && j < n <= |s.order|
    requires IsFormulaDefault(s.defs[s.order[j]].Default)
    ensures s.order[j] in Filled(s, e, start, n)
  {
    var k := s.order[j];
    if n == j + 1 {
      FillStepStores(s, e, k, Filled(s, e, start, j));
    } else {
      FilledHasVisited(s, e, start, n - 1, j);
      if s.order[n - 1] != k {
        FillStepFrame(s, e, s.order[n - 1], Filled(s, e, start, n - 1), k);
      }
    }
  }

  /** Entries outside the schema are never added. */
  lemma {:induction false} FilledWithin(s: Schema, e: Engine, start: Context, n: nat)
    requires s.Listed() && n <= |s.order|
    ensures forall k :: k in Filled(s, e, start, n) ==> k in start || k in s.defs
  {
    if n > 0 {
      FilledWithin(s, e, start, n - 1);
      forall k | k in Filled(s, e, start, n)
        ensures k in start || k in s.defs
      {
        if k != s.order[n - 1] {
          FillStepFrame(s, e, s.order[n - 1], Filled(s, e, start, n - 1), k);
        }
      }
    }
  }

  /** A name the second pass has not reached yet has its starting entry, or none. */
  lemma {:induction false} FilledNotYet(s: Schema, e: Engine, start: Context, n: nat, j: nat)
    requires s.Listed() && s.Distinct() && n <= j < |s.order|
    ensures s.order[j] in Filled(s, e, start, n) <==> s.order[j] in start
    ensures s.order[j] in start ==> Filled(s, e, start, n)[s.order[j]] == start[s.order[j]]
  {
    if n > 0 {
      FilledNotYet(s, e, start, n - 1, j);
      FillStepFrame(s, e, s.order[n - 1], Filled(s, e, start, n - 1), s.order[j]);
    }
  }

  /** Once the second pass has visited `order[j]`, later steps leave its entry alone. */
  lemma {:induction false} FilledSettled(s: Schema, e: Engine, start: Context, n: nat, j: nat)
    requires s.Listed() && s.Distinct() && j < n <= |s.order|
    ensures var k := s.order[j];
            (k in Filled(s, e, start, n) <==> k in Filled(s, e, start, j + 1))
            && (k in Filled(s, e, start, j + 1) ==> Filled(s, e, start, n)[k] == Filled(s, e, start, j + 1)[k])
  {
    if n > j + 1 {
      FilledSettled(s, e, start, n - 1, j);
      FillStepFrame(s, e, s.order[n - 1], Filled(s, e, start, n - 1), s.order[j]);
    }
  }

  /** After both passes, the context keys are exactly the parameter names. */
  lemma ResolvedKeys(s: Schema, e: Engine)
    requires s.Valid()
    ensures forall k :: k in Resolve(s, e) <==> k in s.defs
  {
    FilledWithin(s, e, Seeded(s), |s.order|);
    forall k | k in s.defs
      ensures k in Resolve(s, e)
    {
      var j := IndexOf(s, k);
      if IsFormulaDefault(s.defs[k].Default) {
        FilledHasVisited(s, e, Seeded(s), |s.order|, j);
      } else {
        PlainDefaultKept(s, e, k);
      }
    }
  }

  /** A plain default keeps the entry the first pass gave it. */
  lemma PlainDefaultKept(s: Schema, e: Engine, k: string)
    requires s.Valid() && k in s.defs && !IsFormulaDefault(s.defs[k].Default)
    ensures k in Resolve(s, e) && Resolve(s, e)[k] == PlainEntry(s.defs[k].Default)
  {
    var j := IndexOf(s, k);
    var start := Seeded(s);
    assert k in start && start[k] == PlainEntry(s.defs[k].Default);
    FilledNotYet(s, e, start, j, j);
    var before := Filled(s, e, start, j);
    assert Filled(s, e, start, j + 1) == FillStep(s, e, k, before) == before;
    FilledSettled(s, e, start, |s.order|, j);
  }

  /**
   * The context formula `order[j]` is evaluated against: the plain defaults,
   * the final entries of the formulas before it, and no entry at all for the
   * formulas from it on.
   */
  lemma FormulaSees(s: Schema, e: Engine, j: nat, i: nat)
    requires s.Valid() && j < |s.order| && i < |s.order|
    ensures var seen := Filled(s, e, Seeded(s), j);
            var k := s.order[i];
            && (k in seen <==> i < j || !IsFormulaDefault(s.defs[k].Default))
            && (i < j ==> k in Resolve(s, e) && seen[k] == Resolve(s, e)[k])
            && (!IsFormulaDefault(s.defs[k].Default) ==> seen[k] == PlainEntry(s.defs[k].Default))
  {
    var start := Seeded(s);
    var k := s.order[i];
    if i < j {
      if IsFormulaDefault(s.defs[k].Default) {
        FilledHasVisited(s, e, start, i + 1, i);
      } else {
        FilledNotYet(s, e, start, i, i);
        assert Filled(s, e, start, i + 1) == Filled(s, e, start, i);
      }
      FilledSettled(s, e, start, j, i);
      FilledSettled(s, e, start, |s.order|, i);
    } else {
      FilledNotYet(s, e, start, j, i);
    }
  }

  /** A formula's final entry is its result in the context it saw, or 0 when that is `null`. */
  lemma FormulaResult(s: Schema, e: Engine, j: nat)
    requires s.Valid() && j < |s.order|
    requires IsFormulaDefault(s.defs[s.order[j]].Default)
    ensures var k := s.order[j];
            var r := EvaluateExpression(s.defs[k].Default, Filled(s, e, Seeded(s), j), e);
            k in Resolve(s, e) && Resolve(s, e)[k] == FormulaEntry(r)
  {
    var start := Seeded(s);
    FilledSettled(s, e, start, |s.order|, j);
  }

  /**
   * Every entry of the registry's context is a number or a boolean for a plain
   * default, and for a formula a valid number, 0, or (unclosed) the raw
   * string: never `null` or `undefined`.
   */
  lemma ResolvedEntries(s: Schema, e: Engine, k: string)
    requires s.Valid() && k in s.defs
    ensures k in Resolve(s, e)
    ensures var v := Resolve(s, e)[k];
            var d := s.defs[k].Default;
            && v != Null && v != Undefined
            && (!IsFormulaDefault(d) ==> v.Num? || v.Bool?)
            && (!IsFormulaDefault(d) && (d.Num? || d.Bool?) ==> v == d)
            && (!IsFormulaDefault(d) && !(d.Num? || d.Bool?) ==> v == Int(0))
            && (IsFormulaDefault(d) && IsWrapped(d.s) ==> IsValidNumber(v))
            && (IsFormulaDefault(d) && !IsWrapped(d.s) ==> v == d)
  {
    var d := s.defs[k].Default;
    if IsFormulaDefault(d) {
      var j := IndexOf(s, k);
      FormulaResult(s, e, j);
      assert Trim(d.s) != [];
    } else {
      PlainDefaultKept(s, e, k);
    }
  }

  /** A trimmed value that starts with `(` but does not end with `)` is stored as the raw string instead of 0. */
  lemma UnclosedFormulaStored(s: Schema, e: Engine, k: string)
    requires s.Valid() && k in s.defs
    requires IsFormulaDefault(s.defs[k].Default) && !EndsWithChar(Trim(s.defs[k].Default.s), ')')
    ensures k in Resolve(s, e) && Resolve(s, e)[k] == s.defs[k].Default
  {
    ResolvedEntries(s, e, k);
  }

  /**
   * A formula written after a space is a formula to the registry, which
   * stores a number for it, but not to the form, which keeps the raw string.
   */
  lemma IndentedFormulaDiffers(s: Schema, e: Engine, k: string, formula: string)
    requires s.Valid() && k in s.defs
    requires s.defs[k].Default == Str(" " + formula) && IsWrapped(formula)
    ensures k in Resolve(s, e) && IsValidNumber(Resolve(s, e)[k])
    ensures DynamicUi.Resolve(s, map[], e).0[k] == Str(" " + formula)
  {
    var d := s.defs[k].Default;
    assert IsFormulaDefault(d) && IsWrapped(d.s) by {
      assert Trim(formula) != [];
      TrimPadded(" ", formula, "");
      assert " " + formula + "" == " " + formula;
    }
    ResolvedEntries(s, e, k);
    DynamicUi.IndentedFormulaNotEvaluated(s, map[], e, k, formula);
  }

  /** `param.Formula || (typeof param.Default === 'string' && param.Default.trim().startsWith('('))`. */
  predicate IsFormulaRow(p: Param) {
    Truthy(p.Formula) || IsFormulaDefault(p.Default)
  }

  /** `param.Formula || (isFormula ? param.Default : null)`. */
  function FormulaString(p: Param): JsValue {
    if Truthy(p.Formula) then p.Formula else if IsFormulaRow(p) then p.Default else Null
  }

  /** The formula shown is `Formula` when set, else a formula `Default`; a row with neither shows none. */
  lemma FormulaStringChoice(p: Param)
    ensures Truthy(FormulaString(p)) <==> IsFormulaRow(p)
    ensures Truthy(p.Formula) ==> FormulaString(p) == p.Formula
    ensures !Truthy(p.Formula) && IsFormulaRow(p) ==> FormulaString(p) == p.Default && p.Default.Str?
    ensures !IsFormulaRow(p) ==> FormulaString(p) == Null
  {
  }

  /** The source column. */
  function SourceLabel(p: Param): (r: string)
    ensures r == "CALCULATED" <==> Truthy(p.IsCalculated)
    ensures r == "YAML" <==> !Truthy(p.IsCalculated)
  {
    if Truthy(p.IsCalculated) then "CALCULATED" else "YAML"
  }

  /** The number of trailing `0` characters. */
  function TrailingZeros(s: string): (z: nat)
    ensures z <= |s|
    ensures z < |s| ==> s[|s| - z - 1] != '0'
  {
    if s != [] && s[|s| - 1] == '0' then 1 + TrailingZeros(s[..|s| - 1]) else 0
  }

  /** Every character `TrailingZeros` counts is a `0`. */
  lemma {:induction false} TrailingZerosAreZeros(s: string)
    ensures forall i :: |s| - TrailingZeros(s) <= i < |s| ==> s[i] == '0'
  {
    if s != [] && s[|s| - 1] == '0' {
      var s' := s[..|s| - 1];
      TrailingZerosAreZeros(s');
      forall i | |s| - TrailingZeros(s) <= i < |s|
        ensures s[i] == '0'
      {
        if i < |s| - 1 {
          assert s[i] == s'[i];
        }
      }
    }
  }

  predicate AllZeros(t: string) {
    forall i :: 0 <= i < |t| ==> t[i] == '0'
  }

  /** `t` is matched in full by `\.?0+`. */
  predicate ZeroTail(t: string) {
    (t != [] && AllZeros(t)) || (|t| >= 2 && t[0] == '.' && AllZeros(t[1..]))
  }

  /** `s.replace(/\.?0+$/, '')`. */
  function StripZeros(s: string): string {
    var z := TrailingZeros(s);
    if z == 0 then s
    else if z < |s| && s[|s| - z - 1] == '.' then s[..|s| - z - 1]
    else s[..|s| - z]
  }

  /**
   * `StripZeros` removes the leftmost suffix the regular expression
   * `\.?0+$` matches, and nothing when there is none.
   */
  lemma {:induction false} StripZerosIsLeftmostMatch(s: string)
    ensures StripZeros(s) <= s
    ensures StripZeros(s) == s || ZeroTail(s[|StripZeros(s)|..])
    ensures forall i :: 0 <= i < |StripZeros(s)| ==> !ZeroTail(s[i..])
    ensures StripZeros(s) == s ==> !ZeroTail(s[|s|..]) && forall i :: 0 <= i < |s| ==> !ZeroTail(s[i..])
  {
    var z := TrailingZeros(s);
    var r := StripZeros(s);
    TrailingZerosAreZeros(s);
    if z > 0 {
      assert s[|s| - 1] == '0';
      forall i | 0 <= i < |r|
        ensures !ZeroTail(s[i..])
      {
        var m := |s| - z - 1;
        assert i <= m && s[i..][m - i] == s[m];
        if i < m {
          assert s[i..][1..][m - i - 1] == s[m];
        }
      }
      if z < |s| && s[|s| - z - 1] == '.' {
        assert s[|r|..][1..] == s[|s| - z..];
      }
    } else {
      forall i | 0 <= i < |s|
        ensures !ZeroTail(s[i..])
      {
        assert s[i..][|s| - i - 1] == s[|s| - 1];
        if |s| - i >= 2 {
          assert s[i..][1..][|s| - i - 2] == s[|s| - 1];
        }
      }
    }
  }

  lemma {:induction false} TrailingZerosAfterDot(a: string, frac: string)
    ensures TrailingZeros(a + "." + frac) == TrailingZeros(frac)
  {
    if frac != [] && frac[|frac| - 1] == '0' {
      assert (a + "." + frac)[..|a + "." + frac| - 1] == a + "." + frac[..|frac| - 1];
      TrailingZerosAfterDot(a, frac[..|frac| - 1]);
    } else if frac == [] {
      assert a + "." + frac == a + ".";
    }
  }

  /**
   * On `toFixed(4)`'s output `ip.frac`, the strip removes the trailing zeros of
   * the fraction, and the `.` as well when no digit is left after it; the
   * integer part is never touched.
   */
  lemma {:induction false} StripFixed(ip: string, frac: string)
    requires frac != [] && AllDigits(frac)
    ensures AllZeros(frac) ==> StripZeros(ip + "." + frac) == ip
    ensures !AllZeros(frac) ==>
              StripZeros(ip + "." + frac) == ip + "." + frac[..|frac| - TrailingZeros(frac)]
              && !EndsWithChar(StripZeros(ip + "." + frac), '0')
  {
    TrailingZerosAfterDot(ip, frac);
    if AllZeros(frac) {
      StripWholeFraction(ip, frac);
    } else {
      StripPartFraction(ip, frac);
    }
  }

  lemma {:induction false} StripPartFraction(ip: string, frac: string)
    requires AllDigits(frac) && !AllZeros(frac)
    requires TrailingZeros(ip + "." + frac) == TrailingZeros(frac)
    ensures StripZeros(ip + "." + frac) == ip + "." + frac[..|frac| - TrailingZeros(frac)]
    ensures !EndsWithChar(StripZeros(ip + "." + frac), '0')
  {
    var z := TrailingZeros(frac);
    assert z < |frac| by {
      var i :| 0 <= i < |frac| && frac[i] != '0';
      TrailingZerosAreZeros(frac);
    }
    assert IsDigit(frac[|frac| - z - 1]);
    KeptPrefix(ip + ".", frac, |frac| - z);
    StripZerosAt(ip + "." + frac, z);
  }

  lemma {:induction false} StripWholeFraction(ip: string, frac: string)
    requires frac != [] && AllZeros(frac)
    requires TrailingZeros(ip + "." + frac) == TrailingZeros(frac)
    ensures StripZeros(ip + "." + frac) == ip
  {
    var s := ip + "." + frac;
    var z := TrailingZeros(frac);
    assert z == |frac|;
    assert s[|s| - z - 1] == '.';
    assert s[..|s| - z - 1] == ip;
  }

  /** Where the run of `z` trailing zeros follows a character other than `.`, the strip removes just that run. */
  lemma {:induction false} StripZerosAt(s: string, z: nat)
    requires TrailingZeros(s) == z < |s| && s[|s| - z - 1] != '.'
    ensures StripZeros(s) == s[..|s| - z]
  {
    if z == 0 {
      assert s[..|s|] == s;
    }
  }

  /** Cutting `k` characters off `a + b` within `b`, and the character just before the cut. */
  lemma KeptPrefix(a: string, b: string, k: nat)
    requires 0 < k <= |b|
    ensures (a + b)[..|a| + k] == a + b[..k]
    ensures (a + b)[|a| + k - 1] == b[k - 1]
    ensures (a + b[..k])[|a + b[..k]| - 1] == b[k - 1]
    ensures k == |b| ==> a + b[..k] == a + b
  {
    if k == |b| {
      assert b[..k] == b;
    }
  }

  /** `formatNumericValue(val)`. */
  function FormatNumeric(v: JsValue, e: Engine): JsValue {
    if !v.Num? then v
    else if IsInteger(v.n) then Str(NumberToString(v.n, e))
    else Str(StripZeros(e.toFixed4(v.n)))
  }

  /** Non-numbers pass through; integers show their decimal digits; other numbers show `toFixed(4)` without trailing zeros. */
  lemma FormatNumericCases(v: JsValue, e: Engine)
    ensures !v.Num? ==> FormatNumeric(v, e) == v
    ensures v.Num? && IsInteger(v.n) && -1000000000000000000000.0 < v.n.r < 1000000000000000000000.0 ==>
              FormatNumeric(v, e) == Str(IntegerText(v.n.r.Floor))
    ensures v.Num? && !IsInteger(v.n) ==>
              FormatNumeric(v, e).Str? && FormatNumeric(v, e).s <= e.toFixed4(v.n)
  {
    if v.Num? && !IsInteger(v.n) {
      StripZerosIsLeftmostMatch(e.toFixed4(v.n));
    }
  }

  /** A number within 0.00005 of an integer, such as 2.00001, shows as that integer's text once stripped. */
  lemma NearIntegerShownWhole(x: Number, e: Engine, ip: string)
    requires !IsInteger(x) && e.toFixed4(x) == ip + ".0000"
    ensures FormatNumeric(Num(x), e) == Str(ip)
  {
    assert AllZeros("0000");
    assert ip + ".0000" == ip + "." + "0000";
    StripFixed(ip, "0000");
  }

  /** One value cell of the table. `Broken` is a render that throws: a `Formula` that is not a string. */
  datatype Cell =
    | FormulaCell(formula: string, fromYaml: bool, shown: JsValue, unit: JsValue)
    | BoolCell(text: string)
    | PlainCell(shown: JsValue, unit: JsValue)
    | Broken

  /** `formatValue(val, formula, unit)`. */
  function FormatValue(v: JsValue, formula: JsValue, unit: JsValue, e: Engine): (c: Cell)
    ensures Truthy(formula) && formula.Str? ==>
              c == FormulaCell(formula.s, StartsWithChar(formula.s, '('), FormatNumeric(v, e), unit)
    ensures Truthy(formula) && !formula.Str? ==> c == Broken
    ensures !Truthy(formula) && v.Bool? ==> c == BoolCell(if v.b then "True" else "False")
    ensures !Truthy(formula) && !v.Bool? ==> c == PlainCell(FormatNumeric(v, e), unit)
  {
    if Truthy(formula) then
      if formula.Str? then FormulaCell(formula.s, StartsWithChar(formula.s, '('), FormatNumeric(v, e), unit)
      else Broken
    else if v.Bool? then BoolCell(if v.b then "True" else "False")
    else PlainCell(FormatNumeric(v, e), unit)
  }

  /** One table row. */
  datatype Row = Row(key: string, cell: Cell, typeLabel: JsValue, source: string, description: JsValue)

  /** `context[key] !== undefined ? context[key] : param.Default`. */
  function Shown(context: Context, k: string, p: Param): JsValue {
    if k in context && context[k] != Undefined then context[k] else p.Default
  }

  function RowFor(s: Schema, context: Context, k: string, e: Engine): Row
    requires k in s.defs
  {
    var p := s.defs[k];
    Row(k, FormatValue(Shown(context, k, p), FormulaString(p), p.Unit, e), p.Type, SourceLabel(p),
        if Truthy(p.Description) then p.Description else Str("-"))
  }

  /**
   * What the component renders: nothing to show without a schema, `Crashed`
   * when the render throws (building the context, or formatting a cell),
   * else one row per parameter.
   */
  datatype View = Empty | Table(count: nat, rows: seq<Row>) | Crashed

  /** Some row's value cell throws while it is formatted. */
  predicate SomeCellBroken(rows: seq<Row>) {
    exists i :: 0 <= i < |rows| && rows[i].cell == Broken
  }

  function ViewOf(parameters: Option<Schema>, e: Engine): View
    requires parameters.Some? ==> parameters.value.Valid()
  {
    match parameters
    case None => Empty
    case Some(s) =>
      if s.nulls != {} then Crashed
      else
        var rows := RowsFor(s, Resolve(s, e), s.order, e);
        if SomeCellBroken(rows) then Crashed else Table(|s.order|, rows)
  }

  /** `formatValue` throws on this parameter's row: a truthy `Formula` that is not a string has no `startsWith`. */
  predicate FormulaThrows(p: Param) {
    Truthy(p.Formula) && !p.Formula.Str?
  }

  /** A row's cell is `Broken` exactly when its parameter's `Formula` throws, whatever the context. */
  lemma CellBrokenIff(s: Schema, context: Context, k: string, e: Engine)
    requires k in s.defs
    ensures RowFor(s, context, k, e).cell == Broken <==> FormulaThrows(s.defs[k])
  {
    FormulaStringChoice(s.defs[k]);
  }

  /** Some row of `keys` is broken exactly when some parameter of `keys` has a `Formula` that throws. */
  lemma BrokenRows(s: Schema, context: Context, keys: seq<string>, e: Engine)
    requires forall k :: k in keys ==> k in s.defs
    ensures SomeCellBroken(RowsFor(s, context, keys, e)) <==> exists k :: k in keys && FormulaThrows(s.defs[k])
  {
    var rows := RowsFor(s, context, keys, e);
    if SomeCellBroken(rows) {
      var i :| 0 <= i < |rows| && rows[i].cell == Broken;
      CellBrokenIff(s, context, keys[i], e);
      assert keys[i] in keys;
    }
    forall k | k in keys && FormulaThrows(s.defs[k])
      ensures SomeCellBroken(rows)
    {
      var i :| 0 <= i < |keys| && keys[i] == k;
      CellBrokenIff(s, context, k, e);
      assert rows[i].cell == Broken;
    }
  }

  /**
   * The registry crashes exactly when some name is defined as `null` (the
   * first pass reads its `Default`) or some parameter has a truthy `Formula`
   * that is not a string (`formatValue` calls its `startsWith`).
   */
  lemma RegistryCrashes(s: Schema, e: Engine)
    requires s.Valid()
    ensures ViewOf(Some(s), e) == Crashed <==>
              s.nulls != {} || exists k :: k in s.order && FormulaThrows(s.defs[k])
    ensures ViewOf(Some(s), e) != Crashed ==>
              ViewOf(Some(s), e) == Table(|s.order|, RowsFor(s, Resolve(s, e), s.order, e))
  {
    if s.nulls == {} {
      BrokenRows(s, Resolve(s, e), s.order, e);
    }
  }

  /** One row per name of `keys`, in order. */
  function RowsFor(s: Schema, context: Context, keys: seq<string>, e: Engine): (rows: seq<Row>)
    requires forall k :: k in keys ==> k in s.defs
    ensures |rows| == |keys|
    ensures forall i :: 0 <= i < |keys| ==> rows[i] == RowFor(s, context, keys[i], e)
  {
    if keys == [] then [] else [RowFor(s, context, keys[0], e)] + RowsFor(s, context, keys[1..], e)
  }

  /**
   * Every parameter has a row, in order, showing its resolved entry (never the
   * `Default` fallback); a plain boolean shows as `True`/`False`. The table
   * shows exactly these rows unless the render crashes (`RegistryCrashes`).
   */
  lemma RowsShowResolvedEntries(s: Schema, e: Engine, i: nat)
    requires s.Valid() && s.nulls == {} && i < |s.order|
    ensures var rows := RowsFor(s, Resolve(s, e), s.order, e);
            var k := s.order[i];
            && |rows| == |s.order|
            && k in Resolve(s, e)
            && rows[i].key == k
            && rows[i].cell == FormatValue(Resolve(s, e)[k], FormulaString(s.defs[k]), s.defs[k].Unit, e)
            && (!IsFormulaRow(s.defs[k]) && s.defs[k].Default.Bool? ==>
                  rows[i].cell == BoolCell(if s.defs[k].Default.b then "True" else "False"))
  {
    ResolvedEntries(s, e, s.order[i]);
  }
}
