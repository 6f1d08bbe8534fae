/**
 * The generated form. Every render builds a context from the schema and the
 * user's overrides in two passes: the first seeds every name with its plain
 * value (`null` for a formula), the second evaluates the formulas in order,
 * writing each result back into the same context. Conditions then decide which
 * rows are shown; a hidden parameter stays in the context.
 */
module DynamicUi {
  import opened Text
  import opened Js
  import opened Wrappers
  import opened Schema
  import DynamicField

  /** The user's edits, by parameter name (the `values` state). */
  type Overrides = map<string, JsValue>

  /** The formula errors recorded in the second pass (`expressionErrors`). */
  type Errors = map<string, string>

  const InvalidNumberMessage: string := "수식 결과가 유효한 숫자가 아닙니다"
  const FormulaErrorPrefix: string := "수식 오류: "

  /** What `evaluateExpression` returns: a value, or the object `{ value: null, error }`. */
  datatype Evaluated = Ok(value: JsValue) | Failed(error: string)

  const Scale: real := 10000000000.0

  /** `Math.round(x * 1e10) / 1e10`, on exact reals. */
  function Round10(x: Number): (r: Number)
    requires !x.NaN?
    ensures x.Finite? <==> r.Finite?
    ensures !x.Finite? ==> r == x
  {
    match x
    case Finite(v) => Finite((v * Scale + 0.5).Floor as real / Scale)
    case _ => x
  }

  /** The rounded value is a whole number of ten-billionths, within half of one of the input. */
  lemma Round10Nearest(x: Number)
    requires x.Finite?
    ensures x.r - 1.0 / (2.0 * Scale) < Round10(x).r <= x.r + 1.0 / (2.0 * Scale)
    ensures Round10(x).r * Scale == (Round10(x).r * Scale).Floor as real
  {
  }

  /** Rounding twice is rounding once. */
  lemma Round10Idempotent(x: Number)
    requires !x.NaN?
    ensures Round10(Round10(x)) == Round10(x)
  {
    if x.Finite? {
      Round10Nearest(x);
      var k := (Round10(x).r * Scale).Floor;
      assert (k as real + 0.5).Floor == k;
    }
  }

  /** An integer result is returned as it is. */
  lemma Round10KeepsIntegers(x: Number)
    requires IsInteger(x)
    ensures Round10(x) == x
  {
    var k := x.r.Floor;
    assert x.r * Scale + 0.5 == (k * 10000000000) as real + 0.5;
    assert (x.r * Scale + 0.5).Floor == k * 10000000000;
  }

  /** `evaluateExpression(expression, context)`. */
  function EvaluateExpression(expression: JsValue, context: Context, e: Engine): Evaluated {
    if !(expression.Str? && expression.s != "" && IsWrapped(expression.s)) then Ok(expression)
    else RunFormula(FormulaBody(expression.s), context, e)
  }

  /** A value that is not a wrapped formula passes through; a formula yields a valid number or one of the two errors. */
  lemma EvaluateExpressionShape(expression: JsValue, context: Context, e: Engine)
    ensures var r := EvaluateExpression(expression, context, e);
            && (!(expression.Str? && IsWrapped(expression.s)) ==> r == Ok(expression))
            && (expression.Str? && IsWrapped(expression.s) && r.Ok? ==> IsValidNumber(r.value))
            && (r.Failed? ==> r.error == InvalidNumberMessage || FormulaErrorPrefix <= r.error)
  {
  }

  /** The `try` block: run the formula and keep its result only when it is a number other than `NaN`. */
  function RunFormula(body: string, context: Context, e: Engine): (r: Evaluated)
    ensures r.Ok? ==> IsValidNumber(r.value)
    ensures r.Failed? ==> r.error == InvalidNumberMessage || FormulaErrorPrefix <= r.error
  {
    match e.run(body, context)
    case Returned(Num(x)) => if x.NaN? then Failed(InvalidNumberMessage) else Ok(Num(Round10(x)))
    case Returned(_) => Failed(InvalidNumberMessage)
    case Thrown(m) => Failed(FormulaErrorPrefix + m)
  }

  /** How a formula's run turns into the entry `evaluateExpression` returns. */
  lemma EvaluateFormulaOutcome(s: string, context: Context, e: Engine)
    requires IsWrapped(s)
    ensures var out := e.run(FormulaBody(s), context);
            var r := EvaluateExpression(Str(s), context, e);
            && (out.Returned? && IsValidNumber(out.value) ==> r == Ok(Num(Round10(out.value.n))))
            && (out.Returned? && !IsValidNumber(out.value) ==> r == Failed(InvalidNumberMessage))
            && (out.Thrown? ==> r == Failed(FormulaErrorPrefix + out.message))
  {
    assert Trim(s) != [];
  }

  /** `getValue(param)`: the override when there is one, else `Default`, else `''`. */
  function GetValue(key: string, p: Param, values: Overrides): (r: JsValue)
    ensures r != Undefined
    ensures key in values && values[key] != Undefined ==> r == values[key]
    ensures !(key in values && values[key] != Undefined) && p.Default != Undefined ==> r == p.Default
    ensures !(key in values && values[key] != Undefined) && p.Default == Undefined ==> r == Str("")
  {
    if key in values && values[key] != Undefined then values[key]
    else if p.Default != Undefined then p.Default
    else Str("")
  }

  /** The raw value of parameter `k` under the overrides. */
  function Raw(s: Schema, values: Overrides, k: string): JsValue
    requires k in s.defs
  {
    GetValue(k, s.defs[k], values)
  }

  /** What the first pass stores for a raw value: `null` for a string starting with `(`. */
  function SeedValue(raw: JsValue): JsValue {
    if StartsWithParen(raw) then Null else raw
  }

  /** The context after the first pass. */
  function Seeded(s: Schema, values: Overrides): (r: Context)
    ensures forall k :: k in r <==> k in s.defs
  {
    map k | k in s.defs :: SeedValue(Raw(s, values, k))
  }

  /** The first pass: every parameter gets an entry, `null` for a formula and its raw value otherwise. */
  method SeedContext(s: Schema, values: Overrides) returns (context: Context)
    requires s.Listed() && s.Covered()
    ensures forall k :: k in context <==> k in s.defs
    ensures forall k :: k in s.defs ==> context[k] == SeedValue(Raw(s, values, k))
    ensures context == Seeded(s, values)
  {
    context := map[];
    var i := 0;
    while i < |s.order|
      invariant 0 <= i <= |s.order|
      invariant forall k :: k in context <==> k in s.order[..i]
      invariant forall k :: k in context ==> k in s.defs && context[k] == SeedValue(Raw(s, values, k))
    {
      var key := s.order[i];
      context := context[key := SeedValue(Raw(s, values, key))];
      assert s.order[..i + 1] == s.order[..i] + [key];
      i := i + 1;
    }
    assert s.order[..i] == s.order;
  }

  /** Writes one formula's outcome back: its value, or `null` and the error message. */
  function Record(acc: (Context, Errors), k: string, outcome: Evaluated): (r: (Context, Errors))
    ensures r.0 == acc.0[k := if outcome.Failed? then Null else outcome.value]
    ensures r.1 == if outcome.Failed? then acc.1[k := outcome.error] else acc.1
  {
    match outcome
    case Failed(msg) => (acc.0[k := Null], acc.1[k := msg])
    case Ok(v) => (acc.0[k := v], acc.1)
  }

  /** The second pass's work on parameter `k`, given the context and errors so far. */
  function FormulaStep(s: Schema, values: Overrides, e: Engine, k: string, acc: (Context, Errors)): (r: (Context, Errors))
    requires k in s.defs
  {
    var raw := Raw(s, values, k);
    if !StartsWithParen(raw) then acc else Record(acc, k, EvaluateExpression(raw, acc.0, e))
  }

  /** A step of the second pass touches only its own name: every other entry and error is left as it was. */
  lemma FormulaStepFrame(s: Schema, values: Overrides, e: Engine, k: string, acc: (Context, Errors), x: string)
    requires k in s.defs && x != k
    ensures var r := FormulaStep(s, values, e, k, acc);
            && (x in r.0 <==> x in acc.0) && (x in r.1 <==> x in acc.1)
            && (x in acc.0 ==> r.0[x] == acc.0[x])
            && (x in acc.1 ==> r.1[x] == acc.1[x])
  {
  }

  /** The context and errors after the second pass has visited the first `n` names, starting from `start`. */
  function Passed(s: Schema, values: Overrides, e: Engine, start: Context, n: nat): (r: (Context, Errors))
    requires s.Listed() && n <= |s.order|
    ensures forall k :: k in start ==> k in r.0
    ensures forall k :: k in r.0 ==> k in start || k in s.defs
  {
    if n == 0 then (start, map[])
    else FormulaStep(s, values, e, s.order[n - 1], Passed(s, values, e, start, n - 1))
  }

  /** Both passes: the context and the errors a render works with. */
  function Resolve(s: Schema, values: Overrides, e: Engine): (r: (Context, Errors))
    requires s.Valid()
    ensures forall k :: k in r.0 <==> k in s.defs
  {
    Passed(s, values, e, Seeded(s, values), |s.order|)
  }

  /** The second pass: each formula, in order, is evaluated against the context as it stands and written back. */
  method EvaluateFormulas(s: Schema, values: Overrides, e: Engine, start: Context)
    returns (context: Context, errors: Errors)
    requires s.Listed()
    ensures (context, errors) == Passed(s, values, e, start, |s.order|)
  {
    context, errors := start, map[];
    var i := 0;
    while i < |s.order|
      invariant 0 <= i <= |s.order|
      invariant (context, errors) == Passed(s, values, e, start, i)
    {
      context, errors := EvaluateEntry(s, values, e, s.order[i], context, errors);
      i := i + 1;
    }
  }

  /** The second pass's work on one name: a formula's outcome is written back, anything else is skipped. */
  method EvaluateEntry(s: Schema, values: Overrides, e: Engine, key: string, context: Context, errors: Errors)
    returns (context': Context, errors': Errors)
    requires key in s.defs
    ensures (context', errors') == FormulaStep(s, values, e, key, (context, errors))
  {
    context', errors' := context, errors;
    var rawValue := GetValue(key, s.defs[key], values);
    if StartsWithParen(rawValue) {
      var result := EvaluateExpression(rawValue, context, e);
      if result.Failed? {
        context' := context[key := Null];
        errors' := errors[key := result.error];
      } else {
        context' := context[key := result.value];
      }
      assert (context', errors') == Record((context, errors), key, result);
    }
  }

  /** Both passes, as a render runs them. */
  method BuildContext(s: Schema, values: Overrides, e: Engine) returns (context: Context, errors: Errors)
    requires s.Valid()
    ensures (context, errors) == Resolve(s, values, e)
    ensures forall k :: k in context <==> k in s.defs
    ensures forall k :: k in errors ==> k in s.defs && StartsWithParen(Raw(s, values, k)) && context[k] == Null
  {
    var seeded := SeedContext(s, values);
    context, errors := EvaluateFormulas(s, values, e, seeded);
    PassedErrorsAreFormulas(s, values, e, seeded, |s.order|);
    ErrorsMeanNull(s, values, e);
  }

  /** The second pass records an error only for a defined name whose raw value starts with `(`. */
  lemma {:induction false} PassedErrorsAreFormulas(s: Schema, values: Overrides, e: Engine, start: Context, n: nat)
    requires s.Listed() && n <= |s.order|
    ensures forall k :: k in Passed(s, values, e, start, n).1 ==> k in s.defs && StartsWithParen(Raw(s, values, k))
  {
    if n > 0 {
      PassedErrorsAreFormulas(s, values, e, start, n - 1);
      var k' := s.order[n - 1];
      var acc := Passed(s, values, e, start, n - 1);
      var now := FormulaStep(s, values, e, k', acc);
      assert Passed(s, values, e, start, n) == now;
      forall k | k in now.1
        ensures k in s.defs && StartsWithParen(Raw(s, values, k))
      {
        if k != k' {
          FormulaStepFrame(s, values, e, k', acc, k);
        } else if !StartsWithParen(Raw(s, values, k')) {
          assert now == acc;
        }
      }
    }
  }

  /** A name the second pass has not reached yet still holds its starting entry. */
  lemma {:induction false} PassedNotYet(s: Schema, values: Overrides, e: Engine, start: Context, n: nat, j: nat)
    requires s.Listed() && s.Distinct() && n <= j < |s.order|
    requires forall k :: k in start <==> k in s.defs
    ensures s.order[j] in start
    ensures Passed(s, values, e, start, n).0[s.order[j]] == start[s.order[j]]
    ensures s.order[j] !in Passed(s, values, e, start, n).1
  {
    if n > 0 {
      PassedNotYet(s, values, e, start, n - 1, j);
      assert s.order[n - 1] != s.order[j];
      FormulaStepFrame(s, values, e, s.order[n - 1], Passed(s, values, e, start, n - 1), s.order[j]);
    }
  }

  /** `a` and `b` hold the same entry for `k`, and the same error or none. */
  predicate SameEntry(a: (Context, Errors), b: (Context, Errors), k: string) {
    && k in a.0 && k in b.0 && a.0[k] == b.0[k]
    && (k in a.1 <==> k in b.1)
    && (k in a.1 ==> a.1[k] == b.1[k])
  }

  lemma SameEntryTrans(a: (Context, Errors), b: (Context, Errors), c: (Context, Errors), k: string)
    requires SameEntry(a, b, k) && SameEntry(b, c, k)
    ensures SameEntry(a, c, k)
  {
  }

  /** Once the second pass has visited name `order[j]`, later steps leave its entry and its error alone. */
  lemma {:induction false} PassedSettled(s: Schema, values: Overrides, e: Engine, start: Context, n: nat, j: nat)
    requires s.Listed() && s.Distinct() && j < n <= |s.order|
    requires forall k :: k in start <==> k in s.defs
    ensures SameEntry(Passed(s, values, e, start, n), Passed(s, values, e, start, j + 1), s.order[j])
  {
    var k := s.order[j];
    assert k in start;
    if n > j + 1 {
      PassedSettled(s, values, e, start, n - 1, j);
      assert s.order[n - 1] != k;
      PassedStepFrame(s, values, e, start, n, k);
      SameEntryTrans(Passed(s, values, e, start, n), Passed(s, values, e, start, n - 1), Passed(s, values, e, start, j + 1), k);
    }
  }

  /** Pass step `n` leaves every name but its own as it was. */
  lemma PassedStepFrame(s: Schema, values: Overrides, e: Engine, start: Context, n: nat, x: string)
    requires s.Listed() && 0 < n <= |s.order| && x != s.order[n - 1]
    ensures x in Passed(s, values, e, start, n - 1).0 ==>
              SameEntry(Passed(s, values, e, start, n), Passed(s, values, e, start, n - 1), x)
  {
    FormulaStepFrame(s, values, e, s.order[n - 1], Passed(s, values, e, start, n - 1), x);
  }

  /**
   * The context formula `order[j]` is evaluated against: names before it hold
   * their final entries, names from it on still hold what the first pass
   * stored, which is `null` for every formula.
   */
  lemma FormulaSees(s: Schema, values: Overrides, e: Engine, j: nat, i: nat)
    requires s.Valid() && j < |s.order| && i < |s.order|
    ensures var seen := Passed(s, values, e, Seeded(s, values), j).0;
            var k := s.order[i];
            && k in seen
            && (i < j ==> seen[k] == Resolve(s, values, e).0[k])
            && (i >= j ==> seen[k] == SeedValue(Raw(s, values, k)))
  {
    var start := Seeded(s, values);
    if i < j {
      PassedSettled(s, values, e, start, j, i);
      PassedSettled(s, values, e, start, |s.order|, i);
    } else {
      PassedNotYet(s, values, e, start, j, i);
    }
  }

  /** The final entry of formula `order[j]` is what `evaluateExpression` made of it in that context. */
  lemma FormulaResult(s: Schema, values: Overrides, e: Engine, j: nat)
    requires s.Valid() && j < |s.order|
    requires StartsWithParen(Raw(s, values, s.order[j]))
    ensures var k := s.order[j];
            var r := EvaluateExpression(Raw(s, values, k), Passed(s, values, e, Seeded(s, values), j).0, e);
            && Resolve(s, values, e).0[k] == (if r.Failed? then Null else r.value)
            && (k in Resolve(s, values, e).1 <==> r.Failed?)
  {
    var start := Seeded(s, values);
    var k := s.order[j];
    var acc := Passed(s, values, e, start, j);
    var r := EvaluateExpression(Raw(s, values, k), acc.0, e);
    PassedNotYet(s, values, e, start, j, j);
    var after := Passed(s, values, e, start, j + 1);
    assert after == Record(acc, k, r);
    assert after.0[k] == (if r.Failed? then Null else r.value);
    assert k in after.1 <==> r.Failed?;
    PassedSettled(s, values, e, start, |s.order|, j);
  }

  /** A name that is not a formula keeps the value the first pass gave it. */
  lemma PlainValueKept(s: Schema, values: Overrides, e: Engine, k: string)
    requires s.Valid() && k in s.defs
    requires !StartsWithParen(Raw(s, values, k))
    ensures Resolve(s, values, e).0[k] == Raw(s, values, k)
    ensures k !in Resolve(s, values, e).1
  {
    var j := IndexOf(s, k);
    var start := Seeded(s, values);
    PassedNotYet(s, values, e, start, j, j);
    PassedSettled(s, values, e, start, |s.order|, j);
  }

  /** An error is recorded exactly for the formulas whose entry ends up `null`. */
  lemma ErrorsMeanNull(s: Schema, values: Overrides, e: Engine)
    requires s.Valid()
    ensures forall k :: k in s.defs ==>
              (k in Resolve(s, values, e).1 <==> StartsWithParen(Raw(s, values, k)) && Resolve(s, values, e).0[k] == Null)
  {
    forall k | k in s.defs
      ensures k in Resolve(s, values, e).1 <==> StartsWithParen(Raw(s, values, k)) && Resolve(s, values, e).0[k] == Null
    {
      if StartsWithParen(Raw(s, values, k)) {
        var j := IndexOf(s, k);
        FormulaResult(s, values, e, j);
      } else {
        PlainValueKept(s, values, e, k);
      }
    }
  }

  /** No entry of the resolved context is `undefined`, so a row always shows its context entry. */
  lemma ResolvedDefined(s: Schema, values: Overrides, e: Engine, k: string)
    requires s.Valid() && k in s.defs
    ensures k in Resolve(s, values, e).0 && Resolve(s, values, e).0[k] != Undefined
  {
    if StartsWithParen(Raw(s, values, k)) {
      var j := IndexOf(s, k);
      FormulaResult(s, values, e, j);
    } else {
      PlainValueKept(s, values, e, k);
    }
  }

  /** A value that starts with `(` but, trimmed, does not end with `)` is kept as the raw string, with no error. */
  lemma UnclosedFormulaKept(s: Schema, values: Overrides, e: Engine, k: string)
    requires s.Valid() && k in s.defs
    requires StartsWithParen(Raw(s, values, k)) && !EndsWithChar(Trim(Raw(s, values, k).s), ')')
    ensures Resolve(s, values, e).0[k] == Raw(s, values, k)
    ensures k !in Resolve(s, values, e).1
  {
    var j := IndexOf(s, k);
    FormulaResult(s, values, e, j);
  }

  /** A formula written with a leading space fails the untrimmed `(` test and stays the raw string. */
  lemma IndentedFormulaNotEvaluated(s: Schema, values: Overrides, e: Engine, k: string, formula: string)
    requires s.Valid() && k in s.defs
    requires Raw(s, values, k) == Str(" " + formula)
    ensures Resolve(s, values, e).0[k] == Str(" " + formula)
  {
    PlainValueKept(s, values, e, k);
  }

  /** An override that is not a `(` string, such as a number typed into the field, stops the formula being evaluated. */
  lemma OverrideSuppressesFormula(s: Schema, values: Overrides, e: Engine, k: string, v: JsValue)
    requires s.Valid() && k in s.defs
    requires v != Undefined && !StartsWithParen(v)
    ensures Resolve(s, values[k := v], e).0[k] == v
    ensures k !in Resolve(s, values[k := v], e).1
  {
    PlainValueKept(s, values[k := v], e, k);
  }

  /** `handleValueChange(key, v)` changes the raw value of `key` alone. */
  lemma ChangeTouchesOneKey(s: Schema, values: Overrides, key: string, v: JsValue, k: string)
    requires k in s.defs && v != Undefined
    ensures Raw(s, values[key := v], k) == if k == key then v else Raw(s, values, k)
  {
  }

  /** After the reset every raw value is the parameter's `Default`, or `''` without one. */
  lemma ResetRestoresDefaults(s: Schema, k: string)
    requires k in s.defs
    ensures Raw(s, map[], k) == if s.defs[k].Default != Undefined then s.defs[k].Default else Str("")
  {
  }

  /** `isVisible(condition)`: hidden only when a present condition runs and returns a falsy value. */
  predicate IsVisible(condition: JsValue, context: Context, e: Engine) {
    if !Truthy(condition) then true
    else
      match e.run(ToJsString(condition, e), context)
      case Returned(v) => Truthy(v)
      case Thrown(_) => true
  }

  /** A missing or falsy condition shows the row, and so does one that throws. */
  lemma VisibilityFailsOpen(condition: JsValue, context: Context, e: Engine)
    ensures !Truthy(condition) ==> IsVisible(condition, context, e)
    ensures e.run(ToJsString(condition, e), context).Thrown? ==> IsVisible(condition, context, e)
    ensures !IsVisible(condition, context, e) <==>
              && Truthy(condition)
              && e.run(ToJsString(condition, e), context).Returned?
              && !Truthy(e.run(ToJsString(condition, e), context).value)
  {
  }

  /**
   * `param.Type?.toLowerCase()` does not throw: the type is absent, `null` or
   * a string. Any other value has no `toLowerCase` method, and calling it throws.
   */
  predicate TypeReadable(p: Param) {
    p.Type.Undefined? || p.Type.Null? || p.Type.Str?
  }

  /** `param.Type?.toLowerCase() || 'string'`, for a type it can read. */
  function FieldType(p: Param): (t: string)
    requires TypeReadable(p)
    ensures t != "" && Lower(t) == t
    ensures p.Type.Str? && p.Type.s != "" ==> t == Lower(p.Type.s)
  {
    LowerIdempotent(if p.Type.Str? then p.Type.s else "");
    if p.Type.Str? && Lower(p.Type.s) != "" then Lower(p.Type.s) else "string"
  }

  /** `v?.[i]`. */
  function IndexOrUndefined(v: JsValue, i: nat): JsValue {
    match v
    case Arr(_, items) => DynamicField.Item(items, i)
    case Str(s) => if i < |s| then Str([s[i]]) else Undefined
    case _ => Undefined
  }

  /** The `parameter` prop the row hands to its field. */
  function FieldFor(p: Param, invalid: bool): DynamicField.FieldSpec
    requires TypeReadable(p)
  {
    DynamicField.FieldSpec(FieldType(p), p.Range, IndexOrUndefined(p.Range, 0), IndexOrUndefined(p.Range, 1),
                           Undefined, p.Options, invalid)
  }

  /** One rendered row; `unit` is the `Unit` shown after the field, when it is truthy. */
  datatype Row = Row(key: string, value: JsValue, invalid: bool, error: Option<string>, field: DynamicField.FieldSpec,
                     unit: Option<JsValue>)

  /** `isExpressionInvalid`: a `(` value whose entry is `null`. */
  predicate ExpressionInvalid(raw: JsValue, current: JsValue) {
    StartsWithParen(raw) && current == Null
  }

  function RowFor(s: Schema, values: Overrides, context: Context, errors: Errors, k: string): Row
    requires k in s.defs && k in context && TypeReadable(s.defs[k])
  {
    var raw := Raw(s, values, k);
    var current := if context[k] != Undefined then context[k] else raw;
    var invalid := ExpressionInvalid(raw, current);
    Row(k, current, invalid, if k in errors then Some(errors[k]) else None, FieldFor(s.defs[k], invalid),
        if Truthy(s.defs[k].Unit) then Some(s.defs[k].Unit) else None)
  }

  /**
   * The field a row hands its parameter to throws while rendering: its
   * options are not an array. The flag `isExpressionInvalid` plays no part.
   */
  predicate FieldThrows(p: Param)
    requires TypeReadable(p)
  {
    DynamicField.Throws(FieldFor(p, false))
  }

  /** The row's `{param.Unit && <div>{param.Unit}</div>}` throws: a truthy `Unit` React does not accept as a child. */
  predicate UnitThrows(p: Param) {
    Truthy(p.Unit) && !ValidChild(p.Unit)
  }

  /**
   * Rendering row `k` throws: `param.Condition` is read from a `null`
   * definition, or a shown row's `Type` has no `toLowerCase`, or a shown
   * row's field throws, or a shown row's `Unit` is no valid child. There is
   * no error boundary, so any of these takes the whole form down.
   */
  predicate RowThrows(s: Schema, context: Context, e: Engine, k: string)
    requires k in s.defs
  {
    || k in s.nulls
    || (IsVisible(s.defs[k].Condition, context, e)
        && (!TypeReadable(s.defs[k]) || FieldThrows(s.defs[k]) || UnitThrows(s.defs[k])))
  }

  /** Some row callback for `keys` throws, and with it the whole render. */
  predicate RowsThrow(s: Schema, context: Context, e: Engine, keys: seq<string>)
    requires forall k :: k in keys ==> k in s.defs
  {
    exists k :: k in keys && RowThrows(s, context, e, k)
  }

  lemma NoThrowSplits(s: Schema, context: Context, e: Engine, keys: seq<string>)
    requires forall k :: k in keys ==> k in s.defs
    requires keys != [] && !RowsThrow(s, context, e, keys)
    ensures !RowThrows(s, context, e, keys[0]) && !RowsThrow(s, context, e, keys[1..])
  {
    assert keys[0] in keys;
    forall k | k in keys[1..]
      ensures !RowThrows(s, context, e, k)
    {
      assert k in keys;
    }
  }

  /** The names of `keys` whose condition shows them, in order. */
  function VisibleKeys(s: Schema, context: Context, e: Engine, keys: seq<string>): seq<string> {
    Filter(keys, k => k in s.defs && IsVisible(s.defs[k].Condition, context, e))
  }

  /** The rows for `keys`, in order, leaving out those whose condition hides them. */
  function RowsOf(s: Schema, values: Overrides, e: Engine, context: Context, errors: Errors, keys: seq<string>): seq<Row>
    requires forall k :: k in keys ==> k in s.defs && k in context
    requires !RowsThrow(s, context, e, keys)
  {
    if keys == [] then []
    else
      var k := keys[0];
      assert !RowThrows(s, context, e, k);
      (if IsVisible(s.defs[k].Condition, context, e) then [RowFor(s, values, context, errors, k)] else [])
      + RowsOf(s, values, e, context, errors, keys[1..])
  }

  /** The rows a render shows, when it does not throw. */
  function Rows(s: Schema, values: Overrides, e: Engine): seq<Row>
    requires s.Valid()
    requires !RowsThrow(s, Resolve(s, values, e).0, e, s.order)
  {
    var (context, errors) := Resolve(s, values, e);
    RowsOf(s, values, e, context, errors, s.order)
  }

  /** `RowFor` of each name of `shown`, in order. */
  function RowsFor(s: Schema, values: Overrides, context: Context, errors: Errors, shown: seq<string>): (rows: seq<Row>)
    requires forall k :: k in shown ==> k in s.defs && k in context && TypeReadable(s.defs[k])
    ensures |rows| == |shown|
    ensures forall i :: 0 <= i < |shown| ==> rows[i] == RowFor(s, values, context, errors, shown[i])
  {
    Map(shown, RowOf(s, values, context, errors))
  }

  /** The row callback, for the names it can render. */
  function RowOf(s: Schema, values: Overrides, context: Context, errors: Errors): string --> Row {
    k requires k in s.defs && k in context && TypeReadable(s.defs[k]) => RowFor(s, values, context, errors, k)
  }

  /** The rows are the visible names' rows, in order: one row per visible name of `keys`. */
  lemma {:induction false} RowsAreVisibleParameters(s: Schema, values: Overrides, e: Engine, context: Context,
                                                    errors: Errors, keys: seq<string>)
    requires forall k :: k in keys ==> k in s.defs && k in context
    requires !RowsThrow(s, context, e, keys)
    ensures forall k :: k in VisibleKeys(s, context, e, keys) ==> k in s.defs && k in context && TypeReadable(s.defs[k])
    ensures RowsOf(s, values, e, context, errors, keys) == RowsFor(s, values, context, errors, VisibleKeys(s, context, e, keys))
  {
    if keys != [] {
      var k := keys[0];
      NoThrowSplits(s, context, e, keys);
      RowsAreVisibleParameters(s, values, e, context, errors, keys[1..]);
      FilterIsOrderedFilter(keys, k => k in s.defs && IsVisible(s.defs[k].Condition, context, e));
      RowsStep(s, values, e, context, errors, keys);
    }
  }

  lemma RowsStep(s: Schema, values: Overrides, e: Engine, context: Context, errors: Errors, keys: seq<string>)
    requires keys != [] && forall k :: k in keys ==> k in s.defs && k in context
    requires !RowThrows(s, context, e, keys[0]) && !RowsThrow(s, context, e, keys[1..])
    requires forall k :: k in VisibleKeys(s, context, e, keys) ==> k in s.defs && k in context && TypeReadable(s.defs[k])
    requires forall k :: k in VisibleKeys(s, context, e, keys[1..]) ==> k in s.defs && k in context && TypeReadable(s.defs[k])
    requires RowsOf(s, values, e, context, errors, keys[1..]) == RowsFor(s, values, context, errors, VisibleKeys(s, context, e, keys[1..]))
    ensures RowsOf(s, values, e, context, errors, keys) == RowsFor(s, values, context, errors, VisibleKeys(s, context, e, keys))
  {
    var k := keys[0];
    var later := VisibleKeys(s, context, e, keys[1..]);
    var rest := RowsOf(s, values, e, context, errors, keys[1..]);
    if IsVisible(s.defs[k].Condition, context, e) {
      assert VisibleKeys(s, context, e, keys) == [k] + later;
      assert RowsOf(s, values, e, context, errors, keys) == [RowFor(s, values, context, errors, k)] + rest;
      assert ([k] + later)[0] == k && ([k] + later)[1..] == later;
    } else {
      assert VisibleKeys(s, context, e, keys) == later;
    }
  }

  /** A schema's rows follow its names: each visible parameter exactly once, in order. */
  lemma SchemaRows(s: Schema, values: Overrides, e: Engine)
    requires s.Valid()
    requires !RowsThrow(s, Resolve(s, values, e).0, e, s.order)
    ensures var (context, errors) := Resolve(s, values, e);
            var shown := VisibleKeys(s, context, e, s.order);
            && Subsequence(shown, s.order)
            && (forall k :: k in shown <==> k in s.defs && IsVisible(s.defs[k].Condition, context, e))
            && NoRepeats(shown)
            && (forall k :: k in shown ==> k in context && TypeReadable(s.defs[k]))
            && Rows(s, values, e) == RowsFor(s, values, context, errors, shown)
  {
    var (context, errors) := Resolve(s, values, e);
    RowsAreVisibleParameters(s, values, e, context, errors, s.order);
    FilterIsOrderedFilter(s.order, k => k in s.defs && IsVisible(s.defs[k].Condition, context, e));
    FilterKeepsNoRepeats(s.order, k => k in s.defs && IsVisible(s.defs[k].Condition, context, e));
  }


  /** A shown row displays its resolved context entry, and is marked invalid exactly when its formula recorded an error. */
  lemma RowShowsResolvedEntry(s: Schema, values: Overrides, e: Engine, k: string)
    requires s.Valid() && k in s.defs && TypeReadable(s.defs[k])
    ensures k in Resolve(s, values, e).0
    ensures var (context, errors) := Resolve(s, values, e);
            var row := RowFor(s, values, context, errors, k);
            && row.value == context[k]
            && (row.invalid <==> k in errors)
            && (row.error.Some? <==> k in errors)
  {
    ResolvedDefined(s, values, e, k);
    ErrorsMeanNull(s, values, e);
  }

  /** Two schemas over the same names with the same defaults seed the same context. */
  lemma SeededByDefaults(s: Schema, t: Schema, values: Overrides)
    requires forall k :: k in s.defs <==> k in t.defs
    requires forall k :: k in s.defs ==> s.defs[k].Default == t.defs[k].Default
    ensures Seeded(s, values) == Seeded(t, values)
  {
    assert forall k :: k in s.defs ==> Raw(s, values, k) == Raw(t, values, k);
  }

  lemma {:induction false} PassedByDefaults(s: Schema, t: Schema, values: Overrides, e: Engine, start: Context, n: nat)
    requires s.Listed() && t.Listed() && s.order == t.order && n <= |s.order|
    requires forall k :: k in s.defs <==> k in t.defs
    requires forall k :: k in s.defs ==> s.defs[k].Default == t.defs[k].Default
    ensures Passed(s, values, e, start, n) == Passed(t, values, e, start, n)
  {
    if n > 0 {
      PassedByDefaults(s, t, values, e, start, n - 1);
      var k := s.order[n - 1];
      assert Raw(s, values, k) == Raw(t, values, k);
    }
  }

  /**
   * Only the names, their order and their defaults decide the context:
   * conditions, types and the other attributes never feed back into it, so
   * hiding a row cannot change any value.
   */
  lemma ContextIgnoresConditions(s: Schema, t: Schema, values: Overrides, e: Engine)
    requires s.Valid() && t.Valid() && s.order == t.order
    requires forall k :: k in s.defs ==> k in t.defs && s.defs[k].Default == t.defs[k].Default
    ensures Resolve(s, values, e) == Resolve(t, values, e)
  {
    SeededByDefaults(s, t, values);
    PassedByDefaults(s, t, values, e, Seeded(s, values), |s.order|);
  }

  /**
   * What the component renders: a placeholder for an empty schema, `Crashed`
   * when rendering a row or its field throws (React then renders nothing of
   * the form), the rows otherwise.
   */
  datatype View = Placeholder | Form(rows: seq<Row>) | Crashed

  function ViewOf(s: Schema, values: Overrides, e: Engine): View
    requires s.Valid()
  {
    if s.order == [] then Placeholder
    else if RowsThrow(s, Resolve(s, values, e).0, e, s.order) then Crashed
    else Form(Rows(s, values, e))
  }

  /**
   * A non-empty form crashes exactly when some name is defined as `null`, or
   * some shown parameter has a `Type` other than a string, `null` or nothing,
   * or some shown parameter's field calls `map` on options that are not an
   * array, or some shown parameter's `Unit` is a child React refuses; a hidden
   * parameter's `Type`, `Options` and `Unit` are never read.
   */
  lemma RenderCrashes(s: Schema, values: Overrides, e: Engine)
    requires s.Valid() && s.order != []
    ensures var context := Resolve(s, values, e).0;
            ViewOf(s, values, e) == Crashed <==>
              || s.nulls != {}
              || (exists k :: k in s.order && IsVisible(s.defs[k].Condition, context, e) && !TypeReadable(s.defs[k]))
              || (exists k :: k in s.order && IsVisible(s.defs[k].Condition, context, e) && TypeReadable(s.defs[k])
                                           && FieldThrows(s.defs[k]))
              || (exists k :: k in s.order && IsVisible(s.defs[k].Condition, context, e) && UnitThrows(s.defs[k]))
  {
    var context := Resolve(s, values, e).0;
    if s.nulls != {} {
      var k :| k in s.nulls;
      assert RowThrows(s, context, e, k);
    }
  }

  /** One row that throws takes the whole form down. */
  lemma RowThrowCrashes(s: Schema, values: Overrides, e: Engine, k: string)
    requires s.Valid() && k in s.defs && RowThrows(s, Resolve(s, values, e).0, e, k)
    ensures ViewOf(s, values, e) == Crashed
  {
    assert k in s.order;
  }

  /** A `group` type whose `Options` is a number: the segmented control calls `map` on a number. */
  lemma GroupWithNumericOptionsThrows(p: Param)
    requires p.Type == Str("group") && p.Options == Int(5)
    ensures TypeReadable(p) && FieldThrows(p)
  {
    assert Lower("group") == "group" by {
      assert LowerChar('g') == 'g' && LowerChar('r') == 'r' && LowerChar('o') == 'o';
      assert LowerChar('u') == 'u' && LowerChar('p') == 'p';
    }
  }

  /** A shown `group` parameter whose `Options` is a number crashes the form. */
  lemma NumericOptionsCrash(s: Schema, values: Overrides, e: Engine, k: string)
    requires s.Valid() && k in s.defs && s.defs[k].Type == Str("group") && s.defs[k].Options == Int(5)
    requires IsVisible(s.defs[k].Condition, Resolve(s, values, e).0, e)
    ensures ViewOf(s, values, e) == Crashed
  {
    GroupWithNumericOptionsThrows(s.defs[k]);
    RowThrowCrashes(s, values, e, k);
  }

  /** A mapping is truthy and no valid child. */
  lemma ObjectUnitThrows(p: Param)
    requires p.Unit.Obj?
    ensures UnitThrows(p)
  {
  }

  /** A shown parameter whose `Unit` is a mapping, such as `{si: "V"}`, crashes the form. */
  lemma ObjectUnitCrashes(s: Schema, values: Overrides, e: Engine, k: string, r: nat)
    requires s.Valid() && k in s.defs && s.defs[k].Unit == Obj(r)
    requires IsVisible(s.defs[k].Condition, Resolve(s, values, e).0, e)
    ensures ViewOf(s, values, e) == Crashed
  {
    ObjectUnitThrows(s.defs[k]);
    RowThrowCrashes(s, values, e, k);
  }

  /** A row whose field and unit do not throw renders a widget and a unit React accepts, whatever its value and flag. */
  lemma RowFieldRenders(s: Schema, values: Overrides, context: Context, errors: Errors, e: Engine, k: string)
    requires k in s.defs && k in context && TypeReadable(s.defs[k]) && !FieldThrows(s.defs[k]) && !UnitThrows(s.defs[k])
    ensures var row := RowFor(s, values, context, errors, k);
            && DynamicField.Render(row.field, row.value, e) != DynamicField.Broken
            && (row.unit.Some? ==> ValidChild(row.unit.value))
  {
  }

  /** When the form renders, every field in it renders too (none is `Broken`), and every unit it shows is a valid child. */
  lemma FormFieldsRender(s: Schema, values: Overrides, e: Engine, i: nat)
    requires s.Valid() && ViewOf(s, values, e).Form? && i < |ViewOf(s, values, e).rows|
    ensures var row := ViewOf(s, values, e).rows[i];
            && DynamicField.Render(row.field, row.value, e) != DynamicField.Broken
            && (row.unit.Some? ==> ValidChild(row.unit.value))
  {
    var (context, errors) := Resolve(s, values, e);
    SchemaRows(s, values, e);
    var shown := VisibleKeys(s, context, e, s.order);
    var k := shown[i];
    assert k in shown;
    assert !RowThrows(s, context, e, k);
    RowFieldRenders(s, values, context, errors, e, k);
  }

  /** A numeric `Type` on a shown parameter crashes the form; on a hidden one it does not matter. */
  lemma NumericTypeCrashes(s: Schema, values: Overrides, e: Engine, k: string)
    requires s.Valid() && k in s.defs && s.defs[k].Type == Int(1)
    requires IsVisible(s.defs[k].Condition, Resolve(s, values, e).0, e)
    ensures ViewOf(s, values, e) == Crashed
  {
    NumberTypeUnreadable(s.defs[k]);
    RowThrowCrashes(s, values, e, k);
  }

  /** A number has no `toLowerCase`. */
  lemma NumberTypeUnreadable(p: Param)
    requires p.Type.Num?
    ensures !TypeReadable(p)
  {
  }

  /** The component: its `parameters` prop and its `values` state. */
  class DynamicUi {
    var parameters: Schema
    var values: Overrides

    constructor(parameters: Schema)
      ensures this.parameters == parameters && values == map[]
    {
      this.parameters := parameters;
      values := map[];
    }

    /** A new schema from the editor; the overrides are kept. */
    method SetParameters(parameters: Schema)
      modifies this
      ensures this.parameters == parameters && values == old(values)
    {
      this.parameters := parameters;
    }

    /** `handleValueChange(key, newValue)`. */
    method HandleValueChange(key: string, newValue: JsValue)
      modifies this
      ensures values == old(values)[key := newValue] && parameters == old(parameters)
    {
      values := values[key := newValue];
    }

    /** The reset button: `setValues({})`. */
    method Reset()
      modifies this
      ensures values == map[] && parameters == old(parameters)
    {
      values := map[];
    }

    /** One render: both passes over the current schema and overrides, then the visible rows. */
    method Render(e: Engine) returns (view: View)
      requires parameters.Valid()
      ensures view == ViewOf(parameters, values, e)
    {
      if parameters.order == [] {
        return Placeholder;
      }
      var context, errors := BuildContext(parameters, values, e);
      if RowsThrow(parameters, context, e, parameters.order) {
        return Crashed;
      }
      view := Form(RowsOf(parameters, values, e, context, errors, parameters.order));
    }
  }
}
