/**
 * One input field: how its type is normalised, how what the user enters is
 * converted before it is handed to `onChange`, how the numeric range check
 * sets the error flag, and which widget the `switch` on the type renders.
 */
module DynamicField {
  import opened Text
  import opened Js
  import opened Wrappers

  /**
   * The `parameter` prop. `typeName` is `""` when the type is missing; `Options`
   * and `options` are the two spellings the component accepts.
   */
  datatype FieldSpec = FieldSpec(
    typeName: string,
    Range: JsValue,
    min: JsValue,
    max: JsValue,
    Options: JsValue,
    options: JsValue,
    isExpressionInvalid: bool)

  /** What the input element reports on a change: its text and its checkbox state. */
  datatype FieldInput = FieldInput(text: string, checked: bool)

  /** The rendered widget. `Broken` stands for a render that throws (options that are not an array). */
  datatype Widget =
    | Segments(items: seq<JsValue>, active: seq<bool>)
    | Toggle
    | NumberBox(min: JsValue, max: JsValue, step: real, hasError: bool)
    | Dropdown(items: seq<JsValue>)
    | DateBox
    | JsonArea
    | TextBox
    | Broken

  /** `(type || 'string').toLowerCase()`. */
  function NormalizeType(t: string): (r: string)
    ensures r != "" && Lower(r) == r
    ensures t != "" ==> r == Lower(t)
    ensures t == "" ==> r == "string"
  {
    LowerIdempotent(if t == "" then "string" else t);
    Lower(if t == "" then "string" else t)
  }

  /** Normalising a normalised type changes nothing. */
  lemma NormalizeTypeIdempotent(t: string)
    ensures NormalizeType(NormalizeType(t)) == NormalizeType(t)
  {
  }

  predicate IsNumeric(t: string) {
    t == "number" || t == "double" || t == "integer"
  }

  /** `handleChange`: the value passed to `onChange` for a change event. */
  function Coerce(spec: FieldSpec, input: FieldInput, e: Engine): (r: JsValue)
    ensures NormalizeType(spec.typeName) == "integer" ==> r == Num(ParseInt(input.text))
    ensures NormalizeType(spec.typeName) in {"number", "double"} ==> r == Num(e.parseFloat(input.text))
    ensures NormalizeType(spec.typeName) == "boolean" ==> r == Bool(input.checked)
    ensures (!IsNumeric(NormalizeType(spec.typeName)) && NormalizeType(spec.typeName) != "boolean")
            ==> r == Str(input.text)
  {
    var t := NormalizeType(spec.typeName);
    if IsNumeric(t) then
      Num(if t == "integer" then ParseInt(input.text) else e.parseFloat(input.text))
    else if t == "boolean" then Bool(input.checked)
    else Str(input.text)
  }

  /** An integer field hands back, as a number, the integer typed into it. */
  lemma IntegerFieldReadsInteger(spec: FieldSpec, n: int, e: Engine)
    requires NormalizeType(spec.typeName) == "integer"
    ensures Coerce(spec, FieldInput(IntegerText(n), false), e) == Int(n)
  {
    ParseIntOfIntegerText(n, "");
    assert IntegerText(n) + "" == IntegerText(n);
  }

  /** An integer field with no leading digits hands back `NaN`, not 0. */
  lemma IntegerFieldWithoutDigitsIsNaN(spec: FieldSpec, text: string, e: Engine)
    requires NormalizeType(spec.typeName) == "integer"
    requires text == [] || (!IsDigit(text[0]) && !IsSpace(text[0]) && text[0] != '-' && text[0] != '+')
    ensures Coerce(spec, FieldInput(text, false), e) == Num(NaN)
  {
    ParseIntWithoutDigits(text);
  }

  /** `a[i]`, `undefined` past the end. */
  function Item(items: seq<JsValue>, i: nat): JsValue {
    if i < |items| then items[i] else Undefined
  }

  /** The lower bound: `Range[0]` when `Range` is an array, `min` otherwise. */
  function MinBound(spec: FieldSpec): JsValue {
    if spec.Range.Arr? then Item(spec.Range.items, 0) else spec.min
  }

  /** The upper bound: `Range[1]` when `Range` is an array, `max` otherwise. */
  function MaxBound(spec: FieldSpec): JsValue {
    if spec.Range.Arr? then Item(spec.Range.items, 1) else spec.max
  }

  /** `(min !== undefined && value < min) || (max !== undefined && value > max)`. */
  predicate OutOfRange(spec: FieldSpec, value: JsValue, e: Engine) {
    var lo := MinBound(spec);
    var hi := MaxBound(spec);
    (lo != Undefined && LessThan(value, lo, e)) || (hi != Undefined && LessThan(hi, value, e))
  }

  /** The numeric field's error flag. */
  predicate HasError(spec: FieldSpec, value: JsValue, e: Engine) {
    spec.isExpressionInvalid || OutOfRange(spec, value, e)
  }

  /** With a numeric `Range: [lo, hi]`, a finite value is out of range exactly when it lies outside `[lo, hi]`. */
  lemma RangeOfNumbers(spec: FieldSpec, ref: nat, lo: real, hi: real, v: real, e: Engine)
    requires spec.Range == Arr(ref, [Num(Finite(lo)), Num(Finite(hi))])
    ensures OutOfRange(spec, Num(Finite(v)), e) <==> v < lo || v > hi
    ensures HasError(spec, Num(Finite(v)), e) <==> spec.isExpressionInvalid || v < lo || v > hi
  {
  }

  /** `Range: [1, 100]` flags 150 and accepts 50. */
  lemma RangeExample(spec: FieldSpec, ref: nat, e: Engine)
    requires spec.Range == Arr(ref, [Int(1), Int(100)])
    ensures OutOfRange(spec, Int(150), e)
    ensures !OutOfRange(spec, Int(50), e)
  {
    RangeOfNumbers(spec, ref, 1.0, 100.0, 150.0, e);
    RangeOfNumbers(spec, ref, 1.0, 100.0, 50.0, e);
  }

  /** A failed formula leaves `null`, which compares as 0: a range above 0 flags it. */
  lemma NullIsBelowPositiveRange(spec: FieldSpec, ref: nat, lo: real, hi: JsValue, e: Engine)
    requires lo > 0.0
    requires spec.Range == Arr(ref, [Num(Finite(lo)), hi])
    ensures OutOfRange(spec, Null, e)
  {
    NullBelowPositive(lo, e);
  }

  /** `options.map(...)` over an array; anything else has no `map` and throws. */
  function OptionItems(v: JsValue): Option<seq<JsValue>> {
    if v.Arr? then Some(v.items) else None
  }

  /** `Options || options`, and `[]` when both are falsy. */
  function ChosenOptions(spec: FieldSpec): JsValue {
    if Truthy(spec.Options) then spec.Options
    else if Truthy(spec.options) then spec.options
    else Arr(0, [])
  }

  function SegmentsFor(items: seq<JsValue>, value: JsValue): (w: Widget)
    ensures w.Segments? && w.items == items && |w.active| == |items|
    ensures forall i :: 0 <= i < |items| ==> (w.active[i] <==> StrictEquals(value, items[i]))
  {
    Segments(items, seq(|items|, i requires 0 <= i < |items| => StrictEquals(value, items[i])))
  }

  /** The numeric widget, with `step` 1 for integers and 0.1 otherwise. */
  function NumberWidget(spec: FieldSpec, value: JsValue, e: Engine): Widget {
    NumberBox(MinBound(spec), MaxBound(spec),
              if NormalizeType(spec.typeName) == "integer" then 1.0 else 0.1,
              HasError(spec, value, e))
  }

  /** The types the `switch` has a case for. */
  const KnownTypes: set<string> :=
    {"group", "boolean", "number", "double", "integer", "select", "string", "date", "json"}

  /**
   * The render throws: a `group` field, or a `select`/`string` field with
   * truthy options, whose options are not an array and so have no `map`.
   */
  predicate Throws(spec: FieldSpec) {
    var t := NormalizeType(spec.typeName);
    && (t == "group" || ((t == "select" || t == "string") && (Truthy(spec.Options) || Truthy(spec.options))))
    && !ChosenOptions(spec).Arr?
  }

  /**
   * The `switch` on the normalised type, as written: `select` and `string`
   * without options fall through into the `date` case.
   */
  function Render(spec: FieldSpec, value: JsValue, e: Engine): (w: Widget)
    ensures w == Broken <==> Throws(spec)
    ensures NormalizeType(spec.typeName) == "group" ==>
      (if ChosenOptions(spec).Arr? then w == SegmentsFor(ChosenOptions(spec).items, value) else w.Broken?)
    ensures NormalizeType(spec.typeName) == "boolean" ==> w.Toggle?
    ensures IsNumeric(NormalizeType(spec.typeName)) ==>
      w == NumberBox(MinBound(spec), MaxBound(spec),
                     if NormalizeType(spec.typeName) == "integer" then 1.0 else 0.1,
                     HasError(spec, value, e))
    ensures NormalizeType(spec.typeName) in {"select", "string"} ==>
      if Truthy(spec.Options) || Truthy(spec.options)
      then (if ChosenOptions(spec).Arr? then w == Dropdown(ChosenOptions(spec).items) else w.Broken?)
      else w.DateBox?
    ensures NormalizeType(spec.typeName) == "date" ==> w.DateBox?
    ensures NormalizeType(spec.typeName) == "json" ==> w.JsonArea?
    ensures NormalizeType(spec.typeName) !in KnownTypes ==> w.TextBox?
  {
    var t := NormalizeType(spec.typeName);
    if t == "group" then
      match OptionItems(ChosenOptions(spec))
      case Some(items) => SegmentsFor(items, value)
      case None => Broken
    else if t == "boolean" then Toggle
    else if IsNumeric(t) then NumberWidget(spec, value, e)
    else if (t == "select" || t == "string") && (Truthy(spec.Options) || Truthy(spec.options)) then
      match OptionItems(ChosenOptions(spec))
      case Some(items) => Dropdown(items)
      case None => Broken
    else if t == "select" || t == "string" || t == "date" then DateBox
    else if t == "json" then JsonArea
    else TextBox
  }

  /** A plain string field, with no options, renders a date picker. */
  lemma StringWithoutOptionsIsDate(value: JsValue, e: Engine)
    ensures Render(FieldSpec("String", Undefined, Undefined, Undefined, Undefined, Undefined, false), value, e)
            == DateBox
  {
    assert Lower("String") == "string" by {
      assert LowerChar('S') == 's';
    }
  }

  /** The dispatch the comment on the fall-through describes: no options means a text input. */
  function IntendedRender(spec: FieldSpec, value: JsValue, e: Engine): (w: Widget)
    ensures NormalizeType(spec.typeName) in {"select", "string"} && !Truthy(spec.Options) && !Truthy(spec.options)
            ==> w == TextBox
    ensures !(NormalizeType(spec.typeName) in {"select", "string"}) || Truthy(spec.Options) || Truthy(spec.options)
            ==> w == Render(spec, value, e)
  {
    var t := NormalizeType(spec.typeName);
    if (t == "select" || t == "string") && !Truthy(spec.Options) && !Truthy(spec.options) then TextBox
    else Render(spec, value, e)
  }

  /** Clicking segment `i` hands `onChange` exactly that option. */
  function ClickSegment(w: Widget, i: nat): (r: JsValue)
    requires w.Segments? && i < |w.items|
    ensures r == w.items[i]
  {
    w.items[i]
  }

  /** Once the clicked option is the value, its segment is the active one (any option but `NaN`). */
  lemma ClickedSegmentIsActive(spec: FieldSpec, value: JsValue, i: nat, e: Engine)
    requires NormalizeType(spec.typeName) == "group" && ChosenOptions(spec).Arr?
    requires i < |ChosenOptions(spec).items|
    requires ChosenOptions(spec).items[i] != Num(NaN)
    ensures var clicked := ClickSegment(Render(spec, value, e), i);
            Render(spec, clicked, e).active[i]
  {
  }

  /** The JSON text area hands on the parsed value, or the raw text when it does not parse. */
  function JsonChange(text: string, e: Engine): (r: JsValue)
    ensures e.parseJson(text).Some? ==> r == e.parseJson(text).value
    ensures e.parseJson(text).None? ==> r == Str(text)
  {
    match e.parseJson(text)
    case Some(v) => v
    case None => Str(text)
  }
}
