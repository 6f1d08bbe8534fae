/**
 * The JavaScript values the components handle, and the few runtime rules
 * they depend on: truthiness, `===`, `String(v)`, `parseInt(s, 10)` and the
 * relational operator `<`.
 *
 * Numbers are exact reals plus the three non-finite values; IEEE-754
 * rounding and negative zero are not modelled. Arrays and objects are
 * compared by reference, as `===` does.
 */
module Js {
  import opened Text
  import opened Wrappers

  datatype Number = Finite(r: real) | PosInf | NegInf | NaN

  datatype JsValue =
    | Undefined
    | Null
    | Bool(b: bool)
    | Num(n: Number)
    | Str(s: string)
    | Arr(ref: nat, items: seq<JsValue>)
    | Obj(ref: nat)

  /** What running a piece of user-authored source produced: a value, or a thrown error's message. */
  datatype Outcome = Returned(value: JsValue) | Thrown(message: string)

  /** The variables handed to user-authored source, by name. */
  type Context = map<string, JsValue>

  /**
   * The parts of the JavaScript engine that this model does not define.
   * `run(src, ctx)` is `new Function(...keys, 'return ' + src)(...vals)` over the
   * keys and values of `ctx`; `numberText(x)` is `String(x)` for a finite number
   * that is not an integer below 10^21; `parseFloat` and `stringToNumber` are the
   * global `parseFloat` and the `ToNumber` conversion of a string; `parseJson`
   * is `JSON.parse`, `None` when it throws; `toFixed4(x)` is `x.toFixed(4)`;
   * `nullRead(name)` is the message of the `TypeError` thrown by reading
   * property `name` of `null`.
   */
  datatype Engine = Engine(
    run: (string, Context) -> Outcome,
    numberText: real -> string,
    parseFloat: string -> Number,
    stringToNumber: string -> Number,
    parseJson: string -> Option<JsValue>,
    toFixed4: Number -> string,
    nullRead: string -> string)

  function Int(n: int): JsValue {
    Num(Finite(n as real))
  }

  /** JavaScript's `ToBoolean`: what `if (v)`, `!v` and `v || w` test. */
  predicate Truthy(v: JsValue) {
    match v
    case Undefined => false
    case Null => false
    case Bool(b) => b
    case Num(n) => !(n.NaN? || n == Finite(0.0))
    case Str(s) => s != ""
    case Arr(_, _) => true
    case Obj(_) => true
  }

  /**
   * React accepts `v` as a child: anything but a plain object, and an array
   * only when each of its items is accepted. Any other child makes the render
   * throw.
   */
  predicate ValidChild(v: JsValue) {
    match v
    case Obj(_) => false
    case Arr(_, items) => forall i :: 0 <= i < |items| ==> ValidChild(items[i])
    case _ => true
  }

  /** `v` begins with `(`: the untrimmed formula test `typeof v === 'string' && v.startsWith('(')`. */
  predicate StartsWithParen(v: JsValue) {
    v.Str? && StartsWithChar(v.s, '(')
  }

  /** The trimmed text starts with `(` and ends with `)`: the shape both `evaluateExpression` copies accept as a formula. */
  predicate IsWrapped(s: string) {
    StartsWithChar(Trim(s), '(') && EndsWithChar(Trim(s), ')')
  }

  /** `trimmed.slice(1, -1).trim()`: the formula between the parentheses. */
  function FormulaBody(s: string): string
    requires IsWrapped(s)
  {
    var t := Trim(s);
    Trim(t[1..|t| - 1])
  }

  /** `typeof v === 'number' && !isNaN(v)`. */
  predicate IsValidNumber(v: JsValue) {
    v.Num? && !v.n.NaN?
  }

  /** `a === b`. */
  predicate StrictEquals(a: JsValue, b: JsValue) {
    match (a, b)
    case (Num(x), Num(y)) => !x.NaN? && x == y
    case (Arr(p, _), Arr(q, _)) => p == q
    case (Obj(p), Obj(q)) => p == q
    case (Arr(_, _), _) => false
    case (Obj(_), _) => false
    case (_, Arr(_, _)) => false
    case (_, Obj(_)) => false
    case _ => a == b
  }

  /** `Number.isInteger(x)` */
  predicate IsInteger(x: Number) {
    x.Finite? && x.r == x.r.Floor as real
  }

  function DigitChar(d: nat): (c: char)
    requires d < 10
    ensures IsDigit(c)
  {
    ('0' as int + d) as char
  }

  function DigitValue(c: char): (d: nat)
    requires IsDigit(c)
    ensures d < 10 && DigitChar(d) == c
  {
    c as int - '0' as int
  }

  predicate AllDigits(s: string) {
    forall k :: 0 <= k < |s| ==> IsDigit(s[k])
  }

  /** The decimal digits of `n`, without leading zeros. */
  function Digits(n: nat): (r: string)
    ensures r != [] && AllDigits(r)
    ensures r[0] == '0' ==> n == 0
  {
    if n < 10 then [DigitChar(n)] else Digits(n / 10) + [DigitChar(n % 10)]
  }

  /** The value of a string of decimal digits. */
  function DigitsValue(s: string): nat
    requires AllDigits(s)
  {
    if s == [] then 0 else DigitsValue(s[..|s| - 1]) * 10 + DigitValue(s[|s| - 1])
  }

  /** Reading back the digits of `n` gives `n`. */
  lemma {:induction false} DigitsRoundTrip(n: nat)
    ensures DigitsValue(Digits(n)) == n
  {
    if n >= 10 {
      var d := Digits(n);
      assert d[..|d| - 1] == Digits(n / 10);
      DigitsRoundTrip(n / 10);
    }
  }

  /** `String(n)` for an integer `n`: an optional minus sign and its digits. */
  function IntegerText(n: int): string {
    if n < 0 then "-" + Digits(-n) else Digits(n)
  }

  /** `String(x)` for a number. */
  function NumberToString(x: Number, e: Engine): string {
    match x
    case NaN => "NaN"
    case PosInf => "Infinity"
    case NegInf => "-Infinity"
    case Finite(r) =>
      if IsInteger(x) && -1000000000000000000000.0 < r < 1000000000000000000000.0
      then IntegerText(r.Floor)
      else e.numberText(r)
  }

  /** `String(v)`; an array is the `,`-joined text of its items, with `null` and `undefined` as empty. */
  function ToJsString(v: JsValue, e: Engine): string {
    match v
    case Undefined => "undefined"
    case Null => "null"
    case Bool(b) => if b then "true" else "false"
    case Num(x) => NumberToString(x, e)
    case Str(s) => s
    case Arr(_, items) => Join(ItemTexts(items, e), ",")
    case Obj(_) => "[object Object]"
  }

  function ItemTexts(items: seq<JsValue>, e: Engine): (r: seq<string>)
    ensures |r| == |items|
  {
    if items == [] then []
    else
      var first := if items[0].Undefined? || items[0].Null? then "" else ToJsString(items[0], e);
      [first] + ItemTexts(items[1..], e)
  }

  /** The longest prefix of `s` made of decimal digits. */
  function DigitPrefix(s: string): (r: string)
    ensures r <= s && AllDigits(r)
    ensures |r| < |s| ==> !IsDigit(s[|r|])
  {
    if s != [] && IsDigit(s[0]) then [s[0]] + DigitPrefix(s[1..]) else []
  }

  /**
   * `parseInt(s, 10)`: leading white space is skipped, one sign is read, and the
   * longest run of digits that follows is the value; with no digit it is `NaN`.
   */
  function ParseInt(s: string): (r: Number)
    ensures r.NaN? || IsInteger(r)
  {
    ParseSigned(TrimStart(s))
  }

  /** `parseInt` after the leading white space: a sign, then the digits. */
  function ParseSigned(t: string): (r: Number)
    ensures r.NaN? || IsInteger(r)
  {
    var negative := StartsWithChar(t, '-');
    var unsigned := if negative || StartsWithChar(t, '+') then t[1..] else t;
    var z := DigitPrefix(unsigned);
    if z == [] then NaN
    else
      var magnitude: int := DigitsValue(z);
      Finite((if negative then -magnitude else magnitude) as real)
  }

  lemma {:induction false} DigitPrefixOfDigits(d: string, rest: string)
    requires AllDigits(d)
    requires rest == [] || !IsDigit(rest[0])
    ensures DigitPrefix(d + rest) == d
  {
    if d != [] {
      assert (d + rest)[1..] == d[1..] + rest;
      DigitPrefixOfDigits(d[1..], rest);
    } else {
      assert d + rest == rest;
    }
  }

  /**
   * `parseInt` reads back the text `String` gives an integer, whatever
   * non-digit text follows it (`parseInt("12px")` is 12).
   */
  lemma {:induction false} ParseIntOfIntegerText(n: int, rest: string)
    requires rest == [] || !IsDigit(rest[0])
    ensures ParseInt(IntegerText(n) + rest) == Finite(n as real)
  {
    if n < 0 {
      ParseIntOfNegativeText(-n, rest);
    } else {
      ParseIntOfNonNegativeText(n, rest);
    }
  }

  lemma {:induction false} ParseIntOfNegativeText(m: nat, rest: string)
    requires m > 0
    requires rest == [] || !IsDigit(rest[0])
    ensures ParseInt("-" + Digits(m) + rest) == Finite(-(m as real))
  {
    var t := "-" + Digits(m) + rest;
    assert t[0] == '-';
    ParseIntOfUnpadded(t);
    NegativeText(m, rest);
  }

  lemma {:induction false} ParseIntOfNonNegativeText(m: nat, rest: string)
    requires rest == [] || !IsDigit(rest[0])
    ensures ParseInt(Digits(m) + rest) == Finite(m as real)
  {
    var t := Digits(m) + rest;
    assert t[0] == Digits(m)[0];
    ParseIntOfUnpadded(t);
    NonNegativeText(m, rest);
  }

  /** `parseInt` reads non-empty text that does not start with white space from its first character. */
  lemma {:induction false} ParseIntOfUnpadded(t: string)
    requires t != [] && !IsSpace(t[0])
    ensures ParseInt(t) == ParseSigned(t)
  {
  }

  lemma {:induction false} NonNegativeText(m: nat, rest: string)
    requires rest == [] || !IsDigit(rest[0])
    ensures ParseSigned(Digits(m) + rest) == Finite(m as real)
  {
    var d := Digits(m);
    DigitsRoundTrip(m);
    DigitPrefixOfDigits(d, rest);
    assert (d + rest)[0] == d[0];
  }

  lemma {:induction false} NegativeText(m: nat, rest: string)
    requires m > 0
    requires rest == [] || !IsDigit(rest[0])
    ensures ParseSigned("-" + Digits(m) + rest) == Finite(-(m as real))
  {
    var d := Digits(m);
    var t := "-" + d + rest;
    assert StartsWithChar(t, '-');
    assert DigitPrefix(t[1..]) == d by {
      assert t[1..] == d + rest;
      DigitPrefixOfDigits(d, rest);
    }
    assert DigitsValue(d) == m by { DigitsRoundTrip(m); }
  }

  /** `parseInt` finds no number in text that does not start, after white space and a sign, with a digit. */
  lemma ParseIntWithoutDigits(s: string)
    requires s == [] || (!IsDigit(s[0]) && !IsSpace(s[0]) && s[0] != '-' && s[0] != '+')
    ensures ParseInt(s) == NaN
  {
    assert TrimStart(s) == s;
    assert DigitPrefix(s) == [];
  }

  /** JavaScript's `ToNumber`, with an array or object first turned into its string. */
  function ToNumber(v: JsValue, e: Engine): Number {
    match v
    case Undefined => NaN
    case Null => Finite(0.0)
    case Bool(b) => Finite(if b then 1.0 else 0.0)
    case Num(x) => x
    case Str(s) => e.stringToNumber(s)
    case Arr(_, _) => e.stringToNumber(ToJsString(v, e))
    case Obj(_) => e.stringToNumber(ToJsString(v, e))
  }

  /** `x < y` on numbers: false whenever either is `NaN`. */
  predicate NumberLess(x: Number, y: Number) {
    match (x, y)
    case (NaN, _) => false
    case (_, NaN) => false
    case (Finite(a), Finite(b)) => a < b
    case (NegInf, NegInf) => false
    case (NegInf, _) => true
    case (_, PosInf) => !x.PosInf?
    case _ => false
  }

  /** `s < t` on strings: lexicographic order of the characters. */
  predicate StringLess(s: string, t: string) {
    if s == [] then t != []
    else if t == [] then false
    else if s[0] != t[0] then s[0] < t[0]
    else StringLess(s[1..], t[1..])
  }

  /** Arrays and objects compare as their `String` text. */
  function ToPrimitive(v: JsValue, e: Engine): (p: JsValue)
    ensures !p.Arr? && !p.Obj?
  {
    if v.Arr? || v.Obj? then Str(ToJsString(v, e)) else v
  }

  /** `a < b`: two strings compare as strings, anything else as numbers. */
  predicate LessThan(a: JsValue, b: JsValue, e: Engine) {
    var pa := ToPrimitive(a, e);
    var pb := ToPrimitive(b, e);
    if pa.Str? && pb.Str? then StringLess(pa.s, pb.s)
    else NumberLess(ToNumber(pa, e), ToNumber(pb, e))
  }

  /** `null` counts as 0 in a comparison with a number: `null < 1` holds. */
  lemma NullBelowPositive(r: real, e: Engine)
    requires r > 0.0
    ensures LessThan(Null, Num(Finite(r)), e)
    ensures !LessThan(Num(Finite(r)), Null, e)
  {
  }

  /** `NaN` is below nothing and nothing is below it. */
  lemma NaNIsUnordered(v: JsValue, e: Engine)
    ensures !LessThan(Num(NaN), v, e) && !LessThan(v, Num(NaN), e)
  {
  }

  /** `<` on numbers is a strict order. */
  lemma NumberLessIsStrict(x: Number, y: Number, z: Number)
    ensures !NumberLess(x, x)
    ensures NumberLess(x, y) ==> !NumberLess(y, x)
    ensures NumberLess(x, y) && NumberLess(y, z) ==> NumberLess(x, z)
  {
  }
}
