/**
 * The parsed YAML schema: a JavaScript object from parameter name to its
 * definition. `order` is the order `Object.entries` visits the names in;
 * `defs` gives each name's attributes. A definition is usually an object;
 * one written with nothing under its name is `null`, and those names are
 * `nulls`. Spreading `null` (`{ key, ...param }`) gives no attributes, so
 * their `defs` entry is `Empty`; reading an attribute of `null` directly
 * throws. A definition that is a number, string or array has none of
 * the attributes either, and reading them gives `undefined`: it is `Empty` too.
 */
module Schema {
  import opened Js

  /** One parameter's attributes; an attribute the YAML leaves out is `Undefined`. */
  datatype Param = Param(
    Default: JsValue,
    Condition: JsValue,
    Type: JsValue,
    Range: JsValue,
    Options: JsValue,
    Unit: JsValue,
    Description: JsValue,
    Formula: JsValue,
    IsCalculated: JsValue)

  datatype Schema = Schema(order: seq<string>, defs: map<string, Param>, nulls: set<string>) {

    /** An object's keys are distinct, and they are exactly the names it defines. */
    predicate Valid() {
      Distinct() && Listed() && Covered() && NullsDefined()
    }

    /** A name defined as `null` is a name of the object, with no attributes. */
    predicate NullsDefined() {
      forall k :: k in nulls ==> k in defs && defs[k] == Empty
    }

    /** No name occurs twice. */
    predicate Distinct() {
      forall i, j :: 0 <= i < j < |order| ==> order[i] != order[j]
    }

    /** Every defined name is listed. */
    predicate Covered() {
      forall k :: k in defs ==> k in order
    }

    /** Every listed name is defined. */
    predicate Listed() {
      forall i :: 0 <= i < |order| ==> order[i] in defs
    }
  }

  /** No attributes at all. */
  const Empty: Param := Plain(Undefined)

  /** A parameter with only a `Default`. */
  function Plain(default: JsValue): Param {
    Param(default, Undefined, Undefined, Undefined, Undefined, Undefined, Undefined, Undefined, Undefined)
  }

  /** The position of each name of a valid schema. */
  lemma IndexOf(s: Schema, k: string) returns (i: nat)
    requires s.Valid() && k in s.defs
    ensures i < |s.order| && s.order[i] == k
    ensures forall j :: 0 <= j < |s.order| && s.order[j] == k ==> j == i
  {
    i :| 0 <= i < |s.order| && s.order[i] == k;
  }
}
