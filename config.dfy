/**
 * The stored configuration that the backend edits and the parameter list
 * shows: a list of groups, each holding a list of parameters.
 */
module Config {
  import opened Js
  import opened Wrappers

  /**
   * One parameter as stored: its key, its label (`caption`), optional
 * description and value;
   * `attributes` stands for every other field (type, options, range, ...),
   * which the operations here carry along untouched.
   */
  datatype Parameter = Parameter(
    key: string,
    caption: string,
    description: Option<string>,
    value: JsValue,
    attributes: map<string, JsValue>)

  /** One group, its label being `caption`; `parameters` is `None` when the stored group has no such field. */
  datatype Group = Group(
    id: string,
    caption: string,
    description: Option<string>,
    parameters: Option<seq<Parameter>>)

  /** The test `g.id === id` (`g["id"] == id`). */
  function HasId(id: string): Group -> bool {
    (g: Group) => g.id == id
  }

  /** The test `p["key"] == key`. */
  function KeyIs(key: string): Parameter -> bool {
    (p: Parameter) => p.key == key
  }

  /** `group.get("parameters", [])`. */
  function ParametersOf(g: Group): seq<Parameter> {
    if g.parameters.Some? then g.parameters.value else []
  }

  /** The number of parameters in `ps` with key `key`. */
  function KeyCount(ps: seq<Parameter>, key: string): (n: nat)
    ensures n <= |ps|
  {
    if ps == [] then 0 else (if ps[0].key == key then 1 else 0) + KeyCount(ps[1..], key)
  }

  lemma {:induction false} KeyCountZero(ps: seq<Parameter>, key: string)
    ensures KeyCount(ps, key) == 0 <==> forall p :: p in ps ==> p.key != key
  {
    if ps != [] {
      KeyCountZero(ps[1..], key);
      assert ps == [ps[0]] + ps[1..];
    }
  }

  lemma {:induction false} KeyCountAppend(a: seq<Parameter>, b: seq<Parameter>, key: string)
    ensures KeyCount(a + b, key) == KeyCount(a, key) + KeyCount(b, key)
  {
    if a != [] {
      assert (a + b)[1..] == a[1..] + b;
      KeyCountAppend(a[1..], b, key);
    } else {
      assert a + b == b;
    }
  }
}
