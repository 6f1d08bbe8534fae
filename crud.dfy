/**
 * The backend's edits of the stored configuration: set one parameter's
 * value, delete a parameter, add a parameter. Each edit loads the stored
 * configuration, changes the first group with the requested id, and saves
 * it with the version raised by one only when the edit took effect; a
 * refused edit leaves the store as it was.
 */
module Crud {
  import opened Text
  import opened Js
  import opened Wrappers
  import opened Config

  /** The stored configuration: its groups and its version number. */
  datatype Configuration = Configuration(groups: seq<Group>, version: int)

  // ---------------------------------------------------------------------
  // Specification
  // ---------------------------------------------------------------------

  /** The index of the first group with id `id`, or `|groups|` when there is none. */
  function GroupIndex(groups: seq<Group>, id: string): nat {
    IndexWhere(groups, HasId(id))
  }

  /** The index of the first parameter with key `key`, or `|ps|` when there is none. */
  function KeyIndex(ps: seq<Parameter>, key: string): nat {
    IndexWhere(ps, KeyIs(key))
  }


  /** The groups after `update_parameter`, or `None` when nothing was updated. */
  function SetValue(groups: seq<Group>, id: string, key: string, v: JsValue): Option<seq<Group>> {
    var gi := GroupIndex(groups, id);
    if gi == |groups| then None
    else
      var ps := ParametersOf(groups[gi]);
      var pi := KeyIndex(ps, key);
      if pi == |ps| then None
      else Some(groups[gi := groups[gi].(parameters := Some(ps[pi := ps[pi].(value := v)]))])
  }

  /** The parameters whose key is not `key`, in order: the list comprehension of `delete_parameter`. */
  function WithoutKey(ps: seq<Parameter>, key: string): (r: seq<Parameter>)
    ensures |r| <= |ps|
  {
    if ps == [] then []
    else (if ps[0].key != key then [ps[0]] else []) + WithoutKey(ps[1..], key)
  }

  /** The groups after `delete_parameter`, or `None` when nothing was deleted. */
  function DeleteKey(groups: seq<Group>, id: string, key: string): Option<seq<Group>> {
    var gi := GroupIndex(groups, id);
    if gi == |groups| then None
    else
      var ps := ParametersOf(groups[gi]);
      var kept := WithoutKey(ps, key);
      if |kept| < |ps| then Some(groups[gi := groups[gi].(parameters := Some(kept))])
      else None
  }

  /** `add_parameter` appends to `group["parameters"]`, which raises when the first matching group has no such field. */
  predicate CanAdd(groups: seq<Group>, id: string) {
    GroupIndex(groups, id) < |groups| ==> groups[GroupIndex(groups, id)].parameters.Some?
  }

  /** The groups after `add_parameter`, or `None` when the group is missing or already has the key. */
  function AddTo(groups: seq<Group>, id: string, p: Parameter): Option<seq<Group>>
    requires CanAdd(groups, id)
  {
    var gi := GroupIndex(groups, id);
    if gi == |groups| then None
    else
      var ps := groups[gi].parameters.value;
      if exists q :: q in ps && q.key == p.key then None
      else Some(groups[gi := groups[gi].(parameters := Some(ps + [p]))])
  }

  // ---------------------------------------------------------------------
  // What the edits promise
  // ---------------------------------------------------------------------

  /**
   * `update_parameter` succeeds exactly when the first group with the id has
   * a parameter with the key; it then changes the value of the first such
   * parameter and nothing else, not even a later group with the same id.
   */
  lemma SetValueChangesOneValue(groups: seq<Group>, id: string, key: string, v: JsValue)
    ensures var gi := GroupIndex(groups, id);
            SetValue(groups, id, key, v).Some? <==>
              gi < |groups| && exists p :: p in ParametersOf(groups[gi]) && p.key == key
    ensures SetValue(groups, id, key, v).Some? ==>
              var r := SetValue(groups, id, key, v).value;
              var gi := GroupIndex(groups, id);
              var ps := ParametersOf(groups[gi]);
              var pi := KeyIndex(ps, key);
              && groups[gi].id == id
              && (forall j :: 0 <= j < gi ==> groups[j].id != id)
              && |r| == |groups|
              && (forall j :: 0 <= j < |groups| && j != gi ==> r[j] == groups[j])
              && r[gi].id == id && r[gi].caption == groups[gi].caption
              && r[gi].description == groups[gi].description
              && r[gi].parameters.Some? && |r[gi].parameters.value| == |ps|
              && ps[pi].key == key && (forall j :: 0 <= j < pi ==> ps[j].key != key)
              && r[gi].parameters.value[pi] == ps[pi].(value := v)
              && (forall j :: 0 <= j < |ps| && j != pi ==> r[gi].parameters.value[j] == ps[j])
  {
    IndexWhereIsFirst(groups, HasId(id));
    var gi := GroupIndex(groups, id);
    if gi < |groups| {
      var ps := ParametersOf(groups[gi]);
      IndexWhereIsFirst(ps, KeyIs(key));
      var pi := KeyIndex(ps, key);
      if pi < |ps| {
        assert ps[pi] in ps;
      }
    }
  }

  /** Setting the same value again changes nothing more. */
  lemma SetValueTwice(groups: seq<Group>, id: string, key: string, v: JsValue)
    requires SetValue(groups, id, key, v).Some?
    ensures SetValue(SetValue(groups, id, key, v).value, id, key, v) == SetValue(groups, id, key, v)
  {
    var r := SetValue(groups, id, key, v).value;
    var gi := GroupIndex(groups, id);
    var ps := ParametersOf(groups[gi]);
    var pi := KeyIndex(ps, key);
    IndexWhereIsFirst(groups, HasId(id));
    IndexWhereIsFirst(ps, KeyIs(key));
    GroupIndexFromFirst(r, id, gi);
    var ps' := ParametersOf(r[gi]);
    assert ps' == ps[pi := ps[pi].(value := v)];
    KeyIndexFromFirst(ps', key, pi);
    assert ps'[pi := ps'[pi].(value := v)] == ps';
    assert r[gi := r[gi].(parameters := Some(ps'))] == r;
  }

  /** A group that has the id and comes after every other group with it is the first one. */
  lemma GroupIndexFromFirst(groups: seq<Group>, id: string, i: nat)
    requires i < |groups| && groups[i].id == id
    requires forall j :: 0 <= j < i ==> groups[j].id != id
    ensures GroupIndex(groups, id) == i
  {
    IndexWhereIsFirst(groups, HasId(id));
  }

  lemma KeyIndexFromFirst(ps: seq<Parameter>, key: string, i: nat)
    requires i < |ps| && ps[i].key == key
    requires forall j :: 0 <= j < i ==> ps[j].key != key
    ensures KeyIndex(ps, key) == i
  {
    IndexWhereIsFirst(ps, KeyIs(key));
  }

  lemma {:induction false} WithoutKeyIsOrderedFilter(ps: seq<Parameter>, key: string)
    ensures forall p :: p in WithoutKey(ps, key) <==> p in ps && p.key != key
    ensures Subsequence(WithoutKey(ps, key), ps)
    ensures |WithoutKey(ps, key)| == |ps| - KeyCount(ps, key)
  {
    if ps != [] {
      WithoutKeyIsOrderedFilter(ps[1..], key);
      var rest := WithoutKey(ps[1..], key);
      assert ps == [ps[0]] + ps[1..];
      if ps[0].key != key {
        assert WithoutKey(ps, key)[1..] == rest;
      } else {
        assert WithoutKey(ps, key) == rest;
      }
    }
  }

  /**
   * `delete_parameter` succeeds exactly when the first group with the id
   * holds the key; it then removes every parameter with that key from that
   * group, keeps the others in order, and changes no other group.
   */
  lemma DeleteKeyRemovesAll(groups: seq<Group>, id: string, key: string)
    ensures var gi := GroupIndex(groups, id);
            DeleteKey(groups, id, key).Some? <==>
              gi < |groups| && exists p :: p in ParametersOf(groups[gi]) && p.key == key
    ensures DeleteKey(groups, id, key).Some? ==>
              var r := DeleteKey(groups, id, key).value;
              var gi := GroupIndex(groups, id);
              var ps := ParametersOf(groups[gi]);
              && groups[gi].id == id
              && |r| == |groups|
              && (forall j :: 0 <= j < |groups| && j != gi ==> r[j] == groups[j])
              && r[gi].id == id && r[gi].parameters.Some?
              && r[gi] == groups[gi].(parameters := r[gi].parameters)
              && (forall p :: p in r[gi].parameters.value <==> p in ps && p.key != key)
              && Subsequence(r[gi].parameters.value, ps)
              && KeyCount(r[gi].parameters.value, key) == 0
  {
    IndexWhereIsFirst(groups, HasId(id));
    var gi := GroupIndex(groups, id);
    if gi < |groups| {
      var ps := ParametersOf(groups[gi]);
      WithoutKeyIsOrderedFilter(ps, key);
      KeyCountZero(ps, key);
      KeyCountZero(WithoutKey(ps, key), key);
    }
  }

  /**
   * `add_parameter` succeeds exactly when the first group with the id lacks
   * the key; it then appends the parameter to that group, so the key occurs
   * there exactly once, and changes no other group.
   */
  lemma AddToAppends(groups: seq<Group>, id: string, p: Parameter)
    requires CanAdd(groups, id)
    ensures var gi := GroupIndex(groups, id);
            AddTo(groups, id, p).Some? <==>
              gi < |groups| && forall q :: q in ParametersOf(groups[gi]) ==> q.key != p.key
    ensures AddTo(groups, id, p).Some? ==>
              var r := AddTo(groups, id, p).value;
              var gi := GroupIndex(groups, id);
              && groups[gi].id == id
              && |r| == |groups|
              && (forall j :: 0 <= j < |groups| && j != gi ==> r[j] == groups[j])
              && r[gi].id == id
              && r[gi] == groups[gi].(parameters := Some(ParametersOf(groups[gi]) + [p]))
              && KeyCount(r[gi].parameters.value, p.key) == 1
  {
    IndexWhereIsFirst(groups, HasId(id));
    var gi := GroupIndex(groups, id);
    if gi < |groups| {
      var ps := ParametersOf(groups[gi]);
      KeyCountZero(ps, p.key);
      KeyCountAppend(ps, [p], p.key);
      assert KeyCount([p], p.key) == 1;
    }
  }

  /** Deleting the key just added restores the groups. */
  lemma AddThenDelete(groups: seq<Group>, id: string, p: Parameter)
    requires CanAdd(groups, id) && AddTo(groups, id, p).Some?
    ensures DeleteKey(AddTo(groups, id, p).value, id, p.key) == Some(groups)
  {
    var r := AddTo(groups, id, p).value;
    var gi := GroupIndex(groups, id);
    var ps := groups[gi].parameters.value;
    IndexWhereIsFirst(groups, HasId(id));
    GroupIndexFromFirst(r, id, gi);
    WithoutKeyOfAppended(ps, p);
    assert r[gi := r[gi].(parameters := Some(ps))] == groups;
  }

  lemma {:induction false} WithoutKeyOfAppended(ps: seq<Parameter>, p: Parameter)
    requires forall q :: q in ps ==> q.key != p.key
    ensures WithoutKey(ps + [p], p.key) == ps
  {
    if ps == [] {
      assert [] + [p] == [p];
    } else {
      assert (ps + [p])[1..] == ps[1..] + [p];
      WithoutKeyOfAppended(ps[1..], p);
      assert ps == [ps[0]] + ps[1..];
    }
  }

  // ---------------------------------------------------------------------
  // The store
  // ---------------------------------------------------------------------

  /** The row `global_config` of the configurations table; `None` when it is missing. */
  class Store {
    var config: Option<Configuration>

    constructor(config: Option<Configuration>)
      ensures this.config == config
    {
      this.config := config;
    }

    /** `[p for p in ps if p["key"] != key]`. */
    static method KeepOtherKeys(ps: seq<Parameter>, key: string) returns (kept: seq<Parameter>)
      ensures kept == WithoutKey(ps, key)
    {
      kept := [];
      var i := |ps|;
      while i > 0
        invariant 0 <= i <= |ps|
        invariant kept == WithoutKey(ps[i..], key)
      {
        i := i - 1;
        assert ps[i..][1..] == ps[i + 1..];
        if ps[i].key != key {
          kept := [ps[i]] + kept;
        }
      }
      assert ps[0..] == ps;
    }

    /** `any(p["key"] == key for p in ps)`. */
    static method HasKey(ps: seq<Parameter>, key: string) returns (found: bool)
      ensures found <==> exists q :: q in ps && q.key == key
    {
      var i := FindFirst(ps, KeyIs(key));
      IndexWhereIsFirst(ps, KeyIs(key));
      found := i < |ps|;
      if !found {
        assert forall q :: q in ps ==> q.key != key;
      }
    }

    /** `update_parameter`: the version rises by one exactly when a value was set. */
    method UpdateParameter(groupId: string, parameterKey: string, newValue: JsValue) returns (updated: bool)
      modifies this
      ensures old(config).None? ==> !updated && config == old(config)
      ensures old(config).Some? ==>
                var r := SetValue(old(config).value.groups, groupId, parameterKey, newValue);
                && updated == r.Some?
                && config == if updated then Some(Configuration(r.value, old(config).value.version + 1)) else old(config)
    {
      if config.None? {
        return false;
      }
      var groups := config.value.groups;
      updated := false;
      var gi := FindFirst(groups, HasId(groupId));
      if gi < |groups| {
        var params := ParametersOf(groups[gi]);
        var pi := FindFirst(params, KeyIs(parameterKey));
        if pi < |params| {
          params := params[pi := params[pi].(value := newValue)];
          groups := groups[gi := groups[gi].(parameters := Some(params))];
          updated := true;
        }
      }
      if !updated {
        return false;
      }
      config := Some(Configuration(groups, config.value.version + 1));
    }

    /** `delete_parameter`: the version rises by one exactly when the list got shorter. */
    method DeleteParameter(groupId: string, parameterKey: string) returns (deleted: bool)
      modifies this
      ensures old(config).None? ==> !deleted && config == old(config)
      ensures old(config).Some? ==>
                var r := DeleteKey(old(config).value.groups, groupId, parameterKey);
                && deleted == r.Some?
                && config == if deleted then Some(Configuration(r.value, old(config).value.version + 1)) else old(config)
    {
      if config.None? {
        return false;
      }
      var groups := config.value.groups;
      deleted := false;
      var gi := FindFirst(groups, HasId(groupId));
      if gi < |groups| {
        var originalLength := |ParametersOf(groups[gi])|;
        var kept := KeepOtherKeys(ParametersOf(groups[gi]), parameterKey);
        groups := groups[gi := groups[gi].(parameters := Some(kept))];
        deleted := |kept| < originalLength;
      }
      if !deleted {
        return false;
      }
      config := Some(Configuration(groups, config.value.version + 1));
    }

    /** `add_parameter`: the version rises by one exactly when the parameter was appended. */
    method AddParameter(groupId: string, p: Parameter) returns (added: bool)
      requires config.Some? ==> CanAdd(config.value.groups, groupId)
      modifies this
      ensures old(config).None? ==> !added && config == old(config)
      ensures old(config).Some? ==>
                var r := AddTo(old(config).value.groups, groupId, p);
                && added == r.Some?
                && config == if added then Some(Configuration(r.value, old(config).value.version + 1)) else old(config)
    {
      if config.None? {
        return false;
      }
      var groups := config.value.groups;
      added := false;
      var gi := FindFirst(groups, HasId(groupId));
      if gi < |groups| {
        var duplicate := HasKey(ParametersOf(groups[gi]), p.key);
        if duplicate {
          return false;
        }
        groups := groups[gi := groups[gi].(parameters := Some(groups[gi].parameters.value + [p]))];
        added := true;
      }
      if !added {
        return false;
      }
      config := Some(Configuration(groups, config.value.version + 1));
    }
  }
}
