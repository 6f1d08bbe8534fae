/**
 * The list of stored parameters, group by group: which groups are shown
 * for the selected group and the search term, which groups are expanded,
 * and the single parameter being edited.
 */
module ParameterList {
  import opened Text
  import opened Js
  import opened Wrappers
  import opened Config

  // ---------------------------------------------------------------------
  // Search
  // ---------------------------------------------------------------------

  /** The lower-cased search term occurs in the lower-cased `field`. */
  predicate FieldMatches(field: string, term: string) {
    Contains(Lower(field), Lower(term))
  }

  /** A parameter matches when its key, label, description (when it has one) or value as text contains the term. */
  predicate Matches(p: Parameter, term: string, e: Engine) {
    || FieldMatches(p.key, term)
    || FieldMatches(p.caption, term)
    || (p.description.Some? && p.description.value != "" && FieldMatches(p.description.value, term))
    || FieldMatches(ToJsString(p.value, e), term)
  }

  function KeepMatching(ps: seq<Parameter>, term: string, e: Engine): (r: seq<Parameter>)
    ensures |r| <= |ps|
  {
    if ps == [] then []
    else (if Matches(ps[0], term, e) then [ps[0]] else []) + KeepMatching(ps[1..], term, e)
  }

  /** `filterParameters(parameters)`: everything for an empty search, else the matching parameters. */
  function FilterParameters(ps: seq<Parameter>, term: string, e: Engine): seq<Parameter> {
    if term == "" then ps else KeepMatching(ps, term, e)
  }

  lemma {:induction false} KeepMatchingIsOrderedFilter(ps: seq<Parameter>, term: string, e: Engine)
    ensures forall p :: p in KeepMatching(ps, term, e) <==> p in ps && Matches(p, term, e)
    ensures Subsequence(KeepMatching(ps, term, e), ps)
  {
    if ps != [] {
      KeepMatchingIsOrderedFilter(ps[1..], term, e);
      var rest := KeepMatching(ps[1..], term, e);
      assert ps == [ps[0]] + ps[1..];
      if Matches(ps[0], term, e) {
        assert KeepMatching(ps, term, e)[1..] == rest;
      } else {
        assert KeepMatching(ps, term, e) == rest;
      }
    }
  }

  /**
   * With an empty search every parameter is listed; otherwise exactly the
   * matching ones, in their stored order.
   */
  lemma FilterParametersSpec(ps: seq<Parameter>, term: string, e: Engine)
    ensures term == "" ==> FilterParameters(ps, term, e) == ps
    ensures forall p :: p in FilterParameters(ps, term, e) <==> p in ps && (term == "" || Matches(p, term, e))
    ensures Subsequence(FilterParameters(ps, term, e), ps)
  {
    KeepMatchingIsOrderedFilter(ps, term, e);
    if term == "" {
      SubsequenceOfItself(ps);
    }
  }

  lemma {:induction false} SubsequenceOfItself(ps: seq<Parameter>)
    ensures Subsequence(ps, ps)
  {
    if ps != [] {
      SubsequenceOfItself(ps[1..]);
    }
  }

  /** A key matches a term exactly when the term, lower-cased, occurs somewhere in the lower-cased key. */
  lemma KeyMatchIsSubstring(key: string, term: string)
    ensures FieldMatches(key, term) <==> exists i: nat :: OccursAt(Lower(key), Lower(term), i)
  {
    ContainsIffOccurs(Lower(key), Lower(term));
  }

  /** The search ignores the case of ASCII letters in the term. */
  lemma SearchIgnoresCase(p: Parameter, term: string, e: Engine)
    ensures Matches(p, term, e) <==> Matches(p, Lower(term), e)
  {
    LowerIdempotent(term);
  }

  // ---------------------------------------------------------------------
  // Groups
  // ---------------------------------------------------------------------

  /** The group selection that shows every group. */
  const AllGroups: string := "all"

  /** `groups.filter(g => g.id === selectedGroup)`. */
  function GroupsWithId(groups: seq<Group>, selected: string): seq<Group> {
    Filter(groups, HasId(selected))
  }

  /** `filteredGroups`. */
  function FilteredGroups(groups: seq<Group>, selected: string): seq<Group> {
    if selected == AllGroups then groups else GroupsWithId(groups, selected)
  }

  /** Exactly the groups with the selected id, in order, as often as they occur. */
  lemma GroupsWithIdSpec(groups: seq<Group>, selected: string)
    ensures forall g :: g in GroupsWithId(groups, selected) <==> g in groups && g.id == selected
    ensures Subsequence(GroupsWithId(groups, selected), groups)
    ensures forall g :: multiset(GroupsWithId(groups, selected))[g] == if g.id == selected then multiset(groups)[g] else 0
  {
    FilterIsOrderedFilter(groups, HasId(selected));
  }

  /** `'all'` selects every group; any other selection exactly the groups with that id, in order. */
  lemma FilteredGroupsSpec(groups: seq<Group>, selected: string)
    ensures selected == AllGroups ==> FilteredGroups(groups, selected) == groups
    ensures selected != AllGroups ==>
              (forall g :: g in FilteredGroups(groups, selected) <==> g in groups && g.id == selected)
              && Subsequence(FilteredGroups(groups, selected), groups)
  {
    GroupsWithIdSpec(groups, selected);
  }

  /** A group disappears when the search leaves none of its parameters and the search is not empty. */
  predicate Hidden(g: Group, term: string, e: Engine)
    requires g.parameters.Some?
  {
    |FilterParameters(g.parameters.value, term, e)| == 0 && term != ""
  }

  predicate AllHaveParameters(groups: seq<Group>) {
    forall g :: g in groups ==> g.parameters.Some?
  }

  /** The groups drawn, in order: `map` returns `null` for a hidden group. */
  function ShownGroups(groups: seq<Group>, term: string, e: Engine): (r: seq<Group>)
    requires AllHaveParameters(groups)
    ensures |r| <= |groups|
  {
    if groups == [] then []
    else (if Hidden(groups[0], term, e) then [] else [groups[0]]) + ShownGroups(groups[1..], term, e)
  }

  /** The groups drawn for a selection and a search. */
  function VisibleGroups(groups: seq<Group>, selected: string, term: string, e: Engine): seq<Group>
    requires AllHaveParameters(groups)
  {
    GroupsWithIdHaveParameters(groups, selected);
    ShownGroups(FilteredGroups(groups, selected), term, e)
  }

  lemma GroupsWithIdHaveParameters(groups: seq<Group>, selected: string)
    requires AllHaveParameters(groups)
    ensures AllHaveParameters(FilteredGroups(groups, selected))
  {
    GroupsWithIdSpec(groups, selected);
  }

  /** A group with parameters is drawn: the search is empty, or one of its parameters matches. */
  predicate Shows(g: Group, term: string, e: Engine) {
    g.parameters.Some? && (term == "" || exists p :: p in g.parameters.value && Matches(p, term, e))
  }

  function IsShown(term: string, e: Engine): Group -> bool {
    (g: Group) => Shows(g, term, e)
  }

  lemma HiddenIffNotShown(g: Group, term: string, e: Engine)
    requires g.parameters.Some?
    ensures Hidden(g, term, e) <==> !Shows(g, term, e)
  {
    KeepMatchingIsOrderedFilter(g.parameters.value, term, e);
    if term != "" && !Hidden(g, term, e) {
      var p := KeepMatching(g.parameters.value, term, e)[0];
      assert p in KeepMatching(g.parameters.value, term, e);
    }
  }

  /** Leaving out the hidden groups is filtering by `Shows`. */
  lemma {:induction false} ShownGroupsIsFilter(groups: seq<Group>, term: string, e: Engine)
    requires AllHaveParameters(groups)
    ensures ShownGroups(groups, term, e) == Filter(groups, IsShown(term, e))
  {
    if groups != [] {
      ShownGroupsIsFilter(groups[1..], term, e);
      HiddenIffNotShown(groups[0], term, e);
    }
  }

  /**
   * The groups drawn are exactly those whose search finds a parameter (all
   * of them for an empty search), in their order and as often as they occur.
   */
  lemma ShownGroupsSpec(groups: seq<Group>, term: string, e: Engine)
    requires AllHaveParameters(groups)
    ensures forall g :: g in ShownGroups(groups, term, e) <==>
              g in groups && (term == "" || exists p :: p in g.parameters.value && Matches(p, term, e))
    ensures Subsequence(ShownGroups(groups, term, e), groups)
    ensures forall g :: g in groups ==>
              multiset(ShownGroups(groups, term, e))[g] == if Shows(g, term, e) then multiset(groups)[g] else 0
  {
    ShownGroupsIsFilter(groups, term, e);
    FilterIsOrderedFilter(groups, IsShown(term, e));
  }

  /** The test a group passes to be drawn: selected, and shown by the search. */
  function IsDrawn(selected: string, term: string, e: Engine): Group -> bool {
    (g: Group) => (selected == AllGroups || g.id == selected) && Shows(g, term, e)
  }

  /** Selecting and then leaving out the hidden groups is one filter by `IsDrawn`. */
  lemma VisibleGroupsIsFilter(groups: seq<Group>, selected: string, term: string, e: Engine)
    requires AllHaveParameters(groups)
    ensures VisibleGroups(groups, selected, term, e) == Filter(groups, IsDrawn(selected, term, e))
  {
    GroupsWithIdHaveParameters(groups, selected);
    ShownGroupsIsFilter(FilteredGroups(groups, selected), term, e);
    if selected == AllGroups {
      FilterSameTest(groups, IsShown(term, e), IsDrawn(selected, term, e));
    } else {
      FilterOfFilter(groups, HasId(selected), IsShown(term, e));
      FilterSameTest(groups, Both(HasId(selected), IsShown(term, e)), IsDrawn(selected, term, e));
    }
  }

  /**
   * A group is drawn exactly when it is selected and the search is empty or
   * one of its parameters matches; the drawn groups keep their order and
   * multiplicity, and an empty search hides nothing.
   */
  lemma VisibleGroupsSpec(groups: seq<Group>, selected: string, term: string, e: Engine)
    requires AllHaveParameters(groups)
    ensures forall g :: g in VisibleGroups(groups, selected, term, e) <==>
              && g in groups
              && (selected == AllGroups || g.id == selected)
              && (term == "" || exists p :: p in g.parameters.value && Matches(p, term, e))
    ensures Subsequence(VisibleGroups(groups, selected, term, e), groups)
    ensures forall g :: g in groups ==>
              multiset(VisibleGroups(groups, selected, term, e))[g] ==
                if (selected == AllGroups || g.id == selected) && Shows(g, term, e) then multiset(groups)[g] else 0
    ensures term == "" ==> VisibleGroups(groups, selected, term, e) == FilteredGroups(groups, selected)
  {
    VisibleGroupsIsFilter(groups, selected, term, e);
    FilterIsOrderedFilter(groups, IsDrawn(selected, term, e));
    if term == "" {
      GroupsWithIdHaveParameters(groups, selected);
      NothingHiddenOnEmptySearch(FilteredGroups(groups, selected), e);
    }
  }

  lemma {:induction false} NothingHiddenOnEmptySearch(groups: seq<Group>, e: Engine)
    requires AllHaveParameters(groups)
    ensures ShownGroups(groups, "", e) == groups
  {
    if groups != [] {
      NothingHiddenOnEmptySearch(groups[1..], e);
      assert groups == [groups[0]] + groups[1..];
    }
  }

  // ---------------------------------------------------------------------
  // Expansion and editing
  // ---------------------------------------------------------------------

  /** `toggleGroup`'s new set: `id` added when absent, removed when present. */
  function Toggle(expanded: set<string>, id: string): set<string> {
    if id in expanded then expanded - {id} else expanded + {id}
  }

  /** Toggling flips the membership of that one id and of no other. */
  lemma ToggleFlipsOne(expanded: set<string>, id: string)
    ensures id in Toggle(expanded, id) <==> id !in expanded
    ensures forall x :: x != id ==> (x in Toggle(expanded, id) <==> x in expanded)
  {
  }

  /** Toggling the same group twice restores the set. */
  lemma ToggleTwice(expanded: set<string>, id: string)
    ensures Toggle(Toggle(expanded, id), id) == expanded
  {
    ToggleFlipsOne(expanded, id);
    ToggleFlipsOne(Toggle(expanded, id), id);
  }

  /** The edit slot's identifier, `${groupId}-${param.key}`. */
  function EditId(groupId: string, key: string): string {
    groupId + "-" + key
  }

  /** Two different parameters can share the edit identifier when a group id or key contains `-`. */
  lemma EditIdIsAmbiguous()
    ensures EditId("a-b", "c") == EditId("a", "b-c")
  {
  }

  class ListView {
    var expandedGroups: set<string>
    var editingParam: Option<string>
    var editValue: JsValue

    /** Every group starts expanded, and nothing is being edited. */
    constructor(groups: seq<Group>)
      ensures expandedGroups == set g | g in groups :: g.id
      ensures editingParam.None? && editValue == Null
    {
      expandedGroups := set g | g in groups :: g.id;
      editingParam := None;
      editValue := Null;
    }

    /** The row of `key` in group `groupId` shows the editor. */
    predicate IsEditing(groupId: string, key: string)
      reads this
    {
      editingParam == Some(EditId(groupId, key))
    }

    method ToggleGroup(groupId: string)
      modifies this`expandedGroups
      ensures expandedGroups == Toggle(old(expandedGroups), groupId)
    {
      var newExpanded := expandedGroups;
      if groupId in newExpanded {
        newExpanded := newExpanded - {groupId};
      } else {
        newExpanded := newExpanded + {groupId};
      }
      expandedGroups := newExpanded;
    }

    /** `startEdit`: this row shows the editor, seeded with the stored value. */
    method StartEdit(groupId: string, p: Parameter)
      modifies this`editingParam, this`editValue
      ensures IsEditing(groupId, p.key) && editValue == p.value
    {
      editingParam := Some(EditId(groupId, p.key));
      editValue := p.value;
    }

    /**
     * `saveEdit`: `request` is what is sent as the update; the slot is
     * cleared only when the update succeeded, and kept for another try
     * otherwise.
     */
    method SaveEdit(groupId: string, key: string, succeeded: bool) returns (request: (string, string, JsValue))
      modifies this`editingParam, this`editValue
      ensures request == (groupId, key, old(editValue))
      ensures succeeded ==> editingParam.None? && editValue == Null
      ensures !succeeded ==> editingParam == old(editingParam) && editValue == old(editValue)
    {
      request := (groupId, key, editValue);
      if succeeded {
        editingParam := None;
        editValue := Null;
      }
    }

    /** `cancelEdit`: no row shows the editor. */
    method CancelEdit()
      modifies this`editingParam, this`editValue
      ensures editingParam.None? && editValue == Null
      ensures forall g, k :: !IsEditing(g, k)
    {
      editingParam := None;
      editValue := Null;
    }
  }
}
