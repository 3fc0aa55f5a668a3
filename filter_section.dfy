/** The filter bar: three ordered selections (survey tags, user tags, roles), each
    a list of `{label, value}` choices kept free of repeated values, an "Apply" that
    hands the selected values to the caller and a "Reset" that clears everything. */
module FilterSection {
  import opened Wrappers
  import opened Sequences

  /** One selectable entry of a dropdown: `{label, value}` (`label` is a Dafny keyword). */
  datatype Choice = Choice(caption: string, value: string)

  /** The two tag lists `handleAddTag` and `handleRemoveTag` choose between. */
  datatype TagKind = Survey | User

  /** What is handed to `setFilterParams`: `{}` after a reset, or the three value lists. */
  datatype FilterParams =
    | Cleared
    | Selected(surveyTags: seq<string>, userTags: seq<string>, roleFilters: seq<string>)

  /** The notices shown to the user. */
  datatype Notice = FiltersApplied | NoFiltersSelected | FiltersReset

  /** `list.some(c => c.value === v)`. */
  predicate HasValue(s: seq<Choice>, v: string) {
    exists i :: 0 <= i < |s| && s[i].value == v
  }

  /** No two entries of `s` carry the same value. */
  predicate DistinctValues(s: seq<Choice>) {
    forall i, j :: 0 <= i < j < |s| ==> s[i].value != s[j].value
  }

  /** `list.map(c => c.value)`. */
  function Values(s: seq<Choice>): (r: seq<string>)
    ensures |r| == |s|
    ensures forall i :: 0 <= i < |s| ==> r[i] == s[i].value
    decreases |s|
  {
    if s == [] then [] else [s[0].value] + Values(s[1..])
  }

  /** `list.filter(c => c.value !== v)`: every entry with value `v` is gone, every other
      entry stays, and the survivors keep their order. */
  function Without(s: seq<Choice>, v: string): (r: seq<Choice>)
    ensures IsSubsequence(r, s)
    ensures forall c :: c in r <==> c in s && c.value != v
    decreases |s|
  {
    if s == [] then []
    else if s[0].value == v then Without(s[1..], v)
    else [s[0]] + Without(s[1..], v)
  }

  /** Filtering keeps every surviving entry as many times as the list holds it. */
  lemma {:induction false} WithoutCounts(s: seq<Choice>, v: string)
    ensures forall c :: multiset(Without(s, v))[c] == if c.value != v then multiset(s)[c] else 0
    decreases |s|
  {
    if s != [] {
      WithoutCounts(s[1..], v);
      assert s == [s[0]] + s[1..];
    }
  }

  /** The add handlers: append `c` unless an entry with its value is already there.
      The old list stays a prefix, at most `c` is added, and afterwards the value is
      selected. */
  function WithAdded(s: seq<Choice>, c: Choice): (r: seq<Choice>)
    ensures s <= r && |r| <= |s| + 1
    ensures HasValue(r, c.value)
    ensures |r| == |s| + 1 <==> !HasValue(s, c.value)
    ensures |r| == |s| + 1 ==> r[|s|] == c
  {
    if HasValue(s, c.value) then s else
      var r := s + [c];
      assert r[|s|] == c;
      r
  }

  /** Adding keeps the values distinct, and afterwards the value is selected. */
  lemma AddKeepsDistinct(s: seq<Choice>, c: Choice)
    requires DistinctValues(s)
    ensures DistinctValues(WithAdded(s, c))
    ensures HasValue(WithAdded(s, c), c.value)
  {
    if !HasValue(s, c.value) {
      assert WithAdded(s, c)[|s|] == c;
    }
  }

  /** Removing keeps the values distinct, and afterwards the value is not selected. */
  lemma {:induction false} RemoveKeepsDistinct(s: seq<Choice>, v: string)
    requires DistinctValues(s)
    ensures DistinctValues(Without(s, v))
    ensures !HasValue(Without(s, v), v)
    decreases |s|
  {
    var r := Without(s, v);
    if s != [] {
      RemoveKeepsDistinct(s[1..], v);
      if s[0].value != v {
        var t := Without(s[1..], v);
        assert r == [s[0]] + t;
        forall j | 0 <= j < |t| ensures t[j].value != s[0].value {
          assert t[j] in s[1..];
        }
      }
    }
    forall i | 0 <= i < |r| ensures r[i].value != v {
      assert r[i] in r;
    }
  }

  /** Filtering out a value nobody carries changes nothing. */
  lemma {:induction false} WithoutAbsent(s: seq<Choice>, v: string)
    requires !HasValue(s, v)
    ensures Without(s, v) == s
    decreases |s|
  {
    if s != [] {
      forall i | 0 <= i < |s[1..]| ensures s[1..][i].value != v {
        assert s[1..][i] == s[i + 1];
      }
      WithoutAbsent(s[1..], v);
    }
  }

  /** Filtering an appended entry out of a list filters the list and drops the entry. */
  lemma {:induction false} WithoutAppended(s: seq<Choice>, c: Choice)
    ensures Without(s + [c], c.value) == Without(s, c.value)
    decreases |s|
  {
    if s == [] {
      assert [c][1..] == [];
    } else {
      assert (s + [c])[1..] == s[1..] + [c];
      WithoutAppended(s[1..], c);
    }
  }

  /** Clicking an unselected option twice (add, then remove) restores the list. */
  lemma ToggleTwiceRestores(s: seq<Choice>, c: Choice)
    requires !HasValue(s, c.value)
    ensures Without(WithAdded(s, c), c.value) == s
  {
    WithoutAppended(s, c);
    WithoutAbsent(s, c.value);
  }

  /** The panel's state: the three selections. The selections stored by an earlier
      session are given to the constructor; the role selection always starts empty. */
  class FilterPanel {
    var surveyTags: seq<Choice>
    var userTags: seq<Choice>
    var roles: seq<Choice>

    /** No selection repeats a value. */
    predicate Valid()
      reads this
    {
      DistinctValues(surveyTags) && DistinctValues(userTags) && DistinctValues(roles)
    }

    /** At least one selection is non-empty. */
    predicate AnySelected()
      reads this
    {
      |surveyTags| > 0 || |userTags| > 0 || |roles| > 0
    }

    constructor (storedSurveyTags: seq<Choice>, storedUserTags: seq<Choice>)
      ensures surveyTags == storedSurveyTags && userTags == storedUserTags && roles == []
    {
      surveyTags, userTags, roles := storedSurveyTags, storedUserTags, [];
    }

    /** The selection that a tag handler of kind `kind` works on. */
    function Tags(kind: TagKind): seq<Choice>
      reads this
    {
      if kind == Survey then surveyTags else userTags
    }

    /** `handleAddTag`: only the list named by `kind` changes. */
    method AddTag(tag: Choice, kind: TagKind)
      modifies this
      ensures Tags(kind) == WithAdded(old(Tags(kind)), tag)
      ensures kind == Survey ==> userTags == old(userTags)
      ensures kind == User ==> surveyTags == old(surveyTags)
      ensures roles == old(roles)
      ensures old(Valid()) ==> Valid()
    {
      if kind == Survey {
        if !HasValue(surveyTags, tag.value) {
          if DistinctValues(surveyTags) { AddKeepsDistinct(surveyTags, tag); }
          surveyTags := surveyTags + [tag];
        }
      } else {
        if !HasValue(userTags, tag.value) {
          if DistinctValues(userTags) { AddKeepsDistinct(userTags, tag); }
          userTags := userTags + [tag];
        }
      }
    }

    /** `handleRemoveTag`: only the list named by `kind` changes. */
    method RemoveTag(tag: Choice, kind: TagKind)
      modifies this
      ensures Tags(kind) == Without(old(Tags(kind)), tag.value)
      ensures kind == Survey ==> userTags == old(userTags)
      ensures kind == User ==> surveyTags == old(surveyTags)
      ensures roles == old(roles)
      ensures old(Valid()) ==> Valid()
    {
      if kind == Survey {
        if DistinctValues(surveyTags) { RemoveKeepsDistinct(surveyTags, tag.value); }
        surveyTags := Without(surveyTags, tag.value);
      } else {
        if DistinctValues(userTags) { RemoveKeepsDistinct(userTags, tag.value); }
        userTags := Without(userTags, tag.value);
      }
    }

    /** `handleAddRole`. */
    method AddRole(role: Choice)
      modifies this
      ensures roles == WithAdded(old(roles), role)
      ensures surveyTags == old(surveyTags) && userTags == old(userTags)
      ensures old(Valid()) ==> Valid()
    {
      if !HasValue(roles, role.value) {
        if DistinctValues(roles) { AddKeepsDistinct(roles, role); }
        roles := roles + [role];
      }
    }

    /** `handleRemoveRole`. */
    method RemoveRole(role: Choice)
      modifies this
      ensures roles == Without(old(roles), role.value)
      ensures surveyTags == old(surveyTags) && userTags == old(userTags)
      ensures old(Valid()) ==> Valid()
    {
      if DistinctValues(roles) { RemoveKeepsDistinct(roles, role.value); }
      roles := Without(roles, role.value);
    }

    /** A click on a tag option: remove it when selected, add it otherwise. Afterwards
        the option is selected exactly when it was not before. */
    method ToggleTag(option: Choice, kind: TagKind)
      modifies this
      ensures HasValue(old(Tags(kind)), option.value) ==> Tags(kind) == Without(old(Tags(kind)), option.value)
      ensures !HasValue(old(Tags(kind)), option.value) ==> Tags(kind) == old(Tags(kind)) + [option]
      ensures HasValue(Tags(kind), option.value) <==> !HasValue(old(Tags(kind)), option.value)
      ensures kind == Survey ==> userTags == old(userTags)
      ensures kind == User ==> surveyTags == old(surveyTags)
      ensures roles == old(roles)
      ensures old(Valid()) ==> Valid()
    {
      if HasValue(Tags(kind), option.value) {
        RemoveTag(option, kind);
        assert Tags(kind) == Without(old(Tags(kind)), option.value);
        forall i | 0 <= i < |Tags(kind)| ensures Tags(kind)[i].value != option.value {
          assert Tags(kind)[i] in Tags(kind);
        }
      } else {
        AddTag(option, kind);
        assert Tags(kind)[|Tags(kind)| - 1] == option;
      }
    }

    /** A click on a role option. */
    method ToggleRole(option: Choice)
      modifies this
      ensures HasValue(old(roles), option.value) ==> roles == Without(old(roles), option.value)
      ensures !HasValue(old(roles), option.value) ==> roles == old(roles) + [option]
      ensures HasValue(roles, option.value) <==> !HasValue(old(roles), option.value)
      ensures surveyTags == old(surveyTags) && userTags == old(userTags)
      ensures old(Valid()) ==> Valid()
    {
      if HasValue(roles, option.value) {
        RemoveRole(option);
        forall i | 0 <= i < |roles| ensures roles[i].value != option.value {
          assert roles[i] in roles;
        }
      } else {
        AddRole(option);
        assert roles[|roles| - 1] == option;
      }
    }

    /** `applyFilters`: with nothing selected no parameters are set and an error notice
        is raised; otherwise the three value lists, in selection order, are handed over. */
    method ApplyFilters() returns (params: Option<FilterParams>, notice: Notice)
      ensures params.Some? <==> AnySelected()
      ensures params.Some? ==> (params.value.Selected?
        && |params.value.surveyTags| == |surveyTags|
        && |params.value.userTags| == |userTags|
        && |params.value.roleFilters| == |roles|)
      ensures params.Some? ==> (
        (forall i :: 0 <= i < |surveyTags| ==> params.value.surveyTags[i] == surveyTags[i].value)
        && (forall i :: 0 <= i < |userTags| ==> params.value.userTags[i] == userTags[i].value)
        && (forall i :: 0 <= i < |roles| ==> params.value.roleFilters[i] == roles[i].value))
      ensures notice == if AnySelected() then FiltersApplied else NoFiltersSelected
    {
      if |surveyTags| > 0 || |userTags| > 0 || |roles| > 0 {
        params := Some(Selected(Values(surveyTags), Values(userTags), Values(roles)));
        notice := FiltersApplied;
      } else {
        params := None;
        notice := NoFiltersSelected;
      }
    }

    /** `handleReset`: when something is selected, clear the three lists, hand `{}` to
        the caller and raise a notice; when nothing is selected, do nothing at all. */
    method Reset() returns (params: Option<FilterParams>, notice: Option<Notice>)
      modifies this
      ensures old(AnySelected()) ==> (surveyTags == [] && userTags == [] && roles == []
        && params == Some(Cleared) && notice == Some(FiltersReset))
      ensures !old(AnySelected()) ==> (surveyTags == old(surveyTags) && userTags == old(userTags)
        && roles == old(roles) && params == None && notice == None)
      ensures Valid()
    {
      if |surveyTags| > 0 || |userTags| > 0 || |roles| > 0 {
        surveyTags, userTags, roles := [], [], [];
        params, notice := Some(Cleared), Some(FiltersReset);
      } else {
        params, notice := None, None;
      }
    }
  }
}
