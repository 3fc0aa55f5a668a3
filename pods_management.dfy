/** Decoding of the builders' mention markup: every mention span carries a `data-id`
    (the user's email, also used as the id) and a `data-value` label of the form
    `name` or `name (role)`; the label is split by the pattern
    `/(.+?)(\s+\((.+?)\))?$/`. The markup itself is taken as the sequence of the
    spans' attribute pairs, in document order. */
module PodsManagement {
  import opened Wrappers
  import opened Text
  import PodForm

  type User = PodForm.User

  /** The two attributes of one `span.mention`; `None` when `getAttribute` finds none. */
  datatype MentionSpan = MentionSpan(dataId: Option<string>, dataValue: Option<string>)

  /** The groups of a successful match: group 1 (the name) and group 3 (the role,
      `undefined` when the optional group did not take part). */
  datatype NameRole = NameRole(name: string, role: Option<string>)

  /** The length of the white-space run at the start of `s`. */
  function SpaceRun(s: string): (n: nat)
    ensures n <= |s| && AllSpace(s[..n])
    ensures n == |s| || !IsSpace(s[n])
    decreases |s|
  {
    if s != [] && IsSpace(s[0]) then 1 + SpaceRun(s[1..]) else 0
  }

  /** `rest` matches `\s+\((.+?)\)$`: white space, `(`, at least one character, and a
      final `)`. */
  predicate IsRoleSuffix(rest: string) {
    var w := SpaceRun(rest);
    0 < w && w + 3 <= |rest| && rest[w] == '(' && rest[|rest| - 1] == ')'
  }

  /** Group 3 of a suffix that matches: everything between the `(` and the final `)`. */
  function SuffixRole(rest: string): string
    requires IsRoleSuffix(rest)
  {
    rest[SpaceRun(rest) + 1..|rest| - 1]
  }

  /** The rest of `v` from position `k` on is a role suffix. */
  predicate RoleSuffixAt(v: string, k: nat)
    requires k <= |v|
  {
    IsRoleSuffix(v[k..])
  }

  /** The end of the lazy group `(.+?)`: the first position `e >= k` at which the rest
      of the value is empty or a role suffix. */
  function NameEnd(v: string, k: nat): (e: nat)
    requires 1 <= k <= |v|
    ensures k <= e <= |v|
    ensures e == |v| || RoleSuffixAt(v, e)
    ensures forall j :: k <= j < e ==> !RoleSuffixAt(v, j)
    decreases |v| - k
  {
    if k == |v| || RoleSuffixAt(v, k) then k else NameEnd(v, k + 1)
  }

  /** `fullValue.match(/(.+?)(\s+\((.+?)\))?$/)` on a value without line terminators:
      no match for the empty value (`.+?` needs a character); otherwise the match
      starts at position 0 and the name ends at the first place where the rest is
      empty or a role suffix. */
  function MatchNameRole(v: string): (m: Option<NameRole>)
    requires SingleLine(v)
    ensures m.None? <==> v == ""
    ensures m.Some? ==> m.value.name != "" && m.value.name <= v
    ensures m.Some? && m.value.role.None? ==> m.value.name == v
    ensures m.Some? && m.value.role.Some? ==> m.value.role.value != "" && v[|v| - 1] == ')'
  {
    if v == [] then None
    else
      var e := NameEnd(v, 1);
      if e < |v| then Some(NameRole(v[..e], Some(SuffixRole(v[e..])))) else Some(NameRole(v, None))
  }

  /** The split law: a value matches exactly when it is non-empty; when a role is found,
      the value is the name, white space, and the role in parentheses, with name and role
      non-empty; otherwise the name is the whole value. */
  lemma SplitLaw(v: string)
    requires SingleLine(v)
    ensures MatchNameRole(v).None? <==> v == ""
    ensures MatchNameRole(v).Some? && MatchNameRole(v).value.role.None? ==>
      MatchNameRole(v).value.name == v
    ensures MatchNameRole(v).Some? && MatchNameRole(v).value.role.Some? ==>
      var name, role := MatchNameRole(v).value.name, MatchNameRole(v).value.role.value;
      name != "" && role != ""
      && exists gap :: gap != "" && AllSpace(gap) && v == name + gap + "(" + role + ")"
  {
    if v != [] {
      var e := NameEnd(v, 1);
      if e < |v| {
        var rest := v[e..];
        var w := SpaceRun(rest);
        var gap := rest[..w];
        var role := SuffixRole(rest);
        assert rest == gap + "(" + role + ")";
        assert v == v[..e] + rest;
      }
    }
  }

  /** The name is the shortest non-empty prefix after which the rest is empty or a
      role suffix: no shorter prefix qualifies. */
  lemma SplitShortest(v: string, k: int)
    requires SingleLine(v) && v != ""
    requires 1 <= k < |MatchNameRole(v).value.name|
    ensures !RoleSuffixAt(v, k)
  {
  }

  /** A value that does not end in `)` has no role: the name is the whole value. */
  lemma NoRoleWithoutClosingParen(v: string)
    requires SingleLine(v) && v != "" && v[|v| - 1] != ')'
    ensures MatchNameRole(v) == Some(NameRole(v, None))
  {
    forall j | 1 <= j < |v| ensures !RoleSuffixAt(v, j) {
      assert v[j..][|v| - j - 1] == v[|v| - 1];
    }
  }

  /** The user a span decodes to: id and email are `data-id` (or `""`), and the name and
      role come from splitting `data-value` (or `""`). */
  function DecodeSpan(span: MentionSpan): (u: User)
    requires SingleLine(span.dataValue.GetOr(""))
    ensures u.id == u.email == span.dataId.GetOr("")
    ensures span.dataValue.GetOr("") == "" ==> u.name == "" && u.role.None?
    ensures u.role.None? ==> u.name == span.dataValue.GetOr("")
    ensures u.name <= span.dataValue.GetOr("")
  {
    var email := span.dataId.GetOr("");
    var fullValue := span.dataValue.GetOr("");
    match MatchNameRole(fullValue)
    case None => PodForm.User(email, email, fullValue, None)
    case Some(m) => PodForm.User(email, email, m.name, m.role)
  }

  /** Every label the decoder reads is free of line terminators. */
  predicate SingleLineLabels(spans: seq<MentionSpan>) {
    forall i :: 0 <= i < |spans| ==> SingleLine(spans[i].dataValue.GetOr(""))
  }

  /** `extractUsersFromHTML`: absent or empty content gives no users; otherwise one user
      per mention span, in document order, each with id and email equal to the span's
      `data-id` and with the name and role split from its `data-value`. */
  method ExtractUsers(content: Option<seq<MentionSpan>>) returns (users: seq<User>)
    requires content.Some? ==> SingleLineLabels(content.value)
    ensures content.None? ==> users == []
    ensures content.Some? ==> |users| == |content.value|
    ensures content.Some? ==> forall i :: 0 <= i < |users| ==>
      users[i] == DecodeSpan(content.value[i])
      && users[i].id == users[i].email == content.value[i].dataId.GetOr("")
  {
    users := [];
    if content.None? {
      return;
    }
    var spans := content.value;
    var i := 0;
    while i < |spans|
      invariant 0 <= i <= |spans|
      invariant |users| == i
      invariant forall j :: 0 <= j < i ==> users[j] == DecodeSpan(spans[j])
    {
      var email := spans[i].dataId.GetOr("");
      var fullValue := spans[i].dataValue.GetOr("");
      var name := fullValue;
      var role: Option<string> := None;
      var roleMatch := MatchNameRole(fullValue);
      if roleMatch.Some? {
        name := roleMatch.value.name;
        role := roleMatch.value.role;
      }
      users := users + [PodForm.User(email, email, name, role)];
      i := i + 1;
    }
  }

  /** An empty label decodes to an empty name and no role. */
  lemma EmptyLabel(id: Option<string>)
    ensures DecodeSpan(MentionSpan(id, Some(""))) == PodForm.User(id.GetOr(""), id.GetOr(""), "", None)
    ensures DecodeSpan(MentionSpan(id, None)) == PodForm.User(id.GetOr(""), id.GetOr(""), "", None)
  {
  }

  /** The first sample label: a name of three words and no role. */
  lemma SampleWithoutRole()
    ensures MatchNameRole("Manvendra Singh Bais") == Some(NameRole("Manvendra Singh Bais", None))
  {
    NoRoleWithoutClosingParen("Manvendra Singh Bais");
  }

  /** The white-space run is determined by where the first non-space character is. */
  lemma SpaceRunIs(s: string, n: nat)
    requires n <= |s| && AllSpace(s[..n]) && (n == |s| || !IsSpace(s[n]))
    ensures SpaceRun(s) == n
  {
    var m := SpaceRun(s);
    forall i | 0 <= i < n ensures IsSpace(s[i]) { assert s[..n][i] == s[i]; }
    forall i | 0 <= i < m ensures IsSpace(s[i]) { assert s[..m][i] == s[i]; }
  }

  /** The white-space run stops at or before any non-space character. */
  lemma SpaceRunBound(s: string, i: nat)
    requires i < |s| && !IsSpace(s[i])
    ensures SpaceRun(s) <= i
  {
    var m := SpaceRun(s);
    forall t | 0 <= t < m ensures IsSpace(s[t]) { assert s[..m][t] == s[t]; }
  }

  /** The lazy search stops at the first position that qualifies. */
  lemma NameEndIs(v: string, k: nat, e: nat)
    requires 1 <= k <= e <= |v|
    requires e == |v| || RoleSuffixAt(v, e)
    requires forall j :: k <= j < e ==> !RoleSuffixAt(v, j)
    ensures NameEnd(v, k) == e
  {
  }

  /** Decoding law for a label made of a name, white space and a parenthesised role:
      when the name has no `(` and does not end in white space, the split gives back
      exactly that name and that role. */
  lemma SplitLabel(name: string, gap: string, role: string)
    requires name != "" && '(' !in name && !IsSpace(name[|name| - 1])
    requires gap != "" && AllSpace(gap)
    requires role != ""
    requires SingleLine(name + gap + "(" + role + ")")
    ensures MatchNameRole(name + gap + "(" + role + ")") == Some(NameRole(name, Some(role)))
  {
    var v := name + gap + "(" + role + ")";
    var rest := gap + "(" + role + ")";
    assert v[|name|..] == rest;
    assert v[..|name|] == name;
    assert rest[..|gap|] == gap;
    SpaceRunIs(rest, |gap|);
    assert rest[|gap| + 1..|rest| - 1] == role;
    forall j | 1 <= j < |name| ensures !RoleSuffixAt(v, j) {
      var t := v[j..];
      assert t[|name| - 1 - j] == name[|name| - 1];
      SpaceRunBound(t, |name| - 1 - j);
      assert t[SpaceRun(t)] == name[j + SpaceRun(t)];
    }
    NameEndIs(v, 1, |name|);
  }

  /** The second sample label: `"Akshay Desai (KHC Data)"` splits into the name
      `"Akshay Desai"` and the role `"KHC Data"`. */
  lemma SampleWithRole()
    ensures MatchNameRole("Akshay Desai (KHC Data)") == Some(NameRole("Akshay Desai", Some("KHC Data")))
  {
    assert "Akshay Desai" + " " + "(" + "KHC Data" + ")" == "Akshay Desai (KHC Data)";
    SplitLabel("Akshay Desai", " ", "KHC Data");
  }

  /** The name group is lazy: a label with two parenthesised parts keeps only the first
      word as the name, and everything from the first `(` to the final `)` becomes the
      role. */
  lemma LazyNameWithTwoGroups()
    ensures MatchNameRole("A (b) (c)") == Some(NameRole("A", Some("b) (c")))
  {
    assert "A" + " " + "(" + "b) (c" + ")" == "A (b) (c)";
    SplitLabel("A", " ", "b) (c");
  }
}
