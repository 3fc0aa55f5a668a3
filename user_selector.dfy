/** The user picker: the editor's text, stripped of markup and trimmed, is the search
    term; a term of two or more characters selects, case-insensitively, the users of a
    fixed list whose name, email or role contains it; clicking or ticking a listed user
    asks the owner to select or deselect that user. */
module UserSelector {
  import opened Wrappers
  import opened Sequences
  import opened Text
  import PodForm

  type User = PodForm.User

  /** The fixed list searched. */
  const MockUsers: seq<User> := [
    PodForm.User("1", "manvendrasingh.bais@example.com", "Manvendra Singh Bais", None),
    PodForm.User("2", "akshay.desai@example.com", "Akshay Desai", Some("KHC Data")),
    PodForm.User("3", "vivek.bhosle@example.com", "Vivek Bhosle", Some("Global Contingent Worker")),
    PodForm.User("4", "pankaj.maddan@example.com", "Pankaj Maddan", Some("Global Contingent Worker")),
    PodForm.User("5", "raja.manickam@example.com", "Raja Manickam", None),
    PodForm.User("6", "priya.sharma@example.com", "Priya Sharma", None),
    PodForm.User("7", "rahul.kumar@example.com", "Rahul Kumar", None),
    PodForm.User("8", "neha.patel@example.com", "Neha Patel", None),
    PodForm.User("9", "amit.verma@example.com", "Amit Verma", None),
    PodForm.User("10", "deepak.singh@example.com", "Deepak Singh", None)
  ]

  /** The search condition, for a term that is already lower-cased. An absent or empty
      role never matches. */
  predicate Matches(u: User, term: string)
    ensures term == "" ==> Matches(u, term)
    ensures (|term| > |u.name| && |term| > |u.email|
             && (u.role.None? || |term| > |u.role.value|)) ==> !Matches(u, term)
  {
    assert term == "" ==> term <= Lower(u.name)[0..];
    Includes(Lower(u.name), term) || Includes(Lower(u.email), term)
    || (u.role.Some? && u.role.value != "" && Includes(Lower(u.role.value), term))
  }

  /** A user without a role is found through the name or the email only. */
  lemma MatchWithoutRole(u: User, term: string)
    requires u.role.None?
    ensures Matches(u, term) <==> Includes(Lower(u.name), term) || Includes(Lower(u.email), term)
  {
  }

  /** `users.filter(u => Matches(u, term))`. */
  function FilterUsers(users: seq<User>, term: string): (r: seq<User>)
    ensures IsSubsequence(r, users)
    ensures forall u :: u in r <==> u in users && Matches(u, term)
    decreases |users|
  {
    if users == [] then []
    else if Matches(users[0], term) then [users[0]] + FilterUsers(users[1..], term)
    else FilterUsers(users[1..], term)
  }

  /** Filtering keeps every matching user as many times as the list holds it. */
  lemma {:induction false} FilterUsersCounts(users: seq<User>, term: string)
    ensures forall u ::
      multiset(FilterUsers(users, term))[u] == if Matches(u, term) then multiset(users)[u] else 0
    decreases |users|
  {
    if users != [] {
      FilterUsersCounts(users[1..], term);
      assert users == [users[0]] + users[1..];
    }
  }

  /** The list the search effect shows for a search term. The length gate counts
      UTF-16 code units, as `searchTerm.length` does. */
  function SearchResults(searchTerm: string): (r: seq<User>)
    ensures Utf16Length(searchTerm) < 2 ==> r == []
    ensures Utf16Length(searchTerm) >= 2 ==>
      forall u :: u in r <==> u in MockUsers && Matches(u, Lower(searchTerm))
    ensures IsSubsequence(r, MockUsers)
  {
    if Utf16Length(searchTerm) >= 2 then FilterUsers(MockUsers, Lower(searchTerm)) else []
  }

  /** A term of one character outside the Basic Multilingual Plane (an emoji, say) is
      two code units long, so it already passes the length gate. */
  lemma AstralCharPassesGate(c: char)
    requires c as int >= 0x1_0000
    ensures Utf16Length([c]) == 2
    ensures SearchResults([c]) == FilterUsers(MockUsers, Lower([c]))
  {
    assert [c][1..] == [];
  }

  /** The position of the first `>` in `s`, or `|s|` when there is none. */
  function IndexOfClose(s: string): (k: nat)
    ensures k <= |s|
    ensures k < |s| ==> s[k] == '>'
    ensures forall j :: 0 <= j < k ==> s[j] != '>'
    decreases |s|
  {
    if s == [] then 0 else if s[0] == '>' then 0 else 1 + IndexOfClose(s[1..])
  }

  /** No `<` is followed, anywhere later, by a `>`: nothing tag-like is left. */
  predicate NoTagLeft(s: string) {
    forall i, j :: 0 <= i < j < |s| && s[i] == '<' ==> s[j] != '>'
  }

  /** `s.replace(/<[^>]*>/g, '')`: scanning from the left, each `<` that has a `>` after
      it is cut out together with everything up to and including the first such `>`;
      a `<` with no `>` after it stays. Nothing tag-like is left, and nothing is added. */
  function StripTags(s: string): (r: string)
    ensures forall c :: c in r ==> c in s
    ensures NoTagLeft(r)
    decreases |s|
  {
    if s == [] then []
    else if s[0] == '<' && IndexOfClose(s[1..]) < |s| - 1 then StripTags(s[IndexOfClose(s[1..]) + 2..])
    else
      var rest := StripTags(s[1..]);
      assert s[0] == '<' ==> '>' !in s[1..];
      [s[0]] + rest
  }

  /** Content with no `<` in it is left as it is. */
  lemma {:induction false} StripTagsWithoutOpen(s: string)
    requires '<' !in s
    ensures StripTags(s) == s
    decreases |s|
  {
    if s != [] {
      assert s == [s[0]] + s[1..];
      StripTagsWithoutOpen(s[1..]);
    }
  }

  /** `IndexOfClose` finds the first `>`. */
  lemma IndexOfCloseIs(s: string, k: nat)
    requires k <= |s| && (k < |s| ==> s[k] == '>')
    requires forall j :: 0 <= j < k ==> s[j] != '>'
    ensures IndexOfClose(s) == k
  {
  }

  /** Text before the first `<` is kept as it is, and the tag `<t>` (no `>` inside) is
      cut out with nothing else. */
  lemma {:induction false} StripTagsCutsTag(a: string, t: string, b: string)
    requires '<' !in a && '>' !in t
    ensures StripTags(a + "<" + t + ">" + b) == a + StripTags(b)
    decreases |a|
  {
    var s := a + "<" + t + ">" + b;
    if a == [] {
      assert s == "<" + t + ">" + b;
      assert s[1..] == t + ">" + b;
      forall j | 0 <= j < |t| ensures s[1..][j] != '>' {
        assert s[1..][j] == t[j];
      }
      IndexOfCloseIs(s[1..], |t|);
      assert s[|t| + 2..] == b;
    } else {
      assert s[0] == a[0];
      assert s[1..] == a[1..] + "<" + t + ">" + b;
      StripTagsCutsTag(a[1..], t, b);
      assert a == [a[0]] + a[1..];
    }
  }

  /** Content with nothing tag-like in it is left as it is. */
  lemma {:induction false} StripTagsWithoutTag(s: string)
    requires NoTagLeft(s)
    ensures StripTags(s) == s
    decreases |s|
  {
    if s != [] {
      if s[0] == '<' {
        forall j | 0 <= j < |s[1..]| ensures s[1..][j] != '>' {
          assert s[1..][j] == s[j + 1];
        }
        IndexOfCloseIs(s[1..], |s| - 1);
      }
      NoTagLeftSlice(s, 1, |s|);
      StripTagsWithoutTag(s[1..]);
      assert s == [s[0]] + s[1..];
    }
  }

  /** `"a<b>c"` loses its tag and keeps the text on both sides. */
  lemma StripTagsSample()
    ensures StripTags("a<b>c") == "ac"
  {
    assert "a<b>c" == "a" + "<" + "b" + ">" + "c";
    StripTagsCutsTag("a", "b", "c");
    StripTagsWithoutOpen("c");
  }

  /** A slice of a string with nothing tag-like in it has nothing tag-like in it. */
  lemma NoTagLeftSlice(s: string, lo: int, hi: int)
    requires 0 <= lo <= hi <= |s| && NoTagLeft(s)
    ensures NoTagLeft(s[lo..hi])
  {
    forall i, j | 0 <= i < j < hi - lo && s[lo..hi][i] == '<' ensures s[lo..hi][j] != '>' {
      assert s[lo..hi][i] == s[lo + i] && s[lo..hi][j] == s[lo + j];
    }
  }

  /** Every character of a slice occurs in the whole. */
  lemma SliceChars(s: string, lo: nat, n: nat)
    requires lo + n <= |s|
    ensures forall c :: c in s[lo..lo + n] ==> c in s
  {
    forall c | c in s[lo..lo + n] ensures c in s {
      var i :| 0 <= i < n && s[lo..lo + n][i] == c;
      assert s[lo + i] == c;
    }
  }

  /** The search term `handleQuillChange` derives from the editor content. */
  function SearchTermOf(content: string): (r: string)
    ensures r == [] || (!IsSpace(r[0]) && !IsSpace(r[|r| - 1]))
    ensures forall c :: c in r ==> c in content
  {
    var stripped := StripTags(content);
    var t := Trim(stripped);
    SliceChars(stripped, |stripped| - |TrimStart(stripped)|, |t|);
    t
  }

  /** The derived term has no tag left in it, and content without `<` is only trimmed. */
  lemma SearchTermProperties(content: string)
    ensures NoTagLeft(SearchTermOf(content))
    ensures '<' !in content ==> SearchTermOf(content) == Trim(content)
  {
    var stripped := StripTags(content);
    var t := Trim(stripped);
    var k := |stripped| - |TrimStart(stripped)|;
    NoTagLeftSlice(stripped, k, k + |t|);
    if '<' !in content {
      StripTagsWithoutOpen(content);
    }
  }

  /** What a click or a checkbox change asks of the owner: `onSelectUser(user)`,
      `onRemoveUser(id)`, or nothing. */
  datatype Action = NoAction | SelectUser(user: User) | RemoveUser(userId: string)

  class Selector {
    var searchTerm: string
    var isOpen: bool
    var filteredUsers: seq<User>
    var editorContent: string
    /** The `selectedUsers` prop. */
    const selectedUsers: seq<User>
    /** Whether the `onRemoveUser` prop is given. */
    const canRemove: bool

    /** The listed users and the dropdown always agree with the search term. */
    predicate Valid()
      reads this
    {
      filteredUsers == SearchResults(searchTerm) && isOpen == (Utf16Length(searchTerm) >= 2)
    }

    constructor (selectedUsers: seq<User>, canRemove: bool)
      ensures Valid()
      ensures searchTerm == "" && editorContent == "" && filteredUsers == [] && !isOpen
      ensures this.selectedUsers == selectedUsers && this.canRemove == canRemove
    {
      searchTerm, isOpen, filteredUsers, editorContent := "", false, [], "";
      this.selectedUsers, this.canRemove := selectedUsers, canRemove;
    }

    /** `isUserSelected`: some selected user has the id. */
    predicate IsUserSelected(userId: string)
      ensures IsUserSelected(userId) <==> exists u :: u in selectedUsers && u.id == userId
    {
      PodForm.HasId(selectedUsers, userId)
    }

    /** The search effect: for a term of two or more characters, list the matching users
        and open the dropdown; otherwise empty the list and close it. */
    method RunSearch()
      modifies this`filteredUsers, this`isOpen
      ensures Valid()
    {
      if Utf16Length(searchTerm) >= 2 {
        var lowercasedSearch := Lower(searchTerm);
        filteredUsers := FilterUsers(MockUsers, lowercasedSearch);
        isOpen := true;
      } else {
        filteredUsers := [];
        isOpen := false;
      }
    }

    /** `handleQuillChange`: store the content and derive the search term from it; the
        search effect runs when the term changed. */
    method QuillChange(content: string)
      requires Valid()
      modifies this`editorContent, this`searchTerm, this`filteredUsers, this`isOpen
      ensures Valid()
      ensures editorContent == content
      ensures searchTerm == SearchTermOf(content)
    {
      editorContent := content;
      var textOnly := Trim(StripTags(content));
      var changed := textOnly != searchTerm;
      searchTerm := textOnly;
      if changed {
        RunSearch();
      }
    }

    /** `handleSelect`: ask for the user to be selected and clear the editor. */
    method Select(user: User) returns (action: Action)
      modifies this`editorContent
      ensures action == SelectUser(user) && editorContent == ""
    {
      action := SelectUser(user);
      editorContent := "";
    }

    /** `handleRemoveUser`: ask for removal only when the owner can remove. */
    method RequestRemove(userId: string) returns (action: Action)
      ensures action == if canRemove then RemoveUser(userId) else NoAction
    {
      action := if canRemove then RemoveUser(userId) else NoAction;
    }

    /** A click on a listed user: select an unselected user; for a selected one, ask
        for removal when the owner can remove. */
    method Click(user: User) returns (action: Action)
      modifies this`editorContent
      ensures !IsUserSelected(user.id) ==> action == SelectUser(user) && editorContent == ""
      ensures IsUserSelected(user.id) ==>
        action == (if canRemove then RemoveUser(user.id) else NoAction)
        && editorContent == old(editorContent)
    {
      if !IsUserSelected(user.id) {
        action := Select(user);
      } else if canRemove {
        action := RequestRemove(user.id);
      } else {
        action := NoAction;
      }
    }

    /** A change of a listed user's checkbox: ticking an unselected user selects it,
        unticking a selected user asks for removal when the owner can remove, and
        every other combination does nothing. */
    method CheckedChange(user: User, checked: bool) returns (action: Action)
      modifies this`editorContent
      ensures checked && !IsUserSelected(user.id) ==> action == SelectUser(user) && editorContent == ""
      ensures !checked && canRemove && IsUserSelected(user.id) ==>
        action == RemoveUser(user.id) && editorContent == old(editorContent)
      ensures !(checked && !IsUserSelected(user.id)) && !(!checked && canRemove && IsUserSelected(user.id)) ==>
        action == NoAction && editorContent == old(editorContent)
    {
      if checked && !IsUserSelected(user.id) {
        action := Select(user);
      } else if !checked && canRemove && IsUserSelected(user.id) {
        action := RequestRemove(user.id);
      } else {
        action := NoAction;
      }
    }
  }
}
