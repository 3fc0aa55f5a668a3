/** The chip that shows a bucket member: `@` followed by the email's handle, and the
    role in parentheses when there is one. */
module UserTag {
  import opened Wrappers
  import PodForm

  /** `email.split('@')[0]`: the part of the email before its first `@`, or the whole
      email when it has none. */
  function Handle(email: string): (h: string)
    ensures '@' !in h
    ensures |h| <= |email| && h == email[..|h|]
    ensures '@' !in email ==> h == email
    ensures '@' in email ==> |h| < |email| && email == h + "@" + email[|h| + 1..]
    decreases |email|
  {
    if email == [] then []
    else if email[0] == '@' then []
    else [email[0]] + Handle(email[1..])
  }

  /** The role part of the chip: shown only for a present, non-empty role. */
  function RoleSuffix(role: Option<string>): (r: string)
    ensures r != "" <==> role.Some? && role.value != ""
    ensures r != "" ==> r == " (" + role.value + ")"
  {
    if role.Some? && role.value != "" then " (" + role.value + ")" else ""
  }

  /** The chip's text. */
  function TagText(user: PodForm.User): (r: string)
    ensures |r| >= 1 + |Handle(user.email)| && r[0] == '@'
    ensures r[1..1 + |Handle(user.email)|] == Handle(user.email)
    ensures '@' !in user.email ==> r[1..1 + |user.email|] == user.email
    ensures user.role.Some? && user.role.value != "" ==>
      |r| == 1 + |Handle(user.email)| + |user.role.value| + 3
      && r[|r| - |user.role.value| - 3..] == " (" + user.role.value + ")"
    ensures !(user.role.Some? && user.role.value != "") ==> |r| == 1 + |Handle(user.email)|
  {
    var h := Handle(user.email);
    var suffix := RoleSuffix(user.role);
    var r := "@" + h + suffix;
    assert r[1..1 + |h|] == h;
    assert r[1 + |h|..] == suffix;
    r
  }

  /** A chip with no role shown is `@` followed by the handle alone. */
  lemma TagTextWithoutRole(user: PodForm.User)
    requires user.role.None? || user.role.value == ""
    ensures TagText(user) == "@" + Handle(user.email)
  {
  }
}
