/** The POD editor: a record with three user buckets (builders, product owners,
    stakeholders) in which a user id may appear at most once across all buckets,
    a field-to-message validator and a submit that only passes a complete record on. */
module PodForm {
  import opened Wrappers
  import opened Sequences

  /** A person who can be put in a bucket. */
  datatype User = User(id: string, email: string, name: string, role: Option<string>)

  datatype PodData = PodData(
    id: Option<string>,
    name: string,
    description: string,
    functionalArea: string,
    builders: seq<User>,
    productOwners: seq<User>,
    stakeholders: seq<User>)

  datatype Bucket = Builders | ProductOwners | Stakeholders

  /** The text fields edited through `handleInputChange`. */
  datatype Field = Name | Description | FunctionalArea

  const NameRequired := "Name is required"
  const DescriptionRequired := "Description is required"
  const BuildersRequired := "At least one builder is required"

  /** The record a form opened without data starts from; it has no id. */
  const DefaultPodData := PodData(None, "", "", "", [], [], [])

  function Members(p: PodData, b: Bucket): seq<User> {
    match b
    case Builders => p.builders
    case ProductOwners => p.productOwners
    case Stakeholders => p.stakeholders
  }

  /** `{...p, [b]: s}`. */
  function WithMembers(p: PodData, b: Bucket, s: seq<User>): (q: PodData)
    ensures Members(q, b) == s
    ensures forall other :: other != b ==> Members(q, other) == Members(p, other)
    ensures q.id == p.id && q.name == p.name && q.description == p.description
      && q.functionalArea == p.functionalArea
  {
    match b
    case Builders => p.(builders := s)
    case ProductOwners => p.(productOwners := s)
    case Stakeholders => p.(stakeholders := s)
  }

  /** The key under which a field's error is stored. */
  function FieldKey(f: Field): string {
    match f
    case Name => "name"
    case Description => "description"
    case FunctionalArea => "functionalArea"
  }

  /** `{...p, [f]: v}`. */
  function WithField(p: PodData, f: Field, v: string): (q: PodData)
    ensures q.name == (if f == Name then v else p.name)
    ensures q.description == (if f == Description then v else p.description)
    ensures q.functionalArea == (if f == FunctionalArea then v else p.functionalArea)
    ensures q.id == p.id && q.builders == p.builders && q.productOwners == p.productOwners
      && q.stakeholders == p.stakeholders
  {
    match f
    case Name => p.(name := v)
    case Description => p.(description := v)
    case FunctionalArea => p.(functionalArea := v)
  }

  /** `s.some(u => u.id === id)`. */
  predicate HasId(s: seq<User>, id: string) {
    exists i :: 0 <= i < |s| && s[i].id == id
  }

  /** The id is already in one of the three buckets. */
  predicate InAnyBucket(p: PodData, id: string) {
    HasId(p.builders, id) || HasId(p.productOwners, id) || HasId(p.stakeholders, id)
  }

  /** How many entries of `s` carry `id`. */
  function IdCount(s: seq<User>, id: string): nat
    decreases |s|
  {
    if s == [] then 0 else (if s[0].id == id then 1 else 0) + IdCount(s[1..], id)
  }

  /** How many entries of the three buckets together carry `id`. */
  function TotalCount(p: PodData, id: string): nat {
    IdCount(p.builders, id) + IdCount(p.productOwners, id) + IdCount(p.stakeholders, id)
  }

  /** No id appears twice, whether in one bucket or across two. */
  ghost predicate UniqueIds(p: PodData) {
    forall id :: TotalCount(p, id) <= 1
  }

  /** An id is counted exactly when some entry carries it. */
  lemma {:induction false} IdCountPositive(s: seq<User>, id: string)
    ensures IdCount(s, id) > 0 <==> HasId(s, id)
    decreases |s|
  {
    if s != [] {
      IdCountPositive(s[1..], id);
      if HasId(s, id) && s[0].id != id {
        var i :| 0 <= i < |s| && s[i].id == id;
        assert s[1..][i - 1].id == id;
      }
      if HasId(s[1..], id) {
        var i :| 0 <= i < |s[1..]| && s[1..][i].id == id;
        assert s[i + 1].id == id;
      }
    }
  }

  lemma {:induction false} IdCountAppend(s: seq<User>, u: User, id: string)
    ensures IdCount(s + [u], id) == IdCount(s, id) + (if u.id == id then 1 else 0)
    decreases |s|
  {
    if s == [] {
      assert [u][1..] == [];
    } else {
      assert (s + [u])[1..] == s[1..] + [u];
      IdCountAppend(s[1..], u, id);
    }
  }

  /** `s.filter(u => u.id !== id)`: every entry with that id is gone, every other entry
      stays, and the survivors keep their order. */
  function RemoveId(s: seq<User>, id: string): (r: seq<User>)
    ensures IsSubsequence(r, s)
    ensures forall u :: u in r <==> u in s && u.id != id
    decreases |s|
  {
    if s == [] then []
    else if s[0].id == id then RemoveId(s[1..], id)
    else [s[0]] + RemoveId(s[1..], id)
  }

  /** After removal no entry carries the id, and the count of every other id is kept. */
  lemma {:induction false} RemoveIdCount(s: seq<User>, id: string, other: string)
    ensures IdCount(RemoveId(s, id), other) == if other == id then 0 else IdCount(s, other)
    decreases |s|
  {
    if s != [] {
      RemoveIdCount(s[1..], id, other);
      if s[0].id != id {
        assert RemoveId(s, id)[1..] == RemoveId(s[1..], id);
      }
    }
  }

  /** Removing an id that no entry carries is a no-op. */
  lemma {:induction false} RemoveAbsentId(s: seq<User>, id: string)
    requires !HasId(s, id)
    ensures RemoveId(s, id) == s
    decreases |s|
  {
    if s != [] {
      forall i | 0 <= i < |s[1..]| ensures s[1..][i].id != id {
        assert s[1..][i] == s[i + 1];
      }
      RemoveAbsentId(s[1..], id);
    }
  }

  /** `handleAddUser` on values: unchanged when the id is in any bucket, otherwise the
      user is appended to the target bucket. */
  function WithUserAdded(p: PodData, b: Bucket, u: User): (q: PodData)
    ensures InAnyBucket(p, u.id) ==> q == p
    ensures !InAnyBucket(p, u.id) ==> Members(q, b) == Members(p, b) + [u]
    ensures forall other :: other != b ==> Members(q, other) == Members(p, other)
    ensures q.id == p.id && q.name == p.name && q.description == p.description
      && q.functionalArea == p.functionalArea
    ensures InAnyBucket(q, u.id)
  {
    assert !InAnyBucket(p, u.id) ==> (Members(p, b) + [u])[|Members(p, b)|] == u;
    if InAnyBucket(p, u.id) then p else WithMembers(p, b, Members(p, b) + [u])
  }

  /** `handleRemoveUser` on values. */
  function WithUserRemoved(p: PodData, b: Bucket, id: string): (q: PodData)
    ensures IsSubsequence(Members(q, b), Members(p, b))
    ensures forall u :: u in Members(q, b) <==> u in Members(p, b) && u.id != id
    ensures forall other :: other != b ==> Members(q, other) == Members(p, other)
    ensures q.id == p.id && q.name == p.name && q.description == p.description
      && q.functionalArea == p.functionalArea
  {
    WithMembers(p, b, RemoveId(Members(p, b), id))
  }

  /** Adding keeps ids unique across the buckets, and afterwards the user's id is in
      exactly one place. */
  lemma AddUserKeepsUnique(p: PodData, b: Bucket, u: User)
    requires UniqueIds(p)
    ensures UniqueIds(WithUserAdded(p, b, u))
    ensures TotalCount(WithUserAdded(p, b, u), u.id) == 1
  {
    var q := WithUserAdded(p, b, u);
    IdCountPositive(p.builders, u.id);
    IdCountPositive(p.productOwners, u.id);
    IdCountPositive(p.stakeholders, u.id);
    if !InAnyBucket(p, u.id) {
      forall id ensures TotalCount(q, id) == TotalCount(p, id) + (if u.id == id then 1 else 0) {
        IdCountAppend(Members(p, b), u, id);
      }
    }
  }

  /** Removing keeps ids unique across the buckets, and afterwards the id is absent
      from the target bucket. */
  lemma RemoveUserKeepsUnique(p: PodData, b: Bucket, id: string)
    requires UniqueIds(p)
    ensures UniqueIds(WithUserRemoved(p, b, id))
    ensures !HasId(Members(WithUserRemoved(p, b, id), b), id)
  {
    var q := WithUserRemoved(p, b, id);
    forall other ensures TotalCount(q, other) <= TotalCount(p, other) {
      RemoveIdCount(Members(p, b), id, other);
    }
    RemoveIdCount(Members(p, b), id, id);
    IdCountPositive(Members(q, b), id);
  }

  /** All three required parts are filled in. */
  predicate Complete(p: PodData) {
    p.name != "" && p.description != "" && |p.builders| > 0
  }

  /** `validateForm`'s error map: one message per missing required part, and no other
      key; the functional area is never checked. */
  function Validate(p: PodData): (errs: map<string, string>)
    ensures "name" in errs <==> p.name == ""
    ensures "description" in errs <==> p.description == ""
    ensures "builders" in errs <==> |p.builders| == 0
    ensures "name" in errs ==> errs["name"] == NameRequired
    ensures "description" in errs ==> errs["description"] == DescriptionRequired
    ensures "builders" in errs ==> errs["builders"] == BuildersRequired
    ensures errs.Keys <= {"name", "description", "builders"}
  {
    var e0: map<string, string> := map[];
    var e1 := if p.name == "" then e0["name" := NameRequired] else e0;
    var e2 := if p.description == "" then e1["description" := DescriptionRequired] else e1;
    if |p.builders| == 0 then e2["builders" := BuildersRequired] else e2
  }

  /** The form validates exactly when the record is complete. */
  lemma ValidateEmptyIffComplete(p: PodData)
    ensures Validate(p) == map[] <==> Complete(p)
  {
    if !Complete(p) {
      assert p.name == "" ==> "name" in Validate(p);
      assert p.description == "" ==> "description" in Validate(p);
      assert |p.builders| == 0 ==> "builders" in Validate(p);
    }
  }

  /** The functional area plays no part in validation. */
  lemma ValidateIgnoresFunctionalArea(p: PodData, area: string)
    ensures Validate(p.(functionalArea := area)) == Validate(p)
  {
  }

  /** A record missing only its name gets exactly the name message. */
  lemma ValidateMissingNameOnly(p: PodData)
    requires p.name == "" && p.description != "" && |p.builders| > 0
    ensures Validate(p) == map["name" := NameRequired]
  {
    var e := Validate(p);
    assert e.Keys == {"name"};
  }

  /** The editor's state: the record being edited and the error messages shown. */
  class PodEditor {
    var pod: PodData
    var errors: map<string, string>

    /** `useState(initialData || defaultPodData)`. */
    constructor (initialData: Option<PodData>)
      ensures pod == initialData.GetOr(DefaultPodData)
      ensures errors == map[]
    {
      pod := initialData.GetOr(DefaultPodData);
      errors := map[];
    }

    /** The effect run when the form is opened or its data changes: the record is
        replaced by the given data, or by the empty record; errors are left alone. */
    method Reopen(initialData: Option<PodData>)
      modifies this`pod
      ensures initialData.Some? ==> pod == initialData.value
      ensures initialData.None? ==> pod == DefaultPodData
    {
      match initialData
      case Some(data) => pod := data;
      case None => pod := DefaultPodData;
    }

    /** `handleInputChange`: sets one field, and clears that field's error (when it
        holds a message) and no other. */
    method InputChange(field: Field, value: string)
      modifies this
      ensures pod == WithField(old(pod), field, value)
      ensures FieldKey(field) in old(errors) && old(errors)[FieldKey(field)] != "" ==>
        FieldKey(field) !in errors
      ensures FieldKey(field) !in old(errors) || old(errors)[FieldKey(field)] == "" ==>
        errors == old(errors)
      ensures forall k :: k in old(errors) && k != FieldKey(field) ==> k in errors && errors[k] == old(errors)[k]
      ensures errors.Keys <= old(errors).Keys
    {
      pod := WithField(pod, field, value);
      var key := FieldKey(field);
      if key in errors && errors[key] != "" {
        errors := errors - {key};
      }
    }

    /** `handleAddUser`: rejected (with a notice) when the id is already in any bucket,
        otherwise the user goes to the end of the target bucket. */
    method AddUser(bucket: Bucket, user: User) returns (added: bool)
      modifies this`pod
      ensures added <==> !InAnyBucket(old(pod), user.id)
      ensures !added ==> pod == old(pod)
      ensures added ==> pod == WithMembers(old(pod), bucket, Members(old(pod), bucket) + [user])
      ensures old(UniqueIds(pod)) ==> UniqueIds(pod)
    {
      var isInBuilders := HasId(pod.builders, user.id);
      var isInProductOwners := HasId(pod.productOwners, user.id);
      var isInStakeholders := HasId(pod.stakeholders, user.id);
      if isInBuilders || isInProductOwners || isInStakeholders {
        return false;
      }
      if UniqueIds(pod) { AddUserKeepsUnique(pod, bucket, user); }
      pod := WithMembers(pod, bucket, Members(pod, bucket) + [user]);
      added := true;
    }

    /** `handleRemoveUser`: every entry with the id leaves the target bucket. */
    method RemoveUser(bucket: Bucket, userId: string)
      modifies this`pod
      ensures pod == WithMembers(old(pod), bucket, RemoveId(Members(old(pod), bucket), userId))
      ensures old(UniqueIds(pod)) ==> UniqueIds(pod)
    {
      if UniqueIds(pod) { RemoveUserKeepsUnique(pod, bucket, userId); }
      pod := WithMembers(pod, bucket, RemoveId(Members(pod, bucket), userId));
    }

    /** `validateForm`: the error map is replaced by the validator's, and the form is
        valid exactly when the record is complete. */
    method ValidateForm() returns (ok: bool)
      modifies this`errors
      ensures errors == Validate(pod)
      ensures ok <==> Complete(pod)
    {
      errors := Validate(pod);
      ValidateEmptyIffComplete(pod);
      ok := |errors| == 0;
    }

    /** `handleSubmit`: the record is handed to `onSubmit` exactly when it validates. */
    method Submit() returns (submitted: Option<PodData>)
      modifies this`errors
      ensures errors == Validate(pod)
      ensures submitted == if Complete(pod) then Some(pod) else None
    {
      var ok := ValidateForm();
      if ok {
        submitted := Some(pod);
      } else {
        submitted := None;
      }
    }
  }
}
