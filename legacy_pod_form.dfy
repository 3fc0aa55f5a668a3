/** The older POD form: six independent pieces of state, removal from a bucket by
    position, "Add" buttons that append a placeholder member, and a submit that
    assembles the record from the current state without validating it. */
module LegacyPodForm {
  import opened Wrappers

  /** A bucket entry; the placeholders carry only an email and a role. */
  datatype Member = Member(id: Option<string>, email: string, name: Option<string>, role: Option<string>)

  /** The `initialData` prop; every property may be missing. */
  datatype InitialData = InitialData(
    id: Option<string>,
    name: Option<string>,
    description: Option<string>,
    functionalArea: Option<string>,
    builders: Option<seq<Member>>,
    stakeholders: Option<seq<Member>>,
    productOwners: Option<seq<Member>>)

  /** The record handed to `onSubmit`. */
  datatype PodRecord = PodRecord(
    name: string,
    description: string,
    functionalArea: string,
    builders: seq<Member>,
    stakeholders: seq<Member>,
    productOwners: seq<Member>)

  const PlaceholderEmail := "user@example.com"

  /** The entry an "Add" button appends. */
  function Placeholder(role: string): (m: Member)
    ensures m.email == "user@example.com" && m.role == Some(role)
    ensures m.id.None? && m.name.None?
  {
    Member(None, PlaceholderEmail, None, Some(role))
  }

  /** `s.filter((_, index) => index !== i)`: drops the entry at position `i` when there
      is one, and otherwise keeps every entry. */
  function DropIndex<T>(s: seq<T>, i: int): (r: seq<T>)
    ensures 0 <= i < |s| ==> r == s[..i] + s[i + 1..]
    ensures !(0 <= i < |s|) ==> r == s
    decreases |s|
  {
    if s == [] then []
    else (if i == 0 then [] else [s[0]]) + DropIndex(s[1..], i - 1)
  }

  class PodFormState {
    var podName: string
    var description: string
    var functionalArea: string
    var builders: seq<Member>
    var stakeholders: seq<Member>
    var productOwners: seq<Member>

    /** Each piece of state starts from `initialData` when the property is present,
        and from `''` or `[]` otherwise. */
    constructor (initialData: InitialData)
      ensures podName == initialData.name.GetOr("")
      ensures description == initialData.description.GetOr("")
      ensures functionalArea == initialData.functionalArea.GetOr("")
      ensures builders == initialData.builders.GetOr([])
      ensures stakeholders == initialData.stakeholders.GetOr([])
      ensures productOwners == initialData.productOwners.GetOr([])
    {
      podName := initialData.name.GetOr("");
      description := initialData.description.GetOr("");
      functionalArea := initialData.functionalArea.GetOr("");
      builders := initialData.builders.GetOr([]);
      stakeholders := initialData.stakeholders.GetOr([]);
      productOwners := initialData.productOwners.GetOr([]);
    }

    /** `handleSubmit`: the record is the current state, the name taken from `podName`. */
    method Submit() returns (record: PodRecord)
      ensures record.name == podName && record.description == description
      ensures record.functionalArea == functionalArea
      ensures record.builders == builders && record.stakeholders == stakeholders
      ensures record.productOwners == productOwners
    {
      record := PodRecord(podName, description, functionalArea, builders, stakeholders, productOwners);
    }

    /** `handleRemoveUser`: the type names the bucket (`'builder'`, `'stakeholder'` or
        `'productOwner'`); an unknown type changes nothing, and neither does a position
        outside the bucket. */
    method RemoveUser(userType: string, userIndex: int)
      modifies this`builders, this`stakeholders, this`productOwners
      ensures builders == if userType == "builder" then DropIndex(old(builders), userIndex) else old(builders)
      ensures stakeholders == if userType == "stakeholder" then DropIndex(old(stakeholders), userIndex) else old(stakeholders)
      ensures productOwners == if userType == "productOwner" then DropIndex(old(productOwners), userIndex) else old(productOwners)
    {
      if userType == "builder" {
        builders := DropIndex(builders, userIndex);
      } else if userType == "stakeholder" {
        stakeholders := DropIndex(stakeholders, userIndex);
      } else if userType == "productOwner" {
        productOwners := DropIndex(productOwners, userIndex);
      }
    }

    /** The "Add Builder" button: a placeholder builder is appended, without any check. */
    method AddBuilder()
      modifies this`builders
      ensures builders == old(builders) + [Placeholder("Builder")]
    {
      builders := builders + [Placeholder("Builder")];
    }

    /** The "Add Product Owner" button. */
    method AddProductOwner()
      modifies this`productOwners
      ensures productOwners == old(productOwners) + [Placeholder("Product Owner")]
    {
      productOwners := productOwners + [Placeholder("Product Owner")];
    }

    /** The "Add Stakeholder" button. */
    method AddStakeholder()
      modifies this`stakeholders
      ensures stakeholders == old(stakeholders) + [Placeholder("Stakeholder")]
    {
      stakeholders := stakeholders + [Placeholder("Stakeholder")];
    }
  }
}
