# POD management UI: a verified model of its sequential logic

The repository is a browser UI for managing PODs, which are named groups of people.
Each POD has three buckets: builders, product owners and stakeholders. The UI also has
a filter bar that narrows a list by survey tags, user tags and roles. Most of the code
is view markup. This project models the part that can be stated precisely, and proves
properties of it:

- **Filter selection** (`filter_section.dfy`, module `FilterSection`). A class
  `FilterPanel` holds three ordered selections of `{label, value}` choices. Adding skips
  a value that is already selected. Removing filters out every entry with a value.
  "Apply" hands the three value lists to the caller, unless nothing is selected.
  "Reset" clears everything, but only when something is selected.
- **POD editor** (`pod_form.dfy`, module `PodForm`). A class `PodEditor` holds the record
  and the error map. Adding a user is refused when the user's id is already in any
  bucket. Removing filters a bucket by id. The validator yields an exact
  field-to-message map. Editing a field clears only that field's error.
- **Older POD form** (`legacy_pod_form.dfy`, module `LegacyPodForm`). Six pieces of state.
  Removal is by position. "Add" buttons append a placeholder member. Submit builds the
  record from the state.
- **User picker** (`user_selector.dfy`, module `UserSelector`). The search term is the
  editor text with `<...>` runs removed, then trimmed. A case-insensitive substring
  search runs over a fixed user list once the term has two or more characters. There
  is a membership test and select/deselect handlers.
- **Mention decoding** (`pods_management.dfy`, module `PodsManagement`). Each mention
  span's `(data-id, data-value)` pair becomes a user. The value is split into a name
  and an optional role by the pattern `/(.+?)(\s+\((.+?)\))?$/`.
- **User chip** (`user_tag.dfy`, module `UserTag`). The email's handle (the part before
  the first `@`), plus a ` (role)` suffix when a role is present.

Shared pieces:

- `wrappers.dfy` has `Option`, which stands for `undefined`.
- `sequences.dfy` has the subsequence relation, used for "filtering keeps the order".
- `text.dfy` has JavaScript's white-space set, `trim`, `length` in UTF-16 code units,
  ASCII lower-casing and `includes`.

Callbacks and notices are returned, not performed:

- `setFilterParams`, `onSubmit`, `onSelectUser` and `onRemoveUser` become returned
  values.
- Toasts become a returned notice, or a returned flag saying the operation was refused.

Facts about the code worth knowing when reading the model:

- No code builds mention spans. Only decoding exists, in `extractUsersFromHTML`.
- Adding a user has a single check: is the id in any bucket? Removing an absent id
  is a silent no-op.
- In `PodForm.tsx` the id and the email are separate fields, and duplicate checks
  compare ids. Only the decoder sets `id` to the email.
- JavaScript's `length` counts UTF-16 code units, so a one-emoji search term already
  has length 2. The model measures the term the same way.

## Model

| member | source | states |
|---|---|---|
| `FilterSection.Values` | src/components/FilterSection/FilterSection.tsx:75-77 | the projected list has one value per selected choice, in the same order |
| `FilterSection.Without` | src/components/FilterSection/FilterSection.tsx:93-99 | removal keeps exactly the entries whose value differs, as a subsequence of the list (original order kept) |
| `FilterSection.WithoutCounts` | src/components/FilterSection/FilterSection.tsx:93-99 | each entry whose value differs survives as many times as the list holds it; entries with the value are gone |
| `FilterSection.WithAdded` | src/components/FilterSection/FilterSection.tsx:103-115 | the old list stays a prefix. One entry, `c` itself, is appended exactly when no entry had its value. Afterwards the value is selected |
| `FilterSection.AddKeepsDistinct` | src/components/FilterSection/FilterSection.tsx:101-117 | adding to a duplicate-free list keeps it duplicate-free, and the value is selected afterwards |
| `FilterSection.RemoveKeepsDistinct` | src/components/FilterSection/FilterSection.tsx:93-121 | removing from a duplicate-free list keeps it duplicate-free, and the value is no longer selected |
| `FilterSection.WithoutAbsent` | src/components/FilterSection/FilterSection.tsx:93-99 | removing a value no entry carries leaves the list unchanged |
| `FilterSection.WithoutAppended` | src/components/FilterSection/FilterSection.tsx:93-111 | removing the value of an entry just appended drops that entry and filters the rest |
| `FilterSection.ToggleTwiceRestores` | src/components/FilterSection/FilterSection.tsx:159-166 | clicking an unselected option twice (add, then remove) gives back the original list |
| `FilterSection.FilterPanel.constructor` | src/components/FilterSection/FilterSection.tsx:37-45 | tag selections start from the stored lists, and the role selection starts empty |
| `FilterSection.FilterPanel.AddTag` | src/components/FilterSection/FilterSection.tsx:101-111 | `'survey'` changes only survey tags and the other kind only user tags. A value already selected leaves the list unchanged; otherwise the tag is appended. Roles are untouched, and no-duplicates is preserved |
| `FilterSection.FilterPanel.RemoveTag` | src/components/FilterSection/FilterSection.tsx:93-99 | only the named tag list changes; it loses every entry with the value, and no-duplicates is preserved |
| `FilterSection.FilterPanel.AddRole` | src/components/FilterSection/FilterSection.tsx:113-117 | the role is appended unless its value is selected; both tag lists are unchanged |
| `FilterSection.FilterPanel.RemoveRole` | src/components/FilterSection/FilterSection.tsx:119-121 | every role with the value leaves; both tag lists are unchanged |
| `FilterSection.FilterPanel.ToggleTag` | src/components/FilterSection/FilterSection.tsx:159-166 | a click removes a selected option and appends an unselected one, so afterwards the option is selected iff it was not before; other lists untouched |
| `FilterSection.FilterPanel.ToggleRole` | src/components/FilterSection/FilterSection.tsx:251-258 | the same toggle for roles |
| `FilterSection.FilterPanel.ApplyFilters` | src/components/FilterSection/FilterSection.tsx:72-91 | with all three lists empty, no params are set and the "no filters" notice is raised. Otherwise the params hold the three value lists, element by element in selection order |
| `FilterSection.FilterPanel.Reset` | src/components/FilterSection/FilterSection.tsx:59-70 | when something is selected: all three lists are cleared, `{}` is handed over and a notice is raised. When nothing is selected: no state change, no params and no notice |
| `PodForm.WithMembers` | src/components/PodForm.tsx:117-120 | replacing one bucket leaves the other two buckets and every text field unchanged |
| `PodForm.WithField` | src/components/PodForm.tsx:90-94 | only the named text field takes the new value; the other text fields, the id and the buckets are unchanged |
| `PodForm.WithUserAdded` | src/components/PodForm.tsx:106-120 | a user whose id is in any bucket leaves the record unchanged. Otherwise the user is appended to the target bucket only. Either way the id is in some bucket afterwards |
| `PodForm.WithUserRemoved` | src/components/PodForm.tsx:123-128 | the target bucket keeps, in order, exactly the entries with another id; other buckets and fields are unchanged |
| `PodForm.RemoveId` | src/components/PodForm.tsx:126 | filtering by id keeps exactly the entries with another id, as a subsequence (order kept) |
| `PodForm.RemoveIdCount` | src/components/PodForm.tsx:123-128 | after removal no entry carries the id, and the number of entries of every other id is unchanged |
| `PodForm.RemoveAbsentId` | src/components/PodForm.tsx:123-128 | removing an id that no entry carries is a no-op |
| `PodForm.AddUserKeepsUnique` | src/components/PodForm.tsx:106-120 | if ids are unique across the three buckets, they stay unique after an add, and the user's id then occurs exactly once |
| `PodForm.RemoveUserKeepsUnique` | src/components/PodForm.tsx:123-128 | if ids are unique across the three buckets, they stay unique after a remove, and the id is then absent from the target bucket |
| `PodForm.Validate` | src/components/PodForm.tsx:130-144 | key `name` present iff the name is empty, `description` iff the description is empty, `builders` iff there is no builder. Each key carries its exact message, and there is no other key (the functional area is never checked) |
| `PodForm.ValidateEmptyIffComplete` | src/components/PodForm.tsx:130-147 | the error map is empty iff name, description and builders are all filled in |
| `PodForm.ValidateIgnoresFunctionalArea` | src/components/PodForm.tsx:130-144 | changing the functional area does not change the error map |
| `PodForm.ValidateMissingNameOnly` | src/components/PodForm.tsx:130-144 | a record missing only its name gets exactly `{name: 'Name is required'}` |
| `PodForm.PodEditor.constructor` | src/components/PodForm.tsx:79-80 | the record is the initial data, or the default record; the error map is empty |
| `PodForm.PodEditor.Reopen` | src/components/PodForm.tsx:82-88 | with data, the record becomes that data; without, it becomes the default record (no id, empty strings, three empty buckets). Errors are untouched |
| `PodForm.PodEditor.InputChange` | src/components/PodForm.tsx:90-104 | only the given field is set. That field's error is deleted when it holds a message. When it is absent or empty, the error map is unchanged. Every other error is kept as it was, and none is added |
| `PodForm.PodEditor.AddUser` | src/components/PodForm.tsx:106-121 | refused (record unchanged) iff the id is in any of the three buckets. Otherwise the user goes at the end of the target bucket, with nothing else changed. Cross-bucket id uniqueness is preserved |
| `PodForm.PodEditor.RemoveUser` | src/components/PodForm.tsx:123-128 | the target bucket loses every entry with the id; other buckets and fields are unchanged; uniqueness is preserved |
| `PodForm.PodEditor.ValidateForm` | src/components/PodForm.tsx:130-147 | the error map becomes the validator's, and the result is true iff the record is complete |
| `PodForm.PodEditor.Submit` | src/components/PodForm.tsx:149-155 | the record is handed to `onSubmit` iff it is complete; the errors are refreshed either way |
| `LegacyPodForm.DropIndex` | src/components/PodForm.js:38-46 | the index filter removes exactly the element at an in-range position (the rest keep their order), and is the identity for any other index |
| `LegacyPodForm.Placeholder` | src/components/PodForm.js:112 | the appended entry has email `'user@example.com'` and the given role, with no id and no name |
| `LegacyPodForm.PodFormState.constructor` | src/components/PodForm.js:10-15 | each field copies the initial data when it is present, and is `''` or `[]` otherwise |
| `LegacyPodForm.PodFormState.Submit` | src/components/PodForm.js:26-36 | the record's fields equal the current state, with `name` taken from `podName`; there is no validation |
| `LegacyPodForm.PodFormState.RemoveUser` | src/components/PodForm.js:38-46 | only the bucket named by the type loses its element at the index. An unknown type or an out-of-range index changes nothing |
| `LegacyPodForm.PodFormState.AddBuilder` | src/components/PodForm.js:112 | one placeholder `{email: 'user@example.com', role: 'Builder'}` is appended, with no duplicate check |
| `LegacyPodForm.PodFormState.AddProductOwner` | src/components/PodForm.js:135 | one placeholder with role `'Product Owner'` is appended |
| `LegacyPodForm.PodFormState.AddStakeholder` | src/components/PodForm.js:158 | one placeholder with role `'Stakeholder'` is appended |
| `Text.Trim` | src/components/UserSelector.tsx:90 | `trim` yields a contiguous slice that starts and ends with a non-space, and everything cut away on either side is white space |
| `Text.Utf16Length` | src/components/UserSelector.tsx:45 | `length` is between the number of characters and twice that number |
| `Text.Utf16LengthOfBmp` | src/components/UserSelector.tsx:45 | on text without characters beyond U+FFFF, `length` is the number of characters |
| `UserSelector.Matches` | src/components/UserSelector.tsx:48-51 | the empty term matches every user. A term longer than the name, the email and the role matches none |
| `UserSelector.MatchWithoutRole` | src/components/UserSelector.tsx:47-52 | a user without a role matches only through the name or the email |
| `UserSelector.FilterUsers` | src/components/UserSelector.tsx:47-52 | the filtered list is an order-preserving subsequence of the users, holding exactly those whose lower-cased name, email or non-empty role contains the term |
| `UserSelector.FilterUsersCounts` | src/components/UserSelector.tsx:47-52 | each matching user survives as many times as the list holds it; non-matching users are gone |
| `UserSelector.SearchResults` | src/components/UserSelector.tsx:44-59 | a term shorter than 2 UTF-16 code units gives no users. Otherwise the results are exactly the mock users matching the lower-cased term, as a subsequence of the mock list |
| `UserSelector.StripTags` | src/components/UserSelector.tsx:90 | removing `<[^>]*>` runs leaves no `<` that is followed later by a `>`, and introduces no character that was not there |
| `UserSelector.StripTagsCutsTag` | src/components/UserSelector.tsx:90 | text before the first `<` is kept as it is, and a `<...>` run with no `>` inside is cut out with nothing else. The rest is stripped in turn |
| `UserSelector.StripTagsWithoutTag` | src/components/UserSelector.tsx:90 | content with no `<` followed later by `>` is left unchanged |
| `UserSelector.StripTagsSample` | src/components/UserSelector.tsx:90 | `"a<b>c"` becomes `"ac"` |
| `UserSelector.SearchTermOf` | src/components/UserSelector.tsx:90 | the derived term starts and ends with a non-space character, and holds only characters of the content |
| `UserSelector.AstralCharPassesGate` | src/components/UserSelector.tsx:45 | a one-character term beyond U+FFFF has length 2, so it is searched for |
| `UserSelector.StripTagsWithoutOpen` | src/components/UserSelector.tsx:90 | content with no `<` passes through tag removal unchanged |
| `UserSelector.SearchTermProperties` | src/components/UserSelector.tsx:86-92 | the derived search term has no `<` followed later by `>`, and content with no `<` is only trimmed |
| `UserSelector.Selector.constructor` | src/components/UserSelector.tsx:37-40 | empty term and content, empty list, closed dropdown; the list agrees with the term |
| `UserSelector.Selector.IsUserSelected` | src/components/UserSelector.tsx:94-96 | true iff some selected user has the id |
| `UserSelector.Selector.RunSearch` | src/components/UserSelector.tsx:44-59 | afterwards the list is the search results for the term, and the dropdown is open iff the term has at least 2 UTF-16 code units |
| `UserSelector.Selector.QuillChange` | src/components/UserSelector.tsx:86-92 | the content is stored, and the term becomes the content with tags stripped and trimmed. The list and dropdown still agree with the term (the search runs when the term changed) |
| `UserSelector.Selector.Select` | src/components/UserSelector.tsx:75-78 | asks for the user to be selected and empties the editor content |
| `UserSelector.Selector.RequestRemove` | src/components/UserSelector.tsx:80-84 | asks for removal only when `onRemoveUser` is provided |
| `UserSelector.Selector.Click` | src/components/UserSelector.tsx:138-144 | an unselected user is selected once and the content is emptied. A selected user is removed only when `onRemoveUser` is provided; otherwise nothing happens |
| `UserSelector.Selector.CheckedChange` | src/components/UserSelector.tsx:128-134 | ticked and unselected leads to select. Unticked, selected and with `onRemoveUser` leads to remove. Every other combination does nothing |
| `PodsManagement.MatchNameRole` | src/components/PodsManagement.tsx:44 | no match iff the value is empty. The name is a non-empty prefix of the value, and the whole value when no role is found. A found role is non-empty, and the value then ends in `)` |
| `PodsManagement.DecodeSpan` | src/components/PodsManagement.tsx:37-53 | id and email are both `data-id` (or `""`). An empty label gives an empty name and no role. Without a role the name is the whole label; in any case the name is a prefix of it |
| `PodsManagement.NameEnd` | src/components/PodsManagement.tsx:44 | the lazy name group ends at the first position at which the rest is empty or a whitespace-led `(...)` suffix |
| `PodsManagement.SplitLaw` | src/components/PodsManagement.tsx:41-48 | no match iff the value is empty. When a role is found, value = name + non-empty white space + `(` + role + `)`, with name and role non-empty. Without a role, the name is the whole value |
| `PodsManagement.SplitShortest` | src/components/PodsManagement.tsx:44 | no shorter non-empty prefix than the decoded name is followed by a role suffix |
| `PodsManagement.NoRoleWithoutClosingParen` | src/components/PodsManagement.tsx:44 | a non-empty value not ending in `)` decodes to itself as the name, with no role |
| `PodsManagement.SplitLabel` | src/components/PodsManagement.tsx:44-48 | a value built as name + white space + `(role)`, where the name has no `(` and does not end in white space, decodes to exactly that name and role |
| `PodsManagement.LazyNameWithTwoGroups` | src/components/PodsManagement.tsx:44 | `"A (b) (c)"` decodes to the name `"A"` and the role `"b) (c"` |
| `PodsManagement.ExtractUsers` | src/components/PodsManagement.tsx:24-59 | absent content gives no users. Otherwise there is one user per span, in document order. Each has id = email = the span's `data-id` (`""` when missing), and the name and role split from its `data-value` |
| `PodsManagement.EmptyLabel` | src/components/PodsManagement.tsx:37-48 | an empty or missing `data-value` gives the name `""` and no role |
| `PodsManagement.SampleWithoutRole` | src/components/PodsManagement.tsx:13 | `"Manvendra Singh Bais"` decodes with that name and no role |
| `PodsManagement.SampleWithRole` | src/components/PodsManagement.tsx:13 | `"Akshay Desai (KHC Data)"` decodes to the name `"Akshay Desai"` and the role `"KHC Data"` |
| `UserTag.Handle` | src/components/UserTag.tsx:15 | the handle has no `@` and is a prefix of the email. Without `@` it is the whole email; with one, email = handle + `@` + rest |
| `UserTag.RoleSuffix` | src/components/UserTag.tsx:16 | the suffix is shown iff the role is present and non-empty, and is then ` (role)` |
| `UserTag.TagText` | src/components/UserTag.tsx:15-16 | the chip is `@`, then the handle (the whole email when it has no `@`). It ends in ` (role)` exactly when a non-empty role is present, and has no other text |
| `UserTag.TagTextWithoutRole` | src/components/UserTag.tsx:15-16 | with no role to show, the chip is `@` followed by the handle alone |

## Left out

- Browser storage of the filter selections (FilterSection.tsx:37-53) is I/O. The stored
  lists are constructor parameters, and the write-back effect is not modelled.
- The dropdown open flags, the click-outside listener, the rich-text editor widget,
  JSX rendering and styling are UI plumbing with no logic to state.
- Parsing of the markup in `extractUsersFromHTML` (`innerHTML`, `querySelectorAll`)
  is DOM work. The input is the sequence of the mention spans' attribute pairs in
  document order. `None` stands for absent or empty content.
- PodsManagement.MatchNameRole: models the pattern only for values without JavaScript
  line terminators (`\n`, `\r`, U+2028, U+2029). `.` cannot cross such a character, so on a
  value containing one the match could start after position 0. Every member that decodes requires single-line values.
- Lower-casing is ASCII case folding. JavaScript's `toLowerCase` also folds non-ASCII
  letters.
- React behaviour: batching of state updates, and the stale read of `podData` inside
  `handleAddUser`. Each handler reads the current state.
- `UserSelector.Selector.Select` empties the editor content but does not re-run the
  term derivation. Whether the editor widget reports that change back through
  `onChange` belongs to the widget, which is not part of this model.
- The legacy form's dialog title (`initialData.id ? 'Edit Pod' : 'Create New Pod'`) and
  the option lists of functional areas are display only.
- Members of the legacy form's buckets are modelled with id, email, name and role.
  Other properties the caller may put on them are passed through untouched and not
  represented.
