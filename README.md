# ultraviolet_permissions in Dafny

This project models the permission rules of the UltraViolet extension to
InvenioRDM and proves properties of them. It covers two parts:

- **Generators** (`ultraviolet_permissions/generators.py`). A generator turns
  a record into the identity claims ("needs") that grant an action, and turns
  an identity into a search-filter clause. The project models:
  - `get_roles`, which reads role names out of a record's "technical-info"
    additional descriptions;
  - the five per-role generators;
  - `AdminSuperUser`;
  - `ProprietaryRecordPermissions`;
  - the conditional `IfRestricted`.
- **Policies** (`ultraviolet_permissions/policies.py`). These are the three
  tables that map each action (`can_read`, `can_publish`, ...) to an ordered
  list of generators.

Modules, one per file:

- `Wrappers` (`wrappers.dfy`): `Option` and `Result`.
- `Text` (`text.dfy`): the string operations Python does here. These are
  ASCII `lower`, substring `in`, and `replace(p, "")`, which removes every
  non-overlapping occurrence in one left-to-right pass. `StripMarkup` is the
  guarded removal of `<p>` and then `</p>`.
- `Records` (`records.dfy`): records, descriptions, needs, identities,
  filter tokens, and `Fault`, which names each way the modelled inputs make the Python code raise.
- `Roles` (`roles.dfy`): `get_roles`.
  - `GetRoles` is an imperative loop, like the source.
  - It is proved equal to the functional `GetRolesSpec`, and the properties
    are proved about that function.
- `Generators` (`generators.dfy`):
  - the closed `Generator` datatype; each variant's constructor is that
    class's `__init__`, and `IfRestricted(field, thenList, elseList)` keeps
    its three fields unchanged;
  - `Needs` and `QueryFilter` for every generator;
  - the loop of `ProprietaryRecordPermissions.needs`, as the method
    `ProprietaryNeeds`, proved equal to `ProprietarySpec`.
- `Policies` (`policies.dfy`):
  - the three policy tables as values built by the same concatenations;
  - `Grants`, the host's reading of a generator list;
  - the facts about the tables, including end-to-end read decisions.

A Python exception becomes an `Err(fault)` result rather than a
precondition. This covers:

- a record of `None`, or a `metadata` that is missing or `null`;
- an `additional_descriptions` of `null`, which cannot be iterated;
- an `access` of `null` in `IfRestricted`;
- a `type` that is missing or not a mapping, in `get_roles`;
- a technical-info entry without a `description`;
- the `.name` lookup on a string;
- an empty branch list in `IfRestricted`.

A dictionary key that is missing and one that maps to `null` are kept
apart (`Records.Field`), because `dict.get` with a default treats them
differently. A record such as `{"metadata": null}` is also a non-empty
dictionary, so `IfRestricted` does not treat it as falsy. `IfRestricted` calls its
delegate with no record, so a per-role delegate really does reach the
`None` record. The model therefore has to represent that outcome.

Behaviour worth noting:

- **`replace`.** The code removes every `<p>` and every `</p>`, in one pass
  each, not only the first one. For example, `<p>Cur</p><p>ator</p>` yields the
  role `Curator`. See `Text.StripParagraphsAll`, `Text.StripTwoParagraphs`
  and `Roles.SplitCuratorExample`. The pass does not repeat, so a `<p>`
  formed by joining the text around a deleted one survives. See
  `Text.RemoveAllSinglePass`.
- **Stored case.** A stored `"<p>Curator</p>"` yields `"Curator"`, with its
  stored case, not `"curator"`. See `Roles.CuratorExample`.
- **Malformed entries.** Some malformed description entries are not skipped:
  they raise, and so does the generator evaluating them.
  - In `get_roles`, an entry raises if its `type` is missing or is not a
    mapping, or if it is a technical-info entry without a `description`.
  - In `get_roles`, an entry whose `type` is a mapping with another `id`, or
    with no `id`, is skipped whatever its `description`.
  - `ProprietaryRecordPermissions` skips every entry whose `type` is not the
    string `"technical-info"`, including entries with no `type`. It raises
    only on the first entry whose `type` is that string.
- **Restricted reads.** In `can_read` and `can_read_files` of the NYU and
  DataUse policies, only the first generator of each branch decides.
  - A restricted record is decided by `RecordOwners().needs()` called
    without the record, so the record's owners are never consulted
    (`Policies.ReadDelegates`).
  - An open record is decided by `AnyUser`.
  - `Viewer` and `RestrictedDataUser` are never consulted there.

## Model

| member | source | states |
|---|---|---|
| Text.RemoveAll | ultraviolet_permissions/generators.py:26 | removing a pattern never lengthens the text; the text is unchanged when the pattern does not occur, and shrinks by at least the pattern's length when it does (that every occurrence goes is stated by the lemmas below) |
| Text.RemoveAllLeading | ultraviolet_permissions/generators.py:26 | an occurrence at the start is deleted and the pass carries on with the rest |
| Text.GuardedRemoveAll | ultraviolet_permissions/generators.py:25-29 | testing `p in s` before `replace` never changes the result |
| Text.CloseTagKept | ultraviolet_permissions/generators.py:26 | deleting `<p>` from `"</p>" + t` keeps that leading `</p>` and carries on with `t` |
| Text.OpenTagsRemoved | ultraviolet_permissions/generators.py:26 | in any number of paragraphs, removing `<p>` deletes the opening tag of every one, not only the first |
| Text.CloseTagsRemoved | ultraviolet_permissions/generators.py:29 | removing `</p>` then deletes every closing tag, leaving the words run together |
| Text.StripParagraphsAll | ultraviolet_permissions/generators.py:24-29 | the markup stripping of any sequence of paragraphs of `<`-free words gives the words run together |
| Text.StripTwoParagraphs | ultraviolet_permissions/generators.py:24-29 | `<p>a</p><p>b</p>` strips to `ab`, which a first-occurrence deletion would not give |
| Text.Lower | ultraviolet_permissions/generators.py:30 | no contract of its own: ASCII `str.lower`, used by `Roles.RolesSound` and `Generators.RoleNeedsSound` to state that each role lower-cases to its class |
| Text.ContainsIff | ultraviolet_permissions/generators.py:25 | substring `in` holds exactly when the pattern occurs at some position |
| Text.RemoveAllSinglePass | ultraviolet_permissions/generators.py:26 | `replace` is one non-overlapping pass: removing `<p>` from `<<p>p>` leaves `<p>` |
| Text.RemoveAllKeepsPlain | ultraviolet_permissions/generators.py:26 | a prefix without `<` passes through markup removal untouched |
| Text.StripWrapped | ultraviolet_permissions/generators.py:24-29 | a word without `<` wrapped in `<p>…</p>` is recovered exactly by the markup stripping |
| Records.Truthy | ultraviolet_permissions/generators.py:187 | no contract of its own: the truth value of `record`, whose meaning is stated by `Generators.IfRestrictedFalsy` and `Generators.IfRestrictedNullMetadata` |
| Records.AccessState | ultraviolet_permissions/generators.py:190-193 | a missing `access` section or a missing field reads as `"restricted"`, an `access` of `null` raises, and otherwise the field's stored value is read |
| Records.DescriptionsOf | ultraviolet_permissions/generators.py:21-22 | a missing `additional_descriptions` is the empty list, iterating one of `null` raises, and a present list is returned unchanged |
| Roles.GetRoles | ultraviolet_permissions/generators.py:19-32 | the loop returns exactly `GetRolesSpec`: no record or no `metadata` raises; otherwise the entries are scanned in order, and the first faulty entry raises |
| Roles.StripParagraphs | ultraviolet_permissions/generators.py:24-29 | the two guarded reassignments of `role` compute `StripMarkup`, which removes the markup of every paragraph (`Text.StripParagraphsAll`) |
| Roles.RolesInOkIff | ultraviolet_permissions/generators.py:22-24 | `get_roles` succeeds exactly when no entry has a non-mapping `type` or a technical-info entry without text |
| Roles.MatchingIndicesSpec | ultraviolet_permissions/generators.py:22-31 | the matching positions are listed once each, in increasing order; every listed position matches and every matching position is listed |
| Roles.RolesInExact | ultraviolet_permissions/generators.py:22-31 | on success, the result is the stripped text of exactly the matching entries, in input order, with duplicates kept |
| Roles.RolesSound | ultraviolet_permissions/generators.py:22-31 | every returned role lower-cases to the requested class and is the stripped text of a technical-info entry; there are never more roles than entries |
| Roles.GetRolesWithoutDescriptions | ultraviolet_permissions/generators.py:21 | a missing or empty `additional_descriptions` gives `[]` |
| Roles.WrappedRole | ultraviolet_permissions/generators.py:22-31 | one technical-info entry `<p>w</p>` with `lower(w)` equal to the class gives exactly `[w]` |
| Roles.SingleEntry | ultraviolet_permissions/generators.py:20-32 | a record with one description entry yields what that entry contributes |
| Roles.ParagraphsRole | ultraviolet_permissions/generators.py:22-31 | an entry made of several paragraphs of `<`-free words that name the class yields the words run together |
| Roles.TwoParagraphRole | ultraviolet_permissions/generators.py:22-31 | an entry `<p>a</p><p>b</p>` whose `lower(a + b)` is the class yields `a + b` |
| Roles.SplitCuratorExample | ultraviolet_permissions/generators.py:22-31 | stored `<p>Cur</p><p>ator</p>` gives `["Curator"]` for the class `"curator"` |
| Roles.CuratorExample | ultraviolet_permissions/generators.py:22-31 | stored `<p>Curator</p>` gives `["Curator"]` for the class `"curator"` |
| Generators.RoleClass | ultraviolet_permissions/generators.py:101-161 | no contract of its own: the class name each per-role generator passes to `get_roles`, used by `Generators.RoleNeedsSound` and `Generators.RoleNeedsDisjoint` |
| Generators.RoleNeeds | ultraviolet_permissions/generators.py:99-164 | no contract of its own: the shared body of the five per-role `needs`, whose meaning is stated by `Generators.RoleNeedsMirrorRoles` and `Generators.RoleNeedsSound` |
| Generators.Needs | ultraviolet_permissions/generators.py:49-200 | no contract of its own: `needs(record)` of every generator, whose meaning is stated per generator by the `RoleNeeds*`, `AdminSuperUserNeeds`, `Proprietary*` and `IfRestricted*` lemmas |
| Generators.QueryFilter | ultraviolet_permissions/generators.py:68-205 | no contract of its own: `query_filter` of every generator, whose meaning is stated by `Generators.RoleQueryFilter`, `Generators.AdminSuperUserFilter`, `Generators.ProprietaryFilter` and `Generators.IfRestrictedFilter` |
| Generators.RoleNeedsMirrorRoles | ultraviolet_permissions/generators.py:99-164 | each per-role generator raises exactly when `get_roles` does and with the same fault; otherwise it gives one `RoleNeed` per role, in order, and `[]` exactly when there are no roles |
| Generators.RoleNeedsSound | ultraviolet_permissions/generators.py:99-164 | every need of a per-role generator is a `RoleNeed` whose name lower-cases to that generator's class and comes from a technical-info entry |
| Generators.RoleNeedsDisjoint | ultraviolet_permissions/generators.py:101-161 | two different per-role generators never produce a common need |
| Generators.RoleNeedsWithoutRecord | ultraviolet_permissions/generators.py:21 | a per-role generator called without a record raises |
| Generators.RoleNeedsWithoutDescriptions | ultraviolet_permissions/generators.py:99-164 | a record without additional descriptions gets `[]` from every per-role generator |
| Generators.RoleQueryFilter | ultraviolet_permissions/generators.py:92-164 | the per-role generators keep the base class's empty search filter |
| Generators.AdminSuperUserNeeds | ultraviolet_permissions/generators.py:80-82 | needs are always exactly `[superuser_access]` |
| Generators.AdminSuperUserFilter | ultraviolet_permissions/generators.py:84-89 | the filter is match-all exactly when the identity provides `superuser_access`, and empty otherwise |
| Generators.ProprietaryNeeds | ultraviolet_permissions/generators.py:49-66 | the loop with its early return computes exactly `ProprietarySpec`: no record gives `[authenticated_user]`, no `metadata` raises, otherwise the first-match scan |
| Generators.ProprietaryScan | ultraviolet_permissions/generators.py:57-66 | a successful scan yields no need |
| Generators.ProprietaryWithoutRecord | ultraviolet_permissions/generators.py:51-54 | without a record the need is `[authenticated_user]` |
| Generators.ProprietaryScanOkIff | ultraviolet_permissions/generators.py:57-66 | the scan returns `[]` exactly when no entry's whole `type` equals the string `"technical-info"` |
| Generators.ProprietaryFirstMatch | ultraviolet_permissions/generators.py:57-65 | the first entry whose `type` is that string decides, and the outcome is a failure: no text, or the `.name` lookup on the stripped text |
| Generators.ProprietaryNeverGrants | ultraviolet_permissions/generators.py:56-66 | with a record the generator never returns a need |
| Generators.ProprietaryIgnoresRoleEntries | ultraviolet_permissions/generators.py:58 | entries whose `type` is a mapping, the form `get_roles` reads, never trigger the scan |
| Generators.ProprietaryFilter | ultraviolet_permissions/generators.py:68-70 | the filter is the constant `Q('can_all')` |
| Generators.NoArgNeeds | ultraviolet_permissions/generators.py:196-198 | no contract of its own: `needs()` with no arguments, as `IfRestricted` calls its delegate; `Generators.NoArgNeedsIsNeedsWithoutRecord` equates it with `needs(None)` |
| Generators.HeadNeeds | ultraviolet_permissions/generators.py:196-198 | no contract of its own: `branch[0].needs()`, an `IndexError` on an empty branch, used by `Generators.IfRestrictedDispatch` and `Generators.IfRestrictedHeadsOnly` |
| Generators.IfRestrictedNeeds | ultraviolet_permissions/generators.py:185-200 | no contract of its own: `IfRestricted.needs`, whose meaning is stated by `Generators.IfRestrictedFalsy`, `Generators.IfRestrictedDispatch`, `Generators.IfRestrictedFailsClosed`, `Generators.IfRestrictedHeadsOnly` and `Generators.IfRestrictedIgnoresRecord` |
| Generators.NoArgNeedsIsNeedsWithoutRecord | ultraviolet_permissions/generators.py:196-198 | a delegate called without arguments behaves as `needs(None)` |
| Generators.IfRestrictedFalsy | ultraviolet_permissions/generators.py:187-188 | an absent or empty record gets `[]`, whatever the branches |
| Generators.IfRestrictedDispatch | ultraviolet_permissions/generators.py:190-198 | the exact state `"restricted"` selects `then_[0].needs()`, any other state selects `else_[0].needs()`, and an `access` of `null` raises |
| Generators.IfRestrictedNullMetadata | ultraviolet_permissions/generators.py:187-196 | the record `{"metadata": null}` is truthy and reads as restricted, so `then_[0].needs()` decides |
| Generators.IfRestrictedFailsClosed | ultraviolet_permissions/generators.py:192 | a missing `access` section, or a missing field in a present one, selects the `then_` branch |
| Generators.IfRestrictedHeadsOnly | ultraviolet_permissions/generators.py:196-198 | branch lists with equal heads give equal results: later elements never matter |
| Generators.IfRestrictedIgnoresRecord | ultraviolet_permissions/generators.py:196-198 | two non-empty records whose `access` reads without raising, and with the same restriction flag, get the same answer |
| Generators.IfRestrictedRoleDelegateRaises | ultraviolet_permissions/generators.py:196 | a per-role delegate, called without arguments, raises in `get_roles` |
| Generators.IfRestrictedFilter | ultraviolet_permissions/generators.py:202-205 | the filter is always match-all |
| Policies.UltraVioletPolicy | ultraviolet_permissions/policies.py:18-93 | no contract of its own: the `UltraVioletPermissionPolicy` table, whose content is stated by the `Policies` table lemmas below (`ManageIsPrefix`, `DisabledActions`, `CurateAliases`, `CreateByPolicy`, ...) |
| Policies.NYURecordPolicy | ultraviolet_permissions/policies.py:97-174 | no contract of its own: the `NYURecordPermissionPolicy` table, whose content is stated by the `Policies` table lemmas below, including `ReadListsAreConditional` and `ReadGrantsIff` |
| Policies.DataUseRecordPolicy | ultraviolet_permissions/policies.py:178-255 | no contract of its own: the `DataUseRecordPermissionPolicy` table, whose content is stated by the `Policies` table lemmas below, including `DataUseOpenFilesReadable` and `DataUseRestrictedFilesRefused` |
| Policies.GrantsExtend | ultraviolet_permissions/policies.py:35-37 | extending a generator list never withdraws a grant |
| Policies.ManageIsPrefix | ultraviolet_permissions/policies.py:34-37 | in every policy `can_manage` is a prefix of `can_curate`, `can_preview` and `can_view` |
| Policies.ManageGrantsImpliesHigherLevel | ultraviolet_permissions/policies.py:109-112 | whatever `can_manage` grants, `can_curate`, `can_preview` and `can_view` grant as well; this relies on `Grants` counting a raising generator (such as `Curator` on an entry without `type`) as not granting |
| Policies.DisabledActions | ultraviolet_permissions/policies.py:89-93 | the five update and delete actions are exactly `[Disable()]` in every policy |
| Policies.CurateAliases | ultraviolet_permissions/policies.py:58-82 | the ten draft, PID and record actions equal `can_curate`, and `can_lift_embargo` equals `can_manage` |
| Policies.PreviewAliases | ultraviolet_permissions/policies.py:54-56 | reading a draft and its files uses `can_preview` |
| Policies.CreateByPolicy | ultraviolet_permissions/policies.py:46 | `can_create` is `can_manage`, `can_authenticated + [Depositor()]` and `can_authenticated` in the three policies |
| Policies.SearchDraftsByPolicy | ultraviolet_permissions/policies.py:133 | only NYU adds `Depositor()` to `can_authenticated` for searching drafts |
| Policies.DepositorAndPublicViewerPlacement | ultraviolet_permissions/policies.py:34-40 | `Depositor()` is in `can_manage`, and `PublicViewer()` in `can_all`, exactly in UltraViolet |
| Policies.NeedLabelToActionShared | ultraviolet_permissions/policies.py:25-29 | the need-label map is the same in all policies: `bucket-read` and `object-read` map to `read_files`, `bucket-update` to `update_files`, and there are no other keys |
| Policies.SearchAndReadDefinedBy | ultraviolet_permissions/policies.py:121-125 | NYU and DataUse define searching as `can_all` and define reading; UltraViolet defines neither |
| Policies.ReadListsAreConditional | ultraviolet_permissions/policies.py:204-206 | NYU and DataUse read lists are single `IfRestricted` generators on `record` and `files`, over `can_view` and `can_all` |
| Policies.ReadDelegates | ultraviolet_permissions/policies.py:123-125 | the deciding generator is `RecordOwners` (no record passed) when restricted and `AnyUser` when open; an empty record gets `[]`, and an `access` of `null` raises |
| Policies.GrantsSingleton | ultraviolet_permissions/policies.py:123 | a one-generator list grants exactly when that generator does |
| Policies.ReadGrantsIff | ultraviolet_permissions/policies.py:204-206 | reading is granted exactly when the record is non-empty, its `access` is not `null`, and the identity meets the needs of `RecordOwners` (restricted) or `AnyUser` (open) |
| Policies.DataUseOpenFilesReadable | ultraviolet_permissions/policies.py:206 | DataUse files marked `"open"` are readable by any identity `AnyUser` admits |
| Policies.DataUseRestrictedFilesRefused | ultraviolet_permissions/policies.py:206 | DataUse files marked `"restricted"` are refused to any identity that does not meet the needs of `RecordOwners`, whatever roles it holds |

## Left out

- Foreign generators are uninterpreted. These are `RecordOwners`,
  `SystemProcess`, `SecretLinks`, `CommunityAction`, `AnyUser`,
  `AuthenticatedUser` and `Disable`, and they come from other InvenioRDM
  packages. Their needs are a function parameter (`ForeignNeeds`), and so
  are their filters (`ForeignFilter`). Every fact about them is a
  hypothesis on that parameter.
- Foreign needs are modelled as never raising.
- Text.RemoveAll: its own contract bounds only the length of the result.
  That every occurrence is removed is stated by the lemmas
  `Text.RemoveAllLeading`, `Text.OpenTagsRemoved`, `Text.CloseTagsRemoved`
  and `Text.StripParagraphsAll`. They cover the paragraph markup the
  generators strip, not arbitrary patterns.
- The base `Generator.query_filter` of the host library is taken to be the
  empty filter. This is the filter of the per-role generators.
- Of the actions NYU and DataUse define, UltraViolet inherits `can_search`,
  `can_read` and `can_read_files`, which are `None` in its table. They come
  from `RDMRecordPermissionPolicy`, which is not part of this model. All
  three classes inherit further actions from it that none of them defines;
  those are not in the tables either.
- Host evaluation is represented by `Policies.Grants`, which is an
  assumption:
  - a list grants when some generator evaluates without raising and the
    identity provides one of its needs;
  - a generator that raises is counted as not granting, where the host
    would propagate the exception;
  - the `superuser-access` claim that the host adds to every permission
    (`policies.py:21-22`) is not modelled.
- Search filters are tokens (`MatchAll`, `CanAll`, `Empty`), not Elasticsearch
  queries. `Q('can_all')` is kept as its own token and is not interpreted.
- `str.lower` is ASCII lower-casing only. Unicode case mapping is not modelled.
- Some value kinds are not modelled. Each of them makes Python raise or
  behave in ways no `Fault` records:
  - a description entry that is not a mapping (`description.get` raises);
  - a `metadata` that is present but not a mapping (`.get` raises);
  - an `access` that is present but not a mapping (`.get` raises);
  - a non-string description other than a missing one;
  - a `null` value for a field in `access`, as in
    `{"access": {"files": null}}`. Line 192 then returns `None`, which is
    not `"restricted"`, so `else_[0]` decides: `AnyUser` in NYU and DataUse.
    The fail-closed default covers only a missing key, not a `null` one;
  - any other non-string value in `access`;
  - an `additional_descriptions` that is present but not a list;
  - an `identity` of `None` in `AdminSuperUser.query_filter`.
- The `**kwargs` the generators receive are ignored, as the source ignores them.
- Identity resolution, request handling and concurrency are not part of this code.
