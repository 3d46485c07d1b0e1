/** The values the permission generators read and produce: a record's
    metadata and access section, an identity's claims, query-filter tokens
    and the ways an evaluation can fail. */
module Records {
  import opened Wrappers

  /** A dictionary entry as `dict.get` sees it: the key is missing, it maps
      to `null`, or it holds a value. */
  datatype Field<+T> = Absent | Null | Present(value: T)

  /** The `type` value of one additional description. */
  datatype TypeValue =
    | TypeMissing                      // no `type` key (or `null`)
    | TypeString(value: string)        // `type` holds a plain string
    | TypeObject(id: Option<string>)   // `type` is a mapping, with or without `id`

  /** One entry of `metadata.additional_descriptions`; `text` is `None` when
      `description` is missing or `null`. */
  datatype Description = Description(kind: TypeValue, text: Option<string>)

  /** The record's `metadata`. */
  datatype Metadata = Metadata(additionalDescriptions: Field<seq<Description>>)

  /** A record or draft as a dictionary. `metadata` and `access` are the two
      keys the generators read; `otherKeys` names the other top-level keys,
      which matter only to the record's truth value (a name `metadata` or
      `access` in it is ignored: those two keys are the fields above). */
  datatype Record = Record(
    metadata: Field<Metadata>,
    access: Field<map<string, string>>,
    otherKeys: set<string>)

  /** Python truthiness of the `record` argument: present and not an empty
      dictionary. A key that maps to `null` still makes the dictionary non-empty. */
  predicate Truthy(record: Option<Record>)
  {
    record.Some? &&
    (!record.value.metadata.Absent? || !record.value.access.Absent? ||
     record.value.otherKeys - {"metadata", "access"} != {})
  }

  /** The restriction state that marks a field as restricted. */
  const Restricted := "restricted"

  /** `record.get('access', {}).get(field, "restricted")`: a missing section or
      field reads as restricted, and an `access` of `null` raises. */
  function AccessState(r: Record, field: string): (state: Result<string, Fault>)
    ensures state.Err? <==> r.access.Null?
    ensures state.Err? ==> state.error == AccessIsNone
    ensures (r.access.Absent? || (r.access.Present? && field !in r.access.value)) ==> state == Ok(Restricted)
    ensures r.access.Present? && field in r.access.value ==> state == Ok(r.access.value[field])
  {
    match r.access
    case Absent => Ok(Restricted)
    case Null => Err(AccessIsNone)
    case Present(access) => if field in access then Ok(access[field]) else Ok(Restricted)
  }

  /** `metadata.get("additional_descriptions", [])`, as the loops iterate it:
      a missing list is empty, and iterating `null` raises. */
  function DescriptionsOf(m: Metadata): (ds: Result<seq<Description>, Fault>)
    ensures ds.Err? <==> m.additionalDescriptions.Null?
    ensures ds.Err? ==> ds.error == DescriptionsNotList
    ensures m.additionalDescriptions.Absent? ==> ds == Ok([])
    ensures m.additionalDescriptions.Present? ==> ds == Ok(m.additionalDescriptions.value)
  {
    match m.additionalDescriptions
    case Absent => Ok([])
    case Null => Err(DescriptionsNotList)
    case Present(ds) => Ok(ds)
  }

  /** An identity claim. `ForeignNeed` stands for the claims that the host
      libraries define (`system_process`, `any_user`, owner claims, ...). */
  datatype Need =
    | RoleNeed(name: string)
    | SuperuserAccess
    | AuthenticatedUserNeed
    | ForeignNeed(tag: string)

  /** The claims an identity provides (`identity.provides`). */
  datatype Identity = Identity(provided: set<Need>)

  /** Search filters as tokens: `Q('match_all')`, `Q('can_all')` and `[]`. */
  datatype Filter = MatchAll | CanAll | Empty

  /** The exceptions the generators can raise, named by their cause. */
  datatype Fault =
    | RecordIsNone            // `None.get("metadata")`: no record was passed
    | MetadataIsNone          // `record.get("metadata")` is `None`
    | DescriptionsNotList     // iterating an `additional_descriptions` of `null`
    | AccessIsNone            // `record.get('access', {})` is `None`: `access` is `null`
    | TypeNotMapping          // `description.get("type")` has no `.get`
    | DescriptionNotString    // `"<p>" in None`: the entry has no description text
    | RoleHasNoName(role: string)  // `role.name` on the cleaned string `role`
    | BranchIndexError        // `then_[0]` or `else_[0]` of an empty list
}
