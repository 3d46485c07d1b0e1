/** The permission generators: what each one requires of an identity (its
    needs) and what it adds to a search (its query filter). */
module Generators {
  import opened Wrappers
  import opened Text
  import opened Records
  import opened Roles

  /** Every generator the policies use. The first eight are defined by this
      extension; the rest come from the host libraries and are uninterpreted. */
  datatype Generator =
    | Depositor
    | Viewer
    | RestrictedDataUser
    | PublicViewer
    | Curator
    | AdminSuperUser
    | ProprietaryRecordPermissions
    | IfRestricted(field: string, thenList: seq<Generator>, elseList: seq<Generator>)
    | RecordOwners
    | SystemProcess
    | SecretLinks(permission: string)
    | CommunityAction(action: string)
    | AnyUser
    | AuthenticatedUser
    | Disable
  {
    /** One of the five generators that grant a role named in the record. */
    predicate IsRoleGenerator()
    {
      Depositor? || Viewer? || RestrictedDataUser? || PublicViewer? || Curator?
    }
  }

  /** The role class each per-role generator passes to `get_roles`. */
  function RoleClass(g: Generator): string
    requires g.IsRoleGenerator()
  {
    match g
    case Depositor => "depositor"
    case Viewer => "viewer"
    case RestrictedDataUser => "restricted_data_user"
    case PublicViewer => "public_viewer"
    case Curator => "curator"
  }

  /** The needs of the host-library generators, left uninterpreted: every
      lemma below holds for every such function. */
  type ForeignNeeds = (Generator, Option<Record>) -> seq<Need>

  /** The query filters of the host-library generators, left uninterpreted. */
  type ForeignFilter = (Generator, Identity) -> Filter

  /** The `RoleNeed` of every role, in order. */
  function RoleNeedsOf(roles: seq<string>): seq<Need>
  {
    seq(|roles|, i requires 0 <= i < |roles| => RoleNeed(roles[i]))
  }

  /** The body shared by the five per-role generators' `needs`. */
  function RoleNeeds(record: Option<Record>, roleClass: string): Result<seq<Need>, Fault>
  {
    match GetRolesSpec(record, roleClass)
    case Err(e) => Err(e)
    case Ok(roles) => if |roles| == 0 then Ok([]) else Ok(RoleNeedsOf(roles))
  }

  /** The string `ProprietaryRecordPermissions` compares the whole `type` value with. */
  predicate HasProprietaryType(d: Description)
  {
    d.kind == TypeString(TechnicalInfo)
  }

  /** The first-match scan of `ProprietaryRecordPermissions.needs`: the first
      entry whose `type` is the string "technical-info" ends the scan, and
      ends it by raising, since `.name` is read off the cleaned string. */
  function ProprietaryScan(ds: seq<Description>): (r: Result<seq<Need>, Fault>)
    ensures r.Ok? ==> r.value == []
    decreases |ds|
  {
    if ds == [] then Ok([])
    else if HasProprietaryType(ds[0]) then
      match ds[0].text
      case None => Err(DescriptionNotString)
      case Some(text) => Err(RoleHasNoName(StripMarkup(text)))
    else ProprietaryScan(ds[1..])
  }

  /** `ProprietaryRecordPermissions.needs(record)` as a value. */
  function ProprietarySpec(record: Option<Record>): Result<seq<Need>, Fault>
  {
    match record
    case None => Ok([AuthenticatedUserNeed])
    case Some(r) =>
      match r.metadata
      case Present(m) =>
        (match DescriptionsOf(m)
         case Err(e) => Err(e)
         case Ok(ds) => ProprietaryScan(ds))
      case _ => Err(MetadataIsNone)
  }

  /** `ProprietaryRecordPermissions.needs`: no record means a create, open to
      any authenticated user; otherwise the scan stops at the first entry
      typed "technical-info". */
  method ProprietaryNeeds(record: Option<Record>) returns (r: Result<seq<Need>, Fault>)
    ensures r == ProprietarySpec(record)
  {
    if record.None? {
      return Ok([AuthenticatedUserNeed]);
    }
    if !record.value.metadata.Present? {
      return Err(MetadataIsNone);
    }
    var descriptions := DescriptionsOf(record.value.metadata.value);
    if descriptions.Err? {
      return Err(descriptions.error);
    }
    var ds := descriptions.value;
    var i := 0;
    while i < |ds|
      invariant 0 <= i <= |ds|
      invariant ProprietaryScan(ds[i..]) == ProprietaryScan(ds)
    {
      var d := ds[i];
      if d.kind == TypeString(TechnicalInfo) {
        if d.text.None? {
          return Err(DescriptionNotString);
        }
        var role := StripParagraphs(d.text.value);
        return Err(RoleHasNoName(role));
      }
      assert ds[i..][1..] == ds[i + 1..];
      i := i + 1;
    }
    return Ok([]);
  }

  /** `needs()` of every generator, called without arguments as
      `IfRestricted` calls its delegate: the per-role generators then raise
      in `get_roles`, and an `IfRestricted` sees a falsy record. */
  function NoArgNeeds(g: Generator, foreign: ForeignNeeds): Result<seq<Need>, Fault>
  {
    match g
    case Depositor | Viewer | RestrictedDataUser | PublicViewer | Curator => RoleNeeds(None, RoleClass(g))
    case AdminSuperUser => Ok([SuperuserAccess])
    case ProprietaryRecordPermissions => ProprietarySpec(None)
    case IfRestricted(_, _, _) => Ok([])
    case _ => Ok(foreign(g, None))
  }

  /** `branch[0].needs()`: the head of a branch list, called without a record. */
  function HeadNeeds(branch: seq<Generator>, foreign: ForeignNeeds): Result<seq<Need>, Fault>
  {
    if |branch| == 0 then Err(BranchIndexError) else NoArgNeeds(branch[0], foreign)
  }

  /** `IfRestricted(field, then_, else_).needs(record=record)`. */
  function IfRestrictedNeeds(field: string, thenList: seq<Generator>, elseList: seq<Generator>,
                             record: Option<Record>, foreign: ForeignNeeds): Result<seq<Need>, Fault>
  {
    if !Truthy(record) then Ok([])
    else
      var state := AccessState(record.value, field);
      if state.Err? then Err(state.error)
      else if state.value == Restricted then
        HeadNeeds(thenList, foreign)
      else
        HeadNeeds(elseList, foreign)
  }

  /** `needs(record=record)` of every generator. */
  function Needs(g: Generator, record: Option<Record>, foreign: ForeignNeeds): Result<seq<Need>, Fault>
  {
    match g
    case Depositor | Viewer | RestrictedDataUser | PublicViewer | Curator => RoleNeeds(record, RoleClass(g))
    case AdminSuperUser => Ok([SuperuserAccess])
    case ProprietaryRecordPermissions => ProprietarySpec(record)
    case IfRestricted(field, thenList, elseList) => IfRestrictedNeeds(field, thenList, elseList, record, foreign)
    case _ => Ok(foreign(g, record))
  }

  /** `NoArgNeeds` is `Needs` without a record. */
  lemma NoArgNeedsIsNeedsWithoutRecord(g: Generator, foreign: ForeignNeeds)
    ensures NoArgNeeds(g, foreign) == Needs(g, None, foreign)
  {
  }

  /** `query_filter(identity=identity)` of every generator. The per-role
      generators keep the host base class's filter, which adds nothing. */
  function QueryFilter(g: Generator, identity: Identity, foreign: ForeignFilter): Filter
  {
    match g
    case Depositor | Viewer | RestrictedDataUser | PublicViewer | Curator => Empty
    case AdminSuperUser => if SuperuserAccess in identity.provided then MatchAll else Empty
    case ProprietaryRecordPermissions => CanAll
    case IfRestricted(_, _, _) => MatchAll
    case _ => foreign(g, identity)
  }

  // ---- The five per-role generators ----

  /** A per-role generator raises exactly when `get_roles` raises; otherwise
      it grants one `RoleNeed` per extracted role, in the same order, and
      nothing when no role was found. */
  lemma RoleNeedsMirrorRoles(g: Generator, record: Option<Record>, foreign: ForeignNeeds)
    requires g.IsRoleGenerator()
    ensures var roles, ns := GetRolesSpec(record, RoleClass(g)), Needs(g, record, foreign);
      (ns.Err? <==> roles.Err?) &&
      (ns.Err? ==> ns.error == roles.error) &&
      (ns.Ok? ==>
        (ns.value == [] <==> roles.value == []) &&
        |ns.value| == |roles.value| &&
        forall k :: 0 <= k < |ns.value| ==> ns.value[k] == RoleNeed(roles.value[k]))
  {
  }

  /** Every need a per-role generator grants names, up to case, that
      generator's own role class, and is the stripped text of one of the
      record's technical-info entries. */
  lemma RoleNeedsSound(g: Generator, r: Record, foreign: ForeignNeeds)
    requires g.IsRoleGenerator()
    requires Needs(g, Some(r), foreign).Ok?
    ensures r.metadata.Present? && DescriptionsOf(r.metadata.value).Ok?
    ensures var ds := DescriptionsOf(r.metadata.value).value;
      forall n :: n in Needs(g, Some(r), foreign).value ==>
        n.RoleNeed? && Lower(n.name) == RoleClass(g) &&
        exists i :: 0 <= i < |ds| && IsTechnicalInfo(ds[i]) && ds[i].text.Some? &&
                    n.name == StripMarkup(ds[i].text.value)
  {
    var ds := DescriptionsOf(r.metadata.value).value;
    RolesSound(ds, RoleClass(g));
    var roles := RolesIn(ds, RoleClass(g)).value;
    forall n | n in Needs(g, Some(r), foreign).value
      ensures n.RoleNeed? && Lower(n.name) == RoleClass(g)
      ensures exists i :: 0 <= i < |ds| && IsTechnicalInfo(ds[i]) && ds[i].text.Some? &&
                          n.name == StripMarkup(ds[i].text.value)
    {
      var k :| 0 <= k < |roles| && n == RoleNeed(roles[k]);
    }
  }

  /** Two different per-role generators never grant the same need, whatever
      the records they read. */
  lemma RoleNeedsDisjoint(g1: Generator, g2: Generator, r1: Record, r2: Record, foreign: ForeignNeeds)
    requires g1.IsRoleGenerator() && g2.IsRoleGenerator() && g1 != g2
    requires Needs(g1, Some(r1), foreign).Ok? && Needs(g2, Some(r2), foreign).Ok?
    ensures forall n :: n in Needs(g1, Some(r1), foreign).value ==> n !in Needs(g2, Some(r2), foreign).value
  {
    RoleNeedsSound(g1, r1, foreign);
    RoleNeedsSound(g2, r2, foreign);
    assert RoleClass(g1) != RoleClass(g2);
  }

  /** Called without a record, a per-role generator raises in `get_roles`. */
  lemma RoleNeedsWithoutRecord(g: Generator, foreign: ForeignNeeds)
    requires g.IsRoleGenerator()
    ensures Needs(g, None, foreign) == Err(RecordIsNone)
  {
  }

  /** A record without additional descriptions gets nothing from a per-role generator. */
  lemma RoleNeedsWithoutDescriptions(g: Generator, r: Record, foreign: ForeignNeeds)
    requires g.IsRoleGenerator() && r.metadata.Present?
    requires r.metadata.value.additionalDescriptions.Absent? || r.metadata.value.additionalDescriptions == Present([])
    ensures Needs(g, Some(r), foreign) == Ok([])
  {
    GetRolesWithoutDescriptions(r, RoleClass(g));
  }

  /** The per-role generators never narrow or widen a search. */
  lemma RoleQueryFilter(g: Generator, identity: Identity, foreign: ForeignFilter)
    requires g.IsRoleGenerator()
    ensures QueryFilter(g, identity, foreign) == Empty
  {
  }

  // ---- AdminSuperUser ----

  /** `AdminSuperUser` always requires exactly `superuser_access`. */
  lemma AdminSuperUserNeeds(record: Option<Record>, foreign: ForeignNeeds)
    ensures Needs(AdminSuperUser, record, foreign) == Ok([SuperuserAccess])
  {
  }

  /** `AdminSuperUser` opens the whole search exactly to identities that
      carry `superuser_access`, and adds nothing for any other. */
  lemma AdminSuperUserFilter(identity: Identity, foreign: ForeignFilter)
    ensures QueryFilter(AdminSuperUser, identity, foreign) == MatchAll <==> SuperuserAccess in identity.provided
    ensures SuperuserAccess !in identity.provided ==> QueryFilter(AdminSuperUser, identity, foreign) == Empty
  {
  }

  // ---- ProprietaryRecordPermissions ----

  /** Without a record (a create), any authenticated user qualifies. */
  lemma ProprietaryWithoutRecord(foreign: ForeignNeeds)
    ensures Needs(ProprietaryRecordPermissions, None, foreign) == Ok([AuthenticatedUserNeed])
  {
  }

  /** The scan succeeds, with no need, exactly when no entry's `type` is the
      string "technical-info". */
  lemma {:induction false} ProprietaryScanOkIff(ds: seq<Description>)
    ensures ProprietaryScan(ds) == Ok([]) <==> forall i :: 0 <= i < |ds| ==> !HasProprietaryType(ds[i])
    decreases |ds|
  {
    if ds != [] {
      ProprietaryScanOkIff(ds[1..]);
      if forall i :: 0 <= i < |ds[1..]| ==> !HasProprietaryType(ds[1..][i]) {
        forall i | 0 < i < |ds| ensures !HasProprietaryType(ds[i]) {
          assert ds[i] == ds[1..][i - 1];
        }
      }
    }
  }

  /** The first entry whose `type` is the string "technical-info" decides
      the outcome, and that outcome is a failure: a missing description, or
      the `.name` lookup on its cleaned text. */
  lemma {:induction false} ProprietaryFirstMatch(ds: seq<Description>, j: int)
    requires 0 <= j < |ds| && HasProprietaryType(ds[j])
    requires forall i :: 0 <= i < j ==> !HasProprietaryType(ds[i])
    ensures ProprietaryScan(ds) ==
      match ds[j].text
      case None => Err(DescriptionNotString)
      case Some(text) => Err(RoleHasNoName(StripMarkup(text)))
    decreases j
  {
    if j > 0 {
      assert !HasProprietaryType(ds[0]);
      assert ds[1..][j - 1] == ds[j];
      ProprietaryFirstMatch(ds[1..], j - 1);
    }
  }

  /** With a record, the generator never grants a need: it returns none or raises. */
  lemma ProprietaryNeverGrants(r: Record, foreign: ForeignNeeds)
    ensures var ns := Needs(ProprietaryRecordPermissions, Some(r), foreign);
      ns.Ok? ==> ns.value == []
  {
  }

  /** Entries that carry `type.id == "technical-info"`, the form `get_roles`
      reads, are invisible to this generator, which compares the whole `type`. */
  lemma ProprietaryIgnoresRoleEntries(r: Record, foreign: ForeignNeeds)
    requires r.metadata.Present? && DescriptionsOf(r.metadata.value).Ok?
    requires var ds := DescriptionsOf(r.metadata.value).value;
      forall i :: 0 <= i < |ds| ==> ds[i].kind.TypeObject?
    ensures Needs(ProprietaryRecordPermissions, Some(r), foreign) == Ok([])
  {
    ProprietaryScanOkIff(DescriptionsOf(r.metadata.value).value);
  }

  /** Proprietary records stay visible in every search. */
  lemma ProprietaryFilter(identity: Identity, foreign: ForeignFilter)
    ensures QueryFilter(ProprietaryRecordPermissions, identity, foreign) == CanAll
  {
  }

  // ---- IfRestricted ----

  /** An absent or empty record gets nothing, whatever the branches. */
  lemma IfRestrictedFalsy(field: string, thenList: seq<Generator>, elseList: seq<Generator>,
                          record: Option<Record>, foreign: ForeignNeeds)
    requires !Truthy(record)
    ensures Needs(IfRestricted(field, thenList, elseList), record, foreign) == Ok([])
  {
  }

  /** For a record, the exact state "restricted" selects the head of
      `thenList` and every other state the head of `elseList`; an `access`
      of `null` raises before either is consulted. */
  lemma IfRestrictedDispatch(field: string, thenList: seq<Generator>, elseList: seq<Generator>,
                             r: Record, foreign: ForeignNeeds)
    requires Truthy(Some(r))
    ensures AccessState(r, field) == Ok(Restricted) ==>
      Needs(IfRestricted(field, thenList, elseList), Some(r), foreign) == HeadNeeds(thenList, foreign)
    ensures AccessState(r, field).Ok? && AccessState(r, field).value != Restricted ==>
      Needs(IfRestricted(field, thenList, elseList), Some(r), foreign) == HeadNeeds(elseList, foreign)
    ensures r.access.Null? ==>
      Needs(IfRestricted(field, thenList, elseList), Some(r), foreign) == Err(AccessIsNone)
  {
  }

  /** A record without an `access` section, or without the field in it, is
      treated as restricted. */
  lemma IfRestrictedFailsClosed(field: string, thenList: seq<Generator>, elseList: seq<Generator>,
                                r: Record, foreign: ForeignNeeds)
    requires Truthy(Some(r))
    requires r.access.Absent? || (r.access.Present? && field !in r.access.value)
    ensures Needs(IfRestricted(field, thenList, elseList), Some(r), foreign) == HeadNeeds(thenList, foreign)
  {
  }

  /** A record whose only key is `metadata`, set to `null`, is still a non-empty
      dictionary: it reads as restricted and the head of `thenList` decides. */
  lemma IfRestrictedNullMetadata(field: string, thenList: seq<Generator>, elseList: seq<Generator>,
                                 foreign: ForeignNeeds)
    ensures Needs(IfRestricted(field, thenList, elseList), Some(Record(Null, Absent, {})), foreign)
         == HeadNeeds(thenList, foreign)
  {
  }

  /** Only the first generator of each branch list is ever consulted. */
  lemma IfRestrictedHeadsOnly(field: string, t1: seq<Generator>, e1: seq<Generator>,
                              t2: seq<Generator>, e2: seq<Generator>,
                              record: Option<Record>, foreign: ForeignNeeds)
    requires |t1| > 0 && |t2| > 0 && t1[0] == t2[0]
    requires |e1| > 0 && |e2| > 0 && e1[0] == e2[0]
    ensures Needs(IfRestricted(field, t1, e1), record, foreign) == Needs(IfRestricted(field, t2, e2), record, foreign)
  {
  }

  /** The delegate does not see the record: two records with the same
      restriction flag get the same answer. */
  lemma IfRestrictedIgnoresRecord(field: string, thenList: seq<Generator>, elseList: seq<Generator>,
                                  r1: Record, r2: Record, foreign: ForeignNeeds)
    requires Truthy(Some(r1)) && Truthy(Some(r2))
    requires AccessState(r1, field).Ok? && AccessState(r2, field).Ok?
    requires (AccessState(r1, field).value == Restricted) == (AccessState(r2, field).value == Restricted)
    ensures Needs(IfRestricted(field, thenList, elseList), Some(r1), foreign)
         == Needs(IfRestricted(field, thenList, elseList), Some(r2), foreign)
  {
  }

  /** Delegating to a per-role generator always raises, because the
      delegate is called without the record. */
  lemma IfRestrictedRoleDelegateRaises(field: string, thenList: seq<Generator>, elseList: seq<Generator>,
                                       r: Record, foreign: ForeignNeeds)
    requires Truthy(Some(r)) && AccessState(r, field) == Ok(Restricted)
    requires |thenList| > 0 && thenList[0].IsRoleGenerator()
    ensures Needs(IfRestricted(field, thenList, elseList), Some(r), foreign) == Err(RecordIsNone)
  {
  }

  /** The search filter is the permissive placeholder, for every identity. */
  lemma IfRestrictedFilter(field: string, thenList: seq<Generator>, elseList: seq<Generator>,
                           identity: Identity, foreign: ForeignFilter)
    ensures QueryFilter(IfRestricted(field, thenList, elseList), identity, foreign) == MatchAll
  {
  }
}
