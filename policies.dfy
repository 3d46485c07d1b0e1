/** The three permission policies: for each action, the ordered list of
    generators that may grant it. */
module Policies {
  import opened Wrappers
  import opened Records
  import opened Generators

  /** The three deployment profiles. */
  datatype PolicyName = UltraViolet | NYURecord | DataUseRecord

  /** One policy class: its `NEED_LABEL_TO_ACTION` and its `can_*` lists.
      An `Option` field is `None` where the class inherits the action from
      the host's record policy, which is not part of this model. */
  datatype PolicyTable = PolicyTable(
    needLabelToAction: map<string, string>,
    canManage: seq<Generator>,
    canCurate: seq<Generator>,
    canPreview: seq<Generator>,
    canView: seq<Generator>,
    canAuthenticated: seq<Generator>,
    canAll: seq<Generator>,
    canSearch: Option<seq<Generator>>,
    canRead: Option<seq<Generator>>,
    canReadFiles: Option<seq<Generator>>,
    canCreate: seq<Generator>,
    canSearchDrafts: seq<Generator>,
    canReadDraft: seq<Generator>,
    canDraftReadFiles: seq<Generator>,
    canUpdateDraft: seq<Generator>,
    canDraftCreateFiles: seq<Generator>,
    canDraftUpdateFiles: seq<Generator>,
    canDraftDeleteFiles: seq<Generator>,
    canPidReserve: seq<Generator>,
    canPidDelete: seq<Generator>,
    canEdit: seq<Generator>,
    canDeleteDraft: seq<Generator>,
    canNewVersion: seq<Generator>,
    canPublish: seq<Generator>,
    canLiftEmbargo: seq<Generator>,
    canUpdate: seq<Generator>,
    canDelete: seq<Generator>,
    canCreateFiles: seq<Generator>,
    canUpdateFiles: seq<Generator>,
    canDeleteFiles: seq<Generator>)

  /** `UltraVioletPermissionPolicy`. */
  function UltraVioletPolicy(): PolicyTable
  {
    var canManage := [RecordOwners, SystemProcess, AdminSuperUser, Depositor];
    var canCurate := canManage + [SecretLinks("edit"), Curator];
    var canPreview := canManage + [SecretLinks("preview")];
    var canView := canManage + [SecretLinks("view"), ProprietaryRecordPermissions, CommunityAction("view")];
    var canAuthenticated := [AuthenticatedUser, SystemProcess];
    var canAll := [AnyUser, SystemProcess, PublicViewer];
    PolicyTable(
      needLabelToAction := map["bucket-update" := "update_files", "bucket-read" := "read_files",
                               "object-read" := "read_files"],
      canManage := canManage, canCurate := canCurate, canPreview := canPreview, canView := canView,
      canAuthenticated := canAuthenticated, canAll := canAll,
      canSearch := None, canRead := None, canReadFiles := None,
      canCreate := canManage,
      canSearchDrafts := canAuthenticated,
      canReadDraft := canPreview, canDraftReadFiles := canPreview,
      canUpdateDraft := canCurate,
      canDraftCreateFiles := canCurate, canDraftUpdateFiles := canCurate, canDraftDeleteFiles := canCurate,
      canPidReserve := canCurate, canPidDelete := canCurate,
      canEdit := canCurate, canDeleteDraft := canCurate, canNewVersion := canCurate, canPublish := canCurate,
      canLiftEmbargo := canManage,
      canUpdate := [Disable], canDelete := [Disable], canCreateFiles := [Disable],
      canUpdateFiles := [Disable], canDeleteFiles := [Disable])
  }

  /** `NYURecordPermissionPolicy`: records restricted to the NYU community. */
  function NYURecordPolicy(): PolicyTable
  {
    var canManage := [RecordOwners, SystemProcess, AdminSuperUser];
    var canCurate := canManage + [SecretLinks("edit"), Curator];
    var canPreview := canManage + [SecretLinks("preview"), Viewer, Depositor];
    var canView := canManage + [SecretLinks("view"), Viewer, Depositor];
    var canAuthenticated := [AuthenticatedUser, SystemProcess];
    var canAll := [AnyUser, SystemProcess];
    PolicyTable(
      needLabelToAction := map["bucket-update" := "update_files", "bucket-read" := "read_files",
                               "object-read" := "read_files"],
      canManage := canManage, canCurate := canCurate, canPreview := canPreview, canView := canView,
      canAuthenticated := canAuthenticated, canAll := canAll,
      canSearch := Some(canAll),
      canRead := Some([IfRestricted("record", canView, canAll)]),
      canReadFiles := Some([IfRestricted("files", canView, canAll)]),
      canCreate := canAuthenticated + [Depositor],
      canSearchDrafts := canAuthenticated + [Depositor],
      canReadDraft := canPreview, canDraftReadFiles := canPreview,
      canUpdateDraft := canCurate,
      canDraftCreateFiles := canCurate, canDraftUpdateFiles := canCurate, canDraftDeleteFiles := canCurate,
      canPidReserve := canCurate, canPidDelete := canCurate,
      canEdit := canCurate, canDeleteDraft := canCurate, canNewVersion := canCurate, canPublish := canCurate,
      canLiftEmbargo := canManage,
      canUpdate := [Disable], canDelete := [Disable], canCreateFiles := [Disable],
      canUpdateFiles := [Disable], canDeleteFiles := [Disable])
  }

  /** `DataUseRecordPermissionPolicy`: records whose users agreed to terms of use. */
  function DataUseRecordPolicy(): PolicyTable
  {
    var canManage := [RecordOwners, SystemProcess, AdminSuperUser];
    var canCurate := canManage + [SecretLinks("edit"), Curator];
    var canPreview := canManage + [SecretLinks("preview"), RestrictedDataUser];
    var canView := canManage + [SecretLinks("view"), RestrictedDataUser];
    var canAuthenticated := [AuthenticatedUser, SystemProcess];
    var canAll := [AnyUser, SystemProcess];
    PolicyTable(
      needLabelToAction := map["bucket-update" := "update_files", "bucket-read" := "read_files",
                               "object-read" := "read_files"],
      canManage := canManage, canCurate := canCurate, canPreview := canPreview, canView := canView,
      canAuthenticated := canAuthenticated, canAll := canAll,
      canSearch := Some(canAll),
      canRead := Some([IfRestricted("record", canView, canAll)]),
      canReadFiles := Some([IfRestricted("files", canView, canAll)]),
      canCreate := canAuthenticated,
      canSearchDrafts := canAuthenticated,
      canReadDraft := canPreview, canDraftReadFiles := canPreview,
      canUpdateDraft := canCurate,
      canDraftCreateFiles := canCurate, canDraftUpdateFiles := canCurate, canDraftDeleteFiles := canCurate,
      canPidReserve := canCurate, canPidDelete := canCurate,
      canEdit := canCurate, canDeleteDraft := canCurate, canNewVersion := canCurate, canPublish := canCurate,
      canLiftEmbargo := canManage,
      canUpdate := [Disable], canDelete := [Disable], canCreateFiles := [Disable],
      canUpdateFiles := [Disable], canDeleteFiles := [Disable])
  }

  function Policy(name: PolicyName): PolicyTable
  {
    match name
    case UltraViolet => UltraVioletPolicy()
    case NYURecord => NYURecordPolicy()
    case DataUseRecord => DataUseRecordPolicy()
  }

  // ---- How the host reads a generator list ----

  /** Some need of `ns` is provided by `identity`. */
  predicate Satisfies(ns: seq<Need>, identity: Identity)
  {
    exists n :: n in ns && n in identity.provided
  }

  /** One generator grants: its needs evaluate and the identity provides one of them. */
  predicate GrantedBy(g: Generator, record: Option<Record>, identity: Identity, foreign: ForeignNeeds)
  {
    var ns := Needs(g, record, foreign);
    ns.Ok? && Satisfies(ns.value, identity)
  }

  /** The host's any-generator-satisfies reading of an action's list, with a
      generator that raises counted as not granting. */
  predicate Grants(gens: seq<Generator>, record: Option<Record>, identity: Identity, foreign: ForeignNeeds)
  {
    exists i :: 0 <= i < |gens| && GrantedBy(gens[i], record, identity, foreign)
  }

  /** Extending a list never takes a grant away. */
  lemma GrantsExtend(small: seq<Generator>, big: seq<Generator>,
                     record: Option<Record>, identity: Identity, foreign: ForeignNeeds)
    requires small <= big
    requires Grants(small, record, identity, foreign)
    ensures Grants(big, record, identity, foreign)
  {
    var i :| 0 <= i < |small| && GrantedBy(small[i], record, identity, foreign);
    assert big[i] == small[i];
  }

  // ---- Facts about the tables ----

  /** Every higher-level list is built by extending `can_manage`. */
  lemma ManageIsPrefix(name: PolicyName)
    ensures var p := Policy(name);
      p.canManage <= p.canCurate && p.canManage <= p.canPreview && p.canManage <= p.canView
  { }

  /** Whatever `can_manage` grants, `can_curate`, `can_preview` and `can_view` grant too.
      This rests on `Grants` counting a generator that raises as not granting: in
      NYU and DataUse a record with an entry lacking `type` makes `Curator` raise,
      and a host that propagated the exception would refuse `can_curate` there. */
  lemma ManageGrantsImpliesHigherLevel(name: PolicyName, record: Option<Record>, identity: Identity,
                                       foreign: ForeignNeeds)
    requires Grants(Policy(name).canManage, record, identity, foreign)
    ensures Grants(Policy(name).canCurate, record, identity, foreign)
    ensures Grants(Policy(name).canPreview, record, identity, foreign)
    ensures Grants(Policy(name).canView, record, identity, foreign)
  {
    var p := Policy(name);
    ManageIsPrefix(name);
    GrantsExtend(p.canManage, p.canCurate, record, identity, foreign);
    GrantsExtend(p.canManage, p.canPreview, record, identity, foreign);
    GrantsExtend(p.canManage, p.canView, record, identity, foreign);
  }

  /** The five actions that go through drafts instead are disabled in every policy. */
  lemma DisabledActions(name: PolicyName)
    ensures var p := Policy(name);
      && p.canUpdate == [Disable] && p.canDelete == [Disable] && p.canCreateFiles == [Disable]
      && p.canUpdateFiles == [Disable] && p.canDeleteFiles == [Disable]
  { }

  /** Draft, PID and record actions share `can_curate`; lifting an embargo uses `can_manage`. */
  lemma CurateAliases(name: PolicyName)
    ensures var p := Policy(name);
      && p.canUpdateDraft == p.canCurate
      && p.canDraftCreateFiles == p.canCurate && p.canDraftUpdateFiles == p.canCurate
      && p.canDraftDeleteFiles == p.canCurate
      && p.canPidReserve == p.canCurate && p.canPidDelete == p.canCurate
      && p.canEdit == p.canCurate && p.canDeleteDraft == p.canCurate
      && p.canNewVersion == p.canCurate && p.canPublish == p.canCurate
      && p.canLiftEmbargo == p.canManage
  { }

  /** Reading a draft and its files uses `can_preview`. */
  lemma PreviewAliases(name: PolicyName)
    ensures Policy(name).canReadDraft == Policy(name).canPreview
    ensures Policy(name).canDraftReadFiles == Policy(name).canPreview
  { }

  /** Who may create a record differs from policy to policy. */
  lemma CreateByPolicy()
    ensures UltraVioletPolicy().canCreate == UltraVioletPolicy().canManage
    ensures NYURecordPolicy().canCreate == NYURecordPolicy().canAuthenticated + [Depositor]
    ensures DataUseRecordPolicy().canCreate == DataUseRecordPolicy().canAuthenticated
  { }

  /** Searching drafts: NYU adds `Depositor` to the authenticated list, the others do not. */
  lemma SearchDraftsByPolicy()
    ensures UltraVioletPolicy().canSearchDrafts == UltraVioletPolicy().canAuthenticated
    ensures NYURecordPolicy().canSearchDrafts == NYURecordPolicy().canAuthenticated + [Depositor]
    ensures DataUseRecordPolicy().canSearchDrafts == DataUseRecordPolicy().canAuthenticated
  { }

  /** Only UltraViolet lets depositors manage and public viewers in through `can_all`. */
  lemma DepositorAndPublicViewerPlacement(name: PolicyName)
    ensures Depositor in Policy(name).canManage <==> name == UltraViolet
    ensures PublicViewer in Policy(name).canAll <==> name == UltraViolet
  { }

  /** The need-label table is the same three-entry map in all policies. */
  lemma NeedLabelToActionShared(name: PolicyName)
    ensures Policy(name).needLabelToAction == UltraVioletPolicy().needLabelToAction
    ensures Policy(name).needLabelToAction.Keys == {"bucket-update", "bucket-read", "object-read"}
    ensures Policy(name).needLabelToAction["bucket-read"] == "read_files"
    ensures Policy(name).needLabelToAction["object-read"] == "read_files"
    ensures Policy(name).needLabelToAction["bucket-update"] == "update_files"
  { }

  /** UltraViolet inherits searching and reading; the other two define them. */
  lemma SearchAndReadDefinedBy(name: PolicyName)
    ensures Policy(name).canSearch.None? <==> name == UltraViolet
    ensures Policy(name).canRead.None? <==> name == UltraViolet
    ensures Policy(name).canReadFiles.None? <==> name == UltraViolet
    ensures name != UltraViolet ==> Policy(name).canSearch == Some(Policy(name).canAll)
  { }

  /** In NYU and DataUse, reading is one `IfRestricted` over `can_view` and `can_all`. */
  lemma ReadListsAreConditional(name: PolicyName)
    requires name != UltraViolet
    ensures Policy(name).canRead == Some([IfRestricted("record", Policy(name).canView, Policy(name).canAll)])
    ensures Policy(name).canReadFiles == Some([IfRestricted("files", Policy(name).canView, Policy(name).canAll)])
  { }

  /** The generator that actually decides a read: `RecordOwners` when the field is
      restricted, `AnyUser` when it is open, called without the record; an
      `access` of `null` raises. */
  lemma ReadDelegates(name: PolicyName, record: Option<Record>, foreign: ForeignNeeds)
    requires name != UltraViolet
    ensures Needs(Policy(name).canRead.value[0], record, foreign)
      == if !Truthy(record) then Ok([])
         else if record.value.access.Null? then Err(AccessIsNone)
         else if AccessState(record.value, "record") == Ok(Restricted) then Ok(foreign(RecordOwners, None))
         else Ok(foreign(AnyUser, None))
    ensures Needs(Policy(name).canReadFiles.value[0], record, foreign)
      == if !Truthy(record) then Ok([])
         else if record.value.access.Null? then Err(AccessIsNone)
         else if AccessState(record.value, "files") == Ok(Restricted) then Ok(foreign(RecordOwners, None))
         else Ok(foreign(AnyUser, None))
  {
    ReadListsAreConditional(name);
  }

  /** A singleton list grants exactly when its one generator does. */
  lemma GrantsSingleton(g: Generator, record: Option<Record>, identity: Identity, foreign: ForeignNeeds)
    ensures Grants([g], record, identity, foreign) <==> GrantedBy(g, record, identity, foreign)
  {
    if GrantedBy(g, record, identity, foreign) {
      assert [g][0] == g;
    }
  }

  /** End to end: reading a record (or its files) in NYU or DataUse is granted exactly
      when the record is truthy, its `access` is not `null`, and the identity meets
      the decisive delegate's needs. */
  lemma ReadGrantsIff(name: PolicyName, record: Option<Record>, identity: Identity, foreign: ForeignNeeds)
    requires name != UltraViolet
    ensures Grants(Policy(name).canRead.value, record, identity, foreign)
      <==> Truthy(record) && !record.value.access.Null? && Satisfies(foreign(
             if AccessState(record.value, "record") == Ok(Restricted) then RecordOwners else AnyUser, None), identity)
    ensures Grants(Policy(name).canReadFiles.value, record, identity, foreign)
      <==> Truthy(record) && !record.value.access.Null? && Satisfies(foreign(
             if AccessState(record.value, "files") == Ok(Restricted) then RecordOwners else AnyUser, None), identity)
  {
    ReadListsAreConditional(name);
    ReadDelegates(name, record, foreign);
    GrantsSingleton(Policy(name).canRead.value[0], record, identity, foreign);
    GrantsSingleton(Policy(name).canReadFiles.value[0], record, identity, foreign);
  }

  /** DataUse, files open: whoever `AnyUser` admits may read the files, whatever roles
      the record lists. */
  lemma DataUseOpenFilesReadable(r: Record, identity: Identity, foreign: ForeignNeeds)
    requires r.access.Present? && "files" in r.access.value
    requires r.access.value["files"] == "open"
    requires Satisfies(foreign(AnyUser, None), identity)
    ensures Grants(DataUseRecordPolicy().canReadFiles.value, Some(r), identity, foreign)
  {
    ReadGrantsIff(DataUseRecord, Some(r), identity, foreign);
  }

  /** DataUse, files restricted: only `RecordOwners` decides; an identity that does not
      meet its needs is refused, even one holding a restricted-data-user role need. */
  lemma DataUseRestrictedFilesRefused(r: Record, identity: Identity, foreign: ForeignNeeds)
    requires r.access.Present? && "files" in r.access.value
    requires r.access.value["files"] == "restricted"
    requires !Satisfies(foreign(RecordOwners, None), identity)
    ensures !Grants(DataUseRecordPolicy().canReadFiles.value, Some(r), identity, foreign)
  {
    ReadGrantsIff(DataUseRecord, Some(r), identity, foreign);
  }
}
