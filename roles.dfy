/** `get_roles`: the role names a record carries in its "technical-info"
    additional descriptions. */
module Roles {
  import opened Wrappers
  import opened Text
  import opened Records

  /** The `type.id` that marks a role-bearing description. */
  const TechnicalInfo := "technical-info"

  predicate IsTechnicalInfo(d: Description)
  {
    d.kind.TypeObject? && d.kind.id == Some(TechnicalInfo)
  }

  /** `get_roles` raises on this entry: its `type` is not a mapping, or it is
      a technical-info entry without description text. */
  predicate Faulty(d: Description)
  {
    !d.kind.TypeObject? || (IsTechnicalInfo(d) && d.text.None?)
  }

  /** The entry names the role `userRole`, up to case and paragraph markup. */
  predicate Matches(d: Description, userRole: string)
  {
    IsTechnicalInfo(d) && d.text.Some? && Lower(StripMarkup(d.text.value)) == userRole
  }

  /** What one pass of the loop of `get_roles` appends for entry `d`. */
  function RoleStep(d: Description, userRole: string): Result<seq<string>, Fault>
  {
    match d.kind
    case TypeObject(id) =>
      if id == Some(TechnicalInfo) then
        match d.text
        case None => Err(DescriptionNotString)
        case Some(text) =>
          var role := StripMarkup(text);
          if Lower(role) == userRole then Ok([role]) else Ok([])
      else Ok([])
    case _ => Err(TypeNotMapping)
  }

  /** The roles collected from `ds`, entry by entry, stopping at the first
      entry that raises. */
  function RolesIn(ds: seq<Description>, userRole: string): Result<seq<string>, Fault>
    decreases |ds|
  {
    if ds == [] then Ok([])
    else
      match RolesIn(ds[..|ds| - 1], userRole)
      case Err(e) => Err(e)
      case Ok(prefix) =>
        match RoleStep(ds[|ds| - 1], userRole)
        case Err(e) => Err(e)
        case Ok(more) => Ok(prefix + more)
  }

  /** `get_roles(record, user_role)` as a value. */
  function GetRolesSpec(record: Option<Record>, userRole: string): Result<seq<string>, Fault>
  {
    match record
    case None => Err(RecordIsNone)
    case Some(r) =>
      match r.metadata
      case Present(m) =>
        (match DescriptionsOf(m)
         case Err(e) => Err(e)
         case Ok(ds) => RolesIn(ds, userRole))
      case _ => Err(MetadataIsNone)
  }

  /** `get_roles`: scans the additional descriptions in order, stripping the
      markup of each technical-info entry and appending it when it names
      `userRole`; raises where Python raises. */
  method GetRoles(record: Option<Record>, userRole: string) returns (r: Result<seq<string>, Fault>)
    ensures r == GetRolesSpec(record, userRole)
  {
    if record.None? {
      return Err(RecordIsNone);
    }
    if !record.value.metadata.Present? {
      return Err(MetadataIsNone);
    }
    var descriptions := DescriptionsOf(record.value.metadata.value);
    if descriptions.Err? {
      return Err(descriptions.error);
    }
    var ds := descriptions.value;
    var roles: seq<string> := [];
    var i := 0;
    while i < |ds|
      invariant 0 <= i <= |ds|
      invariant RolesIn(ds[..i], userRole) == Ok(roles)
    {
      var d := ds[i];
      ghost var before, more: seq<string> := roles, [];
      if !d.kind.TypeObject? {
        assert ds[..i + 1][..i] == ds[..i];
        FaultPropagates(ds, i + 1, userRole);
        assert ds[..|ds|] == ds;
        return Err(TypeNotMapping);
      }
      if d.kind.id == Some(TechnicalInfo) {
        if d.text.None? {
          assert ds[..i + 1][..i] == ds[..i];
          FaultPropagates(ds, i + 1, userRole);
          assert ds[..|ds|] == ds;
          return Err(DescriptionNotString);
        }
        var role := StripParagraphs(d.text.value);
        if Lower(role) == userRole {
          roles := roles + [role];
          more := [role];
        }
      }
      assert RoleStep(d, userRole) == Ok(more);
      assert roles == before + more;
      RolesInSnoc(ds, i, userRole);
      i := i + 1;
    }
    assert ds[..i] == ds;
    return Ok(roles);
  }

  /** The two guarded `replace` steps of `get_roles`, reassigning `role`:
      together they are the paragraph stripping `StripMarkup`. */
  method StripParagraphs(text: string) returns (role: string)
    ensures role == StripMarkup(text)
  {
    role := text;
    if Contains(role, "<p>") {
      role := RemoveAll(role, "<p>");
    }
    if Contains(role, "</p>") {
      role := RemoveAll(role, "</p>");
    }
  }

  /** One more loop pass: the first `i + 1` entries give the roles of the
      first `i` followed by what entry `i` contributes. */
  lemma RolesInSnoc(ds: seq<Description>, i: nat, userRole: string)
    requires i < |ds|
    requires RolesIn(ds[..i], userRole).Ok? && RoleStep(ds[i], userRole).Ok?
    ensures RolesIn(ds[..i + 1], userRole)
      == Ok(RolesIn(ds[..i], userRole).value + RoleStep(ds[i], userRole).value)
  {
    assert ds[..i + 1][..i] == ds[..i];
    assert ds[..i + 1][i] == ds[i];
  }

  /** Once a prefix of the descriptions raises, the whole scan raises the same. */
  lemma {:induction false} FaultPropagates(ds: seq<Description>, k: nat, userRole: string)
    requires k <= |ds|
    requires RolesIn(ds[..k], userRole).Err?
    ensures RolesIn(ds, userRole) == RolesIn(ds[..k], userRole)
    decreases |ds| - k
  {
    if k == |ds| {
      assert ds[..k] == ds;
    } else {
      assert ds[..k + 1][..k] == ds[..k];
      FaultPropagates(ds, k + 1, userRole);
    }
  }

  /** Shorthand: the last entry and the ones before it. */
  lemma SplitLast(ds: seq<Description>)
    requires ds != []
    ensures forall j :: 0 <= j < |ds| - 1 ==> ds[..|ds| - 1][j] == ds[j]
  {
  }

  /** `get_roles` raises exactly when some entry is faulty. */
  lemma {:induction false} RolesInOkIff(ds: seq<Description>, userRole: string)
    ensures RolesIn(ds, userRole).Ok? <==> forall i :: 0 <= i < |ds| ==> !Faulty(ds[i])
    decreases |ds|
  {
    if ds != [] {
      var init := ds[..|ds| - 1];
      RolesInOkIff(init, userRole);
      SplitLast(ds);
      assert RoleStep(ds[|ds| - 1], userRole).Ok? <==> !Faulty(ds[|ds| - 1]);
      if forall i :: 0 <= i < |ds| ==> !Faulty(ds[i]) {
        assert forall i :: 0 <= i < |init| ==> !Faulty(init[i]);
      }
      if forall i :: 0 <= i < |init| ==> !Faulty(init[i]) {
        assert forall i :: 0 <= i < |ds| - 1 ==> !Faulty(ds[i]);
      }
    }
  }

  /** The positions of the entries of `ds` that name `userRole`, in order. */
  function MatchingIndices(ds: seq<Description>, userRole: string): seq<int>
    decreases |ds|
  {
    if ds == [] then []
    else
      MatchingIndices(ds[..|ds| - 1], userRole)
      + (if Matches(ds[|ds| - 1], userRole) then [|ds| - 1] else [])
  }

  /** `MatchingIndices` lists every matching position once, in increasing order. */
  lemma {:induction false} MatchingIndicesSpec(ds: seq<Description>, userRole: string)
    ensures var idx := MatchingIndices(ds, userRole);
      |idx| <= |ds| &&
      (forall k :: 0 <= k < |idx| ==> 0 <= idx[k] < |ds| && Matches(ds[idx[k]], userRole)) &&
      (forall k, l :: 0 <= k < l < |idx| ==> idx[k] < idx[l]) &&
      (forall i :: 0 <= i < |ds| && Matches(ds[i], userRole) ==> i in idx)
    decreases |ds|
  {
    if ds != [] {
      var init := ds[..|ds| - 1];
      MatchingIndicesSpec(init, userRole);
      SplitLast(ds);
    }
  }

  /** When nothing raises, `get_roles` returns the stripped text of exactly
      the matching entries, in input order and with repetitions. */
  lemma {:induction false} RolesInExact(ds: seq<Description>, userRole: string)
    requires RolesIn(ds, userRole).Ok?
    ensures var roles, idx := RolesIn(ds, userRole).value, MatchingIndices(ds, userRole);
      |roles| == |idx| &&
      forall k :: 0 <= k < |idx| ==>
        0 <= idx[k] < |ds| && ds[idx[k]].text.Some? && roles[k] == StripMarkup(ds[idx[k]].text.value)
    decreases |ds|
  {
    MatchingIndicesSpec(ds, userRole);
    if ds != [] {
      var init, last := ds[..|ds| - 1], ds[|ds| - 1];
      RolesInExact(init, userRole);
      MatchingIndicesSpec(init, userRole);
      SplitLast(ds);
      var prefix := RolesIn(init, userRole).value;
      var more := RoleStep(last, userRole).value;
      assert more == if Matches(last, userRole) then [StripMarkup(last.text.value)] else [];
      assert RolesIn(ds, userRole).value == prefix + more;
    }
  }

  /** Every role `get_roles` returns lower-cases to `userRole` and is the
      stripped text of some technical-info entry; there are never more roles
      than entries. */
  lemma RolesSound(ds: seq<Description>, userRole: string)
    requires RolesIn(ds, userRole).Ok?
    ensures var roles := RolesIn(ds, userRole).value;
      |roles| <= |ds| &&
      forall k :: 0 <= k < |roles| ==>
        Lower(roles[k]) == userRole &&
        exists i :: 0 <= i < |ds| && IsTechnicalInfo(ds[i]) && ds[i].text.Some? &&
                    roles[k] == StripMarkup(ds[i].text.value)
  {
    RolesInExact(ds, userRole);
    MatchingIndicesSpec(ds, userRole);
    var roles, idx := RolesIn(ds, userRole).value, MatchingIndices(ds, userRole);
    forall k | 0 <= k < |roles|
      ensures Lower(roles[k]) == userRole
      ensures exists i :: 0 <= i < |ds| && IsTechnicalInfo(ds[i]) && ds[i].text.Some? &&
                          roles[k] == StripMarkup(ds[i].text.value)
    {
      var i := idx[k];
      assert Matches(ds[i], userRole);
    }
  }

  /** A record without additional descriptions carries no role. */
  lemma GetRolesWithoutDescriptions(r: Record, userRole: string)
    requires r.metadata.Present?
    requires r.metadata.value.additionalDescriptions.Absent? || r.metadata.value.additionalDescriptions == Present([])
    ensures GetRolesSpec(Some(r), userRole) == Ok([])
  {
  }

  /** A technical-info entry whose description is one paragraph holding a
      word that names `userRole` yields that word with its stored case. */
  lemma WrappedRole(r: Record, w: string, userRole: string)
    requires '<' !in w && Lower(w) == userRole
    requires r.metadata == Present(Metadata(Present([Description(TypeObject(Some(TechnicalInfo)), Some("<p>" + w + "</p>"))])))
    ensures GetRolesSpec(Some(r), userRole) == Ok([w])
  {
    StripWrapped(w);
    SingleEntry(r, Description(TypeObject(Some(TechnicalInfo)), Some("<p>" + w + "</p>")), userRole);
  }

  /** A technical-info entry holding several paragraphs yields their words
      run together: every `<p>` and every `</p>` is removed before the comparison. */
  lemma ParagraphsRole(r: Record, ws: seq<string>, userRole: string)
    requires Plain(ws) && Lower(Concat(ws)) == userRole
    requires r.metadata == Present(Metadata(Present([Description(TypeObject(Some(TechnicalInfo)), Some(Paragraphs(ws)))])))
    ensures GetRolesSpec(Some(r), userRole) == Ok([Concat(ws)])
  {
    StripParagraphsAll(ws);
    SingleEntry(r, Description(TypeObject(Some(TechnicalInfo)), Some(Paragraphs(ws))), userRole);
  }

  /** A record with one description entry yields what that entry contributes. */
  lemma SingleEntry(r: Record, d: Description, userRole: string)
    requires r.metadata == Present(Metadata(Present([d])))
    ensures GetRolesSpec(Some(r), userRole) == RoleStep(d, userRole)
  {
    var ds := [d];
    assert ds[..|ds| - 1] == [];
    assert RolesIn([], userRole) == Ok([]);
    if RoleStep(d, userRole).Ok? {
      assert [] + RoleStep(d, userRole).value == RoleStep(d, userRole).value;
    }
  }

  /** A stored "<p>Curator</p>" yields the role "Curator" for the class "curator". */
  lemma CuratorExample(r: Record)
    requires r.metadata == Present(Metadata(Present([Description(TypeObject(Some(TechnicalInfo)), Some("<p>Curator</p>"))])))
    ensures GetRolesSpec(Some(r), "curator") == Ok(["Curator"])
  {
    var w := "Curator";
    assert "<p>" + w + "</p>" == "<p>Curator</p>";
    assert Lower(w) == "curator";
    WrappedRole(r, w, "curator");
  }

  /** A role written as two paragraphs yields both words run together. */
  lemma TwoParagraphRole(r: Record, a: string, b: string, userRole: string)
    requires '<' !in a && '<' !in b && Lower(a + b) == userRole
    requires r.metadata == Present(Metadata(Present([Description(TypeObject(Some(TechnicalInfo)),
                                                                 Some("<p>" + a + "</p><p>" + b + "</p>"))])))
    ensures GetRolesSpec(Some(r), userRole) == Ok([a + b])
  {
    StripTwoParagraphs(a, b);
    SingleEntry(r, Description(TypeObject(Some(TechnicalInfo)), Some("<p>" + a + "</p><p>" + b + "</p>")), userRole);
  }

  /** A role split over two paragraphs, "<p>Cur</p><p>ator</p>", still yields
      "Curator": the markup of both paragraphs is stripped. */
  lemma SplitCuratorExample(r: Record)
    requires r.metadata == Present(Metadata(Present([Description(TypeObject(Some(TechnicalInfo)), Some("<p>Cur</p><p>ator</p>"))])))
    ensures GetRolesSpec(Some(r), "curator") == Ok(["Curator"])
  {
    var a, b := "Cur", "ator";
    assert "<p>" + a + "</p><p>" + b + "</p>" == "<p>Cur</p><p>ator</p>";
    assert a + b == "Curator";
    assert Lower(a + b) == "curator";
    TwoParagraphRole(r, a, b, "curator");
  }
}
