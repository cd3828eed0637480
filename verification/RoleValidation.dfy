/** The later passes of the validator, and the validator as a whole. */
module RoleValidation {
  import opened Base
  import opened Roster
  import opened RoleRegistry
  import opened RoleStructure
  import opened RoleValidator

  // ----- pass 5: reporting chain -----------------------------------------------------------

  ghost predicate HasReport(roles: seq<RoleCard>, id: nat, target: string) {
    exists i :: 0 <= i < |roles| && roles[i].roleId == id && roles[i].reportsTo == target
  }

  ghost predicate ReportingComplaint(roles: seq<RoleCard>, error: RegistryError) {
    || (error.UnresolvedReportsTo?
        && HasReport(roles, error.roleId, error.reportsTo) && !IsReportingSentinel(error.reportsTo)
             && !HasCard(roles, error.reportsTo))
    || (error.OutOfRangeRoleId? && HasRole(roles, error.roleId) && !(1 <= error.roleId <= SIZE))
    || (error.HeadReportsTo?
        && HasReport(roles, error.roleId, error.reportsTo) && HeadOf(error.roleId) == error.roleId
        && ExpectedHeadReportsTo(error.roleId) != Some(error.reportsTo))
    || (error.MissingRoleId? && !HasRole(roles, error.roleId) && 1 <= error.roleId <= SIZE)
    || (error.MemberReportsTo?
        && HasReport(roles, error.roleId, error.reportsTo) && HeadOf(error.roleId) != error.roleId
        && exists h :: 0 <= h < |roles| && roles[h].roleId == HeadOf(error.roleId)
             && roles[h].cardId != error.reportsTo)
  }

  /** `cards` finds, for each role id, a card with that id. */
  ghost predicate CardsById(roles: seq<RoleCard>, cards: map<nat, RoleCard>) {
    && (forall id :: id in cards ==> cards[id] in roles && cards[id].roleId == id)
    && (forall i :: 0 <= i < |roles| ==> roles[i].roleId in cards)
  }

  method CollectCards(roles: seq<RoleCard>) returns (cards: map<nat, RoleCard>, cardIds: set<string>)
    ensures CardsById(roles, cards)
    ensures forall text :: text in cardIds <==> HasCard(roles, text)
  {
    cards, cardIds := map[], {};
    for i := 0 to |roles|
      invariant forall id :: id in cards ==> cards[id] in roles && cards[id].roleId == id
      invariant forall k :: 0 <= k < i ==> roles[k].roleId in cards && roles[k].cardId in cardIds
      invariant forall text :: text in cardIds ==> HasCard(roles, text)
    {
      cards := cards[roles[i].roleId := roles[i]];
      cardIds := cardIds + {roles[i].cardId};
    }
  }

  method CheckReports(roles: seq<RoleCard>, i: nat, cards: map<nat, RoleCard>, cardIds: set<string>)
    returns (r: Verdict)
    requires i < |roles| && CardsById(roles, cards)
    requires forall text :: text in cardIds <==> HasCard(roles, text)
    ensures r.Ok? ==> ReportsOk(roles, roles[i])
    ensures r.Err? ==> ReportingComplaint(roles, r.error)
  {
    var role := roles[i];
    if !IsReportingSentinel(role.reportsTo) && role.reportsTo !in cardIds {
      return Err(UnresolvedReportsTo(role.roleId, role.reportsTo));
    }
    var spec := SpecForRole(role.roleId);
    SpecNamesHead(role.roleId);
    if spec.None? { return Err(OutOfRangeRoleId(role.roleId)); }
    var head := spec.value.headRoleId;
    if role.roleId == head {
      if ExpectedHeadReportsTo(role.roleId) != Some(role.reportsTo) {
        return Err(HeadReportsTo(role.roleId, role.reportsTo));
      }
      return Ok(());
    }
    if head !in cards { return Err(MissingRoleId(head)); }
    var h: nat :| h < |roles| && roles[h] == cards[head];
    if role.reportsTo != cards[head].cardId { return Err(MemberReportsTo(role.roleId, role.reportsTo)); }
    return Ok(());
  }

  ghost predicate FirstReportOk(roles: seq<RoleCard>, n: nat)
    requires n <= |roles|
  {
    n == 0 || (FirstReportOk(roles, n - 1) && ReportsOk(roles, roles[n - 1]))
  }

  lemma {:induction false} AllReportOk(roles: seq<RoleCard>, n: nat)
    requires n <= |roles| && FirstReportOk(roles, n)
    ensures forall i :: 0 <= i < n ==> ReportsOk(roles, roles[i])
  {
    if n > 0 { AllReportOk(roles, n - 1); }
  }

  method ValidateReportingChain(reg: Registry) returns (r: Verdict)
    ensures r.Ok? ==> ReportingOk(reg)
    ensures r.Err? ==> ReportingComplaint(reg.roles, r.error)
  {
    var cards, cardIds := CollectCards(reg.roles);
    for i := 0 to |reg.roles|
      invariant FirstReportOk(reg.roles, i)
    {
      r := CheckReports(reg.roles, i, cards, cardIds);
      if r.Err? { return; }
    }
    AllReportOk(reg.roles, |reg.roles|);
    return Ok(());
  }

  /** Under distinct role ids, each complaint is about a role that does not report as it should. */
  lemma BadReport(roles: seq<RoleCard>, error: RegistryError) returns (i: nat)
    requires DistinctRoleIds(roles) && ReportingComplaint(roles, error)
    requires !error.MissingRoleId? && !error.OutOfRangeRoleId?
    ensures i < |roles| && !ReportsOk(roles, roles[i])
  {
    i :| i < |roles| && roles[i].roleId == error.roleId && roles[i].reportsTo == error.reportsTo;
  }

  /** With the roles in order, the role ids are those of the roster. */
  lemma RoleIsInRange(reg: Registry, id: nat)
    requires RolesOk(reg)
    ensures HasRole(reg.roles, id) <==> 1 <= id <= SIZE
  {
    assert forall i :: 0 <= i < |reg.roles| ==> RoleOk(reg.roles[i]);
    RoleIdsAreComplete(reg.roles, id);
  }

  lemma ReportingComplaintRejects(reg: Registry, error: RegistryError)
    requires RolesOk(reg) && ReportingComplaint(reg.roles, error)
    ensures !ReportingOk(reg) && !error.MissingRoleId?
  {
    if error.MissingRoleId? || error.OutOfRangeRoleId? {
      RoleIsInRange(reg, error.roleId);
    } else {
      var i := BadReport(reg.roles, error);
    }
  }

  // ----- pass 6: runtime principals ----------------------------------------------------------

  /** Principal `p` lists role `i`, whose id is `id`. */
  predicate ListsRole(reg: Registry, i: int, p: int, id: nat) {
    0 <= i < |reg.roles| && 0 <= p < |reg.principals| && reg.roles[i].roleId == id && id in reg.principals[p].roleIds
  }

  ghost predicate NamesAnother(reg: Registry, id: nat) {
    exists i, p :: ListsRole(reg, i, p, id) && reg.principals[p].id != reg.roles[i].runtimePrincipalId
  }

  ghost predicate DiffersInBoundary(reg: Registry, id: nat) {
    exists i, p :: ListsRole(reg, i, p, id) && reg.principals[p].id == reg.roles[i].runtimePrincipalId
                   && reg.principals[p].sourceAccess != reg.roles[i].boundary
  }

  /** A known principal whose boundary or set of roles is not the expected one. */
  predicate PrincipalDiffers(p: Principal) {
    && ExpectedPrincipal(p.id).Some?
    && ( || p.sourceAccess != ExpectedPrincipal(p.id).value.sourceAccess
         || ElementsOf(p.roleIds) != ElementsOf(ExpectedPrincipal(p.id).value.roleIds))
  }

  /** A role without a principal is possible only for an id outside the roster. */
  ghost predicate PrincipalComplaint(reg: Registry, error: RegistryError) {
    || (error == RuntimePrincipalCount(|reg.principals|) && |reg.principals| != 14)
    || (error.DuplicateRuntimePrincipal? && Repeats(PrincipalIds(reg.principals), error.principal))
    || (error.UnknownRuntimePrincipal? && error.principal in PrincipalIds(reg.principals)
         && ExpectedPrincipal(error.principal).None?)
    || (error.RuntimePrincipalDefinition? && SomePrincipal(reg.principals, error.principal, PrincipalDiffers))
    || (error.RuntimePrincipalOutOfRangeRole?
        && !(1 <= error.roleId <= SIZE)
             && SomePrincipal(reg.principals, error.principal, (p: Principal) => error.roleId in p.roleIds))
    || (error.DuplicateRuntimePrincipalRole? && RoleListedTwice(reg.principals, error.roleId))
    || (error.MissingRuntimePrincipalRole?
        && HasRole(reg.roles, error.roleId) && !(1 <= error.roleId <= SIZE) && !Listed(reg.principals, error.roleId))
    || (error.RuntimePrincipalMismatch? && NamesAnother(reg, error.roleId))
    || (error.RuntimeBoundaryMismatch? && DiffersInBoundary(reg, error.roleId))
  }

  ghost predicate SomePrincipal(principals: seq<Principal>, id: string, holds: Principal -> bool) {
    exists i :: 0 <= i < |principals| && principals[i].id == id && holds(principals[i])
  }

  ghost predicate RoleListedTwice(principals: seq<Principal>, id: nat) {
    || (exists i :: 0 <= i < |principals| && Repeats(principals[i].roleIds, id))
    || (exists i, j :: 0 <= i < j < |principals| && id in principals[i].roleIds && id in principals[j].roleIds)
  }

  /** `assignments` sends each role listed by the first `n` principals to the index of its only
      principal. */
  ghost predicate Assigned(principals: seq<Principal>, n: nat, assignments: map<nat, nat>)
    requires n <= |principals|
  {
    && (forall id :: id in assignments ==> assignments[id] < n && id in principals[assignments[id]].roleIds)
    && (forall p, k :: 0 <= p < n && 0 <= k < |principals[p].roleIds| ==>
          principals[p].roleIds[k] in assignments && assignments[principals[p].roleIds[k]] == p)
  }

  /** What the inner loop did: every role of principal `n` is new, in range and listed once. */
  ghost predicate TookRoles(ids: seq<nat>, n: nat, before: map<nat, nat>, after: map<nat, nat>) {
    && NoDuplicates(ids)
    && (forall k :: 0 <= k < |ids| ==>
          1 <= ids[k] <= SIZE && ids[k] !in before && ids[k] in after && after[ids[k]] == n)
    && (forall id :: id in after ==> id in ids || (id in before && after[id] == before[id]))
    && (forall id :: id in before ==> id in after && after[id] == before[id])
  }

  /** Why the inner loop stopped at one of the principal's roles. */
  ghost predicate RoleRefused(principal: Principal, before: map<nat, nat>, error: RegistryError) {
    exists k ::
      && 0 <= k < |principal.roleIds|
      && var id := principal.roleIds[k];
         || (error == RuntimePrincipalOutOfRangeRole(principal.id, id) && !(1 <= id <= SIZE))
         || (error == DuplicateRuntimePrincipalRole(id) && (id in before || Repeats(principal.roleIds, id)))
  }

  /** The inner loop: give every role of one principal to it. */
  method AssignRoles(principal: Principal, n: nat, before: map<nat, nat>)
    returns (r: Verdict, assignments: map<nat, nat>)
    ensures r.Ok? ==> TookRoles(principal.roleIds, n, before, assignments)
    ensures r.Err? ==> RoleRefused(principal, before, r.error)
  {
    assignments := before;
    var ids := principal.roleIds;
    for k := 0 to |ids|
      invariant TookRoles(ids[..k], n, before, assignments)
    {
      if !(1 <= ids[k] <= SIZE) { return Err(RuntimePrincipalOutOfRangeRole(principal.id, ids[k])), assignments; }
      if ids[k] in assignments {
        assert ids[k] !in before ==> ids[k] in ids[..k];
        return Err(DuplicateRuntimePrincipalRole(ids[k])), assignments;
      }
      assignments := assignments[ids[k] := n];
      assert ids[..k + 1] == ids[..k] + [ids[k]];
    }
    assert ids[..|ids|] == ids;
    r := Ok(());
  }

  lemma AssignedExtends(principals: seq<Principal>, n: nat, before: map<nat, nat>, after: map<nat, nat>)
    requires n < |principals| && Assigned(principals, n, before)
    requires TookRoles(principals[n].roleIds, n, before, after)
    ensures Assigned(principals, n + 1, after)
  {
  }

  lemma RefusalIsTrue(reg: Registry, n: nat, before: map<nat, nat>, error: RegistryError)
    requires n < |reg.principals| && Assigned(reg.principals, n, before)
               && RoleRefused(reg.principals[n], before, error)
    ensures PrincipalComplaint(reg, error)
    ensures error.RuntimePrincipalOutOfRangeRole? || error.DuplicateRuntimePrincipalRole?
  {
    var id := error.roleId;
    assert id in reg.principals[n].roleIds;
    if error.DuplicateRuntimePrincipalRole? && id in before {
      assert id in reg.principals[before[id]].roleIds;
    }
  }

  /** The definition check of one principal whose roles are in range and listed once. */
  function DefinitionCheck(principal: Principal): (r: Verdict)
    requires NoDuplicates(principal.roleIds)
    requires forall k :: 0 <= k < |principal.roleIds| ==> 1 <= principal.roleIds[k] <= SIZE
    ensures r.Ok? <==> PrincipalMatches(principal)
    ensures r.Err? ==> || (r.error == UnknownRuntimePrincipal(principal.id) && ExpectedPrincipal(principal.id).None?)
                       || (r.error == RuntimePrincipalDefinition(principal.id) && PrincipalDiffers(principal))
  {
    var expected := ExpectedPrincipal(principal.id);
    if expected.None? then Err(UnknownRuntimePrincipal(principal.id))
    else if principal.sourceAccess != expected.value.sourceAccess
        || ElementsOf(principal.roleIds) != ElementsOf(expected.value.roleIds)
    then Err(RuntimePrincipalDefinition(principal.id))
    else Ok(())
  }

  ghost predicate PrincipalsSeen(principals: seq<Principal>, n: nat, ids: set<string>, assignments: map<nat, nat>)
    requires n <= |principals|
  {
    && Seen(PrincipalIds(principals), n, ids)
    && (forall p :: 0 <= p < n ==> PrincipalMatches(principals[p]))
    && Assigned(principals, n, assignments)
  }

  /** One pass of the loop over the principals. */
  method CheckPrincipal(reg: Registry, n: nat, ids: set<string>, before: map<nat, nat>)
    returns (r: Verdict, assignments: map<nat, nat>)
    requires n < |reg.principals| && PrincipalsSeen(reg.principals, n, ids, before)
    ensures r.Ok? ==> PrincipalsSeen(reg.principals, n + 1, ids + {reg.principals[n].id}, assignments)
    ensures r.Err? ==> DefinitionComplaint(reg, r.error)
  {
    var principal := reg.principals[n];
    assignments := before;
    SeenExtends(PrincipalIds(reg.principals), n, ids);
    if principal.id in ids { return Err(DuplicateRuntimePrincipal(principal.id)), assignments; }
    r, assignments := AssignRoles(principal, n, before);
    if r.Err? {
      RefusalIsTrue(reg, n, before, r.error);
      return;
    }
    AssignedExtends(reg.principals, n, before, assignments);
    r := DefinitionCheck(principal);
    assert PrincipalIds(reg.principals)[n] == principal.id;
  }

  /** The complaints of the first loop. */
  ghost predicate DefinitionComplaint(reg: Registry, error: RegistryError) {
    PrincipalComplaint(reg, error) && !error.RuntimePrincipalMismatch? && !error.RuntimeBoundaryMismatch?
        && !error.MissingRuntimePrincipalRole?
  }

  lemma SeenAllPrincipals(principals: seq<Principal>, ids: set<string>, assignments: map<nat, nat>)
    requires PrincipalsSeen(principals, |principals|, ids, assignments)
    ensures DistinctPrincipals(principals) && DisjointPrincipals(principals)
  {
    var all := PrincipalIds(principals);
    assert all[..|all|] == all;
    forall i, j | 0 <= i < j < |principals| ensures principals[i].id != principals[j].id {
      assert all[i] != all[j];
    }
  }

  /** With all principals accounted for, only ids outside the roster are unassigned. */
  lemma UnassignedIsOutside(principals: seq<Principal>, ids: set<string>, assignments: map<nat, nat>, id: nat)
    requires |principals| == 14 && PrincipalsSeen(principals, |principals|, ids, assignments)
    ensures id !in assignments ==> !(1 <= id <= SIZE) && !Listed(principals, id)
  {
    SeenAllPrincipals(principals, ids, assignments);
    if 1 <= id <= SIZE {
      var owner := PrincipalsCoverRoster(principals, id);
    }
  }

  /** What the last loop asks of each role. */
  method CheckService(reg: Registry, assignments: map<nat, nat>, i: nat) returns (r: Verdict)
    requires i < |reg.roles| && Assigned(reg.principals, |reg.principals|, assignments)
    requires reg.roles[i].roleId !in assignments ==>
               !(1 <= reg.roles[i].roleId <= SIZE) && !Listed(reg.principals, reg.roles[i].roleId)
    ensures r.Ok? <==> RoleServed(reg.principals, reg.roles[i])
    ensures r.Err? ==> PrincipalComplaint(reg, r.error)
  {
    var role := reg.roles[i];
    if role.roleId !in assignments { return Err(MissingRuntimePrincipalRole(role.roleId)); }
    var p := assignments[role.roleId];
    var principal := reg.principals[p];
    assert ListsRole(reg, i, p, role.roleId);
    if principal.id != role.runtimePrincipalId { return Err(RuntimePrincipalMismatch(role.roleId)); }
    if principal.sourceAccess != role.boundary { return Err(RuntimeBoundaryMismatch(role.roleId)); }
    return Ok(());
  }

  lemma DefinitionComplaintRejects(reg: Registry, error: RegistryError)
    requires DefinitionComplaint(reg, error)
    ensures !PrincipalsOk(reg)
  {
    if error.DuplicateRuntimePrincipal? {
      RepeatedPrincipal(reg.principals, error.principal);
    } else if error.DuplicateRuntimePrincipalRole? {
      RepeatedRole(reg.principals, error.roleId);
    } else if !error.RuntimePrincipalCount? {
      var i := UnmatchedPrincipal(reg, error);
    }
  }

  lemma RepeatedPrincipal(principals: seq<Principal>, text: string)
    requires Repeats(PrincipalIds(principals), text)
    ensures !DistinctPrincipals(principals)
  {
    var ids := PrincipalIds(principals);
    var i, j :| 0 <= i < j < |ids| && ids[i] == text && ids[j] == text;
    assert principals[i].id == principals[j].id;
  }

  lemma RepeatedRole(principals: seq<Principal>, id: nat)
    requires RoleListedTwice(principals, id)
    ensures !DisjointPrincipals(principals) || exists i :: 0 <= i < |principals| && !PrincipalMatches(principals[i])
  {
    if i :| 0 <= i < |principals| && Repeats(principals[i].roleIds, id) {
      assert !PrincipalMatches(principals[i]);
    }
  }

  /** The principal that an unknown id, a wrong definition or a role out of range is about. */
  lemma UnmatchedPrincipal(reg: Registry, error: RegistryError) returns (i: nat)
    requires PrincipalComplaint(reg, error)
    requires error.UnknownRuntimePrincipal? || error.RuntimePrincipalDefinition?
               || error.RuntimePrincipalOutOfRangeRole?
    ensures i < |reg.principals| && !PrincipalMatches(reg.principals[i])
  {
    if error.UnknownRuntimePrincipal? {
      i :| i < |reg.principals| && PrincipalIds(reg.principals)[i] == error.principal;
    } else if error.RuntimePrincipalDefinition? {
      i :| i < |reg.principals| && reg.principals[i].id == error.principal && PrincipalDiffers(reg.principals[i]);
    } else {
      i :| i < |reg.principals| && reg.principals[i].id == error.principal && error.roleId in reg.principals[i].roleIds;
    }
  }

  lemma PrincipalComplaintRejects(reg: Registry, error: RegistryError)
    requires RolesOk(reg) && PrincipalComplaint(reg, error)
    ensures !PrincipalsOk(reg) && !error.MissingRuntimePrincipalRole?
  {
    if error.MissingRuntimePrincipalRole? {
      RoleIsInRange(reg, error.roleId);
    } else if error.RuntimePrincipalMismatch? || error.RuntimeBoundaryMismatch? {
      BadService(reg, error.roleId);
    } else {
      DefinitionComplaintRejects(reg, error);
    }
  }

  lemma BadService(reg: Registry, id: nat)
    requires NamesAnother(reg, id) || DiffersInBoundary(reg, id)
    ensures !PrincipalsOk(reg)
  {
    var i, p :| ListsRole(reg, i, p, id) && !PrincipalServes(reg.principals[p], reg.roles[i]);
    if RoleServed(reg.principals, reg.roles[i]) {
      var q :| 0 <= q < |reg.principals| && id in reg.principals[q].roleIds
               && PrincipalServes(reg.principals[q], reg.roles[i]);
      assert !DisjointPrincipals(reg.principals);
    }
  }

  ghost predicate FirstServed(reg: Registry, n: nat)
    requires n <= |reg.roles|
  {
    n == 0 || (FirstServed(reg, n - 1) && RoleServed(reg.principals, reg.roles[n - 1]))
  }

  lemma {:induction false} AllServed(reg: Registry, n: nat)
    requires n <= |reg.roles| && FirstServed(reg, n)
    ensures forall i :: 0 <= i < n ==> RoleServed(reg.principals, reg.roles[i])
  {
    if n > 0 { AllServed(reg, n - 1); }
  }

  method CheckDefinitions(reg: Registry) returns (r: Verdict, ghost ids: set<string>, assignments: map<nat, nat>)
    ensures r.Ok? ==> PrincipalsSeen(reg.principals, |reg.principals|, ids, assignments)
    ensures r.Err? ==> DefinitionComplaint(reg, r.error)
  {
    var seen: set<string> := {};
    assignments, ids := map[], {};
    for n := 0 to |reg.principals|
      invariant ids == seen && PrincipalsSeen(reg.principals, n, seen, assignments)
    {
      r, assignments := CheckPrincipal(reg, n, seen, assignments);
      if r.Err? { return; }
      seen := seen + {reg.principals[n].id};
      ids := seen;
    }
    r := Ok(());
  }

  /** Roles without an assignment have ids outside the roster. */
  ghost predicate Covers(reg: Registry, assignments: map<nat, nat>) {
    forall i :: 0 <= i < |reg.roles| && reg.roles[i].roleId !in assignments ==>
      !(1 <= reg.roles[i].roleId <= SIZE) && !Listed(reg.principals, reg.roles[i].roleId)
  }

  method CheckServices(reg: Registry, assignments: map<nat, nat>) returns (r: Verdict)
    requires Assigned(reg.principals, |reg.principals|, assignments) && Covers(reg, assignments)
    ensures r.Ok? ==> FirstServed(reg, |reg.roles|)
    ensures r.Err? ==> PrincipalComplaint(reg, r.error)
  {
    for i := 0 to |reg.roles|
      invariant FirstServed(reg, i)
    {
      r := CheckService(reg, assignments, i);
      if r.Err? { return; }
    }
    return Ok(());
  }

  method ValidateRuntimePrincipals(reg: Registry) returns (r: Verdict)
    ensures r.Ok? ==> PrincipalsOk(reg)
    ensures r.Err? ==> PrincipalComplaint(reg, r.error)
  {
    if |reg.principals| != 14 { return Err(RuntimePrincipalCount(|reg.principals|)); }
    ghost var ids;
    var assignments;
    r, ids, assignments := CheckDefinitions(reg);
    if r.Err? { return; }
    SeenAllPrincipals(reg.principals, ids, assignments);
    forall id: nat ensures id !in assignments ==> !(1 <= id <= SIZE) && !Listed(reg.principals, id) {
      UnassignedIsOutside(reg.principals, ids, assignments, id);
    }
    r := CheckServices(reg, assignments);
    if r.Ok? { AllServed(reg, |reg.roles|); }
  }

  // ----- pass 7: Kai -------------------------------------------------------------------------

  predicate KaiComplaint(reg: Registry, error: RegistryError) {
    || (error.InvalidKai? && !KaiCardOk(reg.kai))
    || (error.KaiIdentifierCollision?
        && exists i :: 0 <= i < |reg.roles|
             && (reg.roles[i].cardId == reg.kai.cardId || reg.roles[i].functionalRoleId == reg.kai.functionalRoleId))
  }

  method ValidateKai(reg: Registry) returns (r: Verdict)
    ensures r.Ok? <==> KaiOk(reg)
    ensures r.Err? ==> KaiComplaint(reg, r.error)
  {
    if !KaiCardOk(reg.kai) { return Err(InvalidKai); }
    for i := 0 to |reg.roles|
      invariant forall k :: 0 <= k < i ==>
                  reg.roles[k].cardId != reg.kai.cardId && reg.roles[k].functionalRoleId != reg.kai.functionalRoleId
    {
      if reg.roles[i].cardId == reg.kai.cardId || reg.roles[i].functionalRoleId == reg.kai.functionalRoleId {
        return Err(KaiIdentifierCollision);
      }
    }
    return Ok(());
  }

  // ----- the validator -----------------------------------------------------------------------

  /** Some pass has this complaint, and it is true of the document. */
  ghost predicate Complaint(reg: Registry, error: RegistryError) {
    || AuthorityComplaint(reg, error) || SchemaComplaint(reg, error) || DepartmentComplaint(reg, error)
    || RoleComplaint(reg, error) || ReportingComplaint(reg.roles, error) || PrincipalComplaint(reg, error)
         || KaiComplaint(reg, error)
  }

  /** Three complaints that no document can provoke from the validator as a whole. */
  predicate Unreachable(error: RegistryError) {
    error.DuplicateCardId? || error.MissingRoleId? || error.MissingRuntimePrincipalRole?
  }

  lemma CardsAreNotShared(reg: Registry, cardId: string)
    requires SchemaOk(reg)
    ensures !SharedCard(reg.roles, cardId)
  {
    assert forall i :: 0 <= i < |reg.roles| ==> CardSchemaOk(reg.roles[i], false);
  }

  /** The verdict is a true complaint, none of the three, about a registry that is not acceptable. */
  ghost predicate Rejects(reg: Registry, error: RegistryError) {
    Complaint(reg, error) && !Unreachable(error) && !Accepted(reg)
  }

  ghost predicate PassHolds(reg: Registry, pass: nat) {
    match pass
    case 1 => AuthorityOk(reg)
    case 2 => SchemaOk(reg)
    case 3 => DepartmentsOk(reg)
    case 4 => RolesOk(reg)
    case 5 => ReportingOk(reg)
    case 6 => PrincipalsOk(reg)
    case _ => KaiOk(reg)
  }

  ghost predicate PassComplains(reg: Registry, pass: nat, error: RegistryError) {
    match pass
    case 1 => AuthorityComplaint(reg, error)
    case 2 => SchemaComplaint(reg, error)
    case 3 => DepartmentComplaint(reg, error)
    case 4 => RoleComplaint(reg, error)
    case 5 => ReportingComplaint(reg.roles, error)
    case 6 => PrincipalComplaint(reg, error)
    case _ => KaiComplaint(reg, error)
  }

  /** The complaint is one of the first pass that fails. */
  ghost predicate FirstFailure(reg: Registry, error: RegistryError) {
    exists pass :: 1 <= pass <= 7 && PassComplains(reg, pass, error) && FailsFirst(reg, pass)
  }

  ghost predicate FailsFirst(reg: Registry, pass: nat) {
    !PassHolds(reg, pass) && forall before :: 1 <= before < pass ==> PassHolds(reg, before)
  }

  lemma EarlyPassFails(reg: Registry, pass: nat, error: RegistryError)
    requires 1 <= pass <= 3 && PassComplains(reg, pass, error)
    ensures !PassHolds(reg, pass)
  {
    if pass == 2 { SchemaComplaintRejects(reg, error); }
    if pass == 3 { DepartmentComplaintRejects(reg, error); }
  }

  lemma RolesFail(reg: Registry, error: RegistryError)
    requires SchemaOk(reg) && RoleComplaint(reg, error)
    ensures !RolesOk(reg)
  {
    CardIdsAreNotReported(reg, error);
    RoleComplaintRejects(reg, error);
  }

  lemma MiddlePassFails(reg: Registry, pass: nat, error: RegistryError)
    requires 4 <= pass <= 5 && PassComplains(reg, pass, error)
    requires SchemaOk(reg) && (pass == 5 ==> RolesOk(reg))
    ensures !PassHolds(reg, pass)
  {
    if pass == 4 { RolesFail(reg, error); } else { ReportingComplaintRejects(reg, error); }
  }

  lemma LatePassFails(reg: Registry, pass: nat, error: RegistryError)
    requires 6 <= pass <= 7 && PassComplains(reg, pass, error) && RolesOk(reg)
    ensures !PassHolds(reg, pass)
  {
    if pass == 6 { PrincipalComplaintRejects(reg, error); }
  }

  /** A complaint of a pass shows that the pass fails. */
  lemma ComplaintOfPass(reg: Registry, pass: nat, error: RegistryError)
    requires 1 <= pass <= 7 && PassComplains(reg, pass, error)
    requires forall before :: 1 <= before < pass ==> PassHolds(reg, before)
    ensures FirstFailure(reg, error)
  {
    if pass <= 3 {
      EarlyPassFails(reg, pass, error);
    } else {
      assert PassHolds(reg, 2) && (pass > 4 ==> PassHolds(reg, 4));
      if pass <= 5 { MiddlePassFails(reg, pass, error); } else { LatePassFails(reg, pass, error); }
    }
    assert FailsFirst(reg, pass);
  }

  /** Passes 1 to 3. */
  method ValidateDocument(reg: Registry) returns (r: Verdict)
    ensures r.Ok? ==> AuthorityOk(reg) && SchemaOk(reg) && DepartmentsOk(reg)
    ensures r.Err? ==> Rejects(reg, r.error) && FirstFailure(reg, r.error)
  {
    r := ValidateAuthority(reg);
    if r.Err? { AuthorityRejected(reg, r.error); ComplaintOfPass(reg, 1, r.error); return; }
    r := ValidateSchema(reg);
    if r.Err? { SchemaRejected(reg, r.error); ComplaintOfPass(reg, 2, r.error); return; }
    r := ValidateDepartments(reg);
    if r.Err? { DepartmentsRejected(reg, r.error); ComplaintOfPass(reg, 3, r.error); return; }
  }

  lemma AuthorityRejected(reg: Registry, error: RegistryError)
    requires AuthorityComplaint(reg, error)
    ensures Rejects(reg, error)
  {
  }

  lemma SchemaRejected(reg: Registry, error: RegistryError)
    requires SchemaComplaint(reg, error)
    ensures Rejects(reg, error)
  {
    SchemaComplains(reg, error);
    SchemaIsNotAccepted(reg, error);
  }

  lemma SchemaComplains(reg: Registry, error: RegistryError)
    requires SchemaComplaint(reg, error)
    ensures Complaint(reg, error)
  {
  }

  lemma SchemaIsNotAccepted(reg: Registry, error: RegistryError)
    requires SchemaComplaint(reg, error)
    ensures !Unreachable(error) && !Accepted(reg)
  {
    SchemaComplaintRejects(reg, error);
  }

  lemma SchemaComplaintRejects(reg: Registry, error: RegistryError)
    requires SchemaComplaint(reg, error)
    ensures !SchemaOk(reg)
  {
    if i :| 0 <= i < |reg.roles| && CardSchemaComplaint(reg.roles[i], false, error) {
      CardSchemaComplaintRejects(reg.roles[i], false, error);
    }
    if CardSchemaComplaint(reg.kai, true, error) {
      CardSchemaComplaintRejects(reg.kai, true, error);
    }
  }

  lemma CardSchemaComplaintRejects(card: RoleCard, isKai: bool, error: RegistryError)
    requires CardSchemaComplaint(card, isKai, error)
    ensures !CardSchemaOk(card, isKai)
  {
    if error.SchemaConstraint? {
      if t :| t in CardTexts(card) && t.0 == error.field && Text.IsBlank(t.1) {
        var k :| 0 <= k < |CardTexts(card)| && CardTexts(card)[k] == t;
      }
      if l :| l in CardLists(card, isKai) && l.0 == error.field && !UniqueNonblank(l.1, l.2) {
        var k :| 0 <= k < |CardLists(card, isKai)| && CardLists(card, isKai)[k] == l;
      }
    }
  }

  lemma DepartmentsRejected(reg: Registry, error: RegistryError)
    requires DepartmentComplaint(reg, error)
    ensures Rejects(reg, error)
  {
    DepartmentComplaintRejects(reg, error);
  }

  lemma DepartmentComplaintRejects(reg: Registry, error: RegistryError)
    requires DepartmentComplaint(reg, error)
    ensures !DepartmentsOk(reg)
  {
    var ids := DepartmentIds(reg.departments);
    if error.DuplicateDepartment? {
      var i, j :| 0 <= i < j < |ids| && ids[i] == error.department && ids[j] == error.department;
      assert reg.departments[i].id == reg.departments[j].id;
    } else if error.MissingDepartment? {
      var k :| 0 <= k < DEPARTMENTS && SpecAt(k).id == error.department;
      forall i | 0 <= i < |reg.departments| ensures reg.departments[i].id != SpecAt(k).id {
        assert ids[i] in ids;
      }
      assert !HasDepartment(reg.departments, SpecAt(k));
    } else if error.DepartmentDefinition? && DistinctDepartments(reg.departments) {
      var i :| 0 <= i < |reg.departments| && reg.departments[i].id == error.department
               && DepartmentDiffers(reg.departments[i]);
      DifferingDepartment(reg.departments, i);
    }
  }

  lemma DifferingDepartment(departments: seq<Department>, i: nat)
    requires i < |departments| && DepartmentDiffers(departments[i]) && DistinctDepartments(departments)
    ensures exists k :: 0 <= k < DEPARTMENTS && !HasDepartment(departments, SpecAt(k))
  {
    var k :| 0 <= k < DEPARTMENTS && SpecAt(k).id == departments[i].id && !DepartmentMatches(departments[i], SpecAt(k));
    assert !HasDepartment(departments, SpecAt(k));
  }

  /** Every complaint of every pass is false of every acceptable registry. */
  lemma NoComplaintAgainstAccepted(reg: Registry, error: RegistryError)
    requires Accepted(reg)
    ensures !Complaint(reg, error)
  {
    NoEarlyComplaint(reg, error);
    NoRoleComplaint(reg, error);
    if ReportingComplaint(reg.roles, error) { ReportingComplaintRejects(reg, error); }
    NoPrincipalComplaint(reg, error);
  }

  lemma NoEarlyComplaint(reg: Registry, error: RegistryError)
    requires AuthorityOk(reg) && SchemaOk(reg) && DepartmentsOk(reg)
    ensures !AuthorityComplaint(reg, error) && !SchemaComplaint(reg, error) && !DepartmentComplaint(reg, error)
  {
    if SchemaComplaint(reg, error) { SchemaComplaintRejects(reg, error); }
    if DepartmentComplaint(reg, error) { DepartmentComplaintRejects(reg, error); }
  }

  lemma NoRoleComplaint(reg: Registry, error: RegistryError)
    requires SchemaOk(reg) && RolesOk(reg)
    ensures !RoleComplaint(reg, error)
  {
    if RoleComplaint(reg, error) {
      CardIdsAreNotReported(reg, error);
      RoleComplaintRejects(reg, error);
    }
  }

  lemma NoPrincipalComplaint(reg: Registry, error: RegistryError)
    requires RolesOk(reg) && PrincipalsOk(reg)
    ensures !PrincipalComplaint(reg, error)
  {
    if PrincipalComplaint(reg, error) { PrincipalComplaintRejects(reg, error); }
  }

  lemma CardIdsAreNotReported(reg: Registry, error: RegistryError)
    requires SchemaOk(reg) && RoleComplaint(reg, error)
    ensures !error.DuplicateCardId?
  {
    if error.DuplicateCardId? { CardsAreNotShared(reg, error.cardId); }
  }

  lemma RolesRejected(reg: Registry, error: RegistryError)
    requires SchemaOk(reg) && RoleComplaint(reg, error)
    ensures Rejects(reg, error)
  {
    RolesComplain(reg, error);
    RolesAreNotAccepted(reg, error);
  }

  lemma RolesComplain(reg: Registry, error: RegistryError)
    requires RoleComplaint(reg, error)
    ensures Complaint(reg, error)
  {
  }

  lemma RolesAreNotAccepted(reg: Registry, error: RegistryError)
    requires SchemaOk(reg) && RoleComplaint(reg, error)
    ensures !Unreachable(error) && !Accepted(reg)
  {
    CardIdsAreNotReported(reg, error);
    RoleComplaintRejects(reg, error);
  }

  lemma ReportsRejected(reg: Registry, error: RegistryError)
    requires RolesOk(reg) && ReportingComplaint(reg.roles, error)
    ensures Rejects(reg, error)
  {
    ReportsComplain(reg, error);
    ReportsAreNotAccepted(reg, error);
  }

  lemma ReportsComplain(reg: Registry, error: RegistryError)
    requires ReportingComplaint(reg.roles, error)
    ensures Complaint(reg, error)
  {
  }

  lemma ReportsAreNotAccepted(reg: Registry, error: RegistryError)
    requires RolesOk(reg) && ReportingComplaint(reg.roles, error)
    ensures !Unreachable(error) && !Accepted(reg)
  {
    ReportingComplaintRejects(reg, error);
    ReportingIsNeeded(reg);
  }

  lemma ReportingIsNeeded(reg: Registry)
    ensures Accepted(reg) ==> ReportingOk(reg)
  {
  }

  lemma PrincipalsRejected(reg: Registry, error: RegistryError)
    requires RolesOk(reg) && PrincipalComplaint(reg, error)
    ensures Rejects(reg, error)
  {
    PrincipalsComplain(reg, error);
    PrincipalsAreNotAccepted(reg, error);
  }

  lemma PrincipalsComplain(reg: Registry, error: RegistryError)
    requires PrincipalComplaint(reg, error)
    ensures Complaint(reg, error)
  {
  }

  lemma PrincipalsAreNotAccepted(reg: Registry, error: RegistryError)
    requires RolesOk(reg) && PrincipalComplaint(reg, error)
    ensures !Unreachable(error) && !Accepted(reg)
  {
    PrincipalComplaintRejects(reg, error);
  }

  lemma KaiRejected(reg: Registry, error: RegistryError)
    requires KaiComplaint(reg, error)
    ensures Rejects(reg, error)
  {
  }

  /** The validator accepts exactly the acceptable registries; otherwise it raises a complaint of the
      first pass that fails, true of the document, and never a duplicate card id, a missing role or a role without a
      principal. */
  method Validate(reg: Registry) returns (r: Verdict)
    ensures r.Ok? <==> Accepted(reg)
    ensures r.Err? ==> FirstFailure(reg, r.error) && Complaint(reg, r.error) && !Unreachable(r.error)
  {
    r := ValidateDocument(reg);
    if r.Err? { return; }
    r := ValidateRoles(reg);
    if r.Err? { RolesRejected(reg, r.error); ComplaintOfPass(reg, 4, r.error); return; }
    r := ValidateReportingChain(reg);
    if r.Err? { ReportsRejected(reg, r.error); ComplaintOfPass(reg, 5, r.error); return; }
    r := ValidateRuntimePrincipals(reg);
    if r.Err? { PrincipalsRejected(reg, r.error); ComplaintOfPass(reg, 6, r.error); return; }
    r := ValidateKai(reg);
    if r.Err? { KaiRejected(reg, r.error); ComplaintOfPass(reg, 7, r.error); return; }
  }
}
