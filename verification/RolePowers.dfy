/** What the tables behind the registry's validator grant: action class by action class over the role
    ids, and boundary by boundary over the accepted roles. */
module RolePowers {
  import opened Base
  import opened Roster
  import opened RoleRegistry
  import RoleStructure
  import Text

  // ----- action classes ------------------------------------------------------------------

  /** The classes a role may list, each of them once. */
  predicate GrantsByRole(roleId: nat, actions: seq<ActionClass>) {
    && NoDuplicates(actions) && A in actions
    && (BPlanOnly in actions <==> 26 <= roleId <= 35)
    && (BCoordination in actions <==> roleId == 36 || roleId == 43)
    && (BExactLease in actions <==> 37 <= roleId <= 41)
    && (BFixtureOnly in actions <==> roleId == 42)
    && (CMakerChecker in actions <==> 37 <= roleId <= 42)
    && (DTicketedOnly in actions <==> 37 <= roleId <= 39 || roleId == 43)
    && ADraftOnly !in actions && X !in actions
  }

  /** The role pass accepts exactly the classes granted: maker-checker work for 37 to 42, ticketed
      external actions for 37 to 39 and 43, plans for the decision layer, and so on. */
  lemma RoleActionsIff(role: RoleCard)
    requires 1 <= role.roleId <= 47
    ensures HasItsActions(role) <==> GrantsByRole(role.roleId, role.actionClasses)
  {
    var expected := ElementsOf(ExpectedRoleActions(role.roleId));
    SameElementsIff(role.actionClasses, ExpectedRoleActions(role.roleId));
    assert forall c :: c in expected <==> Granted(role.roleId, c);
    assert GrantsByRole(role.roleId, role.actionClasses)
      <==> NoDuplicates(role.actionClasses) && forall c :: c in role.actionClasses <==> Granted(role.roleId, c);
  }

  predicate Granted(roleId: nat, c: ActionClass) {
    match c
    case A => true
    case BPlanOnly => 26 <= roleId <= 35
    case BCoordination => roleId == 36 || roleId == 43
    case BExactLease => 37 <= roleId <= 41
    case BFixtureOnly => roleId == 42
    case CMakerChecker => 37 <= roleId <= 42
    case DTicketedOnly => 37 <= roleId <= 39 || roleId == 43
    case ADraftOnly => false
    case X => false
  }

  /** The comparison of action classes ignores their order and refuses repetition. */
  lemma SameElementsIff(actual: seq<ActionClass>, expected: seq<ActionClass>)
    ensures SameActionClassSet(actual, expected) <==>
            NoDuplicates(actual) && NoDuplicates(expected) && forall c :: c in actual <==> c in expected
  {
    assert forall c :: c in ElementsOf(actual) <==> c in actual;
    assert forall c :: c in ElementsOf(expected) <==> c in expected;
  }

  predicate GrantsByDepartment(id: DepartmentId, actions: seq<ActionClass>) {
    && NoDuplicates(actions)
    && forall c :: c in actions <==> c.A? || (c.BPlanOnly? && id.L3?) || (c.BCoordination? && id.L4?)
  }

  /** A department's defaults are reading, plans in the third and coordination in the fourth. */
  lemma DepartmentActionsIff(id: DepartmentId, actions: seq<ActionClass>)
    requires !id.KaiDepartment?
    ensures SameActionClassSet(actions, ExpectedDepartmentActions(id)) <==> GrantsByDepartment(id, actions)
  {
    var expected := ExpectedDepartmentActions(id);
    SameElementsIff(actions, expected);
    assert forall c :: c in expected <==> c.A? || (c.BPlanOnly? && id.L3?) || (c.BCoordination? && id.L4?);
  }

  // ----- departments -----------------------------------------------------------------------

  /** The department table agrees with itself and with the roster: a department covers the `count` ids from its
      head on, which its range spells out, and its head has the roster's name. */
  lemma SpecAgreesWithRoster(k: nat)
    requires k < 5
    ensures var spec := SpecAt(k);
            && Covers(spec) && SpellsRange(spec.range, spec.headRoleId, spec.headRoleId + spec.count - 1)
            && RosterCodename(spec.headRoleId) == Some(spec.headCodename)
  {
    SpecCovers(k);
  }

  lemma SpecCovers(k: nat)
    requires k < 5
    ensures Covers(SpecAt(k))
  {
    assert forall i: nat, j: nat :: i < j < 5 ==> SpecAt(i).id != SpecAt(j).id;
  }

  ghost predicate Covers(spec: DepartmentSpec) {
    forall id: nat :: SpecForRole(id) == Some(spec) <==> spec.headRoleId <= id < spec.headRoleId + spec.count
  }

  predicate SpellsRange(range: string, first: nat, last: int) {
    && |range| == 5 && range[2] == '-'
    && (forall i | i in {0, 1, 3, 4} :: Text.IsAsciiDigit(range[i]))
    && TwoDigits(range[0], range[1]) == first && TwoDigits(range[3], range[4]) == last
  }

  /** Department by department, the title and the head. */
  predicate SitsIn(role: RoleCard, first: nat, last: nat, id: DepartmentId, title: string) {
    first <= role.roleId <= last ==>
      role.departmentId == id && role.departmentTitle == title && role.headRoleId == Some(first)
  }

  lemma RoleDepartmentIff(role: RoleCard)
    requires 1 <= role.roleId <= 47
    ensures HasItsDepartment(role) <==>
            && SitsIn(role, 1, 16, L1, "Perception") && SitsIn(role, 17, 25, L2, "Analysis")
            && SitsIn(role, 26, 35, L3, "Decision") && SitsIn(role, 36, 43, L4, "Coordination")
            && SitsIn(role, 44, 47, L5, "Research")
  {
  }

  // ----- boundaries ------------------------------------------------------------------------

  predicate BoundaryByRole(roleId: nat, boundary: Boundary) {
    && (boundary.CompiledRuntimeOnly? <==> roleId in {1, 2, 3, 4, 17, 18, 19, 26, 36})
    && (boundary.WriteWithExactPathLeaseForL4Only? <==> roleId in {24, 33, 34, 37, 38, 39})
    && (boundary.ReadOnlyExceptExactArtifactJob? <==> roleId == 40)
    && (boundary.CandidateOutputOnly? <==> roleId == 41)
    && (boundary.NoRepoSourceWrite? <==> roleId == 43)
    && !boundary.NoAccess?
  }

  lemma EntryBoundary(k: nat, roleId: nat)
    requires k < PRINCIPALS && roleId in PrincipalEntry(k).roleIds
    ensures BoundaryByRole(roleId, PrincipalEntry(k).sourceAccess)
  {
    if k < 3 { LowEntryBoundary(k, roleId); }
    if 3 <= k < 8 { MiddleEntryBoundary(k, roleId); }
  }

  lemma LowEntryBoundary(k: nat, roleId: nat)
    requires k < 3 && roleId in PrincipalEntry(k).roleIds
    ensures BoundaryByRole(roleId, PrincipalEntry(k).sourceAccess)
  {
  }

  lemma MiddleEntryBoundary(k: nat, roleId: nat)
    requires 3 <= k < 8 && roleId in PrincipalEntry(k).roleIds
    ensures BoundaryByRole(roleId, PrincipalEntry(k).sourceAccess)
  {
  }

  /** In every accepted registry the source access of a role is settled by its number: exactly the compiled
      runtime's roles are the implemented ones, and only six roles, all of one principal, may write under a
      lease. Its action classes are those granted. */
  lemma AcceptedPowers(reg: Registry, i: nat)
    requires Accepted(reg) && i < |reg.roles|
    ensures var role := reg.roles[i];
            && BoundaryByRole(role.roleId, role.boundary) && GrantsByRole(role.roleId, role.actionClasses)
            && (role.status.CodedRustRuntimePlusPassiveCard? <==> role.boundary.CompiledRuntimeOnly?)
            && (role.runtimePrincipalId == "codex" <==> role.boundary.WriteWithExactPathLeaseForL4Only?)
  {
    var role := reg.roles[i];
    assert RoleOk(role);
    RoleActionsIff(role);
    var k := ServedByEntry(reg, role);
    EntryBoundary(k, role.roleId);
    OnlyCodexWrites(k);
    CodedIff(reg.roles, i);
  }

  lemma ServedByEntry(reg: Registry, role: RoleCard) returns (k: nat)
    requires PrincipalsOk(reg) && role in reg.roles
    ensures k < PRINCIPALS && role.roleId in PrincipalEntry(k).roleIds
    ensures role.runtimePrincipalId == PrincipalEntry(k).id && role.boundary == PrincipalEntry(k).sourceAccess
  {
    assert RoleServed(reg.principals, role);
    var j :| 0 <= j < |reg.principals| && role.roleId in reg.principals[j].roleIds
             && PrincipalServes(reg.principals[j], role);
    var p := reg.principals[j];
    assert PrincipalMatches(p);
    k := FindEntry(p.id, 0).value;
    assert role.roleId in ElementsOf(p.roleIds);
    assert role.roleId in ElementsOf(PrincipalEntry(k).roleIds);
  }

  lemma OnlyCodexWrites(k: nat)
    requires k < PRINCIPALS
    ensures PrincipalEntry(k).id == "codex" <==> PrincipalEntry(k).sourceAccess.WriteWithExactPathLeaseForL4Only?
  {
    assert "codex"[0] == 'c' && "codex"[1] == 'o' && "codex"[2] == 'd' && "copilot-cli"[2] == 'p';
    assert "claude-code"[1] == 'l' && "claude-cowork"[1] == 'l';
  }

  lemma CodedIff(roles: seq<RoleCard>, i: nat)
    requires i < |roles| && DistinctRoleIds(roles) && ImplementedRoles(roles) == EXPECTED_IMPLEMENTED
    ensures roles[i].status.CodedRustRuntimePlusPassiveCard? <==>
            roles[i].roleId in {1, 2, 3, 4, 17, 18, 19, 26, 36}
  {
    if roles[i].roleId in ImplementedRoles(roles) {
      var role :| role in roles && role.status.CodedRustRuntimePlusPassiveCard? && role.roleId == roles[i].roleId;
      assert role == roles[i];
    }
  }

  // ----- who answers to whom ---------------------------------------------------------------

  /** Only two roles answer outside the roster: the coordinator to a human, the head of research to the layer
      that asks. */
  lemma WhoAnswersOutside(roles: seq<RoleCard>, i: nat)
    requires RoleStructure.Grounded(roles) && i < |roles|
    ensures roles[i].reportsTo == "human-operator" <==> roles[i].roleId == 36
    ensures roles[i].reportsTo == "requesting-operational-layer" <==> roles[i].roleId == 44
  {
    var role := roles[i];
    assert ReportsOk(roles, role);
    if role.roleId == HeadOf(role.roleId) {
      HeadAnswers(role.roleId, role.reportsTo);
    } else {
      var h :| 0 <= h < |roles| && roles[h].roleId == HeadOf(role.roleId) && roles[h].cardId == role.reportsTo;
      NotASentinel(role.reportsTo, roles[h].roleId);
    }
  }

  lemma NotASentinel(target: string, roleId: nat)
    requires ValidNumberedCardId(target, roleId)
    ensures target != "human-operator" && target != "requesting-operational-layer"
  {
    if IsReportingSentinel(target) { RoleStructure.SentinelIsNoCard(target, roleId); }
  }

  lemma HeadAnswers(roleId: nat, target: string)
    requires ExpectedHeadReportsTo(roleId) == Some(target)
    ensures target == "human-operator" <==> roleId == 36
    ensures target == "requesting-operational-layer" <==> roleId == 44
  {
    assert "ronin-17-junai-lead-analyst"[1] == 'o' && "ronin-26-kihei-decision-lead"[1] == 'o';
    assert "ronin-36-gengo-coordinator"[1] == 'o' && "human-operator"[1] == 'u';
    assert "requesting-operational-layer"[1] == 'e';
  }

  // ----- the document as a whole -------------------------------------------------------------

  /** What an accepted registry can never do: it does not execute, takes no external action, and has
      exactly one worker for each of its three lanes, one of which checks independently. */
  lemma AcceptedIsPassive(reg: Registry)
    requires Accepted(reg)
    ensures !reg.executable && !reg.authority.externalActions
    ensures reg.authority.maxConcurrentWorkers == |reg.authority.lanePolicy| == 3
    ensures NoDuplicates(reg.authority.lanePolicy) && "one-independent-checker" in reg.authority.lanePolicy
  {
    assert reg.authority.lanePolicy[1] in reg.authority.lanePolicy;
    assert UniqueNonblank(reg.authority.lanePolicy, 3);
  }

  /** The chatbot's card stands apart from the roster: it may draft and nothing else, touches no source,
      answers to a human and is run by a principal outside the table; its card id could not be a role's. */
  lemma KaiStandsApart(kai: RoleCard, roleId: nat)
    requires KaiCardOk(kai)
    ensures kai.actionClasses == [ADraftOnly] && kai.boundary.NoAccess?
    ensures LayerOf(kai.roleId) == Some(Chatbot) && RosterCodename(kai.roleId) == Some(kai.codename)
    ensures kai.departmentId.KaiDepartment? && kai.headRoleId.None? && kai.reportsTo == "human-operator"
    ensures ExpectedPrincipal(kai.runtimePrincipalId).None? && !ValidNumberedCardId(kai.cardId, roleId)
  {
    OnlyDrafts(kai.actionClasses);
    NotInTable(kai.runtimePrincipalId);
    NotNumbered(kai.cardId, roleId);
  }

  lemma NotNumbered(cardId: string, roleId: nat)
    requires cardId != [] && cardId[0] != 'r'
    ensures !ValidNumberedCardId(cardId, roleId)
  {
    assert "ronin-"[0] == 'r';
  }

  lemma NotInTable(id: string)
    requires id == "telegram-kai"
    ensures ExpectedPrincipal(id).None?
  {
    forall k: nat | k < PRINCIPALS ensures PrincipalEntry(k).id != "telegram-kai" {
      NoEntryIsTelegram(k);
    }
  }

  lemma NoEntryIsTelegram(k: nat)
    requires k < PRINCIPALS
    ensures PrincipalEntry(k).id != "telegram-kai"
  {
    assert "telegram-kai"[0] == 't';
  }

  lemma OnlyDrafts(actions: seq<ActionClass>)
    ensures SameActionClassSet(actions, [ADraftOnly]) <==> actions == [ADraftOnly]
  {
    SameElementsIff(actions, [ADraftOnly]);
    assert ADraftOnly in [ADraftOnly];
    if SameActionClassSet(actions, [ADraftOnly]) {
      ElementsCount(actions);
      assert ElementsOf(actions) == {ADraftOnly};
      assert actions[0] in actions;
    }
  }
}
