/** The fail-closed validator: seven passes in a fixed order, each stopping at its first complaint. */
module RoleValidator {
  import opened Base
  import opened Roster
  import opened RoleRegistry
  import opened RoleStructure
  import Text

  type Verdict = Result<(), RegistryError>

  // ----- complaints are true ---------------------------------------------------------------
  // One predicate per pass: the complaints that pass can raise, and what each says about the
  // document. A complaint that is not listed cannot be raised.

  predicate AuthorityComplaint(reg: Registry, error: RegistryError) {
    || (error.RegistryIdDrift? && Carried(reg, RegistryIdText) != Expected(RegistryIdText))
    || (error.RegistryVersionDrift? && Carried(reg, RegistryVersionText) != Expected(RegistryVersionText))
    || (error.ExecutableRegistry? && reg.executable)
    || (error.WorkerCap? && error.workers == reg.authority.maxConcurrentWorkers != 3)
    || (error.ExternalActionsEnabled? && reg.authority.externalActions)
    || (error.DurableStateAuthority? && Carried(reg, DurableStateAuthorityText) != Expected(DurableStateAuthorityText))
    || (error.AuthorityContract? && Carried(reg, error.authorityField) != Expected(error.authorityField))
    || (error.LanePolicy? && !IsLanePolicy(reg.authority.lanePolicy))
  }

  /** The field itself is blank, or the list too short, repetitive or with a blank entry. */
  predicate AuthoritySchemaComplaint(reg: Registry, error: RegistryError) {
    match error
    case SchemaConstraint(InRegistry, field) => field == "description" && Text.IsBlank(reg.description)
    case SchemaConstraint(InAuthority, field) =>
      || (field == "numericRoleRanges" && Text.IsBlank(reg.authority.numericRoleRanges))
      || (field == "runtimeMeaning" && Text.IsBlank(reg.authority.runtimeMeaning))
      || (field == "durableStateAuthority" && Text.IsBlank(reg.authority.durableStateAuthority))
      || (field == "makerCheckerSeparation" && Text.IsBlank(reg.authority.makerCheckerSeparation))
      || (field == "externalActionPolicy" && Text.IsBlank(reg.authority.externalActionPolicy))
      || (field == "lanePolicy" && !UniqueNonblank(reg.authority.lanePolicy, 3))
    case _ => false
  }

  predicate DepartmentSchemaComplaint(d: Department, error: RegistryError) {
    match error
    case SchemaConstraint(InDepartment(id), field) =>
      && id == d.id
      && ( || (field == "title" && Text.IsBlank(d.title)) || (field == "range" && Text.IsBlank(d.range))
           || (field == "headCodename" && Text.IsBlank(d.headCodename))
           || (field == "defaultActionClasses" && !UniqueActions(d.defaultActionClasses)))
    case _ => false
  }

  predicate PrincipalSchemaComplaint(p: Principal, error: RegistryError) {
    match error
    case SchemaConstraint(InPrincipal(id), field) =>
      && id == p.id
      && ( || (field == "runtimePrincipalId" && Text.IsBlank(p.id))
           || (field == "roleIds" && (p.roleIds == [] || !NoDuplicates(p.roleIds))))
    case _ => false
  }

  function CardScope(card: RoleCard, isKai: bool): Scope {
    if isKai then InKai else InRole(card.roleId)
  }

  ghost predicate CardSchemaComplaint(card: RoleCard, isKai: bool, error: RegistryError) {
    || (error == RoleCardSyntax(card.roleId, card.cardId) && !isKai && !ValidNumberedCardId(card.cardId, card.roleId))
    || (error == FunctionalRoleIdSyntax(card.roleId, card.functionalRoleId)
         && !ValidFunctionalRoleId(card.functionalRoleId))
    || (error.SchemaConstraint? && error.scope == CardScope(card, isKai) && CardFieldBroken(card, isKai, error.field))
  }

  ghost predicate CardFieldBroken(card: RoleCard, isKai: bool, field: string) {
    || (exists t :: t in CardTexts(card) && t.0 == field && Text.IsBlank(t.1))
    || (field == "actionClasses" && !UniqueActions(card.actionClasses))
    || (exists l :: l in CardLists(card, isKai) && l.0 == field && !UniqueNonblank(l.1, l.2))
  }

  /** The complaint is about this document's authority, or one of its departments, principals or
      cards, and about the named field of it. */
  ghost predicate SchemaComplaint(reg: Registry, error: RegistryError) {
    || AuthoritySchemaComplaint(reg, error)
    || (exists i :: 0 <= i < |reg.departments| && DepartmentSchemaComplaint(reg.departments[i], error))
    || (exists i :: 0 <= i < |reg.principals| && PrincipalSchemaComplaint(reg.principals[i], error))
    || (exists i :: 0 <= i < |reg.roles| && CardSchemaComplaint(reg.roles[i], false, error))
    || CardSchemaComplaint(reg.kai, true, error)
  }

  predicate IsExpectedDepartment(id: DepartmentId) {
    exists k :: 0 <= k < DEPARTMENTS && SpecAt(k).id == id
  }

  /** A department that is not as its specification has it. */
  predicate DepartmentDiffers(d: Department) {
    exists k :: 0 <= k < DEPARTMENTS && SpecAt(k).id == d.id && !DepartmentMatches(d, SpecAt(k))
  }

  ghost predicate DepartmentComplaint(reg: Registry, error: RegistryError) {
    || (error == DepartmentCount(|reg.departments|) && |reg.departments| != 5)
    || (error.DuplicateDepartment? && Repeats(DepartmentIds(reg.departments), error.department))
    || (error.MissingDepartment? && IsExpectedDepartment(error.department)
         && error.department !in DepartmentIds(reg.departments))
    || (error.DepartmentDefinition?
        && exists i :: 0 <= i < |reg.departments| && reg.departments[i].id == error.department
             && DepartmentDiffers(reg.departments[i]))
  }

  function DepartmentIds(departments: seq<Department>): seq<DepartmentId> {
    seq(|departments|, i requires 0 <= i < |departments| => departments[i].id)
  }

  /** The complaints about one card on its own. */
  predicate CardComplaint(role: RoleCard, error: RegistryError) {
    || (error == OutOfRangeRoleId(role.roleId) && !(1 <= role.roleId <= SIZE))
    || (error == RoleDepartment(role.roleId) && !HasItsDepartment(role))
    || (error == RoleActionClasses(role.roleId) && !HasItsActions(role))
    || (error == RosterCodenameDrift(role.roleId) && !HasItsCodename(role))
    || (error == OutsideStatusOnRonin(role.roleId) && role.status.PassiveSpecificationOutside47?)
  }

  ghost predicate Repeats<K(!new)>(ids: seq<K>, id: K) {
    exists i, j :: 0 <= i < j < |ids| && ids[i] == id && ids[j] == id
  }

  ghost predicate SomeCardComplaint(roles: seq<RoleCard>, error: RegistryError) {
    exists i :: 0 <= i < |roles| && CardComplaint(roles[i], error)
  }

  /** Two different roles carry this card id. */
  ghost predicate SharedCard(roles: seq<RoleCard>, cardId: string) {
    exists i, j :: 0 <= i < j < |roles| && roles[i].cardId == cardId && roles[j].cardId == cardId
        && roles[i].roleId != roles[j].roleId
  }

  /** `MissingRoleId` is not among them. */
  ghost predicate RoleComplaint(reg: Registry, error: RegistryError) {
    || (error == RoleCount(|reg.roles|) && |reg.roles| != SIZE)
    || (error.DuplicateRoleId? && Repeats(RoleIds(reg.roles), error.roleId))
    || (error.DuplicateCardId? && SharedCard(reg.roles, error.cardId))
    || (error.DuplicateFunctionalRoleId? && Repeats(FunctionalIds(reg.roles), error.functionalRoleId))
    || (error == ImplementedRoleSet(ImplementedRoles(reg.roles)) && ImplementedRoles(reg.roles) != EXPECTED_IMPLEMENTED)
    || SomeCardComplaint(reg.roles, error)
  }

  // ----- identifier syntax -----------------------------------------------------------------

  /** `valid_segmented_identifier` */
  method CheckSegmentedIdentifier(value: string, separators: set<char>) returns (ok: bool)
    requires forall c :: c in separators ==> !IsSegmentChar(c)
    ensures ok <==> IsSegmentedIdentifier(value, separators)
  {
    var segmentIsEmpty := true;
    for i := 0 to |value|
      invariant forall k :: 0 <= k < i ==> value[k] in separators || IsSegmentChar(value[k])
      invariant forall k :: 0 < k < i ==> value[k - 1] !in separators || value[k] !in separators
      invariant i > 0 ==> value[0] !in separators
      invariant segmentIsEmpty <==> i == 0 || value[i - 1] in separators
    {
      if value[i] in separators {
        if segmentIsEmpty { return false; }
        segmentIsEmpty := true;
      } else if IsSegmentChar(value[i]) {
        segmentIsEmpty := false;
      } else {
        return false;
      }
    }
    return !segmentIsEmpty;
  }

  // ----- pass 1: authority -----------------------------------------------------------------

  method ValidateAuthority(reg: Registry) returns (r: Verdict)
    ensures r.Ok? <==> AuthorityOk(reg)
    ensures r.Err? ==> AuthorityComplaint(reg, r.error)
  {
    if reg.registryId != Expected(RegistryIdText) { return Err(RegistryIdDrift); }
    if reg.registryVersion != Expected(RegistryVersionText) { return Err(RegistryVersionDrift); }
    if reg.executable { return Err(ExecutableRegistry); }
    if reg.authority.maxConcurrentWorkers != 3 { return Err(WorkerCap(reg.authority.maxConcurrentWorkers)); }
    if reg.authority.externalActions { return Err(ExternalActionsEnabled); }
    if reg.authority.durableStateAuthority != Expected(DurableStateAuthorityText) { return Err(DurableStateAuthority); }
    if reg.authority.numericRoleRanges != Expected(NumericRoleRanges) {
      return Err(AuthorityContract(NumericRoleRanges));
    }
    if reg.authority.runtimeMeaning != Expected(RuntimeMeaning) { return Err(AuthorityContract(RuntimeMeaning)); }
    if reg.authority.makerCheckerSeparation != Expected(MakerCheckerSeparation) {
      return Err(AuthorityContract(MakerCheckerSeparation));
    }
    if reg.authority.externalActionPolicy != Expected(ExternalActionPolicy) {
      return Err(AuthorityContract(ExternalActionPolicy));
    }
    if !IsLanePolicy(reg.authority.lanePolicy) { return Err(LanePolicy); }
    forall text: ContractText ensures Carried(reg, text) == Expected(text) {
      match text { case RegistryIdText => case _ => }
    }
    return Ok(());
  }

  // ----- pass 2: schema --------------------------------------------------------------------

  function RequireNonblank(scope: Scope, field: string, value: string): Verdict {
    if Text.IsBlank(value) then Err(SchemaConstraint(scope, field)) else Ok(())
  }

  method ValidateCardSchema(card: RoleCard, isKai: bool) returns (r: Verdict)
    ensures r.Ok? <==> CardSchemaOk(card, isKai)
    ensures r.Err? ==> CardSchemaComplaint(card, isKai, r.error)
  {
    var scope := CardScope(card, isKai);
    CardIdCheckMeaning(card.cardId, card.roleId);
    if !isKai && !CardIdCheck(card.cardId, card.roleId) { return Err(RoleCardSyntax(card.roleId, card.cardId)); }
    var functionalOk := CheckSegmentedIdentifier(card.functionalRoleId, {'.', '-'});
    if !functionalOk { return Err(FunctionalRoleIdSyntax(card.roleId, card.functionalRoleId)); }
    var texts := CardTexts(card);
    for i := 0 to |texts|
      invariant forall k :: 0 <= k < i ==> !Text.IsBlank(texts[k].1)
    {
      assert texts[i] in texts;
      if Text.IsBlank(texts[i].1) { return Err(SchemaConstraint(scope, texts[i].0)); }
    }
    if !UniqueActions(card.actionClasses) { return Err(SchemaConstraint(scope, "actionClasses")); }
    var lists := CardLists(card, isKai);
    for i := 0 to |lists|
      invariant forall k :: 0 <= k < i ==> UniqueNonblank(lists[k].1, lists[k].2)
    {
      assert lists[i] in lists;
      if !UniqueNonblank(lists[i].1, lists[i].2) { return Err(SchemaConstraint(scope, lists[i].0)); }
    }
    return Ok(());
  }

  method ValidateAuthoritySchema(reg: Registry) returns (r: Verdict)
    ensures r.Ok? <==> AuthoritySchemaOk(reg)
    ensures r.Err? ==> AuthoritySchemaComplaint(reg, r.error)
  {
    r := RequireNonblank(InRegistry, "description", reg.description);
    if r.Err? { return; }
    r := RequireNonblank(InAuthority, "numericRoleRanges", reg.authority.numericRoleRanges);
    if r.Err? { return; }
    r := RequireNonblank(InAuthority, "runtimeMeaning", reg.authority.runtimeMeaning);
    if r.Err? { return; }
    r := RequireNonblank(InAuthority, "durableStateAuthority", reg.authority.durableStateAuthority);
    if r.Err? { return; }
    r := RequireNonblank(InAuthority, "makerCheckerSeparation", reg.authority.makerCheckerSeparation);
    if r.Err? { return; }
    r := RequireNonblank(InAuthority, "externalActionPolicy", reg.authority.externalActionPolicy);
    if r.Err? { return; }
    if !UniqueNonblank(reg.authority.lanePolicy, 3) { return Err(SchemaConstraint(InAuthority, "lanePolicy")); }
  }

  function DepartmentSchema(d: Department): (r: Verdict)
    ensures r.Ok? <==> DepartmentSchemaOk(d)
    ensures r.Err? ==> DepartmentSchemaComplaint(d, r.error)
  {
    var scope := InDepartment(d.id);
    if Text.IsBlank(d.title) then Err(SchemaConstraint(scope, "title"))
    else if Text.IsBlank(d.range) then Err(SchemaConstraint(scope, "range"))
    else if Text.IsBlank(d.headCodename) then Err(SchemaConstraint(scope, "headCodename"))
    else if !UniqueActions(d.defaultActionClasses) then Err(SchemaConstraint(scope, "defaultActionClasses"))
    else Ok(())
  }

  function PrincipalSchema(p: Principal): (r: Verdict)
    ensures r.Ok? <==> PrincipalSchemaOk(p)
    ensures r.Err? ==> PrincipalSchemaComplaint(p, r.error)
  {
    if Text.IsBlank(p.id) then Err(SchemaConstraint(InPrincipal(p.id), "runtimePrincipalId"))
    else if p.roleIds == [] || !NoDuplicates(p.roleIds) then Err(SchemaConstraint(InPrincipal(p.id), "roleIds"))
    else Ok(())
  }

  method ValidateSchema(reg: Registry) returns (r: Verdict)
    ensures r.Ok? <==> SchemaOk(reg)
    ensures r.Err? ==> SchemaComplaint(reg, r.error)
  {
    r := ValidateAuthoritySchema(reg);
    if r.Err? { return; }
    for i := 0 to |reg.departments|
      invariant forall k :: 0 <= k < i ==> DepartmentSchemaOk(reg.departments[k])
    {
      r := DepartmentSchema(reg.departments[i]);
      if r.Err? { return; }
    }
    for i := 0 to |reg.principals|
      invariant forall k :: 0 <= k < i ==> PrincipalSchemaOk(reg.principals[k])
    {
      r := PrincipalSchema(reg.principals[i]);
      if r.Err? { return; }
    }
    for i := 0 to |reg.roles|
      invariant forall k :: 0 <= k < i ==> CardSchemaOk(reg.roles[k], false)
    {
      r := ValidateCardSchema(reg.roles[i], false);
      if r.Err? { return; }
    }
    r := ValidateCardSchema(reg.kai, true);
  }

  // ----- pass 3: departments ---------------------------------------------------------------

  method FindDepartment(departments: seq<Department>, id: DepartmentId) returns (found: Option<nat>)
    ensures found.Some? ==> found.value < |departments| && departments[found.value].id == id
    ensures found.None? ==> forall i :: 0 <= i < |departments| ==> departments[i].id != id
  {
    for i := 0 to |departments|
      invariant forall k :: 0 <= k < i ==> departments[k].id != id
    {
      if departments[i].id == id { return Some(i); }
    }
    return None;
  }

  method CheckDistinctDepartments(departments: seq<Department>) returns (r: Verdict)
    ensures r.Ok? <==> DistinctDepartments(departments)
    ensures r.Err? ==> r.error.DuplicateDepartment? && Repeats(DepartmentIds(departments), r.error.department)
  {
    var seen: set<DepartmentId> := {};
    ghost var ids := DepartmentIds(departments);
    for i := 0 to |departments|
      invariant Seen(ids, i, seen)
    {
      SeenExtends(ids, i, seen);
      if departments[i].id in seen { return Err(DuplicateDepartment(departments[i].id)); }
      seen := seen + {departments[i].id};
    }
    assert ids[..|ids|] == ids;
    forall i, j | 0 <= i < j < |departments| ensures departments[i].id != departments[j].id {
      assert ids[i] != ids[j];
    }
    return Ok(());
  }

  /** The verdict about one expected department. */
  method CheckDepartment(departments: seq<Department>, k: nat) returns (r: Verdict)
    requires k < DEPARTMENTS && DistinctDepartments(departments)
    ensures r.Ok? <==> HasDepartment(departments, SpecAt(k))
    ensures r.Err? ==> || (r.error == MissingDepartment(SpecAt(k).id) && SpecAt(k).id !in DepartmentIds(departments))
                       || (r.error == DepartmentDefinition(SpecAt(k).id)
                           && exists i :: 0 <= i < |departments| && departments[i].id == SpecAt(k).id
                                && DepartmentDiffers(departments[i]))
  {
    var spec := SpecAt(k);
    var found := FindDepartment(departments, spec.id);
    if found.None? { return Err(MissingDepartment(spec.id)); }
    var department := departments[found.value];
    if !DepartmentMatches(department, spec) {
      assert DepartmentDiffers(department);
      assert forall i :: 0 <= i < |departments| && i != found.value ==> departments[i].id != spec.id;
      return Err(DepartmentDefinition(spec.id));
    }
    return Ok(());
  }

  method ValidateDepartments(reg: Registry) returns (r: Verdict)
    ensures r.Ok? <==> DepartmentsOk(reg)
    ensures r.Err? ==> DepartmentComplaint(reg, r.error)
  {
    if |reg.departments| != 5 { return Err(DepartmentCount(|reg.departments|)); }
    r := CheckDistinctDepartments(reg.departments);
    if r.Err? { return; }
    for k := 0 to DEPARTMENTS
      invariant r.Ok?
      invariant forall j :: 0 <= j < k ==> HasDepartment(reg.departments, SpecAt(j))
    {
      r := CheckDepartment(reg.departments, k);
      if r.Err? {
        assert IsExpectedDepartment(SpecAt(k).id);
        return;
      }
    }
  }

  // ----- pass 4: roles ---------------------------------------------------------------------

  /** The checks of one card that need no other card, for an id in range. */
  function RoleCheck(role: RoleCard): (r: Verdict)
    requires 1 <= role.roleId <= SIZE
    ensures r.Ok? <==> RoleOk(role)
    ensures r.Err? ==> CardComplaint(role, r.error)
    ensures r.Err? ==> !r.error.OutOfRangeRoleId?
  {
    SpecNamesHead(role.roleId);
    var spec := SpecForRole(role.roleId).value;
    if role.departmentId != spec.id || role.departmentTitle != spec.title || role.headRoleId != Some(spec.headRoleId)
    then Err(RoleDepartment(role.roleId))
    else if !SameActionClassSet(role.actionClasses, ExpectedRoleActions(role.roleId))
    then Err(RoleActionClasses(role.roleId))
    else if RosterCodename(role.roleId).Some? && RosterCodename(role.roleId).value != role.codename
    then Err(RosterCodenameDrift(role.roleId))
    else if role.status.PassiveSpecificationOutside47? then Err(OutsideStatusOnRonin(role.roleId))
    else Ok(())
  }

  /** `seen` holds exactly the first `n` ids, and they are distinct. */
  ghost predicate Seen<K(!new)>(ids: seq<K>, n: nat, seen: set<K>)
    requires n <= |ids|
  {
    (forall id :: id in seen <==> id in ids[..n]) && NoDuplicates(ids[..n])
  }

  lemma SeenExtends<K(!new)>(ids: seq<K>, n: nat, seen: set<K>)
    requires n < |ids| && Seen(ids, n, seen)
    ensures ids[n] !in seen ==> Seen(ids, n + 1, seen + {ids[n]})
    ensures ids[n] in seen ==> exists i :: 0 <= i < n && ids[i] == ids[n]
  {
    assert ids[..n + 1] == ids[..n] + [ids[n]];
  }

  function CardIds(roles: seq<RoleCard>): seq<string> {
    seq(|roles|, i requires 0 <= i < |roles| => roles[i].cardId)
  }

  function FunctionalIds(roles: seq<RoleCard>): seq<string> {
    seq(|roles|, i requires 0 <= i < |roles| => roles[i].functionalRoleId)
  }

  lemma ImplementedExtends(roles: seq<RoleCard>, n: nat)
    requires n < |roles|
    ensures ImplementedRoles(roles[..n + 1]) ==
            ImplementedRoles(roles[..n])
                + if roles[n].status.CodedRustRuntimePlusPassiveCard? then {roles[n].roleId} else {}
  {
    assert roles[..n + 1] == roles[..n] + [roles[n]];
    assert forall role :: role in roles[..n + 1] <==> role in roles[..n] || role == roles[n];
  }

  /** The sets that the loop over the cards fills. */
  datatype Tally = Tally(roleIds: set<nat>, cardIds: set<string>, functionalIds: set<string>, implemented: set<nat>)

  /** What the loop knows after `n` cards. */
  ghost predicate RolesSeen(roles: seq<RoleCard>, n: nat, t: Tally)
    requires n <= |roles|
  {
    && Seen(RoleIds(roles), n, t.roleIds) && Seen(CardIds(roles), n, t.cardIds)
         && Seen(FunctionalIds(roles), n, t.functionalIds)
    && (forall k :: 0 <= k < n ==> RoleOk(roles[k]))
    && t.implemented == ImplementedRoles(roles[..n])
  }

  function WithRole(t: Tally, role: RoleCard): Tally {
    Tally(t.roleIds + {role.roleId}, t.cardIds + {role.cardId}, t.functionalIds + {role.functionalRoleId},
          t.implemented + if role.status.CodedRustRuntimePlusPassiveCard? then {role.roleId} else {})
  }

  lemma RolesSeenExtends(roles: seq<RoleCard>, n: nat, t: Tally)
    requires n < |roles| && RolesSeen(roles, n, t) && RoleOk(roles[n])
    requires roles[n].roleId !in t.roleIds && roles[n].cardId !in t.cardIds
               && roles[n].functionalRoleId !in t.functionalIds
    ensures RolesSeen(roles, n + 1, WithRole(t, roles[n]))
  {
    SeenExtends(RoleIds(roles), n, t.roleIds);
    SeenExtends(CardIds(roles), n, t.cardIds);
    SeenExtends(FunctionalIds(roles), n, t.functionalIds);
    ImplementedExtends(roles, n);
  }

  /** The checks of card `n` against the cards before it, and on its own. */
  method CheckRole(reg: Registry, n: nat, t: Tally) returns (r: Verdict)
    requires n < |reg.roles|
    requires Seen(RoleIds(reg.roles), n, t.roleIds) && Seen(CardIds(reg.roles), n, t.cardIds)
               && Seen(FunctionalIds(reg.roles), n, t.functionalIds)
    ensures r.Ok? ==> RoleOk(reg.roles[n]) && reg.roles[n].roleId !in t.roleIds
                      && reg.roles[n].cardId !in t.cardIds && reg.roles[n].functionalRoleId !in t.functionalIds
    ensures r.Err? ==> RoleComplaint(reg, r.error)
  {
    var role := reg.roles[n];
    if !(1 <= role.roleId <= SIZE) {
      assert CardComplaint(role, OutOfRangeRoleId(role.roleId));
      return Err(OutOfRangeRoleId(role.roleId));
    }
    SeenExtends(RoleIds(reg.roles), n, t.roleIds);
    if role.roleId in t.roleIds { return Err(DuplicateRoleId(role.roleId)); }
    SeenExtends(CardIds(reg.roles), n, t.cardIds);
    if role.cardId in t.cardIds {
      ghost var i :| 0 <= i < n && CardIds(reg.roles)[i] == role.cardId;
      assert RoleIds(reg.roles)[i] in RoleIds(reg.roles)[..n];
      return Err(DuplicateCardId(role.cardId));
    }
    SeenExtends(FunctionalIds(reg.roles), n, t.functionalIds);
    if role.functionalRoleId in t.functionalIds { return Err(DuplicateFunctionalRoleId(role.functionalRoleId)); }
    r := RoleCheck(role);
  }

  /** One pass of the loop over the cards. */
  method TakeRole(reg: Registry, n: nat, t: Tally) returns (r: Verdict, next: Tally)
    requires n < |reg.roles| && RolesSeen(reg.roles, n, t)
    ensures r.Ok? ==> RolesSeen(reg.roles, n + 1, next)
    ensures r.Err? ==> RoleComplaint(reg, r.error)
  {
    next := WithRole(t, reg.roles[n]);
    r := CheckRole(reg, n, t);
    if r.Ok? { RolesSeenExtends(reg.roles, n, t); }
  }

  /** A complaint about the roles means the roles are not acceptable; sharing a card id between two
      roles is the one that the card syntax has to rule out. */
  lemma RoleComplaintRejects(reg: Registry, error: RegistryError)
    requires RoleComplaint(reg, error) && !error.DuplicateCardId?
    ensures !RolesOk(reg)
  {
    if SomeCardComplaint(reg.roles, error) {
      var i := CardComplaintRejects(reg.roles, error);
    } else if error.DuplicateRoleId? {
      RepeatedRoleId(reg.roles, error.roleId);
    } else if error.DuplicateFunctionalRoleId? {
      RepeatedFunctionalId(reg.roles, error.functionalRoleId);
    }
  }

  lemma RepeatedRoleId(roles: seq<RoleCard>, id: nat)
    requires Repeats(RoleIds(roles), id)
    ensures !DistinctRoleIds(roles)
  {
    var ids := RoleIds(roles);
    var i, j :| 0 <= i < j < |ids| && ids[i] == id && ids[j] == id;
    assert roles[i].roleId == roles[j].roleId;
  }

  lemma RepeatedFunctionalId(roles: seq<RoleCard>, id: string)
    requires Repeats(FunctionalIds(roles), id)
    ensures !DistinctFunctionalIds(roles)
  {
    var ids := FunctionalIds(roles);
    var i, j :| 0 <= i < j < |ids| && ids[i] == id && ids[j] == id;
    assert roles[i].functionalRoleId == roles[j].functionalRoleId;
  }

  lemma CardComplaintRejects(roles: seq<RoleCard>, error: RegistryError) returns (i: nat)
    requires SomeCardComplaint(roles, error)
    ensures i < |roles| && !RoleOk(roles[i])
  {
    i :| i < |roles| && CardComplaint(roles[i], error);
  }

  lemma SeenAllRoles(roles: seq<RoleCard>, t: Tally)
    requires RolesSeen(roles, |roles|, t)
    ensures DistinctRoleIds(roles) && DistinctCardIds(roles) && DistinctFunctionalIds(roles)
    ensures t.implemented == ImplementedRoles(roles)
    ensures forall id :: HasRole(roles, id) ==> id in t.roleIds
  {
    assert roles[..|roles|] == roles;
    var ids, cards, functional := RoleIds(roles), CardIds(roles), FunctionalIds(roles);
    assert ids[..|ids|] == ids && cards[..|cards|] == cards && functional[..|functional|] == functional;
    forall i, j | 0 <= i < j < |roles|
      ensures roles[i].roleId != roles[j].roleId && roles[i].cardId != roles[j].cardId
                && roles[i].functionalRoleId != roles[j].functionalRoleId
    {
      assert ids[i] != ids[j] && cards[i] != cards[j] && functional[i] != functional[j];
    }
    forall id | HasRole(roles, id) ensures id in t.roleIds {
      var i :| 0 <= i < |roles| && roles[i].roleId == id;
      assert ids[i] == id;
    }
  }

  /** The loop over the expected ids. */
  method FindMissing(roleIds: set<nat>) returns (r: Verdict)
    ensures r.Err? ==> r.error.MissingRoleId? && 1 <= r.error.roleId <= SIZE && r.error.roleId !in roleIds
    ensures r.Ok? ==> Interval(1, SIZE) <= roleIds
  {
    for id: nat := 1 to SIZE + 1
      invariant forall k :: 1 <= k < id ==> k in roleIds
    {
      if id !in roleIds { return Err(MissingRoleId(id)); }
    }
    return Ok(());
  }

  /** The loop over the cards. */
  method CheckRoles(reg: Registry) returns (r: Verdict, t: Tally)
    ensures r.Ok? ==> RolesSeen(reg.roles, |reg.roles|, t)
    ensures r.Err? ==> RoleComplaint(reg, r.error)
  {
    r, t := Ok(()), Tally({}, {}, {}, {});
    for i := 0 to |reg.roles|
      invariant r.Ok? && RolesSeen(reg.roles, i, t)
    {
      r, t := TakeRole(reg, i, t);
      if r.Err? { return; }
    }
  }

  /** Once all 47 cards are checked, no id is missing. */
  lemma NoneMissing(reg: Registry, t: Tally)
    requires |reg.roles| == SIZE && RolesSeen(reg.roles, |reg.roles|, t)
    ensures forall id: nat :: 1 <= id <= SIZE ==> id in t.roleIds
    ensures t.implemented == ImplementedRoles(reg.roles)
    ensures t.implemented == EXPECTED_IMPLEMENTED ==> RolesOk(reg)
  {
    SeenAllRoles(reg.roles, t);
    forall id: nat | 1 <= id <= SIZE ensures id in t.roleIds {
      RoleIdsAreComplete(reg.roles, id);
    }
  }

  method ValidateRoles(reg: Registry) returns (r: Verdict)
    ensures r.Ok? ==> RolesOk(reg)
    ensures r.Err? ==> RoleComplaint(reg, r.error)
  {
    if |reg.roles| != SIZE { return Err(RoleCount(|reg.roles|)); }
    var t;
    r, t := CheckRoles(reg);
    if r.Err? { return; }
    NoneMissing(reg, t);
    r := FindMissing(t.roleIds);
    if r.Err? { return; }
    if t.implemented != EXPECTED_IMPLEMENTED { return Err(ImplementedRoleSet(t.implemented)); }
  }
}
