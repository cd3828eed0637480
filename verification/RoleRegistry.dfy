/** The passive role registry document, the tables it is checked against, and what each pass of
    the validator demands, stated without the passes. */
module RoleRegistry {
  import opened Base
  import opened Roster
  import Text

  datatype DepartmentId = L1 | L2 | L3 | L4 | L5 | KaiDepartment

  datatype ActionClass =
    | A | ADraftOnly | BCoordination | BExactLease | BFixtureOnly | BPlanOnly | CMakerChecker | DTicketedOnly | X

  datatype Boundary =
    | CandidateOutputOnly | CompiledRuntimeOnly | NoRepoSourceWrite | NoAccess | ReadOnly
    | ReadOnlyExceptExactArtifactJob | WriteWithExactPathLeaseForL4Only

  datatype ImplementationStatus =
    | CodedRustRuntimePlusPassiveCard
    | PassiveSpecificationAnchorCodename
    | PassiveSpecificationOutside47
    | PassiveSpecificationRuntimePrincipalMapped

  datatype Authority = Authority(
    numericRoleRanges: string, runtimeMeaning: string, durableStateAuthority: string,
    maxConcurrentWorkers: nat, lanePolicy: seq<string>, makerCheckerSeparation: string,
    externalActions: bool, externalActionPolicy: string)

  datatype Department = Department(
    id: DepartmentId, title: string, range: string, count: nat, headRoleId: nat, headCodename: string,
    defaultActionClasses: seq<ActionClass>)

  datatype Principal = Principal(id: string, roleIds: seq<nat>, sourceAccess: Boundary)

  datatype RoleCard = RoleCard(
    roleId: nat, cardId: string, functionalRoleId: string, departmentId: DepartmentId,
    departmentTitle: string, codename: string, title: string, mission: string, headRoleId: Option<nat>,
    reportsTo: string, runtimePrincipalId: string, boundary: Boundary, actionClasses: seq<ActionClass>,
    responsibilities: seq<string>, allowedInputs: seq<string>, outputs: seq<string>,
    requiredEvidence: seq<string>, prohibitedActions: seq<string>, escalation: seq<string>,
    backgroundCadence: string, status: ImplementationStatus, sourceRefs: seq<string>)

  datatype Registry = Registry(
    registryId: string, registryVersion: string, executable: bool, description: string, authority: Authority,
    departments: seq<Department>, principals: seq<Principal>, roles: seq<RoleCard>, kai: RoleCard)

  // ----- identifier syntax ---------------------------------------------------------------

  predicate IsSegmentChar(c: char) {
    'a' <= c <= 'z' || Text.IsAsciiDigit(c)
  }

  /** Lower-case alphanumeric segments joined by single separators, none of them empty. */
  predicate IsSegmentedIdentifier(value: string, separators: set<char>) {
    && value != []
    && (forall i :: 0 <= i < |value| ==> value[i] in separators || IsSegmentChar(value[i]))
    && value[0] !in separators && value[|value| - 1] !in separators
    && (forall i :: 0 < i < |value| ==> value[i - 1] !in separators || value[i] !in separators)
  }

  function SplitOnce(value: string, separator: char): Option<(string, string)> {
    if value == [] then None
    else if value[0] == separator then Some(([], value[1..]))
    else
      match SplitOnce(value[1..], separator)
      case None => None
      case Some((before, after)) => Some(([value[0]] + before, after))
  }

  /** `valid_numbered_card_id`, as it takes the id apart. */
  predicate CardIdCheck(value: string, roleId: nat) {
    && "ronin-" <= value
    && SplitOnce(value[6..], '-').Some?
    && var (number, suffix) := SplitOnce(value[6..], '-').value;
       && |number| == 2 && Text.IsAsciiDigit(number[0]) && Text.IsAsciiDigit(number[1])
       && TwoDigits(number[0], number[1]) == roleId
       && IsSegmentedIdentifier(suffix, {'-'})
  }

  function TwoDigits(tens: char, ones: char): int {
    10 * (tens as int - '0' as int) + (ones as int - '0' as int)
  }

  /** The number of a card id of the form `ronin-NN-suffix`. */
  function CardNumber(cardId: string): Option<int> {
    if |cardId| > 8 && "ronin-" <= cardId && Text.IsAsciiDigit(cardId[6]) && Text.IsAsciiDigit(cardId[7])
        && cardId[8] == '-'
       && IsSegmentedIdentifier(cardId[9..], {'-'})
    then Some(TwoDigits(cardId[6], cardId[7]))
    else None
  }

  predicate ValidNumberedCardId(cardId: string, roleId: nat) {
    CardNumber(cardId) == Some(roleId)
  }

  predicate ValidFunctionalRoleId(value: string) {
    IsSegmentedIdentifier(value, {'.', '-'})
  }

  lemma {:induction false} SplitOnceMeaning(value: string, separator: char)
    ensures match SplitOnce(value, separator)
            case None => separator !in value
            case Some((before, after)) => separator !in before && value == before + [separator] + after
  {
    if value != [] && value[0] != separator {
      SplitOnceMeaning(value[1..], separator);
      assert value == [value[0]] + value[1..];
    }
  }

  /** A card id passes the check for a role exactly when it is `ronin-NN-suffix` with that number. */
  lemma CardIdCheckMeaning(value: string, roleId: nat)
    ensures CardIdCheck(value, roleId) <==> ValidNumberedCardId(value, roleId)
  {
    if "ronin-" <= value {
      var rest := value[6..];
      SplitOnceMeaning(rest, '-');
      if SplitOnce(rest, '-').Some? {
        var (number, suffix) := SplitOnce(rest, '-').value;
        if |number| == 2 {
          assert value[6] == rest[0] == number[0] && value[7] == rest[1] == number[1] && value[8] == rest[2] == '-';
          assert suffix == rest[3..] == value[9..];
        }
      }
    }
  }

  // ----- expected tables -----------------------------------------------------------------

  /** The texts a registry must carry verbatim. */
  datatype ContractText =
    | RegistryIdText | RegistryVersionText | NumericRoleRanges | RuntimeMeaning | DurableStateAuthorityText
    | MakerCheckerSeparation | ExternalActionPolicy

  /** Of five of them only their equality matters, so a name stands for each sentence. */
  function Expected(text: ContractText): string {
    match text
    case RegistryIdText => "sirinx-47-ronin-passive-role-registry"
    case RegistryVersionText => "1.0.0"
    case NumericRoleRanges => "(numeric role ranges)"
    case RuntimeMeaning => "(runtime meaning)"
    case DurableStateAuthorityText => "(durable state authority)"
    case MakerCheckerSeparation => "(maker and checker separation)"
    case ExternalActionPolicy => "(external action policy)"
  }

  /** The text a registry carries in that place. */
  function Carried(reg: Registry, text: ContractText): string {
    match text
    case RegistryIdText => reg.registryId
    case RegistryVersionText => reg.registryVersion
    case NumericRoleRanges => reg.authority.numericRoleRanges
    case RuntimeMeaning => reg.authority.runtimeMeaning
    case DurableStateAuthorityText => reg.authority.durableStateAuthority
    case MakerCheckerSeparation => reg.authority.makerCheckerSeparation
    case ExternalActionPolicy => reg.authority.externalActionPolicy
  }

  predicate IsLanePolicy(lanes: seq<string>) {
    |lanes| == 3 && lanes[0] == "one-maker" && lanes[1] == "one-independent-checker"
        && lanes[2] == "one-verifier-or-researcher"
  }

  const EXPECTED_IMPLEMENTED: set<nat> := {1, 2, 3, 4, 17, 18, 19, 26, 36}

  /** `Roster::codename` */
  function RosterCodename(id: nat): Option<string> {
    match id
    case 0 => Some("Kai")
    case 1 => Some("Kuranosuke")
    case 16 => Some("Kin'emon")
    case 17 => Some("Jūnai")
    case 25 => Some("Jūrōzaemon")
    case 26 => Some("Kihei")
    case 36 => Some("Gengo")
    case 43 => Some("Yasoemon")
    case 44 => Some("Mimura")
    case 45 => Some("Yokogawa")
    case 46 => Some("Kayano")
    case 47 => Some("Terasaka")
    case _ => None
  }

  datatype DepartmentSpec = DepartmentSpec(
    id: DepartmentId, title: string, range: string, count: nat, headRoleId: nat, headCodename: string)

  const DEPARTMENTS: nat := 5

  function SpecAt(k: nat): DepartmentSpec
    requires k < DEPARTMENTS
  {
    match k
    case 0 => DepartmentSpec(L1, "Perception", "01-16", 16, 1, "Kuranosuke")
    case 1 => DepartmentSpec(L2, "Analysis", "17-25", 9, 17, "Jūnai")
    case 2 => DepartmentSpec(L3, "Decision", "26-35", 10, 26, "Kihei")
    case 3 => DepartmentSpec(L4, "Coordination", "36-43", 8, 36, "Gengo")
    case _ => DepartmentSpec(L5, "Research", "44-47", 4, 44, "Mimura")
  }

  function SpecForRole(roleId: nat): Option<DepartmentSpec> {
    match LayerOf(roleId)
    case Some(Perception) => Some(SpecAt(0))
    case Some(Analysis) => Some(SpecAt(1))
    case Some(Decision) => Some(SpecAt(2))
    case Some(Coordination) => Some(SpecAt(3))
    case Some(Research) => Some(SpecAt(4))
    case _ => None
  }

  function ExpectedDepartmentActions(id: DepartmentId): seq<ActionClass> {
    match id
    case L3 => [A, BPlanOnly]
    case L4 => [A, BCoordination]
    case KaiDepartment => []
    case _ => [A]
  }

  function ExpectedRoleActions(roleId: nat): seq<ActionClass> {
    match LayerOf(roleId)
    case Some(Decision) => [A, BPlanOnly]
    case Some(Coordination) =>
      if roleId == 36 then [A, BCoordination]
      else if 37 <= roleId <= 39 then [A, BExactLease, CMakerChecker, DTicketedOnly]
      else if 40 <= roleId <= 41 then [A, BExactLease, CMakerChecker]
      else if roleId == 42 then [A, BFixtureOnly, CMakerChecker]
      else if roleId == 43 then [A, BCoordination, DTicketedOnly]
      else []
    case Some(Chatbot) => []
    case None => []
    case _ => [A]
  }

  predicate IsReportingSentinel(target: string) {
    target == "human-operator" || target == "requesting-operational-layer"
  }

  function ExpectedHeadReportsTo(roleId: nat): Option<string> {
    match roleId
    case 1 => Some("ronin-17-junai-lead-analyst")
    case 17 => Some("ronin-26-kihei-decision-lead")
    case 26 => Some("ronin-36-gengo-coordinator")
    case 36 => Some("human-operator")
    case 44 => Some("requesting-operational-layer")
    case _ => None
  }

  const PRINCIPALS: nat := 14

  function PrincipalEntry(k: nat): Principal
    requires k < PRINCIPALS
  {
    match k
    case 0 => Principal("sirinx-rust-runtime", [1, 2, 3, 4, 17, 18, 19, 26, 36], CompiledRuntimeOnly)
    case 1 => Principal("webmcp", [5, 6, 7, 45], ReadOnly)
    case 2 => Principal("claude-code", [8, 9, 10, 20, 21, 30, 31, 42], ReadOnly)
    case 3 => Principal("claude-cowork", [11, 12, 32, 46], ReadOnly)
    case 4 => Principal("hermes", [13, 27, 28, 29, 35], ReadOnly)
    case 5 => Principal("manus", [14, 47], ReadOnly)
    case 6 => Principal("droid", [15], ReadOnly)
    case 7 => Principal("pi", [16], ReadOnly)
    case 8 => Principal("kimi-code", [22, 23, 44], ReadOnly)
    case 9 => Principal("codex", [24, 33, 34, 37, 38, 39], WriteWithExactPathLeaseForL4Only)
    case 10 => Principal("copilot-cli", [25], ReadOnly)
    case 11 => Principal("opencode", [40], ReadOnlyExceptExactArtifactJob)
    case 12 => Principal("antigravity2", [41], CandidateOutputOnly)
    case _ => Principal("openclaw", [43], NoRepoSourceWrite)
  }

  /** The first entry from `k` on with this id. */
  function FindEntry(id: string, k: nat): (r: Option<nat>)
    requires k <= PRINCIPALS
    ensures r.Some? ==> k <= r.value < PRINCIPALS && PrincipalEntry(r.value).id == id
    ensures r.None? ==> forall i :: k <= i < PRINCIPALS ==> PrincipalEntry(i).id != id
    decreases PRINCIPALS - k, id
  {
    if k == PRINCIPALS then None
    else if PrincipalEntry(k).id == id then Some(k)
    else FindEntry(id, k + 1)
  }

  function ExpectedPrincipal(id: string): Option<Principal> {
    match FindEntry(id, 0)
    case None => None
    case Some(k) => Some(PrincipalEntry(k))
  }

  predicate SameActionClassSet(actual: seq<ActionClass>, expected: seq<ActionClass>) {
    NoDuplicates(actual) && NoDuplicates(expected) && ElementsOf(actual) == ElementsOf(expected)
  }

  // ----- errors --------------------------------------------------------------------------

  datatype Scope =
    | InRegistry
    | InAuthority
    | InDepartment(id: DepartmentId)
    | InPrincipal(principal: string)
    | InRole(roleId: nat)
    | InKai

  datatype RegistryError =
    | RegistryIdDrift
    | RegistryVersionDrift
    | ExecutableRegistry
    | WorkerCap(workers: nat)
    | ExternalActionsEnabled
    | DurableStateAuthority
    | AuthorityContract(authorityField: ContractText)
    | LanePolicy
    | SchemaConstraint(scope: Scope, field: string)
    | RoleCardSyntax(roleId: nat, cardId: string)
    | FunctionalRoleIdSyntax(roleId: nat, functionalRoleId: string)
    | DepartmentCount(actual: nat)
    | DuplicateDepartment(department: DepartmentId)
    | MissingDepartment(department: DepartmentId)
    | DepartmentDefinition(department: DepartmentId)
    | RoleCount(actual: nat)
    | OutOfRangeRoleId(roleId: nat)
    | DuplicateRoleId(roleId: nat)
    | MissingRoleId(roleId: nat)
    | DuplicateCardId(cardId: string)
    | DuplicateFunctionalRoleId(functionalRoleId: string)
    | RoleDepartment(roleId: nat)
    | RoleActionClasses(roleId: nat)
    | RosterCodenameDrift(roleId: nat)
    | OutsideStatusOnRonin(roleId: nat)
    | ImplementedRoleSet(implemented: set<nat>)
    | UnresolvedReportsTo(roleId: nat, reportsTo: string)
    | HeadReportsTo(roleId: nat, reportsTo: string)
    | MemberReportsTo(roleId: nat, reportsTo: string)
    | RuntimePrincipalCount(actual: nat)
    | DuplicateRuntimePrincipal(principal: string)
    | UnknownRuntimePrincipal(principal: string)
    | RuntimePrincipalDefinition(principal: string)
    | RuntimePrincipalOutOfRangeRole(principal: string, roleId: nat)
    | DuplicateRuntimePrincipalRole(roleId: nat)
    | MissingRuntimePrincipalRole(roleId: nat)
    | RuntimePrincipalMismatch(roleId: nat)
    | RuntimeBoundaryMismatch(roleId: nat)
    | InvalidKai
    | KaiIdentifierCollision

  // ----- what acceptance means, pass by pass -------------------------------------------------

  ghost predicate AuthorityOk(reg: Registry) {
    && (forall text: ContractText :: Carried(reg, text) == Expected(text))
    && !reg.executable && reg.authority.maxConcurrentWorkers == 3 && !reg.authority.externalActions
    && IsLanePolicy(reg.authority.lanePolicy)
  }

  predicate UniqueNonblank(values: seq<string>, minimum: nat) {
    && |values| >= minimum && NoDuplicates(values)
    && forall i :: 0 <= i < |values| ==> !Text.IsBlank(values[i])
  }

  predicate UniqueActions(values: seq<ActionClass>) {
    values != [] && NoDuplicates(values)
  }

  predicate CardSchemaOk(card: RoleCard, isKai: bool) {
    && (isKai || ValidNumberedCardId(card.cardId, card.roleId))
    && ValidFunctionalRoleId(card.functionalRoleId)
    && (forall i :: 0 <= i < |CardTexts(card)| ==> !Text.IsBlank(CardTexts(card)[i].1))
    && UniqueActions(card.actionClasses)
    && (forall i :: 0 <= i < |CardLists(card, isKai)| ==>
          UniqueNonblank(CardLists(card, isKai)[i].1, CardLists(card, isKai)[i].2))
  }

  function CardTexts(card: RoleCard): seq<(string, string)> {
    [("cardId", card.cardId), ("functionalRoleId", card.functionalRoleId), ("departmentTitle", card.departmentTitle),
     ("codename", card.codename), ("title", card.title), ("mission", card.mission), ("reportsTo", card.reportsTo),
     ("runtimePrincipalId", card.runtimePrincipalId), ("backgroundCadence", card.backgroundCadence)]
  }

  function CardLists(card: RoleCard, isKai: bool): seq<(string, seq<string>, nat)> {
    [("responsibilities", card.responsibilities, if isKai then 1 else 2), ("allowedInputs", card.allowedInputs, 1),
     ("outputs", card.outputs, 1), ("requiredEvidence", card.requiredEvidence, 1),
     ("prohibitedActions", card.prohibitedActions, 1), ("escalation", card.escalation, 1),
     ("sourceRefs", card.sourceRefs, 1)]
  }

  predicate DepartmentSchemaOk(d: Department) {
    && !Text.IsBlank(d.title) && !Text.IsBlank(d.range) && !Text.IsBlank(d.headCodename)
    && UniqueActions(d.defaultActionClasses)
  }

  predicate PrincipalSchemaOk(p: Principal) {
    !Text.IsBlank(p.id) && p.roleIds != [] && NoDuplicates(p.roleIds)
  }

  predicate AuthoritySchemaOk(reg: Registry) {
    && !Text.IsBlank(reg.description)
    && !Text.IsBlank(reg.authority.numericRoleRanges) && !Text.IsBlank(reg.authority.runtimeMeaning)
    && !Text.IsBlank(reg.authority.durableStateAuthority) && !Text.IsBlank(reg.authority.makerCheckerSeparation)
    && !Text.IsBlank(reg.authority.externalActionPolicy)
    && UniqueNonblank(reg.authority.lanePolicy, 3)
  }

  predicate SchemaOk(reg: Registry) {
    && AuthoritySchemaOk(reg)
    && (forall i :: 0 <= i < |reg.departments| ==> DepartmentSchemaOk(reg.departments[i]))
    && (forall i :: 0 <= i < |reg.principals| ==> PrincipalSchemaOk(reg.principals[i]))
    && (forall i :: 0 <= i < |reg.roles| ==> CardSchemaOk(reg.roles[i], false))
    && CardSchemaOk(reg.kai, true)
  }

  predicate DepartmentMatches(d: Department, spec: DepartmentSpec) {
    && d.id == spec.id && d.title == spec.title && d.range == spec.range && d.count == spec.count
    && d.headRoleId == spec.headRoleId && d.headCodename == spec.headCodename
    && SameActionClassSet(d.defaultActionClasses, ExpectedDepartmentActions(spec.id))
  }

  predicate DistinctDepartments(departments: seq<Department>) {
    forall i, j :: 0 <= i < j < |departments| ==> departments[i].id != departments[j].id
  }

  predicate HasDepartment(departments: seq<Department>, spec: DepartmentSpec) {
    exists i :: 0 <= i < |departments| && DepartmentMatches(departments[i], spec)
  }

  predicate DepartmentsOk(reg: Registry) {
    && |reg.departments| == 5 && DistinctDepartments(reg.departments)
    && forall k :: 0 <= k < DEPARTMENTS ==> HasDepartment(reg.departments, SpecAt(k))
  }

  predicate DistinctRoleIds(roles: seq<RoleCard>) {
    forall i, j :: 0 <= i < j < |roles| ==> roles[i].roleId != roles[j].roleId
  }

  predicate DistinctCardIds(roles: seq<RoleCard>) {
    forall i, j :: 0 <= i < j < |roles| ==> roles[i].cardId != roles[j].cardId
  }

  predicate DistinctFunctionalIds(roles: seq<RoleCard>) {
    forall i, j :: 0 <= i < j < |roles| ==> roles[i].functionalRoleId != roles[j].functionalRoleId
  }

  predicate HasItsDepartment(role: RoleCard) {
    && SpecForRole(role.roleId).Some?
    && role.departmentId == SpecForRole(role.roleId).value.id
    && role.departmentTitle == SpecForRole(role.roleId).value.title
    && role.headRoleId == Some(SpecForRole(role.roleId).value.headRoleId)
  }

  predicate HasItsActions(role: RoleCard) {
    SameActionClassSet(role.actionClasses, ExpectedRoleActions(role.roleId))
  }

  predicate HasItsCodename(role: RoleCard) {
    RosterCodename(role.roleId).Some? ==> RosterCodename(role.roleId).value == role.codename
  }

  /** What one role card must agree with, apart from the other cards. */
  predicate RoleOk(role: RoleCard) {
    && 1 <= role.roleId <= SIZE
    && HasItsDepartment(role) && HasItsActions(role) && HasItsCodename(role)
    && !role.status.PassiveSpecificationOutside47?
  }

  function ImplementedRoles(roles: seq<RoleCard>): set<nat> {
    set role | role in roles && role.status.CodedRustRuntimePlusPassiveCard? :: role.roleId
  }

  predicate RolesOk(reg: Registry) {
    && |reg.roles| == SIZE
    && (forall i :: 0 <= i < |reg.roles| ==> RoleOk(reg.roles[i]))
    && DistinctRoleIds(reg.roles) && DistinctFunctionalIds(reg.roles)
    && ImplementedRoles(reg.roles) == EXPECTED_IMPLEMENTED
  }

  ghost predicate HasCard(roles: seq<RoleCard>, cardId: string) {
    exists i :: 0 <= i < |roles| && roles[i].cardId == cardId
  }

  ghost predicate HasRoleCard(roles: seq<RoleCard>, id: nat, cardId: string) {
    exists h :: 0 <= h < |roles| && roles[h].roleId == id && roles[h].cardId == cardId
  }

  /** The head of a role's department. */
  function HeadOf(roleId: nat): nat {
    if roleId <= 16 then 1 else if roleId <= 25 then 17 else if roleId <= 35 then 26
    else if roleId <= 43 then 36 else 44
  }

  lemma SpecNamesHead(roleId: nat)
    ensures SpecForRole(roleId).Some? <==> 1 <= roleId <= SIZE
    ensures SpecForRole(roleId).Some? ==> SpecForRole(roleId).value.headRoleId == HeadOf(roleId)
  {
  }

  /** A head reports as the table says; a member reports to its head's card. */
  ghost predicate ReportsOk(roles: seq<RoleCard>, role: RoleCard) {
    && (IsReportingSentinel(role.reportsTo) || HasCard(roles, role.reportsTo))
    && 1 <= role.roleId <= SIZE
    && if role.roleId == HeadOf(role.roleId) then ExpectedHeadReportsTo(role.roleId) == Some(role.reportsTo)
       else HasRoleCard(roles, HeadOf(role.roleId), role.reportsTo)
  }

  ghost predicate ReportingOk(reg: Registry) {
    forall i :: 0 <= i < |reg.roles| ==> ReportsOk(reg.roles, reg.roles[i])
  }

  predicate DistinctPrincipals(principals: seq<Principal>) {
    forall i, j :: 0 <= i < j < |principals| ==> principals[i].id != principals[j].id
  }

  predicate PrincipalMatches(p: Principal) {
    && ExpectedPrincipal(p.id).Some?
    && p.sourceAccess == ExpectedPrincipal(p.id).value.sourceAccess
    && ElementsOf(p.roleIds) == ElementsOf(ExpectedPrincipal(p.id).value.roleIds)
    && (forall k :: 0 <= k < |p.roleIds| ==> 1 <= p.roleIds[k] <= SIZE)
    && NoDuplicates(p.roleIds)
  }

  /** No role id is listed by two principals. */
  predicate DisjointPrincipals(principals: seq<Principal>) {
    forall i, j, r :: 0 <= i < j < |principals| && r in principals[i].roleIds ==> r !in principals[j].roleIds
  }

  /** The principal that lists this role is the one its card names, with the same boundary. */
  predicate PrincipalServes(p: Principal, role: RoleCard) {
    p.id == role.runtimePrincipalId && p.sourceAccess == role.boundary
  }

  ghost predicate RoleServed(principals: seq<Principal>, role: RoleCard) {
    exists i :: 0 <= i < |principals| && role.roleId in principals[i].roleIds && PrincipalServes(principals[i], role)
  }

  ghost predicate PrincipalsOk(reg: Registry) {
    && |reg.principals| == 14 && DistinctPrincipals(reg.principals)
    && (forall i :: 0 <= i < |reg.principals| ==> PrincipalMatches(reg.principals[i]))
    && DisjointPrincipals(reg.principals)
    && (forall i :: 0 <= i < |reg.roles| ==> RoleServed(reg.principals, reg.roles[i]))
  }

  predicate KaiCardOk(kai: RoleCard) {
    && kai.roleId == 0 && kai.cardId == "kai-customer-liaison" && kai.functionalRoleId == "customer.draft-liaison"
    && kai.departmentId.KaiDepartment? && kai.departmentTitle == "Customer Liaison" && kai.headRoleId.None?
    && kai.reportsTo == "human-operator" && kai.runtimePrincipalId == "telegram-kai" && kai.boundary.NoAccess?
    && kai.codename == "Kai" && SameActionClassSet(kai.actionClasses, [ADraftOnly])
    && kai.status.PassiveSpecificationOutside47?
  }

  predicate KaiOk(reg: Registry) {
    && KaiCardOk(reg.kai)
    && forall i :: 0 <= i < |reg.roles| ==>
         reg.roles[i].cardId != reg.kai.cardId && reg.roles[i].functionalRoleId != reg.kai.functionalRoleId
  }

  /** The whole registry is acceptable. */
  ghost predicate Accepted(reg: Registry) {
    && AuthorityOk(reg) && SchemaOk(reg) && DepartmentsOk(reg) && RolesOk(reg)
    && ReportingOk(reg) && PrincipalsOk(reg) && KaiOk(reg)
  }
}
