/** The global structure that follows from the validator's separate passes. */
module RoleStructure {
  import opened Base
  import opened Roster
  import opened RoleRegistry

  // ----- counting ------------------------------------------------------------------------

  lemma SubsetOfEqualSize<T>(a: set<T>, b: set<T>)
    requires a <= b && |a| >= |b|
    ensures a == b
  {
    SubsetSize(b - a, b);
    assert b == a + (b - a);
  }

  // ----- role ids ------------------------------------------------------------------------

  function RoleIds(roles: seq<RoleCard>): seq<nat> {
    seq(|roles|, i requires 0 <= i < |roles| => roles[i].roleId)
  }

  ghost predicate HasRole(roles: seq<RoleCard>, id: nat) {
    exists i :: 0 <= i < |roles| && roles[i].roleId == id
  }

  lemma DistinctInRange(ids: seq<nat>, n: nat)
    requires |ids| == n && NoDuplicates(ids) && forall i :: 0 <= i < n ==> 1 <= ids[i] <= n
    ensures ElementsOf(ids) == Interval(1, n)
  {
    ElementsCount(ids);
    SubsetOfEqualSize(ElementsOf(ids), Interval(1, n));
  }

  /** 47 distinct ids between 1 and 47 are all of them. */
  lemma RoleIdsAreComplete(roles: seq<RoleCard>, id: nat)
    requires DistinctRoleIds(roles) && forall i :: 0 <= i < |roles| ==> 1 <= roles[i].roleId <= |roles|
    ensures NoDuplicates(RoleIds(roles))
    ensures 1 <= id <= |roles| <==> HasRole(roles, id)
  {
    var ids := RoleIds(roles);
    DistinctInRange(ids, |roles|);
    if 1 <= id <= |roles| {
      assert id in ElementsOf(ids);
      var i :| 0 <= i < |ids| && ids[i] == id;
      assert roles[i].roleId == id;
    }
  }

  /** The card syntax makes card ids as distinct as role ids. */
  lemma CardIdsFollowRoleIds(roles: seq<RoleCard>)
    requires DistinctRoleIds(roles)
    requires forall i :: 0 <= i < |roles| ==> ValidNumberedCardId(roles[i].cardId, roles[i].roleId)
    ensures DistinctCardIds(roles)
  {
  }

  // ----- principals ----------------------------------------------------------------------

  lemma EntriesDistinct(i: nat, j: nat)
    requires i < j < PRINCIPALS
    ensures PrincipalEntry(i).id != PrincipalEntry(j).id
  {
    assert "webmcp"[0] != "hermes"[0];
    assert "claude-code"[1] != "copilot-cli"[1];
    assert "manus"[0] != "droid"[0] && "manus"[0] != "codex"[0] && "droid"[0] != "codex"[0];
    assert "opencode"[5] != "openclaw"[5];
  }

  lemma EntryIsExpected(k: nat)
    requires k < PRINCIPALS
    ensures ExpectedPrincipal(PrincipalEntry(k).id) == Some(PrincipalEntry(k))
  {
    var found := FindEntry(PrincipalEntry(k).id, 0);
    if found.value < k { EntriesDistinct(found.value, k); }
  }

  /** Which entry of the table lists a role. */
  function OwnerIndex(roleId: nat): (k: nat)
    requires 1 <= roleId <= SIZE
    ensures k < PRINCIPALS && roleId in PrincipalEntry(k).roleIds
  {
    if roleId in [1, 2, 3, 4, 17, 18, 19, 26, 36] then 0
    else if roleId in [5, 6, 7, 45] then 1
    else if roleId in [8, 9, 10, 20, 21, 30, 31, 42] then 2
    else if roleId in [11, 12, 32, 46] then 3
    else if roleId in [13, 27, 28, 29, 35] then 4
    else if roleId in [14, 47] then 5
    else if roleId == 15 then 6
    else if roleId == 16 then 7
    else if roleId in [22, 23, 44] then 8
    else if roleId in [24, 33, 34, 37, 38, 39] then 9
    else if roleId == 25 then 10
    else if roleId == 40 then 11
    else if roleId == 41 then 12
    else 13
  }

  function PrincipalIds(principals: seq<Principal>): seq<string> {
    seq(|principals|, i requires 0 <= i < |principals| => principals[i].id)
  }

  function EntryIds(): seq<string> {
    seq(PRINCIPALS, k requires 0 <= k < PRINCIPALS => PrincipalEntry(k).id)
  }

  /** 14 distinct principals from a table of 14 are the whole table. */
  lemma EveryPrincipalIsPresent(principals: seq<Principal>, k: nat)
    requires |principals| == PRINCIPALS && DistinctPrincipals(principals)
    requires forall i :: 0 <= i < |principals| ==> ExpectedPrincipal(principals[i].id).Some?
    requires k < PRINCIPALS
    ensures exists i :: 0 <= i < |principals| && principals[i].id == PrincipalEntry(k).id
  {
    var ids, known := PrincipalIds(principals), EntryIds();
    ElementsCount(ids);
    ElementsCount(known);
    forall id | id in ids ensures id in known {
      var i :| 0 <= i < |ids| && ids[i] == id;
      var j := FindEntry(principals[i].id, 0).value;
      assert known[j] == id;
    }
    SubsetOfEqualSize(ElementsOf(ids), ElementsOf(known));
    assert known[k] in ElementsOf(known);
    var i :| 0 <= i < |ids| && ids[i] == known[k];
    assert principals[i].id == PrincipalEntry(k).id;
  }

  /** So every role is listed by some principal. */
  lemma PrincipalsCoverRoster(principals: seq<Principal>, roleId: nat) returns (i: nat)
    requires |principals| == PRINCIPALS && DistinctPrincipals(principals)
    requires forall i :: 0 <= i < |principals| ==> PrincipalMatches(principals[i])
    requires 1 <= roleId <= SIZE
    ensures i < |principals| && roleId in principals[i].roleIds
  {
    var k := OwnerIndex(roleId);
    EveryPrincipalIsPresent(principals, k);
    i :| 0 <= i < |principals| && principals[i].id == PrincipalEntry(k).id;
    EntryIsExpected(k);
    assert PrincipalMatches(principals[i]);
    assert roleId in ElementsOf(PrincipalEntry(k).roleIds);
  }

  // ----- reporting -----------------------------------------------------------------------

  /** How many hops a role is from a sentinel. */
  function Height(roleId: nat): (h: nat)
    ensures h <= 5
  {
    match roleId
    case 1 => 4
    case 17 => 3
    case 26 => 2
    case 36 => 1
    case 44 => 1
    case _ => if roleId <= 16 then 5 else if roleId <= 25 then 4 else if roleId <= 35 then 3 else 2
  }

  lemma SentinelIsNoCard(target: string, roleId: nat)
    requires IsReportingSentinel(target)
    ensures !ValidNumberedCardId(target, roleId)
  {
    assert "ronin-"[1] == 'o' && "human-operator"[1] == 'u' && "requesting-operational-layer"[1] == 'e';
  }

  /** The card a head reports to belongs to the next head. */
  lemma HeadTargets(head: nat, target: string, roleId: nat)
    requires ExpectedHeadReportsTo(head) == Some(target) && ValidNumberedCardId(target, roleId)
    ensures (head == 1 && roleId == 17) || (head == 17 && roleId == 26) || (head == 26 && roleId == 36)
  {
    if head == 36 || head == 44 {
      SentinelIsNoCard(target, roleId);
    } else {
      assert target[6] == (if head == 1 then '1' else if head == 17 then '2' else '3');
      assert target[7] == (if head == 1 then '7' else '6');
    }
  }

  ghost predicate AllNumbered(roles: seq<RoleCard>) {
    forall k :: 0 <= k < |roles| ==>
        1 <= roles[k].roleId <= SIZE && ValidNumberedCardId(roles[k].cardId, roles[k].roleId)
  }

  /** Reporting moves exactly one step closer to a sentinel. */
  lemma ReportingDescends(roles: seq<RoleCard>, i: nat, j: nat)
    requires AllNumbered(roles) && i < |roles| && j < |roles|
    requires ReportsOk(roles, roles[i]) && roles[j].cardId == roles[i].reportsTo
    ensures Height(roles[j].roleId) == Height(roles[i].roleId) - 1
  {
    if roles[i].roleId == HeadOf(roles[i].roleId) {
      HeadTargets(roles[i].roleId, roles[i].reportsTo, roles[j].roleId);
    } else {
      var h :| 0 <= h < |roles| && roles[h].roleId == HeadOf(roles[i].roleId) && roles[h].cardId == roles[i].reportsTo;
      assert roles[j].roleId == roles[h].roleId;
    }
  }

  /** Role `i` gets to a sentinel in at most `hops` hops along `reportsTo`. */
  ghost predicate ReachesSentinel(roles: seq<RoleCard>, i: nat, hops: nat)
    requires i < |roles|
    decreases hops
  {
    hops > 0 &&
    ( || IsReportingSentinel(roles[i].reportsTo)
      || exists j: nat :: j < |roles| && roles[j].cardId == roles[i].reportsTo && ReachesSentinel(roles, j, hops - 1))
  }

  ghost predicate Grounded(roles: seq<RoleCard>) {
    && AllNumbered(roles)
    && forall i :: 0 <= i < |roles| ==> ReportsOk(roles, roles[i])
  }

  lemma {:induction false} ChainReachesSentinel(roles: seq<RoleCard>, i: nat)
    requires Grounded(roles) && i < |roles|
    ensures ReachesSentinel(roles, i, Height(roles[i].roleId))
    decreases Height(roles[i].roleId)
  {
    if !IsReportingSentinel(roles[i].reportsTo) {
      assert HasCard(roles, roles[i].reportsTo);
      var j: nat :| j < |roles| && roles[j].cardId == roles[i].reportsTo;
      ReportingDescends(roles, i, j);
      ChainReachesSentinel(roles, j);
    }
  }

  lemma AcceptedReportingIsGrounded(reg: Registry)
    requires SchemaOk(reg) && RolesOk(reg) && ReportingOk(reg)
    ensures Grounded(reg.roles)
  {
    NumberedWithinRoster(reg);
  }

  // ----- the theorem ---------------------------------------------------------------------

  ghost predicate Listed(principals: seq<Principal>, id: nat) {
    exists i :: 0 <= i < |principals| && id in principals[i].roleIds
  }

  /** Role ids are a bijection with 1..47, and card ids are distinct. */
  ghost predicate RolesAreBijective(roles: seq<RoleCard>) {
    && |roles| == SIZE && NoDuplicates(RoleIds(roles)) && DistinctCardIds(roles)
    && forall id: nat :: 1 <= id <= SIZE <==> HasRole(roles, id)
  }

  /** The principals' role lists are disjoint and together are 1..47. */
  ghost predicate PrincipalsPartition(principals: seq<Principal>) {
    && DisjointPrincipals(principals)
    && forall id: nat :: 1 <= id <= SIZE <==> Listed(principals, id)
  }

  /** Reporting is acyclic: every hop lowers the height. */
  ghost predicate ReportingIsAcyclic(roles: seq<RoleCard>) {
    forall i, j :: 0 <= i < |roles| && 0 <= j < |roles| && roles[j].cardId == roles[i].reportsTo
      ==> Height(roles[j].roleId) < Height(roles[i].roleId)
  }

  /** Every reporting chain reaches a sentinel within 5 hops. */
  ghost predicate ReportingReachesSentinels(roles: seq<RoleCard>) {
    forall i: nat :: i < |roles| ==> Height(roles[i].roleId) <= 5 && ReachesSentinel(roles, i, Height(roles[i].roleId))
  }

  lemma NumberedWithinRoster(reg: Registry)
    requires SchemaOk(reg) && RolesOk(reg)
    ensures |reg.roles| == SIZE && DistinctRoleIds(reg.roles) && AllNumbered(reg.roles)
  {
    forall i | 0 <= i < |reg.roles|
      ensures 1 <= reg.roles[i].roleId <= SIZE && ValidNumberedCardId(reg.roles[i].cardId, reg.roles[i].roleId)
    {
      assert RoleOk(reg.roles[i]) && CardSchemaOk(reg.roles[i], false);
    }
  }

  lemma IdsAreComplete(roles: seq<RoleCard>)
    requires |roles| == SIZE && DistinctRoleIds(roles)
    requires forall i :: 0 <= i < |roles| ==> 1 <= roles[i].roleId <= SIZE
    ensures NoDuplicates(RoleIds(roles))
    ensures forall id: nat :: 1 <= id <= SIZE <==> HasRole(roles, id)
  {
    forall id: nat ensures 1 <= id <= SIZE <==> HasRole(roles, id) {
      RoleIdsAreComplete(roles, id);
    }
    RoleIdsAreComplete(roles, 1);
  }

  lemma RolesStructure(roles: seq<RoleCard>)
    requires |roles| == SIZE && DistinctRoleIds(roles) && AllNumbered(roles)
    ensures RolesAreBijective(roles)
  {
    CardIdsFollowRoleIds(roles);
    IdsAreComplete(roles);
  }

  lemma PrincipalsStructure(reg: Registry)
    requires PrincipalsOk(reg)
    ensures PrincipalsPartition(reg.principals)
  {
    forall id: nat ensures 1 <= id <= SIZE <==> Listed(reg.principals, id) {
      if 1 <= id <= SIZE {
        var i := PrincipalsCoverRoster(reg.principals, id);
      } else {
        assert forall i :: 0 <= i < |reg.principals| ==> PrincipalMatches(reg.principals[i]);
      }
    }
  }

  lemma AcyclicReporting(roles: seq<RoleCard>)
    requires Grounded(roles)
    ensures ReportingIsAcyclic(roles)
  {
    forall i, j | 0 <= i < |roles| && 0 <= j < |roles| && roles[j].cardId == roles[i].reportsTo
      ensures Height(roles[j].roleId) < Height(roles[i].roleId)
    {
      ReportingDescends(roles, i, j);
    }
  }

  lemma ChainsReachSentinels(roles: seq<RoleCard>)
    requires Grounded(roles)
    ensures ReportingReachesSentinels(roles)
  {
    forall i: nat | i < |roles| ensures ReachesSentinel(roles, i, Height(roles[i].roleId)) {
      ChainReachesSentinel(roles, i);
    }
  }

  /** Everything the validator accepts is well structured. */
  lemma AcceptedIsWellStructured(reg: Registry)
    requires Accepted(reg)
    ensures RolesAreBijective(reg.roles) && PrincipalsPartition(reg.principals)
    ensures ReportingIsAcyclic(reg.roles) && ReportingReachesSentinels(reg.roles)
  {
    NumberedWithinRoster(reg);
    RolesStructure(reg.roles);
    PrincipalsStructure(reg);
    AcceptedReportingIsGrounded(reg);
    AcyclicReporting(reg.roles);
    ChainsReachSentinels(reg.roles);
  }
}
