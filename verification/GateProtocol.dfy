/** Any number of control-plane nodes over one shared Store, interleaved at every await.

    A run is a sequence of states and the events between them. A store call can fail, a handler
    can be dropped at its await, a write that is reported as failed may have landed, and anyone
    else may write or delete any row at any time (which is also how a write that lands after its
    handler is gone appears). */
module GateProtocol {
  import opened Base
  import opened Gates
  import opened ControlPlane

  datatype System = System(store: map<string, Gate>, nodes: seq<Node>)

  datatype Event =
    | Join(rows: seq<Gate>)                                        // a node finishes loading `rows`
    | Decide(n: nat, name: string, state: GateState, ticket: Option<string>)
    | Commit(n: nat)                                               // the Store applies n's pending write
    | DecisionOk(n: nat)                                           // n learns of it and finishes
    | Act(n: nat, action: string)                                  // run_action on gate `action`
    | ReadRow(n: nat)                                              // the Store answers n's get_gate
    | ActionAnswer(n: nat)
    | List(n: nat)
    | ReadRows(n: nat, listed: seq<Gate>)                          // the Store answers n's list_gates
    | SnapshotAnswer(n: nat)
    | Break(n: nat)                                                // n's store call fails, or its handler is dropped
    | OutsideWrite(key: string, row: Option<Gate>)                 // None deletes

  function Lookup(store: map<string, Gate>, name: string): Option<Gate> {
    if name in store then Some(store[name]) else None
  }

  /** `rows` lists every stored row once, in the order of `keys`. */
  ghost predicate ListsInOrder(rows: seq<Gate>, store: map<string, Gate>, keys: seq<string>) {
    && |keys| == |rows| && NoDuplicates(keys)
    && (forall i :: 0 <= i < |keys| ==> keys[i] in store && store[keys[i]] == rows[i])
    && (forall k :: k in store ==> k in keys)
  }

  ghost predicate Lists(rows: seq<Gate>, store: map<string, Gate>) {
    exists keys :: ListsInOrder(rows, store, keys)
  }

  predicate ActsOnNode(e: Event) {
    !e.Join? && !e.OutsideWrite?
  }

  ghost predicate Enabled(s: System, e: Event) {
    && (ActsOnNode(e) ==> e.n < |s.nodes|)
    && match e
       case Join(_) => true
       case Decide(n, _, _, _) => s.nodes[n].phase.Idle?
       case Commit(n) => s.nodes[n].phase.Writing?
       case DecisionOk(n) => s.nodes[n].phase.Written?
       case Act(n, _) => s.nodes[n].phase.Idle?
       case ReadRow(n) => s.nodes[n].phase.Reading?
       case ActionAnswer(n) => s.nodes[n].phase.GotRow?
       case List(n) => s.nodes[n].phase.Idle?
       case ReadRows(n, rows) => s.nodes[n].phase.Listing? && Lists(rows, s.store)
       case SnapshotAnswer(n) => s.nodes[n].phase.GotRows?
       case Break(n) => !s.nodes[n].phase.Idle?
       case OutsideWrite(_, _) => true
  }

  /** The node that acts, after the event. */
  function NodeAfter(store: map<string, Gate>, node: Node, e: Event): Node
    requires ActsOnNode(e)
    requires e.Commit? ==> node.phase.Writing?
    requires e.DecisionOk? ==> node.phase.Written?
    requires e.ReadRow? ==> node.phase.Reading?
    requires e.ActionAnswer? ==> node.phase.GotRow?
    requires e.SnapshotAnswer? ==> node.phase.GotRows?
  {
    match e
    case Decide(_, name, state, ticket) =>
      if DecisionCheck(node, name, state, ticket).Some? then node
      else DecisionStarted(node, DecidedGate(name, state, ticket))
    case Commit(_) => node.(phase := Written(node.phase.gate))
    case DecisionOk(_) => DecisionPersisted(node, node.phase.gate)
    case Act(_, name) => if name !in node.gates then node else ActionStarted(node, name)
    case ReadRow(_) => node.(phase := GotRow(node.phase.name, Lookup(store, node.phase.name)))
    case ActionAnswer(_) => RowApplied(node, node.phase.name, node.phase.row)
    case List(_) => node.(phase := Listing)
    case ReadRows(_, rows) => node.(phase := GotRows(rows))
    case SnapshotAnswer(_) => RowsApplied(node, node.phase.rows)
    case Break(_) => node.(phase := Idle)
  }

  function StoreAfter(s: System, e: Event): map<string, Gate>
    requires e.Commit? ==> e.n < |s.nodes| && s.nodes[e.n].phase.Writing?
  {
    match e
    case Commit(n) => var gate := s.nodes[n].phase.gate; s.store[gate.name := gate]
    case OutsideWrite(key, Some(row)) => s.store[key := row]
    case OutsideWrite(key, None) => s.store - {key}
    case _ => s.store
  }

  ghost function After(s: System, e: Event): System
    requires Enabled(s, e)
  {
    System(StoreAfter(s, e),
           if e.Join? then s.nodes + [LoadedNode(e.rows)]
           else if ActsOnNode(e) then s.nodes[e.n := NodeAfter(s.store, s.nodes[e.n], e)]
           else s.nodes)
  }

  /** A run starts without nodes and with whatever the Store holds. */
  ghost predicate IsRun(states: seq<System>, events: seq<Event>) {
    && |states| == |events| + 1
    && states[0].nodes == []
    && forall i :: 0 <= i < |events| ==> Enabled(states[i], events[i]) && states[i + 1] == After(states[i], events[i])
  }

  // ----- observations --------------------------------------------------------------------

  /** The stored row that lets an action on `g` run. */
  predicate Authorizes(store: map<string, Gate>, g: string) {
    && g in DEFAULT_GATES && g in store
    && store[g].name == g && store[g].state.Open? && OpenTicketIsValid(g, store[g].ticket)
  }

  /** The event answers an action on `g` at node `n` with `executed: true`. */
  predicate Executes(s: System, e: Event, n: nat, g: string) {
    && e == ActionAnswer(n) && n < |s.nodes| && s.nodes[n].phase.GotRow? && s.nodes[n].phase.name == g
    && AuthoritativeGate(g, s.nodes[n].phase.row).state.Open?
  }

  /** The event answers a snapshot at node `n` that shows `g` open. */
  predicate ShowsOpen(s: System, e: Event, n: nat, g: string) {
    && e == SnapshotAnswer(n) && n < |s.nodes| && s.nodes[n].phase.GotRows?
    && var shown := SnapshotGates(s.nodes[n].phase.rows, s.nodes[n].overrides);
       g in shown && shown[g].state.Open?
  }

  // ----- the reachable-state invariant ---------------------------------------------------

  ghost predicate CacheSound(node: Node) {
    && node.gates.Keys == DEFAULT_GATES
    && (forall g :: g in node.gates ==> Sound(g, node.gates[g]))
    && (forall g :: g in node.overrides ==> g in node.gates && node.gates[g].state.Hold?)
  }

  predicate PhaseSound(node: Node) {
    match node.phase
    case Writing(gate) => PendingSound(node, gate)
    case Written(gate) => PendingSound(node, gate)
    case Reading(name) => name in DEFAULT_GATES && name !in node.overrides
    case GotRow(name, _) => name in DEFAULT_GATES && name !in node.overrides
    case _ => true
  }

  predicate PendingSound(node: Node, gate: Gate) {
    gate.name in DEFAULT_GATES && Sound(gate.name, gate) && (gate.state.Hold? ==> gate.name in node.overrides)
  }

  ghost predicate NodeInv(node: Node) {
    CacheSound(node) && PhaseSound(node)
  }

  ghost predicate Inv(s: System) {
    forall n :: 0 <= n < |s.nodes| ==> NodeInv(s.nodes[n])
  }

  lemma StepKeepsNodeInv(s: System, e: Event)
    requires ActsOnNode(e) && Enabled(s, e) && NodeInv(s.nodes[e.n])
    ensures NodeInv(NodeAfter(s.store, s.nodes[e.n], e))
  {
    match e
    case Decide(_, name, state, ticket) =>
      if DecisionCheck(s.nodes[e.n], name, state, ticket).None? {
        DecisionKeepsNodeInv(s.nodes[e.n], name, state, ticket);
      }
    case DecisionOk(_) => PersistedKeepsNodeInv(s.nodes[e.n]);
    case Act(_, action) => if action in s.nodes[e.n].gates { ActionKeepsNodeInv(s.nodes[e.n], action); }
    case ActionAnswer(_) => AnswerKeepsNodeInv(s.nodes[e.n]);
    case SnapshotAnswer(_) => SnapshotKeepsNodeInv(s.nodes[e.n]);
    case _ =>
  }

  lemma DecisionKeepsNodeInv(node: Node, name: string, state: GateState, ticket: Option<string>)
    requires NodeInv(node) && DecisionCheck(node, name, state, ticket).None?
    ensures NodeInv(DecisionStarted(node, DecidedGate(name, state, ticket)))
  {
    ComplaintIffInvalid(name, ticket);
  }

  lemma PersistedKeepsNodeInv(node: Node)
    requires NodeInv(node) && node.phase.Written?
    ensures NodeInv(DecisionPersisted(node, node.phase.gate))
  {
  }

  lemma ActionKeepsNodeInv(node: Node, name: string)
    requires NodeInv(node) && name in node.gates
    ensures NodeInv(ActionStarted(node, name))
  {
  }

  lemma AnswerKeepsNodeInv(node: Node)
    requires NodeInv(node) && node.phase.GotRow?
    ensures NodeInv(RowApplied(node, node.phase.name, node.phase.row))
  {
  }

  lemma SnapshotKeepsNodeInv(node: Node)
    requires NodeInv(node) && node.phase.GotRows?
    ensures NodeInv(RowsApplied(node, node.phase.rows))
  {
  }

  /** In every state of every run, mid-handler or not, every node's cache holds exactly the
      default gates under their own names, every open entry carries a ticket valid for that
      gate, every held entry carries none, and every overridden gate is known and cached held. */
  lemma {:induction false} ReachableInv(states: seq<System>, events: seq<Event>, i: nat)
    requires IsRun(states, events) && i < |states|
    ensures Inv(states[i])
  {
    if i > 0 {
      ReachableInv(states, events, i - 1);
      var s, e := states[i - 1], events[i - 1];
      assert Enabled(s, e) && states[i] == After(s, e);
      if ActsOnNode(e) { StepKeepsNodeInv(s, e); }
    }
  }

  // ----- an action executes only on a row that was read open ------------------------------

  /** Node `n`'s suspended action got its row at event `r` and has kept the mutex ever since. */
  ghost predicate ReadAt(states: seq<System>, events: seq<Event>, r: nat, i: nat, n: nat, g: string, row: Option<Gate>)
    requires IsRun(states, events) && i < |states|
  {
    && r < i && events[r] == ReadRow(n)
    && n < |states[r].nodes| && states[r].nodes[n].phase == Reading(g)
    && row == Lookup(states[r].store, g)
    && (forall k :: r < k <= i ==> n < |states[k].nodes| && states[k].nodes[n].phase == GotRow(g, row))
  }

  /** A node comes to hold a row only by its own store read. */
  lemma RowArrives(s: System, e: Event, n: nat)
    requires Enabled(s, e) && n < |After(s, e).nodes| && After(s, e).nodes[n].phase.GotRow?
    ensures n < |s.nodes|
    ensures if e == ReadRow(n)
            then s.nodes[n].phase.Reading?
                && After(s, e).nodes[n].phase == GotRow(s.nodes[n].phase.name, Lookup(s.store, s.nodes[n].phase.name))
            else s.nodes[n] == After(s, e).nodes[n]
  {
  }

  lemma {:induction false} RowWasRead(states: seq<System>, events: seq<Event>, i: nat, n: nat) returns (r: nat)
    requires IsRun(states, events) && i < |states|
    requires n < |states[i].nodes| && states[i].nodes[n].phase.GotRow?
    ensures ReadAt(states, events, r, i, n, states[i].nodes[n].phase.name, states[i].nodes[n].phase.row)
  {
    var s, e := states[i - 1], events[i - 1];
    assert Enabled(s, e) && states[i] == After(s, e);
    RowArrives(s, e, n);
    if e == ReadRow(n) {
      r := i - 1;
    } else {
      r := RowWasRead(states, events, i - 1, n);
    }
  }

  /** The admission theorem: an action executes only if its own store read found an open row for
      that gate, under the gate's name, with a valid ticket; the gate is a default gate and was
      not locally held on that node from the read to the answer. */
  lemma ExecutedOnlyOnAuthorizingRead(states: seq<System>, events: seq<Event>, i: nat, n: nat, g: string)
    returns (r: nat)
    requires IsRun(states, events) && i < |events| && Executes(states[i], events[i], n, g)
    ensures ReadAt(states, events, r, i, n, g, states[i].nodes[n].phase.row)
    ensures Authorizes(states[r].store, g)
    ensures forall k :: r <= k <= i ==> n < |states[k].nodes| && g !in states[k].nodes[n].overrides
  {
    r := RowWasRead(states, events, i, n);
    forall k | r <= k <= i
      ensures n < |states[k].nodes| && g in DEFAULT_GATES && g !in states[k].nodes[n].overrides
    {
      ReachableInv(states, events, k);
      assert PhaseSound(states[k].nodes[n]);
    }
  }

  /** Exactly when an action executes: its own store read, at an identified earlier event, found an
      authorizing row. Nothing that happens between the read and the answer matters. */
  lemma ExecutesIffReadAuthorizes(states: seq<System>, events: seq<Event>, i: nat, n: nat)
    returns (r: nat, g: string)
    requires IsRun(states, events) && i < |events| && events[i] == ActionAnswer(n)
    ensures n < |states[i].nodes| && states[i].nodes[n].phase.GotRow?
    ensures ReadAt(states, events, r, i, n, g, states[i].nodes[n].phase.row)
    ensures Executes(states[i], events[i], n, g) <==> Authorizes(states[r].store, g)
  {
    assert Enabled(states[i], events[i]);
    g := states[i].nodes[n].phase.name;
    r := RowWasRead(states, events, i, n);
    ReachableInv(states, events, i);
    assert NodeInv(states[i].nodes[n]);
  }

  /** While no stored row authorizes `g`, no node executes an action on it, whatever its cache
      says, unless that very action had already read the Store before the period began. */
  lemma PersistedHoldBlocks(states: seq<System>, events: seq<Event>, p: nat, i: nat, n: nat, g: string)
    requires IsRun(states, events) && p <= i < |events|
    requires forall k :: p <= k <= i ==> !Authorizes(states[k].store, g)
    requires n < |states[p].nodes| ==> !(states[p].nodes[n].phase.GotRow? && states[p].nodes[n].phase.name == g)
    ensures !Executes(states[i], events[i], n, g)
  {
    if Executes(states[i], events[i], n, g) {
      var r := ExecutedOnlyOnAuthorizingRead(states, events, i, n, g);
      assert false;
    }
  }

  /** The event stores a row under `g` that opens it: a committed open decision, or an outside write of
      an authorizing row. */
  predicate Opens(s: System, e: Event, g: string)
    requires e.Commit? ==> e.n < |s.nodes| && s.nodes[e.n].phase.Writing?
  {
    match e
    case Commit(n) => s.nodes[n].phase.gate.name == g && s.nodes[n].phase.gate.state.Open?
    case OutsideWrite(key, row) => key == g && row.Some? && Authorizes(map[g := row.value], g)
    case _ => false
  }

  /** Only a committed open decision or an outside write can start authorizing a gate. */
  lemma OnlyAnOpenWriteAuthorizes(s: System, e: Event, g: string)
    requires Enabled(s, e)
    requires !Authorizes(s.store, g) && Authorizes(After(s, e).store, g)
    ensures Opens(s, e, g)
    ensures e.Commit? ==> s.nodes[e.n].phase.gate == After(s, e).store[g]
    ensures e.OutsideWrite? ==> e == OutsideWrite(g, Some(After(s, e).store[g]))
  {
    assert After(s, e).store == StoreAfter(s, e);
    match e
    case Commit(_) =>
    case OutsideWrite(_, _) =>
    case _ =>
  }

  /** Event `p` stores a hold decision for `g`. */
  ghost predicate HoldCommitted(states: seq<System>, events: seq<Event>, p: nat, g: string)
    requires IsRun(states, events)
  {
    && p < |events| && events[p].Commit?
    && states[p].nodes[events[p].n].phase.gate.name == g && states[p].nodes[events[p].n].phase.gate.state.Hold?
  }

  /** Between `p` and `i` nobody stores a row that opens `g`. */
  ghost predicate NotReopened(states: seq<System>, events: seq<Event>, p: nat, i: nat, g: string)
    requires IsRun(states, events) && i <= |events|
  {
    forall k :: p < k < i ==> Enabled(states[k], events[k]) && !Opens(states[k], events[k], g)
  }

  lemma {:induction false} CommittedHoldStands(states: seq<System>, events: seq<Event>, p: nat, i: nat, g: string)
    requires IsRun(states, events) && HoldCommitted(states, events, p, g)
    requires p < i <= |events| && NotReopened(states, events, p, i, g)
    ensures !Authorizes(states[i].store, g)
  {
    var s, e := states[i - 1], events[i - 1];
    assert Enabled(s, e) && states[i] == After(s, e);
    if i - 1 > p {
      CommittedHoldStands(states, events, p, i - 1, g);
      if Authorizes(states[i].store, g) { OnlyAnOpenWriteAuthorizes(s, e, g); }
    }
  }

  /** A persisted hold blocks every node, however stale its cache, until a row that opens the gate
      is stored; only an action that had read its row before the hold can still execute. */
  lemma CommittedHoldBlocks(states: seq<System>, events: seq<Event>, p: nat, i: nat, n: nat, g: string)
    requires IsRun(states, events) && HoldCommitted(states, events, p, g)
    requires p < i < |events| && NotReopened(states, events, p, i, g)
    requires n < |states[p + 1].nodes| ==>
               !(states[p + 1].nodes[n].phase.GotRow? && states[p + 1].nodes[n].phase.name == g)
    ensures !Executes(states[i], events[i], n, g)
  {
    forall k | p + 1 <= k <= i ensures !Authorizes(states[k].store, g) {
      CommittedHoldStands(states, events, p, k, g);
    }
    PersistedHoldBlocks(states, events, p + 1, i, n, g);
  }

  lemma RunExtends(states: seq<System>, events: seq<Event>, e: Event)
    requires IsRun(states, events) && Enabled(states[|events|], e)
    ensures IsRun(states + [After(states[|events|], e)], events + [e])
  {
    var longer, more := states + [After(states[|events|], e)], events + [e];
    forall i | 0 <= i < |more|
      ensures Enabled(longer[i], more[i]) && longer[i + 1] == After(longer[i], more[i])
    {
      assert longer[i] == states[i];
      if i < |events| {
        assert more[i] == events[i] && longer[i + 1] == states[i + 1];
      }
    }
  }

  /** The exception in CommittedHoldBlocks is real: a hold that lands between an action's store
      read and its answer does not stop that action. */
  lemma InFlightActionOutlivesHold(row: Gate) returns (states: seq<System>, events: seq<Event>)
    requires row.name in DEFAULT_GATES && row.state.Open? && OpenTicketIsValid(row.name, row.ticket)
    ensures IsRun(states, events) && |events| == 5
    ensures Executes(states[4], events[4], 0, row.name) && !Authorizes(states[4].store, row.name)
  {
    var g := row.name;
    var s0 := System(map[g := row], []);
    var s1 := After(s0, Join([]));
    var s2 := After(s1, Act(0, g));
    var s3 := After(s2, ReadRow(0));
    var s4 := After(s3, OutsideWrite(g, Some(Held(g))));
    var s5 := After(s4, ActionAnswer(0));
    RunExtends([s0], [], Join([]));
    RunExtends([s0, s1], [Join([])], Act(0, g));
    RunExtends([s0, s1, s2], [Join([]), Act(0, g)], ReadRow(0));
    RunExtends([s0, s1, s2, s3], [Join([]), Act(0, g), ReadRow(0)], OutsideWrite(g, Some(Held(g))));
    events := [Join([]), Act(0, g), ReadRow(0), OutsideWrite(g, Some(Held(g)))];
    RunExtends([s0, s1, s2, s3, s4], events, ActionAnswer(0));
    states, events := [s0, s1, s2, s3, s4, s5], events + [ActionAnswer(0)];
    assert states == [s0, s1, s2, s3, s4] + [s5];
  }

  // ----- the emergency-hold latch ----------------------------------------------------------

  /** `events[p]` is a hold decision for the known gate `g` at node `n`. */
  ghost predicate HoldAccepted(states: seq<System>, events: seq<Event>, p: nat, n: nat, g: string)
    requires IsRun(states, events)
  {
    && g in DEFAULT_GATES
    && p < |events| && events[p].Decide? && events[p].n == n && events[p].name == g && events[p].state.Hold?
  }

  /** Node `n` finishes a persisted decision for `g` at event `k`. */
  ghost predicate DecisionFinishes(states: seq<System>, events: seq<Event>, k: nat, n: nat, g: string)
    requires IsRun(states, events) && k < |events|
  {
    events[k] == DecisionOk(n) && states[k].nodes[n].phase.gate.name == g
  }

  lemma HoldOverrides(states: seq<System>, events: seq<Event>, p: nat, n: nat, g: string)
    requires IsRun(states, events) && HoldAccepted(states, events, p, n, g)
    ensures n < |states[p + 1].nodes| && g in states[p + 1].nodes[n].overrides
  {
    assert Enabled(states[p], events[p]) && states[p + 1] == After(states[p], events[p]);
    ReachableInv(states, events, p);
    assert NodeInv(states[p].nodes[n]);
  }

  lemma OverridePersists(states: seq<System>, events: seq<Event>, k: nat, n: nat, g: string)
    requires IsRun(states, events) && k < |events| && !DecisionFinishes(states, events, k, n, g)
    requires n < |states[k].nodes| && g in states[k].nodes[n].overrides
    ensures n < |states[k + 1].nodes| && g in states[k + 1].nodes[n].overrides
  {
    assert Enabled(states[k], events[k]) && states[k + 1] == After(states[k], events[k]);
  }

  /** Until node `n` itself finishes a persisted decision for `g`, the override stands. */
  lemma {:induction false} LatchHolds(states: seq<System>, events: seq<Event>, p: nat, i: nat, n: nat, g: string)
    requires IsRun(states, events) && HoldAccepted(states, events, p, n, g)
    requires p < i < |states|
    requires forall k :: p < k < i ==> !DecisionFinishes(states, events, k, n, g)
    ensures n < |states[i].nodes| && g in states[i].nodes[n].overrides
  {
    if i - 1 > p {
      LatchHolds(states, events, p, i - 1, n, g);
      OverridePersists(states, events, i - 1, n, g);
    } else {
      HoldOverrides(states, events, p, n, g);
    }
  }

  /** The latch: no action for `g` executes on `n`, no snapshot on `n` shows `g` open and its
      cache says held, whatever failed and whatever other nodes or outsiders wrote. */
  lemma EmergencyHoldLatch(states: seq<System>, events: seq<Event>, p: nat, i: nat, n: nat, g: string)
    requires IsRun(states, events) && HoldAccepted(states, events, p, n, g)
    requires p < i < |states|
    requires forall k :: p < k < i ==> !DecisionFinishes(states, events, k, n, g)
    ensures n < |states[i].nodes| && g in states[i].nodes[n].gates && states[i].nodes[n].gates[g] == Held(g)
    ensures i < |events| ==> !Executes(states[i], events[i], n, g) && !ShowsOpen(states[i], events[i], n, g)
  {
    LatchHolds(states, events, p, i, n, g);
    ReachableInv(states, events, i);
    assert NodeInv(states[i].nodes[n]);
    assert Sound(g, states[i].nodes[n].gates[g]);
  }
}
