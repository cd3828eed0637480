/** What a node holds, shows and admits, told from the history of a run alone: which decisions were
    made, which of them finished, and what the Store answered. */
module GateHistory {
  import opened Base
  import opened Gates
  import opened ControlPlane
  import opened GateProtocol
  import opened Readiness

  // ----- local holds -----------------------------------------------------------------------

  /** A hold for `g` was decided on node `n` at event `p`, and `n` has finished no persisted decision
      for `g` since. */
  ghost predicate HoldStands(states: seq<System>, events: seq<Event>, p: nat, i: nat, n: nat, g: string)
    requires IsRun(states, events) && i < |states|
  {
    && p < i && HoldAccepted(states, events, p, n, g)
    && forall k :: p < k < i ==> !DecisionFinishes(states, events, k, n, g)
  }

  /** One event adds a local hold only as a hold decision, and a finished decision lifts it, be it a
      hold or an open. */
  lemma OverrideSteps(states: seq<System>, events: seq<Event>, k: nat, n: nat, g: string)
    requires IsRun(states, events) && k < |events| && n < |states[k + 1].nodes|
    requires g in states[k + 1].nodes[n].overrides
    ensures n < |states[k].nodes| && !DecisionFinishes(states, events, k, n, g)
    ensures g in states[k].nodes[n].overrides || HoldAccepted(states, events, k, n, g)
  {
    var s, e := states[k], events[k];
    assert Enabled(s, e) && states[k + 1] == After(s, e);
    ReachableInv(states, events, k);
    assert forall m :: 0 <= m < |s.nodes| ==> NodeInv(s.nodes[m]);
  }

  lemma {:induction false} OverrideWasDecided(states: seq<System>, events: seq<Event>, i: nat, n: nat, g: string)
    returns (p: nat)
    requires IsRun(states, events) && i < |states| && n < |states[i].nodes|
    requires g in states[i].nodes[n].overrides
    ensures HoldStands(states, events, p, i, n, g)
  {
    OverrideSteps(states, events, i - 1, n, g);
    if g in states[i - 1].nodes[n].overrides {
      p := OverrideWasDecided(states, events, i - 1, n, g);
    } else {
      p := i - 1;
    }
  }

  /** A gate is locally held exactly while some hold decision for it stands. */
  lemma OverriddenIff(states: seq<System>, events: seq<Event>, i: nat, n: nat, g: string)
    requires IsRun(states, events) && i < |states| && n < |states[i].nodes|
    ensures g in states[i].nodes[n].overrides <==> exists p :: HoldStands(states, events, p, i, n, g)
  {
    if g in states[i].nodes[n].overrides {
      var p := OverrideWasDecided(states, events, i, n, g);
    }
    if p :| HoldStands(states, events, p, i, n, g) {
      LatchHolds(states, events, p, i, n, g);
    }
  }

  /** An idle node admits an action on a default gate exactly when the Store authorizes it and no hold
      decision stands on that node. */
  lemma AdmissionIff(states: seq<System>, events: seq<Event>, i: nat, n: nat, g: string)
    requires IsRun(states, events) && i < |states| && n < |states[i].nodes| && states[i].nodes[n].phase.Idle?
    requires g in DEFAULT_GATES
    ensures Enabled(states[i], Act(n, g))
    ensures AdmitsNow(states[i], n, g)
            <==> Authorizes(states[i].store, g) && !exists p :: HoldStands(states, events, p, i, n, g)
  {
    OverriddenIff(states, events, i, n, g);
    ReachableInv(states, events, i);
    assert NodeInv(states[i].nodes[n]);
    AdmitsNowMeaning(states[i], n, g);
  }

  // ----- decisions ---------------------------------------------------------------------------

  /** The gate that a decision asks for: a hold never carries a ticket. */
  predicate IsDecided(e: Event, gate: Gate) {
    && e.Decide? && gate.name == e.name && gate.state == e.state
    && gate.ticket == if e.state.Open? then e.ticket else None
  }

  /** `events[p]` decided `gate` on node `n`, whose handler has been at its write ever since. */
  ghost predicate DecidedAt(states: seq<System>, events: seq<Event>, p: nat, i: nat, n: nat, gate: Gate)
    requires IsRun(states, events) && i < |states|
  {
    && p < i && IsDecided(events[p], gate) && events[p].n == n
    && forall k :: p < k <= i ==>
         && n < |states[k].nodes|
         && (states[k].nodes[n].phase == Writing(gate) || states[k].nodes[n].phase == Written(gate))
  }

  lemma WriteSteps(states: seq<System>, events: seq<Event>, k: nat, n: nat, gate: Gate)
    requires IsRun(states, events) && k < |events| && n < |states[k + 1].nodes|
    requires states[k + 1].nodes[n].phase == Writing(gate) || states[k + 1].nodes[n].phase == Written(gate)
    ensures n < |states[k].nodes|
    ensures || states[k].nodes[n].phase == Writing(gate) || states[k].nodes[n].phase == Written(gate)
            || (IsDecided(events[k], gate) && events[k].n == n)
  {
    var s, e := states[k], events[k];
    assert Enabled(s, e) && states[k + 1] == After(s, e);
  }

  /** What a handler writes is what was decided: name, state, and the ticket of an open. */
  lemma {:induction false} WriteWasDecided(states: seq<System>, events: seq<Event>, i: nat, n: nat, gate: Gate)
    returns (p: nat)
    requires IsRun(states, events) && i < |states| && n < |states[i].nodes|
    requires states[i].nodes[n].phase == Writing(gate) || states[i].nodes[n].phase == Written(gate)
    ensures DecidedAt(states, events, p, i, n, gate)
  {
    WriteSteps(states, events, i - 1, n, gate);
    if states[i - 1].nodes[n].phase == Writing(gate) || states[i - 1].nodes[n].phase == Written(gate) {
      p := WriteWasDecided(states, events, i - 1, n, gate);
    } else {
      p := i - 1;
    }
  }

  /** When a decision finishes, the node shows the decided gate, all other gates as before, and no
      longer holds that gate locally. */
  lemma FinishedDecisionShows(states: seq<System>, events: seq<Event>, k: nat, n: nat, g: string) returns (p: nat)
    requires IsRun(states, events) && k < |events| && DecisionFinishes(states, events, k, n, g)
    ensures n < |states[k].nodes| && n < |states[k + 1].nodes|
    ensures p < k && events[p].Decide? && events[p].n == n && events[p].name == g
    ensures var before, after := states[k].nodes[n], states[k + 1].nodes[n];
            && after.phase == Idle && g in after.gates && IsDecided(events[p], after.gates[g])
            && g !in after.overrides && after.gates.Keys == before.gates.Keys
            && (forall h :: h in before.gates && h != g ==> after.gates[h] == before.gates[h])
            && (forall h :: h != g ==> (h in after.overrides <==> h in before.overrides))
  {
    var s, e := states[k], events[k];
    assert Enabled(s, e) && states[k + 1] == After(s, e);
    p := WriteWasDecided(states, events, k, n, s.nodes[n].phase.gate);
    ReachableInv(states, events, k);
    assert NodeInv(s.nodes[n]);
  }

  /** A decision is refused for its ticket first, then for its gate, and only for these. */
  lemma DecisionRefusedIff(states: seq<System>, i: nat, events: seq<Event>, n: nat, name: string, state: GateState,
                           ticket: Option<string>)
    requires IsRun(states, events) && i < |states| && n < |states[i].nodes|
    ensures var check := DecisionCheck(states[i].nodes[n], name, state, ticket);
            && (check.Some? && check.value.BadTicket? <==> state.Open? && !OpenTicketIsValid(name, ticket))
            && (check == Some(UnknownGate)
                <==> name !in DEFAULT_GATES && (state.Hold? || OpenTicketIsValid(name, ticket)))
  {
    ReachableInv(states, events, i);
    assert NodeInv(states[i].nodes[n]);
    ComplaintIffInvalid(name, ticket);
  }

  // ----- the cache -------------------------------------------------------------------------------

  /** Opens apply only after persistence: an entry that becomes open, or another open gate, is a decision
      of this node that the Store has taken, or a row that the Store has just answered. */
  lemma CacheOpensOnlyFromStore(states: seq<System>, events: seq<Event>, k: nat, n: nat, g: string)
    requires IsRun(states, events) && k < |events| && n < |states[k].nodes| && g in states[k].nodes[n].gates
    requires n < |states[k + 1].nodes| && g in states[k + 1].nodes[n].gates
    requires states[k + 1].nodes[n].gates[g].state.Open?
    requires states[k + 1].nodes[n].gates[g] != states[k].nodes[n].gates[g]
    ensures var phase, gate := states[k].nodes[n].phase, states[k + 1].nodes[n].gates[g];
            || (events[k] == DecisionOk(n) && phase == Written(gate))
            || (events[k] == ActionAnswer(n) && phase == GotRow(g, Some(gate)))
            || (events[k] == SnapshotAnswer(n) && phase.GotRows? && gate in phase.rows)
  {
    var s, e := states[k], events[k];
    assert Enabled(s, e) && states[k + 1] == After(s, e);
    ReachableInv(states, events, k);
    assert NodeInv(s.nodes[n]);
    if e == SnapshotAnswer(n) {
      ResolvedIs(s.nodes[n].phase.rows, g);
      ResolvedOpenIff(s.nodes[n].phase.rows, g);
    }
  }

  /** An answered action leaves the gate it asked about as read: open with the row's ticket if the row
      authorizes it, held otherwise. */
  lemma AnswerIsCached(states: seq<System>, events: seq<Event>, k: nat, n: nat, g: string)
    requires IsRun(states, events) && k < |events| && events[k] == ActionAnswer(n) && n < |states[k].nodes|
    requires states[k].nodes[n].phase.GotRow? && states[k].nodes[n].phase.name == g
    ensures n < |states[k + 1].nodes| && g in states[k + 1].nodes[n].gates
    ensures var row, gate := states[k].nodes[n].phase.row, states[k + 1].nodes[n].gates[g];
            && (Executes(states[k], events[k], n, g) ==> row == Some(gate))
            && (!Executes(states[k], events[k], n, g) ==> gate == Held(g))
            && forall h :: h in states[k].nodes[n].gates && h != g ==>
                 h in states[k + 1].nodes[n].gates && states[k + 1].nodes[n].gates[h] == states[k].nodes[n].gates[h]
  {
    var s, e := states[k], events[k];
    assert Enabled(s, e) && states[k + 1] == After(s, e);
  }

  /** A snapshot shows a gate open exactly when no hold stands and some valid open row for it is followed
      by no other effective one, and it shows that row. */
  lemma SnapshotShows(states: seq<System>, events: seq<Event>, k: nat, n: nat, g: string)
    requires IsRun(states, events) && k < |events| && events[k] == SnapshotAnswer(n) && n < |states[k].nodes|
    requires states[k].nodes[n].phase.GotRows? && g in DEFAULT_GATES
    ensures n < |states[k + 1].nodes| && g in states[k + 1].nodes[n].gates
    ensures var rows, gate := states[k].nodes[n].phase.rows, states[k + 1].nodes[n].gates[g];
            && (forall i :: OpensAt(rows, g, i) && !(exists p :: HoldStands(states, events, p, k, n, g)) ==>
                  gate == rows[i])
            && ((exists p :: HoldStands(states, events, p, k, n, g)) || (forall i :: !OpensAt(rows, g, i)) ==>
                  gate == Held(g))
  {
    var s, e := states[k], events[k];
    assert Enabled(s, e) && states[k + 1] == After(s, e);
    OverriddenIff(states, events, k, n, g);
    ResolvedIs(s.nodes[n].phase.rows, g);
  }
}
