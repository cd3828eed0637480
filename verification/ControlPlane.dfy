/** One control-plane node: what each uninterrupted section of a handler does to its gate
    cache and its local hold overrides, as functions, and the class that does it in place. */
module ControlPlane {
  import opened Base
  import opened Gates

  /** Where the handler that owns the node's decision mutex is suspended. */
  datatype Phase =
    | Idle
    | Writing(gate: Gate)                         // upsert_gate issued
    | Written(gate: Gate)                         // upsert_gate landed, handler not resumed
    | Reading(name: string)                       // get_gate issued
    | GotRow(name: string, row: Option<Gate>)     // get_gate answered, handler not resumed
    | Listing                                     // list_gates issued
    | GotRows(rows: seq<Gate>)                    // list_gates answered, handler not resumed

  datatype Node = Node(gates: map<string, Gate>, overrides: set<string>, phase: Phase)

  datatype DecisionError = BadTicket(complaint: TicketComplaint) | UnknownGate

  function LoadedNode(rows: seq<Gate>): Node {
    Node(LoadedGates(rows), {}, Idle)
  }

  /** `decide_gate` answers without touching anything when this is an error. */
  function DecisionCheck(node: Node, name: string, state: GateState, ticket: Option<string>): Option<DecisionError> {
    if state.Open? && InvalidOpenTicketMessage(name, ticket).Some?
    then Some(BadTicket(InvalidOpenTicketMessage(name, ticket).value))
    else if name !in node.gates then Some(UnknownGate)
    else None
  }

  function DecidedGate(name: string, state: GateState, ticket: Option<string>): Gate {
    Gate(name, state, if state.Open? then ticket else None)
  }

  /** Up to the store write: a hold is already applied locally, an open is not. */
  function DecisionStarted(node: Node, gate: Gate): Node {
    if gate.state.Hold?
    then Node(node.gates[gate.name := gate], node.overrides + {gate.name}, Writing(gate))
    else node.(phase := Writing(gate))
  }

  /** After the store reported success. */
  function DecisionPersisted(node: Node, gate: Gate): Node {
    Node(node.gates[gate.name := gate], node.overrides - {gate.name}, Idle)
  }

  /** `authoritative_gate` up to its store read, for a known gate. */
  function ActionStarted(node: Node, name: string): Node {
    if name in node.overrides
    then Node(node.gates[name := Held(name)], node.overrides, Idle)
    else node.(phase := Reading(name))
  }

  function RowApplied(node: Node, name: string, row: Option<Gate>): Node {
    Node(node.gates[name := AuthoritativeGate(name, row)], node.overrides, Idle)
  }

  function RowsApplied(node: Node, rows: seq<Gate>): Node {
    Node(SnapshotGates(rows, node.overrides), node.overrides, Idle)
  }

  // ----- the node, in place --------------------------------------------------------------

  /** The mutable half of `ControlState`. A handler that awaits is two methods: the section up
      to the await and the section after it. */
  class ControlNode {
    var gates: map<string, Gate>
    var overrides: set<string>
    var phase: Phase

    ghost function View(): Node
      reads this
    {
      Node(gates, overrides, phase)
    }

    /** `new_with_persistence`: everything starts on hold. */
    constructor ()
      ensures View() == LoadedNode([])
    {
      gates := map name | name in DEFAULT_GATES :: Held(name);
      overrides := {};
      phase := Idle;
    }

    /** `load_with_persistence`, once `list_gates` has answered with `rows`. */
    constructor Load(rows: seq<Gate>)
      ensures View() == LoadedNode(rows)
    {
      gates := map name | name in DEFAULT_GATES :: Held(name);
      overrides := {};
      phase := Idle;
      new;
      assert gates == LoadedGates(rows[..0]);
      for i := 0 to |rows|
        invariant View() == Node(LoadedGates(rows[..i]), {}, Idle)
      {
        LoadedGatesExtend(rows, i);
        var gate := rows[i];
        if gate.name !in gates { continue; }
        match gate.state {
          case Hold => gate := gate.(ticket := None);
          case Open => if !OpenTicketIsValid(gate.name, gate.ticket) { continue; }
        }
        gates := gates[gate.name := gate];
      }
      assert rows[..|rows|] == rows;
    }

    /** `decide_gate` up to `upsert_gate(..).await`. */
    method BeginDecision(name: string, state: GateState, ticket: Option<string>)
      returns (r: Result<Gate, DecisionError>)
      requires phase == Idle
      modifies this
      ensures r.Err? <==> DecisionCheck(old(View()), name, state, ticket).Some?
      ensures r.Err? ==> Some(r.error) == DecisionCheck(old(View()), name, state, ticket) && View() == old(View())
      ensures r.Ok? ==> r.value == DecidedGate(name, state, ticket) && View() == DecisionStarted(old(View()), r.value)
    {
      if state == Open {
        var complaint := InvalidOpenTicketMessage(name, ticket);
        if complaint.Some? { return Err(BadTicket(complaint.value)); }
      }
      if name !in gates { return Err(UnknownGate); }
      var gate := Gate(name, state, match state case Open => ticket case Hold => None);
      if gate.state == Hold {
        overrides := overrides + {name};
        gates := gates[name := gate];
      }
      phase := Writing(gate);
      return Ok(gate);
    }

    /** `decide_gate` after `upsert_gate` succeeded. */
    method FinishDecision()
      requires phase.Written?
      modifies this
      ensures View() == DecisionPersisted(old(View()), old(phase.gate))
    {
      var gate := phase.gate;
      overrides := overrides - {gate.name};
      gates := gates[gate.name := gate];
      phase := Idle;
    }

    /** `run_action` up to `get_gate(..).await`: an answer, or a pending read (`Ok(None)`). */
    method BeginAction(name: string) returns (r: Result<Option<Gate>, DecisionError>)
      requires phase == Idle
      modifies this
      ensures r.Err? <==> name !in old(gates)
      ensures r.Err? ==> r.error == UnknownGate && View() == old(View())
      ensures r.Ok? ==> View() == ActionStarted(old(View()), name)
      ensures r.Ok? ==> r.value == if name in old(overrides) then Some(Held(name)) else None
    {
      if name !in gates { return Err(UnknownGate); }
      if name in overrides {
        var gate := Gate(name, Hold, None);
        gates := gates[name := gate];
        return Ok(Some(gate));
      }
      phase := Reading(name);
      return Ok(None);
    }

    /** `run_action` after `get_gate` answered; `executed` is the answer's `executed` field. */
    method FinishAction() returns (executed: bool)
      requires phase.GotRow?
      modifies this
      ensures View() == RowApplied(old(View()), old(phase.name), old(phase.row))
      ensures executed <==> && old(phase.row.Some?) && old(phase.row.value.name) == old(phase.name)
                            && old(phase.row.value.state).Open?
                            && OpenTicketIsValid(old(phase.name), old(phase.row.value.ticket))
    {
      var name, row := phase.name, phase.row;
      var gate: Gate;
      match row {
        case Some(stored) =>
          if stored.name == name {
            match stored.state {
              case Hold => gate := stored.(ticket := None);
              case Open => gate := if !OpenTicketIsValid(name, stored.ticket) then Gate(name, Hold, None) else stored;
            }
          } else {
            gate := Gate(name, Hold, None);
          }
        case None => gate := Gate(name, Hold, None);
      }
      gates := gates[name := gate];
      phase := Idle;
      executed := gate.state == Open;
    }

    /** A store call failed, or the handler was dropped at its await: the mutex is released and
        nothing else changes. */
    method Release()
      requires phase != Idle
      modifies this
      ensures View() == old(View()).(phase := Idle)
    {
      phase := Idle;
    }

    /** `refresh_gate_snapshot` after `list_gates` answered. */
    method FinishSnapshot() returns (snapshot: map<string, Gate>)
      requires phase.GotRows?
      modifies this
      ensures View() == RowsApplied(old(View()), old(phase.rows))
      ensures snapshot == gates
    {
      var rows := phase.rows;
      var refreshed := map name | name in DEFAULT_GATES :: Held(name);
      assert refreshed == LoadedGates(rows[..0]);
      for i := 0 to |rows|
        invariant refreshed == LoadedGates(rows[..i])
        invariant View() == old(View())
      {
        LoadedGatesExtend(rows, i);
        var gate := rows[i];
        if gate.name !in refreshed { continue; }
        match gate.state {
          case Hold => gate := gate.(ticket := None);
          case Open => if !OpenTicketIsValid(gate.name, gate.ticket) { continue; }
        }
        refreshed := refreshed[gate.name := gate];
      }
      assert rows[..|rows|] == rows;
      var todo := overrides;
      while todo != {}
        invariant todo <= overrides
        invariant refreshed == SnapshotGates(rows, overrides - todo)
        invariant View() == old(View())
      {
        var name :| name in todo;
        if name in refreshed {
          refreshed := refreshed[name := refreshed[name].(state := Hold, ticket := None)];
        }
        todo := todo - {name};
      }
      snapshot := refreshed;
      gates := refreshed;
      phase := Idle;
    }
  }

  /** One more row changes only the entry of its own name, and only if it is effective. */
  lemma LoadedGatesExtend(rows: seq<Gate>, i: nat)
    requires i < |rows|
    ensures LoadedGates(rows[..i + 1]) ==
            if rows[i].name in DEFAULT_GATES && Effective(rows[i])
            then LoadedGates(rows[..i])[rows[i].name := WithoutHeldTicket(rows[i])]
            else LoadedGates(rows[..i])
  {
    assert rows[..i + 1][..i] == rows[..i];
  }
}
