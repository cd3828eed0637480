/** Release gates: the ticket policy and the three pieces of code that turn stored rows into
    gates (start-up load, single-gate read, full snapshot). */
module Gates {
  import opened Base
  import Text

  datatype GateState = Hold | Open

  datatype Gate = Gate(name: string, state: GateState, ticket: Option<string>)

  const TELEGRAM_SEND_GATE := "telegram_send"
  const TELEGRAM_TICKET_PREFIX := "OPS-TG-"

  const DEFAULT_GATES: set<string> := {
    "deploy", "cloudflare_dns", TELEGRAM_SEND_GATE, "customer_messaging", "adaptive_sync"
  }

  // ----- ticket policy -------------------------------------------------------------------

  predicate OpenTicketIsValid(gateName: string, ticket: Option<string>) {
    && ticket.Some?
    && !Text.IsBlank(ticket.value)
    && (gateName == TELEGRAM_SEND_GATE ==>
          && TELEGRAM_TICKET_PREFIX <= ticket.value
          && !Text.IsBlank(ticket.value[|TELEGRAM_TICKET_PREFIX|..]))
  }

  datatype TicketComplaint = TicketRequired | OpsTicketRequired

  function InvalidOpenTicketMessage(gateName: string, ticket: Option<string>): Option<TicketComplaint> {
    if ticket.None? || Text.IsBlank(ticket.value) then Some(TicketRequired)
    else if gateName == TELEGRAM_SEND_GATE && !OpenTicketIsValid(gateName, ticket) then Some(OpsTicketRequired)
    else None
  }

  /** The operator-facing complaint and the policy predicate are two codings of one rule. */
  lemma ComplaintIffInvalid(gateName: string, ticket: Option<string>)
    ensures InvalidOpenTicketMessage(gateName, ticket).None? <==> OpenTicketIsValid(gateName, ticket)
    ensures InvalidOpenTicketMessage(gateName, ticket) == Some(TicketRequired)
            <==> ticket.None? || Text.IsBlank(ticket.value)
    ensures InvalidOpenTicketMessage(gateName, ticket) == Some(OpsTicketRequired)
            ==> gateName == "telegram_send"
  {
  }

  /** The policy in words: every open needs a ticket that is not blank, and opening `telegram_send` needs
      an operations ticket, `OPS-TG-` followed by something. */
  lemma TicketPolicy(name: string, t: string)
    ensures !OpenTicketIsValid(name, None)
    ensures name != "telegram_send" ==> (OpenTicketIsValid(name, Some(t)) <==> !Text.IsBlank(t))
    ensures OpenTicketIsValid("telegram_send", Some(t))
            <==> exists rest: string :: t == "OPS-TG-" + rest && !Text.IsBlank(rest)
  {
    if OpenTicketIsValid("telegram_send", Some(t)) {
      assert t == "OPS-TG-" + t[7..];
    }
    if rest: string :| t == "OPS-TG-" + rest && !Text.IsBlank(rest) {
      assert t[7..] == rest && !Text.IsWhitespace(t[0]);
    }
  }

  // ----- what a row means ----------------------------------------------------------------

  function Held(name: string): Gate {
    Gate(name, Hold, None)
  }

  /** A gate a node may show under `name`: its own name, a valid ticket exactly when open. */
  predicate Sound(name: string, gate: Gate) {
    && gate.name == name
    && (gate.state.Open? ==> OpenTicketIsValid(name, gate.ticket))
    && (gate.state.Hold? ==> gate.ticket.None?)
  }

  /** Rows that a list reconciler lets through; an open row with a bad ticket is skipped. */
  predicate Effective(row: Gate) {
    row.state.Open? ==> OpenTicketIsValid(row.name, row.ticket)
  }

  function WithoutHeldTicket(row: Gate): Gate {
    if row.state.Hold? then row.(ticket := None) else row
  }

  /** The last effective row called `name` decides; without one the gate is held. */
  function Resolved(rows: seq<Gate>, name: string): (gate: Gate)
    ensures Sound(name, gate)
  {
    if rows == [] then Held(name)
    else
      var last := rows[|rows| - 1];
      if last.name == name && Effective(last) then WithoutHeldTicket(last)
      else Resolved(rows[..|rows| - 1], name)
  }

  /** What `load_with_persistence` leaves in the cache. */
  function LoadedGates(rows: seq<Gate>): map<string, Gate> {
    map name | name in DEFAULT_GATES :: Resolved(rows, name)
  }

  /** What `refresh_gate_snapshot` shows on a node with the given local holds. */
  function SnapshotGates(rows: seq<Gate>, overrides: set<string>): map<string, Gate> {
    map name | name in DEFAULT_GATES ::
      if name in overrides then Held(name) else Resolved(rows, name)
  }

  /** What `authoritative_gate` answers for a known gate after the Store returned `row`. */
  function AuthoritativeGate(name: string, row: Option<Gate>): (gate: Gate)
    ensures Sound(name, gate)
  {
    match row
    case None => Held(name)
    case Some(gate) =>
      if gate.name != name then Held(name)
      else if gate.state.Hold? then gate.(ticket := None)
      else if !OpenTicketIsValid(name, gate.ticket) then Held(name)
      else gate
  }

  /** The single-gate answer of a node: `None` for an unknown gate, a local hold first. */
  function NodeGate(overrides: set<string>, name: string, row: Option<Gate>): Option<Gate> {
    if name !in DEFAULT_GATES then None
    else if name in overrides then Some(Held(name))
    else Some(AuthoritativeGate(name, row))
  }

  /** `Store::get_gate` over a row list: the first row of that name. */
  function FindRow(rows: seq<Gate>, name: string): Option<Gate> {
    if rows == [] then None
    else if rows[0].name == name then Some(rows[0])
    else FindRow(rows[1..], name)
  }

  ghost predicate AtMostOneRow(rows: seq<Gate>, name: string) {
    forall i, j :: 0 <= i < j < |rows| ==> rows[i].name != name || rows[j].name != name
  }

  // ----- the reconcilers agree -----------------------------------------------------------

  /** Row `i` is a valid open row for `name` and no later row for `name` is effective. */
  ghost predicate OpensAt(rows: seq<Gate>, name: string, i: int) {
    && 0 <= i < |rows| && rows[i].name == name && rows[i].state.Open?
    && OpenTicketIsValid(name, rows[i].ticket)
    && forall j :: i < j < |rows| && rows[j].name == name ==> !Effective(rows[j])
  }

  lemma OpensAtSkipsLast(rows: seq<Gate>, name: string, i: int)
    requires rows != [] && !(rows[|rows| - 1].name == name && Effective(rows[|rows| - 1]))
    ensures OpensAt(rows, name, i) <==> OpensAt(rows[..|rows| - 1], name, i)
  {
    var init := rows[..|rows| - 1];
    assert forall j :: 0 <= j < |init| ==> init[j] == rows[j];
  }

  /** A gate resolves to open exactly when some valid open row for it is not followed by
      another effective row for it. */
  lemma {:induction false} ResolvedOpenIff(rows: seq<Gate>, name: string)
    ensures Resolved(rows, name).state.Open? <==> exists i :: OpensAt(rows, name, i)
  {
    if rows != [] {
      var n := |rows| - 1;
      if rows[n].name == name && Effective(rows[n]) {
        assert OpensAt(rows, name, n) <==> rows[n].state.Open?;
        assert forall i :: OpensAt(rows, name, i) ==> i == n;
      } else {
        ResolvedOpenIff(rows[..n], name);
        forall i ensures OpensAt(rows, name, i) <==> OpensAt(rows[..n], name, i) {
          OpensAtSkipsLast(rows, name, i);
        }
      }
    }
  }

  lemma {:induction false} ResolvedWithoutRow(rows: seq<Gate>, name: string)
    requires forall i :: 0 <= i < |rows| ==> rows[i].name != name
    ensures Resolved(rows, name) == Held(name)
  {
    if rows != [] { ResolvedWithoutRow(rows[..|rows| - 1], name); }
  }

  lemma {:induction false} FindRowMeaning(rows: seq<Gate>, name: string)
    ensures FindRow(rows, name).None? <==> forall i :: 0 <= i < |rows| ==> rows[i].name != name
    ensures FindRow(rows, name).Some? ==> FindRow(rows, name).value in rows && FindRow(rows, name).value.name == name
  {
    if rows != [] {
      FindRowMeaning(rows[1..], name);
      assert forall i :: 1 <= i < |rows| ==> rows[i] == rows[1..][i - 1];
    }
  }

  lemma {:induction false} ResolvedSingleRow(rows: seq<Gate>, name: string, k: nat)
    requires AtMostOneRow(rows, name)
    requires k < |rows| && rows[k].name == name
    ensures Resolved(rows, name) == AuthoritativeGate(name, Some(rows[k]))
  {
    var init := rows[..|rows| - 1];
    if k == |rows| - 1 {
      ResolvedWithoutRow(init, name);
    } else {
      assert rows[|rows| - 1].name != name;
      ResolvedSingleRow(init, name, k);
    }
  }

  /** With at most one row for `name`, resolving the whole list and reading that one row give
      the same gate. */
  lemma ListAgreesWithSingleRead(rows: seq<Gate>, name: string)
    requires AtMostOneRow(rows, name)
    ensures Resolved(rows, name) == AuthoritativeGate(name, FindRow(rows, name))
  {
    FindRowMeaning(rows, name);
    if FindRow(rows, name).None? {
      ResolvedWithoutRow(rows, name);
    } else {
      var k :| 0 <= k < |rows| && rows[k] == FindRow(rows, name).value;
      ResolvedSingleRow(rows, name, k);
    }
  }

  /** Single-gate read and snapshot agree on every gate and every set of local holds. */
  lemma SingleReadAgreesWithSnapshot(rows: seq<Gate>, overrides: set<string>, name: string)
    requires AtMostOneRow(rows, name)
    ensures NodeGate(overrides, name, FindRow(rows, name)) ==
            if name in SnapshotGates(rows, overrides) then Some(SnapshotGates(rows, overrides)[name]) else None
  {
    ListAgreesWithSingleRead(rows, name);
  }

  /** What a name resolves to: the row that opens it, or a hold. */
  lemma {:induction false} ResolvedIs(rows: seq<Gate>, name: string)
    ensures forall i :: OpensAt(rows, name, i) ==> Resolved(rows, name) == rows[i]
    ensures (forall i :: !OpensAt(rows, name, i)) ==> Resolved(rows, name) == Held(name)
  {
    ResolvedOpenIff(rows, name);
    if rows != [] {
      var n := |rows| - 1;
      if rows[n].name == name && Effective(rows[n]) {
        assert forall i :: OpensAt(rows, name, i) ==> i == n;
      } else {
        ResolvedIs(rows[..n], name);
        forall i ensures OpensAt(rows, name, i) <==> OpensAt(rows[..n], name, i) {
          OpensAtSkipsLast(rows, name, i);
        }
      }
    }
  }

  /** Where some row opens the gate, the first row of that name is the same row; otherwise the first
      row, if any, is not a valid open one. */
  ghost predicate FirstRowDecides(rows: seq<Gate>, name: string) {
    var first := FindRow(rows, name);
    if exists i :: OpensAt(rows, name, i)
    then exists i :: OpensAt(rows, name, i) && first == Some(rows[i])
    else first.Some? ==> !(first.value.state.Open? && OpenTicketIsValid(name, first.value.ticket))
  }

  /** With duplicate rows, the list and the single read agree exactly where the first row decides. */
  lemma ListAgreesIff(rows: seq<Gate>, name: string)
    ensures Resolved(rows, name) == AuthoritativeGate(name, FindRow(rows, name)) <==> FirstRowDecides(rows, name)
  {
    ResolvedIs(rows, name);
    FindRowMeaning(rows, name);
    if i :| OpensAt(rows, name, i) {
      assert Resolved(rows, name) == rows[i];
    }
  }

  /** They can disagree: listed first, an open row with an invalid ticket hides a valid one from the
      single read, while the list reconcilers skip it. Listed second it changes nothing. */
  lemma DuplicateRowsCanDisagree(good: Gate, bad: Gate)
    requires good.name == bad.name && good.name in DEFAULT_GATES
    requires Effective(good) && good.state.Open? && !Effective(bad)
    ensures Resolved([bad, good], good.name) == good
    ensures AuthoritativeGate(good.name, FindRow([bad, good], good.name)) == Held(good.name)
    ensures Resolved([good, bad], good.name) == good == AuthoritativeGate(good.name, FindRow([good, bad], good.name))
  {
    assert [good, bad][..1] == [good];
    assert Resolved([good], good.name) == good;
  }

  /** A start-up load is the snapshot of a node without local holds, for every row list. */
  lemma LoadIsSnapshotWithoutOverrides(rows: seq<Gate>)
    ensures LoadedGates(rows) == SnapshotGates(rows, {})
  {
  }
}
