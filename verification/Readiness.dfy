/** The operational readiness probe, and its agreement with action admission. */
module Readiness {
  import opened Base
  import opened Gates
  import opened ControlPlane
  import opened GateProtocol
  import Text

  datatype GatePersistence = Memory | Postgres

  predicate Durable(p: GatePersistence) {
    p.Postgres?
  }

  datatype Reason =
    | AuthNotConfigured
    | PersistenceNotDurable
    | PersistenceUnavailable
    | TelegramGateHeld
    | TelegramTicketPolicyUnsatisfied

  datatype Report = Report(
    operationalReady: bool,
    liveAdmissionReady: bool,
    gateState: GateState,
    ticketPolicySatisfied: bool,
    reasons: seq<Reason>)

  function When(condition: bool, reason: Reason): seq<Reason> {
    if condition then [reason] else []
  }

  /** `readiness`; `refreshed` is the snapshot, or `None` when the Store could not be read. */
  function Probe(apiToken: Option<string>, persistence: GatePersistence, refreshed: Option<map<string, Gate>>): Report {
    var authConfigured := apiToken.Some? && !Text.IsBlank(apiToken.value);
    var available := refreshed.Some?;
    var telegram :=
      if available && TELEGRAM_SEND_GATE in refreshed.value then Some(refreshed.value[TELEGRAM_SEND_GATE]) else None;
    var gateState := if telegram.Some? then telegram.value.state else Hold;
    var ticketOk := && telegram.Some? && telegram.value.state.Open?
                    && OpenTicketIsValid(TELEGRAM_SEND_GATE, telegram.value.ticket);
    var operational := authConfigured && Durable(persistence) && available;
    Report(operational, operational && gateState.Open? && ticketOk, gateState, ticketOk,
           When(!authConfigured, AuthNotConfigured)
           + When(!Durable(persistence), PersistenceNotDurable)
           + When(!available, PersistenceUnavailable)
           + When(!gateState.Open?, TelegramGateHeld)
           + When(gateState.Open? && !ticketOk, TelegramTicketPolicyUnsatisfied))
  }

  /** Stored rows sit under their own names, as the table's primary key makes them. */
  ghost predicate KeyedByName(store: map<string, Gate>) {
    forall k :: k in store ==> store[k].name == k
  }

  /** Started now on idle node `n`, with nothing else happening, an action on `g` executes. */
  ghost predicate AdmitsNow(s: System, n: nat, g: string)
    requires Enabled(s, Act(n, g))
  {
    var started := After(s, Act(n, g));
    && Enabled(started, ReadRow(n))
    && Executes(After(started, ReadRow(n)), ActionAnswer(n), n, g)
  }

  lemma {:induction false} FindRowAt(rows: seq<Gate>, name: string, k: nat)
    requires k < |rows| && rows[k].name == name && AtMostOneRow(rows, name)
    ensures FindRow(rows, name) == Some(rows[k])
  {
    if k > 0 {
      assert rows[0].name != name;
      FindRowAt(rows[1..], name, k - 1);
    }
  }

  /** A listing of a keyed store has at most one row per name, the one a single read returns. */
  lemma ListingFindsLookup(rows: seq<Gate>, store: map<string, Gate>, name: string)
    requires Lists(rows, store) && KeyedByName(store)
    ensures AtMostOneRow(rows, name) && FindRow(rows, name) == Lookup(store, name)
  {
    var keys :| ListsInOrder(rows, store, keys);
    assert forall i :: 0 <= i < |rows| ==> rows[i].name == keys[i];
    if name in store {
      var k :| 0 <= k < |keys| && keys[k] == name;
      FindRowAt(rows, name, k);
    } else {
      FindRowMeaning(rows, name);
    }
  }

  lemma AdmitsNowMeaning(s: System, n: nat, g: string)
    requires n < |s.nodes| && CacheSound(s.nodes[n]) && s.nodes[n].phase.Idle? && g in DEFAULT_GATES
    ensures Enabled(s, Act(n, g))
    ensures AdmitsNow(s, n, g) <==> NodeGate(s.nodes[n].overrides, g, Lookup(s.store, g)).value.state.Open?
  {
    var started := After(s, Act(n, g));
    assert started.nodes[n] == ActionStarted(s.nodes[n], g);
    if g !in s.nodes[n].overrides {
      var read := After(started, ReadRow(n));
      assert read.nodes[n].phase == GotRow(g, Lookup(s.store, g));
    }
  }

  /** On an idle node of a reachable state, the snapshot of the current store shows a gate open
      exactly when an action on it would be admitted now. */
  lemma SnapshotAgreesWithAdmission(s: System, n: nat, rows: seq<Gate>, g: string)
    requires Inv(s) && n < |s.nodes| && s.nodes[n].phase.Idle? && g in DEFAULT_GATES
    requires Lists(rows, s.store) && KeyedByName(s.store)
    ensures Enabled(s, Act(n, g))
    ensures SnapshotGates(rows, s.nodes[n].overrides)[g].state.Open? <==> AdmitsNow(s, n, g)
  {
    ListingFindsLookup(rows, s.store, g);
    SingleReadAgreesWithSnapshot(rows, s.nodes[n].overrides, g);
    assert NodeInv(s.nodes[n]);
    AdmitsNowMeaning(s, n, g);
  }

  /** A readable store: the reasons are exactly the conjuncts of live admission that fail. */
  lemma ProbeMeaning(apiToken: Option<string>, persistence: GatePersistence, gates: map<string, Gate>)
    requires TELEGRAM_SEND_GATE in gates && Sound(TELEGRAM_SEND_GATE, gates[TELEGRAM_SEND_GATE])
    ensures var report := Probe(apiToken, persistence, Some(gates));
            && (report.liveAdmissionReady <==> report.operationalReady && gates[TELEGRAM_SEND_GATE].state.Open?)
            && (report.reasons == [] <==> report.liveAdmissionReady)
            && TelegramTicketPolicyUnsatisfied !in report.reasons
    ensures ReasonsAreCauses(Probe(apiToken, persistence, Some(gates)), apiToken, persistence, true,
                             gates[TELEGRAM_SEND_GATE].state)
  {
  }

  /** Each reason is there exactly for its own cause, and operational readiness asks for a token that is
      not blank, the durable backend and a readable store. */
  predicate ReasonsAreCauses(report: Report, apiToken: Option<string>, persistence: GatePersistence, readable: bool,
                             telegram: GateState)
  {
    var token := apiToken.Some? && !Text.IsBlank(apiToken.value);
    && report.gateState == telegram
    && (report.operationalReady <==> token && persistence == Postgres && readable)
    && (AuthNotConfigured in report.reasons <==> !token)
    && (PersistenceNotDurable in report.reasons <==> persistence == Memory)
    && (PersistenceUnavailable in report.reasons <==> !readable)
    && (TelegramGateHeld in report.reasons <==> telegram == Hold)
  }

  /** In every reachable state the probe of an idle node reports live admission exactly when it is
      operationally ready and a telegram_send action started at that point would execute; it
      lists no reason exactly then, and never blames the ticket policy. */
  lemma ReadinessAgreesWithAdmission(states: seq<System>, events: seq<Event>, i: nat, n: nat, rows: seq<Gate>,
                                     apiToken: Option<string>, persistence: GatePersistence)
    requires IsRun(states, events) && i < |states|
    requires n < |states[i].nodes| && states[i].nodes[n].phase.Idle?
    requires Lists(rows, states[i].store) && KeyedByName(states[i].store)
    ensures Enabled(states[i], Act(n, TELEGRAM_SEND_GATE))
    ensures var report := Probe(apiToken, persistence, Some(SnapshotGates(rows, states[i].nodes[n].overrides)));
            && (report.liveAdmissionReady <==> report.operationalReady && AdmitsNow(states[i], n, TELEGRAM_SEND_GATE))
            && (report.reasons == [] <==> report.liveAdmissionReady)
            && TelegramTicketPolicyUnsatisfied !in report.reasons
  {
    ReachableInv(states, events, i);
    SnapshotAgreesWithAdmission(states[i], n, rows, TELEGRAM_SEND_GATE);
    ProbeMeaning(apiToken, persistence, SnapshotGates(rows, states[i].nodes[n].overrides));
  }

  /** When the Store cannot be read the probe fails closed and says so. */
  lemma UnreadableStoreIsNotReady(apiToken: Option<string>, persistence: GatePersistence)
    ensures var report := Probe(apiToken, persistence, None);
            && !report.operationalReady && !report.liveAdmissionReady
            && PersistenceUnavailable in report.reasons && TelegramGateHeld in report.reasons
            && TelegramTicketPolicyUnsatisfied !in report.reasons
            && ReasonsAreCauses(report, apiToken, persistence, false, Hold)
  {
  }
}
