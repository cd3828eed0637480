/** The plain plan, act, observe loop (`AutoLoop::run`). A planner is an arbitrary object with
    state `P`; each of its hooks may change that state. */
module AutoLoop {
  import opened Base
  import opened Tools

  datatype StepRecord = StepRecord(step: nat, invocation: ToolInvocation, result: ToolResult)

  datatype LoopOutcome = Completed | BudgetExhausted

  datatype FailureKind = BadArgsKind | FailedKind | UnknownKind

  datatype LessonGuidance = ValidateArguments | RetryTransientFailure | VerifyToolAvailability

  datatype FailureEvent = FailureEvent(tool: string, kind: FailureKind, attempt: nat)

  datatype Lesson = Lesson(tool: string, kind: FailureKind, guidance: LessonGuidance)

  datatype Planner<!P> = Planner(
    nextStep: (P, seq<StepRecord>) -> (P, Option<ToolInvocation>),
    applyLessons: (P, string, Json, seq<Lesson>) -> (P, Json),
    deriveLesson: (P, FailureEvent) -> (P, LessonGuidance))

  datatype LoopConfig = LoopConfig(maxSteps: nat, gate: ApprovalGate)

  /** How a run ends; `history` is also kept for failed runs, which return only the error. */
  datatype RunEnd<P, W> = RunEnd(result: Result<LoopOutcome, ToolError>, history: seq<StepRecord>, planner: P, world: W)

  /** What the loop does from `step` on. */
  function RunFrom<P, W>(registry: Registry<W>, config: LoopConfig, planner: Planner<P>, step: nat,
                         p: P, w: W, history: seq<StepRecord>): RunEnd<P, W>
    decreases config.maxSteps - step
  {
    if step >= config.maxSteps then RunEnd(Ok(BudgetExhausted), history, p, w)
    else
      var (p1, planned) := planner.nextStep(p, history);
      if planned.None? then RunEnd(Ok(Completed), history, p1, w)
      else
        var (w1, result) := Invoke(registry, config.gate, w, planned.value);
        if result.Err? then RunEnd(Err(result.error), history, p1, w1)
        else RunFrom(registry, config, planner, step + 1, p1, w1,
                     history + [StepRecord(step, planned.value, result.value)])
  }

  function Run<P, W>(registry: Registry<W>, config: LoopConfig, planner: Planner<P>, p: P, w: W): RunEnd<P, W> {
    RunFrom(registry, config, planner, 0, p, w, [])
  }

  /** The loop itself. */
  method RunLoop<P, W>(registry: Registry<W>, config: LoopConfig, planner: Planner<P>, p0: P, w0: W)
    returns (end: RunEnd<P, W>)
    ensures end == Run(registry, config, planner, p0, w0)
    ensures |end.history| <= config.maxSteps
    ensures forall i :: 0 <= i < |end.history| ==> end.history[i].step == i
  {
    var p, w := p0, w0;
    var history: seq<StepRecord> := [];
    for step := 0 to config.maxSteps
      invariant |history| == step
      invariant forall i :: 0 <= i < step ==> history[i].step == i
      invariant RunFrom(registry, config, planner, step, p, w, history) == Run(registry, config, planner, p0, w0)
    {
      var (p1, planned) := planner.nextStep(p, history);
      p := p1;
      if planned.None? { return RunEnd(Ok(Completed), history, p, w); }
      var (w1, result) := Invoke(registry, config.gate, w, planned.value);
      w := w1;
      if result.Err? { return RunEnd(Err(result.error), history, p, w); }
      history := history + [StepRecord(step, planned.value, result.value)];
    }
    return RunEnd(Ok(BudgetExhausted), history, p, w);
  }

  /** Gates that agree on the side-effecting tools give the same run, whatever the planner. */
  lemma {:induction false} GateDeterminesRunFrom<P, W(!new)>(
    registry: Registry<W>, config: LoopConfig, other: ApprovalGate, planner: Planner<P>, step: nat, p: P, w: W,
    history: seq<StepRecord>)
    requires SamePermissions(registry, config.gate, other)
    ensures RunFrom(registry, config, planner, step, p, w, history)
            == RunFrom(registry, config.(gate := other), planner, step, p, w, history)
    decreases config.maxSteps - step
  {
    if step < config.maxSteps {
      var (p1, planned) := planner.nextStep(p, history);
      if planned.Some? {
        var (w1, result) := Invoke(registry, config.gate, w, planned.value);
        if result.Ok? {
          GateDeterminesRunFrom(registry, config, other, planner, step + 1, p1, w1,
                                history + [StepRecord(step, planned.value, result.value)]);
        }
      }
    }
  }

  lemma GateDeterminesRun<P, W(!new)>(registry: Registry<W>, config: LoopConfig, other: ApprovalGate,
      planner: Planner<P>, p: P, w: W)
    requires SamePermissions(registry, config.gate, other)
    ensures Run(registry, config, planner, p, w) == Run(registry, config.(gate := other), planner, p, w)
  {
    GateDeterminesRunFrom(registry, config, other, planner, 0, p, w, []);
  }

  /** An empty allowlist is a dry run. */
  lemma EmptyAllowlistIsDryRun<P, W(!new)>(registry: Registry<W>, maxSteps: nat, ticket: string, planner: Planner<P>,
      p: P, w: W)
    ensures Run(registry, LoopConfig(maxSteps, Allowlist(ticket, {})), planner, p, w)
            == Run(registry, LoopConfig(maxSteps, DryRun), planner, p, w)
  {
    GateDeterminesRun(registry, LoopConfig(maxSteps, Allowlist(ticket, {})), DryRun, planner, p, w);
  }

  /** No entry of the record executed a side-effecting tool without the gate's permission. */
  ghost predicate HistoryRespectsGate<W(!new)>(registry: Registry<W>, gate: ApprovalGate, history: seq<StepRecord>) {
    forall i :: 0 <= i < |history| && history[i].result.Executed? ==>
      var name := history[i].invocation.tool;
      name in registry && (registry[name].sideEffecting ==> gate.Permits(name))
  }

  lemma {:induction false} RunFromRespectsGate<P, W(!new)>(
    registry: Registry<W>, config: LoopConfig, planner: Planner<P>, step: nat, p: P, w: W, history: seq<StepRecord>)
    requires HistoryRespectsGate(registry, config.gate, history)
    ensures HistoryRespectsGate(registry, config.gate, RunFrom(registry, config, planner, step, p, w, history).history)
    decreases config.maxSteps - step
  {
    if step < config.maxSteps {
      var (p1, planned) := planner.nextStep(p, history);
      if planned.Some? {
        var (w1, result) := Invoke(registry, config.gate, w, planned.value);
        if result.Ok? {
          RunFromRespectsGate(registry, config, planner, step + 1, p1, w1,
                              history + [StepRecord(step, planned.value, result.value)]);
        }
      }
    }
  }

  /** The record as a chain: from state to state, the planner was asked on the record so far, and what it
      asked for was invoked in the world that the call before it left. */
  ghost predicate Chained<P, W>(registry: Registry<W>, gate: ApprovalGate, planner: Planner<P>, ps: seq<P>, ws: seq<W>,
                                history: seq<StepRecord>)
  {
    && |ps| == |ws| == |history| + 1
    && forall i :: 0 <= i < |history| ==>
         && history[i].step == i
         && planner.nextStep(ps[i], history[..i]) == (ps[i + 1], Some(history[i].invocation))
         && Invoke(registry, gate, ws[i], history[i].invocation) == (ws[i + 1], Ok(history[i].result))
  }

  /** Why a run ended: the planner had nothing more within the budget, the budget was used up, or what the
      planner asked for failed with the error returned. */
  ghost predicate EndedFor<P, W>(registry: Registry<W>, config: LoopConfig, planner: Planner<P>, p: P, w: W,
                                 end: RunEnd<P, W>)
  {
    match end.result
    case Ok(Completed) =>
      && |end.history| < config.maxSteps
      && planner.nextStep(p, end.history) == (end.planner, None) && end.world == w
    case Ok(BudgetExhausted) => |end.history| == config.maxSteps && end.planner == p && end.world == w
    case Err(error) =>
      && |end.history| < config.maxSteps
      && var (p1, planned) := planner.nextStep(p, end.history);
         && planned.Some? && end.planner == p1
         && Invoke(registry, config.gate, w, planned.value) == (end.world, Err(error))
  }

  lemma ChainExtends<P, W>(registry: Registry<W>, gate: ApprovalGate, planner: Planner<P>, ps: seq<P>, ws: seq<W>,
                           history: seq<StepRecord>, p: P, w: W, record: StepRecord)
    requires Chained(registry, gate, planner, ps, ws, history) && record.step == |history|
    requires planner.nextStep(ps[|history|], history) == (p, Some(record.invocation))
    requires Invoke(registry, gate, ws[|history|], record.invocation) == (w, Ok(record.result))
    ensures Chained(registry, gate, planner, ps + [p], ws + [w], history + [record])
  {
    var longer := history + [record];
    assert forall i :: 0 <= i < |history| ==> longer[i] == history[i] && longer[..i] == history[..i];
    assert longer[..|history|] == history;
  }

  lemma {:induction false} RunFromIsChained<P, W>(
    registry: Registry<W>, config: LoopConfig, planner: Planner<P>, ps: seq<P>, ws: seq<W>, history: seq<StepRecord>)
    returns (qs: seq<P>, vs: seq<W>)
    requires |history| <= config.maxSteps && Chained(registry, config.gate, planner, ps, ws, history)
    ensures var end := RunFrom(registry, config, planner, |history|, ps[|history|], ws[|history|], history);
            && Chained(registry, config.gate, planner, qs, vs, end.history) && qs[0] == ps[0] && vs[0] == ws[0]
            && EndedFor(registry, config, planner, qs[|end.history|], vs[|end.history|], end)
    decreases config.maxSteps - |history|
  {
    qs, vs := ps, ws;
    var p, w := ps[|history|], ws[|history|];
    if |history| < config.maxSteps {
      var (p1, planned) := planner.nextStep(p, history);
      if planned.Some? {
        var (w1, result) := Invoke(registry, config.gate, w, planned.value);
        if result.Ok? {
          var record := StepRecord(|history|, planned.value, result.value);
          ChainExtends(registry, config.gate, planner, ps, ws, history, p1, w1, record);
          qs, vs := RunFromIsChained(registry, config, planner, ps + [p1], ws + [w1], history + [record]);
        }
      }
    }
  }

  /** Every run, without reference to the loop: a chain of planned and executed steps from the states it was
      given, which ends for a reason that can be seen. */
  lemma RunIsChained<P, W>(registry: Registry<W>, config: LoopConfig, planner: Planner<P>, p: P, w: W)
    returns (ps: seq<P>, ws: seq<W>)
    ensures var end := Run(registry, config, planner, p, w);
            && Chained(registry, config.gate, planner, ps, ws, end.history) && ps[0] == p && ws[0] == w
            && EndedFor(registry, config, planner, ps[|end.history|], ws[|end.history|], end)
  {
    ps, ws := RunFromIsChained(registry, config, planner, [p], [w], []);
  }
}
