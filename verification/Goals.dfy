/** Goal runs: the planner that walks a goal's target agents once, and the report of a run. */
module Goals {
  import opened Base
  import opened Tools
  import opened AutoLoop

  datatype GoalSpec = GoalSpec(
    goal: string, targetAgents: seq<string>, maxSteps: nat, gate: ApprovalGate, argTemplates: map<string, Json>)

  function MaxCycles(spec: GoalSpec): nat {
    if spec.targetAgents == [] then 1 else |spec.targetAgents|
  }

  /** The planner, in place. */
  class GoalPlanner {
    const spec: GoalSpec
    const maxCycles: nat
    var step: nat

    constructor (spec: GoalSpec)
      ensures this.spec == spec && maxCycles == MaxCycles(spec) && step == 0
    {
      this.spec := spec;
      step := 0;
      maxCycles := if spec.targetAgents == [] then 1 else |spec.targetAgents|;
    }

    method NextStep() returns (r: Option<ToolInvocation>)
      requires maxCycles == MaxCycles(spec)
      modifies this
      ensures (step, r) == GoalNext(spec, old(step))
    {
      if step >= maxCycles { return None; }
      if spec.targetAgents == [] {
        step := step + 1;
        return Some(ToolInvocation("inspect", Obj(map["goal" := Str(spec.goal)])));
      }
      var agent := spec.targetAgents[step % |spec.targetAgents|];
      var args := if agent in spec.argTemplates then spec.argTemplates[agent]
                  else Obj(map["agent" := Str(agent), "goal" := Str(spec.goal)]);
      step := step + 1;
      return Some(ToolInvocation(agent, args));
    }
  }

  /** The invocation planned at position `i` of the single cycle. */
  function GoalInvocation(spec: GoalSpec, i: nat): ToolInvocation
    requires i < MaxCycles(spec)
  {
    if spec.targetAgents == [] then ToolInvocation("inspect", Obj(map["goal" := Str(spec.goal)]))
    else
      var agent := spec.targetAgents[i];
      ToolInvocation(agent, if agent in spec.argTemplates then spec.argTemplates[agent]
                            else Obj(map["agent" := Str(agent), "goal" := Str(spec.goal)]))
  }

  function GoalNext(spec: GoalSpec, step: nat): (nat, Option<ToolInvocation>) {
    if step >= MaxCycles(spec) then (step, None) else (step + 1, Some(GoalInvocation(spec, step)))
  }

  function HasGuidance(lessons: seq<Lesson>, guidance: LessonGuidance): bool {
    exists i :: 0 <= i < |lessons| && lessons[i].guidance == guidance
  }

  function FieldsOf(args: Json): map<string, Json> {
    if args.Obj? then args.fields else map[]
  }

  function GoalArguments(tool: string, args: Json, lessons: seq<Lesson>): Json {
    if HasGuidance(lessons, ValidateArguments) then Obj(FieldsOf(args)["validated" := Bool(true)])
    else if tool == "hermes-agent" && HasGuidance(lessons, RetryTransientFailure)
    then Obj(FieldsOf(args)["max_concurrent" := Num(1.0)])
    else args
  }

  /** What lessons change: a validation lesson marks the arguments as validated and keeps every other field;
      failing that, a transient failure of the Hermes agent limits it to one request at a time; nothing
      else changes. */
  lemma LessonsChangeArguments(tool: string, args: Json, lessons: seq<Lesson>)
    requires args.Obj?
    ensures var validate := exists l :: l in lessons && l.guidance == ValidateArguments;
            var transient := exists l :: l in lessons && l.guidance == RetryTransientFailure;
            var guided := GoalArguments(tool, args, lessons);
            && guided.Obj? && args.fields.Keys <= guided.fields.Keys
            && (validate ==> "validated" in guided.fields && guided.fields["validated"] == Bool(true))
            && (!validate && transient && tool == "hermes-agent" ==>
                  "max_concurrent" in guided.fields && guided.fields["max_concurrent"] == Num(1.0))
            && (!validate && !(transient && tool == "hermes-agent") ==> guided == args)
            && forall f :: f in args.fields && f != (if validate then "validated" else "max_concurrent") ==>
                 guided.fields[f] == args.fields[f]
  {
    assert HasGuidance(lessons, ValidateArguments) <==> exists l :: l in lessons && l.guidance == ValidateArguments;
    assert HasGuidance(lessons, RetryTransientFailure)
           <==> exists l :: l in lessons && l.guidance == RetryTransientFailure;
  }

  function GoalGuidance(kind: FailureKind): LessonGuidance {
    match kind
    case BadArgsKind => ValidateArguments
    case FailedKind => RetryTransientFailure
    case UnknownKind => VerifyToolAvailability
  }

  /** A failure over bad arguments leads to arguments marked as validated, a failed call of the Hermes
      agent to one request at a time, and an unknown tool changes no arguments. */
  lemma FailuresTeach(tool: string, args: Json, kind: FailureKind)
    requires args.Obj?
    ensures var guided := GoalArguments(tool, args, [Lesson(tool, kind, GoalGuidance(kind))]);
            && (kind.BadArgsKind? ==> guided == Obj(args.fields["validated" := Bool(true)]))
            && (kind.FailedKind? ==> guided == if tool == "hermes-agent"
                                              then Obj(args.fields["max_concurrent" := Num(1.0)]) else args)
            && (kind.UnknownKind? ==> guided == args)
    ensures GoalGuidance(kind).VerifyToolAvailability? <==> kind.UnknownKind?
  {
    var lesson := Lesson(tool, kind, GoalGuidance(kind));
    assert [lesson][0].guidance == GoalGuidance(kind);
  }

  /** The goal planner as the loop sees it; its state is the `step` field. */
  function AsPlanner(spec: GoalSpec): Planner<nat> {
    Planner(
      (step: nat, history: seq<StepRecord>) => GoalNext(spec, step),
      (step: nat, tool: string, args: Json, lessons: seq<Lesson>) => (step, GoalArguments(tool, args, lessons)),
      (step: nat, failure: FailureEvent) => (step, GoalGuidance(failure.kind)))
  }

  datatype GoalRunReport = GoalRunReport(
    outcome: LoopOutcome, stepsUsed: nat, maxSteps: nat, externalWrites: bool, commandExecuted: bool,
    history: seq<StepRecord>)

  /** `run_goal` */
  function RunGoal<W>(registry: Registry<W>, spec: GoalSpec, w: W): Result<GoalRunReport, ToolError> {
    var end := Run(registry, LoopConfig(spec.maxSteps, spec.gate), AsPlanner(spec), 0, w);
    match end.result
    case Err(error) => Err(error)
    case Ok(outcome) =>
      var externalWrites :=
        && (spec.gate.Approved? || spec.gate.Allowlist?)
        && exists i :: 0 <= i < |end.history| && end.history[i].result.Executed?;
      Ok(GoalRunReport(outcome, |end.history|, spec.maxSteps, externalWrites, externalWrites, end.history))
  }

  // ----- closed form ---------------------------------------------------------------------

  /** Position by position, the record holds the planned invocations. */
  ghost predicate FollowsPlan(spec: GoalSpec, history: seq<StepRecord>) {
    && |history| <= MaxCycles(spec)
    && forall i :: 0 <= i < |history| ==> history[i].step == i && history[i].invocation == GoalInvocation(spec, i)
  }

  ghost predicate AllToolsSucceed<W(!new)>(registry: Registry<W>, gate: ApprovalGate, spec: GoalSpec) {
    forall i: nat, w: W :: i < MaxCycles(spec) ==> Invoke(registry, gate, w, GoalInvocation(spec, i)).1.Ok?
  }

  lemma {:induction false} GoalRunFrom<W(!new)>(registry: Registry<W>, spec: GoalSpec, w: W, history: seq<StepRecord>)
    requires FollowsPlan(spec, history) && |history| <= spec.maxSteps
    ensures var config := LoopConfig(spec.maxSteps, spec.gate);
            var end := RunFrom(registry, config, AsPlanner(spec), |history|, |history|, w, history);
            && FollowsPlan(spec, end.history)
            && (end.result == Ok(Completed) ==> |end.history| == MaxCycles(spec) < spec.maxSteps)
            && (end.result == Ok(BudgetExhausted) ==> |end.history| == spec.maxSteps <= MaxCycles(spec))
            && (AllToolsSucceed(registry, spec.gate, spec) ==> end.result.Ok?)
    decreases spec.maxSteps - |history|
  {
    var step := |history|;
    if step < spec.maxSteps && step < MaxCycles(spec) {
      var invocation := GoalInvocation(spec, step);
      assert AsPlanner(spec).nextStep(step, history) == (step + 1, Some(invocation));
      var (w1, result) := Invoke(registry, spec.gate, w, invocation);
      if result.Ok? {
        GoalRunFrom(registry, spec, w1, history + [StepRecord(step, invocation, result.value)]);
      }
    } else if step < spec.maxSteps {
      assert AsPlanner(spec).nextStep(step, history) == (step, None);
    }
  }

  /** Every goal run that returns a report: it used min(max_steps, max(1, n)) steps, step i called
      target agent i, and it completed exactly when the budget exceeds max(1, n). */
  lemma GoalRunClosedForm<W(!new)>(registry: Registry<W>, spec: GoalSpec, w: W)
    requires RunGoal(registry, spec, w).Ok?
    ensures var report := RunGoal(registry, spec, w).value;
            && report.stepsUsed == |report.history| == Min(spec.maxSteps, MaxCycles(spec))
            && FollowsPlan(spec, report.history)
            && (report.outcome.Completed? <==> spec.maxSteps > MaxCycles(spec))
  {
    GoalRunFrom(registry, spec, w, []);
    var end := Run(registry, LoopConfig(spec.maxSteps, spec.gate), AsPlanner(spec), 0, w);
    assert end.result.Ok? && (end.result.value.Completed? || end.result.value.BudgetExhausted?);
  }

  /** Step by step, without reference to the planner: step i calls target agent i with its template, or
      else with the agent and the goal; a goal without targets is inspected. */
  lemma GoalCallsAgents<W(!new)>(registry: Registry<W>, spec: GoalSpec, w: W, i: nat)
    requires RunGoal(registry, spec, w).Ok? && i < RunGoal(registry, spec, w).value.stepsUsed
    ensures i < |RunGoal(registry, spec, w).value.history|
    ensures var call := RunGoal(registry, spec, w).value.history[i].invocation;
            if spec.targetAgents == []
            then i == 0 && call == ToolInvocation("inspect", Obj(map["goal" := Str(spec.goal)]))
            else && i < |spec.targetAgents| && call.tool == spec.targetAgents[i]
                 && call.args == if call.tool in spec.argTemplates then spec.argTemplates[call.tool]
                                 else Obj(map["agent" := Str(call.tool), "goal" := Str(spec.goal)])
  {
    GoalRunClosedForm(registry, spec, w);
  }

  /** A goal run does return a report when every tool it names is registered and succeeds. */
  lemma GoalRunReturns<W(!new)>(registry: Registry<W>, spec: GoalSpec, w: W)
    requires AllToolsSucceed(registry, spec.gate, spec)
    ensures RunGoal(registry, spec, w).Ok?
  {
    GoalRunFrom(registry, spec, w, []);
  }

  /** A report without external writes: no step executed a side-effecting tool. */
  lemma NoExternalWritesIsTrue<W(!new)>(registry: Registry<W>, spec: GoalSpec, w: W, i: nat)
    requires RunGoal(registry, spec, w).Ok? && !RunGoal(registry, spec, w).value.externalWrites
    requires i < |RunGoal(registry, spec, w).value.history|
    ensures var record := RunGoal(registry, spec, w).value.history[i];
            record.result.Executed? ==>
              record.invocation.tool in registry && !registry[record.invocation.tool].sideEffecting
  {
    RunFromRespectsGate(registry, LoopConfig(spec.maxSteps, spec.gate), AsPlanner(spec), 0, 0, w, []);
  }

  /** Steps are executed or only planned, as the registry and the gate have it. */
  ghost predicate ExecutesStep<W(!new)>(registry: Registry<W>, gate: ApprovalGate, tool: string) {
    tool in registry && (registry[tool].sideEffecting ==> gate.Permits(tool))
  }

  ghost predicate FaithfulRecord<W(!new)>(registry: Registry<W>, gate: ApprovalGate, history: seq<StepRecord>) {
    forall i :: 0 <= i < |history| ==>
      history[i].invocation.tool in registry
      && (history[i].result.Executed? <==> ExecutesStep(registry, gate, history[i].invocation.tool))
  }

  lemma {:induction false} RecordIsFaithful<P, W(!new)>(
    registry: Registry<W>, config: LoopConfig, planner: Planner<P>, step: nat, p: P, w: W, history: seq<StepRecord>)
    requires FaithfulRecord(registry, config.gate, history)
    ensures FaithfulRecord(registry, config.gate, RunFrom(registry, config, planner, step, p, w, history).history)
    decreases config.maxSteps - step
  {
    if step < config.maxSteps {
      var (p1, planned) := planner.nextStep(p, history);
      if planned.Some? {
        var (w1, result) := Invoke(registry, config.gate, w, planned.value);
        if result.Ok? {
          RecordIsFaithful(registry, config, planner, step + 1, p1, w1,
                           history + [StepRecord(step, planned.value, result.value)]);
        }
      }
    }
  }

  /** Some step of the run executed a side-effecting tool. */
  ghost predicate WroteSomething<W(!new)>(registry: Registry<W>, history: seq<StepRecord>) {
    exists i :: 0 <= i < |history| && history[i].result.Executed?
                && history[i].invocation.tool in registry && registry[history[i].invocation.tool].sideEffecting
  }

  /** What the report cannot confuse, read off the goal and the registry: a dry run, a run that plans
      some permitted side-effecting tool within its budget, or one that plans only tools whose
      execution the gate withholds. */
  ghost predicate FlagIsTelling<W(!new)>(registry: Registry<W>, spec: GoalSpec) {
    var k := Min(spec.maxSteps, MaxCycles(spec));
    || spec.gate.DryRun?
    || (exists i: nat :: i < k && PlansWrite(registry, spec, i))
    || (forall i: nat :: i < k ==> !ExecutesStep(registry, spec.gate, GoalInvocation(spec, i).tool))
  }

  ghost predicate PlansWrite<W(!new)>(registry: Registry<W>, spec: GoalSpec, i: nat)
    requires i < MaxCycles(spec)
  {
    var tool := GoalInvocation(spec, i).tool;
    tool in registry && registry[tool].sideEffecting && spec.gate.Permits(tool)
  }

  /** `external_writes` tells whether a side-effecting tool executed exactly under that condition. */
  lemma ExternalWritesIsRightIff<W(!new)>(registry: Registry<W>, spec: GoalSpec, w: W)
    requires RunGoal(registry, spec, w).Ok?
    ensures var report := RunGoal(registry, spec, w).value;
            (report.externalWrites <==> WroteSomething(registry, report.history)) <==> FlagIsTelling(registry, spec)
  {
    var report := RunGoal(registry, spec, w).value;
    var h := report.history;
    GoalRunClosedForm(registry, spec, w);
    RecordIsFaithful(registry, LoopConfig(spec.maxSteps, spec.gate), AsPlanner(spec), 0, 0, w, []);
    assert FaithfulRecord(registry, spec.gate, h);
    WroteIffPlanned(registry, spec, h);
    ExecutedIffPlanned(registry, spec, h);
  }

  lemma WroteIffPlanned<W(!new)>(registry: Registry<W>, spec: GoalSpec, h: seq<StepRecord>)
    requires FollowsPlan(spec, h) && FaithfulRecord(registry, spec.gate, h)
    ensures WroteSomething(registry, h) <==> exists i: nat :: i < |h| && PlansWrite(registry, spec, i)
  {
    if i: nat :| i < |h| && PlansWrite(registry, spec, i) {
      assert h[i].invocation == GoalInvocation(spec, i);
      assert h[i].result.Executed?;
    }
    if i :| 0 <= i < |h| && h[i].result.Executed? && h[i].invocation.tool in registry
            && registry[h[i].invocation.tool].sideEffecting {
      assert h[i].invocation == GoalInvocation(spec, i);
      assert PlansWrite(registry, spec, i);
    }
  }

  lemma ExecutedIffPlanned<W(!new)>(registry: Registry<W>, spec: GoalSpec, h: seq<StepRecord>)
    requires FollowsPlan(spec, h) && FaithfulRecord(registry, spec.gate, h)
    ensures (exists i :: 0 <= i < |h| && h[i].result.Executed?)
            <==> exists i: nat :: i < |h| && ExecutesStep(registry, spec.gate, GoalInvocation(spec, i).tool)
  {
    assert forall i :: 0 <= i < |h| ==> h[i].invocation == GoalInvocation(spec, i);
    if i: nat :| i < |h| && ExecutesStep(registry, spec.gate, GoalInvocation(spec, i).tool) {
      assert h[i].result.Executed?;
    }
    if i :| 0 <= i < |h| && h[i].result.Executed? {
      assert ExecutesStep(registry, spec.gate, GoalInvocation(spec, i).tool);
    }
  }

  lemma ReadingIsNotTelling<W(!new)>(registry: Registry<W>, spec: GoalSpec)
    requires !spec.gate.DryRun? && spec.maxSteps >= 1 && GoalInvocation(spec, 0).tool in registry
    requires forall name :: name in registry ==> !registry[name].sideEffecting
    ensures !FlagIsTelling(registry, spec)
  {
    assert ExecutesStep(registry, spec.gate, GoalInvocation(spec, 0).tool);
  }

  /** The flag over-reports: reading alone raises it under a gate that would have allowed writes. */
  lemma ExternalWritesCanOverReport(spec: GoalSpec)
    requires spec.targetAgents == [] && spec.maxSteps >= 1 && spec.gate.Approved?
    ensures exists registry: Registry<int> ::
              && (forall name :: name in registry ==> !registry[name].sideEffecting)
              && RunGoal(registry, spec, 0).Ok? && RunGoal(registry, spec, 0).value.externalWrites
              && !FlagIsTelling(registry, spec)
  {
    var inspect := Tool("inspect", false, false, (w: int, args: Json) => (w, Ok(args)), (args: Json) => "");
    var registry: Registry<int> := map["inspect" := inspect];
    var invocation := GoalInvocation(spec, 0);
    ReadingIsNotTelling(registry, spec);
    var record := StepRecord(0, invocation, Executed(invocation.args));
    var config := LoopConfig(spec.maxSteps, spec.gate);
    assert AsPlanner(spec).nextStep(0, []) == (1, Some(invocation));
    assert Invoke(registry, spec.gate, 0, invocation) == (0, Ok(Executed(invocation.args)));
    assert [] + [record] == [record];
    assert Run(registry, config, AsPlanner(spec), 0, 0)
             == RunFrom(registry, config, AsPlanner(spec), 1, 1, 0, [record]);
    GoalRunFrom(registry, spec, 0, [record]);
    assert AsPlanner(spec).nextStep(1, [record]) == (1, None);
    assert RunFrom(registry, config, AsPlanner(spec), 1, 1, 0, [record]).history == [record];
    assert RunGoal(registry, spec, 0).value.history[0].result.Executed?;
  }
}
