/** The recovering loop (`AutoLoop::run_with_recovery`): every invocation, failed or not, draws on
    one global budget; a step may be retried a bounded number of times with growing delays; every
    failure is recorded durably before anything else is decided. */
module Recovery {
  import opened Base
  import opened Tools
  import opened AutoLoop
  import opened Backoff
  import Text

  /** The durable store, as the loop sees it; every call may fail and may change its state `S`. */
  datatype LessonStore<!S> = LessonStore(
    lessonsForTool: (S, string) -> (S, Result<seq<Lesson>, string>),
    recordFailure: (S, FailureEvent) -> (S, Result<(), string>),
    upsertLesson: (S, Lesson) -> (S, Result<(), string>))

  datatype RecoveryConfig = RecoveryConfig(maxRetries: nat, baseBackoffMs: nat, maxBackoffMs: nat)

  datatype RecoveryError = ToolFailed(tool: ToolError) | StoreFailed(message: string)

  datatype Env<!P, !S, !W> = Env(
    registry: Registry<W>,
    config: LoopConfig,
    recovery: RecoveryConfig,
    planner: Planner<P>,
    store: LessonStore<S>)

  const MAX_RECOVERY_TOOL_NAME_CHARS: nat := 128

  function BoundedToolName(tool: string): (name: string)
    ensures 0 < |name| <= MAX_RECOVERY_TOOL_NAME_CHARS
  {
    var trimmed := Text.Trim(tool);
    var bounded := trimmed[..Min(|trimmed|, MAX_RECOVERY_TOOL_NAME_CHARS)];
    if bounded == [] then "unknown" else bounded
  }

  function KindOf(error: ToolError): FailureKind {
    match error
    case BadArgs(_, _) => BadArgsKind
    case Failed(_, _) => FailedKind
    case Unknown(_) => UnknownKind
  }

  /** `u32::try_from(attempt).unwrap_or(u32::MAX).max(1)` */
  function RecordedAttempt(attempt: nat): nat {
    var clamped := Min(attempt, U32_MAX);
    if clamped < 1 then 1 else clamped
  }

  function NewFailure(tool: string, kind: FailureKind, attempt: nat): FailureEvent {
    FailureEvent(BoundedToolName(tool), kind, RecordedAttempt(attempt))
  }

  // ----- the loop as a machine -----------------------------------------------------------

  /** One invocation: retry number `retry` of planned step `planned`. */
  datatype Attempt<W> = Attempt(
    planned: nat, retry: nat, base: ToolInvocation, invocation: ToolInvocation,
    before: W, after: W, result: Result<ToolResult, ToolError>)

  /** Everything the loop owns. `attempts` is the audit of all invocations; `attempts_used` in the
      code is its length. */
  datatype Ledger<P, S, W> = Ledger(
    p: P, s: S, w: W,
    history: seq<StepRecord>, failures: seq<FailureEvent>,
    attempts: seq<Attempt<W>>, sleptMs: nat)

  datatype Config<P, S, W> =
    | Planning(ledger: Ledger<P, S, W>, planned: nat)
    | Trying(ledger: Ledger<P, S, W>, planned: nat, base: ToolInvocation, retries: nat)
    | Done(ledger: Ledger<P, S, W>, result: Result<LoopOutcome, RecoveryError>)

  predicate WellBudgeted<P, S, W>(env: Env<P, S, W>, c: Config<P, S, W>) {
    c.Trying? ==> |c.ledger.attempts| < env.config.maxSteps
  }

  /** After the failed attempt, already in the ledger, was recorded: stop, or sleep and retry. */
  function AfterFailure<P, S, W>(env: Env<P, S, W>, l: Ledger<P, S, W>, planned: nat, base: ToolInvocation,
                                 retries: nat, error: ToolError): Config<P, S, W>
  {
    if KindOf(error) == UnknownKind then Done(l, Err(ToolFailed(error)))
    else if !IsRetrySafe(env.registry, base.tool) then Done(l, Err(ToolFailed(error)))
    else if retries >= env.recovery.maxRetries then Done(l, Err(ToolFailed(error)))
    else if |l.attempts| >= env.config.maxSteps then Done(l, Ok(BudgetExhausted))
    else
      var delay := DelayBeforeRetry(env.recovery.baseBackoffMs, env.recovery.maxBackoffMs, retries);
      Trying(l.(sleptMs := l.sleptMs + delay), planned, base, retries + 1)
  }

  /** Record the failure, derive and store the lesson, then decide. */
  function FailureHandled<P, S, W>(env: Env<P, S, W>, l: Ledger<P, S, W>, planned: nat, base: ToolInvocation,
                                   retries: nat, error: ToolError): Config<P, S, W>
  {
    var failure := NewFailure(base.tool, KindOf(error), |l.attempts|);
    var (s1, recorded) := env.store.recordFailure(l.s, failure);
    if recorded.Err? then Done(l.(s := s1), Err(StoreFailed(recorded.error)))
    else
      var (p1, guidance) := env.planner.deriveLesson(l.p, failure);
      var (s2, stored) := env.store.upsertLesson(s1, Lesson(BoundedToolName(base.tool), KindOf(error), guidance));
      var l1 := l.(p := p1, s := s2, failures := l.failures + [failure]);
      if stored.Err? then Done(l1, Err(StoreFailed(stored.error)))
      else AfterFailure(env, l1, planned, base, retries, error)
  }

  /** One iteration of the inner loop. */
  function Tried<P, S, W>(env: Env<P, S, W>, l: Ledger<P, S, W>, planned: nat, base: ToolInvocation, retries: nat)
    : Config<P, S, W>
  {
    var (s1, lessons) := env.store.lessonsForTool(l.s, base.tool);
    if lessons.Err? then Done(l.(s := s1), Err(StoreFailed(lessons.error)))
    else
      var (p1, args) := env.planner.applyLessons(l.p, base.tool, base.args, lessons.value);
      var invocation := ToolInvocation(base.tool, args);
      var (w1, result) := Invoke(env.registry, env.config.gate, l.w, invocation);
      var l1 := l.(p := p1, s := s1, w := w1,
                   attempts := l.attempts + [Attempt(planned, retries, base, invocation, l.w, w1, result)]);
      match result
      case Ok(value) =>
        Planning(l1.(history := l1.history + [StepRecord(|l1.attempts| - 1, invocation, value)]), planned + 1)
      case Err(error) =>
        FailureHandled(env, l1, planned, base, retries, error)
  }

  /** The outer loop's head. */
  function Planned<P, S, W>(env: Env<P, S, W>, l: Ledger<P, S, W>, planned: nat): Config<P, S, W> {
    if |l.attempts| >= env.config.maxSteps then Done(l, Ok(BudgetExhausted))
    else
      var (p1, step) := env.planner.nextStep(l.p, l.history);
      if step.None? then Done(l.(p := p1), Ok(Completed))
      else Trying(l.(p := p1), planned, step.value, 0)
  }

  function Step<P, S, W>(env: Env<P, S, W>, c: Config<P, S, W>): Config<P, S, W>
    requires !c.Done?
  {
    match c
    case Planning(l, planned) => Planned(env, l, planned)
    case Trying(l, planned, base, retries) => Tried(env, l, planned, base, retries)
  }

  ghost function Measure<P, S, W>(env: Env<P, S, W>, c: Config<P, S, W>): int {
    match c
    case Planning(l, _) => 2 * (env.config.maxSteps - |l.attempts|) + 1
    case Trying(l, _, _, _) => 2 * (env.config.maxSteps - |l.attempts|)
    case Done(_, _) => 0
  }

  lemma StepTerminates<P, S, W>(env: Env<P, S, W>, c: Config<P, S, W>)
    requires !c.Done? && WellBudgeted(env, c)
    ensures WellBudgeted(env, Step(env, c))
    ensures !Step(env, c).Done? ==> 0 <= Measure(env, Step(env, c)) < Measure(env, c)
  {
  }

  /** Run to the end. */
  function Finish<P, S, W>(env: Env<P, S, W>, c: Config<P, S, W>): (end: Config<P, S, W>)
    requires WellBudgeted(env, c)
    ensures end.Done?
    decreases !c.Done?, Measure(env, c)
  {
    if c.Done? then c
    else
      StepTerminates(env, c);
      Finish(env, Step(env, c))
  }

  function Start<P, S, W>(p: P, s: S, w: W): Config<P, S, W> {
    Planning(Ledger(p, s, w, [], [], [], 0), 0)
  }

  function RunWithRecovery<P, S, W>(env: Env<P, S, W>, p: P, s: S, w: W): Config<P, S, W> {
    Finish(env, Start(p, s, w))
  }

  // ----- the loops themselves ------------------------------------------------------------

  /** The error arm of the inner loop's body. */
  method HandleFailure<P, S, W>(env: Env<P, S, W>, l0: Ledger<P, S, W>, planned: nat, base: ToolInvocation,
                                completedRetries: nat, error: ToolError) returns (next: Config<P, S, W>)
    ensures next == FailureHandled(env, l0, planned, base, completedRetries, error)
  {
    var l := l0;
    var kind := KindOf(error);
    var failure := NewFailure(base.tool, kind, |l.attempts|);
    var (s1, recorded) := env.store.recordFailure(l.s, failure);
    l := l.(s := s1);
    if recorded.Err? { return Done(l, Err(StoreFailed(recorded.error))); }
    var (p1, guidance) := env.planner.deriveLesson(l.p, failure);
    var (s2, stored) := env.store.upsertLesson(l.s, Lesson(BoundedToolName(base.tool), kind, guidance));
    l := l.(p := p1, s := s2, failures := l.failures + [failure]);
    if stored.Err? { return Done(l, Err(StoreFailed(stored.error))); }
    if kind == UnknownKind { return Done(l, Err(ToolFailed(error))); }
    if !IsRetrySafe(env.registry, base.tool) { return Done(l, Err(ToolFailed(error))); }
    if completedRetries >= env.recovery.maxRetries { return Done(l, Err(ToolFailed(error))); }
    if |l.attempts| >= env.config.maxSteps { return Done(l, Ok(BudgetExhausted)); }
    var delay := DelayBeforeRetry(env.recovery.baseBackoffMs, env.recovery.maxBackoffMs, completedRetries);
    return Trying(l.(sleptMs := l.sleptMs + delay), planned, base, completedRetries + 1);
  }

  /** The two nested loops of the code; `l` gathers its local variables. */
  method RunWithRecoveryLoop<P, S, W>(env: Env<P, S, W>, p0: P, s0: S, w0: W)
    returns (l: Ledger<P, S, W>, result: Result<LoopOutcome, RecoveryError>)
    ensures Done(l, result) == RunWithRecovery(env, p0, s0, w0)
  {
    l := Ledger(p0, s0, w0, [], [], [], 0);
    var attemptsUsed, planned := 0, 0;
    while attemptsUsed < env.config.maxSteps
      invariant attemptsUsed == |l.attempts|
      invariant Finish(env, Planning(l, planned)) == RunWithRecovery(env, p0, s0, w0)
      decreases env.config.maxSteps - attemptsUsed
    {
      ghost var usedBefore := attemptsUsed;
      var (p1, step) := env.planner.nextStep(l.p, l.history);
      l := l.(p := p1);
      if step.None? { return l, Ok(Completed); }
      var base, completedRetries := step.value, 0;
      while true
        invariant usedBefore <= attemptsUsed == |l.attempts| < env.config.maxSteps
        invariant Finish(env, Trying(l, planned, base, completedRetries)) == RunWithRecovery(env, p0, s0, w0)
        decreases env.config.maxSteps - attemptsUsed
      {
        ghost var here := Trying(l, planned, base, completedRetries);
        var (s1, lessons) := env.store.lessonsForTool(l.s, base.tool);
        l := l.(s := s1);
        if lessons.Err? { return l, Err(StoreFailed(lessons.error)); }
        var (p2, args) := env.planner.applyLessons(l.p, base.tool, base.args, lessons.value);
        var invocation := ToolInvocation(base.tool, args);
        attemptsUsed := attemptsUsed + 1;
        var (w1, outcome) := Invoke(env.registry, env.config.gate, l.w, invocation);
        l := l.(p := p2, w := w1,
                attempts := l.attempts + [Attempt(planned, completedRetries, base, invocation, l.w, w1, outcome)]);
        if outcome.Ok? {
          l := l.(history := l.history + [StepRecord(attemptsUsed - 1, invocation, outcome.value)]);
          assert Step(env, here) == Planning(l, planned + 1);
          break;
        }
        var next := HandleFailure(env, l, planned, base, completedRetries, outcome.error);
        assert next == Step(env, here);
        StepTerminates(env, here);
        l := next.ledger;
        if next.Done? { return l, next.result; }
        completedRetries := next.retries;
      }
      planned := planned + 1;
    }
    return l, Ok(BudgetExhausted);
  }
}
