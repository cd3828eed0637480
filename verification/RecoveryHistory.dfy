/** Recovering runs told as a chain of attempts: what each attempt asked of the planner, the store and
    the tools, why a run ends, and how long it slept. */
module RecoveryHistory {
  import opened Base
  import opened Tools
  import opened AutoLoop
  import opened Backoff
  import opened Recovery
  import opened RecoveryAccounting
  import Text

  /** Planner, store and world at one moment of a run. */
  datatype Moment<P, S, W> = Moment(p: P, s: S, w: W)

  // ----- one attempt -------------------------------------------------------------------------

  /** The first try of a step asks the planner for it; a retry does not. */
  ghost predicate AskedFor<P, S, W>(env: Env<P, S, W>, a: Attempt<W>, history: seq<StepRecord>, p: P, asked: P) {
    if a.retry == 0 then env.planner.nextStep(p, history) == (asked, Some(a.base)) else asked == p
  }

  /** The lessons for the tool are read, the planner applies them to the planned arguments, and the tool is
      invoked through the gate. */
  ghost predicate Invoked<P, S, W>(env: Env<P, S, W>, a: Attempt<W>, from: Moment<P, S, W>, to: Moment<P, S, W>) {
    var (s, lessons) := env.store.lessonsForTool(from.s, a.base.tool);
    && lessons.Ok? && to.s == s
    && env.planner.applyLessons(from.p, a.base.tool, a.base.args, lessons.value) == (to.p, a.invocation.args)
    && a.invocation.tool == a.base.tool && a.before == from.w && a.after == to.w
    && Invoke(env.registry, env.config.gate, from.w, a.invocation) == (to.w, a.result)
  }

  /** A failure is recorded under its number, and then the planner's lesson about it is stored. */
  ghost predicate Learned<P, S, W>(env: Env<P, S, W>, a: Attempt<W>, number: nat, from: Moment<P, S, W>,
      to: Moment<P, S, W>)
    requires a.result.Err?
  {
    var failure := NewFailure(a.base.tool, KindOf(a.result.error), number);
    var (s, recorded) := env.store.recordFailure(from.s, failure);
    var (p, guidance) := env.planner.deriveLesson(from.p, failure);
    var (after, stored) := env.store.upsertLesson(s, Lesson(failure.tool, failure.kind, guidance));
    recorded.Ok? && stored.Ok? && to == Moment(p, after, from.w)
  }

  /** Attempt `number`, on the record so far, leads from one moment to the next by way of what the planner
      was after asking it and what the call left. */
  ghost predicate StepVia<P, S, W>(env: Env<P, S, W>, a: Attempt<W>, number: nat, history: seq<StepRecord>,
                                   from: Moment<P, S, W>, asked: P, called: Moment<P, S, W>, to: Moment<P, S, W>)
  {
    && AskedFor(env, a, history, from.p, asked)
    && Invoked(env, a, Moment(asked, from.s, from.w), called)
    && if a.result.Ok? then to == called else Learned(env, a, number, called, to)
  }

  ghost predicate AttemptStep<P(!new), S(!new), W(!new)>(
    env: Env<P, S, W>, a: Attempt<W>, number: nat, history: seq<StepRecord>, from: Moment<P, S, W>, to: Moment<P, S, W>)
  {
    exists asked, called :: StepVia(env, a, number, history, from, asked, called, to)
  }

  /** The attempts lead from one moment to another, each on the record of the successes before it. */
  ghost predicate Chain<P(!new), S(!new), W(!new)>(env: Env<P, S, W>, start: Moment<P, S, W>, attempts: seq<Attempt<W>>,
                                                   end: Moment<P, S, W>)
  {
    if attempts == [] then start == end
    else
      var n := |attempts| - 1;
      exists mid ::
        && Chain(env, start, attempts[..n], mid)
        && AttemptStep(env, attempts[n], n + 1, SuccessLog(attempts[..n]), mid, end)
  }

  lemma ChainExtends<P(!new), S(!new), W(!new)>(env: Env<P, S, W>, start: Moment<P, S, W>, attempts: seq<Attempt<W>>,
                                                mid: Moment<P, S, W>, a: Attempt<W>, end: Moment<P, S, W>)
    requires Chain(env, start, attempts, mid)
    requires AttemptStep(env, a, |attempts| + 1, SuccessLog(attempts), mid, end)
    ensures Chain(env, start, attempts + [a], end)
  {
    assert (attempts + [a])[..|attempts|] == attempts;
  }

  // ----- why a run ends ----------------------------------------------------------------------

  /** Some call of the store answered with this message. */
  ghost predicate StoreSaid<S(!new)>(store: LessonStore<S>, message: string) {
    || (exists s, tool :: store.lessonsForTool(s, tool).1 == Err(message))
    || (exists s, failure :: store.recordFailure(s, failure).1 == Err(message))
    || (exists s, lesson :: store.upsertLesson(s, lesson).1 == Err(message))
  }

  /** The last attempt failed with this error, and no retry of it was allowed: the tool is unknown or not
      safe to retry, or its retries are used up. */
  ghost predicate FailedForGood<P, S, W>(env: Env<P, S, W>, attempts: seq<Attempt<W>>, error: ToolError) {
    && attempts != []
    && var last := attempts[|attempts| - 1];
       && last.result == Err(error)
       && ( || error.Unknown? || last.base.tool !in env.registry || !env.registry[last.base.tool].retrySafe
            || last.retry == env.recovery.maxRetries)
  }

  ghost predicate GaveUp<P, S, W>(env: Env<P, S, W>, attempts: seq<Attempt<W>>) {
    && attempts != [] && attempts[|attempts| - 1].result.Err?
    && FailedForGood(env, attempts, attempts[|attempts| - 1].result.error)
  }

  ghost predicate EndsFor<P(!new), S(!new), W(!new)>(env: Env<P, S, W>, start: Moment<P, S, W>, l: Ledger<P, S, W>,
                                                     result: Result<LoopOutcome, RecoveryError>)
  {
    match result
    case Ok(Completed) =>
      && |l.attempts| < env.config.maxSteps
      && exists p :: Chain(env, start, l.attempts, Moment(p, l.s, l.w))
                     && env.planner.nextStep(p, l.history) == (l.p, None)
    case Ok(BudgetExhausted) =>
      && |l.attempts| == env.config.maxSteps && Chain(env, start, l.attempts, Moment(l.p, l.s, l.w))
      && !GaveUp(env, l.attempts)
    case Err(ToolFailed(error)) =>
      FailedForGood(env, l.attempts, error) && Chain(env, start, l.attempts, Moment(l.p, l.s, l.w))
    case Err(StoreFailed(message)) => StoreSaid(env.store, message)
  }

  // ----- the invariant -----------------------------------------------------------------------

  ghost predicate Told<P(!new), S(!new), W(!new)>(env: Env<P, S, W>, start: Moment<P, S, W>, c: Config<P, S, W>) {
    match c
    case Planning(l, _) => Chain(env, start, l.attempts, Moment(l.p, l.s, l.w)) && !GaveUp(env, l.attempts)
    case Trying(l, _, base, retries) =>
      if retries > 0 then Chain(env, start, l.attempts, Moment(l.p, l.s, l.w))
      else exists p :: && Chain(env, start, l.attempts, Moment(p, l.s, l.w))
                       && env.planner.nextStep(p, l.history) == (l.p, Some(base))
    case Done(l, result) => EndsFor(env, start, l, result)
  }

  lemma PlannedIsTold<P(!new), S(!new), W(!new)>(env: Env<P, S, W>, start: Moment<P, S, W>, l: Ledger<P, S, W>,
      planned: nat)
    requires ConfigInv(env, Planning(l, planned)) && Told(env, start, Planning(l, planned))
    ensures Told(env, start, Step(env, Planning(l, planned)))
  {
    if |l.attempts| < env.config.maxSteps {
      var (p1, step) := env.planner.nextStep(l.p, l.history);
      assert Chain(env, start, l.attempts, Moment(l.p, l.s, l.w)) && env.planner.nextStep(l.p, l.history) == (p1, step);
    }
  }

  /** After the failure is recorded and the lesson stored. */
  lemma RecordedIsTold<P(!new), S(!new), W(!new)>(env: Env<P, S, W>, start: Moment<P, S, W>, l: Ledger<P, S, W>,
      planned: nat, base: ToolInvocation, retries: nat, error: ToolError)
    requires JustFailed(env, l, planned, base, retries, error)
    requires Chain(env, start, l.attempts, Moment(l.p, l.s, l.w))
    ensures Told(env, start, AfterFailure(env, l, planned, base, retries, error))
  {
    var a := l.attempts[|l.attempts| - 1];
    assert Genuine(env, a);
    StopsOrRetries(env, l, a, planned, base, error);
  }

  /** What is decided once a failure is on record. */
  lemma StopsOrRetries<P, S, W>(env: Env<P, S, W>, l: Ledger<P, S, W>, a: Attempt<W>, planned: nat,
      base: ToolInvocation, error: ToolError)
    requires 0 < |l.attempts| <= env.config.maxSteps && l.attempts[|l.attempts| - 1] == a
    requires a.result == Err(error) && a.base == base && a.retry <= env.recovery.maxRetries
    ensures match AfterFailure(env, l, planned, base, a.retry, error)
            case Planning(_, _) => false
            case Trying(m, n, b, retries) => m == l.(sleptMs := m.sleptMs) && b == base && retries == a.retry + 1
            case Done(m, result) =>
              && m == l
              && if FailedForGood(env, l.attempts, error) then result == Err(ToolFailed(error))
                 else result == Ok(BudgetExhausted) && |l.attempts| == env.config.maxSteps
  {
  }

  lemma FailureIsTold<P(!new), S(!new), W(!new)>(env: Env<P, S, W>, start: Moment<P, S, W>, mid: Moment<P, S, W>,
      l: Ledger<P, S, W>, before: seq<Attempt<W>>, a: Attempt<W>, asked: P)
    requires a.result.Err? && l.attempts == before + [a]
    requires JustFailed(env, l, a.planned, a.base, a.retry, a.result.error)
    requires Chain(env, start, before, mid) && AskedFor(env, a, SuccessLog(before), mid.p, asked)
    requires Invoked(env, a, Moment(asked, mid.s, mid.w), Moment(l.p, l.s, l.w))
    ensures Told(env, start, FailureHandled(env, l, a.planned, a.base, a.retry, a.result.error))
  {
    var error := a.result.error;
    var called := Moment(l.p, l.s, l.w);
    var failure := NewFailure(a.base.tool, KindOf(error), |l.attempts|);
    var (s1, recorded) := env.store.recordFailure(l.s, failure);
    if recorded.Ok? {
      var (p1, guidance) := env.planner.deriveLesson(l.p, failure);
      var (s2, stored) := env.store.upsertLesson(s1, Lesson(BoundedToolName(a.base.tool), KindOf(error), guidance));
      if stored.Ok? {
        var end := Moment(p1, s2, l.w);
        assert Learned(env, a, |l.attempts|, called, end);
        assert StepVia(env, a, |before| + 1, SuccessLog(before), mid, asked, called, end);
        ChainExtends(env, start, before, mid, a, end);
        RecordedIsTold(env, start, l.(p := p1, s := s2, failures := l.failures + [failure]), a.planned, a.base,
                       a.retry, error);
      }
    }
  }

  lemma SuccessIsTold<P(!new), S(!new), W(!new)>(env: Env<P, S, W>, start: Moment<P, S, W>, mid: Moment<P, S, W>,
      before: seq<Attempt<W>>, a: Attempt<W>, asked: P, called: Moment<P, S, W>)
    requires a.result.Ok? && Chain(env, start, before, mid)
    requires AskedFor(env, a, SuccessLog(before), mid.p, asked)
    requires Invoked(env, a, Moment(asked, mid.s, mid.w), called)
    ensures Chain(env, start, before + [a], called) && !GaveUp(env, before + [a])
  {
    assert StepVia(env, a, |before| + 1, SuccessLog(before), mid, asked, called, called);
    ChainExtends(env, start, before, mid, a, called);
  }

  /** The call that a try makes, and what becomes of the run. */
  lemma TryCalls<P(!new), S(!new), W(!new)>(env: Env<P, S, W>, start: Moment<P, S, W>, l: Ledger<P, S, W>, planned: nat,
      base: ToolInvocation, retries: nat) returns (a: Attempt<W>, mid: Moment<P, S, W>, called: Moment<P, S, W>)
    requires Told(env, start, Trying(l, planned, base, retries)) && l.history == SuccessLog(l.attempts)
    requires env.store.lessonsForTool(l.s, base.tool).1.Ok?
    ensures Chain(env, start, l.attempts, mid) && AskedFor(env, a, SuccessLog(l.attempts), mid.p, l.p)
    ensures Invoked(env, a, Moment(l.p, mid.s, mid.w), called)
    ensures a.planned == planned && a.base == base && a.retry == retries && a.before == l.w
    ensures Tried(env, l, planned, base, retries)
            == Called(env, l.(p := called.p, s := called.s, w := called.w, attempts := l.attempts + [a]), a)
  {
    mid := StartOfTry(env, start, l, planned, base, retries);
    var (s1, lessons) := env.store.lessonsForTool(l.s, base.tool);
    var (p1, args) := env.planner.applyLessons(l.p, base.tool, base.args, lessons.value);
    var invocation := ToolInvocation(base.tool, args);
    var (w1, result) := Invoke(env.registry, env.config.gate, l.w, invocation);
    a := Attempt(planned, retries, base, invocation, l.w, w1, result);
    called := Moment(p1, s1, w1);
  }

  /** The configuration after attempt `a`, the last of the ledger. */
  ghost function Called<P, S, W>(env: Env<P, S, W>, l: Ledger<P, S, W>, a: Attempt<W>): Config<P, S, W>
    requires l.attempts != []
  {
    match a.result
    case Ok(value) =>
      Planning(l.(history := l.history + [StepRecord(|l.attempts| - 1, a.invocation, value)]), a.planned + 1)
    case Err(error) => FailureHandled(env, l, a.planned, a.base, a.retry, error)
  }

  lemma TriedIsTold<P(!new), S(!new), W(!new)>(env: Env<P, S, W>, start: Moment<P, S, W>, l: Ledger<P, S, W>,
      planned: nat, base: ToolInvocation, retries: nat)
    requires ConfigInv(env, Trying(l, planned, base, retries)) && Told(env, start, Trying(l, planned, base, retries))
    ensures Told(env, start, Tried(env, l, planned, base, retries))
  {
    if env.store.lessonsForTool(l.s, base.tool).1.Ok? {
      var a, mid, called := TryCalls(env, start, l, planned, base, retries);
      var next := l.(p := called.p, s := called.s, w := called.w, attempts := l.attempts + [a]);
      if a.result.Ok? {
        SuccessIsTold(env, start, mid, l.attempts, a, l.p, called);
      } else {
        LogsExtend(l.attempts, a);
        OrderlyExtends(env, l, a);
        FailureIsTold(env, start, mid, next, l.attempts, a, l.p);
      }
    }
  }

  /** The moment at which a try's step was still to be asked for, or its retry to begin. */
  lemma StartOfTry<P(!new), S(!new), W(!new)>(env: Env<P, S, W>, start: Moment<P, S, W>, l: Ledger<P, S, W>,
      planned: nat, base: ToolInvocation, retries: nat) returns (mid: Moment<P, S, W>)
    requires Told(env, start, Trying(l, planned, base, retries))
    ensures Chain(env, start, l.attempts, mid) && mid.s == l.s && mid.w == l.w
    ensures if retries > 0 then mid.p == l.p else env.planner.nextStep(mid.p, l.history) == (l.p, Some(base))
  {
    if retries > 0 {
      mid := Moment(l.p, l.s, l.w);
    } else {
      var p :| && Chain(env, start, l.attempts, Moment(p, l.s, l.w))
               && env.planner.nextStep(p, l.history) == (l.p, Some(base));
      mid := Moment(p, l.s, l.w);
    }
  }

  lemma {:induction false} FinishIsTold<P(!new), S(!new), W(!new)>(env: Env<P, S, W>, start: Moment<P, S, W>,
      c: Config<P, S, W>)
    requires WellBudgeted(env, c) && ConfigInv(env, c) && Told(env, start, c)
    ensures Told(env, start, Finish(env, c))
    decreases !c.Done?, Measure(env, c)
  {
    if !c.Done? {
      StepTerminates(env, c);
      StepKeepsConfigInv(env, c);
      if c.Trying? {
        TriedIsTold(env, start, c.ledger, c.planned, c.base, c.retries);
      } else {
        PlannedIsTold(env, start, c.ledger, c.planned);
      }
      FinishIsTold(env, start, Step(env, c));
    }
  }

  /** Every run is a chain of attempts from where it started, and ends for a reason that can be seen: the
      planner has nothing more within the budget, the budget is used up, the last attempt failed for good,
      or the store said so. */
  lemma RunIsChained<P(!new), S(!new), W(!new)>(env: Env<P, S, W>, p: P, s: S, w: W)
    ensures var end := RunWithRecovery(env, p, s, w);
            end.Done? && EndsFor(env, Moment(p, s, w), end.ledger, end.result)
  {
    FinishIsTold(env, Moment(p, s, w), Start(p, s, w));
  }

  /** A retry that is allowed and affordable happens: a failed attempt of a retry-safe tool, other than for
      an unknown tool, with retries and budget left, is followed by the next attempt of the same step. */
  lemma AllowedRetriesHappen<P(!new), S(!new), W(!new)>(env: Env<P, S, W>, p: P, s: S, w: W, i: nat)
    requires var end := RunWithRecovery(env, p, s, w);
             && i < |end.ledger.attempts| && !(end.result.Err? && end.result.error.StoreFailed?)
    requires var a := RunWithRecovery(env, p, s, w).ledger.attempts[i];
             && a.result.Err? && !a.result.error.Unknown? && IsRetrySafe(env.registry, a.base.tool)
             && a.retry < env.recovery.maxRetries
    requires i + 1 < env.config.maxSteps
    ensures var attempts := RunWithRecovery(env, p, s, w).ledger.attempts;
            && i + 1 < |attempts| && attempts[i + 1].planned == attempts[i].planned
            && attempts[i + 1].retry == attempts[i].retry + 1 && attempts[i + 1].base == attempts[i].base
  {
    RunIsChained(env, p, s, w);
    RunIsAccounted(env, p, s, w);
    var end := RunWithRecovery(env, p, s, w);
    if i + 1 < |end.ledger.attempts| {
      assert Follows(env, end.ledger.attempts[i], end.ledger.attempts[i + 1]);
    } else {
      LastSucceeds(env, p, s, w);
    }
  }

  /** A run that the planner ends does not end on a failure. */
  lemma LastSucceeds<P, S, W>(env: Env<P, S, W>, p: P, s: S, w: W)
    requires RunWithRecovery(env, p, s, w).result == Ok(Completed)
    ensures var attempts := RunWithRecovery(env, p, s, w).ledger.attempts;
            attempts != [] ==> attempts[|attempts| - 1].result.Ok?
  {
    FinishOnSuccess(env, Start(p, s, w));
  }

  ghost predicate CompletesOnSuccess<P, S, W>(c: Config<P, S, W>) {
    c.Done? && c.result == Ok(Completed) && c.ledger.attempts != [] ==>
      c.ledger.attempts[|c.ledger.attempts| - 1].result.Ok?
  }

  lemma StepOnSuccess<P, S, W>(env: Env<P, S, W>, c: Config<P, S, W>)
    requires !c.Done? && ConfigInv(env, c)
    ensures CompletesOnSuccess(Step(env, c))
  {
  }

  lemma {:induction false} FinishOnSuccess<P, S, W>(env: Env<P, S, W>, c: Config<P, S, W>)
    requires WellBudgeted(env, c) && ConfigInv(env, c) && CompletesOnSuccess(c)
    ensures CompletesOnSuccess(Finish(env, c))
    decreases !c.Done?, Measure(env, c)
  {
    if !c.Done? {
      StepTerminates(env, c);
      StepKeepsConfigInv(env, c);
      StepOnSuccess(env, c);
      FinishOnSuccess(env, Step(env, c));
    }
  }

  // ----- sleep ---------------------------------------------------------------------------------

  /** The pause before retry number `retry`: the first waits the base, each further one twice as long, up to
      the cap. */
  ghost function Pause(recovery: RecoveryConfig, retry: nat): nat {
    if retry == 0 then 0 else Min(recovery.baseBackoffMs * Pow2(retry - 1), recovery.maxBackoffMs)
  }

  ghost function SleepOf<W>(recovery: RecoveryConfig, attempts: seq<Attempt<W>>): nat {
    if attempts == [] then 0
    else SleepOf(recovery, attempts[..|attempts| - 1]) + Pause(recovery, attempts[|attempts| - 1].retry)
  }

  /** The durations fit in 64 bits, as their type has it. */
  predicate Fits(recovery: RecoveryConfig) {
    recovery.baseBackoffMs <= U64_MAX && recovery.maxBackoffMs <= U64_MAX
  }

  /** The sleep so far is that of the attempts, and of the retry about to begin. */
  ghost predicate Slept<P, S, W>(env: Env<P, S, W>, c: Config<P, S, W>) {
    match c
    case Planning(l, _) => l.sleptMs == SleepOf(env.recovery, l.attempts)
    case Trying(l, _, _, retries) => l.sleptMs == SleepOf(env.recovery, l.attempts) + Pause(env.recovery, retries)
    case Done(l, result) => (result.Err? && result.error.StoreFailed?) || l.sleptMs == SleepOf(env.recovery, l.attempts)
  }

  lemma SleepExtends<W>(recovery: RecoveryConfig, attempts: seq<Attempt<W>>, a: Attempt<W>)
    ensures SleepOf(recovery, attempts + [a]) == SleepOf(recovery, attempts) + Pause(recovery, a.retry)
  {
    assert (attempts + [a])[..|attempts|] == attempts;
  }

  lemma FailureKeepsSlept<P, S, W>(env: Env<P, S, W>, l: Ledger<P, S, W>, planned: nat, base: ToolInvocation,
      retries: nat, error: ToolError)
    requires Fits(env.recovery) && l.sleptMs == SleepOf(env.recovery, l.attempts)
    ensures Slept(env, FailureHandled(env, l, planned, base, retries, error))
  {
    BackoffIsExact(env.recovery.baseBackoffMs, env.recovery.maxBackoffMs, retries);
  }

  lemma StepKeepsSlept<P, S, W>(env: Env<P, S, W>, c: Config<P, S, W>)
    requires !c.Done? && Fits(env.recovery) && Slept(env, c)
    ensures Slept(env, Step(env, c))
  {
    if c.Trying? {
      var l := c.ledger;
      var (s1, lessons) := env.store.lessonsForTool(l.s, c.base.tool);
      if lessons.Ok? {
        var (p1, args) := env.planner.applyLessons(l.p, c.base.tool, c.base.args, lessons.value);
        var invocation := ToolInvocation(c.base.tool, args);
        var (w1, result) := Invoke(env.registry, env.config.gate, l.w, invocation);
        var a := Attempt(c.planned, c.retries, c.base, invocation, l.w, w1, result);
        SleepExtends(env.recovery, l.attempts, a);
        if result.Err? {
          FailureKeepsSlept(env, l.(p := p1, s := s1, w := w1, attempts := l.attempts + [a]), c.planned, c.base,
                            c.retries, result.error);
        }
      }
    }
  }

  lemma {:induction false} FinishKeepsSlept<P, S, W>(env: Env<P, S, W>, c: Config<P, S, W>)
    requires WellBudgeted(env, c) && Fits(env.recovery) && Slept(env, c)
    ensures Slept(env, Finish(env, c))
    decreases !c.Done?, Measure(env, c)
  {
    if !c.Done? {
      StepTerminates(env, c);
      StepKeepsSlept(env, c);
      FinishKeepsSlept(env, Step(env, c));
    }
  }

  /** A run not cut short by the store has slept exactly before its retries: min(base * 2^k, cap) before the
      attempt numbered k + 1 of each step, and never else. */
  lemma SleepIsExact<P, S, W>(env: Env<P, S, W>, p: P, s: S, w: W)
    requires Fits(env.recovery)
    ensures var end := RunWithRecovery(env, p, s, w);
            (end.result.Err? && end.result.error.StoreFailed?)
            || end.ledger.sleptMs == SleepOf(env.recovery, end.ledger.attempts)
  {
    FinishKeepsSlept(env, Start(p, s, w));
  }

  // ----- what the records say ------------------------------------------------------------------

  /** A record names the kind of the error and the tool. */
  ghost predicate Names<W>(f: FailureEvent, a: Attempt<W>) {
    && a.result.Err?
    && (f.kind.BadArgsKind? <==> a.result.error.BadArgs?)
    && (f.kind.FailedKind? <==> a.result.error.Failed?)
    && (f.kind.UnknownKind? <==> a.result.error.Unknown?)
    && f.tool == BoundedToolName(a.base.tool)
  }

  lemma {:induction false} RecordsName<W>(attempts: seq<Attempt<W>>, i: nat)
    requires i < |FailureLog(attempts)|
    ensures i < |FailedNumbers(attempts)| && 1 <= FailedNumbers(attempts)[i] <= |attempts|
    ensures Names(FailureLog(attempts)[i], attempts[FailedNumbers(attempts)[i] - 1])
  {
    RecordsMatchFailures(attempts);
    var n := |attempts| - 1;
    RecordsMatchFailures(attempts[..n]);
    if i < |FailureLog(attempts[..n])| {
      RecordsName(attempts[..n], i);
    }
  }

  /** In every run not cut short by the store, the i-th record names the error and the tool of the i-th
      failed attempt. */
  lemma RecordsNameErrors<P, S, W>(env: Env<P, S, W>, p: P, s: S, w: W, i: nat)
    requires var end := RunWithRecovery(env, p, s, w);
             !(end.result.Err? && end.result.error.StoreFailed?) && i < |end.ledger.failures|
    ensures var l := RunWithRecovery(env, p, s, w).ledger;
            && i < |FailedNumbers(l.attempts)| && 1 <= FailedNumbers(l.attempts)[i] <= |l.attempts|
            && Names(l.failures[i], l.attempts[FailedNumbers(l.attempts)[i] - 1])
  {
    RunIsAccounted(env, p, s, w);
    RecordsName(RunWithRecovery(env, p, s, w).ledger.attempts, i);
  }

  /** A tool name is recorded without the white space around it, cut to its first 128 characters; a blank
      one is recorded as unknown. */
  lemma BoundedNameKeeps(before: string, name: string, after: string)
    requires Text.IsBlank(before) && Text.IsBlank(after)
    ensures BoundedToolName(before) == "unknown"
    ensures name != [] && !Text.IsWhitespace(name[0]) && !Text.IsWhitespace(name[|name| - 1]) ==>
              BoundedToolName(before + name + after) == if |name| <= 128 then name else name[..128]
  {
    Text.TrimEmptyIffBlank(before);
    if name != [] && !Text.IsWhitespace(name[0]) && !Text.IsWhitespace(name[|name| - 1]) {
      Text.TrimMeaning(before, name, after);
    }
  }
}
