/** How recovering runs relate to plain runs and to one another. */
module RecoveryRefinement {
  import opened Base
  import opened Tools
  import opened AutoLoop
  import opened Recovery

  /** The planner keeps the default `apply_lessons` hook: the arguments stay as planned. */
  ghost predicate KeepsArguments<P(!new)>(planner: Planner<P>) {
    forall p, tool, args, lessons :: planner.applyLessons(p, tool, args, lessons) == (p, args)
  }

  /** The recovering run ended like the plain one: same outcome, history, planner and world, and
      no failure recorded and no delay slept since `l`. */
  ghost predicate EndsLike<P, S, W>(end: Config<P, S, W>, plain: RunEnd<P, W>, l: Ledger<P, S, W>)
    requires end.Done?
  {
    && plain.result.Ok? && end.result == Ok(plain.result.value) && end.ledger.history == plain.history
    && end.ledger.failures == l.failures && end.ledger.sleptMs == l.sleptMs
    && end.ledger.p == plain.planner && end.ledger.w == plain.world
  }

  ghost predicate LostStore<P, S, W>(end: Config<P, S, W>)
    requires end.Done?
  {
    end.result.Err? && end.result.error.StoreFailed?
  }

  ghost predicate LessonReadsSucceed<S(!new)>(store: LessonStore<S>) {
    forall s, tool :: store.lessonsForTool(s, tool).1.Ok?
  }

  /** A first try that succeeds is one plain step. */
  lemma FirstTry<P(!new), S(!new), W>(env: Env<P, S, W>, l: Ledger<P, S, W>, planned: nat, base: ToolInvocation)
    requires KeepsArguments(env.planner) && |l.attempts| == |l.history|
    requires Invoke(env.registry, env.config.gate, l.w, base).1.Ok?
    ensures var next := Tried(env, l, planned, base, 0);
            var (w1, result) := Invoke(env.registry, env.config.gate, l.w, base);
            if next.Done? then LostStore(next) && !LessonReadsSucceed(env.store)
            else && next.Planning? && next.planned == planned + 1
                 && next.ledger.p == l.p && next.ledger.w == w1
                 && next.ledger.history == l.history + [StepRecord(|l.history|, base, result.value)]
                 && |next.ledger.attempts| == |next.ledger.history|
                 && next.ledger.failures == l.failures && next.ledger.sleptMs == l.sleptMs
  {
    var (s1, lessons) := env.store.lessonsForTool(l.s, base.tool);
    if lessons.Ok? {
      assert env.planner.applyLessons(l.p, base.tool, base.args, lessons.value) == (l.p, base.args);
      assert base == ToolInvocation(base.tool, base.args);
    }
  }

  /** From matching states, the recovering loop follows the plain one as long as that succeeds. */
  lemma {:induction false} FollowsPlainRun<P(!new), S(!new), W>(env: Env<P, S, W>, l: Ledger<P, S, W>, planned: nat)
    requires KeepsArguments(env.planner) && |l.attempts| == |l.history|
    requires RunFrom(env.registry, env.config, env.planner, |l.history|, l.p, l.w, l.history).result.Ok?
    ensures var plain := RunFrom(env.registry, env.config, env.planner, |l.history|, l.p, l.w, l.history);
            var end := Finish(env, Planning(l, planned));
            EndsLike(end, plain, l) || (LostStore(end) && !LessonReadsSucceed(env.store))
    decreases env.config.maxSteps - |l.history|
  {
    if |l.attempts| < env.config.maxSteps {
      var (p1, step) := env.planner.nextStep(l.p, l.history);
      if step.Some? {
        var l1 := l.(p := p1);
        var trying := Trying(l1, planned, step.value, 0);
        FirstTry(env, l1, planned, step.value);
        var next := Tried(env, l1, planned, step.value, 0);
        assert Finish(env, Planning(l, planned)) == Finish(env, trying) == Finish(env, next);
        if next.Planning? { FollowsPlainRun(env, next.ledger, planned + 1); }
      }
    }
  }

  /** Refinement: with the default lesson hook, whenever the plain run succeeds the recovering run
      has the same outcome, history, planner and world, never sleeps and records nothing, for
      every budget and retry configuration, unless the store fails to read the lessons. */
  lemma RecoveryRefinesRun<P(!new), S(!new), W>(env: Env<P, S, W>, p: P, s: S, w: W)
    requires KeepsArguments(env.planner)
    requires Run(env.registry, env.config, env.planner, p, w).result.Ok?
    ensures var end := RunWithRecovery(env, p, s, w);
            || EndsLike(end, Run(env.registry, env.config, env.planner, p, w), Start(p, s, w).ledger)
            || (LostStore(end) && !LessonReadsSucceed(env.store))
  {
    FollowsPlainRun(env, Ledger(p, s, w, [], [], [], 0), 0);
  }

  /** Gates that agree on the side-effecting tools take the same step everywhere. */
  lemma GateDeterminesStep<P, S, W(!new)>(env: Env<P, S, W>, other: ApprovalGate, c: Config<P, S, W>)
    requires !c.Done? && SamePermissions(env.registry, env.config.gate, other)
    ensures Step(env, c) == Step(env.(config := env.config.(gate := other)), c)
  {
    if c.Trying? {
      var env' := env.(config := env.config.(gate := other));
      var (s1, lessons) := env.store.lessonsForTool(c.ledger.s, c.base.tool);
      if lessons.Ok? {
        var (p1, args) := env.planner.applyLessons(c.ledger.p, c.base.tool, c.base.args, lessons.value);
        var invocation := ToolInvocation(c.base.tool, args);
        assert Invoke(env.registry, env.config.gate, c.ledger.w, invocation)
                 == Invoke(env.registry, other, c.ledger.w, invocation);
      }
    }
  }

  lemma {:induction false} GateDeterminesFinish<P, S, W(!new)>(
    env: Env<P, S, W>, other: ApprovalGate, c: Config<P, S, W>)
    requires WellBudgeted(env, c) && SamePermissions(env.registry, env.config.gate, other)
    ensures Finish(env, c) == Finish(env.(config := env.config.(gate := other)), c)
    decreases !c.Done?, Measure(env, c)
  {
    if !c.Done? {
      StepTerminates(env, c);
      GateDeterminesStep(env, other, c);
      GateDeterminesFinish(env, other, Step(env, c));
    }
  }

  /** Gates that permit the same side-effecting tools give the same recovering run: outcome,
      history, failures, every attempt, the planner, the store and the world. */
  lemma GateDeterminesRecovery<P, S, W(!new)>(env: Env<P, S, W>, other: ApprovalGate, p: P, s: S, w: W)
    requires SamePermissions(env.registry, env.config.gate, other)
    ensures RunWithRecovery(env, p, s, w) == RunWithRecovery(env.(config := env.config.(gate := other)), p, s, w)
  {
    GateDeterminesFinish(env, other, Start(p, s, w));
  }
}
