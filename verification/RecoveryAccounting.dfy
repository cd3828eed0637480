/** What every recovering run keeps: the audit trail, the history and the durable failure records
    account for each invocation exactly once, and retries stay within their rules. */
module RecoveryAccounting {
  import opened Base
  import opened Tools
  import opened AutoLoop
  import opened Backoff
  import opened Recovery

  // ----- what the records should say, read off the audit trail ----------------------------

  /** The step records of the successful attempts. */
  ghost function SuccessLog<W>(attempts: seq<Attempt<W>>): seq<StepRecord> {
    if attempts == [] then []
    else
      var n := |attempts| - 1;
      SuccessLog(attempts[..n]) +
      if attempts[n].result.Ok? then [StepRecord(n, attempts[n].invocation, attempts[n].result.value)] else []
  }

  /** The one-based numbers of the failed attempts. */
  ghost function FailedNumbers<W>(attempts: seq<Attempt<W>>): seq<nat> {
    if attempts == [] then []
    else
      var n := |attempts| - 1;
      FailedNumbers(attempts[..n]) + if attempts[n].result.Err? then [n + 1] else []
  }

  /** The failure events of the failed attempts. */
  ghost function FailureLog<W>(attempts: seq<Attempt<W>>): seq<FailureEvent> {
    if attempts == [] then []
    else
      var n := |attempts| - 1;
      FailureLog(attempts[..n]) +
      if attempts[n].result.Err?
      then [NewFailure(attempts[n].base.tool, KindOf(attempts[n].result.error), n + 1)] else []
  }

  ghost predicate Retryable<P, S, W>(env: Env<P, S, W>, a: Attempt<W>) {
    && a.result.Err? && KindOf(a.result.error) != UnknownKind
    && IsRetrySafe(env.registry, a.base.tool)
  }

  /** An attempt is a gated invocation of its step's tool, within the retry bound. */
  ghost predicate Genuine<P, S, W>(env: Env<P, S, W>, a: Attempt<W>) {
    && a.invocation.tool == a.base.tool
    && a.retry <= env.recovery.maxRetries
    && (a.after, a.result) == Invoke(env.registry, env.config.gate, a.before, a.invocation)
  }

  /** `b` directly follows `a`: it retries the same step after a retryable failure, or starts the
      next step after a success. */
  ghost predicate Follows<P, S, W>(env: Env<P, S, W>, a: Attempt<W>, b: Attempt<W>) {
    if b.retry > 0
    then b.planned == a.planned && b.retry == a.retry + 1 && b.base == a.base && Retryable(env, a)
    else b.planned == a.planned + 1 && a.result.Ok?
  }

  ghost predicate Orderly<P, S, W>(env: Env<P, S, W>, attempts: seq<Attempt<W>>) {
    && (forall i :: 0 <= i < |attempts| ==> Genuine(env, attempts[i]))
    && (attempts != [] ==> attempts[0].planned == 0 && attempts[0].retry == 0)
    && (forall i :: 0 < i < |attempts| ==> Follows(env, attempts[i - 1], attempts[i]))
  }

  /** n * cap, step by step. */
  ghost function SleepBound(n: nat, cap: nat): nat {
    if n == 0 then 0 else SleepBound(n - 1, cap) + cap
  }

  lemma {:induction false} SleepBoundIsProduct(n: nat, cap: nat)
    ensures SleepBound(n, cap) == n * cap
  {
    if n > 0 { SleepBoundIsProduct(n - 1, cap); }
  }

  ghost predicate Accounted<P, S, W>(env: Env<P, S, W>, l: Ledger<P, S, W>) {
    && |l.attempts| <= env.config.maxSteps
    && Orderly(env, l.attempts)
    && l.history == SuccessLog(l.attempts)
    && l.sleptMs <= SleepBound(|l.attempts|, env.recovery.maxBackoffMs)
  }

  /** The next attempt of step `planned`, numbered `retries`, may follow. */
  ghost predicate MayFollow<P, S, W>(env: Env<P, S, W>, l: Ledger<P, S, W>, planned: nat, base: ToolInvocation,
      retries: nat) {
    && retries <= env.recovery.maxRetries
    && if l.attempts == [] then planned == 0 && retries == 0
       else var a := l.attempts[|l.attempts| - 1];
            if retries > 0
            then planned == a.planned && retries == a.retry + 1 && base == a.base && Retryable(env, a)
            else planned == a.planned + 1 && a.result.Ok?
  }

  ghost predicate ConfigInv<P, S, W>(env: Env<P, S, W>, c: Config<P, S, W>) {
    && Accounted(env, c.ledger)
    && match c
       case Planning(l, planned) =>
         l.failures == FailureLog(l.attempts) && MayFollow(env, l, planned, ToolInvocation("", Null), 0)
       case Trying(l, planned, base, retries) =>
         && |l.attempts| < env.config.maxSteps
         && l.failures == FailureLog(l.attempts) && MayFollow(env, l, planned, base, retries)
       case Done(l, result) =>
         (result.Err? && result.error.StoreFailed?) || l.failures == FailureLog(l.attempts)
  }

  // ----- every step keeps it -----------------------------------------------------------------

  lemma LogsExtend<W>(attempts: seq<Attempt<W>>, a: Attempt<W>)
    ensures SuccessLog(attempts + [a]) == SuccessLog(attempts) +
            if a.result.Ok? then [StepRecord(|attempts|, a.invocation, a.result.value)] else []
    ensures FailureLog(attempts + [a]) == FailureLog(attempts) +
            if a.result.Err? then [NewFailure(a.base.tool, KindOf(a.result.error), |attempts| + 1)] else []
    ensures FailedNumbers(attempts + [a]) == FailedNumbers(attempts) + if a.result.Err? then [|attempts| + 1] else []
  {
    assert (attempts + [a])[..|attempts|] == attempts;
  }

  lemma OrderlyExtends<P, S, W>(env: Env<P, S, W>, l: Ledger<P, S, W>, a: Attempt<W>)
    requires Orderly(env, l.attempts) && Genuine(env, a)
    requires MayFollow(env, l, a.planned, a.base, a.retry)
    ensures Orderly(env, l.attempts + [a])
  {
  }

  /** The last attempt failed with `error`; the delay before a retry is not yet slept. */
  ghost predicate JustFailed<P, S, W>(env: Env<P, S, W>, l: Ledger<P, S, W>, planned: nat, base: ToolInvocation,
                                      retries: nat, error: ToolError)
  {
    && 0 < |l.attempts| <= env.config.maxSteps && Orderly(env, l.attempts)
    && l.history == SuccessLog(l.attempts)
    && l.sleptMs <= SleepBound(|l.attempts| - 1, env.recovery.maxBackoffMs)
    && var a := l.attempts[|l.attempts| - 1];
       a.planned == planned && a.base == base && a.retry == retries && a.result == Err(error)
  }

  lemma AfterFailureKeepsInv<P, S, W>(env: Env<P, S, W>, l: Ledger<P, S, W>, planned: nat, base: ToolInvocation,
                                      retries: nat, error: ToolError)
    requires JustFailed(env, l, planned, base, retries, error) && l.failures == FailureLog(l.attempts)
    ensures ConfigInv(env, AfterFailure(env, l, planned, base, retries, error))
  {
    var next := AfterFailure(env, l, planned, base, retries, error);
    if next.Trying? {
      assert next.ledger.attempts == l.attempts;
      assert next.ledger.sleptMs <= l.sleptMs + env.recovery.maxBackoffMs;
    } else {
      assert next.ledger == l;
    }
  }

  lemma FailureHandledKeepsInv<P, S, W>(env: Env<P, S, W>, l: Ledger<P, S, W>, planned: nat, base: ToolInvocation,
                                        retries: nat, error: ToolError)
    requires JustFailed(env, l, planned, base, retries, error)
    requires l.failures + [NewFailure(base.tool, KindOf(error), |l.attempts|)] == FailureLog(l.attempts)
    ensures ConfigInv(env, FailureHandled(env, l, planned, base, retries, error))
  {
    var failure := NewFailure(base.tool, KindOf(error), |l.attempts|);
    var (s1, recorded) := env.store.recordFailure(l.s, failure);
    if recorded.Ok? {
      var (p1, guidance) := env.planner.deriveLesson(l.p, failure);
      var (s2, stored) := env.store.upsertLesson(s1, Lesson(BoundedToolName(base.tool), KindOf(error), guidance));
      AfterFailureKeepsInv(env, l.(p := p1, s := s2, failures := l.failures + [failure]),
                           planned, base, retries, error);
    }
  }

  lemma TriedKeepsInv<P, S, W>(env: Env<P, S, W>, l: Ledger<P, S, W>, planned: nat, base: ToolInvocation, retries: nat)
    requires ConfigInv(env, Trying(l, planned, base, retries))
    ensures ConfigInv(env, Tried(env, l, planned, base, retries))
  {
    var (s1, lessons) := env.store.lessonsForTool(l.s, base.tool);
    if lessons.Ok? {
      var (p1, args) := env.planner.applyLessons(l.p, base.tool, base.args, lessons.value);
      var invocation := ToolInvocation(base.tool, args);
      var (w1, result) := Invoke(env.registry, env.config.gate, l.w, invocation);
      var a := Attempt(planned, retries, base, invocation, l.w, w1, result);
      LogsExtend(l.attempts, a);
      OrderlyExtends(env, l, a);
      var l1 := l.(p := p1, s := s1, w := w1, attempts := l.attempts + [a]);
      if result.Err? {
        FailureHandledKeepsInv(env, l1, planned, base, retries, result.error);
      }
    }
  }

  lemma StepKeepsConfigInv<P, S, W>(env: Env<P, S, W>, c: Config<P, S, W>)
    requires !c.Done? && WellBudgeted(env, c) && ConfigInv(env, c)
    ensures ConfigInv(env, Step(env, c))
  {
    if c.Trying? { TriedKeepsInv(env, c.ledger, c.planned, c.base, c.retries); }
  }

  lemma {:induction false} FinishKeepsInv<P, S, W>(env: Env<P, S, W>, c: Config<P, S, W>)
    requires WellBudgeted(env, c) && ConfigInv(env, c)
    ensures ConfigInv(env, Finish(env, c))
    decreases !c.Done?, Measure(env, c)
  {
    if !c.Done? {
      StepTerminates(env, c);
      StepKeepsConfigInv(env, c);
      FinishKeepsInv(env, Step(env, c));
    }
  }

  /** Every run ends with its ledger accounted for. */
  lemma RunIsAccounted<P, S, W>(env: Env<P, S, W>, p: P, s: S, w: W)
    ensures ConfigInv(env, RunWithRecovery(env, p, s, w))
  {
    FinishKeepsInv(env, Start(p, s, w));
  }

  // ----- the accounting theorem ----------------------------------------------------------

  ghost function HistoryNumbers(history: seq<StepRecord>): set<nat> {
    set h | h in history :: h.step + 1
  }

  ghost function RecordedNumbers(failures: seq<FailureEvent>): set<nat> {
    set f | f in failures :: f.attempt
  }

  ghost function NumbersUpTo(n: nat): set<nat> {
    Interval(1, n)
  }

  lemma HistoryNumbersExtend(history: seq<StepRecord>, record: StepRecord)
    ensures HistoryNumbers(history + [record]) == HistoryNumbers(history) + {record.step + 1}
  {
    assert record in history + [record];
    assert forall h :: h in history + [record] <==> h in history || h == record;
  }

  /** Every number from 1 to `n` is in exactly one of the two sets, and nothing else is. */
  ghost predicate Splits(a: set<nat>, b: set<nat>, n: nat) {
    a !! b && a + b == NumbersUpTo(n)
  }

  lemma SplitsExtend(a: set<nat>, b: set<nat>, n: nat)
    requires Splits(a, b, n)
    ensures Splits(a + {n + 1}, b, n + 1) && Splits(a, b + {n + 1}, n + 1)
  {
    assert n + 1 !in NumbersUpTo(n);
  }

  lemma SuccessExtends(wins: seq<StepRecord>, losses: seq<nat>, n: nat, record: StepRecord)
    requires Splits(HistoryNumbers(wins), ElementsOf(losses), n) && record.step == n
    ensures Splits(HistoryNumbers(wins + [record]), ElementsOf(losses), n + 1)
  {
    SplitsExtend(HistoryNumbers(wins), ElementsOf(losses), n);
    HistoryNumbersExtend(wins, record);
  }

  lemma FailureExtends(wins: seq<StepRecord>, losses: seq<nat>, n: nat)
    requires Splits(HistoryNumbers(wins), ElementsOf(losses), n)
    ensures Splits(HistoryNumbers(wins), ElementsOf(losses + [n + 1]), n + 1)
  {
    SplitsExtend(HistoryNumbers(wins), ElementsOf(losses), n);
    ElementsAppend(losses, n + 1);
  }

  /** Successes and failures split the attempt numbers. */
  lemma {:induction false} LogsPartition<W>(attempts: seq<Attempt<W>>)
    ensures Splits(HistoryNumbers(SuccessLog(attempts)), ElementsOf(FailedNumbers(attempts)), |attempts|)
    ensures |SuccessLog(attempts)| + |FailedNumbers(attempts)| == |attempts|
  {
    if attempts != [] {
      var n := |attempts| - 1;
      var init, a := attempts[..n], attempts[n];
      LogsPartition(init);
      match a.result {
        case Ok(value) =>
          SuccessExtends(SuccessLog(init), FailedNumbers(init), n, StepRecord(n, a.invocation, value));
          assert FailedNumbers(attempts) == FailedNumbers(init);
        case Err(_) =>
          FailureExtends(SuccessLog(init), FailedNumbers(init), n);
          assert SuccessLog(attempts) == SuccessLog(init);
      }
    }
  }

  /** The durable records carry the failed attempts' numbers, clamped to 32 bits. */
  lemma {:induction false} RecordsMatchFailures<W>(attempts: seq<Attempt<W>>)
    ensures |FailureLog(attempts)| == |FailedNumbers(attempts)|
    ensures forall i :: 0 <= i < |FailureLog(attempts)| ==>
              && 1 <= FailedNumbers(attempts)[i] <= |attempts|
              && FailureLog(attempts)[i].attempt == RecordedAttempt(FailedNumbers(attempts)[i])
  {
    if attempts != [] { RecordsMatchFailures(attempts[..|attempts| - 1]); }
  }

  /** A record carries its true attempt number exactly when that number fits in 32 bits. */
  lemma RecordIsExactIffFits(attempt: nat)
    requires attempt >= 1
    ensures RecordedAttempt(attempt) == attempt <==> attempt <= U32_MAX
  {
  }

  /** In every run that returns Ok: at most `max_steps` invocations; the history's step numbers
      plus one and the failed attempts' numbers split 1..attempts_used; the failures are recorded
      in order, under their own numbers exactly as far as 32 bits reach. */
  lemma RecoveryAccountingTheorem<P, S, W>(env: Env<P, S, W>, p: P, s: S, w: W)
    requires RunWithRecovery(env, p, s, w).result.Ok?
    ensures var l := RunWithRecovery(env, p, s, w).ledger;
            var failed := FailedNumbers(l.attempts);
            && |l.attempts| <= env.config.maxSteps
            && Splits(HistoryNumbers(l.history), ElementsOf(failed), |l.attempts|)
            && |l.history| + |l.failures| == |l.attempts|
            && |l.failures| == |failed|
            && (forall i :: 0 <= i < |failed| ==> l.failures[i].attempt == RecordedAttempt(failed[i]))
            && (forall i :: 0 <= i < |failed| ==> (l.failures[i].attempt == failed[i] <==> failed[i] <= U32_MAX))
  {
    RunIsAccounted(env, p, s, w);
    var l := RunWithRecovery(env, p, s, w).ledger;
    LogsPartition(l.attempts);
    RecordsMatchFailures(l.attempts);
  }

  lemma RecordedNumbersAre(failures: seq<FailureEvent>, failed: seq<nat>)
    requires |failures| == |failed| && forall i :: 0 <= i < |failed| ==> failures[i].attempt == failed[i]
    ensures RecordedNumbers(failures) == ElementsOf(failed)
  {
    forall k | k in failed ensures k in RecordedNumbers(failures) {
      var i :| 0 <= i < |failed| && failed[i] == k;
      assert failures[i] in failures;
    }
  }

  /** With a budget that fits in 32 bits the durable records themselves complete the history. */
  lemma RecordsCompleteHistory<P, S, W>(env: Env<P, S, W>, p: P, s: S, w: W)
    requires RunWithRecovery(env, p, s, w).result.Ok? && env.config.maxSteps <= U32_MAX
    ensures var l := RunWithRecovery(env, p, s, w).ledger;
            Splits(HistoryNumbers(l.history), RecordedNumbers(l.failures), |l.attempts|)
  {
    RecoveryAccountingTheorem(env, p, s, w);
    var l := RunWithRecovery(env, p, s, w).ledger;
    RecordsMatchFailures(l.attempts);
    RecordedNumbersAre(l.failures, FailedNumbers(l.attempts));
  }

  // ----- retries -------------------------------------------------------------------------

  /** Within one planned step the attempts are consecutive and invoke one tool. */
  lemma {:induction false} StepAttemptsAreConsecutive<P, S, W>(env: Env<P, S, W>, attempts: seq<Attempt<W>>, i: nat,
      j: nat)
    requires Orderly(env, attempts) && i <= j < |attempts|
    ensures attempts[i].planned <= attempts[j].planned
    ensures attempts[i].planned == attempts[j].planned ==>
              && attempts[j].retry == attempts[i].retry + (j - i)
              && attempts[j].invocation.tool == attempts[i].invocation.tool
    decreases j
  {
    if i < j {
      StepAttemptsAreConsecutive(env, attempts, i, j - 1);
      assert Follows(env, attempts[j - 1], attempts[j]);
      assert Genuine(env, attempts[j]) && Genuine(env, attempts[j - 1]);
    }
  }

  ghost function AttemptsOf<W>(attempts: seq<Attempt<W>>, planned: nat): set<nat> {
    set i: nat | i < |attempts| && attempts[i].planned == planned
  }

  /** In every run, whatever its end: each planned step is invoked at most max_retries + 1 times,
      always under the same tool name. */
  lemma StepAttemptsAreBounded<P, S, W>(env: Env<P, S, W>, p: P, s: S, w: W, planned: nat)
    ensures var attempts := RunWithRecovery(env, p, s, w).ledger.attempts;
            && |AttemptsOf(attempts, planned)| <= env.recovery.maxRetries + 1
            && forall i, j :: i in AttemptsOf(attempts, planned) && j in AttemptsOf(attempts, planned)
                              ==> attempts[i].invocation.tool == attempts[j].invocation.tool
  {
    RunIsAccounted(env, p, s, w);
    var attempts := RunWithRecovery(env, p, s, w).ledger.attempts;
    var ours := AttemptsOf(attempts, planned);
    if f :| f in ours {
      forall i | i in ours
        ensures i - attempts[i].retry == f - attempts[f].retry
                  && attempts[i].invocation.tool == attempts[f].invocation.tool
        ensures attempts[i].retry <= env.recovery.maxRetries
      {
        StepAttemptsAreConsecutive(env, attempts, if i <= f then i else f, if i <= f then f else i);
        assert Genuine(env, attempts[i]);
      }
      RetryIsOffset(env, attempts, f);
      var lo := f - attempts[f].retry;
      SubsetSize(ours, Interval(lo, env.recovery.maxRetries + 1));
    }
  }

  lemma {:induction false} RetryIsOffset<P, S, W>(env: Env<P, S, W>, attempts: seq<Attempt<W>>, i: nat)
    requires Orderly(env, attempts) && i < |attempts|
    ensures attempts[i].retry <= i
  {
    if i > 0 {
      RetryIsOffset(env, attempts, i - 1);
      assert Follows(env, attempts[i - 1], attempts[i]);
    }
  }

  /** In every run, whatever its end: a retry directly follows a BadArgs or Failed error of the same
      step from a retry-safe tool, and no attempt runs a side-effecting tool that the gate does not
      permit (such an attempt yields the plan and leaves the world alone). */
  lemma RetriesAreSafe<P, S, W(!new)>(env: Env<P, S, W>, p: P, s: S, w: W, i: nat)
    requires i < |RunWithRecovery(env, p, s, w).ledger.attempts|
    ensures var attempts := RunWithRecovery(env, p, s, w).ledger.attempts;
            && (attempts[i].retry > 0 ==>
                  && i > 0 && attempts[i - 1].planned == attempts[i].planned
                  && attempts[i - 1].result.Err? && !attempts[i - 1].result.error.Unknown?
                  && IsRetrySafe(env.registry, attempts[i].invocation.tool))
            && RespectsGate(env.registry, env.config.gate, attempts[i].invocation, attempts[i].before,
                 attempts[i].after, attempts[i].result)
  {
    RunIsAccounted(env, p, s, w);
    var attempts := RunWithRecovery(env, p, s, w).ledger.attempts;
    assert Genuine(env, attempts[i]);
    InvokeRespectsGate(env.registry, env.config.gate, attempts[i].before, attempts[i].invocation);
    if i > 0 { assert Follows(env, attempts[i - 1], attempts[i]); }
  }

  /** A run never sleeps longer than max_steps * max_backoff_ms in total. */
  lemma TotalSleepIsBounded<P, S, W>(env: Env<P, S, W>, p: P, s: S, w: W)
    ensures RunWithRecovery(env, p, s, w).ledger.sleptMs <= env.config.maxSteps * env.recovery.maxBackoffMs
  {
    RunIsAccounted(env, p, s, w);
    var l := RunWithRecovery(env, p, s, w).ledger;
    SleepBoundIsProduct(|l.attempts|, env.recovery.maxBackoffMs);
    MulMonotone(env.recovery.maxBackoffMs, |l.attempts|, env.config.maxSteps);
  }
}
