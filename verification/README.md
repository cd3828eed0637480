# SIRINX core: a verified model

This project models the decision-making core of the SIRINX platform in Dafny and proves what that
core is for. `dafny verify dfyconfig.toml` checks all of it.

- **Release gates** (`Gates`, `ControlPlane`, `GateProtocol`, `Readiness`, `GateHistory`). Control-plane nodes share
  one Store of gate rows. Each node has a cache, a set of local hold overrides and a mutex. The class
  `ControlNode` updates them in place, one method for each stretch of a handler between two awaits.
  `GateProtocol` interleaves any number of such nodes over one Store, with failing or half-landed
  writes, dropped handlers and arbitrary rows from outside, and proves properties of every run;
  `GateHistory` says what a node holds, shows and admits from the history of the run alone.
- **Autonomous loop** (`Tools`, `AutoLoop`, `Backoff`, `Recovery`, `RecoveryAccounting`,
  `RecoveryRefinement`, `RecoveryHistory`, `Goals`). Plan, act, observe under an approval gate and a step budget; the
  recovering variant adds durable failure records, lessons and bounded retries with backoff. Planners,
  tools and the store are arbitrary functions of their own state.
- **Layered dispatcher** (`Roster`, `Worklist`, `Dispatch`). A worklist over a hash map: it terminates,
  and its outputs and its success do not depend on the map's iteration order; in a run that
  finishes every published event is delivered once to each registered member of the layer below.
- **Role-registry validator** (`RoleRegistry`, `RolePowers`, `RoleStructure`, `RoleValidator`,
  `RoleValidation`). The seven passes accept exactly the acceptable documents, these are globally well
  structured, and `RolePowers` says what the tables grant to whom.
- **Number scanners** (`Numerals`, `LineScanner`, `FbScanner`, `ScannerAgreement`) and the **capability router**
  (`OmniRoute`).

`Base` and `Text` hold shared datatypes, counting, and the parts of Rust's `str` that are used.

Loops and in-place updates are methods and classes proved equal to specification functions, or to
predicates that fix their results; the theorems are lemmas about those. Where the program leaves an
order open (hash maps, the order of overrides, of cards), the methods pick any element.

Some results are about where the program does less than one might expect. Each comes with the exact
condition under which it does what one expects:

- A persisted hold blocks every node until a row that opens the gate is stored
  (`CommittedHoldBlocks`), save for an action that had read its row before: an answer executes exactly
  if its own earlier read found an authorising row (`ExecutesIffReadAuthorizes`,
  `InFlightActionOutlivesHold`).
- With several rows for one gate, the single-gate read and the list reconcilers agree exactly where the
  first row decides (`ListAgreesIff`, `DuplicateRowsCanDisagree`); with at most one row they always do.
  Only a Store that keeps the default `get_gate` (`crates/sirinx-store/src/lib.rs:85-91`) can list
  several; the two concrete stores key gates by name.
- A durable failure record carries its true attempt number exactly while that fits in 32 bits
  (`RecordIsExactIffFits`).
- `external_writes` can be true of a goal run that only read (`ExternalWritesCanOverReport`). It is right
  exactly for a dry run, for a goal that plans a permitted side-effecting tool within its budget, and for
  one whose planned tools are all withheld (`ExternalWritesIsRightIff`).
- With a repeated requirement the router's length subtraction can underflow, and it can then prefer
  the less specialised card, against the documented rule (`DuplicateRequirementMisroutes`); the exact
  conditions are `SurplusIsSafeIff` and `FewestCapabilitiesIff`.
- The two number scanners read the same digits from a position on exactly if the text separates them
  alike (`SameDigitsIff`): no stray comma before a further digit of the group, no comma between the group
  and a decimal part, no comma and digit behind a fraction. They read the same number exactly if the
  digits that only one of them reads are zeros, and where those continue the whole number, that is 0 so
  far (`SameNumberIff`). Every decimal amid text without further digits qualifies (`ScannersAgree`).

## Model

| member | source | states |
|---|---|---|
| Text.TrimEmptyIffBlank | crates/sirinx-control/src/lib.rs:59-73 | A text is empty after trimming exactly if it is all white space, which is how the model writes the test. |
| Text.TrimMeaning | crates/sirinx-core/src/recovery.rs:91-99 | Trimming drops exactly the white space around a text. |
| Text.PrecedesMeaning | crates/sirinx-a2a/src/lib.rs:84-86 | The order of ids compares them at the first difference; a proper prefix comes first. |
| Gates.ComplaintIffInvalid | crates/sirinx-control/src/lib.rs:59-90 | The operator-facing complaint and the ticket predicate are two codings of one rule: a complaint is raised exactly for an invalid ticket, the plain one exactly for a missing or blank ticket, the other only for `telegram_send`. |
| Gates.TicketPolicy | crates/sirinx-control/src/lib.rs:59-90 | An open needs a ticket that is not blank; for `telegram_send` it must be `OPS-TG-` followed by something that is not blank. |
| Gates.Resolved | crates/sirinx-control/src/lib.rs:246-275 | Whatever rows are listed, the gate resolved for a name carries that name, a valid ticket when open and none when held. |
| Gates.AuthoritativeGate | crates/sirinx-control/src/lib.rs:323-357 | The same soundness for a single row, even one stored under the wrong name. |
| Gates.ResolvedOpenIff | crates/sirinx-control/src/lib.rs:246-275 | A gate resolves to open exactly when some valid open row for it is followed by no other effective row for it. |
| Gates.ListAgreesWithSingleRead | crates/sirinx-control/src/lib.rs:323-402 | With at most one row for a name, reconciling the whole list and reading that row give the same gate. |
| Gates.SingleReadAgreesWithSnapshot | crates/sirinx-control/src/lib.rs:292-418 | `authoritative_gate` equals the entry of `refresh_gate_snapshot`, for every name and every override set. |
| Gates.ResolvedIs | crates/sirinx-control/src/lib.rs:246-275 | A name resolves to the row that opens it, and to a hold where none does. |
| Gates.ListAgreesIff | crates/sirinx-control/src/lib.rs:323-402 | For every row list, duplicates included, list and single read agree exactly if the first row of the name is the one that opens it or, where none does, is no valid open row. |
| Gates.DuplicateRowsCanDisagree | crates/sirinx-control/src/lib.rs:323-402 | An open row with an invalid ticket listed before a valid one makes them disagree; listed after it, it does not. |
| Gates.LoadIsSnapshotWithoutOverrides | crates/sirinx-control/src/lib.rs:234-418 | A start-up load equals the snapshot of a node without overrides, for every row list, duplicates and unknown names included. |
| ControlPlane.LoadedGatesExtend | crates/sirinx-control/src/lib.rs:248-273 | One more row changes only its own gate's entry, and only if the gate is known and the row effective. |
| ControlPlane.ControlNode.constructor | crates/sirinx-control/src/lib.rs:189-218 | A fresh node holds every default gate. |
| ControlPlane.ControlNode.Load | crates/sirinx-control/src/lib.rs:234-279 | The overlay loop leaves each default gate as the rows resolve it. |
| ControlPlane.ControlNode.BeginDecision | crates/sirinx-control/src/lib.rs:671-723 | Bad ticket, then unknown gate, leave the node untouched; otherwise a hold is cached and overridden before the write, an open is not. |
| ControlPlane.ControlNode.FinishDecision | crates/sirinx-control/src/lib.rs:725-748 | After a reported write the node is as `DecisionPersisted` has it; what that amounts to is `GateHistory.FinishedDecisionShows` and `GateHistory.OverriddenIff`. |
| ControlPlane.ControlNode.BeginAction | crates/sirinx-control/src/lib.rs:292-321 | Unknown gates are refused, an overridden gate is answered held without a read, any other is read from the Store. |
| ControlPlane.ControlNode.FinishAction | crates/sirinx-control/src/lib.rs:323-364 | The answer is `executed` exactly if the row read has the gate's name, is open and has a valid ticket; the cache takes the reconciled gate. |
| ControlPlane.ControlNode.FinishSnapshot | crates/sirinx-control/src/lib.rs:368-418 | The snapshot and the new cache are the reconciled rows with every override held, whatever order the overrides are visited in. |
| ControlPlane.ControlNode.Release | crates/sirinx-control/src/lib.rs:725-737 | A failed call or dropped handler releases the mutex and changes nothing else, so a hold stays overridden. |
| GateProtocol.ReachableInv | crates/sirinx-control/src/lib.rs:195-418 | In every state of every run, mid-handler or not, each cache holds exactly the default gates, soundly, and every override is a known gate cached held. |
| GateProtocol.RowWasRead | crates/sirinx-control/src/lib.rs:323-324 | A row that a suspended action holds came from its own store read, the mutex being kept since. |
| GateProtocol.ExecutedOnlyOnAuthorizingRead | crates/sirinx-control/src/lib.rs:804-844 | In every run, an executed action read, at an identified earlier event, an open row under the gate's own name with a valid ticket; the gate is a default gate and was not overridden on that node from read to answer. |
| GateProtocol.ExecutesIffReadAuthorizes | crates/sirinx-control/src/lib.rs:804-844 | An answer executes if and only if the action's own store read, at an identified earlier event, found an authorising row. |
| GateProtocol.PersistedHoldBlocks | crates/sirinx-control/src/lib.rs:292-364 | While no stored row authorises a gate, no node executes an action on it, however stale its cache, unless that action had read before. |
| GateProtocol.CommittedHoldStands | crates/sirinx-control/src/lib.rs:671-749 | After a hold is committed no row authorises the gate until an open decision for it is committed or someone outside stores an authorising row; outside holds, deletions and bad tickets change nothing. |
| GateProtocol.CommittedHoldBlocks | crates/sirinx-control/src/lib.rs:292-364 | From the commit of a hold until then, no node executes an action on the gate, except one that already held its row at the commit. |
| GateProtocol.OnlyAnOpenWriteAuthorizes | crates/sirinx-control/src/lib.rs:671-749 | Only a committed open decision or an outside write can start authorising a gate. |
| GateProtocol.InFlightActionOutlivesHold | crates/sirinx-control/src/lib.rs:804-844 | The exception is real: a run in which a hold lands between an action's read and its answer. |
| GateProtocol.LatchHolds | crates/sirinx-control/src/lib.rs:702-743 | After an accepted hold the override stands until that node itself finishes a persisted decision for the gate. |
| GateProtocol.EmergencyHoldLatch | crates/sirinx-control/src/lib.rs:302-318 | Meanwhile no action for the gate executes on that node, no snapshot shows it open and its cache says held, whatever fails and whatever others write. |
| GateHistory.OverriddenIff | crates/sirinx-control/src/lib.rs:702-743 | In every state of every run a gate is overridden on a node if and only if a hold for it was decided there and the node has finished no persisted decision for it since, hold or open. |
| GateHistory.AdmissionIff | crates/sirinx-control/src/lib.rs:292-364 | An idle node admits an action on a default gate if and only if the Store authorizes the gate and no such hold stands on that node. |
| GateHistory.WriteWasDecided | crates/sirinx-control/src/lib.rs:702-723 | Whatever a suspended handler writes is the decision made at an identified earlier event: name, state, and the ticket of an open only. |
| GateHistory.FinishedDecisionShows | crates/sirinx-control/src/lib.rs:737-748 | When a decision finishes, be it a hold or an open, the cache shows the gate decided, the override for it is gone, and all other entries and overrides are as before. |
| GateHistory.DecisionRefusedIff | crates/sirinx-control/src/lib.rs:681-700 | In every reachable state a decision is refused for its ticket exactly if it opens with an invalid one, and otherwise exactly for a gate that is not a default gate. |
| GateHistory.CacheOpensOnlyFromStore | crates/sirinx-control/src/lib.rs:735-748 | A cache entry becomes open, or another open gate, only by a persisted open decision of that node or by a row the Store has just answered. |
| GateHistory.AnswerIsCached | crates/sirinx-control/src/lib.rs:323-364 | An answered action leaves its gate cached as the row read if it executed, held if not, and every other entry alone. |
| GateHistory.SnapshotShows | crates/sirinx-control/src/lib.rs:368-418 | A snapshot shows the last effective open row of a gate exactly if no hold decision stands on the node, and a hold otherwise. |
| Readiness.SnapshotAgreesWithAdmission | crates/sirinx-control/src/lib.rs:526-609 | The snapshot shows a gate open exactly if an action on it, started at that point, would execute. |
| Readiness.ProbeMeaning | crates/sirinx-control/src/lib.rs:526-609 | On a readable store the reasons are empty exactly when live admission is ready, each reason is given exactly for its own cause (only Postgres is durable), and none names the ticket policy. |
| Readiness.ReadinessAgreesWithAdmission | crates/sirinx-control/src/lib.rs:526-609 | In every reachable state, live admission is reported exactly when the node is operational and a `telegram_send` action at that point would execute. |
| Readiness.UnreadableStoreIsNotReady | crates/sirinx-control/src/lib.rs:526-609 | An unreadable store fails closed and is named as a reason, beside exactly the other causes. |
| Tools.ToolRegistry.Register | crates/sirinx-autoloop/src/tool.rs:114-116 | A later tool of the same name replaces the earlier one. |
| Tools.InvokeRespectsGate | crates/sirinx-autoloop/src/tool.rs:133-151 | Invoking a side-effecting tool that the gate does not permit yields its plan and leaves the world alone. |
| Tools.InvokeMeaning | crates/sirinx-autoloop/src/tool.rs:133-151 | An unknown tool fails; a read-only tool, or one under blanket approval or named in the allowlist, runs on the arguments given and its output, error and effect are passed on; any other is only planned. |
| AutoLoop.RunLoop | crates/sirinx-autoloop/src/loop_runner.rs:147-165 | The loop computes the recursive run; the record has at most `max_steps` entries, numbered in order. |
| AutoLoop.RunIsChained | crates/sirinx-autoloop/src/loop_runner.rs:147-165 | Without reference to the recursion: every entry of the record is what the planner asked for on the record before it and what the gate let it do, and the run ends because the budget is used, the planner has nothing more, or the last call failed with the error returned. |
| AutoLoop.GateDeterminesRun | crates/sirinx-autoloop/src/tool.rs:47-53 | Gates that agree on the side-effecting tools give the same outcome, history, planner and world, for every planner. |
| AutoLoop.EmptyAllowlistIsDryRun | crates/sirinx-autoloop/src/tool.rs:35-53 | An empty allowlist behaves over whole runs exactly like a dry run. |
| AutoLoop.RunFromRespectsGate | crates/sirinx-autoloop/src/loop_runner.rs:147-165 | No recorded step executed a side-effecting tool without the gate's permission. |
| Backoff.BackoffIsExact | crates/sirinx-autoloop/src/loop_runner.rs:56-64 | For every retry count, however large, the checked shift and saturating product equal min(base * 2^k, cap) over unbounded integers. |
| Backoff.BackoffIsMonotone | crates/sirinx-autoloop/src/loop_runner.rs:56-64 | Delays never shrink and never exceed the cap. |
| RecoveryAccounting.FailureHandledKeepsInv | crates/sirinx-autoloop/src/loop_runner.rs:212-254 | From accounts whose last attempt just failed, the error arm leaves the accounts right: the failure is recorded once under its number, a retry follows only where it may, and the sleep stays within its bound. |
| Recovery.StepTerminates | crates/sirinx-autoloop/src/loop_runner.rs:181-258 | Every iteration of either loop draws down one measure of the global budget. |
| Recovery.RunWithRecoveryLoop | crates/sirinx-autoloop/src/loop_runner.rs:171-262 | The two nested loops compute the recovering machine's run; the rows below say what that run is. |
| RecoveryAccounting.RunIsAccounted | crates/sirinx-autoloop/src/loop_runner.rs:171-262 | Every run ends, successfully or not, with its history, failure records, attempt order, budget and sleep accounted for. |
| RecoveryAccounting.RecoveryAccountingTheorem | crates/sirinx-autoloop/src/loop_runner.rs:171-262 | In every Ok run the history's step numbers plus one and the failed attempts' numbers split 1..attempts_used, which is at most `max_steps`; each failure is recorded in order. |
| RecoveryAccounting.RecordsCompleteHistory | crates/sirinx-autoloop/src/loop_runner.rs:206-221 | With a budget within 32 bits, the durable records themselves complete the history to 1..attempts_used. |
| RecoveryAccounting.RecordIsExactIffFits | crates/sirinx-autoloop/src/loop_runner.rs:214-219 | A record carries its attempt number exactly if that fits in 32 bits. |
| RecoveryAccounting.StepAttemptsAreConsecutive | crates/sirinx-autoloop/src/loop_runner.rs:192-256 | The attempts of one planned step are consecutive, numbered from its first, and name one tool. |
| RecoveryAccounting.StepAttemptsAreBounded | crates/sirinx-autoloop/src/loop_runner.rs:235-237 | In every run, each planned step is invoked at most `max_retries` + 1 times, always under one tool name. |
| RecoveryAccounting.RetriesAreSafe | crates/sirinx-autoloop/src/loop_runner.rs:229-254 | A retry directly follows a BadArgs or Failed error of the same step from a retry-safe tool; no attempt executes a side-effecting tool the gate does not permit. |
| RecoveryAccounting.TotalSleepIsBounded | crates/sirinx-autoloop/src/loop_runner.rs:247-249 | A run sleeps at most `max_steps` * `max_backoff_ms` in total. |
| RecoveryHistory.RunIsChained | crates/sirinx-autoloop/src/loop_runner.rs:171-262 | Every run is a chain of attempts, each asked of the planner, with the lessons read, applied and the call made, a failure recorded and its lesson stored. It ends Completed only within the budget and when the planner has no step; BudgetExhausted only with `max_steps` attempts, the last of which could be retried or succeeded; with a tool's error only if the last attempt returned it and the tool is unknown, not retry-safe or out of retries; with a store error only if the store said so. |
| RecoveryHistory.AllowedRetriesHappen | crates/sirinx-autoloop/src/loop_runner.rs:229-254 | A failed attempt that may be retried, with retries and budget left, is followed by the next attempt of the same step. |
| RecoveryHistory.SleepIsExact | crates/sirinx-autoloop/src/loop_runner.rs:247-249 | A run not cut short by the store slept exactly min(base * 2^k, cap) before each attempt numbered k + 1 of its step, and never else. |
| RecoveryHistory.RecordsNameErrors | crates/sirinx-autoloop/src/loop_runner.rs:206-221 | The i-th durable record names the kind of error and the tool of the i-th failed attempt. |
| RecoveryHistory.BoundedNameKeeps | crates/sirinx-core/src/recovery.rs:91-99 | A tool is recorded under its trimmed name, cut to 128 characters, and a blank name as unknown. |
| RecoveryRefinement.RecoveryRefinesRun | crates/sirinx-autoloop/src/loop_runner.rs:147-262 | With the default lesson hook, whenever the plain run succeeds the recovering run has the same outcome, history, planner and world and records nothing, for every budget and retry configuration, unless the store fails to read lessons. |
| RecoveryRefinement.GateDeterminesRecovery | crates/sirinx-autoloop/src/loop_runner.rs:191-254 | Gates that agree on the side-effecting tools give the same recovering run, down to every attempt. |
| Goals.GoalPlanner.constructor | crates/sirinx-autoloop/src/goal.rs:65-76 | A new planner stands before the first step of a single cycle. |
| Goals.GoalPlanner.NextStep | crates/sirinx-autoloop/src/goal.rs:80-104 | Each call plans the invocation of its position in the single cycle and moves on, then nothing; which agent that is, is `Goals.GoalCallsAgents`. |
| Goals.GoalRunClosedForm | crates/sirinx-autoloop/src/goal.rs:162-204 | Steps used are min(max_steps, max(1, n)), and the run completed exactly when max_steps > max(1, n). |
| Goals.GoalCallsAgents | crates/sirinx-autoloop/src/goal.rs:80-104 | In every report step i calls target agent i, with that agent's template where there is one and else with the agent and the goal; a goal without targets makes the one call `inspect` on the goal. |
| Goals.LessonsChangeArguments | crates/sirinx-autoloop/src/goal.rs:106-130 | A validation lesson marks the arguments as validated, else a transient failure limits `hermes-agent` to one request at a time; every other field, and every other case, is left alone. |
| Goals.FailuresTeach | crates/sirinx-autoloop/src/goal.rs:106-146 | From a failure to the next try: bad arguments come back marked as validated, a failed `hermes-agent` call comes back throttled, any other comes back as it was. |
| Goals.GoalRunReturns | crates/sirinx-autoloop/src/goal.rs:162-204 | A report is returned when every tool named succeeds. |
| Goals.NoExternalWritesIsTrue | crates/sirinx-autoloop/src/goal.rs:176-184 | If `external_writes` is false, no step executed a side-effecting tool. |
| Goals.RecordIsFaithful | crates/sirinx-autoloop/src/loop_runner.rs:147-165 | A recorded step was executed exactly if its tool is read-only or permitted. |
| Goals.ExternalWritesIsRightIff | crates/sirinx-autoloop/src/goal.rs:176-184 | For every report, the flag equals "a side-effecting tool executed" if and only if the gate is a dry run, some planned step within the budget names a permitted side-effecting tool, or none executes. |
| Goals.ExternalWritesCanOverReport | crates/sirinx-autoloop/src/goal.rs:176-184 | It can be true of a run that only read; the condition then fails. |
| Dispatch.RoutesNeverSkip | crates/sirinx-agents/src/bus.rs:51-66 | Research may address every operational layer; any other route is legal exactly from an operational layer to the one directly below; ids off the roster are unknown, all else is a skip. |
| Dispatch.FanOutBelowAdds | crates/sirinx-agents/src/bus.rs:87-91 | Adding a member to a layer adds its subtree wherever it comes in the order: the layer's order does not matter. |
| Dispatch.WeightIsBounded | crates/sirinx-agents/src/bus.rs:79-96 | The termination weight, 1 + members of the next layer * their weight, is at most 820 over every registry. |
| Dispatch.SizeIsCardinality | crates/sirinx-agents/src/bus.rs:87-91 | The layer sizes in that weight are the numbers of registered agents of the layer. |
| Dispatch.CopiedExtends | crates/sirinx-agents/src/bus.rs:87-91 | Looking at one more registered agent queues one copy of the published message if it belongs to the layer, and nothing otherwise. |
| Dispatch.TraceSteps | crates/sirinx-agents/src/bus.rs:79-95 | After each pass every delivery but the first, and every piece of work in the queue, is an event that an earlier delivery published, for a member of the layer below its agent's. |
| Dispatch.BalanceSteps | crates/sirinx-agents/src/bus.rs:79-95 | After each pass the deliveries and the queue together are the start and, for every output so far, its event once for every registered member of the next layer. |
| Dispatch.Dispatcher.Register | crates/sirinx-agents/src/bus.rs:42-44 | An agent takes the place of its own id. |
| Dispatch.Dispatcher.Forward | crates/sirinx-agents/src/bus.rs:87-91 | For every iteration order, the queue gains the published message exactly once for each registered member of the next layer; the loop panics exactly if some registered id is off the roster. |
| Dispatch.Dispatcher.Process | crates/sirinx-agents/src/bus.rs:79-95 | One popped piece of work is exchanged for its agent's output and, where that publishes and a layer lies below, one copy of the published event for each member registered there, at a cost of at least one unit of weight; failures are those of the tree. |
| Dispatch.Dispatcher.Run | crates/sirinx-agents/src/bus.rs:71-99 | For every order it terminates and succeeds exactly when the fan-out tree does; the outputs are the tree's multiset. Independently of the tree, every delivery after the start was published by an earlier delivery's output for a member of the layer below, and in a finished run each such event reached each registered member of that layer exactly once. In every run, failing ones included, forwarded work never reaches research or the chatbot, a reported agent error is the one the last agent called returned, and LayerSkip never occurs. |
| RoleRegistry.CardIdCheckMeaning | crates/sirinx-agents/src/role_registry.rs:1017-1031 | The prefix-and-split check accepts exactly `ronin-NN-suffix` with the role's number and a well-formed suffix. |
| RoleRegistry.SplitOnceMeaning | crates/sirinx-agents/src/role_registry.rs:1017-1031 | Splitting at the first separator loses nothing and leaves none before it. |
| RoleRegistry.SpecNamesHead | crates/sirinx-agents/src/role_registry.rs:804-817 | The department found for a role names that role's head, and is found exactly on the roster. |
| RolePowers.RoleActionsIff | crates/sirinx-agents/src/role_registry.rs:828-860 | A role's action classes pass exactly if none repeats and each is granted: plans to 26-35, coordination to 36 and 43, exact leases to 37-41, fixtures to 42, maker-checker work to 37-42, ticketed external actions to 37-39 and 43, and reading to all. |
| RolePowers.DepartmentActionsIff | crates/sirinx-agents/src/role_registry.rs:819-826 | A department's default classes pass exactly if they are reading, plans in the third department and coordination in the fourth, in any order and once each. |
| RolePowers.SpecAgreesWithRoster | crates/sirinx-agents/src/role_registry.rs:761-817 | The department table agrees with itself and the roster: a department covers its count of ids from its head on, its range text spells them, and its head has the roster's codename. |
| RolePowers.RoleDepartmentIff | crates/sirinx-agents/src/role_registry.rs:536-550 | A role sits in its department exactly if department, title and head are those of its id range. |
| RolePowers.AcceptedPowers | crates/sirinx-agents/src/role_registry.rs:652-721 | In every accepted registry source access is settled by the role id: the compiled runtime's roles are exactly the implemented ones, only `codex`'s six roles may write under a lease, and 40, 41 and 43 have their own restrictions. |
| RolePowers.WhoAnswersOutside | crates/sirinx-agents/src/role_registry.rs:868-877 | Where reporting holds, exactly role 36 answers to the human operator and exactly role 44 to the requesting layer; everyone else answers to a role's card. |
| RolePowers.AcceptedIsPassive | crates/sirinx-agents/src/role_registry.rs:320-385 | An accepted registry does not execute, takes no external action, and has one worker for each of its three distinct lanes. |
| RolePowers.KaiStandsApart | crates/sirinx-agents/src/role_registry.rs:723-800 | The chatbot's card may draft and nothing else, has no source access, answers to a human, is run by a principal outside the table, and its card id could be no role's. |
| RoleStructure.RoleIdsAreComplete | crates/sirinx-agents/src/role_registry.rs:502-598 | Distinct ids within range and as many as the range are all of the range. |
| RoleStructure.CardIdsFollowRoleIds | crates/sirinx-agents/src/role_registry.rs:967-1031 | The card syntax makes card ids as distinct as role ids, so a duplicate card id cannot be reported. |
| RoleStructure.EveryPrincipalIsPresent | crates/sirinx-agents/src/role_registry.rs:652-690 | Fourteen distinct known principals are the whole table. |
| RoleStructure.PrincipalsCoverRoster | crates/sirinx-agents/src/role_registry.rs:879-909 | Every role is listed by some principal, so a role without one cannot be reported. |
| RoleStructure.HeadTargets | crates/sirinx-agents/src/role_registry.rs:868-877 | The card a head reports to is that of the next head. |
| RoleStructure.ReportingDescends | crates/sirinx-agents/src/role_registry.rs:600-650 | Every reporting hop moves exactly one step closer to a sentinel. |
| RoleStructure.ChainReachesSentinel | crates/sirinx-agents/src/role_registry.rs:600-650 | Every reporting chain reaches a sentinel within the role's height. |
| RoleStructure.AcceptedIsWellStructured | crates/sirinx-agents/src/role_registry.rs:294-304 | An accepted registry has role ids in bijection with 1..47 and distinct card ids, principals that partition 1..47, and acyclic reporting that reaches a sentinel within 5 hops. |
| RoleValidator.CheckSegmentedIdentifier | crates/sirinx-agents/src/role_registry.rs:1037-1057 | The flag loop accepts exactly non-empty segments of lower-case letters and digits between single separators. |
| RoleValidator.ValidateAuthority | crates/sirinx-agents/src/role_registry.rs:320-385 | Ok exactly for documents that keep the whole authority contract; each error says that the very text, flag or cap it names differs. |
| RoleValidator.ValidateSchema | crates/sirinx-agents/src/role_registry.rs:387-456 | Ok exactly if every text and list constraint holds on every card, department and principal; each error names a scope and a field of this document that break one. |
| RoleValidator.ValidateDepartments | crates/sirinx-agents/src/role_registry.rs:458-500 | Ok exactly if the departments are the expected five, each once; each error names a department that is repeated, missing or unlike its specification. |
| RoleValidator.FindMissing | crates/sirinx-agents/src/role_registry.rs:502-598 | The missing-id pass is Ok exactly if all of 1..47 are present, else it names a missing one. |
| RoleValidator.ValidateRoles | crates/sirinx-agents/src/role_registry.rs:502-598 | Ok implies 47 distinct, well-formed roles with the expected implemented set; each error names a card and the one of its checks that fails, or a repeated id. |
| RoleValidation.ValidateReportingChain | crates/sirinx-agents/src/role_registry.rs:600-650 | Ok implies every role reports to its head, every head to its expected target; errors are true. |
| RoleValidation.AssignRoles | crates/sirinx-agents/src/role_registry.rs:652-690 | One principal's roles are taken exactly if all are in range, new and listed once. |
| RoleValidation.ValidateRuntimePrincipals | crates/sirinx-agents/src/role_registry.rs:652-721 | Ok implies the principal table and its assignment of roles; each error tells a wrong principal from a wrong boundary; a role can be without a principal only off the roster. |
| RoleValidation.ValidateKai | crates/sirinx-agents/src/role_registry.rs:723-800 | Ok exactly if the chatbot's card keeps its contract; errors are true. |
| RoleValidation.Validate | crates/sirinx-agents/src/role_registry.rs:295-304 | Accepts exactly the acceptable registries; every error belongs to the first pass that fails, is true of the document and is never a duplicate card id, a missing role id or a role without a principal. |
| RoleValidation.NoComplaintAgainstAccepted | crates/sirinx-agents/src/role_registry.rs:295-304 | Every error of every pass is false of every acceptable registry, so each error is evidence against the document. |
| RoleValidation.ComplaintOfPass | crates/sirinx-agents/src/role_registry.rs:295-304 | A complaint of a pass shows that this pass fails on the document. |
| Numerals.EveryNaturalIsWritten | crates/sirinx-agents/src/line_events.rs:151-171 | Every natural number has a numeral, in either script: the round trips below are about all numbers. |
| Numerals.PlainTextHasValue | crates/sirinx-agents/src/line_events.rs:195-196 | Parsing the plain digits of a decimal gives the number written, fraction included. |
| LineScanner.Normalize | crates/sirinx-agents/src/line_events.rs:154-170 | The loop computes the normalised text position by position. |
| LineScanner.NormalizeMeaning | crates/sirinx-agents/src/line_events.rs:151-170 | Normalising is idempotent, fixes exactly the texts without Thai digits and grouping commas, yields such texts and keeps the sequence of digit values. |
| LineScanner.NormalizeWritesPlain | crates/sirinx-agents/src/line_events.rs:154-170 | A decimal amid text without digits, any scripts and single commas in its whole part, becomes its plain digits; the rest stays, commas included. |
| LineScanner.MagnitudeAt | crates/sirinx-agents/src/line_events.rs:202-209 | The table search finds a word exactly where it stands; no two words can stand at one place. |
| LineScanner.ScanNumbers | crates/sirinx-agents/src/line_events.rs:173-213 | The index loops compute the recursive scan. |
| LineScanner.NumeralParses | crates/sirinx-agents/src/line_events.rs:186-196 | What is cut out for parsing always parses, so the fallback 0.0 is never used. |
| LineScanner.ScanTheorem | crates/sirinx-agents/src/line_events.rs:173-213 | On every text the hits are in order and disjoint, every digit lies in the numeral of exactly one hit, and each value is its numeral's, times 10,000, 100,000 or 1,000,000 where หมื่น, แสน or ล้าน stands behind any spaces; the hit then ends with the word, else with the numeral. |
| LineScanner.ScanRoundTrip | crates/sirinx-agents/src/line_events.rs:154-213 | A number written in ASCII or Thai digits, mixed, with single commas in any gaps of its whole part and perhaps a decimal fraction, amid any text without further digits, is read back as exactly one hit of its value, times 10,000 before หมื่น, 100,000 before แสน and 1,000,000 before ล้าน, with the word inside the hit. |
| FbScanner.ParseNumberPrefix | crates/sirinx-agents/src/fb_group.rs:139-164 | The one-pass state machine recognises the grammar digit (digit or comma)* [dot digit*] maximally and returns the exact value of its digits. |
| FbScanner.PrefixIffDigit | crates/sirinx-agents/src/fb_group.rs:139-164 | There is a number exactly at a digit; the final parse never fails. |
| FbScanner.PrefixReadsDecimal | crates/sirinx-agents/src/fb_group.rs:139-164 | Every grouped decimal with no digit behind it is read in full as the number written; commas and a dot behind a whole number are swallowed without effect. |
| ScannerAgreement.ScannersAgree | crates/sirinx-agents/src/fb_group.rs:139-164 | On every decimal amid text without further digits, grouped and in either script, the LINE hit is this parser's value times the magnitude word behind it. |
| ScannerAgreement.LineReads | crates/sirinx-agents/src/line_events.rs:154-196 | What the LINE scanner parses from any digit on, in terms of the raw text: the run of digits and grouping commas, and behind a dot and a digit another such run. |
| ScannerAgreement.SameDigitsIff | crates/sirinx-agents/src/fb_group.rs:139-164 | At every digit of every text the two scanners read the same digits from there on if and only if the text separates them alike. |
| ScannerAgreement.SameNumberIff | crates/sirinx-agents/src/fb_group.rs:139-164 | At every digit of every text they read the same number if and only if the digits that only one of them reads are idle. |
| ScannerAgreement.SameValue | crates/sirinx-agents/src/fb_group.rs:139-164 | There the LINE hit has this parser's value, times the magnitude word behind it. |
| ScannerAgreement.EachClauseMatters | crates/sirinx-agents/src/fb_group.rs:152-156 | Each clause of the condition fails on a text of its own, and the scanners differ there. |
| ScannerAgreement.ScannersDisagree | crates/sirinx-agents/src/fb_group.rs:152-153 | On `1,,2` one reads 12, the other a 1 first. |
| FbScanner.FirstPlausible | crates/sirinx-agents/src/fb_group.rs:181-183 | The first amount in the plausible band, or none exactly if none is plausible. |
| FbScanner.BillIsFirstPlausible | crates/sirinx-agents/src/fb_group.rs:169-190 | The early-exit search returns the first plausible among all amounts the window mentions. |
| FbScanner.FindPlausibleBill | crates/sirinx-agents/src/fb_group.rs:169-190 | The loop over the window computes that search. |
| FbScanner.AmountsOfNumeral | crates/sirinx-agents/src/fb_group.rs:169-190 | A window with one decimal and no further digits mentions exactly one amount: the number written times its unit. |
| FbScanner.BillOfDecimal | crates/sirinx-agents/src/fb_group.rs:169-190 | The bill of a window with one decimal is the number written, times 10,000, 100,000, 1,000 or 1,000,000 before หมื่น, แสน, พัน or ล้าน behind any white space, exactly if that lies from 500 to 5,000,000; else there is none. |
| FbScanner.WindowFrom | crates/sirinx-agents/src/fb_group.rs:201-203 | The window is the 40 characters behind the keyword, or all that are left. |
| FbScanner.NextOccurrence | crates/sirinx-agents/src/fb_group.rs:199-207 | Resuming behind an occurrence misses none, because the keywords never overlap themselves. |
| FbScanner.FindBehind | crates/sirinx-agents/src/fb_group.rs:198-207 | For one keyword the bill of its first occurrence that has one, or none exactly if no occurrence has one. |
| FbScanner.FindBill | crates/sirinx-agents/src/fb_group.rs:194-210 | Terminates on every text; the result lies from 500 to 5,000,000 and is the bill of the first occurrence that has one, in the order of the five keywords written out and then in text order; none if none has. |
| OmniRoute.SurplusIsSafeIff | crates/sirinx-a2a/src/lib.rs:71-83 | The length subtraction is safe on every covering card exactly if the requirements have no duplicates. |
| OmniRoute.RouteIsUnique | crates/sirinx-a2a/src/lib.rs:71-87 | There is at most one route. |
| OmniRoute.MostSpecializedWins | crates/sirinx-a2a/src/lib.rs:68-87 | For duplicate-free requirements the winner has fewest capabilities, among equals the highest priority, and among those the id that comes first. |
| OmniRoute.FewestCapabilitiesIff | crates/sirinx-a2a/src/lib.rs:68-87 | With wrapping words, the winner has fewest capabilities exactly if the covering cards do not lie on both sides of the number required. |
| OmniRoute.DuplicateRequirementMisroutes | crates/sirinx-a2a/src/lib.rs:68-87 | A repeated requirement can make the larger of two covering cards win. |
| OmniRoute.AddCandidate | crates/sirinx-a2a/src/lib.rs:71-87 | Comparing one more card with the best so far keeps the best of all. |
| OmniRoute.OmniRoute.Register | crates/sirinx-a2a/src/lib.rs:52-54 | A card replaces the card of its id and no other. |
| OmniRoute.OmniRoute.Route | crates/sirinx-a2a/src/lib.rs:71-87 | None exactly if no card covers the requirements; otherwise the strict minimum by surplus, highest priority and id. |
| OmniRoute.RouteDependsOnLatest | crates/sirinx-a2a/src/lib.rs:52-87 | Registration histories with the same latest card for each id lead to the same cards and the same route. |
| OmniRoute.OrderIsIrrelevant | crates/sirinx-a2a/src/lib.rs:52-54 | Cards with different ids may be registered in either order. |

## Left out

- HTTP routing, bearer authentication, metrics, logging, response bodies and environment variables: plumbing around the gate protocol.
- The inside of the Store: it is a map from keys to rows whose calls may fail, may land unreported or late, and whose rows others may change at will.
- The order of the gates in a snapshot: the snapshot is a map, as its entries are what callers look up.
- The readiness timestamp and the load counters: reported, never decided on.
- Readiness.ReadinessAgreesWithAdmission: assumes stored rows lie under their own names, as the table's primary key makes them; GateProtocol itself does not.
- Run ids, lesson occurrence counts and the texts of errors and plans: carried along, never decided on.
- Recovery.RunWithRecoveryLoop: sleeping is counted in milliseconds, and nothing else happens while it sleeps.
- Planners, tools and stores are deterministic functions of their own state; a store's failures are part of that state.
- The subprocess bridge of the autonomous loop (`codex_bridge.rs`): a wrapper around one command.
- Lead scoring and partner agents: threshold comparisons; they are among the dispatcher's arbitrary agents.
- Dispatch.Dispatcher.Run: agents are deterministic, and the order of the outputs, which the program does leave to the hash map, is not fixed.
- The literal contract sentences, the single-value status and the JSON decoding of the role registry: the sentences are only compared for equality, so short names stand for them; the rest is serde's work.
- FbScanner.ParseNumberPrefix: reads from a position of the whole text where the program takes a suffix slice; positions count characters instead of UTF-8 bytes.
- Lower-casing and IEEE rounding in the scanners: text arrives lower-cased, amounts are exact reals.
- `extract_bill`, `extract_area` and `find_area`: searches over the hits and prefixes modelled here, decided by one window test.
- Business-type, interest and consent keywords: lookups in finite word lists.
- OmniRoute.OmniRoute.Route: subtraction wraps, as in a release build; a debug build stops at the underflow instead. Cards are visited in any order, not by id.
- `diff_work` and the sync exchange of agent cards: a filter by membership.
- Registry lookups after validation (`role`, `runtime_principal`): first matches in a list.
- The web app, the dashboard, the seller guard and the sites: templating, static data and browser code.
