# OpenExec, verified

A Dafny 4.11 model of the parts of OpenExec that decide what an agent may do, in which order work runs, and what it
may cost, with proofs about every run of them. `dafny verify dfyconfig.toml` checks the project.

- **Durable approvals** (`ApprovalStatus`, `ApprovalTables`, `ApprovalProtocol`, `ApprovalRuns`, `ApprovalStability`,
  `ApprovalManager`): operators, waiting agents and expiry sweeps are processes that interleave one table statement at a time and may stop
  anywhere. Proved for every interleaving: what a stored status can still become, when it is permanent, that a reported
  approval is real, and when decision rows agree with it. The manager's calls are imperative programs over a repository
  object, equal to their processes when run alone.
- **In-memory approvals** (`MemoryGate`, `MemoryGateRuns`): the gate as an object with its two maps and completion
  channels, and all interleavings of waiters, timeouts, operators, cancellation and clearing.
- **Plan coordination** (`TaskGraph`, `TopologicalSort`, `Waves`, `WaveExecution`): Kahn's algorithm for any map order,
  layering into waves, and all interleavings of worker goroutines under the semaphore, channel and wait group.
- **Blueprint engine** (`Blueprint`, `Engine`, `EngineRuns`, `EngineTermination`, `StageExecution`,
  `StandardBlueprint`, `StandardRuns`): the engine loop against any executor, its bookkeeping and termination, the
  default executor, and what a completed run of the shipped blueprint has certainly done.
- **Context assembly** (`ContextSelection`, `ContextTies`, `ContextPlan`, `CachePrune`): greedy selection under an unstable
  sort and exactly when its ties matter, truncation, the two-stage plan, and cache pruning.
- **Spend** (`BudgetMonitor`, `Spend`, `SpendChecks`): running maxima, totals over all interleavings, alerts, and blocking
  when checks run after the lock is released. Money is `real`.
- **Batching and the terminal reducer** (`Batches`, `TerminalReducer`).

`Common`, `Sorting` and `Multisets` hold shared facts; callers of `Sorting.Sort` rely only on its contract, which allows
any placement of ties.

## Where the code does less than its names promise

Each point is a lemma with a concrete run or input, next to one that says exactly when the promise is kept.

- An expiry write is not guarded by the status, so a sweep that listed a request before it was approved can overwrite
  the approval (`ApprovalStability.ApprovalCanBeOverwritten`, `FinalStatusPermanentIff`).
- A waiter can get a timeout error for a request that is approved (`MemoryGateRuns.TimeoutCanHideApproval`,
  `TimeoutHidesVerdictIff`), in the durable gate too (`ApprovalStability.TimeoutCanHideApproval`,
  `ApprovalRuns.TimedOutAgentHidesApprovalIff`).
- A run can end Completed on a failed stage if a stage is keyed "complete" and another retries into it
  (`EngineRuns.ValidatedBlueprintCanFail`, `CompletedRunsEndCompletedIff`).
- The retry limit does not bound a cycle of success edges, nor results that are neither Completed nor Failed
  (`EngineTermination.CycleNeverHalts`, `IndecisionNeverHalts`, `AlwaysHaltsIff`).
- With per-type caps the included total can depend on how the sort breaks ties (`ContextTies.TiesMatterWithCaps`,
  `BuildsDeterminedIff`, and for one tie `OrderNeverMattersIff`).
- Under high sensitivity the budget pass trusts counts it then replaces (`ContextPlan.MismatchedCountsCanExceed`,
  `PassExceedsIff`).
- A budget check can pass after another was blocked on the total (`SpendChecks.CheckCanPassAfterBlock`,
  `LaterChecksBlockedIff`).
- Truncation to one to four tokens slices out of range (`ContextPlan.TruncationPanicsIff`).
- A session block from a direct cost update can lift again (`Spend.ReportedSessionBlockCanLift`,
  `ReportedVerdictDiffersIff`), and the daily spend compares only the day of the year (`Spend.SameDayNextYearStillCounts`, `DailyIsTodaysSpendIff`).
- A budget that is not configured raises alerts in enabled checks (`BudgetMonitor.FirstCheckAlertsIff`).
- A terminal event other than an inconclusive one may carry a reason that the result does not have
  (`TerminalReducer.ReasonsDifferIff`).

## Model

| member | source | states |
|---|---|---|
| ApprovalTables.Repository.CreateRequest | internal/approval/manager.go:674-706 | a new row is stored, and a second row with the same id is refused without a change |
| ApprovalTables.Repository.GetRequest | internal/approval/manager.go:708-719 | the stored row, or nothing if there is none |
| ApprovalTables.Repository.UpdateRequest | internal/approval/manager.go:734-768 | an existing row is overwritten whatever its status; a missing one is reported |
| ApprovalTables.Repository.UpdateRequestStatus | internal/approval/manager.go:770-795 | the row changes if and only if its stored status is the expected one |
| ApprovalTables.Repository.ExtendRequestExpiration | internal/approval/manager.go:797-817 | only a pending row gets a new deadline, and nothing else of it changes |
| ApprovalTables.Repository.CreateDecision | internal/approval/manager.go:1144-1171 | a decision row is added unless the request already has one |
| ApprovalManager.Resolve | internal/approval/manager.go:250-342 | Approve, Reject and Cancel run alone leave the tables and the answer of three uninterrupted steps of the operator process, so the process used in the interleaving theorems is the code's |
| ApprovalManager.ResolveOutcome | internal/approval/manager.go:250-342 | run alone on a pending row, Approve leaves row and decision Approved, Reject Rejected, Cancel Cancelled, and nothing else changes; a missing row, a deadline passed (not for Cancel) and a final status are refused with their own answers and no change |
| ApprovalManager.ExpireRequests | internal/approval/manager.go:345-380 | a sweep run alone leaves the tables that two uninterrupted steps per listed row of the sweep process leave, and counts the decision rows it added |
| ApprovalManager.SweptExpiresListed | internal/approval/manager.go:345-380 | exactly the listed requests end Expired, all others keep their status, and every new decision row is an Expired one of a listed request |
| ApprovalManager.CheckApproval | internal/approval/manager.go:524-566 | a check run alone equals two steps of the check process: a pending request past its deadline is expired first, and the status reported is the stored one |
| ApprovalManager.CheckOutcome | internal/approval/manager.go:524-566 | a check run alone reports the status stored afterwards, which is Expired if the request was pending past its deadline and the old one otherwise |
| ApprovalManager.RequestApproval | internal/approval/manager.go:118-180 | creation, auto-approval and the longer deadline run alone equal two steps of the gate process, and tell refused, granted and open requests apart |
| ApprovalManager.RequestOutcome | internal/approval/persistent_gate.go:93-125 | run alone, a new request is stored auto-approved with its decision, or pending with the extended deadline; a known id changes nothing |
| ApprovalManager.Poll | internal/approval/manager.go:580-609 | one round of waiting equals three steps of the gate process at that time |
| ApprovalManager.PollOutcome | internal/approval/manager.go:580-609 | one poll answers approved for an approved row, rejected for any other final one, expires a pending row past its deadline with its decision, and otherwise waits on |
| ApprovalManager.WaitForApproval | internal/approval/manager.go:570-612 | waiting over any ticks of the clock equals the gate process polling at them; once over, later ticks change nothing |
| ApprovalRuns.NextInv | internal/approval/manager.go:250-380 | every step of every process keeps the invariant that ties rows, decision rows and what each process holds in memory to the log of committed changes |
| ApprovalRuns.RunInv | internal/approval/manager.go:118-380 | the invariant holds after any run, and the rows and the log only grow along it |
| ApprovalRuns.FinalStatusIsKeptOrExpires | internal/approval/manager.go:250-380 | in every interleaving a final status never returns to Pending, can only change to Expired, and nothing rejected, cancelled or expired is approved later |
| ApprovalRuns.ReportedApprovalIsReal | internal/approval/persistent_gate.go:93-149 | the persistent gate reports Approved only if some step of the run is the guarded update of an Approve operator on that request while pending, and AutoApproved only if it was created so |
| ApprovalRuns.VerdictHasOperator | internal/approval/manager.go:250-342 | every approval, rejection and cancellation of a run goes back to a guarded update by an Approve, Reject or Cancel operator |
| ApprovalRuns.ToldOkMeansDecided | internal/approval/manager.go:250-342 | an operator told Ok committed the verdict of its own operation |
| ApprovalRuns.ReportedDenialIsFinal | internal/approval/persistent_gate.go:141-149 | an agent told Rejected was denied for good: its request is not approved then nor in any continuation |
| ApprovalRuns.TimedOutAgentHidesApprovalIff | internal/approval/persistent_gate.go:130-138 | an agent whose wait ends is told Expired; this hides an approval if and only if an Approve committed and no expiry write has landed on it |
| ApprovalRuns.OneVerdict | internal/approval/manager.go:770-795 | at most one guarded update ever succeeds on a request |
| ApprovalRuns.OperatorsExclude | internal/approval/manager.go:250-342 | in every run at most one operator process is past its guarded update of a request or was told Ok, also among operators of one kind |
| ApprovalRuns.DecisionRowsAgree | internal/approval/schema.go:45-55 | at most one decision row per request in every interleaving, and it equals the stored status if and only if no expiry write landed on the status it records |
| ApprovalRuns.DecisionsAgreeWithoutExpiry | internal/approval/manager.go:1144-1171 | without expiry writes every decision row equals the stored status, also when an operator stops between its two writes |
| ApprovalStability.StableForever | internal/approval/manager.go:345-380 | a final status survives every continuation when no process holds a stale expiry write for it |
| ApprovalStability.StaleWriterWins | internal/approval/manager.go:345-380 | a process that does hold one can always be scheduled so that the status becomes Expired |
| ApprovalStability.FinalStatusPermanentIff | internal/approval/manager.go:524-612 | in any reachable state a final status is permanent if and only if it is Expired or nobody holds a stale expiry write for it |
| ApprovalStability.ApprovalCanBeOverwritten | internal/approval/manager.go:345-380 | a concrete run in which an approval that was acknowledged and recorded is overwritten by Expired |
| ApprovalStability.TimeoutCanHideApproval | internal/approval/persistent_gate.go:130-138 | from every reachable state with a waiting agent and a request still open, a run in which the agent is told Expired and the request is approved |
| MemoryGate.InMemoryGate.AddPending | internal/approval/gate.go:226-235 | the request becomes pending with an open channel and nothing else changes |
| MemoryGate.InMemoryGate.Approve | internal/approval/gate.go:326-352 | a pending request is settled as approved and its channel closed; otherwise nothing changes and the error tells resolved from unknown |
| MemoryGate.InMemoryGate.Reject | internal/approval/gate.go:355-382 | as Approve, with rejection and reason |
| MemoryGate.InMemoryGate.ExpirePending | internal/approval/gate.go:265-276 | a timed-out waiter expires its request only if it is still pending, without closing the channel |
| MemoryGate.InMemoryGate.CancelForRun | internal/approval/gate.go:385-407 | exactly the pending requests of that run are cancelled, and their number returned, in any map order |
| MemoryGate.InMemoryGate.Clear | internal/approval/gate.go:433-444 | every pending channel is closed and both maps are emptied |
| MemoryGate.SettleMeaning | internal/approval/gate.go:326-352 | settling moves one request to resolved with the given verdict, name and reason, closes its channel once if asked, and touches nothing else |
| MemoryGate.CancelMeaning | internal/approval/gate.go:385-407 | cancelling settles each request of the set as cancelled by the system and touches no other |
| MemoryGateRuns.AutoApprovedIff | internal/approval/gate.go:173-224 | a new call is auto-approved if and only if the gate is off, the mode is chat, the mode is run and that is configured to approve, or the risk is low |
| MemoryGateRuns.NextInv | internal/approval/gate.go:199-283 | every step of callers, waiters, timeouts and operators keeps the gate's invariant |
| MemoryGateRuns.MapsDisjointChannelsClosedOnce | internal/approval/gate.go:326-407 | in every interleaving pending and resolved are disjoint and no channel is closed twice |
| MemoryGateRuns.ResolvedStatusIsPermanent | internal/approval/gate.go:326-444 | a request that has left the pending map never changes status again |
| MemoryGateRuns.ReturnedMeaning | internal/approval/gate.go:199-283 | a waiter is told Approved only after an Approve step on its request; a nil error never hides a rejection or an expiry; the status told is the request's |
| MemoryGateRuns.NoLostWakeup | internal/approval/gate.go:236-283 | a waiter whose request was settled can always wake and return that status |
| MemoryGateRuns.TimeoutHidesVerdictIff | internal/approval/gate.go:264-282 | in every reachable state a timeout tells Expired if and only if the request is still pending; otherwise its error hides the verdict that stands, and an approval if and only if that is one |
| MemoryGateRuns.TimeoutCanHideApproval | internal/approval/gate.go:250-283 | a run in which the waiter returns a timeout error although its request is approved |
| TopologicalSort.BuildGraph | internal/agent/coordinator.go:346-359 | in-degrees and dependent lists describe exactly the dependency edges, with repeats |
| TopologicalSort.SeedQueue | internal/agent/coordinator.go:362-367 | the queue starts with each id of in-degree zero once, in any map order |
| TopologicalSort.Release | internal/agent/coordinator.go:369-381 | taking an id off the queue keeps the relation between queue, order and remaining in-degrees |
| TopologicalSort.TopologicalSort | internal/agent/coordinator.go:344-388 | succeeds if and only if ids are distinct, dependencies are known and acyclic; then the order is a permutation with every dependency earlier |
| TopologicalSort.LeftoversHaveCycle | internal/agent/coordinator.go:383-386 | if ids are left over when the queue runs dry, the dependencies have a cycle |
| TaskGraph.OrderedPlanIsSchedulable | internal/agent/coordinator.go:344-388 | a plan that has any dependency order has no cycle |
| TaskGraph.StuckSetHasCycle | internal/agent/coordinator.go:383-386 | a non-empty set whose members all wait for each other contains a cycle |
| Waves.SelectWave | internal/agent/coordinator.go:405-425 | one pass picks, in order, exactly the subtasks whose longest dependency chain has the wave's number |
| Waves.NoSafetyBreak | internal/agent/coordinator.go:426-430 | while subtasks remain the next wave is not empty |
| Waves.BuildWaves | internal/agent/coordinator.go:392-440 | never takes the safety break, and wave k holds exactly the subtasks whose longest chain has length k |
| Waves.WavesPartition | internal/agent/coordinator.go:392-440 | each subtask is in exactly one wave, once, namely the one of its longest chain |
| Waves.DependenciesInEarlierWaves | internal/agent/coordinator.go:392-440 | each dependency of a subtask is in an earlier wave |
| Waves.WavesAreFewest | internal/agent/coordinator.go:392-440 | no assignment of layers that respects the dependencies uses fewer layers |
| WaveExecution.ReachableInv | internal/agent/coordinator.go:144-202 | after any interleaving, semaphore, channel and wait group count the workers at the matching statements, and exactly the finished subtasks have results |
| WaveExecution.StartsAfterDependencies | internal/agent/coordinator.go:155-190 | a worker past the semaphore finds results of all its dependencies recorded |
| WaveExecution.BoundedConcurrency | internal/agent/coordinator.go:160-175 | never more workers run than the limit allows |
| WaveExecution.NoDeadlock | internal/agent/coordinator.go:155-190 | in every reachable state that is not final some goroutine can move |
| WaveExecution.Terminates | internal/agent/coordinator.go:155-190 | every complete interleaving has the same length, so execution always ends |
| WaveExecution.CollectResults | internal/agent/coordinator.go:192-202 | the results of the ids that have one, in dependency order; one per id when all have one |
| WaveExecution.FinalResults | internal/agent/coordinator.go:144-202 | at the end each subtask has exactly one recorded result, its own |
| WaveExecution.ValidateNoFileConflicts | internal/agent/coordinator.go:329-340 | accepts if and only if no file is listed twice, within or across subtasks |
| WaveExecution.WorkersOwnDisjointFiles | internal/agent/coordinator.go:144-202 | on a validated plan no two workers of a wave own a common file |
| WaveExecution.EffectiveWorkers | internal/agent/coordinator.go:69-80 | the configured limit when positive, else four |
| Blueprint.Validate | internal/blueprint/engine.go:84-113 | accepts if and only if the initial stage exists and every edge leads to a stage or to the end |
| Blueprint.InvalidIff | internal/blueprint/engine.go:84-113 | a blueprint is rejected if and only if its id, name or initial stage is empty, that stage is missing, or an edge leads to an unknown stage |
| Engine.Run.AddResult | internal/blueprint/engine.go:312-314 | appends one result, nothing else |
| Engine.Run.IncrementRetries | internal/blueprint/engine.go:325-328 | one stage's count goes up by one, nothing else |
| Engine.Run.AddCheckpoint | internal/blueprint/engine.go:336-338 | appends the current stage, nothing else |
| Engine.HandleResult | internal/blueprint/engine.go:477-518 | the run, retry total and verdict after a stage result are those of the step function |
| Engine.Execute | internal/blueprint/engine.go:442-521 | the engine loop on a run object equals the step function iterated over the executor's answers |
| EngineRuns.RunsFollowEdges | internal/blueprint/engine.go:442-521 | on a validated blueprint a stage is never missing, each visit follows the edge its result selects, and a run ends Succeeded exactly at an end name |
| EngineRuns.RunsAreRecorded | internal/blueprint/engine.go:311-338 | results are the visits' results in order; checkpoints are exactly the completed checkpointing visits in order |
| EngineRuns.RetriesAreCounted | internal/blueprint/engine.go:477-518 | each stage's retries grow by its counted failures and stay within its limit; the total stays within its limit unless it ended the run |
| EngineRuns.FailuresAreJudged | internal/blueprint/engine.go:494-512 | over every run a failed visit ends the run as a failed stage if and only if its stage has no failure edge or its earlier failures have used up its limit |
| EngineRuns.EndsAreRecorded | internal/blueprint/engine.go:341-360 | the status and error a run is left with, for each way its loop can end |
| EngineRuns.ErrorsBecomeFailures | internal/blueprint/engine.go:599-610 | an executor error makes the result Failed, keeps its output and attempt, and keeps its own cause if it has one |
| EngineRuns.NewRetriesAreFailureEdges | internal/blueprint/engine.go:477-518 | new retries summed over all stages equal the failure edges taken, plus one if the total limit ended the run |
| EngineRuns.CompletedRunsEndCompletedIff | internal/blueprint/engine.go:442-521 | every run that ends Completed after a visit ends on a Completed visit if and only if no stage can retry into the name that ends the loop, or the total limit allows no retry |
| EngineRuns.FailureCanEndNeedsCompleteStage | internal/blueprint/engine.go:84-113 | a validated blueprint has such a retry edge only if a stage is keyed with that name |
| EngineRuns.FailedRunCanEndCompleted | internal/blueprint/engine.go:442-521 | with such a retry edge and a limit of at least one, a run ends Completed on a Failed visit |
| EngineRuns.ValidatedBlueprintCanFail | internal/blueprint/engine.go:84-113 | a blueprint that passes validation and has such a run |
| EngineTermination.Halts | internal/blueprint/engine.go:442-521 | with acyclic success edges and decisive results, any run ends within (retry limit + 1) times the number of stages |
| EngineTermination.AlwaysHaltsIff | internal/blueprint/engine.go:442-521 | every decisive run of a validated blueprint is over within that bound if and only if the success edges have no cycle |
| EngineTermination.CycleNeverHalts | internal/blueprint/engine.go:442-521 | along a success cycle the engine runs for ever on completed results, whatever the retry limit |
| EngineTermination.IndecisionNeverHalts | internal/blueprint/engine.go:442-521 | a result that is neither Completed nor Failed repeats its stage for ever |
| StandardBlueprint.StandardIsStandard | internal/blueprint/engine.go:116-213 | the shipped blueprint is an instance of the stage graph the theorems are about, and is valid |
| StandardBlueprint.CompletedRunIsVerified | internal/blueprint/engine.go:116-213 | for that graph with any retry limits, a run that succeeds has, after its last implement, a completed lint, then test, then review |
| StandardRuns.CompletedRunPassedChecks | internal/blueprint/executor.go:109-196 | with the default executor a completed run visits, after its last implementation, a completed lint, test and review in this order; at the lint and the test visit the command list was not empty, every command succeeded and no quality gate failed |
| StandardRuns.DrivenVisitsAreWitnessed | internal/blueprint/executor.go:94-106 | each visit of a driven run has the result the executor returned for that stage in that environment, or Failed if it returned an error |
| StandardRuns.ShippedRunsAreShort | internal/blueprint/engine.go:116-213 | with the shipped limits a decisive run has at most ten visits, none of a fix stage, and moves on from a failure of implement only |
| StandardRuns.ShippedRunsHalt | internal/blueprint/engine.go:116-213 | the shipped blueprint ends within ten executions and never executes fix_lint or fix_tests |
| StandardRuns.CompletedStatus | internal/blueprint/engine.go:341-360 | a run's status is Completed exactly when its loop ended in success |
| StageExecution.RunCommands | internal/blueprint/executor.go:142-178 | commands run in order up to the first failure, and the result reports it with the output so far |
| StageExecution.ExecuteDeterministic | internal/blueprint/executor.go:109-196 | action, commands, fallbacks and gates combine to the specified result |
| StageExecution.ExecuteAgentic | internal/blueprint/executor.go:291-331 | missing runner, runner error, budget overrun and gates combine to the specified outcome |
| StageExecution.ExecuteStage | internal/blueprint/executor.go:94-106 | a nil error always comes with a result, for every stage type |
| StageExecution.CommandStageVerdict | internal/blueprint/executor.go:109-234 | a command stage is Completed if and only if it has commands, all succeed and no quality gate fails; otherwise it is Failed |
| StageExecution.FirstFailureIsReported | internal/blueprint/executor.go:142-178 | the first failing command ends the stage, and its message and the output up to it are reported |
| StageExecution.SuccessIsReported | internal/blueprint/executor.go:142-178 | what a command stage reports when every command succeeds |
| StageExecution.GatesReport | internal/blueprint/executor.go:199-234 | quality gates leave a result alone unless configured and registered, fail it with their cause, or add a note without changing its status |
| StageExecution.ActionStageVerdict | internal/blueprint/executor.go:110-140 | a stage with a registered action is Completed if and only if the action reported so and no quality gate fails; an action error fails it with its message; any other status is returned as reported |
| StageExecution.AgenticStageVerdict | internal/blueprint/executor.go:291-363 | an agentic stage completes if and only if its agent reports, no hard stop applies and no quality gate fails |
| StageExecution.AgenticFailures | internal/blueprint/executor.go:291-331 | the result of each way an agentic stage fails |
| StageExecution.UnknownTypeFails | internal/blueprint/executor.go:94-106 | a stage of no known type fails with an error |
| StageExecution.OverrunMeaning | internal/blueprint/executor.go:337-363 | a peak above the setting is an overrun; zero stands for 100000 tokens and a negative setting for none |
| StageExecution.MissingActionFails | internal/blueprint/executor.go:180-192 | a stage whose named action is not registered and which has no commands fails |
| StageExecution.FirstFailureMeaning | internal/blueprint/executor.go:142-178 | the stopping command is the first failing one |
| ContextSelection.SelectWithinBudget | internal/context/builder.go:179-206 | the loop over sorted items makes the greedy selection |
| ContextSelection.BuildWithBudget | internal/context/builder.go:160-222 | the result is the greedy selection from some sort of the eligible items, with matching totals |
| ContextSelection.BuildIsGood | internal/context/builder.go:160-222 | included and excluded partition the items of at least the minimum priority; total, remainder and per-type totals are right and respect their limits; for non-negative counts nothing excluded could be added |
| ContextSelection.SelectionIsMaximal | internal/context/builder.go:179-206 | each excluded item still has no room in the final selection |
| ContextSelection.BuildKeepsBetterItems | internal/context/builder.go:160-222 | for non-negative counts an excluded item has no room beside the included items of higher priority, or of equal priority and no larger, alone: a worse item never takes its place |
| ContextTies.BuildsAgree | internal/context/builder.go:160-222 | gather order and tie-breaking change neither the total nor the sequence of (priority, tokens), without caps, with one item per type, or when eligible ties are harmless |
| ContextTies.ArrangementIrrelevant | internal/context/builder.go:170-206 | the same for any two sorted arrangements of the same items |
| ContextTies.SortedKeysUnique | internal/context/builder.go:170-178 | sorting fixes the sequence of (priority, tokens) |
| ContextSelection.CollectSequential | internal/context/builder.go:119-152 | exactly the items gathered, in gatherer order, kept even beside an error |
| ContextSelection.CollectConcurrent | internal/context/builder.go:307-395 | exactly the items gathered without an error, in arrival order |
| ContextTies.ConcurrentAgreesWithSequential | internal/context/builder.go:307-395 | when every gatherer succeeds both builders agree on the total and the sequence of keys, for every arrival order |
| ContextTies.HarmlessArrangements | internal/context/builder.go:170-206 | for any caps and non-negative counts, harmless ties leave total, keys and the use of capped types (unless the budget is spent) the same for all sorted arrangements |
| ContextTies.HarmfulTieMatters | internal/context/builder.go:179-206 | for any other tie, surroundings and a budget in which the order of the two items changes the total |
| ContextTies.OrderNeverMattersIff | internal/context/builder.go:179-206 | the order of two tied items never matters, in any surroundings and budget, if and only if they share a type, have at most one token, one of them exceeds its cap alone, or neither type is capped |
| ContextTies.TiesMatterWithCaps | internal/context/builder.go:160-222 | for every cap of two or more, a build with two possible totals |
| ContextTies.BuildsDeterminedIff | internal/context/builder.go:160-222 | for non-negative counts every build has one possible total and sequence of keys if and only if every cap is at most one |
| ContextSelection.AvailableForContext | internal/context/types.go:481-487 | the total less both reservations, or zero when they exceed it |
| ContextPlan.TruncationPanicsIff | internal/context/gatherer.go:215-234 | truncation slices out of range if and only if the limit is one to four and the estimate exceeds it |
| ContextPlan.TruncationFits | internal/context/gatherer.go:206-234 | from a limit of five on the result is within it, is the content exactly if that fits, keeps its prefix otherwise, and is stable under truncation |
| ContextPlan.EstimateMeaning | internal/context/gatherer.go:206-212 | four bytes to a token, rounded up |
| ContextPlan.ApplyBudgetAndRedact | internal/context/builder.go:913-946 | the loop makes the recursive budget pass |
| ContextPlan.PassStaysWithin | internal/context/builder.go:913-946 | the pass never exceeds the budget, under high sensitivity if counts are the estimates |
| ContextPlan.PassExceedsIff | internal/context/builder.go:913-946 | with any non-negative counts a high-sensitivity pass exceeds the budget if and only if it comes to an item whose count fits what is left and whose estimate does not |
| ContextPlan.MismatchedCountsCanExceed | internal/context/builder.go:932-938 | under high sensitivity an item counted as zero passes whatever its size |
| ContextPlan.PassKeepsFitting | internal/context/builder.go:913-946 | items that fit together pass unchanged |
| ContextPlan.PassShape | internal/context/builder.go:913-946 | items are taken in order up to the first that does not fit, which is cut to what is left and kept if and only if more than a hundred tokens are left |
| ContextPlan.FilterItemsByZones | internal/context/builder.go:790-832 | keeps, in order, exactly the essential items and those whose source matches a zone |
| ContextPlan.KeptInZones | internal/context/builder.go:790-817 | instructions, environment and package information are always kept, other items if and only if a zone matches |
| ContextPlan.ZoneMatches | internal/context/builder.go:820-832 | a source matches a zone it starts with or contains as a directory |
| ContextPlan.ZoneMisses | internal/context/builder.go:820-832 | and does not match one that it neither starts with nor contains as a directory |
| ContextPlan.RankByKnowledgeSources | internal/context/builder.go:835-910 | a permutation with scores not increasing |
| ContextPlan.EarlierSourceRanksAbove | internal/context/builder.go:835-892 | an item of an earlier knowledge source ranks above one of a later source or of none, at any age, if its priority is at most four lower |
| ContextPlan.AgeAndPriorityRank | internal/context/builder.go:869-892 | within a source, how many steps of priority the last minute and the last hour outweigh, and that priority decides at equal age |
| ContextPlan.KnowledgeSources | internal/context/builder.go:895-910 | the knowledge source of every context type |
| ContextPlan.NothingIsCut | internal/context/builder.go:704-787 | after the first stage the last one, having the same budget, drops and cuts nothing |
| ContextPlan.ZoneStageMeaning | internal/context/builder.go:755-787 | without zones nothing is filtered; with zones exactly the items that belong are kept |
| ContextPlan.BuildWithPlan | internal/context/builder.go:721-752 | the pack is exactly the zone-filtered first-stage selection, ranked, within the budget |
| CachePrune.MarkAged | internal/context/cache.go:112-119 | the aged entries are a prefix of access order, and the rest is summed |
| CachePrune.MarkExcess | internal/context/cache.go:122-143 | marks on in access order while the rest is too large, and stops when it is not |
| CachePrune.PlanPrune | internal/context/cache.go:95-143 | the deletions are a prefix of access order that meets both limits and of which each was called for |
| CachePrune.Cache.Prune | internal/context/cache.go:95-151 | exactly that prefix is removed: nothing aged stays, the rest is within a positive limit, and nothing deleted was accessed after something kept |
| CachePrune.PlanIsUnique | internal/context/cache.go:95-143 | limits and access order determine the deletions |
| CachePrune.PlanMeaning | internal/context/cache.go:95-143 | what is kept is within a positive age and size limit, and each deleted entry was too old or headed too large a rest |
| CachePrune.LeastRecentlyUsedGoFirst | internal/context/cache.go:95-143 | no deleted entry was accessed after a kept one |
| CachePrune.PruneAgainDeletesNothing | internal/context/cache.go:95-151 | pruning again with the same limits and clock deletes nothing |
| BudgetMonitor.ThresholdMeaning | internal/budget/config.go:125-143 | in a valid configuration each level starts at its share of the limit, and the four levels cover every spend |
| BudgetMonitor.NewStatus | internal/budget/config.go:194-236 | for each of total, daily and session: it is the reason if and only if blocking is on, its positive limit is reached and none before it is; the levels are those of the spends |
| BudgetMonitor.HighestThreshold | internal/budget/config.go:239-266 | Exceeded if any level is, else Critical if any is, else Warning if any is, else none |
| BudgetMonitor.Monitor.CheckAndAlert | internal/budget/monitor.go:218-264 | one attempt to alert, with its cooldown |
| BudgetMonitor.Monitor.Check | internal/budget/monitor.go:149-176 | an exceeded error if and only if enabled and blocked; the reason is decided per budget as in the status; the three levels are those of the spends, or unset without a limit, and are attempted in order |
| BudgetMonitor.AlertsAreSpaced | internal/budget/monitor.go:218-264 | over any run two alerts of the same type, level and session are at least the cooldown apart |
| BudgetMonitor.AlertsUnlessRecent | internal/budget/monitor.go:218-240 | an attempt alerts if and only if its level is not none and no such alert is more recent than the cooldown |
| BudgetMonitor.FirstCheckAlertsIff | internal/budget/monitor.go:163-222 | a budget alerts on its first check if and only if it is not configured or the spend reaches the warning share |
| BudgetMonitor.FirstCheckSends | internal/budget/monitor.go:163-222 | a first check sends, in the order total, daily, session, one alert for each level that is not none |
| Spend.LoopHook.HandleEvent | internal/budget/hook.go:46-93 | a cost event moves the ledger one step and is checked against the recorded session spend; other events change nothing |
| Spend.LoopHook.OnCostUpdated | internal/budget/hook.go:97-133 | a report moves the ledger one step and is checked against the reported cost |
| Spend.LoopHook.GetDailySpend | internal/budget/hook.go:143-155 | reading rolls the day over and returns the daily spend |
| Spend.LoopHook.ResetSession | internal/budget/hook.go:165-169 | forgets one session, and changes neither the total nor the daily spend |
| Spend.SpendIsOwn | internal/budget/hook.go:65-79 | a session's spend depends on its own reports and resets alone |
| Spend.SpendIsRunningMaximum | internal/budget/hook.go:65-79 | without resets it is the highest report, or zero, and is what the session was charged |
| Spend.TotalIsSumOverSessions | internal/budget/hook.go:46-133 | the total is the sum of what each session was charged, in every interleaving, resets included |
| Spend.TotalIsSumOfSpends | internal/budget/hook.go:46-133 | without resets that is the sum of the running maxima |
| Spend.InterleavingIsIrrelevant | internal/budget/hook.go:46-133 | runs in which every session sees the same events agree on the total and every session's spend |
| Spend.DailyWithinTotal | internal/budget/hook.go:46-133 | the total never falls and the daily spend never exceeds it |
| Spend.DailyIsGrowthSinceRollover | internal/budget/hook.go:57-79 | from the first event of a new day of the year the daily spend is the growth of the total |
| Spend.DailyIsTodaysSpendIff | internal/budget/hook.go:57-79 | the daily spend is exactly what was spent on the date if and only if the day of the year had changed or nothing was carried over |
| Spend.SameDayNextYearStillCounts | internal/budget/hook.go:57-62 | the same day of the next year is not a new day when nothing came between |
| Spend.TotalBlockLatches | internal/budget/hook.go:46-133 | once the total of the books blocks, so does the total at every later point of the run |
| SpendChecks.ChecksDoNotTouchTheBooks | internal/budget/hook.go:54-90 | however checks are scheduled after the lock is released, the books are those of the updates in lock order |
| SpendChecks.BlockedOnTotalIff | internal/budget/hook.go:115-132 | a check is blocked on the total if and only if the total its update captured reaches the limit |
| SpendChecks.SessionVerdicts | internal/budget/hook.go:81-132 | with a session limit alone, the check of a direct update is blocked by the cost reported, that of an event by the higher of it and the earlier spend |
| SpendChecks.DailyVerdicts | internal/budget/hook.go:81-132 | with a daily limit alone, a check is blocked by the daily spend its update captured |
| SpendChecks.LaterUpdatesAreBlocked | internal/budget/hook.go:81-90 | if the check of one update is blocked on the total, so is the check of every later update, whichever runs first |
| SpendChecks.CheckCanPassAfterBlock | internal/budget/hook.go:115-132 | for every positive limit, a run in which a check passes after another was blocked on the total |
| SpendChecks.LaterChecksBlockedIff | internal/budget/hook.go:81-132 | in any reachable state every later check is blocked on the total if and only if the total reaches the limit and no update that captured less is still to be checked |
| Spend.RecordedSessionBlockLatches | internal/budget/hook.go:64-90 | a session block on the recorded spend lasts until that session is reset |
| Spend.ReportedVerdictDiffersIff | internal/budget/hook.go:108-132 | the reported and the recorded session verdict differ if and only if a session at its limit reports less than the limit |
| Spend.ReportedSessionBlockCanLift | internal/budget/hook.go:97-133 | a concrete run in which a session block by direct updates is lifted by a lower report |
| Batches.CreateBatches | internal/agent/executor.go:206-243 | min(files, agents) non-empty contiguous batches that concatenate to the input, sizes differing by at most one, larger first |
| Batches.AssignAgents | internal/agent/executor.go:83-156 | a stage runs in parallel if and only if it may and more than one file and agent exist; then there is one agent per batch and all files are handed out in order |
| Batches.LimitMeaning | internal/agent/executor.go:71-80 | the stage's own positive limit, else the executor's positive one, else four |
| Batches.EveryPositionHasOneAgent | internal/agent/executor.go:108-134 | each position of the file list is worked on by exactly one agent |
| TerminalReducer.Reduce | internal/cli/execution_stdio.go:381-398 | terminal and result are those of the reduction function |
| TerminalReducer.Execute | internal/cli/execution_stdio.go:346-366 | the serve loop writes the specified output |
| TerminalReducer.OneTerminalThenOneResult | internal/cli/execution_stdio.go:346-398 | for every stream the output is exactly its progress events in order, one terminal event, and one result whose outcome and reason the terminal's type determines |
| TerminalReducer.OutputCases | internal/cli/execution_stdio.go:346-416 | the last two envelopes in every case: a failure with its cause for an error without terminal, the provider's own terminal and result when they agree, a protocol error otherwise, with the error text |
| TerminalReducer.SuccessIff | internal/cli/execution_stdio.go:346-416 | the output reports success if and only if there was no error, the stream holds exactly one terminal event, a completion, and the given result is plainly successful |
| TerminalReducer.ReductionCases | internal/cli/execution_stdio.go:381-426 | which of the three verdicts each combination of terminals, result and error gets |
| TerminalReducer.ReasonsDifferIff | internal/cli/execution_stdio.go:400-416 | the reasons of terminal and result differ if and only if a matching terminal that is not inconclusive carries one |
| TerminalReducer.CompletionMayCarryReason | internal/cli/execution_stdio.go:400-416 | an instance of that |
| TerminalReducer.ReductionIsStable | internal/cli/execution_stdio.go:381-398 | reducing a reduced pair changes nothing |

## Left out

- Storage: SQL text, JSON, UUIDs and time formatting; tables are maps, time is an integer, ids are values.
- Storage failures other than a broken uniqueness constraint or a failed guard.
- Approval policies: whether a request is auto-approved, and its first deadline, are supplied by the environment.
- CheckApproval by tool call: the model looks the request up by its own id.
- Shared pointers of gate requests: a waiter's pointer is represented by the request's id.
- InMemoryGate listing, statistics and description formatting.
- Planning, merging, patches and everything else that calls git, a shell or a language model; a worker's result is arbitrary.
- Engine Pause, Resume, Cancel and single-stage execution from outside; Execute does not consult them.
- Stage artifacts, timestamps, prompts and variable expansion in commands.
- ContextSelection.CollectConcurrent: the goroutines and their semaphore appear only as an arbitrary arrival order.
- The formatted context string, the context hash, and the list of sensitive keywords found; the content is not changed by redaction.
- Cache.Put and Cache.Get, and deletions that fail.
- Rounding of money; alert texts, percentages, handlers and the audit log; changes of the budget configuration.
- Spend.LoopHook.HandleEvent: does not model restoring totals from the audit log at start-up.
- Agent registration, and merging of agent results in parallel stages.
- The describe and probe operations of the stdio protocol, version negotiation, and writes that fail.
