# A Dafny model of the zen-flow controller

This project models the JobFlow controller of zen-flow and proves what holds of it over
every run. A JobFlow is a list of steps with dependencies. The controller is woken up again
and again; each time it reads the stored status of a flow, works out what to do on a copy in
memory, creates and deletes Kubernetes Jobs, and writes the status back. Between two passes
Jobs succeed, fail or vanish, approvals appear, time passes, and a write may have been lost.

The model has three layers.

* **The code as it is.** The controller's methods appear as Dafny methods that update a
  `JobFlow` object and an API-server object in place (`Objects`, `Reconciler`, `Executor`,
  `Controller`). The graph search, the validator's search, the parameter substitution and the
  artifact store are methods with mutable state too (`Dag`, `Validation`, `Substitution`,
  `Artifacts`). Where Go iterates over a map or runs goroutines, the method picks the next
  element freely, so its contract covers every order.
* **The pass as a function.** `Transition` defines what one pass does to the stored status, the
  cluster's Jobs and the copy in memory. Each method is proved against its stage, and
  `Controller.JobFlowReconciler.Reconcile` against the whole function. `StageLaws` and `LoopLaws`
  say what the stages come to without using their definitions, in terms of specification,
  stored entries, Jobs, annotations and clock alone; `RunLaws` carries that to whole passes of
  every run.
* **Runs.** A run (`Runs`) is any sequence of passes and of arbitrary changes to the cluster's
  Jobs. A pass gets arbitrary inputs: every single reading of the clock, the annotations, the
  answer to every Job lookup (which may be stale), and the faults of every request (a failed
  request may have taken effect all the same). A pass may also read an outdated copy of the
  flow, with any status that was ever stored; then all its status writes conflict.
  `Invariant` holds what every stage keeps; `Guarantees`, `Budgets`, `Retrying`, `Orphans`,
  `Relaunch` and `Levels` prove statements about all runs, and `Overruns` builds runs that show
  what their conditions are good for.

Around this core stand the supporting algorithms: the two cycle detectors (`Digraph`, `Dag`,
`Validation`), the execution plan (`Planning`), int64 retry delays (`Backoff`), the goroutines
of the parallel refresh (`Interleaving`), the shared cache of sorted graphs under concurrent
passes (`CacheRaces`), placeholder substitution (`Substitution`), the `step:$.path` notation
(`JsonPath`) and artifacts in ConfigMaps (`Artifacts`).

`dafny verify dfyconfig.toml` checks everything.

## Findings

What the documentation promises does not always hold of the code. The exact conditions:

* *Failed steps are retried after a configured delay* (docs/USER_GUIDE.md:201,
  docs/DISASTER_RECOVERY.md:78). Every refresh that sees a failed Job sets the step's completion
  time anew, and the delay is counted from there. So a retry that is due happens if and only if
  the pass does not see the Job, or the whole delay goes by within that pass, between its
  refresh and its retry test (`Retrying.DueRetryCountedIff`; `Retrying.ShortDelayElapses` is the
  case of a delay of one nanosecond). While passes are quicker than the delay and see the failed
  Job, the step stays failed in every run (`Retrying.SeenFailureIsFinal`). A step whose Job could
  not be created is retried at once, whatever the delay (`Retrying.LostCreationDueAtOnce`).
* A retry reuses the name of the old Job and does not delete it. While the old Job is there the
  retried step gets none and does not succeed (`Orphans.RetryNeverRuns`). In general a step that
  comes to its turn gets its Job if and only if the Job's name is free and the request succeeds;
  otherwise it fails without one (`Relaunch.PlannedRunsIff`).
* Lost status writes and outdated reads never break the start order, the approval gates or the
  budget of stored retries. They can cost a step its Job: a step whose first Job was accepted
  in a pass whose writes were lost does not know that Job (`Orphans.LostStartOrphans`; such runs
  exist, `Overruns.OrphanExists`), and while it is there gets no other (`Orphans.OrphanForever`).
* Removing the Job that is in the way helps only in time. Once the step has failed without a Job
  it never changes again, whatever is removed, if and only if it has no retry left or the flow is
  past its backoff limit (`Relaunch.FinalIff`). What a full pass makes of a step without a Job is
  `Relaunch.UnlinkedNext`.
* *continueOnFailure: whether flow continues if this step fails* (docs/API_REFERENCE.md:79). Only the
  steps that depend on a failed step without it are held back (`RunLaws.NoStartPastFailure`). The
  phase plays no part in the plan, so a flow marked Failed goes on with its other steps
  (`RunLaws.PassPlansIff`). While steps are left, a full pass fails the flow only over a step
  without that setting which expires or fails in its turn (`RunLaws.FlowAfterPass`). But a manual
  step that begins to wait later in the same pass covers the failure up: the flow is Paused, with
  a completion time (`LoopLaws.PausedOverFailure`).
* Behind a closed gate the stored steps stay as they are. No Job is created either once the
  deadline has passed. Behind the backoff limit an outdated pass can still create one
  (`Overruns.StalePassPastGate`), but only if the status that it reads is below the limit
  (`Budgets.BackoffLimitStops`).
* *Approve a step with the annotation* `workflow.kube-zen.io/approved/<step-name>`
  (docs/USER_GUIDE.md:403). The key has two slashes, and Kubernetes allows an annotation key only
  one. With keys that it accepts, no manual step ever succeeds
  (`Guarantees.QualifiedKeysNeverApprove`).
* Deadlines and timeouts given in seconds are multiplied into int64 nanoseconds. They are the
  configured ones if and only if they are at most 9223372036 seconds
  (`Budgets.DeadlineExactIff`); a deadline one second longer has passed when the flow starts
  (`Budgets.LongDeadlineFailsAtOnce`).
* The retry total is an int32. It is right if and only if the true total fits
  (`Budgets.BackoffGateExactIff`). For two independent steps with unlimited retries the
  retry budget holds over all runs if and only if backoff limit plus two fits an int32; beyond
  that a run wraps past the gate (`Overruns.BudgetHoldsIff`).
* Placeholder substitution is simultaneous, whatever Go's map order, if literals and values are
  harmless: none of their opening braces could be completed to a placeholder by the right text
  before and after (`Substitution.HarmlessIff` decides it). `${HOME}` and `{"k":1}` are harmless.
  This is exact: any other value, and any other literal without a whole placeholder, makes the
  result depend on the order in some template (`Substitution.ValueSafeIff`,
  `Substitution.LiteralSafeIff`).
* ConfigMap names of artifacts keep the steps of one flow apart but not two flows of one
  namespace (`Artifacts.SameEntryIff`, `Artifacts.FlowsCanCollide`).
* docs/ARCHITECTURE.md:113-117 puts timeouts and retries before the execution plan, and lines
  91-92 list `GetReadySteps()` and `HasCycles()`. In the code the plan comes first and neither
  function exists. The model follows the code; this is why a retried step starts one pass later.

## Model

| member | source | states |
|---|---|---|
| Dag.BuildDAG | pkg/controller/dag/dag.go:38-54 | the graph holds exactly the steps of the list; for a repeated name the last one wins |
| Dag.Graph.TopologicalSort | pkg/controller/dag/dag.go:63-101 | for every graph and every iteration order: an error if and only if there is a cycle, and then for a name on a cycle; otherwise every name that occurs, once, each after all it depends on |
| Dag.Marks.Visit | pkg/controller/dag/dag.go:68-91 | the recursive search terminates on cyclic graphs too, reports only names on cycles, and extends the sorted list without breaking its order |
| Dag.StepMapFind | pkg/controller/dag/dag.go:38-59 | with distinct names, looking a step up in the graph and searching the list agree |
| Digraph.OrderedIsAcyclic | pkg/controller/dag/dag.go:63-101 | a list that orders every name of a graph rules out cycles |
| Digraph.OrderableIffAcyclic | pkg/controller/dag/dag.go:61-101 | a dependency graph can be sorted if and only if it has no cycle |
| Digraph.ChainBound | pkg/controller/dag/dag.go:61-101 | a name's place in a sorted list is at least the length of its longest dependency chain |
| Validation.ValidateSteps | pkg/validation/validator.go:108-145 | accepts exactly the sound lists, otherwise reports the first fault in checking order |
| Validation.ValidateJobFlow | pkg/controller/reconciler.go:328-362 | the controller's own check gives the same verdict, fault by fault |
| Validation.VerdictUnique | pkg/validation/validator.go:108-145 | at most one verdict fits a list, so the two checks accept exactly the same lists |
| StageLaws.ValidIff | pkg/controller/reconciler.go:328-362 | valid are exactly the nonempty lists of named steps without repeated names in which every nonempty dependency names a step |
| Validation.BuildAdjacency | pkg/validation/validator.go:149-165 | the validator's graph has a node for every step and an edge for every dependency that names a step |
| Validation.CycleSearch.Dfs | pkg/validation/validator.go:171-188 | the search reports an edge only if both its ends lie on a cycle, and otherwise finishes every node it reaches in dependency order |
| Validation.ValidateDAG | pkg/validation/validator.go:148-200 | an error if and only if the declared dependencies have a cycle, for every iteration order; the reported edge joins two names on cycles |
| Validation.CycleThroughEdge | pkg/validation/validator.go:181-183 | an edge back onto the search path closes a cycle through both its ends |
| Validation.DetectorsAgree | pkg/validation/validator.go:148-200 | on every list that passes the step checks the validator sees a cycle exactly when the controller's sort does, although only the sort keeps empty dependency names |
| Backoff.ValidateTimeout | pkg/validation/validator_enhanced.go:102-123 | accepts the empty text and durations above zero up to 30 days, nothing else |
| Backoff.DoublingExactIff | pkg/controller/reconciler.go:1316-1344 | a doubling delay is exact in int64 if and only if its mathematical value fits |
| Backoff.LongestBaseThreshold | pkg/controller/reconciler.go:1340-1342 | with the longest accepted base the doubling delay is right up to retry 11 and wrong from 12 on |
| Backoff.BackoffExact | pkg/controller/reconciler.go:1316-1344 | for accepted policies and at most 11 retries every integer branch gives the documented delay, which is positive |
| Backoff.BackoffExactIff | pkg/controller/reconciler.go:1316-1344 | for every policy with an integer branch and every count the delay is the documented one, with one second for a text that is no duration, if and only if that fits an int64 |
| Backoff.PolicyAcceptedIff | pkg/validation/validator_enhanced.go:126-162 | accepted are exactly the policies with a limit that is not negative, one of four kinds, a duration that is empty or up to 30 days, and a factor of at least one |
| Backoff.BackoffMonotone | pkg/controller/reconciler.go:1316-1344 | later retries never wait less |
| Planning.PlanExact | pkg/controller/reconciler.go:522-598 | the plan is the subsequence of the sorted steps that are pending, have every dependency completed and a true condition |
| StageLaws.PlannedIff | pkg/controller/reconciler.go:522-598 | planned is exactly a step whose entry is pending, all of whose dependencies have an entry that succeeded or failed with ContinueOnFailure, and whose condition is empty or true |
| Planning.PlanIgnoresOrder | pkg/controller/reconciler.go:522-598 | as a set the plan does not depend on which topological order was supplied |
| Planning.PlanAntichain | pkg/controller/reconciler.go:571-578 | no step is planned together with one of its dependencies |
| Planning.PlanProgress | pkg/controller/reconciler.go:522-598 | no scheduling deadlock: if a step is pending and all others are pending or completed, something can start |
| Planning.JobNameInjective | pkg/controller/reconciler.go:704-709 | different steps of a flow have different Job names |
| Reconciler.CheckActiveDeadline | pkg/controller/reconciler.go:1138-1152 | true exactly if there are a deadline and a start time and more than that many seconds lie between start and clock; beyond int64 nanoseconds the wrapped deadline counts |
| Reconciler.CheckBackoffLimit | pkg/controller/reconciler.go:1155-1168 | true exactly when the int32 sum of retry counts exceeds the limit |
| Reconciler.InitializeJobFlow | pkg/controller/reconciler.go:370-395 | every step gets a fresh pending entry, in order; the result is stored unless templates fail or the write is lost |
| StageLaws.GatesOpenIff | pkg/controller/reconciler.go:139-217 | the gates let through exactly the valid, initialised flows that are on time, within their total of retries, own or default, and pass the concurrency check |
| StageLaws.StoppedPass | pkg/controller/reconciler.go:139-243 | what a pass stores that a gate, the initialisation or a cycle ends |
| Reconciler.CheckManualApprovals | pkg/controller/reconciler.go:1619-1672 | exactly the waiting steps with an approval annotation succeed; the flow is paused while any step waited and resumes one pass later |
| Reconciler.RefreshStepStatuses | pkg/controller/reconciler.go:446-486 | without failing lookups every entry is refreshed; otherwise those before the first failing lookup are and the others stay |
| Reconciler.RefreshStepStatusesParallel | pkg/controller/reconciler.go:1773-1837 | however the tasks interleave, the statuses are those of the pointwise refresh; an error if and only if some lookup fails with something other than "not found" |
| Interleaving.Confluent | pkg/controller/reconciler.go:1773-1837 | even with its own clock and answers for every task, each step ends with the phase of its own lookup and its Job reference, and the error exists if and only if some lookup failed |
| Interleaving.SchedulesAgree | pkg/controller/reconciler.go:1773-1837 | schedules with the same answers end in the same phases |
| Interleaving.AgreesWithSequential | pkg/controller/reconciler.go:446-486 | without failing lookups the parallel refresh gives the phases of the sequential one |
| StageLaws.SeenEntries | pkg/controller/reconciler.go:491-517 | what a pass takes every entry for, exactly, and when it notes it: from the Job that is found, gone or not to be looked up, or the annotation "true" under the approval key |
| StageLaws.SeenFlow | pkg/controller/reconciler.go:1661-1671 | the flow is paused while some step waited for approval and resumes when none did |
| Executor.CreateExecutionPlan | pkg/controller/reconciler.go:522-598 | the loop over the sorted steps collects exactly the ready ones, in order |
| StageLaws.TimeoutsMean | pkg/controller/reconciler.go:1171-1245 | a running step fails exactly if the clock read for it is more than its timeout past its start; exactly the Jobs of those steps go that can be deleted; the flow fails exactly if one of them lacks ContinueOnFailure |
| Executor.CheckStepTimeouts | pkg/controller/reconciler.go:1171-1245 | exactly the timed-out steps fail, their Jobs are deleted unless looking up or deleting fails at that moment, and the flow fails if one of them may not be ignored |
| Executor.RetryFailedSteps | pkg/controller/reconciler.go:272-280 | with distinct names the loop resets exactly the steps whose retry is due |
| StageLaws.RetryMeans | pkg/controller/reconciler.go:1248-1313 | a failed step is retried exactly if its count is below its own limit, or the default, and the delay since its completion time is over; it starts anew with one more counted |
| Executor.ExecuteReadySteps | pkg/controller/reconciler.go:283-297 | the loop is the run of the single turns up to the first retryable error |
| LoopLaws.JobTurn | pkg/controller/reconciler.go:655-686 | a step's turn: its Job and the running entry if name and request are fine; else the pass ends on a retryable fault, and otherwise the step fails, and the flow unless it may continue |
| LoopLaws.ManualTurn | pkg/controller/reconciler.go:1675-1716 | a manual step's turn: success if approved, else waiting and the flow paused, written at once; what faults of that write do |
| LoopLaws.ExistingJob | pkg/controller/reconciler.go:764-845 | a step that refers to a Job: success if that succeeded or failed tolerably, failure or running otherwise, written at once; started if it is gone; untouched if it cannot be looked up |
| LoopLaws.LoopMeans | pkg/controller/reconciler.go:848-893 | the loop fails the flow only over a listed step without ContinueOnFailure that fails in its turn, pauses it only over an unapproved manual step, and stops exactly on a retryable fault; the last such turn decides the phase |
| LoopLaws.PausedOverFailure | pkg/controller/reconciler.go:1696-1714 | a manual step that begins to wait after a failure turns the phase from Failed to Paused |
| Executor.CheckCompletion | pkg/controller/reconciler.go:972-984 | the loop with its early break decides completeness, and success where that means something |
| Executor.UpdateJobFlowStatus | pkg/controller/reconciler.go:933-1024 | counters and phase are those of the steps; the result is stored unless the write is lost |
| LoopLaws.EndMeans | pkg/controller/reconciler.go:933-1012 | the counters are the numbers of succeeded and failed entries; Succeeded or Failed once all entries are one of them; until then a pending flow becomes Running and others stay |
| Controller.JobFlowReconciler.GetOrBuildDAG | pkg/controller/reconciler.go:1719-1758 | fresh or cached: the current graph and a topological order of it, or the cycle error exactly if there is a cycle, and then nothing is cached |
| Controller.JobFlowReconciler.Reconcile | pkg/controller/reconciler.go:100-303 | for distinct entry names a whole pass, however long it takes, leaves the server as the transition function says, with a legal order and error choice |
| Guarantees.OneEntryPerStep | pkg/controller/reconciler.go:370-385 | every status that a run ever stored has one entry per step, in order, so the names that Reconcile needs distinct always are |
| CacheRaces.CacheTransparent | pkg/controller/reconciler.go:1719-1758 | however calls for any flows interleave, each returns its own graph with a valid order or the cycle error; cyclic lists are never cached |
| CacheRaces.SamePlan | pkg/controller/reconciler.go:1719-1758 | a plan from the cache has the ready set of a plan from a fresh build |
| CacheRaces.CollisionReturnsOldGraph | pkg/controller/reconciler.go:1761-1770 | if the hash confuses two lists, two calls suffice to get the old graph for the new list |
| CacheRaces.TransparentIffSeparates | pkg/controller/reconciler.go:1719-1770 | the cache is transparent in all interleavings if and only if the hash separates sortable lists from all others |
| Invariant.NoExistingJob | pkg/controller/reconciler.go:637-653 | a pending step refers to no Job, so executing it starts it |
| Invariant.StartStepEffect | pkg/controller/reconciler.go:655-686 | starting a pending step leaves every other entry alone, creates at most its own Job, keeps the field invariants, and lets a manual step succeed only with an approval; without an error the step is no longer pending |
| Invariant.FailureEffect | pkg/controller/reconciler.go:848-893 | marking the executed step as failed touches no other entry and keeps the field invariants |
| Invariant.TurnKeeps | pkg/controller/reconciler.go:611-686 | executing a step changes its entry alone, keeps the field invariants and creates no other step's Job |
| Invariant.RunReadyKeeps | pkg/controller/reconciler.go:283-297 | the execution loop keeps the invariants in memory and in every status it writes, and changes planned steps only |
| Invariant.RetriesKeep | pkg/controller/reconciler.go:1248-1313 | retries keep the field invariants and every step's own limit |
| Runs.PassKeeps | pkg/controller/reconciler.go:100-303 | any pass, with any faults, keeps the run invariant |
| Runs.RunKeeps | pkg/controller/reconciler.go:100-303 | the run invariant holds after every legal run, for every status that was ever stored |
| Runs.StaleKeeps | pkg/controller/reconciler.go:124-136 | a pass on an outdated flow keeps the run invariant as well |
| Runs.ConflictsWriteNothing | pkg/controller/reconciler.go:1018-1024 | a pass whose writes all conflict leaves the stored status as it is |
| Guarantees.StartOrder | pkg/controller/reconciler.go:522-598 | when a step first leaves Pending or gets a Job, everything it depends on, directly or not, did so in an earlier pass |
| Guarantees.StartWasPlanned | pkg/controller/reconciler.go:258-297 | a step first starts only in a pass whose plan holds it, that is, which saw each dependency succeeded, or failed with leave to continue, in the status that it read |
| RunLaws.PassPlansIff | pkg/controller/reconciler.go:522-598 | over every run, which steps a pass plans, in terms of the status that it read and what it was told of Jobs, approvals and conditions |
| RunLaws.StartSawDependencies | pkg/controller/reconciler.go:544-578 | the pass that first starts a step takes each of its dependencies for succeeded, or for failed with ContinueOnFailure |
| RunLaws.NoStartPastFailure | pkg/controller/reconciler.go:545-549 | no step first starts in a pass that takes one of its dependencies for failed without ContinueOnFailure |
| Guarantees.ApprovalGate | pkg/controller/reconciler.go:1675-1716 | no Job behind a manual step that may not be skipped is created unless some pass so far read that step's approval as "true" |
| Guarantees.ApprovalObserved | pkg/controller/reconciler.go:1636-1640 | the approval history consists of exactly the approvals that passes have read |
| RunLaws.SuccessWasGranted | pkg/controller/reconciler.go:1636-1640 | a manual step is stored as succeeded only if some pass read the annotation "true" under its approval key |
| Guarantees.QualifiedApprovesNothing | pkg/controller/reconciler.go:1636-1637 | no map of annotation keys with at most one slash each approves any step |
| Guarantees.QualifiedKeysNeverApprove | pkg/controller/reconciler.go:1679-1680 | over every run with such keys no manual step ever succeeds, and no Job behind one that may not be skipped is created |
| Guarantees.BrokenFlowNeverStarts | pkg/controller/reconciler.go:139-243 | a flow with an invalid list or a cycle never starts a step or creates a Job |
| Guarantees.FieldsAlwaysAgree | pkg/controller/reconciler.go:656-686 | in every status ever stored phase, Job reference and times agree: running means a Job and a start time, pending means none of either, waiting for approval means no Job, success without a Job means manual |
| Guarantees.ExistingJobBranchUnreachable | pkg/controller/reconciler.go:637-653 | in no pass after any run, whichever stored status it reads, does the execution loop meet a step that already refers to a Job |
| Guarantees.HaltedForever | pkg/controller/reconciler.go:166-208 | once a gate closes the stored step statuses never change again, and the phase is Failed as soon as one write takes effect |
| Guarantees.NothingStartsBehindGate | pkg/controller/reconciler.go:166-208 | nor does a step start or a Job come into being, if the passes on outdated flows are stopped too |
| Budgets.BackoffGateExactIff | pkg/controller/reconciler.go:1161-1167 | the int32 total of retries is right if and only if the true total fits |
| RunLaws.CountWithinPolicy | pkg/controller/reconciler.go:1273-1283 | every count ever stored is at most the limit of the policy, the default where it sets none, and zero without a policy |
| Budgets.RetryBudget | pkg/controller/reconciler.go:1248-1313 | in every status that any run has stored each step is within its own limit, and all retries together are within the backoff limit plus one per step with a policy |
| Budgets.StepLimitsTotal | pkg/controller/reconciler.go:1261-1281 | and, whatever the backoff limit is and even if the sum in its gate wraps, within what the policies of the steps allow together |
| Budgets.BackoffLimitAbsorbs | pkg/controller/reconciler.go:189-208 | once the stored total exceeds the limit the stored steps never change and the flow fails, whatever the clock does |
| Budgets.BackoffLimitStops | pkg/controller/reconciler.go:189-208 | and no Job is created, unless a pass reads an outdated status below the limit |
| Overruns.BudgetHoldsIff | pkg/controller/reconciler.go:1155-1168 | for two independent steps with unlimited retries the budget holds over all runs if and only if backoff limit plus two fits an int32 |
| Overruns.StalePassPastGate | pkg/controller/reconciler.go:1155-1168 | for every backoff limit some run retries beyond it and then creates a Job in a pass on an outdated flow; the gate is closed by then unless its sum wraps |
| Budgets.DeadlineAbsorbs | pkg/controller/reconciler.go:166-186 | once the deadline has passed no step changes, nothing starts and no Job is created, outdated passes included, and the flow is Failed from the next effective write on |
| Budgets.DeadlineExactIff | pkg/controller/reconciler.go:1138-1152 | the enforced deadline is the configured one if and only if its seconds fit int64 nanoseconds |
| RunLaws.LateFlowStops | pkg/controller/reconciler.go:166-186 | the same, with the moment written out: once more seconds than allowed have passed since the start |
| RunLaws.OnTimePassGoesOn | pkg/controller/reconciler.go:139-217 | before that moment a pass over a valid, initialised flow within its retries is stopped by no gate |
| Budgets.RetryDelayExact | pkg/controller/reconciler.go:1285-1294 | in every pass of every run that gets past the gates, outdated ones included, the retry count is within the backoff limit, and up to 11 the delay is exact and positive |
| Budgets.CountsSound | pkg/controller/reconciler.go:941-984 | the counting loop and the completeness loop agree |
| Budgets.ProgressConserved | pkg/controller/reconciler.go:933-1012 | after every full pass of every run completed = successful + failed <= total = number of steps, and when all are complete these counters decide the phase |
| RunLaws.FullPassIff | pkg/controller/reconciler.go:100-303 | which passes come to their end: those that no gate, no cycle, no retryable lookup error and no retryable fault of a planned step ends |
| RunLaws.StepAfterPass | pkg/controller/reconciler.go:100-303 | what a full pass makes of every single step, exactly and in every run |
| RunLaws.JobsAfterPass | pkg/controller/reconciler.go:100-303 | which Jobs of the steps exist after a full pass: those not deleted with an overdue step, and those of planned steps whose request took effect |
| RunLaws.FlowAfterPass | pkg/controller/reconciler.go:100-303 | phase and completion time of the flow after a full pass, exactly |
| Retrying.DueRetryCountedIff | pkg/controller/reconciler.go:1248-1313 | over every run, a full pass counts a retry that is due by the stored status if and only if the failed Job is not seen again or the delay goes by between refresh and retry test of that pass |
| Retrying.ShortDelayElapses | pkg/controller/reconciler.go:1286-1294 | with an accepted delay of one nanosecond a pass that takes one retries a failure that it has just seen |
| Retrying.SeenFailureIsFinal | pkg/controller/reconciler.go:491-517 | over whole runs a step with a failed Job is never retried while passes see that Job failed or gone and take less time, from refresh to retry test, than the delay |
| Retrying.InstantIsPrompt | pkg/controller/reconciler.go:1316-1344 | a pass that takes no time is quicker than the delay of every accepted policy with an integer branch, up to 11 retries |
| Retrying.LostCreationDueAtOnce | pkg/controller/reconciler.go:1286-1294 | in every reachable status the retry of a step that failed without a Job is due at once, whatever its delay; only a manual step can have a completion time, and then waits from there |
| Retrying.RetriedIff | pkg/controller/reconciler.go:272-280 | in every reachable status a pass retries a step, manual or not, exactly if it has retries left and its delay is over, counted from the failure or timeout that this pass has noted, from the stored time if there is nothing to look up or looking it up fails, and not at all without any time |
| Orphans.LostStartOrphans | pkg/controller/reconciler.go:665-686 | a step whose first Job is accepted in a pass whose status writes are lost, or conflict, is left with a Job that it does not know |
| Orphans.OwnTurn | pkg/controller/reconciler.go:753-756 | executing such a step again cannot create the Job a second time: the step gets no Job reference and does not succeed |
| Orphans.OrphanMove | pkg/controller/reconciler.go:689-761 | no pass links such a step to its Job, lets it succeed or deletes the Job |
| Orphans.OrphanForever | pkg/controller/reconciler.go:689-761 | over whole runs, while nobody removes the Job, the step stays unlinked and the flow does not become Succeeded |
| Orphans.RetryOrphans | pkg/controller/reconciler.go:1297-1303 | a retry that is counted while the old Job still exists leaves the step with a Job that it does not know |
| Orphans.RetryNeverRuns | pkg/controller/reconciler.go:704-709 | so over whole runs, while nobody removes the old Job, the retried step gets none and does not succeed |
| Overruns.OrphanExists | pkg/controller/reconciler.go:665-686 | runs with such a step exist: two passes suffice, the second on an outdated flow |
| Relaunch.PlannedRunsIff | pkg/controller/reconciler.go:689-761 | over every run, and for passes on outdated flows too, a planned step that is not manual is Running at the end of a full pass if and only if its Job's name was free and the request met no fault; otherwise it has failed without a Job |
| Relaunch.UnlinkedNext | pkg/controller/reconciler.go:272-297 | what a full pass makes of a step without a Job, case by case: planned steps are started or fail, failed ones are retried at once while retries are left, all others stay |
| Relaunch.SpentForever | pkg/controller/reconciler.go:1261-1281 | a step that has failed without a Job and has no retry left never changes in any later run, whatever happens to the Jobs |
| Relaunch.FinalIff | pkg/controller/reconciler.go:1248-1313 | in every reachable status a step that has failed without a Job is lost for good if and only if it has no retry left or the flow is past its backoff limit |
| Relaunch.OrphanLostForGood | pkg/controller/reconciler.go:848-893 | a step without retries whose Job exists unknown to it fails when it comes to its turn, and stays so in every later run, even if that Job is removed |
| Levels.WaitingChains | pkg/controller/reconciler.go:522-598 | the steps that still wait before pass j are those with a dependency chain of j edges |
| Levels.LaunchLevel | pkg/controller/reconciler.go:283-297 | without faults every step of a level gets its Job and nothing else changes |
| Levels.LevelByLevel | pkg/controller/reconciler.go:522-598 | in a run without obstacles the j-th pass after initialisation creates Jobs for exactly the steps whose longest dependency chain has j edges |
| Levels.LastLevelChains | pkg/controller/reconciler.go:522-598 | the last level is that of the longest dependency chain |
| Levels.SucceedsAfterLastLevel | pkg/controller/reconciler.go:972-1012 | such a flow is Succeeded exactly from the first pass after the last level on |
| Levels.SucceedsInTime | pkg/controller/reconciler.go:972-1012 | such a flow of n steps has succeeded after n + 1 passes |
| Levels.SmoothIsLegal | pkg/controller/reconciler.go:100-303 | these runs are legal runs like all others, from the first pass on |
| Substitution.SubstituteParameter | pkg/controller/parameter_template.go:149-160 | the loop over the map replaces the three spellings of every name, name after name, in some order that holds each name once |
| Substitution.AllSpellings | pkg/controller/parameter_template.go:153-157 | the three spellings, written out, are all replaced |
| Substitution.ReplaceHoles | pkg/controller/parameter_template.go:153-157 | in a template with harmless literals a replacement hits exactly the placeholders it is meant for |
| Substitution.SubstitutionIsSimultaneous | pkg/controller/parameter_template.go:149-160 | with plain names, harmless literals and harmless values, the repeated replacement equals one pass over all placeholders, for every iteration order |
| Substitution.SubstitutionIsStable | pkg/controller/parameter_template.go:149-160 | so the order does not matter and substituting again changes nothing |
| Substitution.NestedValueDependsOnOrder | pkg/controller/parameter_template.go:149-160 | a value that is itself a placeholder is expanded in one order and not in the other |
| Substitution.ValueSafeIff | pkg/controller/parameter_template.go:149-160 | among harmless literals and values, a value leaves the result independent of the order in all templates if and only if it is harmless |
| Substitution.LiteralSafeIff | pkg/controller/parameter_template.go:149-160 | the same for a literal that holds no whole placeholder |
| Substitution.HarmlessIff | pkg/controller/parameter_template.go:153-157 | whether a text is harmless can be read off what follows each of its braces and the character before it |
| Substitution.PlainBracesHarmless | pkg/controller/parameter_template.go:153-157 | harmless is in particular every text in which no opening brace stands at the end or before a dot or the letter p |
| Substitution.ApplyParametersToContainer | pkg/controller/parameter_template.go:129-146 | command, arguments and nonempty environment values are substituted in place, each in an order of its own; nothing else changes |
| Substitution.SubstitutedTemplate | pkg/controller/parameter_template.go:129-160 | for plain parameters an edited template is the filled template |
| JsonPath.AcceptedIff | pkg/validation/validator_enhanced.go:322-351 | accepted are exactly the paths starting with a dollar sign that hold no colon, and such paths with any colons behind the name of a step |
| JsonPath.LabelsShape | pkg/validation/validator_enhanced.go:339-342 | a text is labels separated by dots if and only if it consists of letters, digits, hyphens and dots, and it and every part between dots starts and ends with a letter or digit |
| JsonPath.SubdomainIff | pkg/validation/validator_enhanced.go:339-342 | a step name is accepted exactly if it has at most 253 characters and this form, by code points |
| JsonPath.TrimSpaceTrims | pkg/controller/parameters.go:87-90 | trimming removes white space from both ends, all of it, and nothing else |
| JsonPath.RoundTrip | pkg/controller/parameters.go:80-96 | for every DNS-1123 name and path starting with a dollar sign the notation is valid, and parsing gives both back exactly when the path does not end in white space |
| JsonPath.ParserAgreesWithValidator | pkg/controller/parameters.go:80-96 | on every accepted text the parser splits at the validator's colon; without a colon neither sees a step |
| JsonPath.ParserMeans | pkg/controller/parameters.go:80-96 | what the parser makes of every text: both parts without the white space around them if something stands before the first colon and a dollar sign comes next behind it, else the whole text and no name |
| JsonPath.ParsedIsNormal | pkg/controller/parameters.go:80-96 | writing a parsed name and path out again and parsing them gives the same, whatever the text was |
| Artifacts.Cluster.StoreArtifactInConfigMap | pkg/controller/artifact_copy.go:89-152 | which errors occur, that oversize content is skipped silently, and that what is fetched after a store without an error is the content if it is valid UTF-8, and otherwise what arrived instead |
| Artifacts.Cluster.CopyArtifactFromConfigMap | pkg/controller/artifact_copy.go:37-86 | the target gets the artifact from data, binary data or the ".data" key, in that order, and no other file changes |
| Artifacts.SameEntryIff | pkg/controller/artifact_copy.go:109-110 | two artifacts share an entry exactly if names are equal and flow and step are spelled alike when joined |
| Artifacts.FlowsCanCollide | pkg/controller/artifact_copy.go:109-141 | flows x and x-y of a namespace can overwrite each other's artifacts |
| Artifacts.DataSuffixIsForeign | pkg/controller/artifact_copy.go:40-52 | the ".data" key never leads to another artifact's entry, even where ConfigMap names coincide |
| Artifacts.PutThenFetch | pkg/controller/artifact_copy.go:109-145 | storing an artifact changes what is fetched for it and for no other artifact of the flow |
| Artifacts.FetchIsLatest | pkg/controller/artifacts.go:92-103 | over any run of a flow a fetch returns the newest content stored for that step and artifact, as it was sent |

## Left out

- Budgets.RetryBudget: assumes a backoff limit that is not negative and, together with the number of steps that have a policy, fits an int32. For two steps with unlimited retries Overruns.BudgetHoldsIff shows this to be exact; for other flows only one direction is proved, and Budgets.StepLimitsTotal, which bounds the total without it. A negative limit closes the gate before the flow starts.
- Substitution.SubstitutionIsSimultaneous: parameter names hold neither braces nor dollar signs.
- Relaunch.FinalIff: says whether the step ever changes again. Whether a step that is retried gets its Job also takes its dependencies to be completed again; Relaunch.PlannedRunsIff starts from there.
- Controller.JobFlowReconciler.Reconcile: equals the transition only for distinct entry names, which every reachable status has (Guarantees.OneEntryPerStep); with repeated names the code updates the first entry of a name several times.
- Controller.JobFlowReconciler.GetOrBuildDAG: assumes that the hash separates step lists; CacheRaces proves this condition necessary. The fallback hash for lists that cannot be marshalled is one way to break it.
- Backoff.BackoffExact: the float value of the Exponential branch is an input of the pass; its arithmetic is not modelled.
- Artifacts.FetchIsLatest: starts from a store whose ConfigMaps were written by this code; foreign entries and binary data are not followed.
- TTL deletion at the end of a pass: a run ends where the flow is deleted.
- Requeue times and the errors that Reconcile returns: a run contains any number of further passes anyway.
- The concurrency policy, resource templates and handling of step inputs and outputs: only whether the first two fail is an input.
- `When` conditions, pod failure policies, ParseDuration and the classification of errors as retryable: their results are inputs, fixed for a pass.
- Changes to a flow's specification during a run. Outdated reads of a flow differ in status and annotations only.
- Stored times keep their nanoseconds, while the API server cuts them to seconds; what a pass itself has noted is not affected.
- Progress counters are unbounded integers; the source's int32 would wrap beyond 2147483647 steps.
- Events, metrics, conditions, messages and logs: nothing that is proved depends on them.
- Template parsing failures of a step count as a failed creation of its Job.
- The JSON and text/template path of applyParametersToJobTemplate; its string fallback repeats the replacement that is modelled.
- Strings are sequences of characters, not bytes; texts that are not valid UTF-8 are not modelled.
- The unsynchronised creation of the cache map on first use.
- HTTP, S3 and archive handling of artifacts, shared volumes and the volume mounts of Jobs.
- Resource and container validation, the webhook and configuration loading: single-branch checks.
