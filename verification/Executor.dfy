/** pkg/controller/reconciler.go, second part: plan, timeouts, retries, execution and the final
    status, as methods that update the JobFlow object and the API server in place. */
module Executor {
  import opened Types
  import opened Transition
  import opened Planning
  import opened Objects
  import opened StageLaws
  import Dag

  // The execution plan.

  ghost predicate CompletedIn(graph: map<string, Step>, sorted: seq<string>, steps: seq<StepStatus>, n: nat,
          name: string)
  {
    exists i :: 0 <= i < n <= |steps| && steps[i].name == name
                && (|| steps[i].phase == StepSucceeded
                    || (steps[i].phase == StepFailed && name in sorted && name in graph &&
                        graph[name].continueOnFailure))
  }

  method CreateExecutionPlan(graph: Dag.Graph, jf: JobFlow, sorted: seq<string>, whenTrue: set<string>)
          returns (ready: seq<string>)
    ensures ready == Plan(graph.steps, sorted, jf.steps, whenTrue)
  {
    var stepSpecs: map<string, Step> := map[];
    for k := 0 to |sorted|
      invariant forall n :: n in stepSpecs <==> n in sorted[..k] && n in graph.steps
      invariant forall n :: n in stepSpecs ==> stepSpecs[n] == graph.steps[n]
    {
      assert sorted[..k + 1] == sorted[..k] + [sorted[k]];
      var node := graph.GetStep(sorted[k]);
      if node.Some? {
        stepSpecs := stepSpecs[sorted[k] := node.value];
      }
    }
    assert sorted[..|sorted|] == sorted;
    var completed := CompletedNames(graph, jf, sorted, stepSpecs);
    ready := [];
    for k := 0 to |sorted|
      invariant ready == SelectReady(graph.steps, sorted, jf.steps, whenTrue, sorted[..k])
    {
      assert sorted[..k + 1][..k] == sorted[..k];
      var name := sorted[k];
      var i := StatusIndex(jf.steps, name);
      if i.Some? && jf.steps[i.value].phase != StepPending {
        continue;
      }
      var step := graph.GetStep(name);
      if step.None? {
        continue;
      }
      var isReady := DependenciesMet(step.value.dependencies, completed);
      if isReady && step.value.when != "" {
        isReady := step.value.when in whenTrue;
      }
      if isReady {
        ready := ready + [name];
      }
    }
    assert sorted[..|sorted|] == sorted;
  }

  /** The names marked as completed, from the phases and ContinueOnFailure. */
  method CompletedNames(graph: Dag.Graph, jf: JobFlow, sorted: seq<string>, stepSpecs: map<string, Step>)
          returns (completed: set<string>)
    requires forall n :: n in stepSpecs <==> n in sorted && n in graph.steps
    requires forall n :: n in stepSpecs ==> stepSpecs[n] == graph.steps[n]
    ensures forall d :: d in completed <==> Completed(graph.steps, sorted, jf.steps, d)
  {
    completed := {};
    for i := 0 to |jf.steps|
      invariant forall d :: d in completed <==> CompletedIn(graph.steps, sorted, jf.steps, i, d)
    {
      var s := jf.steps[i];
      var done := s.phase == StepSucceeded
                  || (s.phase == StepFailed && s.name in stepSpecs && stepSpecs[s.name].continueOnFailure);
      forall d
        ensures CompletedIn(graph.steps, sorted, jf.steps, i + 1, d)
                <==> CompletedIn(graph.steps, sorted, jf.steps, i, d) || (done && d == s.name)
      {
        CompletedNext(graph.steps, sorted, jf.steps, i, d);
      }
      if done {
        completed := completed + {s.name};
      }
    }
    forall d
      ensures CompletedIn(graph.steps, sorted, jf.steps, |jf.steps|, d) <==> Completed(graph.steps, sorted, jf.steps, d)
    {
    }
  }

  lemma CompletedNext(graph: map<string, Step>, sorted: seq<string>, steps: seq<StepStatus>, n: nat, name: string)
    requires n < |steps|
    ensures CompletedIn(graph, sorted, steps, n + 1, name) <==>
              || CompletedIn(graph, sorted, steps, n, name)
              || (steps[n].name == name
                  && (|| steps[n].phase == StepSucceeded
                      || (steps[n].phase == StepFailed && name in sorted && name in graph &&
                          graph[name].continueOnFailure)))
  {
  }

  method DependenciesMet(deps: seq<string>, completed: set<string>) returns (met: bool)
    ensures met <==> forall d :: d in deps ==> d in completed
  {
    for k := 0 to |deps|
      invariant forall m :: 0 <= m < k ==> deps[m] in completed
    {
      if deps[k] !in completed {
        return false;
      }
    }
    return true;
  }

  // Timeouts.

  method CheckStepTimeouts(jf: JobFlow, api: ApiServer, inp: Inputs)
    modifies jf, api`jobs
    ensures jf.Status() == Timeouts(jf.flow, inp, old(jf.Status()))
    ensures api.Server() == DeleteJobs(old(api.Server()), TimedOutJobs(jf.flow, inp, old(jf.steps)))
    ensures UniqueNames(jf.flow.spec.steps) && TimeoutsInRange(jf.flow) ==>
              TimeoutOutcome(jf.flow, inp, old(jf.Status()), jf.Status(), old(api.jobs), api.jobs)
  {
    ghost var was := jf.steps;
    DeleteNothing(api.Server());
    for i := 0 to |jf.steps|
      modifies jf, api`jobs
      invariant TimedSoFar(jf.flow, inp, old(jf.Status()), jf.Status(), i)
      invariant api.Server() == DeleteJobs(old(api.Server()), TimedOutJobs(jf.flow, inp, was[..i]))
    {
      ghost var before := jf.Status();
      FailIfTimedOut(jf, api, inp, i);
      TimedOutJobsSnoc(jf.flow, inp, was, i);
      DeleteTwice(old(api.Server()), TimedOutJobs(jf.flow, inp, was[..i]), TimedOutJob(jf.flow, inp, was[i]));
      TimedOneMore(jf.flow, inp, old(jf.Status()), before, jf.Status(), i);
    }
    assert was[..|was|] == was;
    TimedAll(jf.flow, inp, old(jf.Status()), jf.Status());
    if UniqueNames(jf.flow.spec.steps) && TimeoutsInRange(jf.flow) {
      TimeoutsMean(jf.flow, inp, old(jf.Status()), old(api.Server()));
    }
  }

  /** The statuses when the first n steps have been looked at. */
  ghost predicate TimedSoFar(flow: Flow, inp: Inputs, was: Status, st: Status, n: nat)
  {
    && |st.steps| == |was.steps| && n <= |was.steps|
    && (forall k :: 0 <= k < n ==> st.steps[k] == TimeoutStep(flow, inp, was.steps[k]))
    && (forall k :: n <= k < |was.steps| ==> st.steps[k] == was.steps[k])
    && st.startTime == was.startTime && st.progress == was.progress
    && if exists k :: 0 <= k < n && FatalTimeout(flow, inp, was.steps[k])
       then st.phase == FlowFailed && st.completionTime == Some(Clock(inp, FailingFlow))
       else st.phase == was.phase && st.completionTime == was.completionTime
  }

  lemma TimedOneMore(flow: Flow, inp: Inputs, was: Status, st: Status, st': Status, i: nat)
    requires TimedSoFar(flow, inp, was, st, i) && i < |was.steps|
    requires st'.steps == st.steps[i := TimeoutStep(flow, inp, st.steps[i])]
    requires st'.startTime == st.startTime && st'.progress == st.progress
    requires if FatalTimeout(flow, inp, st.steps[i])
             then st'.phase == FlowFailed && st'.completionTime == Some(Clock(inp, FailingFlow))
             else st'.phase == st.phase && st'.completionTime == st.completionTime
    ensures TimedSoFar(flow, inp, was, st', i + 1)
  {
  }

  lemma DeleteTwice(server: Server, a: set<string>, b: set<string>)
    ensures DeleteJobs(DeleteJobs(server, a), b) == DeleteJobs(server, a + b)
  {
    assert DeleteJobs(DeleteJobs(server, a), b).jobs == DeleteJobs(server, a + b).jobs;
  }

  lemma TimedAll(flow: Flow, inp: Inputs, was: Status, st: Status)
    requires TimedSoFar(flow, inp, was, st, |was.steps|)
    ensures st == Timeouts(flow, inp, was)
  {
    assert st.steps == Timeouts(flow, inp, was).steps;
  }

  /** The body of the timeout loop. */
  method FailIfTimedOut(jf: JobFlow, api: ApiServer, inp: Inputs, i: nat)
    requires i < |jf.steps|
    modifies jf, api`jobs
    ensures jf.steps == old(jf.steps)[i := TimeoutStep(jf.flow, inp, old(jf.steps)[i])]
    ensures jf.startTime == old(jf.startTime) && jf.progress == old(jf.progress)
    ensures if FatalTimeout(jf.flow, inp, old(jf.steps)[i])
            then jf.phase == FlowFailed && jf.completionTime == Some(Clock(inp, FailingFlow))
            else jf.phase == old(jf.phase) && jf.completionTime == old(jf.completionTime)
    ensures api.Server() == DeleteJobs(old(api.Server()), TimedOutJob(jf.flow, inp, old(jf.steps)[i]))
  {
    DeleteNothing(api.Server());
    var s := jf.steps[i];
    if s.phase != StepRunning {
      return;
    }
    var spec := FindStep(jf.flow.spec.steps, s.name);
    if spec.None? || spec.value.timeoutSeconds.None? || s.startTime.None? {
      return;
    }
    if Clock(inp, CheckingTimeout(s.name)) > s.startTime.value + SecondsToDuration(spec.value.timeoutSeconds.value) {
      jf.steps := jf.steps[i := s.(phase := StepFailed, completionTime := Some(Clock(inp, TimingOut(s.name))))];
      if s.jobRef.Some? && s.jobRef.value !in inp.undeleted {
        api.jobs := map j | j in api.jobs && j != s.jobRef.value :: api.jobs[j];
      }
      if !spec.value.continueOnFailure {
        jf.phase, jf.completionTime := FlowFailed, Some(Clock(inp, FailingFlow));
      }
    }
  }

  lemma DeleteNothing(server: Server)
    ensures DeleteJobs(server, {}) == server
  {
    assert DeleteJobs(server, {}).jobs == server.jobs;
  }

  /** The Job that a timed-out step gives up, if any. */
  function TimedOutJob(flow: Flow, inp: Inputs, s: StepStatus): set<string>
  {
    if TimedOut(flow, inp, s) && s.jobRef.Some? && s.jobRef.value !in inp.undeleted then {s.jobRef.value} else {}
  }

  lemma TimedOutJobsSnoc(flow: Flow, inp: Inputs, steps: seq<StepStatus>, i: nat)
    requires i < |steps|
    ensures TimedOutJobs(flow, inp, []) == {}
    ensures TimedOutJobs(flow, inp, steps[..i + 1]) ==
            TimedOutJobs(flow, inp, steps[..i]) + TimedOutJob(flow, inp, steps[i])
  {
    var a, b := steps[..i], steps[..i + 1];
    assert forall k :: 0 <= k < i ==> b[k] == a[k];
    assert b[i] == steps[i];
  }

  // Retries.

  method HandleStepRetry(jf: JobFlow, inp: Inputs, name: string)
    modifies jf`steps
    ensures var i := StatusIndex(old(jf.steps), name);
            jf.steps == if i.None? then old(jf.steps)
                else old(jf.steps)[i.value := RetryStep(jf.flow, inp, old(jf.steps)[i.value])]
  {
    var spec := FindStep(jf.flow.spec.steps, name);
    if spec.None? || spec.value.retryPolicy.None? {
      return;
    }
    var policy := spec.value.retryPolicy.value;
    var i := StatusIndex(jf.steps, name);
    if i.None? {
      return;
    }
    var s := jf.steps[i.value];
    if s.phase != StepFailed {
      return;
    }
    var limit := Int32(jf.flow.config.defaultRetryLimit);
    if policy.limit > 0 {
      limit := policy.limit;
    }
    if s.retryCount >= limit {
      return;
    }
    var delay := RetryDelay(jf.flow, inp, s, policy);
    if s.completionTime.Some? && Clock(inp, Retrying(name)) < s.completionTime.value + delay {
      return;
    }
    jf.steps := jf.steps[i.value := s.(retryCount := Int32(s.retryCount + 1), phase := StepPending,
                                       startTime := None, completionTime := None, jobRef := None)];
  }

  /** The retry loop of Reconcile. */
  method RetryFailedSteps(jf: JobFlow, inp: Inputs)
    modifies jf`steps
    ensures UniqueEntries(old(jf.steps)) ==> jf.Status() == Retries(jf.flow, inp, old(jf.Status()))
  {
    ghost var was := jf.steps;
    for i := 0 to |jf.steps|
      modifies jf`steps
      invariant |jf.steps| == |was|
      invariant UniqueEntries(was) ==> RetriedUpTo(jf.flow, inp, was, jf.steps, i)
    {
      if UniqueEntries(was) {
        RetriedNext(jf.flow, inp, was, jf.steps, i);
      }
      if jf.steps[i].phase == StepFailed {
        HandleStepRetry(jf, inp, jf.steps[i].name);
      }
    }
  }

  /** The loop has dealt with the first i entries. */
  ghost predicate RetriedUpTo(flow: Flow, inp: Inputs, was: seq<StepStatus>, steps: seq<StepStatus>, i: int)
  {
    && |steps| == |was|
    && (forall k :: 0 <= k < |was| && k < i ==> steps[k] == RetryStep(flow, inp, was[k]))
    && (forall k :: 0 <= k < |was| && i <= k ==> steps[k] == was[k])
  }

  lemma RetriedNext(flow: Flow, inp: Inputs, was: seq<StepStatus>, steps: seq<StepStatus>, i: nat)
    requires UniqueEntries(was) && RetriedUpTo(flow, inp, was, steps, i) && i < |was|
    ensures StatusIndex(steps, steps[i].name) == Some(i)
    ensures RetriedUpTo(flow, inp, was, if steps[i].phase == StepFailed then steps[i := RetryStep(flow, inp, steps[i])]
            else steps, i + 1)
  {
    forall j, k | 0 <= j < k < |steps|
      ensures steps[j].name != steps[k].name
    {
      assert steps[j].name == was[j].name && steps[k].name == was[k].name;
    }
    StatusIndexAt(steps, i);
  }

  // Execution of one step.

  method UpdateStepStatusFromJob(jf: JobFlow, api: ApiServer, inp: Inputs, name: string, job: Job)
          returns (err: Option<Fault>)
    modifies jf, api
    ensures var i := StatusIndex(old(jf.steps), name);
            if i.None? then unchanged(jf) && unchanged(api) && err == Some(Fault(false, false))
            else (Local(jf.Status(), api.Server()), err) ==
                 ChangeAndWrite(inp, Local(old(jf.Status()), old(api.Server())), name,
                                SetStep(old(jf.Status()), i.value, StepFromJobWithPolicy(inp, old(jf.steps)[i.value],
                                    job)))
  {
    var i := StatusIndex(jf.steps, name);
    if i.None? {
      return Some(Fault(false, false));
    }
    var s := jf.steps[i.value];
    if job.succeeded > 0 {
      s := s.(phase := StepSucceeded, completionTime := Some(Clock(inp, Finishing(name))));
    } else if job.failed > 0 {
      s := s.(phase := if name in inp.toleratedFailures then StepSucceeded else StepFailed,
              completionTime := Some(Clock(inp, Finishing(name))));
    } else {
      s := s.(phase := StepRunning);
    }
    jf.steps := jf.steps[i.value := s];
    err := api.UpdateStatus(jf.Status(), FaultFor(inp.stepWrites, name));
  }

  method HandleManualApprovalStep(jf: JobFlow, api: ApiServer, inp: Inputs, i: nat) returns (err: Option<Fault>)
    requires i < |jf.steps| && jf.annotations == inp.annotations
    modifies jf, api
    ensures (Local(jf.Status(), api.Server()), err) == AwaitApproval(inp, Local(old(jf.Status()), old(api.Server())), i)
  {
    var s := jf.steps[i];
    var fault := FaultFor(inp.stepWrites, s.name);
    if Approved(jf.annotations, s.name) {
      if s.phase != StepSucceeded {
        s := s.(phase := StepSucceeded, completionTime := Some(Clock(inp, Finishing(s.name))));
        if s.startTime.None? {
          s := s.(startTime := Some(Clock(inp, Starting(s.name))));
        }
        jf.steps := jf.steps[i := s];
        err := api.UpdateStatus(jf.Status(), fault);
        return;
      }
      return None;
    }
    if s.phase != StepPendingApproval {
      jf.steps := jf.steps[i := s.(phase := StepPendingApproval, startTime := Some(Clock(inp, Starting(s.name))))];
      jf.phase := FlowPaused;
      err := api.UpdateStatus(jf.Status(), fault);
      return;
    }
    return None;
  }

  /** createJobForStep: the request itself. A Job of the same name makes it fail. */
  method CreateJobForStep(jf: JobFlow, api: ApiServer, inp: Inputs, step: string) returns (err: Option<Fault>)
    modifies api
    ensures var fault := FaultFor(inp.createFaults, step);
            var exists' := JobName(jf.flow, step) in old(api.jobs);
            && err == (if exists' && fault.None? then Some(Fault(false, false)) else fault)
            && api.Server() == if !exists' && (fault.None? || fault.value.applied)
                               then AcceptJob(jf.flow, old(api.Server()), step) else old(api.Server())
  {
    var name := JobName(jf.flow, step);
    var fault := FaultFor(inp.createFaults, step);
    if name in api.jobs {
      return if fault.Some? then fault else Some(Fault(false, false));
    }
    if fault.None? || fault.value.applied {
      api.jobs := api.jobs[name := Job(0, 0)];
      api.created := api.created + {step};
    }
    return fault;
  }

  method ExecuteOneStep(jf: JobFlow, api: ApiServer, inp: Inputs, name: string) returns (err: Option<Fault>)
    requires jf.annotations == inp.annotations
    modifies jf, api
    ensures (Local(jf.Status(), api.Server()), err) ==
            ExecuteStep(jf.flow, inp, Local(old(jf.Status()), old(api.Server())), name)
  {
    var spec := FindStep(jf.flow.spec.steps, name);
    if spec.None? {
      return Some(Fault(false, false));
    }
    var i := StatusIndex(jf.steps, name);
    if i.None? {
      return Some(Fault(false, false));
    }
    var s := jf.steps[i.value];
    if s.jobRef.Some? {
      match RereadJob(inp, s.jobRef.value) {
        case LookupFailed(retryable) =>
          return Some(Fault(false, retryable));
        case Found(job) =>
          err := UpdateStepStatusFromJob(jf, api, inp, name, job);
          return;
        case NotFound =>
      }
    }
    if IsManual(spec.value) {
      err := HandleManualApprovalStep(jf, api, inp, i.value);
      return;
    }
    err := CreateJobForStep(jf, api, inp, name);
    if err.None? {
      jf.steps := jf.steps[i.value := s.(phase := StepRunning,
                                         startTime := Some(Clock(inp, Starting(name))),
                                         jobRef := Some(JobName(jf.flow, name)))];
    }
  }

  method HandleFailure(jf: JobFlow, inp: Inputs, name: string) returns (ok: bool)
    modifies jf
    ensures var st := HandleStepFailure(jf.flow, inp, old(jf.Status()), name);
            ok == st.Some? && jf.Status() == if st.Some? then st.value else old(jf.Status())
  {
    var i := StatusIndex(jf.steps, name);
    if i.None? {
      return false;
    }
    var spec := FindStep(jf.flow.spec.steps, name);
    if spec.None? || !spec.value.continueOnFailure {
      jf.phase, jf.completionTime := FlowFailed, Some(Clock(inp, Failing(name)));
    }
    jf.steps := jf.steps[i.value := jf.steps[i.value].(phase := StepFailed)];
    return true;
  }

  /** The execution loop of Reconcile; stopped says that it returned early. */
  method ExecuteReadySteps(jf: JobFlow, api: ApiServer, inp: Inputs, ready: seq<string>) returns (stopped: bool)
    requires jf.annotations == inp.annotations
    modifies jf, api
    ensures (Local(jf.Status(), api.Server()), stopped) ==
            RunReady(jf.flow, inp, Local(old(jf.Status()), old(api.Server())), ready)
  {
    for k := 0 to |ready|
      modifies jf, api
      invariant RunReady(jf.flow, inp, Local(jf.Status(), api.Server()), ready[k..])
             == RunReady(jf.flow, inp, Local(old(jf.Status()), old(api.Server())), ready)
    {
      assert ready[k..][0] == ready[k] && ready[k..][1..] == ready[k + 1..];
      var err := ExecuteOneStep(jf, api, inp, ready[k]);
      if err.Some? {
        if err.value.retryable {
          return true;
        }
        var ok := HandleFailure(jf, inp, ready[k]);
        if !ok {
          return true;
        }
      }
    }
    return false;
  }

  // Progress and flow phase.

  method CountPhases(jf: JobFlow) returns (completed: int, successful: int, failed: int)
    ensures successful == CountPhase(jf.steps, StepSucceeded) && failed == CountPhase(jf.steps, StepFailed)
    ensures completed == successful + failed
  {
    completed, successful, failed := 0, 0, 0;
    for i := 0 to |jf.steps|
      invariant successful == CountPhase(jf.steps[..i], StepSucceeded) &&
                failed == CountPhase(jf.steps[..i], StepFailed)
      invariant completed == successful + failed
    {
      assert jf.steps[..i + 1][..i] == jf.steps[..i];
      match jf.steps[i].phase {
        case StepSucceeded => completed, successful := completed + 1, successful + 1;
        case StepFailed => completed, failed := completed + 1, failed + 1;
        case _ =>
      }
    }
    assert jf.steps[..|jf.steps|] == jf.steps;
  }

  /** The second loop of updateJobFlowStatus stops at the first step that is not complete, so
      allSucceeded means something only if allComplete holds. */
  method CheckCompletion(jf: JobFlow) returns (allComplete: bool, allSucceeded: bool)
    ensures allComplete <==> AllComplete(jf.steps)
    ensures allComplete ==> (allSucceeded <==> !AnyFailed(jf.steps))
  {
    allComplete, allSucceeded := true, true;
    for i := 0 to |jf.steps|
      invariant allComplete && forall k :: 0 <= k < i ==> jf.steps[k].phase in {StepSucceeded, StepFailed}
      invariant allSucceeded <==> forall k :: 0 <= k < i ==> jf.steps[k].phase != StepFailed
    {
      var phase := jf.steps[i].phase;
      if phase != StepSucceeded && phase != StepFailed {
        allComplete := false;
        break;
      }
      if phase == StepFailed {
        allSucceeded := false;
      }
    }
  }

  method UpdateJobFlowStatus(jf: JobFlow, api: ApiServer, inp: Inputs)
    modifies jf, api
    ensures jf.Status() == UpdateStatus(old(jf.Status()), Clock(inp, Ending))
    ensures api.Server() == WriteStatus(old(api.Server()), jf.Status(), inp.lastWrite)
  {
    if jf.progress.Some? {
      var completed, successful, failed := CountPhases(jf);
      jf.progress := Some(Progress(completed, jf.progress.value.total, successful, failed));
    }
    if jf.phase == FlowUnset {
      jf.phase := FlowPending;
    }
    var allComplete, allSucceeded := CheckCompletion(jf);
    if allComplete {
      jf.phase := if allSucceeded then FlowSucceeded else FlowFailed;
      jf.completionTime := Some(Clock(inp, Ending));
    } else if jf.phase == FlowPending {
      jf.phase := FlowRunning;
    }
    var err := api.UpdateStatus(jf.Status(), inp.lastWrite);
  }
}
