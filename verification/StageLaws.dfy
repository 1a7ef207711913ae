/** What each stage of a pass comes to, in terms of the specification, the stored entries and what
    the pass was told: the statements use none of the definitions that make up the stages. */
module StageLaws {
  import opened Types
  import opened Digraph
  import opened Dag
  import opened Validation
  import opened Transition
  import opened Planning
  import opened Invariant
  import opened Runs
  import opened Budgets

  // The step list and the gates.

  /** A list of named steps, no two with the same name, in which every nonempty dependency is a
      step. */
  ghost predicate WellFormed(steps: seq<Step>)
  {
    && |steps| > 0
    && (forall i :: 0 <= i < |steps| ==> steps[i].name != "")
    && (forall i, j :: 0 <= i < j < |steps| ==> steps[i].name != steps[j].name)
    && (forall i, d :: 0 <= i < |steps| && d in steps[i].dependencies && d != "" ==>
          exists j :: 0 <= j < |steps| && steps[j].name == d)
  }

  /** Which step lists are valid. */
  lemma ValidIff(steps: seq<Step>)
    ensures StepsValid(steps) <==> WellFormed(steps)
  {
    if StepsValid(steps) {
      ValidNamesUnique(steps);
      forall i | 0 <= i < |steps|
        ensures steps[i].name != ""
        ensures forall d :: d in steps[i].dependencies ==> KnownDependency(steps, d)
      {
        assert StepSound(steps, i);
      }
      assert forall d :: d != "" && KnownDependency(steps, d) ==> exists j :: 0 <= j < |steps| && steps[j].name == d;
    }
    if WellFormed(steps) {
      forall i | 0 <= i < |steps|
        ensures StepSound(steps, i)
      {
        assert forall k :: 0 <= k < i ==> steps[..i][k].name == steps[k].name;
        forall k | 0 <= k < |steps[i].dependencies|
          ensures KnownDependency(steps, steps[i].dependencies[k])
        {
          assert steps[i].dependencies[k] in steps[i].dependencies;
        }
      }
    }
  }

  predicate InRange(seconds: int)
  {
    -9223372036 <= seconds <= 9223372036
  }

  /** The flow has both a deadline and a start time, and more seconds than allowed have passed in
      between. */
  predicate Late(flow: Flow, st: Status, now: int)
  {
    && flow.spec.activeDeadlineSeconds.Some? && st.startTime.Some?
    && now - st.startTime.value > flow.spec.activeDeadlineSeconds.value * 1_000_000_000
  }

  ghost predicate DeadlineInRange(flow: Flow)
  {
    flow.spec.activeDeadlineSeconds.Some? ==> InRange(flow.spec.activeDeadlineSeconds.value)
  }

  lemma DeadlineIff(flow: Flow, st: Status, now: int)
    requires DeadlineInRange(flow)
    ensures DeadlineExceeded(flow, st, now) <==> Late(flow, st, now)
  {
    if flow.spec.activeDeadlineSeconds.Some? && st.startTime.Some? {
      DeadlineExactIff(flow, st, flow.spec.activeDeadlineSeconds.value, st.startTime.value);
    }
  }

  /** The retries that a flow may make in all: what it asks for, or the controller's default. */
  function AllowedTotal(flow: Flow): int
  {
    match flow.spec.backoffLimit
    case Some(limit) => limit
    case None => flow.config.defaultBackoffLimit
  }

  /** When the gates let a pass through to the graph, exactly. */
  lemma GatesOpenIff(flow: Flow, server: Server, inp: Inputs)
    requires DeadlineInRange(flow) && 0 <= TotalRetries(server.status.steps) <= MAX_INT32
    ensures Gated(flow, server, inp).None? <==>
              && StepsValid(flow.spec.steps) && !inp.concurrencyError
              && !Late(flow, server.status, inp.now)
              && TotalRetries(server.status.steps) <= AllowedTotal(flow)
              && (server.status.phase != FlowUnset || server.status.steps != [])
  {
    DeadlineIff(flow, server.status, inp.now);
    BackoffGateExactIff(server.status.steps);
  }

  /** A status write: it takes effect unless a fault prevents it. */
  ghost predicate Written(before: Server, after: Server, st: Status, fault: Option<Fault>)
  {
    && (fault == None || (exists retryable :: fault == Some(Fault(true, retryable))) ==>
          after == Server(st, before.jobs, before.created, before.history + [st]))
    && (forall retryable :: fault == Some(Fault(false, retryable)) ==> after == before)
  }

  lemma WriteMeans(server: Server, st: Status, fault: Option<Fault>)
    ensures Written(server, WriteStatus(server, st, fault), st, fault)
  {
  }

  /** What a pass stores that is stopped early: a refused list fails the flow, a concurrency error
      changes nothing, a closed gate fails the flow at that time, and a flow without phase and
      entries is initialised. */
  lemma StoppedPass(flow: Flow, server: Server, inp: Inputs, ch: Choices)
    requires DeadlineInRange(flow) && 0 <= TotalRetries(server.status.steps) <= MAX_INT32
    ensures var st, after := server.status, Reconcile(flow, server, inp, ch).server;
            if !StepsValid(flow.spec.steps) then Written(server, after, st.(phase := FlowFailed), inp.lastWrite)
            else if inp.concurrencyError then after == server
            else if Late(flow, st, inp.now) || TotalRetries(st.steps) > AllowedTotal(flow) then
              Written(server, after, st.(phase := FlowFailed, completionTime := Some(Clock(inp, Closing))),
                      inp.lastWrite)
            else if st.phase == FlowUnset && st.steps == [] then
              exists initial :: Fresh(flow, st, Clock(inp, Initializing), initial)
                                && if inp.templatesFail then after == server
                                   else Written(server, after, initial, inp.lastWrite)
            else if ch.sorted.None? then Written(server, after, st.(phase := FlowFailed), inp.lastWrite)
            else true
  {
    DeadlineIff(flow, server.status, inp.now);
    BackoffGateExactIff(server.status.steps);
    FreshMeans(flow, server.status, Clock(inp, Initializing));
  }

  /** The initial status: every step pending, never tried, without Job and times. */
  ghost predicate Fresh(flow: Flow, before: Status, now: int, after: Status)
  {
    && after.phase == FlowPending && after.startTime == Some(now) && after.completionTime == before.completionTime
    && after.progress == Some(Progress(0, |flow.spec.steps|, 0, 0))
    && |after.steps| == |flow.spec.steps|
    && forall i :: 0 <= i < |after.steps| ==>
         after.steps[i] == StepStatus(flow.spec.steps[i].name, StepPending, None, None, None, 0)
  }

  lemma FreshMeans(flow: Flow, st: Status, now: int)
    ensures Fresh(flow, st, now, Initialize(flow, st, now))
  {
  }

  // Approvals and the refresh.

  /** The annotation that approves a step. */
  predicate Granted(inp: Inputs, name: string)
  {
    && "workflow.kube-zen.io/approved/" + name in inp.annotations
    && inp.annotations["workflow.kube-zen.io/approved/" + name] == "true"
  }

  lemma ApprovedIff(inp: Inputs, name: string)
    ensures Approved(inp.annotations, name) <==> Granted(inp, name)
  {
    assert APPROVAL_KEY + "/" + name == "workflow.kube-zen.io/approved/" + name;
  }

  /** No Job of this name, as far as the pass is told. */
  predicate SeesNone(inp: Inputs, job: string)
  {
    job in inp.lookups ==> inp.lookups[job] == NotFound
  }

  predicate SeesError(inp: Inputs, job: string)
  {
    job in inp.lookups && (inp.lookups[job] == LookupFailed(true) || inp.lookups[job] == LookupFailed(false))
  }

  predicate SeesJob(inp: Inputs, job: string)
  {
    job in inp.lookups && inp.lookups[job].Found?
  }

  /** The pass takes the step for succeeded. */
  predicate TakenForSucceeded(inp: Inputs, s: StepStatus)
  {
    match s.jobRef
    case None => s.phase == StepSucceeded || (s.phase == StepPendingApproval && Granted(inp, s.name))
    case Some(job) =>
      || (SeesJob(inp, job) && inp.lookups[job].job.succeeded >= 1)
      || (SeesError(inp, job) && (s.phase == StepSucceeded || (s.phase == StepPendingApproval && Granted(inp, s.name))))
  }

  predicate TakenForFailed(inp: Inputs, s: StepStatus)
  {
    match s.jobRef
    case None => s.phase == StepFailed
    case Some(job) =>
      || SeesNone(inp, job)
      || (SeesJob(inp, job) && inp.lookups[job].job.succeeded <= 0 && inp.lookups[job].job.failed >= 1)
      || (SeesError(inp, job) && s.phase == StepFailed)
  }

  predicate TakenForRunning(inp: Inputs, s: StepStatus)
  {
    match s.jobRef
    case None => s.phase == StepRunning
    case Some(job) =>
      || (SeesJob(inp, job) && inp.lookups[job].job.succeeded <= 0 && inp.lookups[job].job.failed <= 0)
      || (SeesError(inp, job) && s.phase == StepRunning)
  }

  /** The entry that a pass plans with, exactly: what phase it takes the step for, and when that
      was noted. */
  ghost predicate TakenFor(inp: Inputs, before: StepStatus, after: StepStatus)
  {
    var approved := before.phase == StepPendingApproval && Granted(inp, before.name);
    var noted := before.jobRef.Some? && !SeesError(inp, before.jobRef.value) && after.phase != StepRunning;
    && after.name == before.name && after.jobRef == before.jobRef && after.retryCount == before.retryCount
    && (after.phase == StepSucceeded <==> TakenForSucceeded(inp, before))
    && (after.phase == StepFailed <==> TakenForFailed(inp, before))
    && (after.phase == StepRunning <==> TakenForRunning(inp, before))
    && (after.phase !in {StepSucceeded, StepFailed, StepRunning} ==> after.phase == before.phase)
    && after.completionTime == (if noted then Some(Clock(inp, Refreshing(before.name)))
                                else if approved then Some(Clock(inp, Approving(before.name)))
                                else before.completionTime)
    && after.startTime == (if approved && before.startTime.None? then Some(Clock(inp, Approving(before.name)))
                           else before.startTime)
  }

  lemma EntryTaken(inp: Inputs, s: StepStatus)
    ensures TakenFor(inp, s, RefreshStep(inp, ApproveStep(inp, s)))
  {
    ApprovedIff(inp, s.name);
  }

  lemma SeenEntries(inp: Inputs, st: Status)
    ensures |Refreshed(inp, st).steps| == |st.steps|
    ensures forall i :: 0 <= i < |st.steps| ==> TakenFor(inp, st.steps[i], Refreshed(inp, st).steps[i])
  {
    forall i | 0 <= i < |st.steps|
      ensures TakenFor(inp, st.steps[i], Refreshed(inp, st).steps[i])
    {
      assert Refreshed(inp, st).steps[i] == RefreshStep(inp, ApproveStep(inp, st.steps[i]));
      EntryTaken(inp, st.steps[i]);
    }
  }

  /** The rest of the status: the flow is paused while a step was waiting, and resumes when a pass
      finds none waiting. */
  lemma SeenFlow(inp: Inputs, st: Status)
    ensures var seen := Refreshed(inp, st);
            && seen.startTime == st.startTime && seen.completionTime == st.completionTime
            && seen.progress == st.progress
            && ((exists i :: 0 <= i < |st.steps| && st.steps[i].phase == StepPendingApproval) ==>
                  seen.phase == FlowPaused)
            && ((forall i :: 0 <= i < |st.steps| ==> st.steps[i].phase != StepPendingApproval) ==>
                  seen.phase == if st.phase == FlowPaused then FlowRunning else st.phase)
  {
  }

  // The execution plan.

  /** Some entry of this name has succeeded, or has failed and its step says to continue. */
  ghost predicate Met(flow: Flow, steps: seq<StepStatus>, d: string)
  {
    exists k :: 0 <= k < |steps| && steps[k].name == d
                && (steps[k].phase == StepSucceeded || (steps[k].phase == StepFailed && MayContinue(flow, d)))
  }

  ghost predicate MayContinue(flow: Flow, name: string)
  {
    exists j :: 0 <= j < |flow.spec.steps| && flow.spec.steps[j].name == name && flow.spec.steps[j].continueOnFailure
  }

  lemma CompletedIsMet(flow: Flow, sorted: seq<string>, steps: seq<StepStatus>, d: string)
    requires StepsValid(flow.spec.steps) && TopologicalOrder(Edges(flow), sorted)
    ensures Completed(StepMap(flow.spec.steps), sorted, steps, d) <==> Met(flow, steps, d)
  {
    MapContinues(flow, sorted, d);
  }

  lemma MapContinues(flow: Flow, sorted: seq<string>, d: string)
    requires StepsValid(flow.spec.steps) && TopologicalOrder(Edges(flow), sorted)
    ensures d in sorted && d in StepMap(flow.spec.steps) && StepMap(flow.spec.steps)[d].continueOnFailure
            <==> MayContinue(flow, d)
  {
    var specs := flow.spec.steps;
    ValidNamesUnique(specs);
    if d in StepMap(specs) {
      var i := StepMapEntry(specs, d);
      assert d in Elems(sorted);
    }
    if j :| 0 <= j < |specs| && specs[j].name == d && specs[j].continueOnFailure {
      StepMapHas(specs, j);
      StepMapAt(specs, j);
    }
  }

  lemma StepMapAt(specs: seq<Step>, j: nat)
    requires UniqueNames(specs) && j < |specs|
    ensures specs[j].name in StepMap(specs) && StepMap(specs)[specs[j].name] == specs[j]
  {
    StepMapHas(specs, j);
    var i := StepMapEntry(specs, specs[j].name);
  }

  /** Which steps a pass plans, exactly: those whose entry is pending, all of whose dependencies
      have an entry that succeeded, or failed with leave to continue, and whose condition, if
      any, is true. */
  lemma PlannedIff(flow: Flow, sorted: seq<string>, steps: seq<StepStatus>, whenTrue: set<string>, j: nat)
    requires StepsValid(flow.spec.steps) && TopologicalOrder(Edges(flow), sorted)
    requires UniqueEntries(steps) && j < |flow.spec.steps|
    ensures var spec := flow.spec.steps[j];
            spec.name in Plan(StepMap(flow.spec.steps), sorted, steps, whenTrue) <==>
              && (forall k :: 0 <= k < |steps| && steps[k].name == spec.name ==> steps[k].phase == StepPending)
              && (forall d :: d in spec.dependencies ==> Met(flow, steps, d))
              && (spec.when == "" || spec.when in whenTrue)
  {
    var specs, graph := flow.spec.steps, StepMap(flow.spec.steps);
    ValidNamesUnique(specs);
    StepMapAt(specs, j);
    SelectReadyContents(graph, sorted, steps, whenTrue, sorted);
    assert specs[j].name in Elems(sorted);
    PendingIff(steps, specs[j].name);
    forall d | d in specs[j].dependencies
      ensures Completed(graph, sorted, steps, d) <==> Met(flow, steps, d)
    {
      CompletedIsMet(flow, sorted, steps, d);
    }
  }

  lemma PendingIff(steps: seq<StepStatus>, name: string)
    requires UniqueEntries(steps)
    ensures StillPending(steps, name) <==>
              forall k :: 0 <= k < |steps| && steps[k].name == name ==> steps[k].phase == StepPending
  {
    forall k | 0 <= k < |steps| && steps[k].name == name
      ensures StatusIndex(steps, name) == Some(k)
    {
      StatusIndexAt(steps, k);
    }
  }

  /** Nothing else is planned. */
  lemma PlannedIsStep(flow: Flow, sorted: seq<string>, steps: seq<StepStatus>, whenTrue: set<string>, n: string)
    returns (j: nat)
    requires n in Plan(StepMap(flow.spec.steps), sorted, steps, whenTrue)
    ensures j < |flow.spec.steps| && flow.spec.steps[j].name == n
  {
    SelectReadyContents(StepMap(flow.spec.steps), sorted, steps, whenTrue, sorted);
    j := StepMapEntry(flow.spec.steps, n);
  }

  // Timeouts.

  /** The step is running and has been so for more seconds than its specification allows, by the
      clock that is read for it. */
  ghost predicate Overdue(flow: Flow, inp: Inputs, s: StepStatus, j: nat)
    requires j < |flow.spec.steps|
  {
    && flow.spec.steps[j].name == s.name && flow.spec.steps[j].timeoutSeconds.Some?
    && s.phase == StepRunning && s.startTime.Some?
    && Clock(inp, CheckingTimeout(s.name)) - s.startTime.value > flow.spec.steps[j].timeoutSeconds.value * 1_000_000_000
  }

  ghost predicate FatallyOverdue(flow: Flow, inp: Inputs, s: StepStatus, j: int)
  {
    && 0 <= j < |flow.spec.steps| && Overdue(flow, inp, s, j)
    && !flow.spec.steps[j].continueOnFailure
  }

  ghost predicate SomeFatallyOverdue(flow: Flow, inp: Inputs, steps: seq<StepStatus>)
  {
    exists i, j :: 0 <= i < |steps| && FatallyOverdue(flow, inp, steps[i], j)
  }

  ghost predicate TimeoutsInRange(flow: Flow)
  {
    forall j :: 0 <= j < |flow.spec.steps| && flow.spec.steps[j].timeoutSeconds.Some? ==>
      InRange(flow.spec.steps[j].timeoutSeconds.value)
  }

  lemma TimedOutIff(flow: Flow, inp: Inputs, s: StepStatus)
    requires UniqueNames(flow.spec.steps) && TimeoutsInRange(flow)
    ensures TimedOut(flow, inp, s) <==> exists j :: 0 <= j < |flow.spec.steps| && Overdue(flow, inp, s, j)
    ensures FatalTimeout(flow, inp, s) <==> exists j :: FatallyOverdue(flow, inp, s, j)
  {
    var specs := flow.spec.steps;
    forall j | 0 <= j < |specs| && specs[j].name == s.name
      ensures FindStep(specs, s.name) == Some(specs[j])
      ensures TimedOut(flow, inp, s) <==> Overdue(flow, inp, s, j)
      ensures FatalTimeout(flow, inp, s) <==> FatallyOverdue(flow, inp, s, j)
    {
      FindStepAt(specs, j);
      if specs[j].timeoutSeconds.Some? {
        SecondsMean(specs[j].timeoutSeconds.value);
      }
    }
    if FindStep(specs, s.name).Some? {
      var j :| 0 <= j < |specs| && specs[j] == FindStep(specs, s.name).value;
      assert TimedOut(flow, inp, s) <==> Overdue(flow, inp, s, j);
      assert FatalTimeout(flow, inp, s) <==> FatallyOverdue(flow, inp, s, j);
    }
  }

  lemma SecondsMean(seconds: int)
    requires InRange(seconds)
    ensures SecondsToDuration(seconds) == seconds * 1_000_000_000
  {
  }

  /** What the timeout check does to entry i. */
  ghost predicate TimeoutEntry(flow: Flow, inp: Inputs, before: StepStatus, after: StepStatus)
  {
    if exists j :: 0 <= j < |flow.spec.steps| && Overdue(flow, inp, before, j)
    then after == before.(phase := StepFailed, completionTime := Some(Clock(inp, TimingOut(before.name))))
    else after == before
  }

  ghost predicate TimeoutOutcome(flow: Flow, inp: Inputs, st: Status, after: Status, jobs: map<string, Job>,
          left: map<string, Job>)
  {
    && |after.steps| == |st.steps|
    && (forall i :: 0 <= i < |st.steps| ==> TimeoutEntry(flow, inp, st.steps[i], after.steps[i]))
    && after.startTime == st.startTime && after.progress == st.progress
    && (if SomeFatallyOverdue(flow, inp, st.steps)
        then after.phase == FlowFailed && after.completionTime == Some(Clock(inp, FailingFlow))
        else after.phase == st.phase && after.completionTime == st.completionTime)
    && (forall job :: (job in left <==> job in jobs && !JobExpires(flow, inp, st, job))
                      && (job in left ==> left[job] == jobs[job]))
  }

  /** The timeout check, exactly: overdue steps fail and no others, the flow fails exactly if one of
      them does not say to continue, and of the Jobs exactly those of overdue steps go that can be
      deleted. */
  lemma TimeoutsMean(flow: Flow, inp: Inputs, st: Status, server: Server)
    requires UniqueNames(flow.spec.steps) && TimeoutsInRange(flow)
    ensures TimeoutOutcome(flow, inp, st, Timeouts(flow, inp, st), server.jobs,
                           DeleteJobs(server, TimedOutJobs(flow, inp, st.steps)).jobs)
  {
    var after := Timeouts(flow, inp, st);
    forall i | 0 <= i < |st.steps|
      ensures TimeoutEntry(flow, inp, st.steps[i], after.steps[i])
      ensures TimedOut(flow, inp, st.steps[i]) <==> IsOverdue(flow, inp, st.steps[i])
      ensures FatalTimeout(flow, inp, st.steps[i]) <==> exists j :: FatallyOverdue(flow, inp, st.steps[i], j)
    {
      TimedOutIff(flow, inp, st.steps[i]);
    }
    forall job
      ensures job in TimedOutJobs(flow, inp, st.steps) <==> JobExpires(flow, inp, st, job)
    {
    }
  }

  ghost predicate IsOverdue(flow: Flow, inp: Inputs, s: StepStatus)
  {
    exists j :: 0 <= j < |flow.spec.steps| && Overdue(flow, inp, s, j)
  }

  /** The Job is that of an overdue step, and deleting it takes effect. */
  ghost predicate JobExpires(flow: Flow, inp: Inputs, st: Status, job: string)
  {
    && job !in inp.undeleted
    && exists i :: 0 <= i < |st.steps| && st.steps[i].jobRef == Some(job) && IsOverdue(flow, inp, st.steps[i])
  }

  // Retries.

  /** A failed entry is retried exactly if its step's policy allows one more and the delay, counted
      from its completion time if it has one, is over. It starts anew with one more retry
      counted. All other entries stay. */
  lemma RetryMeans(flow: Flow, inp: Inputs, s: StepStatus, j: nat)
    requires UniqueNames(flow.spec.steps) && j < |flow.spec.steps| && flow.spec.steps[j].name == s.name
    requires 0 <= s.retryCount
    ensures var spec := flow.spec.steps[j];
            RetryStep(flow, inp, s) ==
              if && s.phase == StepFailed && s.retryCount < AllowedRetries(flow, spec)
                 && (s.completionTime.Some? ==>
                     Clock(inp, Retrying(s.name)) - s.completionTime.value >=
                         RetryDelay(flow, inp, s, spec.retryPolicy.value))
              then StepStatus(s.name, StepPending, None, None, None, s.retryCount + 1)
              else s
  {
    FindStepAt(flow.spec.steps, j);
  }
}
