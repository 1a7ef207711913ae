/** pkg/controller/reconciler.go as methods that update the JobFlow object and the API server
    in place, each proved against its stage in Transition. */
module Reconciler {
  import opened Types
  import opened Transition
  import opened Planning
  import opened Objects
  import opened StageLaws

  // Gates.

  method CheckActiveDeadline(jf: JobFlow, now: int) returns (exceeded: bool)
    ensures exceeded <==> DeadlineExceeded(jf.flow, jf.Status(), now)
    ensures DeadlineInRange(jf.flow) ==> (exceeded <==> Late(jf.flow, jf.Status(), now))
  {
    if DeadlineInRange(jf.flow) {
      DeadlineIff(jf.flow, jf.Status(), now);
    }
    if jf.flow.spec.activeDeadlineSeconds.None? || jf.startTime.None? {
      return false;
    }
    var deadline := jf.startTime.value + SecondsToDuration(jf.flow.spec.activeDeadlineSeconds.value);
    return now > deadline;
  }

  method CheckBackoffLimit(jf: JobFlow) returns (exceeded: bool)
    ensures exceeded <==> BackoffExceeded(jf.flow, jf.Status())
  {
    var limit := jf.flow.config.defaultBackoffLimit;
    if jf.flow.spec.backoffLimit.Some? {
      limit := jf.flow.spec.backoffLimit.value;
    }
    var total: I32 := 0;
    for i := 0 to |jf.steps|
      invariant total == TotalRetries32(jf.steps[..i])
    {
      assert jf.steps[..i + 1][..i] == jf.steps[..i];
      total := Int32(total + jf.steps[i].retryCount);
    }
    assert jf.steps[..|jf.steps|] == jf.steps;
    return total > limit;
  }

  method InitializeJobFlow(jf: JobFlow, api: ApiServer, inp: Inputs)
    modifies jf, api
    ensures jf.Status() == Initialize(jf.flow, old(jf.Status()), Clock(inp, Initializing))
    ensures api.Server() == if inp.templatesFail then old(api.Server())
                            else WriteStatus(old(api.Server()), jf.Status(), inp.lastWrite)
  {
    var specs := jf.flow.spec.steps;
    jf.phase, jf.startTime := FlowPending, Some(Clock(inp, Initializing));
    jf.progress := Some(Progress(0, |specs|, 0, 0));
    jf.steps := [];
    for i := 0 to |specs|
      modifies jf
      invariant |jf.steps| == i && forall k :: 0 <= k < i ==> jf.steps[k] == FreshStep(specs[k].name)
      invariant jf.phase == FlowPending && jf.startTime == Some(Clock(inp, Initializing))
      invariant jf.completionTime == old(jf.completionTime) && jf.progress == Some(Progress(0, |specs|, 0, 0))
    {
      jf.steps := jf.steps + [FreshStep(specs[i].name)];
    }
    if !inp.templatesFail {
      var err := api.UpdateStatus(jf.Status(), inp.lastWrite);
    }
  }

  // Manual approvals.

  method CheckManualApprovals(jf: JobFlow, inp: Inputs)
    requires jf.annotations == inp.annotations
    modifies jf
    ensures jf.Status() == ManualApprovals(inp, old(jf.Status()))
  {
    ghost var was := jf.steps;
    var hasPending := false;
    for i := 0 to |jf.steps|
      modifies jf
      invariant |jf.steps| == |was|
      invariant forall k :: 0 <= k < i ==> jf.steps[k] == ApproveStep(inp, was[k])
      invariant forall k :: i <= k < |was| ==> jf.steps[k] == was[k]
      invariant hasPending <==> exists k :: 0 <= k < i && was[k].phase == StepPendingApproval
      invariant jf.phase == old(jf.phase) && jf.startTime == old(jf.startTime)
      invariant jf.completionTime == old(jf.completionTime) && jf.progress == old(jf.progress)
    {
      var s := jf.steps[i];
      if s.phase == StepPendingApproval {
        hasPending := true;
        if Approved(jf.annotations, s.name) {
          var now := Clock(inp, Approving(s.name));
          s := s.(phase := StepSucceeded, completionTime := Some(now));
          if s.startTime.None? {
            s := s.(startTime := Some(now));
          }
          jf.steps := jf.steps[i := s];
        }
      }
    }
    assert hasPending <==> HasPendingApproval(was);
    if hasPending && jf.phase != FlowPaused {
      jf.phase := FlowPaused;
    } else if !hasPending && jf.phase == FlowPaused {
      jf.phase := FlowRunning;
    }
  }

  // Refresh from Jobs.

  /** The update of one step from its Job, by name. */
  method RefreshStepStatusFromJob(jf: JobFlow, name: string, job: Job, now: int)
    modifies jf`steps
    ensures var i := StatusIndex(old(jf.steps), name);
            jf.steps == if i.None? then old(jf.steps)
                else old(jf.steps)[i.value := StepFromJob(old(jf.steps)[i.value], job, now)]
  {
    var i := StatusIndex(jf.steps, name);
    if i.None? {
      return;
    }
    var s := jf.steps[i.value];
    if job.succeeded > 0 {
      s := s.(phase := StepSucceeded, completionTime := Some(now));
    } else if job.failed > 0 {
      s := s.(phase := StepFailed, completionTime := Some(now));
    } else {
      s := s.(phase := StepRunning);
    }
    jf.steps := jf.steps[i.value := s];
  }

  /** The sequential refresh: it stops at the first lookup that fails. */
  method RefreshStepStatuses(jf: JobFlow, inp: Inputs) returns (err: Option<Fault>)
    modifies jf`steps
    ensures UniqueEntries(old(jf.steps)) && err.None? ==>
              jf.Status() == Refresh(inp, old(jf.Status())) && !RefreshFails(inp, old(jf.steps))
    ensures UniqueEntries(old(jf.steps)) && err.Some? ==>
              exists i :: LookupFails(inp, old(jf.steps), i)
                          && |jf.steps| == |old(jf.steps)|
                          && (forall k :: 0 <= k < i ==>
                                && !LookupFails(inp, old(jf.steps), k)
                                && jf.steps[k] == RefreshStep(inp, old(jf.steps)[k]))
                          && (forall k :: i <= k < |jf.steps| ==> jf.steps[k] == old(jf.steps)[k])
  {
    ghost var was := jf.steps;
    for i := 0 to |jf.steps|
      modifies jf`steps
      invariant |jf.steps| == |was|
      invariant UniqueEntries(was) ==> forall k :: 0 <= k < i ==>
                !LookupFails(inp, was, k) && jf.steps[k] == RefreshStep(inp, was[k])
      invariant UniqueEntries(was) ==> forall k :: i <= k < |was| ==> jf.steps[k] == was[k]
    {
      var s := jf.steps[i];
      if s.jobRef.None? {
        continue;
      }
      match LookupJob(inp, s.jobRef.value) {
        case NotFound =>
          jf.steps := jf.steps[i := s.(phase := StepFailed, completionTime := Some(Clock(inp, Refreshing(s.name))))];
        case LookupFailed(retryable) =>
          assert UniqueEntries(was) ==> LookupFails(inp, was, i);
          return Some(Fault(false, retryable));
        case Found(job) =>
          if UniqueEntries(was) {
            SameNamesUnique(was, jf.steps, inp, i);
            StatusIndexAt(jf.steps, i);
          }
          RefreshStepStatusFromJob(jf, s.name, job, Clock(inp, Refreshing(s.name)));
      }
    }
    return None;
  }

  lemma SameNamesUnique(was: seq<StepStatus>, steps: seq<StepStatus>, inp: Inputs, i: nat)
    requires UniqueEntries(was) && |steps| == |was| && i <= |was|
    requires forall k :: 0 <= k < i ==> steps[k] == RefreshStep(inp, was[k])
    requires forall k :: i <= k < |was| ==> steps[k] == was[k]
    ensures UniqueEntries(steps)
  {
    forall j, k | 0 <= j < k < |steps|
      ensures steps[j].name != steps[k].name
    {
      assert steps[j].name == was[j].name && steps[k].name == was[k].name;
    }
  }

  /** The part of a refresh task that runs under the mutex. */
  method EnterCritical(jf: JobFlow, task: nat, result: Lookup, now: int, firstErr: Option<Fault>)
          returns (err: Option<Fault>)
    requires task < |jf.steps|
    modifies jf`steps
    ensures UniqueEntries(old(jf.steps)) ==>
            jf.steps == old(jf.steps)[task := ApplyLookup(old(jf.steps)[task], result, now)]
    ensures |jf.steps| == |old(jf.steps)|
    ensures forall k :: 0 <= k < |jf.steps| ==> jf.steps[k].jobRef == old(jf.steps)[k].jobRef
    ensures err == if result.LookupFailed? && firstErr.None? then Some(Fault(false, result.retryable)) else firstErr
  {
    err := firstErr;
    var s := jf.steps[task];
    match result {
      case NotFound =>
        jf.steps := jf.steps[task := s.(phase := StepFailed, completionTime := Some(now))];
      case LookupFailed(retryable) =>
        if firstErr.None? {
          err := Some(Fault(false, retryable));
        }
      case Found(job) =>
        if UniqueEntries(jf.steps) {
          StatusIndexAt(jf.steps, task);
        }
        RefreshStepStatusFromJob(jf, s.name, job, now);
    }
  }

  /** The state of the refresh when the tasks in done have finished. */
  ghost predicate RefreshedSoFar(inp: Inputs, was: seq<StepStatus>, steps: seq<StepStatus>, done: set<nat>,
          err: Option<Fault>)
  {
    && |steps| == |was|
    && (forall k :: 0 <= k < |was| ==> steps[k] == if k in done then RefreshStep(inp, was[k]) else was[k])
    && (err.Some? <==> exists k :: k in done && LookupFails(inp, was, k))
    && (err.Some? ==> exists k :: k in done && LookupFails(inp, was, k)
                                  && LookupJob(inp, was[k].jobRef.value) == LookupFailed(err.value.retryable))
  }

  lemma RefreshedSoFarUnique(inp: Inputs, was: seq<StepStatus>, steps: seq<StepStatus>, done: set<nat>,
          err: Option<Fault>)
    requires UniqueEntries(was) && RefreshedSoFar(inp, was, steps, done, err)
    ensures UniqueEntries(steps)
  {
    forall j, k | 0 <= j < k < |steps|
      ensures steps[j].name != steps[k].name
    {
      assert steps[j].name == was[j].name && steps[k].name == was[k].name;
    }
  }

  lemma RefreshedOneMore(inp: Inputs, was: seq<StepStatus>, steps: seq<StepStatus>, done: set<nat>, err: Option<Fault>,
          task: nat, err': Option<Fault>)
    requires RefreshedSoFar(inp, was, steps, done, err)
    requires task < |was| && task !in done && was[task].jobRef.Some?
    requires var result := LookupJob(inp, was[task].jobRef.value);
             err' == if result.LookupFailed? && err.None? then Some(Fault(false, result.retryable)) else err
    ensures RefreshedSoFar(inp, was, steps[task := RefreshStep(inp, was[task])], done + {task}, err')
  {
    var result := LookupJob(inp, was[task].jobRef.value);
    if err.Some? {
      var k :| k in done && LookupFails(inp, was, k) &&
          LookupJob(inp, was[k].jobRef.value) == LookupFailed(err.value.retryable);
      assert k in done + {task};
    } else if result.LookupFailed? {
      assert task in done + {task} && LookupFails(inp, was, task);
    }
  }

  /** The parallel refresh. Each task first fetches its Job and later enters the critical
      section; the loop lets any task take its next step at any time, so the contract covers
      every interleaving of the goroutines. */
  method RefreshStepStatusesParallel(jf: JobFlow, inp: Inputs) returns (firstErr: Option<Fault>)
    modifies jf`steps
    ensures UniqueEntries(old(jf.steps)) ==> jf.Status() == Refresh(inp, old(jf.Status()))
    ensures UniqueEntries(old(jf.steps)) ==> (firstErr.Some? <==> RefreshFails(inp, old(jf.steps)))
    ensures UniqueEntries(old(jf.steps)) && firstErr.Some? ==>
              exists k :: LookupFails(inp, old(jf.steps), k)
                          && LookupJob(inp, old(jf.steps)[k].jobRef.value) == LookupFailed(firstErr.value.retryable)
  {
    ghost var was := jf.steps;
    ghost var unique := UniqueEntries(was);
    firstErr := None;
    var jobNames := map i: nat | 0 <= i < |jf.steps| && jf.steps[i].jobRef.Some? :: jf.steps[i].jobRef.value;
    var idle, fetched: set<nat> := jobNames.Keys, {};
    var results: map<nat, Lookup> := map[];
    ghost var done: set<nat> := {};
    while idle + fetched != {}
      invariant Splits(jobNames.Keys, idle, fetched, done)
      invariant |jf.steps| == |was|
      invariant FetchedBy(inp, jobNames, fetched, results)
      invariant unique ==> RefreshedSoFar(inp, was, jf.steps, done, firstErr)
      decreases idle + fetched, idle
    {
      var task: nat :| task in idle + fetched;
      if task in idle {
        TaskFetches(jobNames.Keys, idle, fetched, done, task);
        results := results[task := LookupJob(inp, jobNames[task])];
        idle, fetched := idle - {task}, fetched + {task};
      } else {
        TaskEnds(jobNames.Keys, idle, fetched, done, task);
        firstErr := FinishTask(jf, task, results[task], inp, firstErr, was, done);
        fetched, done := fetched - {task}, done + {task};
      }
    }
    assert done == jobNames.Keys;
    if unique {
      AllRefreshed(inp, old(jf.Status()), jf.Status(), done, firstErr);
    }
  }

  /** Every task is idle, has fetched its Job, or is done. */
  ghost predicate Splits(all: set<nat>, idle: set<nat>, fetched: set<nat>, done: set<nat>)
  {
    all == idle + fetched + done && idle !! fetched && idle !! done && fetched !! done
  }

  ghost predicate FetchedBy(inp: Inputs, jobNames: map<nat, string>, fetched: set<nat>, results: map<nat, Lookup>)
  {
    forall k :: k in fetched ==> k in jobNames && k in results && results[k] == LookupJob(inp, jobNames[k])
  }

  lemma TaskFetches(all: set<nat>, idle: set<nat>, fetched: set<nat>, done: set<nat>, task: nat)
    requires Splits(all, idle, fetched, done) && task in idle
    ensures Splits(all, idle - {task}, fetched + {task}, done) && task in all
    ensures (idle - {task}) + (fetched + {task}) == idle + fetched
  {
  }

  lemma TaskEnds(all: set<nat>, idle: set<nat>, fetched: set<nat>, done: set<nat>, task: nat)
    requires Splits(all, idle, fetched, done) && task in fetched
    ensures Splits(all, idle, fetched - {task}, done + {task}) && task in all && task !in done
    ensures idle + (fetched - {task}) < idle + fetched
  {
    assert task !in idle + (fetched - {task});
  }

  /** One critical section, in terms of the tasks that have finished. */
  method FinishTask(jf: JobFlow, task: nat, result: Lookup, inp: Inputs, firstErr: Option<Fault>,
                    ghost was: seq<StepStatus>, ghost done: set<nat>) returns (err: Option<Fault>)
    requires task < |was| == |jf.steps| && was[task].jobRef.Some? && task !in done
    requires result == LookupJob(inp, was[task].jobRef.value)
    requires UniqueEntries(was) ==> RefreshedSoFar(inp, was, jf.steps, done, firstErr)
    modifies jf`steps
    ensures |jf.steps| == |was|
    ensures UniqueEntries(was) ==> RefreshedSoFar(inp, was, jf.steps, done + {task}, err)
  {
    if UniqueEntries(was) {
      RefreshedSoFarUnique(inp, was, jf.steps, done, firstErr);
    }
    ghost var steps := jf.steps;
    err := EnterCritical(jf, task, result, Clock(inp, Refreshing(jf.steps[task].name)), firstErr);
    if UniqueEntries(was) {
      RefreshedOneMore(inp, was, steps, done, firstErr, task, err);
    }
  }

  lemma AllRefreshed(inp: Inputs, was: Status, st: Status, done: set<nat>, err: Option<Fault>)
    requires RefreshedSoFar(inp, was.steps, st.steps, done, err) && st == was.(steps := st.steps)
    requires done == set i: nat | 0 <= i < |was.steps| && was.steps[i].jobRef.Some?
    ensures st == Refresh(inp, was)
    ensures err.Some? <==> RefreshFails(inp, was.steps)
  {
  }
}
