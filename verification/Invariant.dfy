/** What every stage of a pass keeps of the step statuses of a validated flow. */
module Invariant {
  import opened Types
  import opened Validation
  import opened Transition
  import opened Planning

  /** The field invariant of one step: which of phase, Job reference and times go together. */
  ghost predicate FieldsAgree(flow: Flow, spec: Step, s: StepStatus)
  {
    && s.name == spec.name
    && s.phase != StepSkipped
    && (s.jobRef.Some? ==>
          && s.phase in {StepRunning, StepSucceeded, StepFailed}
          && s.jobRef.value == JobName(flow, s.name)
          && s.startTime.Some? && !IsManual(spec))
    && (s.phase == StepRunning ==> s.jobRef.Some?)
    && (s.phase == StepPending ==> s.jobRef.None? && s.startTime.None? && s.completionTime.None?)
    && (s.phase == StepPendingApproval ==> s.startTime.Some? && s.jobRef.None? && IsManual(spec))
    && (s.phase == StepSucceeded && s.jobRef.None? ==> IsManual(spec))
    && (s.phase == StepFailed && s.jobRef.None? && !IsManual(spec) ==> s.completionTime.None?)
  }

  /** How often a step may be retried: not at all without a policy; with one, as often as its
      limit says if that is positive, and otherwise as often as the controller's default, an
      int32, says. */
  function AllowedRetries(flow: Flow, spec: Step): nat
  {
    match spec.retryPolicy
    case None => 0
    case Some(policy) =>
      if policy.limit > 0 then policy.limit
      else if Int32(flow.config.defaultRetryLimit) > 0 then Int32(flow.config.defaultRetryLimit)
      else 0
  }

  ghost predicate RetriesInLimit(flow: Flow, spec: Step, s: StepStatus)
  {
    0 <= s.retryCount <= AllowedRetries(flow, spec)
  }

  /** The invariant of one step, relative to the history: the steps that ever left Pending
      and the steps whose approval was ever observed. */
  ghost predicate StepInv(flow: Flow, spec: Step, s: StepStatus, started: set<string>, approved: set<string>)
  {
    && FieldsAgree(flow, spec, s)
    && RetriesInLimit(flow, spec, s)
    && (s.phase != StepPending ==> s.name in started)
    && (IsManual(spec) && s.phase == StepSucceeded ==> s.name in approved)
  }

  ghost predicate GoodSteps(flow: Flow, steps: seq<StepStatus>, started: set<string>, approved: set<string>)
  {
    && |steps| == |flow.spec.steps|
    && forall i :: 0 <= i < |steps| ==> StepInv(flow, flow.spec.steps[i], steps[i], started, approved)
  }

  ghost predicate GoodStatus(flow: Flow, st: Status, started: set<string>, approved: set<string>)
  {
    && GoodSteps(flow, st.steps, started, approved)
    && st.phase != FlowUnset
    && st.startTime.Some?
    && st.progress.Some? && st.progress.value.total == |flow.spec.steps|
  }

  const BLANK := Status(FlowUnset, None, None, None, [])

  /** Before initialisation. A negative backoff limit, which only the webhook refuses, fails
      the flow before it is ever initialised. */
  ghost predicate NotInitialized(flow: Flow, st: Status)
  {
    && st.steps == [] && st.startTime.None? && st.progress.None?
    && (st.phase == FlowUnset || BackoffLimit(flow) < 0)
  }

  ghost predicate StatusInv(flow: Flow, st: Status, started: set<string>, approved: set<string>)
  {
    NotInitialized(flow, st) || GoodStatus(flow, st, started, approved)
  }

  lemma GoodStepsUnique(flow: Flow, steps: seq<StepStatus>, started: set<string>, approved: set<string>)
    requires StepsValid(flow.spec.steps) && GoodSteps(flow, steps, started, approved)
    ensures UniqueEntries(steps) && UniqueNames(flow.spec.steps)
  {
    ValidNamesUnique(flow.spec.steps);
    forall i, j | 0 <= i < j < |steps|
      ensures steps[i].name != steps[j].name
    {
      assert FieldsAgree(flow, flow.spec.steps[i], steps[i]) && FieldsAgree(flow, flow.spec.steps[j], steps[j]);
    }
  }

  /** Looking a step up by its name yields its spec and its status entry. */
  lemma Located(flow: Flow, steps: seq<StepStatus>, started: set<string>, approved: set<string>, i: nat)
    requires StepsValid(flow.spec.steps) && GoodSteps(flow, steps, started, approved) && i < |steps|
    ensures StepInv(flow, flow.spec.steps[i], steps[i], started, approved)
    ensures FindStep(flow.spec.steps, steps[i].name) == Some(flow.spec.steps[i])
    ensures StatusIndex(steps, steps[i].name) == Some(i)
  {
    GoodStepsUnique(flow, steps, started, approved);
    FindStepAt(flow.spec.steps, i);
    StatusIndexAt(steps, i);
  }

  lemma GoodStepsGrow(flow: Flow, steps: seq<StepStatus>, s1: set<string>, a1: set<string>, s2: set<string>,
          a2: set<string>)
    requires GoodSteps(flow, steps, s1, a1) && s1 <= s2 && a1 <= a2
    ensures GoodSteps(flow, steps, s2, a2)
  {
    forall i | 0 <= i < |steps|
      ensures StepInv(flow, flow.spec.steps[i], steps[i], s2, a2)
    {
      assert StepInv(flow, flow.spec.steps[i], steps[i], s1, a1);
    }
  }

  /** The steps whose approval annotation a pass finds in the flow it reads. */
  function ApprovedNames(flow: Flow, inp: Inputs): set<string>
  {
    set n | n in Names(flow.spec.steps) && Approved(inp.annotations, n)
  }

  lemma InitializeGood(flow: Flow, st: Status, now: int, started: set<string>, approved: set<string>)
    ensures GoodStatus(flow, Initialize(flow, st, now), started, approved)
  {
  }

  lemma ApprovalsKeep(flow: Flow, inp: Inputs, st: Status, started: set<string>, approved: set<string>)
    requires GoodStatus(flow, st, started, approved) && ApprovedNames(flow, inp) <= approved
    ensures GoodStatus(flow, ManualApprovals(inp, st), started, approved)
  {
    var st' := ManualApprovals(inp, st);
    forall i | 0 <= i < |st'.steps|
      ensures StepInv(flow, flow.spec.steps[i], st'.steps[i], started, approved)
    {
      assert StepInv(flow, flow.spec.steps[i], st.steps[i], started, approved);
      assert flow.spec.steps[i] in flow.spec.steps;
      assert flow.spec.steps[i].name in Names(flow.spec.steps);
    }
  }

  lemma RefreshKeeps(flow: Flow, inp: Inputs, st: Status, started: set<string>, approved: set<string>)
    requires GoodStatus(flow, st, started, approved)
    ensures GoodStatus(flow, Refresh(inp, st), started, approved)
  {
    var st' := Refresh(inp, st);
    forall i | 0 <= i < |st'.steps|
      ensures StepInv(flow, flow.spec.steps[i], st'.steps[i], started, approved)
    {
      assert StepInv(flow, flow.spec.steps[i], st.steps[i], started, approved);
    }
  }

  lemma TimeoutsKeep(flow: Flow, inp: Inputs, st: Status, started: set<string>, approved: set<string>)
    requires GoodStatus(flow, st, started, approved)
    ensures GoodStatus(flow, Timeouts(flow, inp, st), started, approved)
  {
    var st' := Timeouts(flow, inp, st);
    forall i | 0 <= i < |st'.steps|
      ensures StepInv(flow, flow.spec.steps[i], st'.steps[i], started, approved)
    {
      assert StepInv(flow, flow.spec.steps[i], st.steps[i], started, approved);
    }
  }

  lemma RetriesKeep(flow: Flow, inp: Inputs, st: Status, started: set<string>, approved: set<string>)
    requires StepsValid(flow.spec.steps) && GoodStatus(flow, st, started, approved)
    ensures GoodStatus(flow, Retries(flow, inp, st), started, approved)
  {
    var st' := Retries(flow, inp, st);
    forall i | 0 <= i < |st'.steps|
      ensures StepInv(flow, flow.spec.steps[i], st'.steps[i], started, approved)
    {
      Located(flow, st.steps, started, approved, i);
      RetryStepKeeps(flow, inp, flow.spec.steps[i], st.steps[i], started, approved);
    }
  }

  lemma RetryStepKeeps(flow: Flow, inp: Inputs, spec: Step, s: StepStatus, started: set<string>, approved: set<string>)
    requires FindStep(flow.spec.steps, s.name) == Some(spec)
    requires StepInv(flow, spec, s, started, approved)
    ensures StepInv(flow, spec, RetryStep(flow, inp, s), started, approved)
  {
  }

  /** A pending step is still pending after timeouts and retries, with its entry unchanged. */
  lemma PendingUntouched(flow: Flow, inp: Inputs, st: Status, i: nat)
    requires i < |st.steps| && st.steps[i].phase == StepPending
    ensures Retries(flow, inp, Timeouts(flow, inp, st)).steps[i] == st.steps[i]
  {
  }

  // Execution.

  /** The steps that an in-memory status shows outside Pending. */
  function NotPending(steps: seq<StepStatus>): set<string>
  {
    set i | 0 <= i < |steps| && steps[i].phase != StepPending :: steps[i].name
  }

  /** before and after agree except for one step's entry and the flow's phase and completion
      time, and the retry count of that step is unchanged. */
  ghost predicate OnlyStep(before: Status, after: Status, i: nat)
  {
    && |after.steps| == |before.steps| && i < |before.steps|
    && (forall k :: 0 <= k < |before.steps| && k != i ==> after.steps[k] == before.steps[k])
    && after.steps[i].retryCount == before.steps[i].retryCount
    && after.startTime == before.startTime && after.progress == before.progress
    && (before.phase != FlowUnset ==> after.phase != FlowUnset)
  }

  /** What executing a pending step does: its entry alone changes, it keeps the invariant once
      the step counts as started, and only this step can gain a Job. */
  ghost predicate TurnEffect(flow: Flow, inp: Inputs, l: Local, l': Local, i: nat)
    requires i < |flow.spec.steps|
  {
    && OnlyStep(l.mem, l'.mem, i)
    && FieldsAgree(flow, flow.spec.steps[i], l'.mem.steps[i])
    && (IsManual(flow.spec.steps[i]) && l'.mem.steps[i].phase == StepSucceeded ==>
        l'.mem.steps[i].name in ApprovedNames(flow, inp))
    && l.server.created <= l'.server.created <= l.server.created + {flow.spec.steps[i].name}
    && (|| (l'.server.status == l.server.status && l'.server.history == l.server.history)
        || (&& l'.server.history == l.server.history + [l'.server.status]
            && OnlyStep(l.mem, l'.server.status, i)
            && FieldsAgree(flow, flow.spec.steps[i], l'.server.status.steps[i])
            && (IsManual(flow.spec.steps[i]) && l'.server.status.steps[i].phase == StepSucceeded
                ==> l'.server.status.steps[i].name in ApprovedNames(flow, inp))
            && l'.mem.steps[i].phase != StepPending))
  }

  /** Executing a pending step never finds a Job reference: the branch of executeStep that
      looks after an existing Job is not taken, and the step is started instead. */
  lemma NoExistingJob(flow: Flow, inp: Inputs, l: Local, i: nat, started: set<string>, approved: set<string>)
    requires StepsValid(flow.spec.steps) && GoodSteps(flow, l.mem.steps, started, approved)
    requires i < |l.mem.steps| && l.mem.steps[i].phase == StepPending
    ensures l.mem.steps[i].jobRef.None?
    ensures ExecuteStep(flow, inp, l, l.mem.steps[i].name) == StartStep(flow, inp, l, i, flow.spec.steps[i])
  {
    Located(flow, l.mem.steps, started, approved, i);
  }

  lemma StartStepEffect(flow: Flow, inp: Inputs, l: Local, i: nat)
    requires i < |l.mem.steps| == |flow.spec.steps|
    requires FieldsAgree(flow, flow.spec.steps[i], l.mem.steps[i]) && l.mem.steps[i].phase == StepPending
    ensures TurnEffect(flow, inp, l, StartStep(flow, inp, l, i, flow.spec.steps[i]).0, i)
    ensures StartStep(flow, inp, l, i, flow.spec.steps[i]).1.None? ==>
              StartStep(flow, inp, l, i, flow.spec.steps[i]).0.mem.steps[i].phase != StepPending
  {
    assert flow.spec.steps[i] in flow.spec.steps;
    assert flow.spec.steps[i].name in Names(flow.spec.steps);
  }

  lemma TurnKeeps(flow: Flow, inp: Inputs, l: Local, i: nat, started: set<string>, approved: set<string>)
    requires StepsValid(flow.spec.steps) && GoodSteps(flow, l.mem.steps, started, approved)
    requires i < |l.mem.steps| && l.mem.steps[i].phase == StepPending
    ensures TurnEffect(flow, inp, l, ExecuteTurn(flow, inp, l, l.mem.steps[i].name).0, i)
    ensures !ExecuteTurn(flow, inp, l, l.mem.steps[i].name).1 ==>
              ExecuteTurn(flow, inp, l, l.mem.steps[i].name).0.mem.steps[i].phase != StepPending
  {
    NoExistingJob(flow, inp, l, i, started, approved);
    GoodStepsUnique(flow, l.mem.steps, started, approved);
    assert StepInv(flow, flow.spec.steps[i], l.mem.steps[i], started, approved);
    StartStepEffect(flow, inp, l, i);
    StartedPhases(flow, inp, l, i);
    var (l1, fault) := StartStep(flow, inp, l, i, flow.spec.steps[i]);
    TurnFromStart(flow, inp, l, i, l1, fault);
  }

  /** How a pending step stands after its start, before a failure is noted. */
  lemma StartedPhases(flow: Flow, inp: Inputs, l: Local, i: nat)
    requires i < |l.mem.steps| == |flow.spec.steps| && l.mem.steps[i].phase == StepPending
    ensures |StartStep(flow, inp, l, i, flow.spec.steps[i]).0.mem.steps| == |l.mem.steps|
    ensures StartStep(flow, inp, l, i, flow.spec.steps[i]).0.mem.steps[i].phase in
            {StepPending, StepPendingApproval, StepSucceeded, StepRunning}
  {
  }

  /** The failure branch of a turn marks the same step and nothing else. */
  lemma TurnFromStart(flow: Flow, inp: Inputs, l: Local, i: nat, l1: Local, fault: Option<Fault>)
    requires i < |l.mem.steps| == |flow.spec.steps| && UniqueEntries(l.mem.steps)
    requires l.mem.steps[i].name == flow.spec.steps[i].name && TurnEffect(flow, inp, l, l1, i)
    requires l1.mem.steps[i].phase in {StepPending, StepPendingApproval, StepSucceeded, StepRunning}
    requires fault.None? ==> l1.mem.steps[i].phase != StepPending
    ensures TurnEffect(flow, inp, l, EndTurn(flow, inp, l1, fault, l.mem.steps[i].name).0, i)
    ensures !EndTurn(flow, inp, l1, fault, l.mem.steps[i].name).1 ==>
              EndTurn(flow, inp, l1, fault, l.mem.steps[i].name).0.mem.steps[i].phase != StepPending
  {
    if fault.Some? && !fault.value.retryable {
      EntriesStayUnique(l.mem.steps, l1.mem.steps, i);
      StatusIndexAt(l1.mem.steps, i);
      FailureEffect(flow, inp, l, l1, i);
    }
  }

  /** Marking the executed step as failed keeps the effect of its turn. */
  lemma FailureEffect(flow: Flow, inp: Inputs, l: Local, l1: Local, i: nat)
    requires i < |l.mem.steps| == |flow.spec.steps| == |l1.mem.steps|
    requires TurnEffect(flow, inp, l, l1, i)
    requires StatusIndex(l1.mem.steps, l1.mem.steps[i].name) == Some(i)
    requires l1.mem.steps[i].phase in {StepPending, StepPendingApproval, StepSucceeded, StepRunning}
    ensures var st := HandleStepFailure(flow, inp, l1.mem, l1.mem.steps[i].name);
            && st.Some?
            && TurnEffect(flow, inp, l, l1.(mem := st.value), i)
            && st.value.steps[i].phase == StepFailed
  {
  }

  lemma EntriesStayUnique(a: seq<StepStatus>, b: seq<StepStatus>, i: nat)
    requires UniqueEntries(a) && |a| == |b| && i < |a| && a[i].name == b[i].name
    requires forall k :: 0 <= k < |a| && k != i ==> b[k] == a[k]
    ensures UniqueEntries(b)
  {
    forall j, k | 0 <= j < k < |b|
      ensures b[j].name != b[k].name
    {
      assert b[j].name == a[j].name && b[k].name == a[k].name;
    }
  }

  /** after has stored further statuses, all of which are good and keep the start time. */
  ghost predicate NewGood(flow: Flow, before: Server, after: Server, start: Option<int>, started: set<string>,
          approved: set<string>)
  {
    && before.history <= after.history
    && after.status == (if |after.history| == |before.history| then before.status
        else after.history[|after.history| - 1])
    && forall k :: |before.history| <= k < |after.history| ==>
         GoodStatus(flow, after.history[k], started, approved) && after.history[k].startTime == start
  }

  /** The turn's effect, in terms of the invariants. */
  lemma TurnInvariants(flow: Flow, inp: Inputs, l: Local, l': Local, i: nat, started: set<string>,
          approved: set<string>)
    requires GoodStatus(flow, l.mem, started, approved) && GoodStatus(flow, l.server.status, started, approved)
    requires i < |l.mem.steps| && l.mem.steps[i].phase == StepPending
    requires TurnEffect(flow, inp, l, l', i) && ApprovedNames(flow, inp) <= approved
    ensures GoodStatus(flow, l'.mem, started + NotPending(l'.mem.steps), approved)
    ensures GoodStatus(flow, l'.server.status, started + NotPending(l'.mem.steps), approved)
    ensures NewGood(flow, l.server, l'.server, l.mem.startTime, started + NotPending(l'.mem.steps), approved)
  {
    var started' := started + NotPending(l'.mem.steps);
    forall k | 0 <= k < |l'.mem.steps|
      ensures StepInv(flow, flow.spec.steps[k], l'.mem.steps[k], started', approved)
    {
      assert StepInv(flow, flow.spec.steps[k], l.mem.steps[k], started, approved);
    }
    if l'.server.status == l.server.status {
      GoodStepsGrow(flow, l.server.status.steps, started, approved, started', approved);
    } else {
      forall k | 0 <= k < |l'.server.status.steps|
        ensures StepInv(flow, flow.spec.steps[k], l'.server.status.steps[k], started', approved)
      {
        assert StepInv(flow, flow.spec.steps[k], l.mem.steps[k], started, approved);
        assert l'.mem.steps[i].name == flow.spec.steps[i].name;
        assert l'.mem.steps[i].name in NotPending(l'.mem.steps);
      }
    }
  }

  /** names lists pending entries, each once. */
  ghost predicate AllPending(steps: seq<StepStatus>, names: seq<string>)
  {
    && Distinct(names)
    && forall n :: n in names ==> exists i :: 0 <= i < |steps| && steps[i].name == n && steps[i].phase == StepPending
  }

  lemma AllPendingTail(steps: seq<StepStatus>, steps': seq<StepStatus>, names: seq<string>, i: nat)
    requires |names| > 0 && AllPending(steps, names) && |steps'| == |steps|
    requires i < |steps| && steps[i].name == names[0]
    requires forall k :: 0 <= k < |steps| && k != i ==> steps'[k] == steps[k]
    ensures AllPending(steps', names[1..])
  {
    var rest := names[1..];
    forall n | n in rest
      ensures exists k :: 0 <= k < |steps'| && steps'[k].name == n && steps'[k].phase == StepPending
    {
      var m :| 0 <= m < |rest| && rest[m] == n;
      assert names[m + 1] == n && names[m + 1] in names;
      var k :| 0 <= k < |steps| && steps[k].name == n && steps[k].phase == StepPending;
      assert names[0] != names[m + 1];
      assert steps'[k] == steps[k];
    }
  }

  /** What running a list of pending steps keeps, and what it leaves alone. */
  ghost predicate RunEffect(flow: Flow, l: Local, l': Local, ready: seq<string>, started: set<string>,
          approved: set<string>)
  {
    && GoodStatus(flow, l'.mem, started + NotPending(l'.mem.steps), approved)
    && GoodStatus(flow, l'.server.status, started + NotPending(l'.mem.steps), approved)
    && NewGood(flow, l.server, l'.server, l.mem.startTime, started + NotPending(l'.mem.steps), approved)
    && RunFrame(l, l', ready)
  }

  /** What a run of the execution loop leaves alone. */
  ghost predicate RunFrame(l: Local, l': Local, ready: seq<string>)
  {
    && l.server.created <= l'.server.created <= l.server.created + Elems(ready)
    && l'.mem.startTime == l.mem.startTime
    && |l'.mem.steps| == |l.mem.steps|
    && (forall k :: 0 <= k < |l.mem.steps| ==> l'.mem.steps[k].retryCount == l.mem.steps[k].retryCount)
    && (forall k :: 0 <= k < |l.mem.steps| && l.mem.steps[k].name !in ready ==> l'.mem.steps[k] == l.mem.steps[k])
    && (forall k :: 0 <= k < |l.mem.steps| ==> l'.mem.steps[k].name == l.mem.steps[k].name)
    && (forall k :: 0 <= k < |l.mem.steps| && l.mem.steps[k].phase != StepPending ==>
        l'.mem.steps[k].phase != StepPending)
    && (|| l'.server.status == l.server.status
        || (&& |l'.server.status.steps| == |l.mem.steps|
            && (forall k :: 0 <= k < |l.mem.steps| ==>
                l'.server.status.steps[k].retryCount == l.mem.steps[k].retryCount)
            && (forall k :: 0 <= k < |l.mem.steps| && l.mem.steps[k].name !in ready ==>
                l'.server.status.steps[k] == l.mem.steps[k])))
  }

  lemma {:induction false} RunReadyKeeps(flow: Flow, inp: Inputs, l: Local, ready: seq<string>, started: set<string>,
          approved: set<string>)
    requires StepsValid(flow.spec.steps)
    requires GoodStatus(flow, l.mem, started, approved) && GoodStatus(flow, l.server.status, started, approved)
    requires ApprovedNames(flow, inp) <= approved && AllPending(l.mem.steps, ready)
    ensures RunEffect(flow, l, RunReady(flow, inp, l, ready).0, ready, started, approved)
    decreases |ready|
  {
    if |ready| == 0 {
      GoodStepsGrow(flow, l.mem.steps, started, approved, started + NotPending(l.mem.steps), approved);
      GoodStepsGrow(flow, l.server.status.steps, started, approved, started + NotPending(l.mem.steps), approved);
    } else {
      assert ready[0] in ready;
      var i :| 0 <= i < |l.mem.steps| && l.mem.steps[i].name == ready[0] && l.mem.steps[i].phase == StepPending;
      TurnKeeps(flow, inp, l, i, started, approved);
      var (l1, stopped) := ExecuteTurn(flow, inp, l, ready[0]);
      TurnInvariants(flow, inp, l, l1, i, started, approved);
      TurnRun(flow, inp, l, l1, i, ready, started, approved);
      if !stopped {
        AllPendingTail(l.mem.steps, l1.mem.steps, ready, i);
        RunReadyKeeps(flow, inp, l1, ready[1..], started + NotPending(l1.mem.steps), approved);
        RunCompose(flow, inp, l, l1, RunReady(flow, inp, l1, ready[1..]).0, i, ready, started, approved);
      }
    }
  }

  /** A single turn is a run. */
  lemma TurnRun(flow: Flow, inp: Inputs, l: Local, l': Local, i: nat, ready: seq<string>, started: set<string>,
          approved: set<string>)
    requires GoodStatus(flow, l.mem, started, approved) && GoodStatus(flow, l.server.status, started, approved)
    requires i < |l.mem.steps| && l.mem.steps[i].phase == StepPending && TurnEffect(flow, inp, l, l', i)
    requires GoodStatus(flow, l'.mem, started + NotPending(l'.mem.steps), approved)
    requires GoodStatus(flow, l'.server.status, started + NotPending(l'.mem.steps), approved)
    requires NewGood(flow, l.server, l'.server, l.mem.startTime, started + NotPending(l'.mem.steps), approved)
    requires |ready| > 0 && l.mem.steps[i].name == ready[0]
    ensures RunEffect(flow, l, l', ready, started, approved)
  {
    SameNames(flow, l.mem.steps, l'.mem.steps, started, started + NotPending(l'.mem.steps), approved);
    assert StepInv(flow, flow.spec.steps[i], l.mem.steps[i], started, approved);
    assert ready[0] in Elems(ready);
  }

  lemma SameNames(flow: Flow, a: seq<StepStatus>, b: seq<StepStatus>, s1: set<string>, s2: set<string>,
          approved: set<string>)
    requires GoodSteps(flow, a, s1, approved) && GoodSteps(flow, b, s2, approved)
    ensures |a| == |b| && forall k :: 0 <= k < |a| ==> a[k].name == b[k].name
  {
    forall k | 0 <= k < |a|
      ensures a[k].name == b[k].name
    {
      assert StepInv(flow, flow.spec.steps[k], a[k], s1, approved) &&
             StepInv(flow, flow.spec.steps[k], b[k], s2, approved);
    }
  }

  /** A turn followed by the rest of the run. */
  lemma RunCompose(flow: Flow, inp: Inputs, l: Local, l1: Local, l2: Local, i: nat, ready: seq<string>,
          started: set<string>, approved: set<string>)
    requires |ready| > 0 && Distinct(ready)
    requires i < |l.mem.steps| == |flow.spec.steps| && l.mem.steps[i].name == ready[0] &&
             l.mem.steps[i].phase == StepPending
    requires l.mem.steps[i].name == flow.spec.steps[i].name
    requires TurnEffect(flow, inp, l, l1, i)
    requires forall k :: 0 <= k < |l.mem.steps| ==> l1.mem.steps[k].name == l.mem.steps[k].name
    requires NewGood(flow, l.server, l1.server, l.mem.startTime, started + NotPending(l1.mem.steps), approved)
    requires RunEffect(flow, l1, l2, ready[1..], started + NotPending(l1.mem.steps), approved)
    ensures RunEffect(flow, l, l2, ready, started, approved)
  {
    FrameCompose(flow, inp, l, l1, l2, i, ready);
    forall n | n in NotPending(l1.mem.steps)
      ensures n in NotPending(l2.mem.steps)
    {
      var k :| 0 <= k < |l1.mem.steps| && l1.mem.steps[k].phase != StepPending && l1.mem.steps[k].name == n;
      assert l2.mem.steps[k].phase != StepPending && l2.mem.steps[k].name == n;
    }
    assert started + NotPending(l1.mem.steps) + NotPending(l2.mem.steps) == started + NotPending(l2.mem.steps);
    NewGoodCompose(flow, l.server, l1.server, l2.server, l.mem.startTime, started + NotPending(l1.mem.steps),
                   started + NotPending(l2.mem.steps), approved);
  }

  lemma NewGoodCompose(flow: Flow, a: Server, b: Server, c: Server, start: Option<int>,
                       s1: set<string>, s2: set<string>, approved: set<string>)
    requires NewGood(flow, a, b, start, s1, approved) && NewGood(flow, b, c, start, s2, approved) && s1 <= s2
    ensures NewGood(flow, a, c, start, s2, approved)
  {
    forall k | |a.history| <= k < |c.history|
      ensures GoodStatus(flow, c.history[k], s2, approved) && c.history[k].startTime == start
    {
      if k < |b.history| {
        assert c.history[k] == b.history[k];
        GoodStepsGrow(flow, b.history[k].steps, s1, approved, s2, approved);
      }
    }
  }

  lemma FrameCompose(flow: Flow, inp: Inputs, l: Local, l1: Local, l2: Local, i: nat, ready: seq<string>)
    requires |ready| > 0 && Distinct(ready)
    requires i < |l.mem.steps| == |flow.spec.steps| && flow.spec.steps[i].name == l.mem.steps[i].name == ready[0] &&
             l.mem.steps[i].phase == StepPending
    requires TurnEffect(flow, inp, l, l1, i)
    requires forall k :: 0 <= k < |l.mem.steps| ==> l1.mem.steps[k].name == l.mem.steps[k].name
    requires RunFrame(l1, l2, ready[1..])
    ensures RunFrame(l, l2, ready)
  {
    var rest := ready[1..];
    assert ready == [ready[0]] + rest;
    assert ready[0] !in rest;
  }
}
