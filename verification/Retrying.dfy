/** Whether a failed step gets the retry that its policy promises. */
module Retrying {
  import opened Types
  import opened Dag
  import opened Backoff
  import opened Validation
  import opened Transition
  import opened Planning
  import opened Invariant
  import opened Runs
  import opened Guarantees
  import opened Budgets

  /** The pass learns nothing new about the step's Job: there is none, or looking it up fails
      with something other than "not found". */
  predicate Unseen(inp: Inputs, s: StepStatus)
  {
    s.jobRef.Some? ==> LookupJob(inp, s.jobRef.value).LookupFailed?
  }

  /** The step's Job is gone or shows a failure and no success. */
  predicate SeenFailed(inp: Inputs, s: StepStatus)
  {
    && s.jobRef.Some?
    && match LookupJob(inp, s.jobRef.value)
       case NotFound => true
       case LookupFailed(_) => false
       case Found(job) => job.succeeded <= 0 < job.failed
  }

  /** The delay that the policy of a step asks for before its next retry. */
  function Delay(flow: Flow, inp: Inputs, s: StepStatus): int
    requires RetryDue(flow, inp, s)
  {
    RetryDelay(flow, inp, s, FindStep(flow.spec.steps, s.name).value.retryPolicy.value)
  }

  /** The time that passes, within the pass, between the moment when the refresh notes a failure
      and the moment when handleStepRetry tests the delay. */
  function Elapsed(inp: Inputs, name: string): int
  {
    Clock(inp, Retrying(name)) - Clock(inp, Refreshing(name))
  }

  /** A failed step whose retry is due by its stored completion time is retried by the pass if
      and only if the pass does not see the failed Job, or the delay elapses within the pass:
      seeing the failure again restarts the delay. */
  lemma DueRetryHappensIff(flow: Flow, inp: Inputs, st: Status, i: nat)
    requires i < |st.steps| && RetryDue(flow, inp, st.steps[i])
    requires Unseen(inp, st.steps[i]) || SeenFailed(inp, st.steps[i])
    ensures |Retried(flow, inp, st).steps| == |st.steps|
    ensures Retried(flow, inp, st).steps[i].retryCount
            == if Unseen(inp, st.steps[i]) || Elapsed(inp, st.steps[i].name) >= Delay(flow, inp, st.steps[i])
                then st.steps[i].retryCount + 1
               else st.steps[i].retryCount
  {
    SettledAt(flow, inp, st, i);
  }

  lemma TimeoutAt(flow: Flow, inp: Inputs, st: Status, i: nat)
    requires i < |st.steps|
    ensures |Timeouts(flow, inp, st).steps| == |st.steps|
    ensures Timeouts(flow, inp, st).steps[i] == TimeoutStep(flow, inp, st.steps[i])
  {
  }

  /** The stages before the retries, entry by entry. */
  lemma EntryBeforeRetries(flow: Flow, inp: Inputs, st: Status, i: nat)
    requires i < |st.steps|
    ensures |Retried(flow, inp, st).steps| == |BeforeRetries(flow, inp, st).steps| == |st.steps|
    ensures BeforeRetries(flow, inp, st).steps[i]
            == TimeoutStep(flow, inp, RefreshStep(inp, ApproveStep(inp, st.steps[i])))
    ensures Retried(flow, inp, st).steps[i] == RetryStep(flow, inp, BeforeRetries(flow, inp, st).steps[i])
  {
    BeforeRetriesAt(flow, inp, st, i);
    assert Refreshed(inp, st).steps[i] == RefreshStep(inp, ApproveStep(inp, st.steps[i]));
    TimeoutAt(flow, inp, Refreshed(inp, st), i);
  }

  /** What the pass makes of an entry that has failed, before retries. */
  lemma SettledAt(flow: Flow, inp: Inputs, st: Status, i: nat)
    requires i < |st.steps| && st.steps[i].phase == StepFailed
    requires Unseen(inp, st.steps[i]) || SeenFailed(inp, st.steps[i])
    ensures |Retried(flow, inp, st).steps| == |BeforeRetries(flow, inp, st).steps| == |st.steps|
    ensures BeforeRetries(flow, inp, st).steps[i]
            == if Unseen(inp, st.steps[i]) then st.steps[i]
                else st.steps[i].(completionTime := Some(Clock(inp, Refreshing(st.steps[i].name))))
    ensures Retried(flow, inp, st).steps[i] == RetryStep(flow, inp, BeforeRetries(flow, inp, st).steps[i])
  {
    EntryBeforeRetries(flow, inp, st, i);
  }

  /** Through the whole pass: over every run, a full pass whose result is stored counts a due
      retry if and only if it does not see the failed Job, or the delay elapses within it. */
  lemma {:induction false} DueRetryCountedIff(flow: Flow, run: seq<Move>, inp: Inputs, ch: Choices, i: nat)
    requires LegalRun(flow, run) && LegalChoices(flow, ch)
    requires FullPass(flow, After(flow, run).server, inp, ch) && inp.lastWrite.None?
    requires i < |After(flow, run).server.status.steps|
    requires var s := After(flow, run).server.status.steps[i];
             RetryDue(flow, inp, s) && (Unseen(inp, s) || SeenFailed(inp, s))
    ensures i < |Reconcile(flow, After(flow, run).server, inp, ch).server.status.steps|
    ensures var s := After(flow, run).server.status.steps[i];
            Reconcile(flow, After(flow, run).server, inp, ch).server.status.steps[i].retryCount
            == if Unseen(inp, s) || Elapsed(inp, s.name) >= Delay(flow, inp, s) then s.retryCount + 1 else s.retryCount
  {
    StoredCount(flow, run, inp, ch, i);
    DueRetryHappensIff(flow, inp, After(flow, run).server.status, i);
  }

  /** The retry counts that a full pass stores are those after its retries. */
  lemma {:induction false} StoredCount(flow: Flow, run: seq<Move>, inp: Inputs, ch: Choices, i: nat)
    requires LegalRun(flow, run) && LegalChoices(flow, ch)
    requires FullPass(flow, After(flow, run).server, inp, ch) && inp.lastWrite.None?
    requires i < |After(flow, run).server.status.steps|
    ensures var steps := Reconcile(flow, After(flow, run).server, inp, ch).server.status.steps;
            var retried := Retried(flow, inp, After(flow, run).server.status).steps;
            i < |steps| && i < |retried| && steps[i].retryCount == retried[i].retryCount
  {
    RunKeeps(flow, run);
    var s := After(flow, run);
    StoredNow(flow, s);
    LoopKeepsCount(flow, s, inp, ch.sorted.value, i);
    FullPassStores(flow, s.server, inp, ch);
  }

  lemma FullPassStores(flow: Flow, server: Server, inp: Inputs, ch: Choices)
    requires FullPass(flow, server, inp, ch) && inp.lastWrite.None?
    ensures Reconcile(flow, server, inp, ch).server.status.steps ==
            Executed(flow, server, inp, ch.sorted.value).0.mem.steps
  {
    FullPassResult(flow, server, inp, ch);
  }

  lemma {:induction false} LoopKeepsCount(flow: Flow, s: State, inp: Inputs, sorted: seq<string>, i: nat)
    requires StepsValid(flow.spec.steps) && Distinct(sorted)
    requires GoodStatus(flow, s.server.status, s.started, s.approved) && i < |s.server.status.steps|
    ensures var steps := Executed(flow, s.server, inp, sorted).0.mem.steps;
            var retried := Retried(flow, inp, s.server.status).steps;
            i < |steps| && i < |retried| && steps[i].retryCount == retried[i].retryCount
  {
    var approved := s.approved + ApprovedNames(flow, inp);
    GoodStepsGrow(flow, s.server.status.steps, s.started, s.approved, s.started, approved);
    ExecutedGood(flow, s.server, inp, sorted, s.started, approved);
    BeforeRetriesAt(flow, inp, s.server.status, i);
  }

  /** For the shortest delay that validation accepts a pass that takes a nanosecond is enough,
      so a retry does happen although the failure is seen again. */
  lemma ShortDelayElapses(flow: Flow, inp: Inputs, st: Status, i: nat)
    requires i < |st.steps| && st.steps[i].phase == StepFailed && SeenFailed(inp, st.steps[i])
    requires var spec := FindStep(flow.spec.steps, st.steps[i].name);
             spec.Some? && spec.value.retryPolicy == Some(RetryPolicy(3, Some(BackoffPolicy("Fixed", None, Parsed(1)))))
    requires st.steps[i].retryCount < 3 && Elapsed(inp, st.steps[i].name) == 1
    ensures ValidateRetryPolicy(FindStep(flow.spec.steps, st.steps[i].name).value.retryPolicy.value).None?
    ensures |Retried(flow, inp, st).steps| == |st.steps| && Retried(flow, inp, st).steps[i].phase == StepPending
  {
    SettledAt(flow, inp, st, i);
  }

  /** The pass takes less time, between refresh and retry test, than the step's policy asks
      for. */
  ghost predicate Prompt(flow: Flow, inp: Inputs, s: StepStatus)
  {
    var spec := FindStep(flow.spec.steps, s.name);
    spec.Some? && spec.value.retryPolicy.Some? ==>
      Elapsed(inp, s.name) < RetryDelay(flow, inp, s, spec.value.retryPolicy.value)
  }

  /** For the policies that validation accepts the delay is positive, so a pass that takes no
      time is prompt. */
  lemma {:induction false} InstantIsPrompt(flow: Flow, inp: Inputs, s: StepStatus, policy: RetryPolicy)
    requires FindStep(flow.spec.steps, s.name).Some? &&
             FindStep(flow.spec.steps, s.name).value.retryPolicy == Some(policy)
    requires ValidateRetryPolicy(policy).None? && IntegerBranch(policy)
    requires 0 < flow.config.defaultBackoffBase <= MAX_TIMEOUT && 0 <= s.retryCount <= 11
    requires Elapsed(inp, s.name) <= 0
    ensures Prompt(flow, inp, s)
  {
    DelayIsBackoff(flow, inp, s, policy);
  }

  /** The same failure of the same Job, counted equally. */
  ghost predicate SameFailure(a: StepStatus, b: StepStatus)
  {
    b.phase == StepFailed && b.name == a.name && b.jobRef == a.jobRef && b.retryCount == a.retryCount
  }

  /** A seen failure is not retried. */
  lemma SeenFailureKept(flow: Flow, inp: Inputs, st: Status, i: nat)
    requires i < |st.steps| && st.steps[i].phase == StepFailed
    requires SeenFailed(inp, st.steps[i]) && Prompt(flow, inp, st.steps[i])
    ensures |Retried(flow, inp, st).steps| == |st.steps|
    ensures SameFailure(st.steps[i], Retried(flow, inp, st).steps[i])
    ensures SameFailure(st.steps[i], Refreshed(inp, st).steps[i])
  {
    SettledAt(flow, inp, st, i);
  }

  /** A pass that reads the flow as stored is prompt and sees the step's Job failed or gone. */
  ghost predicate StaysFailed(flow: Flow, move: Move, s: StepStatus)
  {
    move.Pass? ==> SeenFailed(move.inp, s) && Prompt(flow, move.inp, s)
  }

  lemma SeenFailureMove(flow: Flow, s: State, move: Move, i: nat)
    requires Inv(flow, s) && LegalMove(flow, move)
    requires i < |s.server.status.steps| && s.server.status.steps[i].phase == StepFailed
    requires StaysFailed(flow, move, s.server.status.steps[i])
    ensures i < |Apply(flow, s, move).server.status.steps|
    ensures SameFailure(s.server.status.steps[i], Apply(flow, s, move).server.status.steps[i])
  {
    if move.Pass? {
      var inp, ch := move.inp, move.choices;
      StoredNow(flow, s);
      if Advances(flow, s.server, inp, ch) {
        SeenFailurePass(flow, s, inp, ch.sorted.value, i);
        AdvanceEnds(flow, s.server, inp, ch.sorted.value, ch.firstErrorRetryable);
      } else {
        IdlePass(flow, s.server, inp, ch);
      }
    }
  }

  /** The pass gets as far as the execution loop. */
  ghost predicate Advances(flow: Flow, server: Server, inp: Inputs, ch: Choices)
  {
    && Gated(flow, server, inp).None? && ch.sorted.Some?
    && !RefreshAborts(inp, server.status, ch.firstErrorRetryable)
  }

  /** A pass that does not get so far leaves initialised steps and all Jobs alone. */
  lemma IdlePass(flow: Flow, server: Server, inp: Inputs, ch: Choices)
    requires HasInitialized(server.status) && !Advances(flow, server, inp, ch)
    ensures Reconcile(flow, server, inp, ch).server.status.steps == server.status.steps
    ensures Reconcile(flow, server, inp, ch).server.jobs == server.jobs
  {
  }

  /** The execution loop leaves the step alone, which is not planned. */
  lemma SeenFailurePass(flow: Flow, s: State, inp: Inputs, sorted: seq<string>, i: nat)
    requires StepsValid(flow.spec.steps) && Distinct(sorted)
    requires GoodStatus(flow, s.server.status, s.started, s.approved)
    requires i < |s.server.status.steps| && s.server.status.steps[i].phase == StepFailed
    requires SeenFailed(inp, s.server.status.steps[i]) && Prompt(flow, inp, s.server.status.steps[i])
    ensures var l := Executed(flow, s.server, inp, sorted).0;
            && i < |l.mem.steps| && SameFailure(s.server.status.steps[i], l.mem.steps[i])
            && i < |l.server.status.steps| && SameFailure(s.server.status.steps[i], l.server.status.steps[i])
  {
    var approved := s.approved + ApprovedNames(flow, inp);
    GoodStepsGrow(flow, s.server.status.steps, s.started, s.approved, s.started, approved);
    StagesGood(flow, s.server.status, inp, sorted, s.started, approved);
    ExecutedGood(flow, s.server, inp, sorted, s.started, approved);
    SeenFailureKept(flow, inp, s.server.status, i);
    NotPlanned(flow, inp, s.server.status, sorted, s.started, approved, i);
  }

  lemma NotPlanned(flow: Flow, inp: Inputs, st: Status, sorted: seq<string>, started: set<string>,
          approved: set<string>, i: nat)
    requires StepsValid(flow.spec.steps) && GoodStatus(flow, Refreshed(inp, st), started, approved)
    requires i < |Refreshed(inp, st).steps| && Refreshed(inp, st).steps[i].phase != StepPending
    ensures Refreshed(inp, st).steps[i].name !in Planned(flow, st, inp, sorted)
  {
    var steps := Refreshed(inp, st).steps;
    GoodStepsUnique(flow, steps, started, approved);
    StatusIndexAt(steps, i);
    SelectReadyContents(StepMap(flow.spec.steps), sorted, steps, inp.whenTrue, sorted);
  }

  lemma SeenFailureStep(flow: Flow, s: State, move: Move, i: nat, first: StepStatus)
    requires Inv(flow, s) && LegalMove(flow, move)
    requires i < |s.server.status.steps| && SameFailure(first, s.server.status.steps[i]) &&
             StaysFailed(flow, move, first)
    ensures i < |Apply(flow, s, move).server.status.steps|
    ensures SameFailure(first, Apply(flow, s, move).server.status.steps[i])
  {
    var now := s.server.status.steps[i];
    if move.Pass? {
      var spec := FindStep(flow.spec.steps, first.name);
      if spec.Some? && spec.value.retryPolicy.Some? {
        assert RetryDelay(flow, move.inp, now, spec.value.retryPolicy.value)
               == RetryDelay(flow, move.inp, first, spec.value.retryPolicy.value);
      }
    }
    SeenFailureMove(flow, s, move, i);
  }

  /** Over whole runs: a step whose Job has failed stays failed, with the same retry count, for
      as long as the passes see that Job failed or gone and each of them takes less time than
      the delay. Neither the policy's limit nor the time between the passes makes a
      difference. */
  lemma {:induction false} SeenFailureIsFinal(flow: Flow, before: seq<Move>, later: seq<Move>, i: nat)
    requires LegalRun(flow, before + later)
    requires i < |After(flow, before).server.status.steps| &&
             After(flow, before).server.status.steps[i].phase == StepFailed
    requires forall k :: 0 <= k < |later| ==> StaysFailed(flow, later[k], After(flow, before).server.status.steps[i])
    ensures i < |After(flow, before + later).server.status.steps|
    ensures SameFailure(After(flow, before).server.status.steps[i], After(flow, before + later).server.status.steps[i])
    decreases |later|
  {
    Continued(flow, before, later);
    if |later| > 0 {
      var front, last := later[..|later| - 1], later[|later| - 1];
      assert forall k :: 0 <= k < |front| ==> front[k] == later[k];
      SeenFailureIsFinal(flow, before, front, i);
      SeenFailureStep(flow, After(flow, before + front), last, i, After(flow, before).server.status.steps[i]);
    }
  }

  /** In every reachable status, a step that failed without a Job has not even a completion
      time: its retry is due at once, whatever delay the policy asks for. Only a manual step, whose
      approval could not be stored, has a completion time to count from. */
  lemma {:induction false} LostCreationDueAtOnce(flow: Flow, run: seq<Move>, inp: Inputs, i: nat)
    requires LegalRun(flow, run) && i < |After(flow, run).server.status.steps|
    requires After(flow, run).server.status.steps[i].phase == StepFailed &&
             After(flow, run).server.status.steps[i].jobRef.None?
    ensures i < |flow.spec.steps|
    ensures var s, spec := After(flow, run).server.status.steps[i], flow.spec.steps[i];
            && (!IsManual(spec) ==> s.completionTime.None?)
            && (RetryDue(flow, inp, s) <==>
                && 0 <= s.retryCount < AllowedRetries(flow, spec)
                && (IsManual(spec) && s.completionTime.Some? ==>
                    Clock(inp, Retrying(s.name)) >=
                        s.completionTime.value + RetryDelay(flow, inp, s, spec.retryPolicy.value)))
  {
    RunKeeps(flow, run);
    var s := After(flow, run);
    StoredNow(flow, s);
    Located(flow, s.server.status.steps, s.started, s.approved, i);
  }

  /** The pass moves the step's entry back to pending. */
  ghost predicate IsRetried(flow: Flow, inp: Inputs, st: Status, i: nat)
    requires i < |st.steps|
  {
    && |Retried(flow, inp, st).steps| == |st.steps|
    && st.steps[i].phase != StepPending && Retried(flow, inp, st).steps[i].phase == StepPending
  }

  /** The moment at which the pass itself notes that the step's Job has failed or run out of
      time, if it does. */
  ghost function NotedAt(flow: Flow, inp: Inputs, s: StepStatus): Option<int>
  {
    if s.jobRef.None? then None
    else if SeenFailed(inp, s) then Some(Clock(inp, Refreshing(s.name)))
    else if TimedOut(flow, inp, RefreshStep(inp, s)) then Some(Clock(inp, TimingOut(s.name)))
    else None
  }

  /** The delay has passed since the failure, as far as this pass knows. A failure noted in this
      pass counts from there; otherwise, that is if there is no Job or looking it up fails, the
      stored time counts, and without one there is no delay to wait for. */
  ghost predicate DelayOver(flow: Flow, inp: Inputs, s: StepStatus, policy: RetryPolicy)
  {
    var limit := Clock(inp, Retrying(s.name)) - RetryDelay(flow, inp, s, policy);
    match NotedAt(flow, inp, s)
    case Some(t) => t <= limit
    case None =>
      && s.phase == StepFailed && Unseen(inp, s)
      && (s.completionTime.Some? ==> s.completionTime.value <= limit)
  }

  /** Which steps a pass retries, exactly: in every reachable status a step is retried if and
      only if its limit is not reached and the delay is over in the sense above. */
  lemma {:induction false} RetriedIff(flow: Flow, run: seq<Move>, inp: Inputs, i: nat)
    requires LegalRun(flow, run) && i < |After(flow, run).server.status.steps|
    ensures i < |flow.spec.steps|
    ensures var s := After(flow, run).server.status.steps[i];
            IsRetried(flow, inp, After(flow, run).server.status, i)
            <==> 0 <= s.retryCount < AllowedRetries(flow, flow.spec.steps[i])
                 && DelayOver(flow, inp, s, flow.spec.steps[i].retryPolicy.value)
  {
    RunKeeps(flow, run);
    var state := After(flow, run);
    var st := state.server.status;
    StoredNow(flow, state);
    Located(flow, st.steps, state.started, state.approved, i);
    EntryBeforeRetries(flow, inp, st, i);
    EntryRetriedIff(flow, inp, flow.spec.steps[i], st.steps[i]);
  }

  lemma EntryRetriedIff(flow: Flow, inp: Inputs, spec: Step, s: StepStatus)
    requires FindStep(flow.spec.steps, s.name) == Some(spec) && FieldsAgree(flow, spec, s) && s.retryCount >= 0
    ensures var settled := TimeoutStep(flow, inp, RefreshStep(inp, ApproveStep(inp, s)));
            s.phase != StepPending && RetryStep(flow, inp, settled).phase == StepPending
            <==> && 0 <= s.retryCount < AllowedRetries(flow, spec)
                 && DelayOver(flow, inp, s, spec.retryPolicy.value)
  {
    var settled := TimeoutStep(flow, inp, RefreshStep(inp, ApproveStep(inp, s)));
    if s.phase != StepPendingApproval {
      assert ApproveStep(inp, s) == s;
      match NotedAt(flow, inp, s) {
        case Some(t) => SettledNoted(flow, inp, s, t);
        case None => SettledUnnoted(flow, inp, s);
      }
      if spec.retryPolicy.Some? {
        assert RetryDelay(flow, inp, settled, spec.retryPolicy.value)
               == RetryDelay(flow, inp, s, spec.retryPolicy.value);
      }
    }
  }

  /** The entry after refresh and timeouts, if the pass notes a failure. */
  lemma SettledNoted(flow: Flow, inp: Inputs, s: StepStatus, t: int)
    requires NotedAt(flow, inp, s) == Some(t)
    ensures TimeoutStep(flow, inp, RefreshStep(inp, s)) == s.(phase := StepFailed, completionTime := Some(t))
    ensures s.phase == StepPending ==> s.jobRef.Some?
  {
  }

  /** If it notes none. */
  lemma SettledUnnoted(flow: Flow, inp: Inputs, s: StepStatus)
    requires NotedAt(flow, inp, s).None? && (s.phase in {StepPending, StepPendingApproval} ==> s.jobRef.None?)
    requires s.phase == StepRunning ==> s.jobRef.Some?
    ensures var settled := TimeoutStep(flow, inp, RefreshStep(inp, s));
            && settled.name == s.name && settled.retryCount == s.retryCount
            && (settled.phase == StepPending <==> s.phase == StepPending)
            && (settled.phase == StepFailed <==> s.phase == StepFailed && Unseen(inp, s))
            && (settled.phase == StepFailed ==> settled == s)
  {
  }
}
