/** When a step that waits for a Job gets one, and when it no longer can. */
module Relaunch {
  import opened Types
  import opened Digraph
  import opened Dag
  import opened Validation
  import opened Transition
  import opened Planning
  import opened Invariant
  import opened Runs
  import opened Guarantees
  import opened Budgets
  import opened Orphans
  import Retrying

  // One turn of the execution loop.

  /** Nothing stands in the way of the step's Job. */
  predicate NameFree(flow: Flow, jobs: map<string, Job>, inp: Inputs, n: string)
  {
    JobName(flow, n) !in jobs && n !in inp.createFaults
  }

  /** What becomes of a pending entry in its turn: it gets its Job, or it fails without one. */
  ghost predicate Decided(flow: Flow, free: bool, before: StepStatus, after: StepStatus)
  {
    && after.name == before.name && after.retryCount == before.retryCount
    && if free then after.phase == StepRunning && after.jobRef == Some(JobName(flow, before.name))
       else after == before.(phase := StepFailed)
  }

  /** What the turns of other steps leave alone: an entry, and whether its Job exists. */
  ghost predicate LeavesAlone(flow: Flow, l: Local, l': Local, i: nat)
  {
    && i < |l.mem.steps| == |l'.mem.steps| && l'.mem.steps[i] == l.mem.steps[i]
    && UniqueEntries(l'.mem.steps)
    && (JobName(flow, l.mem.steps[i].name) in l'.server.jobs <==> JobName(flow, l.mem.steps[i].name) in l.server.jobs)
  }

  lemma OtherLeaves(flow: Flow, inp: Inputs, l: Local, n: string, i: nat)
    requires i < |l.mem.steps| && UniqueEntries(l.mem.steps) && n != l.mem.steps[i].name
    ensures LeavesAlone(flow, l, ExecuteTurn(flow, inp, l, n).0, i)
  {
    var (l1, fault) := ExecuteStep(flow, inp, l, n);
    StepLeaves(flow, inp, l, n, i);
    EndLeaves(flow, inp, l1, fault, n, i);
  }

  lemma StepLeaves(flow: Flow, inp: Inputs, l: Local, n: string, i: nat)
    requires i < |l.mem.steps| && UniqueEntries(l.mem.steps) && n != l.mem.steps[i].name
    ensures LeavesAlone(flow, l, ExecuteStep(flow, inp, l, n).0, i)
  {
    StepTouches(flow, inp, l, n);
    var spec, j := FindStep(flow.spec.steps, n), StatusIndex(l.mem.steps, n);
    if j.Some? {
      EntriesStayUnique(l.mem.steps, ExecuteStep(flow, inp, l, n).0.mem.steps, j.value);
      if spec.Some? {
        StartLeavesJob(flow, inp, l, j.value, spec.value, l.mem.steps[i].name);
      }
    }
  }

  lemma StartLeavesJob(flow: Flow, inp: Inputs, l: Local, j: nat, spec: Step, n: string)
    requires j < |l.mem.steps| && l.mem.steps[j].name != n
    ensures JobName(flow, n) in StartStep(flow, inp, l, j, spec).0.server.jobs <==> JobName(flow, n) in l.server.jobs
  {
    if JobName(flow, n) == JobName(flow, l.mem.steps[j].name) {
      JobNameInjective(flow, n, l.mem.steps[j].name);
    }
  }

  lemma EndLeaves(flow: Flow, inp: Inputs, l: Local, fault: Option<Fault>, n: string, i: nat)
    requires i < |l.mem.steps| && UniqueEntries(l.mem.steps) && n != l.mem.steps[i].name
    ensures LeavesAlone(flow, l, EndTurn(flow, inp, l, fault, n).0, i)
  {
    var j := StatusIndex(l.mem.steps, n);
    if j.Some? {
      EntriesStayUnique(l.mem.steps, EndTurn(flow, inp, l, fault, n).0.mem.steps, j.value);
    }
  }

  /** What creating the Job of the i-th entry comes to, if the pass goes on after it. */
  lemma CreateDecides(flow: Flow, inp: Inputs, l: Local, i: nat)
    requires i < |l.mem.steps| && UniqueEntries(l.mem.steps) && l.mem.steps[i].jobRef.None?
    requires var (l1, fault) := CreateJob(flow, inp, l, i); !EndTurn(flow, inp, l1, fault, l.mem.steps[i].name).1
    ensures var (l1, fault) := CreateJob(flow, inp, l, i);
            var l' := EndTurn(flow, inp, l1, fault, l.mem.steps[i].name).0;
            && |l'.mem.steps| == |l.mem.steps| && UniqueEntries(l'.mem.steps)
            && Decided(flow, NameFree(flow, l.server.jobs, inp, l.mem.steps[i].name), l.mem.steps[i], l'.mem.steps[i])
  {
    StatusIndexAt(l.mem.steps, i);
    var (l1, fault) := CreateJob(flow, inp, l, i);
    EntriesStayUnique(l.mem.steps, EndTurn(flow, inp, l1, fault, l.mem.steps[i].name).0.mem.steps, i);
  }

  /** The turn of the step itself, if the pass goes on after it. */
  lemma OwnDecides(flow: Flow, inp: Inputs, l: Local, i: nat)
    requires i < |l.mem.steps| == |flow.spec.steps| && UniqueEntries(l.mem.steps) && UniqueNames(flow.spec.steps)
    requires l.mem.steps[i].name == flow.spec.steps[i].name && !IsManual(flow.spec.steps[i])
    requires l.mem.steps[i].jobRef.None? && !ExecuteTurn(flow, inp, l, l.mem.steps[i].name).1
    ensures var l' := ExecuteTurn(flow, inp, l, l.mem.steps[i].name).0;
            && |l'.mem.steps| == |l.mem.steps| && UniqueEntries(l'.mem.steps)
            && Decided(flow, NameFree(flow, l.server.jobs, inp, l.mem.steps[i].name), l.mem.steps[i], l'.mem.steps[i])
  {
    StatusIndexAt(l.mem.steps, i);
    FindStepAt(flow.spec.steps, i);
    assert ExecuteStep(flow, inp, l, l.mem.steps[i].name) == CreateJob(flow, inp, l, i);
    CreateDecides(flow, inp, l, i);
  }

  /** Names that are not in the list keep their entries. */
  lemma {:induction false} LoopLeaves(flow: Flow, inp: Inputs, l: Local, ready: seq<string>, i: nat)
    requires i < |l.mem.steps| && UniqueEntries(l.mem.steps) && l.mem.steps[i].name !in ready
    ensures LeavesAlone(flow, l, RunReady(flow, inp, l, ready).0, i)
    decreases |ready|
  {
    if |ready| > 0 {
      var (l1, stopped) := ExecuteTurn(flow, inp, l, ready[0]);
      assert ready[0] in ready;
      OtherLeaves(flow, inp, l, ready[0], i);
      if !stopped {
        LoopLeaves(flow, inp, l1, ready[1..], i);
      }
    }
  }

  /** A listed step is decided by the state of the cluster before the loop, whatever happens to
      the other steps of the list. */
  lemma {:induction false} LoopDecides(flow: Flow, inp: Inputs, l: Local, ready: seq<string>, i: nat)
    requires i < |l.mem.steps| == |flow.spec.steps| && UniqueEntries(l.mem.steps) && UniqueNames(flow.spec.steps)
    requires l.mem.steps[i].name == flow.spec.steps[i].name && !IsManual(flow.spec.steps[i])
    requires l.mem.steps[i].jobRef.None? && l.mem.steps[i].name in ready && Distinct(ready)
    requires !RunReady(flow, inp, l, ready).1
    ensures var l' := RunReady(flow, inp, l, ready).0;
            && i < |l'.mem.steps|
            && Decided(flow, NameFree(flow, l.server.jobs, inp, l.mem.steps[i].name), l.mem.steps[i], l'.mem.steps[i])
    decreases |ready|
  {
    var (l1, stopped) := ExecuteTurn(flow, inp, l, ready[0]);
    var rest := ready[1..];
    assert ready == [ready[0]] + rest && ready[0] !in rest;
    if ready[0] == l.mem.steps[i].name {
      OwnDecides(flow, inp, l, i);
      LoopLeaves(flow, inp, l1, rest, i);
    } else {
      OtherLeaves(flow, inp, l, ready[0], i);
      LoopDecides(flow, inp, l1, rest, i);
    }
  }

  // Whole passes.

  /** A planned step is pending in the refreshed status. */
  lemma PlannedAt(flow: Flow, sorted: seq<string>, steps: seq<StepStatus>, inp: Inputs, started: set<string>,
          approved: set<string>, i: nat)
    requires StepsValid(flow.spec.steps) && GoodSteps(flow, steps, started, approved) && i < |flow.spec.steps|
    requires flow.spec.steps[i].name in Plan(StepMap(flow.spec.steps), sorted, steps, inp.whenTrue)
    ensures steps[i].phase == StepPending
  {
    var j := PlannedStep(flow, sorted, steps, inp.whenTrue, started, approved, flow.spec.steps[i].name);
    Located(flow, steps, started, approved, i);
    Located(flow, steps, started, approved, j);
  }

  /** And in the status that the pass read. */
  lemma PlannedPends(flow: Flow, s: State, inp: Inputs, sorted: seq<string>, i: nat)
    requires StepsValid(flow.spec.steps) && GoodStatus(flow, Refreshed(inp, s.server.status), s.started, s.approved)
    requires GoodStatus(flow, s.server.status, s.started, s.approved) && i < |flow.spec.steps|
    requires flow.spec.steps[i].name in Planned(flow, s.server.status, inp, sorted)
    ensures i < |s.server.status.steps| && s.server.status.steps[i].name == flow.spec.steps[i].name
    ensures s.server.status.steps[i].phase == StepPending && s.server.status.steps[i].jobRef.None?
  {
    PlannedAt(flow, sorted, Refreshed(inp, s.server.status).steps, inp, s.started, s.approved, i);
    RefreshedEntry(inp, s.server.status, i);
    assert StepInv(flow, flow.spec.steps[i], s.server.status.steps[i], s.started, s.approved);
  }

  /** Up to the loop a pending entry, and the existence of its Job, stay as they were read. */
  lemma PendingWaits(flow: Flow, s: State, inp: Inputs, i: nat)
    requires StepsValid(flow.spec.steps) && GoodStatus(flow, s.server.status, s.started, s.approved)
    requires i < |flow.spec.steps| && !IsManual(flow.spec.steps[i]) && s.server.status.steps[i].phase == StepPending
    ensures |Retried(flow, inp, s.server.status).steps| == |s.server.status.steps|
    ensures Retried(flow, inp, s.server.status).steps[i] == s.server.status.steps[i]
    ensures JobName(flow, flow.spec.steps[i].name) in AfterTimeouts(flow, inp, s.server).jobs
            <==> JobName(flow, flow.spec.steps[i].name) in s.server.jobs
  {
    Retrying.EntryBeforeRetries(flow, inp, s.server.status, i);
    assert StepInv(flow, flow.spec.steps[i], s.server.status.steps[i], s.started, s.approved);
    if JobName(flow, flow.spec.steps[i].name) in s.server.jobs {
      TimeoutsSpareOrphan(flow, s, inp, i);
    }
  }

  /** The entries that a planned step's turn decides on. */
  lemma PassDecides(flow: Flow, s: State, inp: Inputs, ch: Choices, i: nat)
    requires StepsValid(flow.spec.steps) && LegalChoices(flow, ch) && FullPass(flow, s.server, inp, ch)
    requires GoodStatus(flow, s.server.status, s.started, s.approved)
    requires i < |flow.spec.steps| && !IsManual(flow.spec.steps[i])
    requires flow.spec.steps[i].name in Planned(flow, s.server.status, inp, ch.sorted.value)
    ensures i < |s.server.status.steps| && s.server.status.steps[i].phase == StepPending
    ensures var l := Executed(flow, s.server, inp, ch.sorted.value).0;
            && i < |l.mem.steps|
            && Decided(flow, NameFree(flow, s.server.jobs, inp, flow.spec.steps[i].name), s.server.status.steps[i],
                       l.mem.steps[i])
  {
    var st, sorted := s.server.status, ch.sorted.value;
    var approved := s.approved + ApprovedNames(flow, inp);
    GoodStepsGrow(flow, st.steps, s.started, s.approved, s.started, approved);
    StagesGood(flow, st, inp, sorted, s.started, approved);
    PlannedPends(flow, s.(approved := approved), inp, sorted, i);
    PendingWaits(flow, s, inp, i);
    GoodStepsUnique(flow, Retried(flow, inp, st).steps, s.started, approved);
    PlanDistinct(StepMap(flow.spec.steps), sorted, Refreshed(inp, st).steps, inp.whenTrue);
    LoopDecides(flow, inp, Local(Retried(flow, inp, st), AfterTimeouts(flow, inp, s.server)),
                Planned(flow, st, inp, sorted), i);
  }

  /** The pass of a move reaches its end, and has the i-th step in its plan, which is not manual. */
  ghost predicate ComesToTurn(flow: Flow, s: State, move: Move, i: nat)
  {
    && !move.Environment? && FullPass(flow, Seen(s, move), Given(flow, move), move.choices)
    && i < |flow.spec.steps| && !IsManual(flow.spec.steps[i])
    && flow.spec.steps[i].name in Planned(flow, Seen(s, move).status, Given(flow, move), move.choices.sorted.value)
  }

  lemma PassRuns(flow: Flow, s: State, inp: Inputs, ch: Choices, i: nat)
    requires LegalChoices(flow, ch) && FullPass(flow, s.server, inp, ch)
    requires StoredGood(flow, s.server.status, s.started, s.approved)
    requires i < |flow.spec.steps| && !IsManual(flow.spec.steps[i])
    requires flow.spec.steps[i].name in Planned(flow, s.server.status, inp, ch.sorted.value)
    ensures var out := Reconcile(flow, s.server, inp, ch);
            && i < |out.mem.steps| && i < |s.server.status.steps|
            && Decided(flow, NameFree(flow, s.server.jobs, inp, flow.spec.steps[i].name), s.server.status.steps[i],
                       out.mem.steps[i])
            && (inp.lastWrite.None? ==> out.server.status == out.mem)
  {
    PassDecides(flow, s, inp, ch, i);
    FullPassResult(flow, s.server, inp, ch);
  }

  /** A stored status, outdated or not, is good. */
  lemma SeenGood(flow: Flow, run: seq<Move>, move: Move)
    requires LegalRun(flow, run)
    ensures var s := After(flow, run); StoredGood(flow, Seen(s, move).status, s.started, s.approved)
  {
    RunKeeps(flow, run);
    StoredNow(flow, After(flow, run));
    if move.StalePass? {
      OutdatedGood(flow, After(flow, run), move.age);
    }
  }

  /** When a planned step gets its Job, exactly: over every run, and for passes on outdated flows
      too, if and only if the Job's name is free and the request succeeds. Otherwise the step
      fails without a Job. */
  lemma {:induction false} PlannedRunsIff(flow: Flow, run: seq<Move>, move: Move, i: nat)
    requires LegalRun(flow, run) && LegalMove(flow, move) && ComesToTurn(flow, After(flow, run), move, i)
    ensures var s := After(flow, run);
            var out := Reconcile(flow, Seen(s, move), Given(flow, move), move.choices);
            var free := NameFree(flow, s.server.jobs, move.inp, flow.spec.steps[i].name);
            && i < |out.mem.steps| && i < |Seen(s, move).status.steps|
            && Decided(flow, free, Seen(s, move).status.steps[i], out.mem.steps[i])
            && (out.mem.steps[i].phase == StepRunning <==> free)
            && (move.Pass? && move.inp.lastWrite.None? ==> out.server.status == out.mem)
  {
    var s := After(flow, run);
    SeenGood(flow, run, move);
    PassRuns(flow, s.(server := Seen(s, move)), Given(flow, move), move.choices, i);
  }

  // Steps that are lost for good.

  predicate RetriesLeft(flow: Flow, spec: Step, s: StepStatus)
  {
    s.retryCount < AllowedRetries(flow, spec)
  }

  /** The step has failed without a Job and may not be retried. */
  predicate Spent(flow: Flow, st: Status, i: nat)
  {
    && i < |flow.spec.steps| && !IsManual(flow.spec.steps[i])
    && Unlinked(st, i) && st.steps[i].phase == StepFailed && !RetriesLeft(flow, flow.spec.steps[i], st.steps[i])
  }

  /** What the stages before the loop make of an unlinked entry. */
  lemma UnlinkedStages(flow: Flow, s: State, inp: Inputs, i: nat)
    requires StepsValid(flow.spec.steps) && GoodStatus(flow, s.server.status, s.started, s.approved)
    requires Unlinked(s.server.status, i) && i < |flow.spec.steps| && !IsManual(flow.spec.steps[i])
    ensures |Retried(flow, inp, s.server.status).steps| == |s.server.status.steps|
    ensures var s0 := s.server.status.steps[i];
            && RefreshStep(inp, ApproveStep(inp, s0)) == s0
            && Retried(flow, inp, s.server.status).steps[i]
               == if s0.phase == StepFailed && RetriesLeft(flow, flow.spec.steps[i], s0)
                  then StepStatus(s0.name, StepPending, None, None, None, Int32(s0.retryCount + 1)) else s0
  {
    Located(flow, s.server.status.steps, s.started, s.approved, i);
    UnlinkedRetry(flow, inp, flow.spec.steps[i], s.server.status.steps[i]);
    UnlinkedEntry(flow, inp, s.server.status, i);
  }

  lemma UnlinkedEntry(flow: Flow, inp: Inputs, st: Status, i: nat)
    requires i < |st.steps|
    requires RefreshStep(inp, ApproveStep(inp, st.steps[i])) == st.steps[i]
    requires TimeoutStep(flow, inp, st.steps[i]) == st.steps[i]
    ensures |Retried(flow, inp, st).steps| == |st.steps|
    ensures Retried(flow, inp, st).steps[i] == RetryStep(flow, inp, st.steps[i])
  {
    Retrying.EntryBeforeRetries(flow, inp, st, i);
  }

  lemma UnlinkedRetry(flow: Flow, inp: Inputs, spec: Step, s: StepStatus)
    requires FindStep(flow.spec.steps, s.name) == Some(spec) && FieldsAgree(flow, spec, s) && !IsManual(spec)
    requires s.jobRef.None? && s.phase in {StepPending, StepFailed} && s.retryCount >= 0
    ensures RefreshStep(inp, ApproveStep(inp, s)) == s && TimeoutStep(flow, inp, s) == s
    ensures RetryStep(flow, inp, s)
            == if s.phase == StepFailed && RetriesLeft(flow, spec, s)
               then StepStatus(s.name, StepPending, None, None, None, Int32(s.retryCount + 1)) else s
  {
  }

  /** A spent entry passes through every pass unchanged. */
  lemma SpentPass(flow: Flow, s: State, inp: Inputs, ch: Choices, i: nat)
    requires StepsValid(flow.spec.steps) && LegalChoices(flow, ch)
    requires GoodStatus(flow, s.server.status, s.started, s.approved) && Spent(flow, s.server.status, i)
    ensures i < |Reconcile(flow, s.server, inp, ch).server.status.steps|
    ensures Reconcile(flow, s.server, inp, ch).server.status.steps[i] == s.server.status.steps[i]
  {
    if Retrying.Advances(flow, s.server, inp, ch) {
      UnlinkedStages(flow, s, inp, i);
      LoopEntry(flow, s, inp, ch.sorted.value, i);
      AdvanceEnds(flow, s.server, inp, ch.sorted.value, ch.firstErrorRetryable);
    } else {
      Retrying.IdlePass(flow, s.server, inp, ch);
    }
  }

  lemma SpentMove(flow: Flow, s: State, move: Move, i: nat)
    requires Inv(flow, s) && LegalMove(flow, move) && Spent(flow, s.server.status, i)
    ensures i < |Apply(flow, s, move).server.status.steps|
    ensures Apply(flow, s, move).server.status.steps[i] == s.server.status.steps[i]
  {
    if move.Pass? {
      StoredNow(flow, s);
      SpentPass(flow, s, move.inp, move.choices, i);
    }
  }

  /** Over whole runs: once a step has failed without a Job and has no retry left, its entry never
      changes again, whatever happens to the Jobs of the cluster. Removing the Job that stood
      in its way does not help any more. */
  lemma {:induction false} SpentForever(flow: Flow, before: seq<Move>, later: seq<Move>, i: nat)
    requires LegalRun(flow, before + later) && Spent(flow, After(flow, before).server.status, i)
    ensures i < |After(flow, before + later).server.status.steps|
    ensures After(flow, before + later).server.status.steps[i] == After(flow, before).server.status.steps[i]
    decreases |later|
  {
    Continued(flow, before, later);
    if |later| > 0 {
      var front, last := later[..|later| - 1], later[|later| - 1];
      SpentForever(flow, before, front, i);
      SpentMove(flow, After(flow, before + front), last, i);
    }
  }

  /** What a full pass makes of an unlinked step, exactly: a planned one is decided on, a failed
      one is retried at once while it has retries left, and others stay as they are. */
  ghost predicate NextOfUnlinked(flow: Flow, s: State, inp: Inputs, sorted: seq<string>, i: nat, after: StepStatus)
    requires i < |flow.spec.steps| && i < |s.server.status.steps|
  {
    var before := s.server.status.steps[i];
    if before.phase == StepFailed then
      if RetriesLeft(flow, flow.spec.steps[i], before)
      then after == StepStatus(before.name, StepPending, None, None, None, Int32(before.retryCount + 1))
      else after == before
    else if before.name in Planned(flow, s.server.status, inp, sorted)
    then Decided(flow, NameFree(flow, s.server.jobs, inp, before.name), before, after)
    else after == before
  }

  lemma {:induction false} UnlinkedNext(flow: Flow, run: seq<Move>, inp: Inputs, ch: Choices, i: nat)
    requires LegalRun(flow, run) && LegalChoices(flow, ch)
    requires FullPass(flow, After(flow, run).server, inp, ch) && inp.lastWrite.None?
    requires i < |flow.spec.steps| && !IsManual(flow.spec.steps[i]) && Unlinked(After(flow, run).server.status, i)
    ensures var out := Reconcile(flow, After(flow, run).server, inp, ch);
            && i < |out.server.status.steps|
            && NextOfUnlinked(flow, After(flow, run), inp, ch.sorted.value, i, out.server.status.steps[i])
  {
    RunKeeps(flow, run);
    var s := After(flow, run);
    StoredNow(flow, s);
    FullPassResult(flow, s.server, inp, ch);
    LoopOfUnlinked(flow, s, inp, ch, i);
  }

  lemma LoopOfUnlinked(flow: Flow, s: State, inp: Inputs, ch: Choices, i: nat)
    requires StepsValid(flow.spec.steps) && LegalChoices(flow, ch) && FullPass(flow, s.server, inp, ch)
    requires GoodStatus(flow, s.server.status, s.started, s.approved)
    requires i < |flow.spec.steps| && !IsManual(flow.spec.steps[i]) && Unlinked(s.server.status, i)
    ensures var l := Executed(flow, s.server, inp, ch.sorted.value).0;
            && i < |l.mem.steps| && NextOfUnlinked(flow, s, inp, ch.sorted.value, i, l.mem.steps[i])
  {
    assert StepInv(flow, flow.spec.steps[i], s.server.status.steps[i], s.started, s.approved);
    if flow.spec.steps[i].name in Planned(flow, s.server.status, inp, ch.sorted.value) {
      PassDecides(flow, s, inp, ch, i);
    } else {
      UnlinkedStages(flow, s, inp, i);
      UnplannedLoop(flow, s, inp, ch.sorted.value, i);
    }
  }

  /** The loop leaves the entry of a step that is not planned as it finds it. */
  lemma UnplannedLoop(flow: Flow, s: State, inp: Inputs, sorted: seq<string>, i: nat)
    requires StepsValid(flow.spec.steps) && Distinct(sorted)
    requires GoodStatus(flow, s.server.status, s.started, s.approved) && i < |flow.spec.steps|
    requires flow.spec.steps[i].name !in Planned(flow, s.server.status, inp, sorted)
    ensures var l := Executed(flow, s.server, inp, sorted).0;
            && i < |l.mem.steps| && i < |Retried(flow, inp, s.server.status).steps|
            && l.mem.steps[i] == Retried(flow, inp, s.server.status).steps[i]
  {
    var approved := s.approved + ApprovedNames(flow, inp);
    GoodStepsGrow(flow, s.server.status.steps, s.started, s.approved, s.started, approved);
    StagesGood(flow, s.server.status, inp, sorted, s.started, approved);
    Located(flow, Retried(flow, inp, s.server.status).steps, s.started, approved, i);
    ExecutedGood(flow, s.server, inp, sorted, s.started, approved);
  }

  /** An orphaned step without retries that comes to its turn is lost for good: it fails, and
      stays so in every later run, with or without its Job. */
  lemma {:induction false} OrphanLostForGood(flow: Flow, before: seq<Move>, move: Move, later: seq<Move>, i: nat)
    requires LegalRun(flow, before + [move] + later) && move.Pass? && move.inp.lastWrite.None?
    requires Orphaned(flow, After(flow, before).server, i) && ComesToTurn(flow, After(flow, before), move, i)
    requires !RetriesLeft(flow, flow.spec.steps[i], After(flow, before).server.status.steps[i])
    ensures Spent(flow, After(flow, before + [move] + later).server.status, i)
  {
    var run := before + [move];
    assert forall k :: 0 <= k < |run| ==> (run + later)[k] == run[k];
    RunSplit(flow, run);
    assert run[..|run| - 1] == before;
    PlannedRunsIff(flow, before, move, i);
    SpentForever(flow, run, later, i);
  }

  // The only steps that are lost for good.

  lemma CalmTurn(flow: Flow, now: int, l: Local, i: nat)
    requires i < |l.mem.steps| && StatusIndex(l.mem.steps, l.mem.steps[i].name) == Some(i)
    requires UniqueEntries(l.mem.steps) && l.mem.steps[i].jobRef.None?
    requires FindStep(flow.spec.steps, l.mem.steps[i].name).Some?
    ensures !ExecuteTurn(flow, Calm(now), l, l.mem.steps[i].name).1
  {
    var n, spec := l.mem.steps[i].name, FindStep(flow.spec.steps, l.mem.steps[i].name).value;
    assert ExecuteStep(flow, Calm(now), l, n) == StartStep(flow, Calm(now), l, i, spec);
    CalmStart(flow, now, l, i, spec);
  }

  lemma CalmStart(flow: Flow, now: int, l: Local, i: nat, spec: Step)
    requires i < |l.mem.steps| && StatusIndex(l.mem.steps, l.mem.steps[i].name) == Some(i)
    ensures var (l1, fault) := StartStep(flow, Calm(now), l, i, spec);
            fault.None? || (fault == Some(Fault(false, false)) && l1 == l)
  {
  }

  /** A calm pass does not stop in the loop. */
  lemma {:induction false} CalmLoop(flow: Flow, now: int, l: Local, ready: seq<string>, started: set<string>,
          approved: set<string>)
    requires StepsValid(flow.spec.steps)
    requires GoodStatus(flow, l.mem, started, approved) && GoodStatus(flow, l.server.status, started, approved)
    requires ApprovedNames(flow, Calm(now)) <= approved && AllPending(l.mem.steps, ready)
    ensures !RunReady(flow, Calm(now), l, ready).1
    decreases |ready|
  {
    if |ready| > 0 {
      assert ready[0] in ready;
      var i :| 0 <= i < |l.mem.steps| && l.mem.steps[i].name == ready[0] && l.mem.steps[i].phase == StepPending;
      Located(flow, l.mem.steps, started, approved, i);
      GoodStepsUnique(flow, l.mem.steps, started, approved);
      CalmTurn(flow, now, l, i);
      TurnKeeps(flow, Calm(now), l, i, started, approved);
      var l1 := ExecuteTurn(flow, Calm(now), l, ready[0]).0;
      TurnInvariants(flow, Calm(now), l, l1, i, started, approved);
      AllPendingTail(l.mem.steps, l1.mem.steps, ready, i);
      CalmLoop(flow, now, l1, ready[1..], started + NotPending(l1.mem.steps), approved);
    }
  }

  lemma CalmPass(flow: Flow, s: State, now: int, ch: Choices)
    requires StepsValid(flow.spec.steps) && GoodStatus(flow, s.server.status, s.started, s.approved)
    requires LegalChoices(flow, ch) && ch.sorted.Some? && !BackoffExceeded(flow, s.server.status)
    requires !DeadlineExceeded(flow, s.server.status, now)
    ensures FullPass(flow, s.server, Calm(now), ch)
  {
    var st := s.server.status;
    var approved := s.approved + ApprovedNames(flow, Calm(now));
    GoodStepsGrow(flow, st.steps, s.started, s.approved, s.started, approved);
    StagesGood(flow, st, Calm(now), ch.sorted.value, s.started, approved);
    CalmLoop(flow, now, Local(Retried(flow, Calm(now), st), AfterTimeouts(flow, Calm(now), s.server)),
             Planned(flow, st, Calm(now), ch.sorted.value), s.started, approved);
  }

  /** No run that goes on from here changes the entry. */
  ghost predicate Final(flow: Flow, run: seq<Move>, i: nat)
    requires i < |After(flow, run).server.status.steps|
  {
    forall later :: LegalRun(flow, run + later) ==>
      && i < |After(flow, run + later).server.status.steps|
      && After(flow, run + later).server.status.steps[i] == After(flow, run).server.status.steps[i]
  }

  /** Which steps without a Job are lost for good, exactly: in every reachable status a step that
      has failed without one never changes again, whatever happens, if and only if it has no
      retry left or the flow is past its backoff limit. */
  lemma {:induction false} FinalIff(flow: Flow, run: seq<Move>, i: nat)
    requires LegalRun(flow, run) && i < |flow.spec.steps| && !IsManual(flow.spec.steps[i])
    requires Unlinked(After(flow, run).server.status, i) && After(flow, run).server.status.steps[i].phase == StepFailed
    ensures Final(flow, run, i)
            <==> Spent(flow, After(flow, run).server.status, i) || BackoffExceeded(flow, After(flow, run).server.status)
  {
    if Spent(flow, After(flow, run).server.status, i) {
      forall later | LegalRun(flow, run + later)
        ensures i < |After(flow, run + later).server.status.steps|
        ensures After(flow, run + later).server.status.steps[i] == After(flow, run).server.status.steps[i]
      {
        SpentForever(flow, run, later, i);
      }
    } else if BackoffExceeded(flow, After(flow, run).server.status) {
      forall later | LegalRun(flow, run + later)
        ensures After(flow, run + later).server.status.steps == After(flow, run).server.status.steps
      {
        LowerClockBounds(later);
        HaltedForever(flow, run, later, LowerClock(later));
      }
    } else {
      var move := RetryingPass(flow, run, i);
      AfterSnoc(flow, run, move);
    }
  }

  /** A pass that retries the step. */
  lemma {:induction false} RetryingPass(flow: Flow, run: seq<Move>, i: nat) returns (move: Move)
    requires LegalRun(flow, run) && i < |flow.spec.steps| && !IsManual(flow.spec.steps[i])
    requires Unlinked(After(flow, run).server.status, i) && After(flow, run).server.status.steps[i].phase == StepFailed
    requires !Spent(flow, After(flow, run).server.status, i) && !BackoffExceeded(flow, After(flow, run).server.status)
    ensures LegalMove(flow, move)
    ensures i < |Apply(flow, After(flow, run), move).server.status.steps|
    ensures Apply(flow, After(flow, run), move).server.status.steps[i].phase == StepPending
  {
    var s := After(flow, run);
    RunKeeps(flow, run);
    StoredNow(flow, s);
    var sorted := SomeOrder(flow, run, i);
    var now := BeforeDeadline(flow, s.server.status);
    var ch := Choices(Some(sorted), false);
    OrderedIsAcyclic(Edges(flow), sorted);
    CalmPass(flow, s, now, ch);
    UnlinkedNext(flow, run, Calm(now), ch, i);
    move := Pass(Calm(now), ch);
  }

  lemma BeforeDeadline(flow: Flow, st: Status) returns (now: int)
    ensures !DeadlineExceeded(flow, st, now)
  {
    now := if flow.spec.activeDeadlineSeconds.Some? && st.startTime.Some?
      then st.startTime.value + SecondsToDuration(flow.spec.activeDeadlineSeconds.value) else 0;
  }

  /** A flow with a failed step can be sorted. */
  lemma SomeOrder(flow: Flow, run: seq<Move>, i: nat) returns (sorted: seq<string>)
    requires LegalRun(flow, run) && i < |After(flow, run).server.status.steps|
    requires After(flow, run).server.status.steps[i].phase == StepFailed
    ensures TopologicalOrder(Edges(flow), sorted)
  {
    var s := After(flow, run);
    RunKeeps(flow, run);
    StoredNow(flow, s);
    assert StepInv(flow, flow.spec.steps[i], s.server.status.steps[i], s.started, s.approved);
    if HasCycle(Edges(flow)) {
      BrokenFlowNeverStarts(flow, run);
    }
    OrderableIffAcyclic(Edges(flow));
    sorted :| TopologicalOrder(Edges(flow), sorted);
  }
}
