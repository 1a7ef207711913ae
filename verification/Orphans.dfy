/** What becomes of a step whose Job exists in the cluster while its status entry does not refer
    to it. */
module Orphans {
  import opened Types
  import opened Validation
  import opened Transition
  import opened Planning
  import opened Invariant
  import opened Runs
  import opened Guarantees
  import Retrying

  /** An entry without a Job that still waits for one or has failed to get it. */
  predicate Unlinked(st: Status, i: nat)
  {
    i < |st.steps| && st.steps[i].jobRef.None? && st.steps[i].phase in {StepPending, StepFailed}
  }

  /** The Job of the i-th step exists in the cluster and its entry does not know it. */
  ghost predicate Orphaned(flow: Flow, server: Server, i: nat)
  {
    && i < |flow.spec.steps| && !IsManual(flow.spec.steps[i])
    && Unlinked(server.status, i)
    && JobName(flow, flow.spec.steps[i].name) in server.jobs
  }

  /** A status and its phase after a change that leaves the i-th entry unlinked. */
  ghost predicate StaysUnlinked(before: Status, after: Status, i: nat)
  {
    Unlinked(after, i) && (after.phase == FlowSucceeded ==> before.phase == FlowSucceeded)
  }

  /** The state of the execution loop, seen from an orphaned step. */
  ghost predicate LoopOrphan(flow: Flow, l: Local, i: nat)
  {
    && i < |flow.spec.steps| && !IsManual(flow.spec.steps[i])
    && Unlinked(l.mem, i) && l.mem.steps[i].name == flow.spec.steps[i].name
    && UniqueEntries(l.mem.steps) && UniqueNames(flow.spec.steps)
    && Unlinked(l.server.status, i)
    && JobName(flow, flow.spec.steps[i].name) in l.server.jobs
  }

  ghost predicate LoopStays(flow: Flow, l: Local, l': Local, i: nat)
  {
    && LoopOrphan(flow, l', i)
    && (l'.mem.phase == FlowSucceeded ==> l.mem.phase == FlowSucceeded)
    && (l'.server.status.phase == FlowSucceeded ==>
        l.server.status.phase == FlowSucceeded || l.mem.phase == FlowSucceeded)
  }

  /** The turn of the orphaned step itself: the Job cannot be created a second time. */
  lemma OwnTurn(flow: Flow, inp: Inputs, l: Local, i: nat)
    requires LoopOrphan(flow, l, i)
    ensures LoopStays(flow, l, ExecuteTurn(flow, inp, l, l.mem.steps[i].name).0, i)
  {
    StatusIndexAt(l.mem.steps, i);
    FindStepAt(flow.spec.steps, i);
    assert ExecuteStep(flow, inp, l, l.mem.steps[i].name) == CreateJob(flow, inp, l, i);
    var l' := ExecuteTurn(flow, inp, l, l.mem.steps[i].name).0;
    EntriesStayUnique(l.mem.steps, l'.mem.steps, i);
  }

  /** The turn of another step. */
  lemma OtherTurn(flow: Flow, inp: Inputs, l: Local, n: string, i: nat)
    requires LoopOrphan(flow, l, i) && n != l.mem.steps[i].name
    ensures LoopStays(flow, l, ExecuteTurn(flow, inp, l, n).0, i)
  {
    var (l1, fault) := ExecuteStep(flow, inp, l, n);
    OtherStep(flow, inp, l, n, i);
    if fault.Some? && !fault.value.retryable {
      OtherFailure(flow, inp, l1, n, i);
    }
  }

  /** Only the j-th entry changes, no Job is removed, and what is written is what is in memory. */
  ghost predicate Touches(l: Local, l': Local, j: nat)
  {
    && |l'.mem.steps| == |l.mem.steps| && j < |l.mem.steps|
    && (forall k :: 0 <= k < |l.mem.steps| && k != j ==> l'.mem.steps[k] == l.mem.steps[k])
    && l'.mem.steps[j].name == l.mem.steps[j].name
    && (l'.mem.phase == l.mem.phase || l'.mem.phase != FlowSucceeded)
    && (l'.server.status == l.server.status || l'.server.status == l'.mem)
    && l.server.jobs.Keys <= l'.server.jobs.Keys
  }

  lemma StartTouches(flow: Flow, inp: Inputs, l: Local, j: nat, spec: Step)
    requires j < |l.mem.steps|
    ensures Touches(l, StartStep(flow, inp, l, j, spec).0, j)
  {
  }

  lemma StepTouches(flow: Flow, inp: Inputs, l: Local, n: string)
    ensures match StatusIndex(l.mem.steps, n)
            case None => ExecuteStep(flow, inp, l, n).0 == l
            case Some(j) => Touches(l, ExecuteStep(flow, inp, l, n).0, j)
  {
    var spec := FindStep(flow.spec.steps, n);
    var j := StatusIndex(l.mem.steps, n);
    if spec.Some? && j.Some? {
      var s := l.mem.steps[j.value];
      if s.jobRef.Some? && RereadJob(inp, s.jobRef.value).Found? {
        FollowTouches(inp, l, j.value, RereadJob(inp, s.jobRef.value).job);
      } else {
        StartTouches(flow, inp, l, j.value, spec.value);
      }
    }
  }

  lemma FollowTouches(inp: Inputs, l: Local, j: nat, job: Job)
    requires j < |l.mem.steps|
    ensures var s := l.mem.steps[j];
            Touches(l, ChangeAndWrite(inp, l, s.name, SetStep(l.mem, j, StepFromJobWithPolicy(inp, s, job))).0, j)
  {
  }

  lemma OtherStep(flow: Flow, inp: Inputs, l: Local, n: string, i: nat)
    requires LoopOrphan(flow, l, i) && n != l.mem.steps[i].name
    ensures LoopStays(flow, l, ExecuteStep(flow, inp, l, n).0, i)
    ensures ExecuteStep(flow, inp, l, n).0.mem.steps[i] == l.mem.steps[i]
  {
    StepTouches(flow, inp, l, n);
    var j := StatusIndex(l.mem.steps, n);
    if j.Some? {
      EntriesStayUnique(l.mem.steps, ExecuteStep(flow, inp, l, n).0.mem.steps, j.value);
    }
  }

  lemma OtherFailure(flow: Flow, inp: Inputs, l: Local, n: string, i: nat)
    requires LoopOrphan(flow, l, i) && n != l.mem.steps[i].name
    ensures var st := HandleStepFailure(flow, inp, l.mem, n);
            st.Some? ==> LoopStays(flow, l, l.(mem := st.value), i)
  {
    var st := HandleStepFailure(flow, inp, l.mem, n);
    if st.Some? {
      EntriesStayUnique(l.mem.steps, st.value.steps, StatusIndex(l.mem.steps, n).value);
    }
  }

  lemma {:induction false} LoopKeepsOrphan(flow: Flow, inp: Inputs, l: Local, ready: seq<string>, i: nat)
    requires LoopOrphan(flow, l, i)
    ensures LoopStays(flow, l, RunReady(flow, inp, l, ready).0, i)
    decreases |ready|
  {
    if |ready| > 0 {
      var (l1, stopped) := ExecuteTurn(flow, inp, l, ready[0]);
      if ready[0] == l.mem.steps[i].name {
        OwnTurn(flow, inp, l, i);
      } else {
        OtherTurn(flow, inp, l, ready[0], i);
      }
      if !stopped {
        LoopKeepsOrphan(flow, inp, l1, ready[1..], i);
      }
    }
  }

  /** Approvals, refresh, timeouts and retries do not link the entry. */
  lemma StagesKeepUnlinked(flow: Flow, inp: Inputs, st: Status, i: nat)
    requires Unlinked(st, i)
    ensures StaysUnlinked(st, Retried(flow, inp, st), i)
    ensures Retried(flow, inp, st).steps[i].name == st.steps[i].name
  {
    Retrying.EntryBeforeRetries(flow, inp, st, i);
  }

  /** Timeouts delete the Jobs of linked entries only. */
  lemma TimeoutsSpareOrphan(flow: Flow, s: State, inp: Inputs, i: nat)
    requires StepsValid(flow.spec.steps) && GoodStatus(flow, s.server.status, s.started, s.approved)
    requires Orphaned(flow, s.server, i)
    ensures JobName(flow, flow.spec.steps[i].name) in AfterTimeouts(flow, inp, s.server).jobs
  {
    var approved := s.approved + ApprovedNames(flow, inp);
    GoodStepsGrow(flow, s.server.status.steps, s.started, s.approved, s.started, approved);
    ApprovalsKeep(flow, inp, s.server.status, s.started, approved);
    RefreshKeeps(flow, inp, ManualApprovals(inp, s.server.status), s.started, approved);
    var steps := Refreshed(inp, s.server.status).steps;
    assert steps[i].jobRef.None?;
    forall k | 0 <= k < |steps| && steps[k].jobRef.Some?
      ensures steps[k].jobRef.value != JobName(flow, flow.spec.steps[i].name)
    {
      assert StepInv(flow, flow.spec.steps[k], steps[k], s.started, approved);
      assert StepInv(flow, flow.spec.steps[i], steps[i], s.started, approved);
      GoodStepsUnique(flow, steps, s.started, approved);
      if steps[k].jobRef.value == JobName(flow, steps[i].name) {
        JobNameInjective(flow, steps[k].name, steps[i].name);
      }
    }
  }

  lemma OrphanAdvances(flow: Flow, s: State, inp: Inputs, sorted: seq<string>, i: nat)
    requires StepsValid(flow.spec.steps) && GoodStatus(flow, s.server.status, s.started, s.approved)
    requires Orphaned(flow, s.server, i) && Distinct(sorted)
    ensures var l0 := Local(Retried(flow, inp, s.server.status), AfterTimeouts(flow, inp, s.server));
            LoopStays(flow, l0, Executed(flow, s.server, inp, sorted).0, i)
            && (l0.mem.phase == FlowSucceeded ==> s.server.status.phase == FlowSucceeded)
  {
    var approved := s.approved + ApprovedNames(flow, inp);
    GoodStepsGrow(flow, s.server.status.steps, s.started, s.approved, s.started, approved);
    StagesGood(flow, s.server.status, inp, sorted, s.started, approved);
    GoodStepsUnique(flow, Retried(flow, inp, s.server.status).steps, s.started, approved);
    Located(flow, Retried(flow, inp, s.server.status).steps, s.started, approved, i);
    StagesKeepUnlinked(flow, inp, s.server.status, i);
    TimeoutsSpareOrphan(flow, s, inp, i);
    LoopKeepsOrphan(flow, inp, Local(Retried(flow, inp, s.server.status), AfterTimeouts(flow, inp, s.server)),
                    Planned(flow, s.server.status, inp, sorted), i);
  }

  /** The last write cannot call the flow succeeded while an entry is unlinked. */
  lemma UpdateUnlinked(st: Status, now: int, i: nat)
    requires Unlinked(st, i)
    ensures StaysUnlinked(st, UpdateStatus(st, now), i)
  {
    if AllComplete(st.steps) {
      assert st.steps[i].phase == StepFailed;
    }
  }

  /** Neither the environment nor a pass on an outdated flow removes the Job. */
  ghost predicate KeepsJob(flow: Flow, s: State, move: Move, i: nat)
  {
    !move.Pass? && i < |flow.spec.steps| ==> JobName(flow, flow.spec.steps[i].name) in Apply(flow, s, move).server.jobs
  }

  lemma OrphanPass(flow: Flow, s: State, inp: Inputs, ch: Choices, i: nat)
    requires StepsValid(flow.spec.steps) && GoodStatus(flow, s.server.status, s.started, s.approved)
    requires LegalChoices(flow, ch) && Orphaned(flow, s.server, i) && Retrying.Advances(flow, s.server, inp, ch)
    ensures Orphaned(flow, Reconcile(flow, s.server, inp, ch).server, i)
    ensures StaysUnlinked(s.server.status, Reconcile(flow, s.server, inp, ch).server.status, i)
  {
    OrphanAdvances(flow, s, inp, ch.sorted.value, i);
    AdvanceEnds(flow, s.server, inp, ch.sorted.value, ch.firstErrorRetryable);
    AdvanceServer(flow, s.server, inp, ch.sorted.value, ch.firstErrorRetryable);
    UpdateUnlinked(Executed(flow, s.server, inp, ch.sorted.value).0.mem, Clock(inp, Ending), i);
  }

  /** After the execution loop the Jobs do not change any more. */
  lemma AdvanceServer(flow: Flow, server: Server, inp: Inputs, sorted: seq<string>, firstErrorRetryable: bool)
    requires !RefreshAborts(inp, server.status, firstErrorRetryable)
    ensures var l := Executed(flow, server, inp, sorted).0;
            var out := Advance(flow, server, inp, sorted, firstErrorRetryable);
            out.server.jobs == l.server.jobs && out.server.created == l.server.created
  {
  }

  /** A pass that is stopped early. */
  lemma OrphanIdle(flow: Flow, server: Server, inp: Inputs, ch: Choices, i: nat)
    requires Orphaned(flow, server, i) && !Retrying.Advances(flow, server, inp, ch)
    ensures Orphaned(flow, Reconcile(flow, server, inp, ch).server, i)
    ensures StaysUnlinked(server.status, Reconcile(flow, server, inp, ch).server.status, i)
  {
    Retrying.IdlePass(flow, server, inp, ch);
  }

  lemma {:induction false} OrphanMove(flow: Flow, s: State, move: Move, i: nat)
    requires Inv(flow, s) && LegalMove(flow, move) && Orphaned(flow, s.server, i) && KeepsJob(flow, s, move, i)
    ensures Orphaned(flow, Apply(flow, s, move).server, i)
    ensures StaysUnlinked(s.server.status, Apply(flow, s, move).server.status, i)
  {
    if move.Pass? {
      StoredNow(flow, s);
      if Retrying.Advances(flow, s.server, move.inp, move.choices) {
        OrphanPass(flow, s, move.inp, move.choices, i);
      } else {
        OrphanIdle(flow, s.server, move.inp, move.choices, i);
      }
    }
  }

  // How orphans come about.

  /** A Job that the execution loop has got accepted exists, and its step is not manual. */
  lemma {:induction false} AcceptedHasJob(flow: Flow, inp: Inputs, l: Local, ready: seq<string>, n: string)
    requires n in RunReady(flow, inp, l, ready).0.server.created && n !in l.server.created
    ensures JobName(flow, n) in RunReady(flow, inp, l, ready).0.server.jobs
    ensures FindStep(flow.spec.steps, n).Some? && !IsManual(FindStep(flow.spec.steps, n).value)
    decreases |ready|
  {
    if |ready| > 0 {
      var (l1, stopped) := ExecuteTurn(flow, inp, l, ready[0]);
      TurnAccepts(flow, inp, l, ready[0]);
      if !stopped {
        if n in l1.server.created {
          JobsStay(flow, inp, l1, ready[1..], JobName(flow, n));
        } else {
          AcceptedHasJob(flow, inp, l1, ready[1..], n);
        }
      }
    }
  }

  /** Accepting a Job: the only way for the history of Jobs to grow. */
  ghost predicate Accepts(flow: Flow, l: Local, l': Local, n: string)
  {
    || l'.server.created == l.server.created
    || (&& l'.server.created == l.server.created + {n} && JobName(flow, n) in l'.server.jobs
        && FindStep(flow.spec.steps, n).Some? && !IsManual(FindStep(flow.spec.steps, n).value))
  }

  lemma StartAccepts(flow: Flow, inp: Inputs, l: Local, j: nat, spec: Step)
    requires j < |l.mem.steps| && FindStep(flow.spec.steps, l.mem.steps[j].name) == Some(spec)
    ensures Accepts(flow, l, StartStep(flow, inp, l, j, spec).0, l.mem.steps[j].name)
  {
  }

  lemma TurnAccepts(flow: Flow, inp: Inputs, l: Local, n: string)
    ensures Accepts(flow, l, ExecuteTurn(flow, inp, l, n).0, n)
  {
    var l' := ExecuteStep(flow, inp, l, n).0;
    assert ExecuteTurn(flow, inp, l, n).0.server == l'.server;
    var spec := FindStep(flow.spec.steps, n);
    var j := StatusIndex(l.mem.steps, n);
    if spec.Some? && j.Some? {
      StartAccepts(flow, inp, l, j.value, spec.value);
    }
  }

  lemma {:induction false} JobsStay(flow: Flow, inp: Inputs, l: Local, ready: seq<string>, job: string)
    requires job in l.server.jobs
    ensures job in RunReady(flow, inp, l, ready).0.server.jobs
    decreases |ready|
  {
    if |ready| > 0 {
      var (l1, stopped) := ExecuteTurn(flow, inp, l, ready[0]);
      StepTouches(flow, inp, l, ready[0]);
      if !stopped {
        JobsStay(flow, inp, l1, ready[1..], job);
      }
    }
  }

  /** A step that gets its first Job in a pass whose status writes are all lost, or conflict
      because the pass read an outdated flow, is orphaned by that pass. */
  lemma {:induction false} LostStartOrphans(flow: Flow, run: seq<Move>, n: string) returns (i: nat)
    requires LegalRun(flow, run) && |run| > 0 && !run[|run| - 1].Environment?
    requires n in After(flow, run).server.created && n !in After(flow, run[..|run| - 1]).started
    requires After(flow, run).server.status == After(flow, run[..|run| - 1]).server.status
    ensures i < |flow.spec.steps| && flow.spec.steps[i].name == n
    ensures Orphaned(flow, After(flow, run).server, i)
  {
    var front, move := run[..|run| - 1], run[|run| - 1];
    RunSplit(flow, run);
    RunKeeps(flow, front);
    var s := After(flow, front);
    AcceptedInPass(flow, Seen(s, move), Given(flow, move), move.choices, n);
    i := FoundAt(flow, n);
    UnstartedUnlinked(flow, s, Seen(s, move), i);
  }

  lemma FoundAt(flow: Flow, n: string) returns (i: nat)
    requires FindStep(flow.spec.steps, n).Some?
    ensures i < |flow.spec.steps| && flow.spec.steps[i] == FindStep(flow.spec.steps, n).value &&
            flow.spec.steps[i].name == n
  {
    i :| 0 <= i < |flow.spec.steps| && flow.spec.steps[i] == FindStep(flow.spec.steps, n).value;
  }

  /** A step that never started is pending in the stored status and knows no Job; if an earlier
      status was initialised, so is the stored one. */
  lemma UnstartedUnlinked(flow: Flow, s: State, seen: Server, i: nat)
    requires StepsValid(flow.spec.steps) && Inv(flow, s) && seen.status in s.server.history
    requires seen.status.steps != [] && i < |flow.spec.steps| && flow.spec.steps[i].name !in s.started
    ensures Unlinked(s.server.status, i)
  {
    var k :| 0 <= k < |s.server.history| && s.server.history[k] == seen.status;
    assert StoredGood(flow, s.server.history[k], s.started, s.approved);
    assert StartsAt(s.server.history[k], s.server.status.startTime);
    StoredNow(flow, s);
    assert StepInv(flow, flow.spec.steps[i], s.server.status.steps[i], s.started, s.approved);
  }

  lemma AcceptedInPass(flow: Flow, server: Server, inp: Inputs, ch: Choices, n: string)
    requires n in Reconcile(flow, server, inp, ch).server.created && n !in server.created
    ensures server.status.steps != [] && StepsValid(flow.spec.steps)
    ensures JobName(flow, n) in Reconcile(flow, server, inp, ch).server.jobs
    ensures FindStep(flow.spec.steps, n).Some? && !IsManual(FindStep(flow.spec.steps, n).value)
  {
    if Retrying.Advances(flow, server, inp, ch) {
      AcceptedInLoop(flow, server, inp, ch.sorted.value, ch.firstErrorRetryable, n);
    } else {
      IdleCreates(flow, server, inp, ch);
    }
  }

  lemma IdleCreates(flow: Flow, server: Server, inp: Inputs, ch: Choices)
    requires !Retrying.Advances(flow, server, inp, ch)
    ensures Reconcile(flow, server, inp, ch).server.created == server.created
  {
  }

  lemma AcceptedInLoop(flow: Flow, server: Server, inp: Inputs, sorted: seq<string>, firstErrorRetryable: bool,
          n: string)
    requires !RefreshAborts(inp, server.status, firstErrorRetryable)
    requires n in Advance(flow, server, inp, sorted, firstErrorRetryable).server.created && n !in server.created
    ensures server.status.steps != []
    ensures JobName(flow, n) in Advance(flow, server, inp, sorted, firstErrorRetryable).server.jobs
    ensures FindStep(flow.spec.steps, n).Some? && !IsManual(FindStep(flow.spec.steps, n).value)
  {
    var l0 := Local(Retried(flow, inp, server.status), AfterTimeouts(flow, inp, server));
    AdvanceServer(flow, server, inp, sorted, firstErrorRetryable);
    AcceptedHasJob(flow, inp, l0, Planned(flow, server.status, inp, sorted), n);
    if server.status.steps == [] {
      AcceptedHasEntry(flow, inp, l0, Planned(flow, server.status, inp, sorted));
    }
  }

  /** Without status entries nothing is created. */
  lemma {:induction false} AcceptedHasEntry(flow: Flow, inp: Inputs, l: Local, ready: seq<string>)
    requires l.mem.steps == []
    ensures RunReady(flow, inp, l, ready).0.server.created == l.server.created
    decreases |ready|
  {
    if |ready| > 0 {
      var (l1, stopped) := ExecuteTurn(flow, inp, l, ready[0]);
      assert l1 == l;
      if !stopped {
        AcceptedHasEntry(flow, inp, l1, ready[1..]);
      }
    }
  }

  /** A retry does not remove the step's old Job, and the new one would have the same name: a
      step whose retry is counted while its Job still exists is orphaned by the retry. */
  lemma {:induction false} RetryOrphans(flow: Flow, run: seq<Move>, i: nat)
    requires LegalRun(flow, run) && |run| > 0
    requires i < |flow.spec.steps| && !IsManual(flow.spec.steps[i])
    requires i < |After(flow, run[..|run| - 1]).server.status.steps| && i < |After(flow, run).server.status.steps|
    requires After(flow, run).server.status.steps[i].retryCount
             > After(flow, run[..|run| - 1]).server.status.steps[i].retryCount
    requires JobName(flow, flow.spec.steps[i].name) in After(flow, run).server.jobs
    ensures Orphaned(flow, After(flow, run).server, i)
  {
    var front, move := run[..|run| - 1], run[|run| - 1];
    RunSplit(flow, run);
    RunKeeps(flow, front);
    var s := After(flow, front);
    StoredNow(flow, s);
    if move.Pass? {
      RetryUnlinks(flow, s, move.inp, move.choices, i);
    }
  }

  lemma RetryUnlinks(flow: Flow, s: State, inp: Inputs, ch: Choices, i: nat)
    requires StepsValid(flow.spec.steps) && LegalChoices(flow, ch)
    requires GoodStatus(flow, s.server.status, s.started, s.approved) && i < |s.server.status.steps|
    requires i < |Reconcile(flow, s.server, inp, ch).server.status.steps|
    requires Reconcile(flow, s.server, inp, ch).server.status.steps[i].retryCount > s.server.status.steps[i].retryCount
    ensures Unlinked(Reconcile(flow, s.server, inp, ch).server.status, i)
  {
    if Retrying.Advances(flow, s.server, inp, ch) {
      RetryInLoop(flow, s, inp, ch.sorted.value, i);
      AdvanceEnds(flow, s.server, inp, ch.sorted.value, ch.firstErrorRetryable);
    } else {
      Retrying.IdlePass(flow, s.server, inp, ch);
    }
  }

  /** In the loop the retried entry is as the retry left it, because the plan was made before. */
  lemma RetryInLoop(flow: Flow, s: State, inp: Inputs, sorted: seq<string>, i: nat)
    requires StepsValid(flow.spec.steps) && Distinct(sorted)
    requires GoodStatus(flow, s.server.status, s.started, s.approved) && i < |s.server.status.steps|
    ensures var l := Executed(flow, s.server, inp, sorted).0;
            var s0 := s.server.status.steps[i];
            && i < |l.mem.steps| && (l.mem.steps[i].retryCount > s0.retryCount ==> Unlinked(l.mem, i))
            && i < |l.server.status.steps| && (l.server.status.steps[i].retryCount > s0.retryCount ==>
                Unlinked(l.server.status, i))
  {
    Retrying.EntryBeforeRetries(flow, inp, s.server.status, i);
    RetriedEntry(flow, inp, s.server.status.steps[i]);
    LoopEntry(flow, s, inp, sorted, i);
  }

  /** An entry whose retry is counted is reset, and was not pending when the plan was made. */
  lemma RetriedEntry(flow: Flow, inp: Inputs, s: StepStatus)
    ensures var s1 := RetryStep(flow, inp, TimeoutStep(flow, inp, RefreshStep(inp, ApproveStep(inp, s))));
            s1.retryCount != s.retryCount ==>
              s1.jobRef.None? && s1.phase == StepPending && RefreshStep(inp, ApproveStep(inp, s)).phase != StepPending
  {
  }

  /** What the loop does to an entry's retry count, and to an entry that is not pending when the
      plan is made. */
  lemma LoopEntry(flow: Flow, s: State, inp: Inputs, sorted: seq<string>, i: nat)
    requires StepsValid(flow.spec.steps) && Distinct(sorted)
    requires GoodStatus(flow, s.server.status, s.started, s.approved) && i < |s.server.status.steps|
    ensures |Retried(flow, inp, s.server.status).steps| == |s.server.status.steps|
    ensures var (s0, s1) := (s.server.status.steps[i], Retried(flow, inp, s.server.status).steps[i]);
            var l := Executed(flow, s.server, inp, sorted).0;
            var planned := RefreshStep(inp, ApproveStep(inp, s0)).phase == StepPending;
            && i < |l.mem.steps| && l.mem.steps[i].retryCount == s1.retryCount
            && i < |l.server.status.steps| && l.server.status.steps[i].retryCount in {s0.retryCount, s1.retryCount}
            && (!planned ==> l.mem.steps[i] == s1 && l.server.status.steps[i] in {s0, s1})
  {
    var approved := s.approved + ApprovedNames(flow, inp);
    GoodStepsGrow(flow, s.server.status.steps, s.started, s.approved, s.started, approved);
    StagesGood(flow, s.server.status, inp, sorted, s.started, approved);
    ExecutedGood(flow, s.server, inp, sorted, s.started, approved);
    Retrying.EntryBeforeRetries(flow, inp, s.server.status, i);
    RefreshedEntry(inp, s.server.status, i);
    if Refreshed(inp, s.server.status).steps[i].phase != StepPending {
      Retrying.NotPlanned(flow, inp, s.server.status, sorted, s.started, approved, i);
      KeepsName(flow, inp, s.server.status, i);
    }
  }

  lemma RefreshedEntry(inp: Inputs, st: Status, i: nat)
    requires i < |st.steps|
    ensures |Refreshed(inp, st).steps| == |st.steps|
    ensures Refreshed(inp, st).steps[i] == RefreshStep(inp, ApproveStep(inp, st.steps[i]))
  {
  }

  lemma KeepsName(flow: Flow, inp: Inputs, st: Status, i: nat)
    requires i < |st.steps|
    ensures |Retried(flow, inp, st).steps| == |Refreshed(inp, st).steps| == |st.steps|
    ensures Retried(flow, inp, st).steps[i].name == Refreshed(inp, st).steps[i].name == st.steps[i].name
  {
    RefreshedEntry(inp, st, i);
    Retrying.EntryBeforeRetries(flow, inp, st, i);
  }

  lemma OrphanStep(flow: Flow, first: Status, s: State, move: Move, i: nat)
    requires Inv(flow, s) && LegalMove(flow, move) && Orphaned(flow, s.server, i) && KeepsJob(flow, s, move, i)
    requires StaysUnlinked(first, s.server.status, i)
    ensures Orphaned(flow, Apply(flow, s, move).server, i)
    ensures StaysUnlinked(first, Apply(flow, s, move).server.status, i)
  {
    OrphanMove(flow, s, move, i);
  }

  /** Over all of later, none but the passes on the flow as stored could remove the Job. */
  ghost predicate JobKept(flow: Flow, before: seq<Move>, later: seq<Move>, i: nat)
  {
    forall k :: 0 <= k < |later| ==> KeepsJob(flow, After(flow, before + later[..k]), later[k], i)
  }

  lemma JobKeptFront(flow: Flow, before: seq<Move>, later: seq<Move>, i: nat)
    requires |later| > 0 && JobKept(flow, before, later, i)
    ensures JobKept(flow, before, later[..|later| - 1], i)
    ensures KeepsJob(flow, After(flow, before + later[..|later| - 1]), later[|later| - 1], i)
  {
    var front := later[..|later| - 1];
    forall k | 0 <= k < |front|
      ensures KeepsJob(flow, After(flow, before + front[..k]), front[k], i)
    {
      assert front[..k] == later[..k] && front[k] == later[k];
    }
  }

  /** Over whole runs: an orphaned step never learns of its Job and never succeeds, and the
      flow does not become Succeeded, for as long as nobody removes that Job. */
  lemma {:induction false} OrphanForever(flow: Flow, before: seq<Move>, later: seq<Move>, i: nat)
    requires LegalRun(flow, before + later) && Orphaned(flow, After(flow, before).server, i)
    requires JobKept(flow, before, later, i)
    ensures Orphaned(flow, After(flow, before + later).server, i)
    ensures StaysUnlinked(After(flow, before).server.status, After(flow, before + later).server.status, i)
    decreases |later|
  {
    Continued(flow, before, later);
    if |later| > 0 {
      var front, last := later[..|later| - 1], later[|later| - 1];
      JobKeptFront(flow, before, later, i);
      OrphanForever(flow, before, front, i);
      OrphanStep(flow, After(flow, before).server.status, After(flow, before + front), last, i);
    }
  }

  /** So a counted retry never runs while the Job of the attempt before is still there: over
      every run the step gets no Job and does not succeed for as long as nobody removes that one.
      What follows then is in Relaunch. */
  lemma {:induction false} RetryNeverRuns(flow: Flow, before: seq<Move>, later: seq<Move>, i: nat)
    requires LegalRun(flow, before + later) && |before| > 0
    requires i < |flow.spec.steps| && !IsManual(flow.spec.steps[i])
    requires i < |After(flow, before[..|before| - 1]).server.status.steps| &&
             i < |After(flow, before).server.status.steps|
    requires After(flow, before).server.status.steps[i].retryCount
             > After(flow, before[..|before| - 1]).server.status.steps[i].retryCount
    requires JobName(flow, flow.spec.steps[i].name) in After(flow, before).server.jobs
    requires JobKept(flow, before, later, i)
    ensures Unlinked(After(flow, before + later).server.status, i)
  {
    assert forall k :: 0 <= k < |before| ==> (before + later)[k] == before[k];
    RetryOrphans(flow, before, i);
    OrphanForever(flow, before, later, i);
  }
}
