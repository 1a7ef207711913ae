/** Runs that get past a gate: what the bounds of the guarantees are good for. */
module Overruns {
  import opened Types
  import opened Digraph
  import opened Dag
  import opened Validation
  import opened Transition
  import opened Invariant
  import opened Runs
  import opened Budgets
  import Orphans

  /** Two independent steps that may be retried as often as an int32 can count. */
  function Retryable(name: string): Step
  {
    Step(name, "Job", false, [], Some(RetryPolicy(MAX_INT32, None)), None, "", false)
  }

  function TwoSteps(limit: I32): Flow
  {
    Flow("ns", "flow", "uid", Spec([Retryable("a"), Retryable("b")], Some(limit), None), DEFAULTS)
  }

  const ORDER := ["a", "b"]
  const CHOICES := Choices(Some(ORDER), false)
  const QUIET := Calm(0)
  const REFUSED := Fault(false, false)
  const REFUSING := QUIET.(createFaults := map["a" := REFUSED, "b" := REFUSED])

  function Entry(name: string, phase: StepPhase, count: I32): StepStatus
  {
    StepStatus(name, phase, None, None, None, count)
  }

  function Both(phase: StepPhase, count: I32): seq<StepStatus>
  {
    [Entry("a", phase, count), Entry("b", phase, count)]
  }

  lemma TwoStepsSound(limit: I32)
    ensures StepsValid(TwoSteps(limit).spec.steps)
    ensures StepMap(TwoSteps(limit).spec.steps) == map["a" := Retryable("a"), "b" := Retryable("b")]
    ensures LegalChoices(TwoSteps(limit), CHOICES)
  {
    var steps := TwoSteps(limit).spec.steps;
    assert steps[..1] == [Retryable("a")] && steps[..1][..0] == [];
    assert steps[..0] == [];
    assert StepSound(steps, 0);
    assert StepSound(steps, 1);
    TwoStepsSorted(limit);
  }

  lemma TwoStepsSorted(limit: I32)
    requires StepMap(TwoSteps(limit).spec.steps) == map["a" := Retryable("a"), "b" := Retryable("b")]
    ensures LegalChoices(TwoSteps(limit), CHOICES)
  {
    var g := DependencyGraph(TwoSteps(limit).spec.steps);
    assert g == map["a" := [], "b" := []];
    assert Elems(ORDER) == {"a", "b"} == Universe(g);
    OrderedIsAcyclic(g, ORDER);
  }

  /** Both steps are planned while they are pending, and not when they have failed. */
  lemma PlanOfBoth(limit: I32, phase: StepPhase, count: I32)
    requires phase in {StepPending, StepFailed}
    ensures Plan(StepMap(TwoSteps(limit).spec.steps), ORDER, Both(phase, count), {})
            == if phase == StepPending then ORDER else []
  {
    var graph, steps := StepMap(TwoSteps(limit).spec.steps), Both(phase, count);
    ReadyBoth(limit, phase, count, "a");
    ReadyBoth(limit, phase, count, "b");
    assert ORDER[..1] == ["a"] && ORDER[..1][..0] == [];
    assert SelectReady(graph, ORDER, steps, {}, ORDER[..1]) == if phase == StepPending then ["a"] else [];
  }

  lemma ReadyBoth(limit: I32, phase: StepPhase, count: I32, n: string)
    requires phase in {StepPending, StepFailed} && n in ORDER
    ensures Ready(StepMap(TwoSteps(limit).spec.steps), ORDER, Both(phase, count), {}, n) <==> phase == StepPending
  {
    TwoStepsSound(limit);
    IndexBoth(Entry("a", phase, count), Entry("b", phase, count));
  }

  /** The server between two passes. */
  ghost predicate Standing(limit: I32, server: Server, phase: StepPhase, count: I32)
  {
    && server.status.steps == Both(phase, count) && server.status.phase != FlowUnset
    && server.jobs == map[] && server.created == {}
  }

  predicate GateOpen(limit: I32, count: I32)
  {
    Int32(2 * count) <= limit
  }

  lemma TotalOfBoth(phase: StepPhase, count: I32)
    ensures TotalRetries(Both(phase, count)) == 2 * count
    ensures TotalRetries32(Both(phase, count)) == Int32(2 * count)
  {
    var steps := Both(phase, count);
    assert steps[..1] == [Entry("a", phase, count)] && steps[..1][..0] == [];
    assert TotalRetries(steps[..1]) == count;
    Total32Wraps(steps);
  }

  /** A pass through open gates. */
  lemma PassAdvances(limit: I32, server: Server, phase: StepPhase, count: I32, inp: Inputs)
    requires Standing(limit, server, phase, count) && GateOpen(limit, count)
    requires inp.lookups == map[] && !inp.concurrencyError
    ensures Reconcile(TwoSteps(limit), server, inp, CHOICES) == Advance(TwoSteps(limit), server, inp, ORDER, false)
  {
    TwoStepsSound(limit);
    TotalOfBoth(phase, count);
  }

  lemma RefreshOfBoth(server: Server, phase: StepPhase, count: I32, inp: Inputs)
    requires server.status.steps == Both(phase, count) && phase in {StepPending, StepFailed}
    ensures Refreshed(inp, server.status).steps == Both(phase, count)
    ensures Refreshed(inp, server.status).phase != FlowUnset || server.status.phase == FlowUnset
  {
  }

  lemma TimeoutsOfBoth(limit: I32, st: Status, phase: StepPhase, count: I32, inp: Inputs)
    requires st.steps == Both(phase, count) && phase in {StepPending, StepFailed}
    ensures Timeouts(TwoSteps(limit), inp, st) == st
    ensures TimedOutJobs(TwoSteps(limit), inp, st.steps) == {}
  {
    assert forall i :: 0 <= i < |st.steps| ==> !TimedOut(TwoSteps(limit), inp, st.steps[i]);
    assert Timeouts(TwoSteps(limit), inp, st).steps == st.steps;
  }

  /** Failed entries without completion time are reset at once, pending ones stay. */
  lemma RetriesOfBoth(limit: I32, st: Status, phase: StepPhase, count: I32, inp: Inputs)
    requires st.steps == Both(phase, count) && phase in {StepPending, StepFailed} && 0 <= count < MAX_INT32
    ensures Retries(TwoSteps(limit), inp, st).steps == if phase == StepPending then Both(phase, count)
            else Both(StepPending, count + 1)
    ensures Retries(TwoSteps(limit), inp, st).phase == st.phase
  {
    var specs := TwoSteps(limit).spec.steps;
    assert FindStep(specs, "a") == Some(specs[0]);
    assert specs[1..][0] == specs[1] && FindStep(specs[1..], "b") == Some(specs[1]);
    assert FindStep(specs, "b") == Some(specs[1]);
    assert Int32(count + 1) == count + 1;
  }

  /** What the execution loop starts from. */
  lemma LoopStart(limit: I32, server: Server, phase: StepPhase, count: I32, inp: Inputs)
    requires server.status.steps == Both(phase, count) && server.status.phase != FlowUnset && server.jobs == map[]
    requires phase in {StepPending, StepFailed} && 0 <= count < MAX_INT32 && inp.whenTrue == {}
    ensures Planned(TwoSteps(limit), server.status, inp, ORDER) == if phase == StepPending then ORDER else []
    ensures AfterTimeouts(TwoSteps(limit), inp, server) == server
    ensures Retried(TwoSteps(limit), inp, server.status).phase != FlowUnset
    ensures Retried(TwoSteps(limit), inp, server.status).steps
            == if phase == StepPending then Both(phase, count) else Both(StepPending, count + 1)
  {
    var st := Refreshed(inp, server.status);
    RefreshOfBoth(server, phase, count, inp);
    TimeoutsOfBoth(limit, st, phase, count, inp);
    RetriesOfBoth(limit, st, phase, count, inp);
    PlanOfBoth(limit, phase, count);
    assert AfterTimeouts(TwoSteps(limit), inp, server).jobs == server.jobs;
  }

  lemma FindBoth(limit: I32)
    ensures var specs := TwoSteps(limit).spec.steps;
            FindStep(specs, "a") == Some(Retryable("a")) && FindStep(specs, "b") == Some(Retryable("b"))
  {
    var specs := TwoSteps(limit).spec.steps;
    assert specs[1..][0] == specs[1] && FindStep(specs[1..], "b") == Some(specs[1]);
  }

  lemma IndexBoth(a: StepStatus, b: StepStatus)
    requires a.name == "a" && b.name == "b"
    ensures StatusIndex([a, b], "a") == Some(0) && StatusIndex([a, b], "b") == Some(1)
  {
    assert [a, b][1..] == [b] && StatusIndex([b], "b") == Some(0);
  }

  /** Both creations are refused: both steps fail without a Job. */
  lemma LoopRefused(limit: I32, l: Local, count: I32)
    requires l.mem.steps == Both(StepPending, count) && l.server.jobs == map[]
    ensures var (l', stopped) := RunReady(TwoSteps(limit), REFUSING, l, ORDER);
            && !stopped && l'.server == l.server
            && l'.mem.steps == Both(StepFailed, count) && l'.mem.phase == FlowFailed
  {
    var flow := TwoSteps(limit);
    FindBoth(limit);
    IndexBoth(Entry("a", StepPending, count), Entry("b", StepPending, count));
    IndexBoth(Entry("a", StepFailed, count), Entry("b", StepPending, count));
    var (l1, stopped1) := ExecuteTurn(flow, REFUSING, l, "a");
    TurnRefused(limit, l, "a", 0);
    assert l1.mem.steps == [Entry("a", StepFailed, count), Entry("b", StepPending, count)];
    var (l2, stopped2) := ExecuteTurn(flow, REFUSING, l1, "b");
    TurnRefused(limit, l1, "b", 1);
    assert l2.mem.steps == Both(StepFailed, count);
    assert ORDER[1..] == ["b"] && ["b"][1..] == [];
    assert RunReady(flow, REFUSING, l2, []) == (l2, false);
    assert RunReady(flow, REFUSING, l1, ["b"]) == (l2, false);
  }

  lemma TurnRefused(limit: I32, l: Local, n: string, i: nat)
    requires n in ORDER && StatusIndex(l.mem.steps, n) == Some(i) && l.mem.steps[i].jobRef.None? &&
             l.server.jobs == map[]
    ensures ExecuteTurn(TwoSteps(limit), REFUSING, l, n)
            == (l.(mem := FailFlow(SetStep(l.mem, i, l.mem.steps[i].(phase := StepFailed)), 0)), false)
  {
    FindBoth(limit);
    assert ExecuteStep(TwoSteps(limit), REFUSING, l, n) == (l, Some(REFUSED));
  }

  /** A pass in which both creations are refused. */
  lemma RefusedPass(limit: I32, server: Server, count: I32)
    requires Standing(limit, server, StepPending, count) && GateOpen(limit, count) && 0 <= count < MAX_INT32
    ensures Standing(limit, Reconcile(TwoSteps(limit), server, REFUSING, CHOICES).server, StepFailed, count)
  {
    PassAdvances(limit, server, StepPending, count, REFUSING);
    LoopStart(limit, server, StepPending, count, REFUSING);
    LoopRefused(limit, Local(Retried(TwoSteps(limit), REFUSING, server.status), server), count);
    var l := Local(Retried(TwoSteps(limit), REFUSING, server.status), server);
    PassEnds(limit, server, REFUSING, l, ORDER);
    StandsAfter(limit, RunReady(TwoSteps(limit), REFUSING, l, ORDER).0, StepFailed, count);
  }

  lemma StandsAfter(limit: I32, l: Local, phase: StepPhase, count: I32)
    requires l.mem.steps == Both(phase, count) && l.mem.phase != FlowUnset && l.server.jobs == map[] &&
             l.server.created == {}
    ensures Standing(limit, WriteStatus(l.server, UpdateStatus(l.mem, 0), None), phase, count)
  {
  }

  /** The next pass resets both steps, because a step that failed without a Job waits for no
      delay. */
  lemma ResetPass(limit: I32, server: Server, count: I32)
    requires Standing(limit, server, StepFailed, count) && GateOpen(limit, count) && 0 <= count < MAX_INT32
    ensures Standing(limit, Reconcile(TwoSteps(limit), server, QUIET, CHOICES).server, StepPending, count + 1)
  {
    PassAdvances(limit, server, StepFailed, count, QUIET);
    LoopStart(limit, server, StepFailed, count, QUIET);
    var l := Local(Retried(TwoSteps(limit), QUIET, server.status), server);
    PassEnds(limit, server, QUIET, l, []);
    StandsAfter(limit, l, StepPending, count + 1);
  }

  /** The end of a pass whose writes are not disturbed. */
  lemma PassEnds(limit: I32, server: Server, inp: Inputs, l: Local, ready: seq<string>)
    requires inp.lookups == map[] && inp.lastWrite.None?
    requires l == Local(Retried(TwoSteps(limit), inp, server.status), AfterTimeouts(TwoSteps(limit), inp, server))
    requires ready == Planned(TwoSteps(limit), server.status, inp, ORDER) && !RunReady(TwoSteps(limit), inp, l, ready).1
    ensures var l' := RunReady(TwoSteps(limit), inp, l, ready).0;
            Advance(TwoSteps(limit), server, inp, ORDER, false).server ==
                WriteStatus(l'.server, UpdateStatus(l'.mem, Clock(inp, Ending)), None)
  {
  }

  // Runs that climb.

  /** The run has brought both counts this far, without a Job, and its second status is that
      after initialisation. */
  ghost predicate Climbs(limit: I32, run: seq<Move>, count: nat)
  {
    && LegalRun(TwoSteps(limit), run) && count <= MAX_INT32
    && Stands(limit, After(TwoSteps(limit), run).server, count)
  }

  ghost predicate Stands(limit: I32, server: Server, count: I32)
  {
    && Standing(limit, server, StepPending, count)
    && |server.history| > 1 && server.history[1].steps == Both(StepPending, 0) && server.history[1].phase != FlowUnset
  }

  /** The first pass. */
  lemma FirstPass(limit: I32)
    requires limit >= 0
    ensures Stands(limit, Apply(TwoSteps(limit), INITIAL, Pass(QUIET, CHOICES)).server, 0)
  {
    TwoStepsSound(limit);
    assert TotalRetries32(BLANK.steps) == 0;
    assert Initialize(TwoSteps(limit), BLANK, 0).steps == Both(StepPending, 0);
  }

  lemma ClimbStart(limit: I32, count: nat) returns (run: seq<Move>)
    requires limit >= 0 && count == 0
    ensures Climbs(limit, run, count)
  {
    run := [] + [Pass(QUIET, CHOICES)];
    TwoStepsSound(limit);
    FirstPass(limit);
    AfterSnoc(TwoSteps(limit), [], Pass(QUIET, CHOICES));
  }

  lemma HistoryKept(flow: Flow, s: State, inp: Inputs, ch: Choices)
    requires StepsValid(flow.spec.steps) && Inv(flow, s) && LegalChoices(flow, ch)
    ensures s.server.history <= Apply(flow, s, Pass(inp, ch)).server.history
  {
    StoredNow(flow, s);
    PassKeeps(flow, s, inp, ch);
  }

  /** A refused pass and a pass that resets. */
  lemma TwoPasses(limit: I32, s: State, k: nat)
    requires k < MAX_INT32 && GateOpen(limit, k) && Stands(limit, s.server, k) && Inv(TwoSteps(limit), s)
    ensures var s1 := Apply(TwoSteps(limit), s, Pass(REFUSING, CHOICES));
            Stands(limit, Apply(TwoSteps(limit), s1, Pass(QUIET, CHOICES)).server, k + 1)
  {
    var flow := TwoSteps(limit);
    var s1 := Apply(flow, s, Pass(REFUSING, CHOICES));
    TwoStepsSound(limit);
    RefusedPass(limit, s.server, k);
    ResetPass(limit, s1.server, k);
    HistoryKept(flow, s, REFUSING, CHOICES);
    MoveKeeps(flow, s, Pass(REFUSING, CHOICES));
    HistoryKept(flow, s1, QUIET, CHOICES);
  }

  /** While the gate is open a run counts two retries in two passes. */
  lemma ClimbNext(limit: I32, run: seq<Move>, k: nat, count: nat) returns (next: seq<Move>)
    requires k < MAX_INT32 && count == k + 1 && GateOpen(limit, k) && Climbs(limit, run, k)
    ensures Climbs(limit, next, count)
  {
    var s := After(TwoSteps(limit), run);
    RunKeeps(TwoSteps(limit), run);
    TwoPasses(limit, s, k);
    TwoStepsSound(limit);
    next := TwoMore(TwoSteps(limit), run, s, Pass(REFUSING, CHOICES), Pass(QUIET, CHOICES));
  }

  lemma TwoMore(flow: Flow, run: seq<Move>, s: State, m1: Move, m2: Move) returns (next: seq<Move>)
    requires LegalRun(flow, run) && After(flow, run) == s && LegalMove(flow, m1) && LegalMove(flow, m2)
    ensures LegalRun(flow, next) && After(flow, next) == Apply(flow, Apply(flow, s, m1), m2)
  {
    next := run + [m1] + [m2];
    AfterSnoc(flow, run, m1);
    AfterSnoc(flow, run + [m1], m2);
  }

  /** The gate is open at every count below. */
  ghost predicate OpenBelow(limit: I32, count: nat)
  {
    count <= MAX_INT32 && forall k: nat :: k < count ==> GateOpen(limit, k)
  }

  lemma {:induction false} ClimbTo(limit: I32, count: nat) returns (run: seq<Move>)
    requires limit >= 0 && OpenBelow(limit, count)
    ensures Climbs(limit, run, count)
  {
    if count == 0 {
      run := ClimbStart(limit, count);
    } else {
      var k := OpenBefore(limit, count);
      var front := ClimbTo(limit, k);
      run := ClimbNext(limit, front, k, count);
    }
  }

  lemma OpenBefore(limit: I32, count: nat) returns (k: nat)
    requires OpenBelow(limit, count) && count > 0
    ensures k + 1 == count && k < MAX_INT32 && OpenBelow(limit, k) && GateOpen(limit, k)
  {
    k := count - 1;
  }

  lemma TotalOfClimb(limit: I32, run: seq<Move>, count: nat)
    requires Climbs(limit, run, count)
    ensures TotalRetries(After(TwoSteps(limit), run).server.status.steps) == 2 * count
  {
    TotalOfBoth(StepPending, count);
  }

  // The budget.

  /** Close to the largest int32 the gate never closes: the sum wraps before it gets past the
      limit. */
  lemma GateStaysOpen(limit: I32)
    requires limit >= MAX_INT32 - 1
    ensures OpenBelow(limit, MAX_INT32)
  {
  }

  lemma RetryingSteps(limit: I32)
    ensures CountRetrying(TwoSteps(limit).spec.steps) == 2
  {
    var steps := TwoSteps(limit).spec.steps;
    assert steps[..1] == [Retryable("a")] && steps[..1][..0] == [];
    assert CountRetrying(steps[..1]) == 1;
  }

  /** The int32 condition of the retry budget is exact here: over all runs of this flow the
      total stays within the budget if and only if limit and number of retrying steps
      together fit an int32. Beyond that the sum in the gate wraps and a run goes on
      retrying. */
  lemma {:induction false} BudgetHoldsIff(limit: I32)
    requires limit >= 0
    ensures BudgetFits(TwoSteps(limit)) <==>
              forall run :: LegalRun(TwoSteps(limit), run) ==>
                WithinBudget(TwoSteps(limit), After(TwoSteps(limit), run).server.status.steps)
  {
    var flow := TwoSteps(limit);
    RetryingSteps(limit);
    if BudgetFits(flow) {
      forall run | LegalRun(flow, run)
        ensures WithinBudget(flow, After(flow, run).server.status.steps)
      {
        BudgetNow(flow, run);
      }
    } else {
      GateStaysOpen(limit);
      var run := ClimbTo(limit, MAX_INT32);
      TotalOfClimb(limit, run, MAX_INT32);
      assert !WithinBudget(flow, After(flow, run).server.status.steps);
    }
  }

  // Outdated passes behind a closed gate.

  /** A pass that sees both steps pending has a Job accepted, even if all its writes conflict. */
  lemma PendingSeenStarts(limit: I32, server: Server)
    requires Standing(limit, server, StepPending, 0) && limit >= 0
    ensures "a" in Reconcile(TwoSteps(limit), server, Conflicting(TwoSteps(limit), QUIET), CHOICES).server.created
  {
    var flow := TwoSteps(limit);
    var given := Conflicting(flow, QUIET);
    PassAdvances(limit, server, StepPending, 0, given);
    LoopStart(limit, server, StepPending, 0, given);
    Orphans.AdvanceServer(flow, server, given, ORDER, false);
    var l := Local(Retried(flow, given, server.status), server);
    var (l1, stopped) := ExecuteTurn(flow, given, l, "a");
    FindBoth(limit);
    IndexBoth(Entry("a", StepPending, 0), Entry("b", StepPending, 0));
    assert ExecuteStep(flow, given, l, "a") == CreateJob(flow, given, l, 0);
    assert "a" in l1.server.created;
    CreatedStays(flow, given, l1, ORDER[1..], "a");
  }

  lemma {:induction false} CreatedStays(flow: Flow, inp: Inputs, l: Local, ready: seq<string>, n: string)
    requires n in l.server.created
    ensures n in RunReady(flow, inp, l, ready).0.server.created
    decreases |ready|
  {
    if |ready| > 0 {
      var (l1, stopped) := ExecuteTurn(flow, inp, l, ready[0]);
      Orphans.TurnAccepts(flow, inp, l, ready[0]);
      if !stopped {
        CreatedStays(flow, inp, l1, ready[1..], n);
      }
    }
  }

  lemma StaleStarts(limit: I32, s: State, count: I32)
    requires limit >= 0 && Stands(limit, s.server, count)
    ensures "a" in Apply(TwoSteps(limit), s, StalePass(QUIET, CHOICES, 1)).server.created
  {
    PendingSeenStarts(limit, Outdated(s.server, 1));
  }

  lemma OpenUpTo(limit: I32, count: nat)
    requires 2 * count <= limit + 2
    ensures OpenBelow(limit, count)
  {
  }

  /** Behind the backoff limit a pass on an outdated flow can still create a Job, for every
      limit: a run climbs past it without any Job; then a pass reads the status of before the
      retries. The gate knows that the limit is exceeded unless its sum wraps. */
  lemma {:induction false} StalePassPastGate(limit: I32) returns (before: seq<Move>, move: Move)
    requires limit >= 0
    ensures var flow := TwoSteps(limit);
            && (BudgetFits(flow) ==> BackoffExceeded(flow, After(flow, before).server.status))
            && move.StalePass? && LegalRun(flow, before + [move])
            && TotalRetries(After(flow, before).server.status.steps) > BackoffLimit(flow)
            && After(flow, before).server.created == {} && After(flow, before + [move]).server.created != {}
  {
    var flow, count := TwoSteps(limit), limit / 2 + 1;
    OpenUpTo(limit, count);
    before := ClimbTo(limit, count);
    move := StalePass(QUIET, CHOICES, 1);
    TwoStepsSound(limit);
    TotalOfClimb(limit, before, count);
    RetryingSteps(limit);
    BackoffGateExactIff(After(flow, before).server.status.steps);
    AfterSnoc(flow, before, move);
    StaleStarts(limit, After(flow, before), count);
  }

  // Orphans.

  lemma FirstStartsNothing(limit: I32)
    requires limit >= 0
    ensures Apply(TwoSteps(limit), INITIAL, Pass(QUIET, CHOICES)).started == {}
  {
    TwoStepsSound(limit);
    assert TotalRetries32(BLANK.steps) == 0;
    assert NotPending(Initialize(TwoSteps(limit), BLANK, 0).steps) == {};
  }

  /** A Job that is accepted in a stale pass, for a step that never started, is an orphan. */
  lemma StaleOrphan(flow: Flow, front: seq<Move>, stale: Move, n: string) returns (run: seq<Move>, i: nat)
    requires LegalRun(flow, front) && LegalMove(flow, stale) && stale.StalePass?
    requires n in Apply(flow, After(flow, front), stale).server.created && n !in After(flow, front).started
    ensures LegalRun(flow, run) && Orphans.Orphaned(flow, After(flow, run).server, i)
  {
    run := front + [stale];
    AfterSnoc(flow, front, stale);
    assert run[..|run| - 1] == front;
    i := Orphans.LostStartOrphans(flow, run, n);
  }

  /** Orphans do occur: after its first pass every such flow can have one of its Jobs accepted in a
      pass on an outdated flow, and then the stored status does not know that Job. */
  lemma {:induction false} OrphanExists(limit: I32) returns (run: seq<Move>, i: nat)
    requires limit >= 0
    ensures LegalRun(TwoSteps(limit), run) && Orphans.Orphaned(TwoSteps(limit), After(TwoSteps(limit), run).server, i)
  {
    var flow, first := TwoSteps(limit), Pass(QUIET, CHOICES);
    TwoStepsSound(limit);
    FirstPass(limit);
    FirstStartsNothing(limit);
    AfterSnoc(flow, [], first);
    StaleStarts(limit, After(flow, [] + [first]), 0);
    run, i := StaleOrphan(flow, [] + [first], StalePass(QUIET, CHOICES, 1), "a");
  }
}
