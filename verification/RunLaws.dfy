/** The laws of StageLaws and LoopLaws carried to whole passes of every run, those on outdated flows
    included. */
module RunLaws {
  import opened Types
  import opened Digraph
  import opened Dag
  import opened Validation
  import opened Transition
  import opened Planning
  import opened Invariant
  import opened Runs
  import opened Guarantees
  import opened Budgets
  import opened Relaunch
  import opened StageLaws
  import opened LoopLaws
  import Retrying
  import Orphans

  /** A pass of a run over a valid flow that has been initialised, as far as the pass can see. */
  ghost predicate Sees(flow: Flow, run: seq<Move>, move: Move)
  {
    && LegalRun(flow, run) && LegalMove(flow, move) && !move.Environment? && WellFormed(flow.spec.steps)
    && Seen(After(flow, run), move).status.steps != []
  }

  lemma SeenIsGood(flow: Flow, run: seq<Move>, move: Move)
    requires Sees(flow, run, move)
    ensures var s := After(flow, run); GoodStatus(flow, Seen(s, move).status, s.started, s.approved)
    ensures StepsValid(flow.spec.steps) && UniqueNames(flow.spec.steps)
    ensures UniqueEntries(Seen(After(flow, run), move).status.steps)
  {
    var s := After(flow, run);
    ValidIff(flow.spec.steps);
    SeenGood(flow, run, move);
    GoodStepsUnique(flow, Seen(s, move).status.steps, s.started, s.approved);
  }

  // What starts.

  /** The pass takes some entry of this name for succeeded, or for failed with leave to continue. */
  ghost predicate TakenForMet(flow: Flow, inp: Inputs, steps: seq<StepStatus>, d: string)
  {
    exists k :: 0 <= k < |steps| && steps[k].name == d
                && (TakenForSucceeded(inp, steps[k]) || (TakenForFailed(inp, steps[k]) && MayContinue(flow, d)))
  }

  lemma TakenIsMet(flow: Flow, inp: Inputs, st: Status, d: string)
    ensures Met(flow, Refreshed(inp, st).steps, d) <==> TakenForMet(flow, inp, st.steps, d)
  {
    SeenEntries(inp, st);
    var seen := Refreshed(inp, st).steps;
    if k :| 0 <= k < |seen| && seen[k].name == d
            && (seen[k].phase == StepSucceeded || (seen[k].phase == StepFailed && MayContinue(flow, d))) {
      assert TakenFor(inp, st.steps[k], seen[k]);
    }
    if k :| 0 <= k < |st.steps| && st.steps[k].name == d
            && (TakenForSucceeded(inp, st.steps[k]) || (TakenForFailed(inp, st.steps[k]) && MayContinue(flow, d))) {
      assert TakenFor(inp, st.steps[k], seen[k]);
    }
  }

  /** What the plan of a pass takes to hold a step. */
  ghost predicate Wanted(flow: Flow, inp: Inputs, st: Status, j: nat)
    requires j < |flow.spec.steps| && j < |st.steps|
  {
    && st.steps[j].phase == StepPending
    && (forall d :: d in flow.spec.steps[j].dependencies ==> TakenForMet(flow, inp, st.steps, d))
    && (flow.spec.steps[j].when == "" || flow.spec.steps[j].when in inp.whenTrue)
  }

  /** Which steps a pass plans, exactly, in terms of the status that it read and what it was told of
      Jobs, approvals and conditions. */
  lemma {:induction false} PassPlansIff(flow: Flow, run: seq<Move>, move: Move, sorted: seq<string>, j: nat)
    requires Sees(flow, run, move) && TopologicalOrder(Edges(flow), sorted) && j < |flow.spec.steps|
    ensures j < |Seen(After(flow, run), move).status.steps|
    ensures flow.spec.steps[j].name in Planned(flow, Seen(After(flow, run), move).status, Given(flow, move), sorted)
            <==> Wanted(flow, Given(flow, move), Seen(After(flow, run), move).status, j)
  {
    var s := After(flow, run);
    SeenIsGood(flow, run, move);
    PlansIff(flow, Seen(s, move).status, Given(flow, move), sorted, j, s.started, s.approved);
  }

  lemma PlansIff(flow: Flow, st: Status, inp: Inputs, sorted: seq<string>, j: nat, started: set<string>,
          approved: set<string>)
    requires StepsValid(flow.spec.steps) && GoodSteps(flow, st.steps, started, approved)
    requires TopologicalOrder(Edges(flow), sorted) && j < |flow.spec.steps|
    ensures flow.spec.steps[j].name in Planned(flow, st, inp, sorted) <==> Wanted(flow, inp, st, j)
  {
    var seen, n := Refreshed(inp, st).steps, flow.spec.steps[j].name;
    GoodStepsUnique(flow, st.steps, started, approved);
    SeenEntries(inp, st);
    KeepNames(st.steps, seen);
    PlannedIff(flow, sorted, seen, inp.whenTrue, j);
    forall d
      ensures Met(flow, seen, d) <==> TakenForMet(flow, inp, st.steps, d)
    {
      TakenIsMet(flow, inp, st, d);
    }
    PendingSame(flow, inp, st, j, started, approved);
    assert forall k :: 0 <= k < |seen| && seen[k].name == n ==> k == j;
  }

  lemma PendingSame(flow: Flow, inp: Inputs, st: Status, j: nat, started: set<string>, approved: set<string>)
    requires GoodSteps(flow, st.steps, started, approved) && j < |st.steps|
    ensures |Refreshed(inp, st).steps| == |st.steps|
    ensures Refreshed(inp, st).steps[j].name == flow.spec.steps[j].name == st.steps[j].name
    ensures Refreshed(inp, st).steps[j].phase == StepPending <==> st.steps[j].phase == StepPending
  {
    SeenEntries(inp, st);
    assert StepInv(flow, flow.spec.steps[j], st.steps[j], started, approved);
    assert TakenFor(inp, st.steps[j], Refreshed(inp, st).steps[j]);
  }

  /** When a step first leaves Pending or gets a Job, the pass that starts it takes each of its
      dependencies for succeeded, or for failed with leave to continue. */
  lemma {:induction false} StartSawDependencies(flow: Flow, run: seq<Move>, j: nat, d: string)
    requires LegalRun(flow, run) && |run| > 0 && j < |flow.spec.steps| && d in flow.spec.steps[j].dependencies
    requires flow.spec.steps[j].name in After(flow, run).started
    requires flow.spec.steps[j].name !in After(flow, run[..|run| - 1]).started
    ensures !run[|run| - 1].Environment?
    ensures TakenForMet(flow, Given(flow, run[|run| - 1]),
                        Seen(After(flow, run[..|run| - 1]), run[|run| - 1]).status.steps, d)
  {
    var front, move, n := run[..|run| - 1], run[|run| - 1], flow.spec.steps[j].name;
    StartWasPlanned(flow, run, n);
    RunSplit(flow, run);
    RunKeeps(flow, front);
    MoveKeeps(flow, After(flow, front), move);
    assert n in NewlyStarted(flow, After(flow, front), move);
    if StepsValid(flow.spec.steps) {
      ValidIff(flow.spec.steps);
      PlannedInPass(flow, After(flow, front), move, n);
      PlanSawSteps(flow, front, move, n);
      PassPlansIff(flow, front, move, move.choices.sorted.value, j);
    }
  }

  /** A pass that starts something sees an initialised flow. */
  lemma PlanSawSteps(flow: Flow, front: seq<Move>, move: Move, n: string)
    requires LegalRun(flow, front) && LegalMove(flow, move) && !move.Environment? && StepsValid(flow.spec.steps)
    requires n in NewlyStarted(flow, After(flow, front), move)
    ensures Seen(After(flow, front), move).status.steps != []
  {
    var s := After(flow, front);
    RunKeeps(flow, front);
    SeenGood(flow, front, move);
    if NotInitialized(flow, Seen(s, move).status) {
      InitialPassStartsNothing(flow, s.(server := Seen(s, move)), Given(flow, move), move.choices);
    }
  }

  /** So no step starts in a pass that takes one of its dependencies for failed without leave to
      continue. */
  lemma {:induction false} NoStartPastFailure(flow: Flow, run: seq<Move>, j: nat, k: nat)
    requires LegalRun(flow, run) && |run| > 0 && !run[|run| - 1].Environment? && j < |flow.spec.steps|
    requires var steps := Seen(After(flow, run[..|run| - 1]), run[|run| - 1]).status.steps;
             && k < |steps| && steps[k].name in flow.spec.steps[j].dependencies
             && TakenForFailed(Given(flow, run[|run| - 1]), steps[k]) && !MayContinue(flow, steps[k].name)
    requires flow.spec.steps[j].name !in After(flow, run[..|run| - 1]).started
    ensures flow.spec.steps[j].name !in After(flow, run).started
  {
    var front, move := run[..|run| - 1], run[|run| - 1];
    var steps := Seen(After(flow, front), move).status.steps;
    if flow.spec.steps[j].name in After(flow, run).started {
      RunSplit(flow, run);
      RunKeeps(flow, run);
      StartSawDependencies(flow, run, j, steps[k].name);
      ValidIff(flow.spec.steps);
      SeenIsGood(flow, front, move);
      NotMetByFailure(flow, Given(flow, move), steps, k);
    }
  }

  lemma NotMetByFailure(flow: Flow, inp: Inputs, steps: seq<StepStatus>, k: nat)
    requires UniqueEntries(steps) && k < |steps|
    requires TakenForFailed(inp, steps[k]) && !MayContinue(flow, steps[k].name)
    ensures !TakenForMet(flow, inp, steps, steps[k].name)
  {
    forall m | 0 <= m < |steps| && steps[m].name == steps[k].name
      ensures m == k
    {
      assert m <= k && k <= m;
    }
  }

  // Retry limits and approvals.

  /** Every count that is ever stored keeps to the policy: at most the limit if the policy sets one,
      at most the default if it does not, and none without a policy. */
  lemma {:induction false} CountWithinPolicy(flow: Flow, run: seq<Move>, age: nat, i: nat)
    requires LegalRun(flow, run) && age < |After(flow, run).server.history|
    requires i < |After(flow, run).server.history[age].steps|
    ensures i < |flow.spec.steps|
    ensures var count := After(flow, run).server.history[age].steps[i].retryCount;
            var policy := flow.spec.steps[i].retryPolicy;
            && count >= 0
            && (policy == None ==> count == 0)
            && (forall limit, backoff :: policy == Some(RetryPolicy(limit, backoff)) ==>
                  && (limit > 0 ==> count <= limit)
                  && (limit <= 0 ==> count == 0 || count <= Int32(flow.config.defaultRetryLimit)))
  {
    RunKeeps(flow, run);
    var s := After(flow, run);
    assert StoredGood(flow, s.server.history[age], s.started, s.approved);
    assert StepInv(flow, flow.spec.steps[i], s.server.history[age].steps[i], s.started, s.approved);
  }

  /** A manual step that is ever stored as succeeded was approved in so many words: some pass of the
      run read a flow whose annotations say "true" for it. */
  lemma {:induction false} SuccessWasGranted(flow: Flow, run: seq<Move>, age: nat, i: nat) returns (k: nat)
    requires LegalRun(flow, run) && age < |After(flow, run).server.history|
    requires i < |After(flow, run).server.history[age].steps|
    requires After(flow, run).server.history[age].steps[i].phase == StepSucceeded
    requires i < |flow.spec.steps| ==> NeedsApproval(flow.spec.steps[i])
    ensures i < |flow.spec.steps| && k < |run| && !run[k].Environment?
    ensures Granted(run[k].inp, flow.spec.steps[i].name)
  {
    RunKeeps(flow, run);
    var s := After(flow, run);
    assert StoredGood(flow, s.server.history[age], s.started, s.approved);
    assert StepInv(flow, flow.spec.steps[i], s.server.history[age].steps[i], s.started, s.approved);
    var n := flow.spec.steps[i].name;
    ApprovalObserved(flow, run, n);
    k :| 0 <= k < |run| && !run[k].Environment? && Approved(run[k].inp.annotations, n);
    ApprovedIff(run[k].inp, n);
  }

  // Gates.

  /** A pass over a valid, initialised flow that is on time, within its retries and let through the
      concurrency check is stopped by no gate, whatever happened before. */
  lemma {:induction false} OnTimePassGoesOn(flow: Flow, run: seq<Move>, move: Move)
    requires Sees(flow, run, move) && BudgetFits(flow) && DeadlineInRange(flow)
    requires !move.inp.concurrencyError && !Late(flow, Seen(After(flow, run), move).status, move.inp.now)
    requires TotalRetries(Seen(After(flow, run), move).status.steps) <= AllowedTotal(flow)
    ensures Gated(flow, Seen(After(flow, run), move), Given(flow, move)).None?
  {
    var s := After(flow, run);
    var st := Seen(s, move).status;
    SeenIsGood(flow, run, move);
    SeenTotal(flow, run, move);
    GatesOpenIff(flow, Seen(s, move), Given(flow, move));
  }

  lemma SeenTotal(flow: Flow, run: seq<Move>, move: Move)
    requires Sees(flow, run, move) && BudgetFits(flow)
    ensures 0 <= TotalRetries(Seen(After(flow, run), move).status.steps) <= MAX_INT32
  {
    var s := After(flow, run);
    RunKeeps(flow, run);
    HistoryBudget(flow, run);
    SeenIsGood(flow, run, move);
    CountsOfGood(flow, Seen(s, move).status, s.started, s.approved);
    assert Seen(s, move).status == s.server.status ||
           Seen(s, move).status == s.server.history[move.age];
  }

  /** Once more seconds than allowed have passed since the stored start, and the clock does not go
      back behind that moment, nothing starts any more, stored steps stay as they are, and the
      flow fails with the first write. */
  lemma {:induction false} LateFlowStops(flow: Flow, before: seq<Move>, later: seq<Move>, t: int)
    requires LegalRun(flow, before + later) && ClockAtLeast(later, t) && DeadlineInRange(flow)
    requires Late(flow, After(flow, before).server.status, t)
    ensures Frozen(After(flow, before), After(flow, before + later))
    ensures Recorded(flow, later) ==> After(flow, before + later).server.status.phase == FlowFailed
  {
    DeadlineIff(flow, After(flow, before).server.status, t);
    DeadlineAbsorbs(flow, before, later, t);
  }

  /** Which passes come to their end, exactly. */
  lemma {:induction false} FullPassIff(flow: Flow, run: seq<Move>, move: Move)
    requires Sees(flow, run, move) && BudgetFits(flow) && DeadlineInRange(flow)
    ensures var (server, inp, ch) := (Seen(After(flow, run), move), Given(flow, move), move.choices);
            FullPass(flow, server, inp, ch) <==>
              && !inp.concurrencyError && !Late(flow, server.status, inp.now)
              && TotalRetries(server.status.steps) <= AllowedTotal(flow)
              && ch.sorted.Some?
              && !(ch.firstErrorRetryable && SomeError(inp, server.status))
              && !exists i: nat :: i < |flow.spec.steps| && i < |server.status.steps|
                                   && Wanted(flow, inp, server.status, i) && Interrupts(flow, inp, i)
  {
    var s := After(flow, run);
    var server, inp, ch := Seen(s, move), Given(flow, move), move.choices;
    SeenIsGood(flow, run, move);
    SeenTotal(flow, run, move);
    GatesOpenIff(flow, server, inp);
    AbortsIff(inp, server.status, ch.firstErrorRetryable);
    if ch.sorted.Some? {
      PassStopsIff(flow, s.(server := server), inp, ch.sorted.value);
    }
  }

  /** Some Job cannot be looked up. */
  predicate SomeError(inp: Inputs, st: Status)
  {
    exists k :: 0 <= k < |st.steps| && st.steps[k].jobRef.Some? && SeesError(inp, st.steps[k].jobRef.value)
  }

  lemma AbortsIff(inp: Inputs, st: Status, firstErrorRetryable: bool)
    ensures RefreshAborts(inp, st, firstErrorRetryable) <==> firstErrorRetryable && SomeError(inp, st)
  {
    var steps := ManualApprovals(inp, st).steps;
    assert |steps| == |st.steps|;
    forall k | 0 <= k < |steps|
      ensures LookupFails(inp, steps, k) <==> st.steps[k].jobRef.Some? && SeesError(inp, st.steps[k].jobRef.value)
    {
      assert steps[k] == ApproveStep(inp, st.steps[k]);
    }
  }

  lemma PassStopsIff(flow: Flow, s: State, inp: Inputs, sorted: seq<string>)
    requires StepsValid(flow.spec.steps) && GoodStatus(flow, s.server.status, s.started, s.approved)
    requires TopologicalOrder(Edges(flow), sorted)
    ensures Executed(flow, s.server, inp, sorted).1 <==>
              exists i: nat :: i < |flow.spec.steps| && i < |s.server.status.steps| &&
                               Wanted(flow, inp, s.server.status, i) && Interrupts(flow, inp, i)
  {
    var ready := Planned(flow, s.server.status, inp, sorted);
    PassLoop(flow, s, inp, sorted);
    forall i: nat | i < |flow.spec.steps|
      ensures Listed(flow, ready, i) <==> Wanted(flow, inp, s.server.status, i)
    {
      PlansIff(flow, s.server.status, inp, sorted, i, s.started, s.approved);
    }
  }

  /** The laws of the loop, for the loop of a pass. */
  lemma PassLoop(flow: Flow, s: State, inp: Inputs, sorted: seq<string>)
    requires StepsValid(flow.spec.steps) && GoodStatus(flow, s.server.status, s.started, s.approved)
    requires Distinct(sorted)
    ensures var ready := Planned(flow, s.server.status, inp, sorted);
            var (l, stopped) := Executed(flow, s.server, inp, sorted);
            && LoopFlow(flow, inp, Retried(flow, inp, s.server.status), l.mem, ready)
            && LoopStops(flow, inp, ready, stopped)
  {
    var st := s.server.status;
    var approved := s.approved + ApprovedNames(flow, inp);
    GoodStepsGrow(flow, st.steps, s.started, s.approved, s.started, approved);
    StagesGood(flow, st, inp, sorted, s.started, approved);
    LoopMeans(flow, inp, Local(Retried(flow, inp, st), AfterTimeouts(flow, inp, s.server)),
              Planned(flow, st, inp, sorted), s.started, approved);
  }

  // What a full pass leaves behind.

  /** What timeouts and retries make of an entry that the pass does not plan. */
  function Rested(flow: Flow, inp: Inputs, s: StepStatus, spec: Step): StepStatus
  {
    var late := && s.phase == StepRunning && s.startTime.Some? && spec.timeoutSeconds.Some?
                && Clock(inp, CheckingTimeout(s.name)) - s.startTime.value > spec.timeoutSeconds.value * 1_000_000_000;
    var s1 := if late then s.(phase := StepFailed, completionTime := Some(Clock(inp, TimingOut(s.name)))) else s;
    if && s1.phase == StepFailed && 0 <= s1.retryCount < AllowedRetries(flow, spec)
       && (s1.completionTime.Some? ==>
           Clock(inp, Retrying(s.name)) - s1.completionTime.value >=
               RetryDelay(flow, inp, s1, spec.retryPolicy.value))
    then StepStatus(s.name, StepPending, None, None, None, s.retryCount + 1)
    else s1
  }

  lemma RestedMeans(flow: Flow, inp: Inputs, s: StepStatus, i: nat)
    requires UniqueNames(flow.spec.steps) && TimeoutsInRange(flow) && i < |flow.spec.steps|
    requires flow.spec.steps[i].name == s.name && s.retryCount >= 0
    ensures RetryStep(flow, inp, TimeoutStep(flow, inp, s)) == Rested(flow, inp, s, flow.spec.steps[i])
  {
    FindStepAt(flow.spec.steps, i);
    if flow.spec.steps[i].timeoutSeconds.Some? {
      SecondsMean(flow.spec.steps[i].timeoutSeconds.value);
    }
    RetryMeans(flow, inp, TimeoutStep(flow, inp, s), i);
  }

  /** The fate of the i-th step in a full pass: its entry is first taken as the pass sees it; then it
      is started if the plan holds it, and otherwise timed out, retried or left alone. */
  ghost predicate Fate(flow: Flow, server: Server, inp: Inputs, i: nat, after: StepStatus)
    requires i < |flow.spec.steps| && i < |server.status.steps|
  {
    exists seen :: TakenFor(inp, server.status.steps[i], seen) && after ==
      if Wanted(flow, inp, server.status, i) then TurnEntry(flow, inp, server.jobs, seen, flow.spec.steps[i])
      else Rested(flow, inp, seen, flow.spec.steps[i])
  }

  /** The entry as the pass sees it is determined. */
  lemma TakenOnce(inp: Inputs, s: StepStatus, a: StepStatus, b: StepStatus)
    requires TakenFor(inp, s, a) && TakenFor(inp, s, b)
    ensures a == b
  {
  }

  /** What a full pass makes of every single step, exactly and in every run, in terms of the
      specification, the stored entry, the existing Jobs and what the pass was told. */
  lemma {:induction false} StepAfterPass(flow: Flow, run: seq<Move>, move: Move, i: nat)
    requires Sees(flow, run, move) && TimeoutsInRange(flow) && i < |flow.spec.steps|
    requires FullPass(flow, Seen(After(flow, run), move), Given(flow, move), move.choices)
    ensures var server := Seen(After(flow, run), move);
            var out := Reconcile(flow, server, Given(flow, move), move.choices);
            && i < |server.status.steps| && i < |out.mem.steps|
            && Fate(flow, server, Given(flow, move), i, out.mem.steps[i])
            && (Given(flow, move).lastWrite.None? ==> out.server.status == out.mem)
  {
    var s := After(flow, run);
    SeenIsGood(flow, run, move);
    FateInPass(flow, s.(server := Seen(s, move)), Given(flow, move), move.choices, i);
  }

  lemma FateInPass(flow: Flow, s: State, inp: Inputs, ch: Choices, i: nat)
    requires StepsValid(flow.spec.steps) && LegalChoices(flow, ch) && FullPass(flow, s.server, inp, ch)
    requires GoodStatus(flow, s.server.status, s.started, s.approved) && TimeoutsInRange(flow)
    requires i < |flow.spec.steps|
    ensures var out := Reconcile(flow, s.server, inp, ch);
            && i < |out.mem.steps| && Fate(flow, s.server, inp, i, out.mem.steps[i])
            && (inp.lastWrite.None? ==> out.server.status == out.mem)
  {
    FullPassResult(flow, s.server, inp, ch);
    FateInLoop(flow, s, inp, ch, i);
  }

  lemma FateInLoop(flow: Flow, s: State, inp: Inputs, ch: Choices, i: nat)
    requires StepsValid(flow.spec.steps) && LegalChoices(flow, ch) && FullPass(flow, s.server, inp, ch)
    requires GoodStatus(flow, s.server.status, s.started, s.approved) && TimeoutsInRange(flow)
    requires i < |flow.spec.steps|
    ensures var l := Executed(flow, s.server, inp, ch.sorted.value).0;
            i < |l.mem.steps| && Fate(flow, s.server, inp, i, l.mem.steps[i])
  {
    var st, sorted := s.server.status, ch.sorted.value;
    var seen := Refreshed(inp, st).steps[i];
    SeenEntries(inp, st);
    PlansIff(flow, st, inp, sorted, i, s.started, s.approved);
    PendingSame(flow, inp, st, i, s.started, s.approved);
    if Wanted(flow, inp, st, i) {
      FateOfPlanned(flow, s, inp, ch, i);
    } else {
      FateOfOthers(flow, s, inp, ch, i);
    }
    assert TakenFor(inp, st.steps[i], seen);
  }

  lemma FateOfPlanned(flow: Flow, s: State, inp: Inputs, ch: Choices, i: nat)
    requires StepsValid(flow.spec.steps) && LegalChoices(flow, ch) && FullPass(flow, s.server, inp, ch)
    requires GoodStatus(flow, s.server.status, s.started, s.approved) && i < |flow.spec.steps|
    requires flow.spec.steps[i].name in Planned(flow, s.server.status, inp, ch.sorted.value)
    ensures i < |Refreshed(inp, s.server.status).steps|
    ensures var l := Executed(flow, s.server, inp, ch.sorted.value).0;
            && i < |l.mem.steps|
            && l.mem.steps[i] == TurnEntry(flow, inp, s.server.jobs, Refreshed(inp, s.server.status).steps[i],
                                           flow.spec.steps[i])
  {
    var st, sorted := s.server.status, ch.sorted.value;
    var approved := s.approved + ApprovedNames(flow, inp);
    GoodStepsGrow(flow, st.steps, s.started, s.approved, s.started, approved);
    StagesGood(flow, st, inp, sorted, s.started, approved);
    PlannedAt(flow, sorted, Refreshed(inp, st).steps, inp, s.started, approved, i);
    PendingUntouched(flow, inp, Refreshed(inp, st), i);
    PlanDistinct(StepMap(flow.spec.steps), sorted, Refreshed(inp, st).steps, inp.whenTrue);
    var l0 := Local(Retried(flow, inp, st), AfterTimeouts(flow, inp, s.server));
    GoodIsUnstarted(flow, l0, i, s.started, approved);
    LoopEntries(flow, inp, l0, Planned(flow, st, inp, sorted), i);
    PlannedPends(flow, s.(approved := approved), inp, sorted, i);
    SameTurn(flow, s, inp, l0.mem.steps[i], i);
  }

  /** The deletions of the timeout stage do not matter for a pending step. */
  lemma SameTurn(flow: Flow, s: State, inp: Inputs, entry: StepStatus, i: nat)
    requires StepsValid(flow.spec.steps) && GoodStatus(flow, s.server.status, s.started, s.approved)
    requires i < |flow.spec.steps| && s.server.status.steps[i].phase == StepPending
    requires entry.name == flow.spec.steps[i].name
    ensures TurnEntry(flow, inp, AfterTimeouts(flow, inp, s.server).jobs, entry, flow.spec.steps[i])
            == TurnEntry(flow, inp, s.server.jobs, entry, flow.spec.steps[i])
  {
    JobNameIs(flow, entry.name);
    if !IsManual(flow.spec.steps[i]) {
      PendingWaits(flow, s, inp, i);
    }
  }

  lemma FateOfOthers(flow: Flow, s: State, inp: Inputs, ch: Choices, i: nat)
    requires StepsValid(flow.spec.steps) && LegalChoices(flow, ch) && FullPass(flow, s.server, inp, ch)
    requires GoodStatus(flow, s.server.status, s.started, s.approved) && TimeoutsInRange(flow)
    requires i < |flow.spec.steps|
    requires flow.spec.steps[i].name !in Planned(flow, s.server.status, inp, ch.sorted.value)
    ensures i < |Refreshed(inp, s.server.status).steps|
    ensures var l := Executed(flow, s.server, inp, ch.sorted.value).0;
            && i < |l.mem.steps|
            && l.mem.steps[i] == Rested(flow, inp, Refreshed(inp, s.server.status).steps[i], flow.spec.steps[i])
  {
    var st := s.server.status;
    UnplannedLoop(flow, s, inp, ch.sorted.value, i);
    Retrying.EntryBeforeRetries(flow, inp, st, i);
    SeenEntries(inp, st);
    assert Refreshed(inp, st).steps[i] == RefreshStep(inp, ApproveStep(inp, st.steps[i]));
    assert StepInv(flow, flow.spec.steps[i], st.steps[i], s.started, s.approved);
    ValidNamesUnique(flow.spec.steps);
    RestedMeans(flow, inp, Refreshed(inp, st).steps[i], i);
  }

  // The flow after a full pass.

  /** The step is running as far as the pass is told, for more seconds than it may, and its failure is
      the flow's. */
  ghost predicate Expires(flow: Flow, inp: Inputs, s: StepStatus, j: nat)
  {
    && j < |flow.spec.steps| && flow.spec.steps[j].name == s.name && !flow.spec.steps[j].continueOnFailure
    && TakenForRunning(inp, s) && s.startTime.Some? && flow.spec.steps[j].timeoutSeconds.Some?
    && Clock(inp, CheckingTimeout(s.name)) - s.startTime.value > flow.spec.steps[j].timeoutSeconds.value * 1_000_000_000
  }

  ghost predicate SomeExpires(flow: Flow, inp: Inputs, st: Status)
  {
    exists i, j :: 0 <= i < |st.steps| && Expires(flow, inp, st.steps[i], j)
  }

  /** A planned step has failed in its turn, and its failure is the flow's. */
  ghost predicate SomeBreaks(flow: Flow, inp: Inputs, st: Status, after: Status)
  {
    exists i: nat :: i < |flow.spec.steps| && i < |st.steps| && Wanted(flow, inp, st, i) && Breaks(flow, after, i)
  }

  /** A planned manual step is not approved. */
  ghost predicate SomeAsks(flow: Flow, inp: Inputs, st: Status)
  {
    exists i: nat :: i < |flow.spec.steps| && i < |st.steps| && Wanted(flow, inp, st, i) && Asks(flow, inp, i)
  }

  /** The phase that a pass starts from: paused while a step waited for its approval. */
  ghost function Resumed(st: Status): FlowPhase
  {
    if exists i :: 0 <= i < |st.steps| && st.steps[i].phase == StepPendingApproval then FlowPaused
    else if st.phase == FlowPaused then FlowRunning
    else st.phase
  }

  /** How phase and completion time of the flow come out of a full pass. While steps are left, the
      flow fails only over a step without leave to continue: one that expires, or a planned one
      that fails in its turn. Without those it goes on, paused if a planned step begins to wait. */
  ghost predicate FlowGoes(flow: Flow, inp: Inputs, st: Status, ready: seq<string>, after: Status)
  {
    var failing := SomeExpires(flow, inp, st) || SomeBreaks(flow, inp, st, after);
    if forall i :: 0 <= i < |after.steps| ==> after.steps[i].phase in {StepSucceeded, StepFailed} then
      && after.completionTime == Some(Clock(inp, Ending))
      && after.phase == (if forall i :: 0 <= i < |after.steps| ==> after.steps[i].phase == StepSucceeded
                         then FlowSucceeded else FlowFailed)
    else if failing then
      && after.completionTime.Some?
      && after.phase in (if SomeAsks(flow, inp, st) then {FlowFailed, FlowPaused} else {FlowFailed})
      && after.phase == LastSay(flow, inp, after, ready, if SomeExpires(flow, inp, st) then FlowFailed else Resumed(st))
    else
      && after.completionTime == st.completionTime
      && after.phase == if SomeAsks(flow, inp, st) then FlowPaused
                        else if Resumed(st) in {FlowUnset, FlowPending} then FlowRunning
                        else Resumed(st)
  }

  lemma {:induction false} FlowAfterPass(flow: Flow, run: seq<Move>, move: Move)
    requires Sees(flow, run, move) && TimeoutsInRange(flow)
    requires FullPass(flow, Seen(After(flow, run), move), Given(flow, move), move.choices)
    ensures var server := Seen(After(flow, run), move);
            FlowGoes(flow, Given(flow, move), server.status,
                     Planned(flow, server.status, Given(flow, move), move.choices.sorted.value),
                     Reconcile(flow, server, Given(flow, move), move.choices).mem)
  {
    var s := After(flow, run);
    SeenIsGood(flow, run, move);
    FlowInPass(flow, s.(server := Seen(s, move)), Given(flow, move), move.choices);
  }

  lemma FlowInPass(flow: Flow, s: State, inp: Inputs, ch: Choices)
    requires StepsValid(flow.spec.steps) && LegalChoices(flow, ch) && FullPass(flow, s.server, inp, ch)
    requires GoodStatus(flow, s.server.status, s.started, s.approved) && TimeoutsInRange(flow)
    ensures FlowGoes(flow, inp, s.server.status, Planned(flow, s.server.status, inp, ch.sorted.value),
                     Reconcile(flow, s.server, inp, ch).mem)
  {
    var st, sorted := s.server.status, ch.sorted.value;
    var l := Executed(flow, s.server, inp, sorted).0;
    FullPassResult(flow, s.server, inp, ch);
    ValidNamesUnique(flow.spec.steps);
    PassLoop(flow, s, inp, sorted);
    GoodWaits(flow, st, s.started, s.approved);
    BeforeLoop(flow, inp, st);
    ListedIff(flow, s, inp, sorted);
    AskersStart(flow, s, inp, ch);
    LoopSteps(flow, s, inp, sorted);
    FlowEnds(flow, inp, st, Retried(flow, inp, st), l.mem, Planned(flow, st, inp, sorted),
             UpdateStatus(l.mem, Clock(inp, Ending)));
  }

  ghost predicate WaitWithoutJob(st: Status)
  {
    forall i :: 0 <= i < |st.steps| && st.steps[i].phase == StepPendingApproval ==> st.steps[i].jobRef.None?
  }

  lemma GoodWaits(flow: Flow, st: Status, started: set<string>, approved: set<string>)
    requires GoodSteps(flow, st.steps, started, approved)
    ensures WaitWithoutJob(st)
  {
    forall i | 0 <= i < |st.steps| && st.steps[i].phase == StepPendingApproval
      ensures st.steps[i].jobRef.None?
    {
      assert StepInv(flow, flow.spec.steps[i], st.steps[i], started, approved);
    }
  }

  /** Phase and completion time when the loop begins. */
  lemma BeforeLoop(flow: Flow, inp: Inputs, st: Status)
    requires UniqueNames(flow.spec.steps) && TimeoutsInRange(flow) && WaitWithoutJob(st)
    ensures var before := Retried(flow, inp, st);
            if SomeExpires(flow, inp, st) then before.phase == FlowFailed && before.completionTime.Some?
            else before.phase == Resumed(st) && before.completionTime == st.completionTime
  {
    SeenFlow(inp, st);
    ExpiresIff(flow, inp, st);
    TimeoutsMean(flow, inp, Refreshed(inp, st), Server(st, map[], {}, []));
  }

  lemma ExpiresIff(flow: Flow, inp: Inputs, st: Status)
    requires WaitWithoutJob(st)
    ensures SomeFatallyOverdue(flow, inp, Refreshed(inp, st).steps) <==> SomeExpires(flow, inp, st)
  {
    var seen := Refreshed(inp, st).steps;
    SeenEntries(inp, st);
    forall i, j: nat | 0 <= i < |st.steps|
      ensures FatallyOverdue(flow, inp, seen[i], j) <==> Expires(flow, inp, st.steps[i], j)
    {
      EntryExpires(flow, inp, st.steps[i], seen[i], j);
    }
    if SomeFatallyOverdue(flow, inp, seen) {
      var i, j :| 0 <= i < |seen| && FatallyOverdue(flow, inp, seen[i], j);
      assert Expires(flow, inp, st.steps[i], j);
    }
    if SomeExpires(flow, inp, st) {
      var i, j: nat :| 0 <= i < |st.steps| && Expires(flow, inp, st.steps[i], j);
      assert FatallyOverdue(flow, inp, seen[i], j);
    }
  }

  lemma EntryExpires(flow: Flow, inp: Inputs, s: StepStatus, seen: StepStatus, j: nat)
    requires TakenFor(inp, s, seen) && (s.phase == StepPendingApproval ==> s.jobRef.None?)
    ensures FatallyOverdue(flow, inp, seen, j) <==> Expires(flow, inp, s, j)
  {
  }

  lemma ListedIff(flow: Flow, s: State, inp: Inputs, sorted: seq<string>)
    requires StepsValid(flow.spec.steps) && GoodStatus(flow, s.server.status, s.started, s.approved)
    requires TopologicalOrder(Edges(flow), sorted)
    ensures forall i: nat :: Listed(flow, Planned(flow, s.server.status, inp, sorted), i) <==>
              i < |flow.spec.steps| && i < |s.server.status.steps| && Wanted(flow, inp, s.server.status, i)
  {
    forall i: nat | i < |flow.spec.steps|
      ensures Listed(flow, Planned(flow, s.server.status, inp, sorted), i) <==> Wanted(flow, inp, s.server.status, i)
    {
      PlansIff(flow, s.server.status, inp, sorted, i, s.started, s.approved);
    }
  }

  /** In a full pass all planned steps come to their turn. */
  lemma AskersStart(flow: Flow, s: State, inp: Inputs, ch: Choices)
    requires StepsValid(flow.spec.steps) && LegalChoices(flow, ch) && FullPass(flow, s.server, inp, ch)
    requires GoodStatus(flow, s.server.status, s.started, s.approved)
    ensures forall i: nat :: Listed(flow, Planned(flow, s.server.status, inp, ch.sorted.value), i) ==>
              Started(Executed(flow, s.server, inp, ch.sorted.value).0.mem, i)
  {
    forall i: nat | Listed(flow, Planned(flow, s.server.status, inp, ch.sorted.value), i)
      ensures Started(Executed(flow, s.server, inp, ch.sorted.value).0.mem, i)
    {
      AskerStarts(flow, s, inp, ch, i);
    }
  }

  lemma AskerStarts(flow: Flow, s: State, inp: Inputs, ch: Choices, i: nat)
    requires StepsValid(flow.spec.steps) && LegalChoices(flow, ch) && FullPass(flow, s.server, inp, ch)
    requires GoodStatus(flow, s.server.status, s.started, s.approved)
    requires Listed(flow, Planned(flow, s.server.status, inp, ch.sorted.value), i)
    ensures Started(Executed(flow, s.server, inp, ch.sorted.value).0.mem, i)
  {
    FateOfPlanned(flow, s, inp, ch, i);
    TurnIsStart(flow, inp, s.server.jobs, Refreshed(inp, s.server.status).steps[i], flow.spec.steps[i]);
  }

  lemma TurnIsStart(flow: Flow, inp: Inputs, jobs: map<string, Job>, s: StepStatus, spec: Step)
    ensures TurnEntry(flow, inp, jobs, s, spec).phase != StepPending
  {
  }

  lemma LoopSteps(flow: Flow, s: State, inp: Inputs, sorted: seq<string>)
    requires StepsValid(flow.spec.steps) && GoodStatus(flow, s.server.status, s.started, s.approved) && Distinct(sorted)
    ensures |Executed(flow, s.server, inp, sorted).0.mem.steps| == |flow.spec.steps|
  {
    var approved := s.approved + ApprovedNames(flow, inp);
    GoodStepsGrow(flow, s.server.status.steps, s.started, s.approved, s.started, approved);
    ExecutedGood(flow, s.server, inp, sorted, s.started, approved);
  }

  /** The laws of the stages put together. */
  lemma FlowEnds(flow: Flow, inp: Inputs, st: Status, before: Status, mid: Status, ready: seq<string>, after: Status)
    requires LoopFlow(flow, inp, before, mid, ready) && |st.steps| == |flow.spec.steps| == |mid.steps|
    requires if SomeExpires(flow, inp, st) then before.phase == FlowFailed && before.completionTime.Some?
             else before.phase == Resumed(st) && before.completionTime == st.completionTime
    requires forall i: nat :: Listed(flow, ready, i) <==>
               i < |flow.spec.steps| && i < |st.steps| && Wanted(flow, inp, st, i)
    requires forall i: nat :: Listed(flow, ready, i) ==> Started(mid, i)
    requires after == UpdateStatus(mid, Clock(inp, Ending))
    ensures FlowGoes(flow, inp, st, ready, after)
  {
    SameBreaks(flow, inp, st, mid, after, ready);
    SameSay(flow, inp, mid, after, ready, before.phase);
    SameAsks(flow, inp, st, mid, ready);
    if AnyBroken(flow, inp, mid, ready) {
      var i: nat :| BrokenBy(flow, inp, mid, ready, i);
    }
    EndMeans(mid, Clock(inp, Ending));
    FlowDecided(flow, inp, st, before, mid, ready, after);
  }

  lemma SameBreaks(flow: Flow, inp: Inputs, st: Status, mid: Status, after: Status, ready: seq<string>)
    requires after.steps == mid.steps
    requires forall i: nat :: Listed(flow, ready, i) <==>
               i < |flow.spec.steps| && i < |st.steps| && Wanted(flow, inp, st, i)
    ensures SomeBreaks(flow, inp, st, after) <==> AnyBreaks(flow, mid, ready)
  {
    forall i: nat
      ensures Breaks(flow, after, i) <==> Breaks(flow, mid, i)
    {
    }
  }

  lemma {:induction false} SameSay(flow: Flow, inp: Inputs, a: Status, b: Status, ready: seq<string>, phase: FlowPhase)
    requires a.steps == b.steps
    ensures LastSay(flow, inp, a, ready, phase) == LastSay(flow, inp, b, ready, phase)
    decreases |ready|
  {
    if |ready| > 0 {
      var n := ready[0];
      assert forall i: nat :: (Breaks(flow, a, i) <==> Breaks(flow, b, i)) && (Started(a, i) <==> Started(b, i));
      assert (NameBreaks(flow, a, n) <==> NameBreaks(flow, b, n))
          && (NameAsks(flow, inp, a, n) <==> NameAsks(flow, inp, b, n));
      var next := if NameBreaks(flow, a, n) then FlowFailed
                  else if NameAsks(flow, inp, a, n) then FlowPaused else phase;
      SameSay(flow, inp, a, b, ready[1..], next);
    }
  }

  lemma SameAsks(flow: Flow, inp: Inputs, st: Status, mid: Status, ready: seq<string>)
    requires forall i: nat :: Listed(flow, ready, i) <==>
               i < |flow.spec.steps| && i < |st.steps| && Wanted(flow, inp, st, i)
    requires forall i: nat :: Listed(flow, ready, i) ==> Started(mid, i)
    ensures SomeAsks(flow, inp, st) <==> AnyAsks(flow, inp, ready)
    ensures AnyAsked(flow, inp, mid, ready) <==> AnyAsks(flow, inp, ready)
  {
  }

  lemma FlowDecided(flow: Flow, inp: Inputs, st: Status, before: Status, mid: Status, ready: seq<string>,
          after: Status)
    requires LoopFlow(flow, inp, before, mid, ready)
    requires if SomeExpires(flow, inp, st) then before.phase == FlowFailed && before.completionTime.Some?
             else before.phase == Resumed(st) && before.completionTime == st.completionTime
    requires SomeBreaks(flow, inp, st, after) <==> AnyBreaks(flow, mid, ready)
    requires SomeAsks(flow, inp, st) <==> AnyAsks(flow, inp, ready)
    requires AnyAsked(flow, inp, mid, ready) <==> AnyAsks(flow, inp, ready)
    requires AnyBroken(flow, inp, mid, ready) ==> mid.completionTime.Some? && AnyBreaks(flow, mid, ready)
    requires after.steps == mid.steps
    requires LastSay(flow, inp, mid, ready, before.phase) == LastSay(flow, inp, after, ready, before.phase)
    requires if forall i :: 0 <= i < |mid.steps| ==> mid.steps[i].phase in {StepSucceeded, StepFailed}
             then && after.completionTime == Some(Clock(inp, Ending))
                  && after.phase == (if forall i :: 0 <= i < |mid.steps| ==> mid.steps[i].phase == StepSucceeded
                                     then FlowSucceeded else FlowFailed)
             else && after.completionTime == mid.completionTime
                  && after.phase == if mid.phase in {FlowUnset, FlowPending} then FlowRunning else mid.phase
    ensures FlowGoes(flow, inp, st, ready, after)
  {
  }

  // The Jobs after a full pass.

  /** The turn of the i-th step leaves a Job of its name behind where there was none. */
  ghost predicate Creates(flow: Flow, inp: Inputs, i: nat)
    requires i < |flow.spec.steps|
  {
    var n := flow.spec.steps[i].name;
    !NeedsApproval(flow.spec.steps[i]) && (n in inp.createFaults ==> inp.createFaults[n].applied)
  }

  lemma {:induction false} LoopJobs(flow: Flow, inp: Inputs, l: Local, ready: seq<string>, i: nat)
    requires Unstarted(flow, l, i) && l.mem.steps[i].name in ready && Distinct(ready)
    requires !RunReady(flow, inp, l, ready).1
    ensures JobName(flow, l.mem.steps[i].name) in RunReady(flow, inp, l, ready).0.server.jobs
            <==> JobName(flow, l.mem.steps[i].name) in l.server.jobs || Creates(flow, inp, i)
    decreases |ready|
  {
    var l1 := ExecuteTurn(flow, inp, l, ready[0]).0;
    var rest := ready[1..];
    assert ready == [ready[0]] + rest && ready[0] !in rest;
    if ready[0] == l.mem.steps[i].name {
      OwnEntry(flow, inp, l, i);
      OwnJob(flow, inp, l, i);
      LoopLeaves(flow, inp, l1, rest, i);
    } else {
      OtherLeaves(flow, inp, l, ready[0], i);
      LoopJobs(flow, inp, l1, rest, i);
    }
  }

  lemma OwnJob(flow: Flow, inp: Inputs, l: Local, i: nat)
    requires Unstarted(flow, l, i)
    ensures var l' := ExecuteTurn(flow, inp, l, l.mem.steps[i].name).0;
            && (JobName(flow, l.mem.steps[i].name) in l'.server.jobs
                <==> JobName(flow, l.mem.steps[i].name) in l.server.jobs || Creates(flow, inp, i))
            && i < |l'.mem.steps| && l'.mem.steps[i].name == l.mem.steps[i].name
  {
    JobNameIs(flow, l.mem.steps[i].name);
    if NeedsApproval(flow.spec.steps[i]) {
      ManualTurn(flow, inp, l, i);
      var n := l.mem.steps[i].name;
      WrittenKeepsJobs(l.server, ExecuteTurn(flow, inp, l, n).0.server, AfterAsking(flow, inp, l.mem, i),
                       if n in inp.stepWrites then Some(inp.stepWrites[n]) else None);
    } else {
      JobTurn(flow, inp, l, i);
    }
  }

  lemma WrittenKeepsJobs(before: Server, after: Server, st: Status, fault: Option<Fault>)
    requires Written(before, after, st, fault)
    ensures after.jobs == before.jobs
  {
    if fault.Some? {
      assert fault == Some(Fault(fault.value.applied, fault.value.retryable));
    }
  }

  /** Which Jobs of the flow's steps exist after a full pass, exactly: those that did and were not
      deleted with an overdue step, and those of planned steps whose request took effect. */
  lemma {:induction false} JobsAfterPass(flow: Flow, run: seq<Move>, move: Move, i: nat)
    requires Sees(flow, run, move) && TimeoutsInRange(flow) && i < |flow.spec.steps|
    requires FullPass(flow, Seen(After(flow, run), move), Given(flow, move), move.choices)
    ensures var (server, inp) := (Seen(After(flow, run), move), Given(flow, move));
            var job := NameOfJob(flow, flow.spec.steps[i].name);
            && i < |server.status.steps|
            && (job in Reconcile(flow, server, inp, move.choices).server.jobs <==>
                  || (job in server.jobs && !JobExpires(flow, inp, Refreshed(inp, server.status), job))
                  || (Wanted(flow, inp, server.status, i) && Creates(flow, inp, i)))
  {
    var s := After(flow, run);
    SeenIsGood(flow, run, move);
    JobInPass(flow, s.(server := Seen(s, move)), Given(flow, move), move.choices, i);
  }

  lemma JobInPass(flow: Flow, s: State, inp: Inputs, ch: Choices, i: nat)
    requires StepsValid(flow.spec.steps) && LegalChoices(flow, ch) && FullPass(flow, s.server, inp, ch)
    requires GoodStatus(flow, s.server.status, s.started, s.approved) && TimeoutsInRange(flow)
    requires i < |flow.spec.steps|
    ensures var job := NameOfJob(flow, flow.spec.steps[i].name);
            job in Reconcile(flow, s.server, inp, ch).server.jobs <==>
              || (job in s.server.jobs && !JobExpires(flow, inp, Refreshed(inp, s.server.status), job))
              || (Wanted(flow, inp, s.server.status, i) && Creates(flow, inp, i))
  {
    var st, sorted := s.server.status, ch.sorted.value;
    ValidNamesUnique(flow.spec.steps);
    JobNameIs(flow, flow.spec.steps[i].name);
    TimeoutsMean(flow, inp, Refreshed(inp, st), s.server);
    PlansIff(flow, st, inp, sorted, i, s.started, s.approved);
    Orphans.AdvanceServer(flow, s.server, inp, sorted, ch.firstErrorRetryable);
    JobInLoop(flow, s, inp, sorted, i);
  }

  lemma JobInLoop(flow: Flow, s: State, inp: Inputs, sorted: seq<string>, i: nat)
    requires StepsValid(flow.spec.steps) && GoodStatus(flow, s.server.status, s.started, s.approved)
    requires Distinct(sorted) && i < |flow.spec.steps| && !Executed(flow, s.server, inp, sorted).1
    ensures var (job, n) := (JobName(flow, flow.spec.steps[i].name), flow.spec.steps[i].name);
            job in Executed(flow, s.server, inp, sorted).0.server.jobs <==>
              || job in AfterTimeouts(flow, inp, s.server).jobs
              || (n in Planned(flow, s.server.status, inp, sorted) && Creates(flow, inp, i))
  {
    var st := s.server.status;
    var approved := s.approved + ApprovedNames(flow, inp);
    var l0, ready := Local(Retried(flow, inp, st), AfterTimeouts(flow, inp, s.server)), Planned(flow, st, inp, sorted);
    GoodStepsGrow(flow, st.steps, s.started, s.approved, s.started, approved);
    StagesGood(flow, st, inp, sorted, s.started, approved);
    Located(flow, l0.mem.steps, s.started, approved, i);
    GoodStepsUnique(flow, l0.mem.steps, s.started, approved);
    if flow.spec.steps[i].name in ready {
      PlannedAt(flow, sorted, Refreshed(inp, st).steps, inp, s.started, approved, i);
      PendingUntouched(flow, inp, Refreshed(inp, st), i);
      GoodIsUnstarted(flow, l0, i, s.started, approved);
      LoopJobs(flow, inp, l0, ready, i);
    } else {
      LoopLeaves(flow, inp, l0, ready, i);
    }
  }
}
