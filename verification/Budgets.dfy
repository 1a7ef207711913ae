/** Retry budgets, closed gates, delays and progress counters over every legal run. */
module Budgets {
  import opened Types
  import opened Backoff
  import opened Validation
  import opened Transition
  import opened Invariant
  import opened Runs
  import opened Guarantees

  // Retry totals.

  /** All retries of a status, without wrap-around. */
  function TotalRetries(steps: seq<StepStatus>): int
  {
    if |steps| == 0 then 0
    else TotalRetries(steps[..|steps| - 1]) + steps[|steps| - 1].retryCount
  }

  /** The steps that can be retried at all. */
  function CountRetrying(steps: seq<Step>): nat
  {
    if |steps| == 0 then 0
    else CountRetrying(steps[..|steps| - 1]) + if steps[|steps| - 1].retryPolicy.Some? then 1 else 0
  }

  lemma WrapTwice(a: int, b: int)
    ensures Int32(Int32(a) + b) == Int32(a + b)
  {
  }

  lemma {:induction false} Total32Wraps(steps: seq<StepStatus>)
    ensures TotalRetries32(steps) == Int32(TotalRetries(steps))
  {
    if |steps| > 0 {
      Total32Wraps(steps[..|steps| - 1]);
      WrapTwice(TotalRetries(steps[..|steps| - 1]), steps[|steps| - 1].retryCount);
    }
  }

  /** The int32 accumulator of checkBackoffLimit is right if and only if the total fits. */
  lemma BackoffGateExactIff(steps: seq<StepStatus>)
    requires TotalRetries(steps) >= 0
    ensures TotalRetries32(steps) == TotalRetries(steps) <==> TotalRetries(steps) <= MAX_INT32
  {
    Total32Wraps(steps);
  }

  lemma {:induction false} TotalAtLeast(steps: seq<StepStatus>, i: nat)
    requires forall k :: 0 <= k < |steps| ==> steps[k].retryCount >= 0
    requires i < |steps|
    ensures steps[i].retryCount <= TotalRetries(steps)
  {
    var front := steps[..|steps| - 1];
    TotalNonNegative(front);
    if i < |front| {
      TotalAtLeast(front, i);
    }
  }

  lemma {:induction false} TotalNonNegative(steps: seq<StepStatus>)
    requires forall k :: 0 <= k < |steps| ==> steps[k].retryCount >= 0
    ensures TotalRetries(steps) >= 0
  {
    if |steps| > 0 {
      TotalNonNegative(steps[..|steps| - 1]);
    }
  }

  ghost predicate OneMoreRetry(specs: seq<Step>, a: seq<StepStatus>, b: seq<StepStatus>)
  {
    && |specs| == |a| == |b|
    && forall k :: 0 <= k < |a| ==>
         || b[k].retryCount == a[k].retryCount
         || (b[k].retryCount == a[k].retryCount + 1 && specs[k].retryPolicy.Some?)
  }

  lemma {:induction false} TotalGrowth(specs: seq<Step>, a: seq<StepStatus>, b: seq<StepStatus>)
    requires OneMoreRetry(specs, a, b)
    ensures TotalRetries(b) <= TotalRetries(a) + CountRetrying(specs)
  {
    if |a| > 0 {
      TotalGrowth(specs[..|a| - 1], a[..|a| - 1], b[..|a| - 1]);
    }
  }

  /** A pass counts at most one more retry per step, and only where a policy allows it. */
  lemma RetriedOnce(flow: Flow, inp: Inputs, st: Status, started: set<string>, approved: set<string>)
    requires StepsValid(flow.spec.steps) && GoodStatus(flow, st, started, approved)
    ensures OneMoreRetry(flow.spec.steps, st.steps, Retried(flow, inp, st).steps)
  {
    var steps' := Retried(flow, inp, st).steps;
    forall k | 0 <= k < |st.steps|
      ensures || steps'[k].retryCount == st.steps[k].retryCount
              || (steps'[k].retryCount == st.steps[k].retryCount + 1 && flow.spec.steps[k].retryPolicy.Some?)
    {
      Located(flow, st.steps, started, approved, k);
      BeforeRetriesAt(flow, inp, st, k);
      RetryCountsOne(flow, inp, BeforeRetries(flow, inp, st).steps[k]);
    }
  }

  /** The statuses that handleStepRetry looks at in a pass. */
  function BeforeRetries(flow: Flow, inp: Inputs, st: Status): Status
  {
    Timeouts(flow, inp, Refreshed(inp, st))
  }

  lemma BeforeRetriesAt(flow: Flow, inp: Inputs, st: Status, k: nat)
    requires k < |st.steps|
    ensures |BeforeRetries(flow, inp, st).steps| == |Retried(flow, inp, st).steps| == |st.steps|
    ensures BeforeRetries(flow, inp, st).steps[k].name == st.steps[k].name
    ensures BeforeRetries(flow, inp, st).steps[k].retryCount == st.steps[k].retryCount
    ensures Retried(flow, inp, st).steps[k] == RetryStep(flow, inp, BeforeRetries(flow, inp, st).steps[k])
  {
    ApprovalsKeepCount(inp, st, k);
    RefreshKeepsCount(inp, ManualApprovals(inp, st), k);
    TimeoutsKeepCount(flow, inp, Refreshed(inp, st), k);
  }

  lemma ApprovalsKeepCount(inp: Inputs, st: Status, k: nat)
    requires k < |st.steps|
    ensures var steps := ManualApprovals(inp, st).steps;
            |steps| == |st.steps| && steps[k].name == st.steps[k].name && steps[k].retryCount == st.steps[k].retryCount
  {
  }

  lemma RefreshKeepsCount(inp: Inputs, st: Status, k: nat)
    requires k < |st.steps|
    ensures var steps := Refresh(inp, st).steps;
            |steps| == |st.steps| && steps[k].name == st.steps[k].name && steps[k].retryCount == st.steps[k].retryCount
  {
  }

  lemma TimeoutsKeepCount(flow: Flow, inp: Inputs, st: Status, k: nat)
    requires k < |st.steps|
    ensures var steps := Timeouts(flow, inp, st).steps;
            |steps| == |st.steps| && steps[k].name == st.steps[k].name && steps[k].retryCount == st.steps[k].retryCount
  {
  }

  lemma RetryCountsOne(flow: Flow, inp: Inputs, s: StepStatus)
    ensures RetryStep(flow, inp, s).retryCount == s.retryCount
            || (RetryStep(flow, inp, s).retryCount == s.retryCount + 1
                && FindStep(flow.spec.steps, s.name).Some? && FindStep(flow.spec.steps, s.name).value.retryPolicy.Some?)
  {
  }

  /** The specs to which the int32 gate can be held: no total that a run reaches wraps. */
  ghost predicate BudgetFits(flow: Flow)
  {
    0 <= BackoffLimit(flow) && BackoffLimit(flow) + CountRetrying(flow.spec.steps) <= MAX_INT32
  }

  ghost predicate WithinBudget(flow: Flow, steps: seq<StepStatus>)
  {
    TotalRetries(steps) <= BackoffLimit(flow) + CountRetrying(flow.spec.steps)
  }

  lemma CountsOfGood(flow: Flow, st: Status, started: set<string>, approved: set<string>)
    requires GoodSteps(flow, st.steps, started, approved)
    ensures forall k :: 0 <= k < |st.steps| ==> st.steps[k].retryCount >= 0
    ensures TotalRetries(st.steps) >= 0
  {
    forall k | 0 <= k < |st.steps|
      ensures st.steps[k].retryCount >= 0
    {
      assert StepInv(flow, flow.spec.steps[k], st.steps[k], started, approved);
    }
    TotalNonNegative(st.steps);
  }

  /** An open gate means that the budget is not used up. */
  lemma OpenGate(flow: Flow, st: Status, started: set<string>, approved: set<string>)
    requires BudgetFits(flow) && WithinBudget(flow, st.steps) && GoodSteps(flow, st.steps, started, approved)
    ensures BackoffExceeded(flow, st) <==> TotalRetries(st.steps) > BackoffLimit(flow)
  {
    CountsOfGood(flow, st, started, approved);
    BackoffGateExactIff(st.steps);
  }

  ghost predicate CountsAs(a: seq<StepStatus>, b: seq<StepStatus>)
  {
    |a| == |b| && forall k :: 0 <= k < |a| ==> a[k].retryCount == b[k].retryCount
  }

  lemma SameCounts(a: seq<StepStatus>, b: seq<StepStatus>)
    requires CountsAs(a, b)
    ensures TotalRetries(a) == TotalRetries(b)
  {
    if |a| > 0 {
      SameCounts(a[..|a| - 1], b[..|a| - 1]);
    }
  }

  /** Everything that was stored in between has these counts. */
  ghost predicate StoresCounts(before: Server, after: Server, steps: seq<StepStatus>)
  {
    && before.history <= after.history
    && forall k :: |before.history| <= k < |after.history| ==> CountsAs(after.history[k].steps, steps)
  }

  lemma TurnCounts(flow: Flow, inp: Inputs, l: Local, n: string)
    ensures CountsAs(ExecuteTurn(flow, inp, l, n).0.mem.steps, l.mem.steps)
    ensures StoresCounts(l.server, ExecuteTurn(flow, inp, l, n).0.server, l.mem.steps)
  {
    var (l1, fault) := ExecuteStep(flow, inp, l, n);
    StepCounts(flow, inp, l, n);
    assert CountsAs(EndTurn(flow, inp, l1, fault, n).0.mem.steps, l1.mem.steps);
  }

  lemma StepCounts(flow: Flow, inp: Inputs, l: Local, n: string)
    ensures CountsAs(ExecuteStep(flow, inp, l, n).0.mem.steps, l.mem.steps)
    ensures StoresCounts(l.server, ExecuteStep(flow, inp, l, n).0.server, l.mem.steps)
  {
    var spec, i := FindStep(flow.spec.steps, n), StatusIndex(l.mem.steps, n);
    if spec.Some? && i.Some? {
      var s := l.mem.steps[i.value];
      if s.jobRef.Some? && RereadJob(inp, s.jobRef.value).Found? {
        var s' := StepFromJobWithPolicy(inp, s, RereadJob(inp, s.jobRef.value).job);
        WriteCounts(inp, l, n, SetStep(l.mem, i.value, s'));
      } else {
        StartCounts(flow, inp, l, i.value, spec.value);
      }
    }
  }

  lemma WriteCounts(inp: Inputs, l: Local, n: string, mem: Status)
    requires CountsAs(mem.steps, l.mem.steps)
    ensures CountsAs(ChangeAndWrite(inp, l, n, mem).0.mem.steps, l.mem.steps)
    ensures StoresCounts(l.server, ChangeAndWrite(inp, l, n, mem).0.server, l.mem.steps)
  {
  }

  lemma StartCounts(flow: Flow, inp: Inputs, l: Local, i: nat, spec: Step)
    requires i < |l.mem.steps|
    ensures CountsAs(StartStep(flow, inp, l, i, spec).0.mem.steps, l.mem.steps)
    ensures StoresCounts(l.server, StartStep(flow, inp, l, i, spec).0.server, l.mem.steps)
  {
  }

  /** The execution loop counts no retries, in memory or in anything that it stores. */
  lemma {:induction false} LoopCounts(flow: Flow, inp: Inputs, l: Local, ready: seq<string>)
    ensures CountsAs(RunReady(flow, inp, l, ready).0.mem.steps, l.mem.steps)
    ensures StoresCounts(l.server, RunReady(flow, inp, l, ready).0.server, l.mem.steps)
    decreases |ready|
  {
    if |ready| > 0 {
      var (l1, stopped) := ExecuteTurn(flow, inp, l, ready[0]);
      TurnCounts(flow, inp, l, ready[0]);
      if !stopped {
        LoopCounts(flow, inp, l1, ready[1..]);
        StoresCompose(l.server, l1.server, RunReady(flow, inp, l1, ready[1..]).0.server, l.mem.steps, l1.mem.steps);
      }
    }
  }

  lemma StoresCompose(a: Server, b: Server, c: Server, steps: seq<StepStatus>, later: seq<StepStatus>)
    requires StoresCounts(a, b, steps) && StoresCounts(b, c, later) && CountsAs(later, steps)
    ensures StoresCounts(a, c, steps)
  {
    forall k | |a.history| <= k < |c.history|
      ensures CountsAs(c.history[k].steps, steps)
    {
      if k < |b.history| {
        assert c.history[k] == b.history[k];
      }
    }
  }

  /** All that a pass stores once it gets to the loop has the counts after its retries. */
  lemma AdvanceCounts(flow: Flow, server: Server, inp: Inputs, sorted: seq<string>, firstErrorRetryable: bool)
    ensures StoresCounts(server, Advance(flow, server, inp, sorted, firstErrorRetryable).server,
                         Retried(flow, inp, server.status).steps)
  {
    var out := Advance(flow, server, inp, sorted, firstErrorRetryable);
    if !RefreshAborts(inp, server.status, firstErrorRetryable) {
      var l0 := Local(Retried(flow, inp, server.status), AfterTimeouts(flow, inp, server));
      LoopCounts(flow, inp, l0, Planned(flow, server.status, inp, sorted));
      var l := Executed(flow, server, inp, sorted).0;
      AdvanceEnds(flow, server, inp, sorted, firstErrorRetryable);
      assert StoresCounts(l.server, out.server, l.mem.steps);
      StoresCompose(server, l.server, out.server, l0.mem.steps, l.mem.steps);
    }
  }

  /** Everything that was stored in between is within the budget. */
  ghost predicate StoresWithin(flow: Flow, before: Server, after: Server)
  {
    && before.history <= after.history
    && forall k :: |before.history| <= k < |after.history| ==> WithinBudget(flow, after.history[k].steps)
  }

  lemma PassBudget(flow: Flow, s: State, inp: Inputs, ch: Choices)
    requires StepsValid(flow.spec.steps) && LegalChoices(flow, ch)
    requires StatusInv(flow, s.server.status, s.started, s.approved)
    requires BudgetFits(flow) && WithinBudget(flow, s.server.status.steps)
    ensures StoresWithin(flow, s.server, Reconcile(flow, s.server, inp, ch).server)
  {
    var st := s.server.status;
    if NotInitialized(flow, st) {
      FirstBudget(flow, s.server, inp, ch);
    } else {
      OpenGate(flow, st, s.started, s.approved);
      CountsOfGood(flow, st, s.started, s.approved);
      if Gated(flow, s.server, inp).None? && ch.sorted.Some? {
        AdvanceBudget(flow, s, inp, ch.sorted.value, ch.firstErrorRetryable);
      }
    }
  }

  lemma FirstBudget(flow: Flow, server: Server, inp: Inputs, ch: Choices)
    requires StepsValid(flow.spec.steps) && NotInitialized(flow, server.status) && BudgetFits(flow)
    ensures StoresWithin(flow, server, Reconcile(flow, server, inp, ch).server)
  {
    FreshTotal(Initialize(flow, server.status, Clock(inp, Initializing)).steps);
  }

  lemma FreshTotal(steps: seq<StepStatus>)
    requires forall k :: 0 <= k < |steps| ==> steps[k].retryCount == 0
    ensures TotalRetries(steps) == 0
  {
  }

  lemma AdvanceBudget(flow: Flow, s: State, inp: Inputs, sorted: seq<string>, firstErrorRetryable: bool)
    requires StepsValid(flow.spec.steps) && GoodStatus(flow, s.server.status, s.started, s.approved)
    requires 0 <= TotalRetries(s.server.status.steps) <= BackoffLimit(flow)
    ensures StoresWithin(flow, s.server, Advance(flow, s.server, inp, sorted, firstErrorRetryable).server)
  {
    var out := Advance(flow, s.server, inp, sorted, firstErrorRetryable);
    AdvanceCounts(flow, s.server, inp, sorted, firstErrorRetryable);
    RetriedOnce(flow, inp, s.server.status, s.started, s.approved);
    TotalGrowth(flow.spec.steps, s.server.status.steps, Retried(flow, inp, s.server.status).steps);
    forall k | |s.server.history| <= k < |out.server.history|
      ensures WithinBudget(flow, out.server.history[k].steps)
    {
      SameCounts(out.server.history[k].steps, Retried(flow, inp, s.server.status).steps);
    }
  }

  ghost predicate AllWithin(flow: Flow, server: Server)
  {
    forall k :: 0 <= k < |server.history| ==> WithinBudget(flow, server.history[k].steps)
  }

  lemma MoveBudget(flow: Flow, s: State, move: Move)
    requires StepsValid(flow.spec.steps) && LegalMove(flow, move) && Inv(flow, s)
    requires BudgetFits(flow) && AllWithin(flow, s.server)
    ensures AllWithin(flow, Apply(flow, s, move).server)
  {
    if move.Pass? {
      StoredNow(flow, s);
      PassBudget(flow, s, move.inp, move.choices);
    }
  }

  /** The total stays within the budget in every status that a run has ever stored. */
  lemma {:induction false} HistoryBudget(flow: Flow, run: seq<Move>)
    requires LegalRun(flow, run) && BudgetFits(flow)
    ensures AllWithin(flow, After(flow, run).server)
  {
    RunKeeps(flow, run);
    if |run| > 0 && StepsValid(flow.spec.steps) {
      RunSplit(flow, run);
      HistoryBudget(flow, run[..|run| - 1]);
      RunKeeps(flow, run[..|run| - 1]);
      MoveBudget(flow, After(flow, run[..|run| - 1]), run[|run| - 1]);
    } else {
      NothingCounted(flow, After(flow, run));
    }
  }

  lemma NothingCounted(flow: Flow, s: State)
    requires Inv(flow, s) && BudgetFits(flow) && (!StepsValid(flow.spec.steps) || s == INITIAL)
    ensures AllWithin(flow, s.server)
  {
    forall k | 0 <= k < |s.server.history|
      ensures WithinBudget(flow, s.server.history[k].steps)
    {
      assert StoredGood(flow, s.server.history[k], s.started, s.approved);
    }
  }

  /** The retry budget over every run: in every status ever stored no step is retried beyond its
      own limit, steps without a policy are never retried, and all retries together exceed the
      flow's backoff limit by at most one per retrying step. */
  lemma {:induction false} RetryBudget(flow: Flow, run: seq<Move>, age: nat)
    requires LegalRun(flow, run) && BudgetFits(flow) && age < |After(flow, run).server.history|
    ensures var steps := After(flow, run).server.history[age].steps;
            && WithinBudget(flow, steps)
            && |steps| <= |flow.spec.steps|
            && forall i :: 0 <= i < |steps| ==> RetriesInLimit(flow, flow.spec.steps[i], steps[i])
  {
    HistoryBudget(flow, run);
    RunKeeps(flow, run);
    var s := After(flow, run);
    var st := s.server.history[age];
    assert StoredGood(flow, st, s.started, s.approved);
    forall i | 0 <= i < |st.steps|
      ensures RetriesInLimit(flow, flow.spec.steps[i], st.steps[i])
    {
      assert StepInv(flow, flow.spec.steps[i], st.steps[i], s.started, s.approved);
    }
  }

  /** In particular in the status that is stored now. */
  lemma BudgetNow(flow: Flow, run: seq<Move>)
    requires LegalRun(flow, run) && BudgetFits(flow)
    ensures WithinBudget(flow, After(flow, run).server.status.steps)
  {
    RunKeeps(flow, run);
    HistoryBudget(flow, run);
  }

  /** The retries that the policies of the steps allow, all together. */
  function SumOfLimits(flow: Flow, specs: seq<Step>): nat
  {
    if |specs| == 0 then 0
    else SumOfLimits(flow, specs[..|specs| - 1]) + AllowedRetries(flow, specs[|specs| - 1])
  }

  lemma {:induction false} LimitsAddUp(flow: Flow, specs: seq<Step>, steps: seq<StepStatus>)
    requires |specs| == |steps| && forall i :: 0 <= i < |steps| ==> RetriesInLimit(flow, specs[i], steps[i])
    ensures TotalRetries(steps) <= SumOfLimits(flow, specs)
  {
    if |steps| > 0 {
      LimitsAddUp(flow, specs[..|specs| - 1], steps[..|steps| - 1]);
    }
  }

  /** Whatever the backoff limit is, and whether or not the gate's sum wraps: all retries together
      stay within what the policies of the steps allow. */
  lemma {:induction false} StepLimitsTotal(flow: Flow, run: seq<Move>, age: nat)
    requires LegalRun(flow, run) && age < |After(flow, run).server.history|
    ensures TotalRetries(After(flow, run).server.history[age].steps) <= SumOfLimits(flow, flow.spec.steps)
  {
    RunKeeps(flow, run);
    var s := After(flow, run);
    var st := s.server.history[age];
    assert StoredGood(flow, st, s.started, s.approved);
    if st.steps != [] {
      forall i | 0 <= i < |st.steps|
        ensures RetriesInLimit(flow, flow.spec.steps[i], st.steps[i])
      {
        assert StepInv(flow, flow.spec.steps[i], st.steps[i], s.started, s.approved);
      }
      LimitsAddUp(flow, flow.spec.steps, st.steps);
    }
  }

  // Closed gates.

  function LowerClock(run: seq<Move>): int
  {
    if |run| == 0 then 0
    else
      var t := LowerClock(run[..|run| - 1]);
      var last := run[|run| - 1];
      if !last.Environment? && last.inp.now < t then last.inp.now else t
  }

  lemma {:induction false} LowerClockBounds(run: seq<Move>)
    ensures ClockAtLeast(run, LowerClock(run))
  {
    if |run| > 0 {
      var front := run[..|run| - 1];
      LowerClockBounds(front);
      forall i | 0 <= i < |run| && !run[i].Environment?
        ensures run[i].inp.now >= LowerClock(run)
      {
        if i < |front| {
          assert front[i] == run[i];
        }
      }
    }
  }

  /** Once the stored retries exceed the backoff limit, the stored step statuses never change
      again and the flow fails, whatever the clock does. */
  lemma {:induction false} BackoffLimitAbsorbs(flow: Flow, before: seq<Move>, later: seq<Move>)
    requires LegalRun(flow, before + later) && BudgetFits(flow)
    requires TotalRetries(After(flow, before).server.status.steps) > BackoffLimit(flow)
    ensures FrozenStatus(After(flow, before).server.status, After(flow, before + later).server.status)
    ensures Recorded(flow, later) ==> After(flow, before + later).server.status.phase == FlowFailed
  {
    LowerClockBounds(later);
    BackoffHalts(flow, before, later);
    HaltedForever(flow, before, later, LowerClock(later));
  }

  /** And no step starts and no Job is created, if outdated passes read flows past the limit
      too. */
  lemma {:induction false} BackoffLimitStops(flow: Flow, before: seq<Move>, later: seq<Move>)
    requires LegalRun(flow, before + later) && BudgetFits(flow)
    requires TotalRetries(After(flow, before).server.status.steps) > BackoffLimit(flow)
    requires StaleStopped(flow, before, later, LowerClock(later))
    ensures Frozen(After(flow, before), After(flow, before + later))
  {
    LowerClockBounds(later);
    BackoffHalts(flow, before, later);
    NothingStartsBehindGate(flow, before, later, LowerClock(later));
  }

  lemma BackoffHalts(flow: Flow, before: seq<Move>, later: seq<Move>)
    requires LegalRun(flow, before + later) && BudgetFits(flow)
    requires TotalRetries(After(flow, before).server.status.steps) > BackoffLimit(flow)
    ensures forall t :: Halts(flow, After(flow, before).server.status, t)
  {
    assert LegalRun(flow, before) by {
      assert forall i :: 0 <= i < |before| ==> (before + later)[i] == before[i];
    }
    BudgetNow(flow, before);
    RunKeeps(flow, before);
    var s := After(flow, before);
    StoredNow(flow, s);
    if StepsValid(flow.spec.steps) {
      OpenGate(flow, s.server.status, s.started, s.approved);
    }
  }

  /** Once the active deadline has passed, and the clock does not go back behind that moment,
      nothing starts, no Job is created, step statuses stay as they are, and the flow is
      marked Failed by the first pass that gets to write. Outdated passes are stopped by the
      same deadline, because a flow never gets another start time. */
  lemma {:induction false} DeadlineAbsorbs(flow: Flow, before: seq<Move>, later: seq<Move>, t: int)
    requires LegalRun(flow, before + later) && ClockAtLeast(later, t)
    requires DeadlineExceeded(flow, After(flow, before).server.status, t)
    ensures Frozen(After(flow, before), After(flow, before + later))
    ensures Recorded(flow, later) ==> After(flow, before + later).server.status.phase == FlowFailed
    ensures DeadlineExceeded(flow, After(flow, before + later).server.status, t)
  {
    HaltedForever(flow, before, later, t);
    forall k | 0 <= k < |later|
      ensures StaleHalts(flow, After(flow, before + later[..k]), later[k], t)
    {
      DeadlineBefore(flow, before, later, t, k);
    }
    NothingStartsBehindGate(flow, before, later, t);
  }

  lemma DeadlineBefore(flow: Flow, before: seq<Move>, later: seq<Move>, t: int, k: nat)
    requires LegalRun(flow, before + later) && ClockAtLeast(later, t) && k < |later|
    requires DeadlineExceeded(flow, After(flow, before).server.status, t)
    ensures StaleHalts(flow, After(flow, before + later[..k]), later[k], t)
  {
    var front := later[..k];
    assert forall i :: 0 <= i < |front| ==> front[i] == later[i];
    assert forall i :: 0 <= i < |before + front| ==> (before + front)[i] == (before + later)[i];
    HaltedForever(flow, before, front, t);
    RunKeeps(flow, before + front);
    StaleDeadline(flow, After(flow, before + front), later[k], t);
  }

  /** A flow has one deadline only. */
  lemma StaleDeadline(flow: Flow, s: State, move: Move, t: int)
    requires Inv(flow, s) && DeadlineExceeded(flow, s.server.status, t)
    ensures StaleHalts(flow, s, move, t)
  {
    if move.StalePass? && StepsValid(flow.spec.steps) {
      OutdatedGood(flow, s, move.age);
      assert StartsAt(Seen(s, move).status, s.server.status.startTime);
      if NotInitialized(flow, Seen(s, move).status) {
        assert TotalRetries32(Seen(s, move).status.steps) == 0;
      }
    }
  }

  /** The deadline that is enforced is the one that is configured if and only if the seconds
      fit an int64 of nanoseconds; beyond that it wraps. */
  lemma DeadlineExactIff(flow: Flow, st: Status, seconds: int, start: int)
    requires flow.spec.activeDeadlineSeconds == Some(seconds) && st.startTime == Some(start)
    ensures (forall now :: DeadlineExceeded(flow, st, now) <==> now - start > seconds * 1_000_000_000)
            <==> -9223372036 <= seconds <= 9223372036
  {
    SecondsExactIff(seconds);
    var a, b := SecondsToDuration(seconds), seconds * SECOND;
    if a != b {
      var now := start + if a < b then a + 1 else b + 1;
      assert DeadlineExceeded(flow, st, now) != (now - start > b);
    }
  }

  /** A deadline of 9223372037 seconds, some 292 years, has passed as soon as the flow starts. */
  lemma LongDeadlineFailsAtOnce(flow: Flow, st: Status, now: int)
    requires flow.spec.activeDeadlineSeconds == Some(9223372037) && st.startTime == Some(now)
    ensures DeadlineExceeded(flow, st, now)
  {
  }

  // Retry delays.

  /** In every pass that gets past the gates, whichever stored status it reads, each retry count
      is at most the backoff limit, so with a limit of at most 11 every integer retry delay is
      exact and positive. */
  lemma {:induction false} RetryDelayExact(flow: Flow, run: seq<Move>, age: nat, inp: Inputs, i: nat,
          policy: RetryPolicy)
    requires LegalRun(flow, run) && StepsValid(flow.spec.steps) && BudgetFits(flow)
    requires age < |After(flow, run).server.history| && i < |After(flow, run).server.history[age].steps|
    requires !BackoffExceeded(flow, After(flow, run).server.history[age])
    ensures var s := BeforeRetries(flow, inp, After(flow, run).server.history[age]).steps[i];
            && 0 <= s.retryCount <= BackoffLimit(flow)
            && (BackoffLimit(flow) <= 11 && ValidateRetryPolicy(policy).None? && IntegerBranch(policy)
                && 0 < flow.config.defaultBackoffBase <= MAX_TIMEOUT
                ==> RetryDelay(flow, inp, s, policy) ==
                    IdealBackoff(policy, s.retryCount, flow.config.defaultBackoffBase) > 0)
  {
    var s := After(flow, run);
    var st := s.server.history[age];
    RunKeeps(flow, run);
    HistoryBudget(flow, run);
    assert StoredGood(flow, st, s.started, s.approved);
    CountInBudget(flow, st, s.started, s.approved, i);
    BeforeRetriesAt(flow, inp, st, i);
    if BackoffLimit(flow) <= 11 && ValidateRetryPolicy(policy).None? && IntegerBranch(policy)
       && 0 < flow.config.defaultBackoffBase <= MAX_TIMEOUT {
      DelayIsBackoff(flow, inp, BeforeRetries(flow, inp, st).steps[i], policy);
    }
  }

  lemma CountInBudget(flow: Flow, st: Status, started: set<string>, approved: set<string>, i: nat)
    requires StatusInv(flow, st, started, approved) && i < |st.steps|
    requires BudgetFits(flow) && WithinBudget(flow, st.steps) && !BackoffExceeded(flow, st)
    ensures 0 <= st.steps[i].retryCount <= BackoffLimit(flow)
  {
    OpenGate(flow, st, started, approved);
    CountsOfGood(flow, st, started, approved);
    TotalAtLeast(st.steps, i);
  }

  lemma DelayIsBackoff(flow: Flow, inp: Inputs, s: StepStatus, policy: RetryPolicy)
    requires 0 <= s.retryCount <= 11 && ValidateRetryPolicy(policy).None? && IntegerBranch(policy)
    requires 0 < flow.config.defaultBackoffBase <= MAX_TIMEOUT
    ensures RetryDelay(flow, inp, s, policy) == IdealBackoff(policy, s.retryCount, flow.config.defaultBackoffBase) > 0
  {
    BackoffExact(policy, s.retryCount, flow.config.defaultBackoffBase,
                 if s.name in inp.exponential then inp.exponential[s.name] else 0);
  }

  // Progress.

  lemma {:induction false} CountsSound(steps: seq<StepStatus>)
    ensures CountPhase(steps, StepSucceeded) + CountPhase(steps, StepFailed) <= |steps|
    ensures CountPhase(steps, StepSucceeded) + CountPhase(steps, StepFailed) == |steps| <==> AllComplete(steps)
    ensures CountPhase(steps, StepFailed) > 0 <==> AnyFailed(steps)
  {
    if |steps| > 0 {
      var front := steps[..|steps| - 1];
      CountsSound(front);
      if AllComplete(front) && steps[|steps| - 1].phase in {StepSucceeded, StepFailed} {
        assert forall i :: 0 <= i < |steps| - 1 ==> front[i] == steps[i];
      }
      if AllComplete(steps) {
        assert forall i :: 0 <= i < |front| ==> front[i] == steps[i];
        assert steps[|steps| - 1].phase in {StepSucceeded, StepFailed};
      }
      if AnyFailed(front) {
        var i :| 0 <= i < |front| && front[i].phase == StepFailed;
        assert steps[i].phase == StepFailed;
      }
      if AnyFailed(steps) {
        var i :| 0 <= i < |steps| && steps[i].phase == StepFailed;
        assert i < |front| ==> front[i].phase == StepFailed;
      }
    }
  }

  /** The pass reaches the status update at its end. */
  ghost predicate FullPass(flow: Flow, server: Server, inp: Inputs, ch: Choices)
  {
    && StepsValid(flow.spec.steps) && !inp.concurrencyError
    && !DeadlineExceeded(flow, server.status, inp.now) && !BackoffExceeded(flow, server.status)
    && HasInitialized(server.status) && ch.sorted.Some?
    && !RefreshAborts(inp, server.status, ch.firstErrorRetryable)
    && !Executed(flow, server, inp, ch.sorted.value).1
  }

  /** What the counters of a status say about its steps and its phase. */
  ghost predicate ProgressAdds(st: Status)
  {
    && st.progress.Some?
    && var p := st.progress.value;
       && p.total == |st.steps|
       && p.successful == CountPhase(st.steps, StepSucceeded)
       && p.failed == CountPhase(st.steps, StepFailed)
       && p.completed == p.successful + p.failed <= p.total
       && (p.completed == p.total ==> st.phase == (if p.failed == 0 then FlowSucceeded else FlowFailed))
  }

  /** Progress is conserved: after every full pass of every run the counters add up, and once
      every step is complete they decide the flow's phase. */
  lemma {:induction false} ProgressConserved(flow: Flow, run: seq<Move>, inp: Inputs, ch: Choices)
    requires LegalRun(flow, run) && LegalChoices(flow, ch)
    requires FullPass(flow, After(flow, run).server, inp, ch)
    ensures var out := Reconcile(flow, After(flow, run).server, inp, ch);
            && ProgressAdds(out.mem) && |out.mem.steps| == |flow.spec.steps|
            && (inp.lastWrite.None? ==> out.server.status == out.mem)
  {
    var server := After(flow, run).server;
    ExecutedTotal(flow, run, inp, ch);
    FullPassResult(flow, server, inp, ch);
    UpdateAdds(Executed(flow, server, inp, ch.sorted.value).0.mem, Clock(inp, Ending));
  }

  /** The status that the pass updates has an entry for each step and counts that many. */
  lemma ExecutedTotal(flow: Flow, run: seq<Move>, inp: Inputs, ch: Choices)
    requires LegalRun(flow, run) && LegalChoices(flow, ch)
    requires FullPass(flow, After(flow, run).server, inp, ch)
    ensures var mem := Executed(flow, After(flow, run).server, inp, ch.sorted.value).0.mem;
            |mem.steps| == |flow.spec.steps| && mem.progress.Some? && mem.progress.value.total == |mem.steps|
  {
    RunKeeps(flow, run);
    var s := After(flow, run);
    var approved := s.approved + ApprovedNames(flow, inp);
    GoodStepsGrow(flow, s.server.status.steps, s.started, s.approved, s.started, approved);
    ExecutedGood(flow, s.server, inp, ch.sorted.value, s.started, approved);
  }

  lemma FullPassResult(flow: Flow, server: Server, inp: Inputs, ch: Choices)
    requires FullPass(flow, server, inp, ch)
    ensures var l := Executed(flow, server, inp, ch.sorted.value).0;
            var out := Reconcile(flow, server, inp, ch);
            out.mem == UpdateStatus(l.mem, Clock(inp, Ending)) &&
                out.server == WriteStatus(l.server, out.mem, inp.lastWrite)
  {
  }

  lemma UpdateAdds(st: Status, now: int)
    requires st.progress.Some? && st.progress.value.total == |st.steps|
    ensures ProgressAdds(UpdateStatus(st, now))
  {
    CountsSound(st.steps);
  }
}
