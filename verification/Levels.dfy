/** Exact level-by-level scheduling of a flow that meets no obstacle. */
module Levels {
  import opened Types
  import opened Digraph
  import opened Dag
  import opened Validation
  import opened Transition
  import opened Planning
  import opened Invariant
  import opened Runs

  /** An accepted acyclic flow without manual steps, empty dependency names, conditions,
      timeouts or a deadline. */
  ghost predicate PlainFlow(flow: Flow)
  {
    && StepsValid(flow.spec.steps) && !HasCycle(Edges(flow))
    && flow.spec.activeDeadlineSeconds.None? && BackoffLimit(flow) >= 0
    && (forall i :: 0 <= i < |flow.spec.steps| ==> PlainStep(flow.spec.steps[i]))
  }

  predicate PlainStep(s: Step)
  {
    !IsManual(s) && s.when == "" && s.timeoutSeconds.None? && "" !in s.dependencies
  }

  /** A pass in which no request fails and every lookup shows the Job as it is. */
  ghost predicate SmoothInputs(flow: Flow, server: Server, inp: Inputs)
  {
    && !inp.concurrencyError && inp.createFaults == map[] && inp.lastWrite.None?
    && (forall n :: n in Names(flow.spec.steps) ==>
          LookupJob(inp, JobName(flow, n)) ==
            if JobName(flow, n) in server.jobs then Found(server.jobs[JobName(flow, n)]) else NotFound)
  }

  /** Between two passes every Job that was created succeeds; other Jobs may come and go. */
  ghost predicate JobsSucceed(flow: Flow, before: Server, after: Server)
  {
    && after == before.(jobs := after.jobs)
    && (forall n :: n in Names(flow.spec.steps) ==>
          && (JobName(flow, n) in after.jobs <==> JobName(flow, n) in before.jobs)
          && (JobName(flow, n) in after.jobs ==> after.jobs[JobName(flow, n)].succeeded > 0))
  }

  /** servers[j] is what the j-th pass after initialisation finds. */
  ghost predicate SmoothRun(flow: Flow, servers: seq<Server>, inputs: seq<Inputs>, choices: seq<Choices>)
  {
    && |servers| == |inputs| + 1 == |choices| + 1
    && (exists now :: servers[0].status == Initialize(flow, BLANK, now)) && servers[0].created == {}
    && servers[0].history == [BLANK, servers[0].status]
    && (forall n :: n in Names(flow.spec.steps) ==> JobName(flow, n) !in servers[0].jobs)
    && (forall j {:trigger choices[j]} :: 0 <= j < |inputs| ==>
        SmoothPass(flow, servers[j], inputs[j], choices[j], servers[j + 1]))
  }

  ghost predicate SmoothPass(flow: Flow, server: Server, inp: Inputs, ch: Choices, next: Server)
  {
    && SmoothInputs(flow, server, inp) && LegalChoices(flow, ch)
    && JobsSucceed(flow, Reconcile(flow, server, inp, ch).server, next)
  }

  /** n lies on level k: its longest dependency chain has exactly k edges. */
  ghost predicate OnLevel(flow: Flow, n: string, k: nat)
  {
    Chain(Edges(flow), n, k) && !Chain(Edges(flow), n, k + 1)
  }

  /** The waiting steps with a waiting dependency. */
  function Blocked(flow: Flow, waiting: set<string>): set<string>
  {
    set n | n in waiting && exists d :: d in Succ(Edges(flow), n) && d in waiting
  }

  /** The steps that wait before pass j. */
  function Waiting(flow: Flow, j: nat): set<string>
  {
    if j == 0 then Names(flow.spec.steps) else Blocked(flow, Waiting(flow, j - 1))
  }

  /** They are the steps with a dependency chain of j edges. */
  lemma {:induction false} WaitingChains(flow: Flow, j: nat, n: string)
    requires StepsValid(flow.spec.steps) && (forall i :: 0 <= i < |flow.spec.steps| ==> PlainStep(flow.spec.steps[i]))
    ensures n in Waiting(flow, j) <==> n in Names(flow.spec.steps) && Chain(Edges(flow), n, j)
  {
    if j > 0 {
      var i := j - 1;
      WaitingChains(flow, i, n);
      forall d | d in Succ(Edges(flow), n)
        ensures d in Waiting(flow, i) <==> Chain(Edges(flow), d, i)
      {
        DependencyIsStep(flow, n, d);
        WaitingChains(flow, i, d);
      }
      ChainStep(Edges(flow), n, i);
      BlockedIff(flow, Waiting(flow, i), n);
      WaitingNext(flow, i, j);
    }
  }

  lemma BlockedIff(flow: Flow, waiting: set<string>, n: string)
    ensures n in Blocked(flow, waiting) <==> n in waiting && exists d :: d in Succ(Edges(flow), n) && d in waiting
  {
  }

  /** One more edge, spelled out. */
  lemma ChainStep(g: Digraph.Graph, n: string, k: nat)
    ensures Chain(g, n, k + 1) <==> exists d :: d in Succ(g, n) && Chain(g, d, k)
    ensures Chain(g, n, k + 1) ==> Chain(g, n, k)
  {
    if Chain(g, n, k + 1) {
      ChainShorter(g, n, k);
    }
  }

  lemma DependencyIsStep(flow: Flow, n: string, d: string)
    requires StepsValid(flow.spec.steps) && (forall i :: 0 <= i < |flow.spec.steps| ==> PlainStep(flow.spec.steps[i]))
    requires d in Succ(Edges(flow), n)
    ensures d in Names(flow.spec.steps)
  {
    var i := StepOfEdge(flow, n);
    assert flow.spec.steps[i] == StepMap(flow.spec.steps)[n];
    assert StepSound(flow.spec.steps, i) && PlainStep(flow.spec.steps[i]);
    var m :| 0 <= m < |flow.spec.steps[i].dependencies| && flow.spec.steps[i].dependencies[m] == d;
    assert KnownDependency(flow.spec.steps, flow.spec.steps[i].dependencies[m]);
    var k :| 0 <= k < |flow.spec.steps| && flow.spec.steps[k].name == d;
    assert flow.spec.steps[k] in flow.spec.steps;
  }

  lemma StepOfEdge(flow: Flow, n: string) returns (i: nat)
    requires n in Edges(flow)
    ensures i < |flow.spec.steps| && flow.spec.steps[i].name == n && flow.spec.steps[i] == StepMap(flow.spec.steps)[n]
  {
    i := StepMapEntry(flow.spec.steps, n);
  }

  lemma EdgesAreNames(flow: Flow)
    ensures Edges(flow).Keys == Names(flow.spec.steps)
  {
    forall n | n in Names(flow.spec.steps)
      ensures n in Edges(flow)
    {
      var i :| 0 <= i < |flow.spec.steps| && flow.spec.steps[i].name == n;
      StepMapHas(flow.spec.steps, i);
    }
    forall n | n in Edges(flow)
      ensures n in Names(flow.spec.steps)
    {
      var i := StepOfEdge(flow, n);
    }
  }

  // The invariant, in terms of the steps that wait now and those that waited one pass ago.

  ghost predicate EntryAt(flow: Flow, waited: set<string>, waiting: set<string>, s: StepStatus)
  {
    if s.name in waiting then s == FreshStep(s.name)
    else
      && s.jobRef == Some(JobName(flow, s.name)) && s.startTime.Some? && s.retryCount == 0
      && s.phase == if s.name in waited then StepRunning else StepSucceeded
  }

  ghost predicate Aligned(flow: Flow, steps: seq<StepStatus>)
  {
    && |steps| == |flow.spec.steps|
    && forall i :: 0 <= i < |steps| ==> steps[i].name == flow.spec.steps[i].name
  }

  ghost predicate LevelStatus(flow: Flow, first: bool, waited: set<string>, waiting: set<string>, st: Status)
  {
    && Aligned(flow, st.steps)
    && st.phase == (if first then FlowPending else if waited == {} then FlowSucceeded else FlowRunning)
    && (forall i :: 0 <= i < |st.steps| ==> EntryAt(flow, waited, waiting, st.steps[i]))
  }

  /** The steps that no longer wait have Jobs, which have succeeded. */
  ghost predicate LevelJobs(flow: Flow, waiting: set<string>, server: Server)
  {
    && server.created == Names(flow.spec.steps) - waiting
    && forall n :: n in Names(flow.spec.steps) ==> JobOfLevel(flow, waiting, server, n)
  }

  ghost predicate JobOfLevel(flow: Flow, waiting: set<string>, server: Server, n: string)
  {
    && (JobName(flow, n) in server.jobs <==> n !in waiting)
    && (n !in waiting ==> server.jobs[JobName(flow, n)].succeeded > 0)
  }

  ghost predicate LevelInv(flow: Flow, first: bool, waited: set<string>, waiting: set<string>, server: Server)
  {
    && waiting <= waited <= Names(flow.spec.steps) && (first ==> waiting == Names(flow.spec.steps))
    && LevelStatus(flow, first, waited, waiting, server.status)
    && LevelJobs(flow, waiting, server)
  }

  lemma AlignedUnique(flow: Flow, steps: seq<StepStatus>)
    requires StepsValid(flow.spec.steps) && Aligned(flow, steps)
    ensures UniqueEntries(steps) && UniqueNames(flow.spec.steps)
  {
    ValidNamesUnique(flow.spec.steps);
  }

  lemma AlignedName(flow: Flow, steps: seq<StepStatus>, i: nat)
    requires Aligned(flow, steps) && i < |steps|
    ensures steps[i].name in Names(flow.spec.steps)
  {
    assert flow.spec.steps[i] in flow.spec.steps;
  }

  // One pass.

  /** What the refresh makes of an entry: everything that was started has succeeded. */
  ghost predicate RefreshedAt(flow: Flow, waiting: set<string>, before: StepStatus, s: StepStatus)
  {
    && s.name == before.name && s.retryCount == 0
    && if s.name in waiting then s == FreshStep(s.name)
       else s.phase == StepSucceeded && s.jobRef == Some(JobName(flow, s.name)) && s.startTime.Some?
  }

  ghost predicate AllRefreshed(flow: Flow, waiting: set<string>, steps: seq<StepStatus>)
  {
    && Aligned(flow, steps)
    && forall i :: 0 <= i < |steps| ==> RefreshedAt(flow, waiting, steps[i], steps[i])
  }

  lemma RefreshEntry(flow: Flow, inp: Inputs, server: Server, waited: set<string>, waiting: set<string>, s: StepStatus)
    requires EntryAt(flow, waited, waiting, s) && s.name in Names(flow.spec.steps) && SmoothInputs(flow, server, inp)
    requires s.name !in waiting ==>
               JobName(flow, s.name) in server.jobs && server.jobs[JobName(flow, s.name)].succeeded > 0
    ensures RefreshedAt(flow, waiting, s, RefreshStep(inp, s))
    ensures ApproveStep(inp, s) == s && s.phase != StepPendingApproval
    ensures s.jobRef.Some? ==> !LookupJob(inp, s.jobRef.value).LookupFailed?
  {
  }

  lemma RefreshLevel(flow: Flow, first: bool, waited: set<string>, waiting: set<string>, server: Server, inp: Inputs)
    requires LevelInv(flow, first, waited, waiting, server) && SmoothInputs(flow, server, inp)
    ensures AllRefreshed(flow, waiting, Refreshed(inp, server.status).steps)
    ensures Refreshed(inp, server.status).phase == server.status.phase
    ensures !RefreshFails(inp, ManualApprovals(inp, server.status).steps)
  {
    var steps := server.status.steps;
    forall i | 0 <= i < |steps|
      ensures RefreshedAt(flow, waiting, steps[i], RefreshStep(inp, steps[i]))
      ensures ApproveStep(inp, steps[i]) == steps[i] && steps[i].phase != StepPendingApproval
      ensures steps[i].jobRef.Some? ==> !LookupJob(inp, steps[i].jobRef.value).LookupFailed?
    {
      AlignedName(flow, steps, i);
      RefreshEntry(flow, inp, server, waited, waiting, steps[i]);
    }
    assert ManualApprovals(inp, server.status).steps == steps;
  }

  /** The plan of a pass: the waiting steps that are not blocked. */
  lemma PlanIsLevel(flow: Flow, sorted: seq<string>, waiting: set<string>, steps: seq<StepStatus>,
          whenTrue: set<string>, n: string)
    requires PlainFlow(flow) && TopologicalOrder(Edges(flow), sorted) && AllRefreshed(flow, waiting, steps)
    requires waiting <= Names(flow.spec.steps)
    ensures n in Plan(StepMap(flow.spec.steps), sorted, steps, whenTrue) <==> n in waiting - Blocked(flow, waiting)
  {
    var graph := StepMap(flow.spec.steps);
    AlignedUnique(flow, steps);
    var where := PlanExact(graph, sorted, steps, whenTrue);
    EdgesAreNames(flow);
    if n in graph {
      var i := StepOfEdge(flow, n);
      StatusIndexAt(steps, i);
      assert RefreshedAt(flow, waiting, steps[i], steps[i]);
      assert PlainStep(flow.spec.steps[i]);
      assert StillPending(steps, n) <==> n in waiting;
      forall d | d in graph[n].dependencies
        ensures Completed(graph, sorted, steps, d) <==> d !in waiting
      {
        assert d in Succ(Edges(flow), n);
        DependencyIsStep(flow, n, d);
        CompletedIsDone(flow, sorted, waiting, steps, d);
      }
      assert Succ(Edges(flow), n) == graph[n].dependencies;
    }
  }

  lemma CompletedIsDone(flow: Flow, sorted: seq<string>, waiting: set<string>, steps: seq<StepStatus>, d: string)
    requires AllRefreshed(flow, waiting, steps) && d in Names(flow.spec.steps)
    ensures Completed(StepMap(flow.spec.steps), sorted, steps, d) <==> d !in waiting
  {
    var k :| 0 <= k < |flow.spec.steps| && flow.spec.steps[k].name == d;
    assert RefreshedAt(flow, waiting, steps[k], steps[k]);
    if Completed(StepMap(flow.spec.steps), sorted, steps, d) {
      var c :| 0 <= c < |steps| && steps[c].name == d && steps[c].phase in {StepSucceeded, StepFailed};
      assert RefreshedAt(flow, waiting, steps[c], steps[c]);
    }
  }

  /** Timeouts and retries leave pending and succeeded entries alone. */
  lemma NothingToRetry(flow: Flow, inp: Inputs, st: Status)
    requires forall i :: 0 <= i < |st.steps| ==> st.steps[i].phase in {StepPending, StepSucceeded}
    ensures Retries(flow, inp, Timeouts(flow, inp, st)) == st
    ensures TimedOutJobs(flow, inp, st.steps) == {}
  {
    assert forall i :: 0 <= i < |st.steps| ==> !TimedOut(flow, inp, st.steps[i]);
    assert Timeouts(flow, inp, st) == st;
    assert forall i :: 0 <= i < |st.steps| ==> RetryStep(flow, inp, st.steps[i]) == st.steps[i];
  }

  lemma StagesOfLevel(flow: Flow, waiting: set<string>, server: Server, inp: Inputs)
    requires AllRefreshed(flow, waiting, Refreshed(inp, server.status).steps)
    ensures Retried(flow, inp, server.status) == Refreshed(inp, server.status)
    ensures AfterTimeouts(flow, inp, server) == server
  {
    var steps := Refreshed(inp, server.status).steps;
    forall i | 0 <= i < |steps|
      ensures steps[i].phase in {StepPending, StepSucceeded}
    {
      assert RefreshedAt(flow, waiting, steps[i], steps[i]);
    }
    NothingToRetry(flow, inp, Refreshed(inp, server.status));
    assert AfterTimeouts(flow, inp, server).jobs == server.jobs;
  }

  // Running the level.

  function Launched(flow: Flow, inp: Inputs, s: StepStatus): StepStatus
  {
    s.(phase := StepRunning, startTime := Some(Clock(inp, Starting(s.name))), jobRef := Some(JobName(flow, s.name)))
  }

  /** Distinct fresh entries of steps that are not manual and have no Job yet. */
  ghost predicate Launchable(flow: Flow, l: Local, ready: seq<string>)
  {
    && Aligned(flow, l.mem.steps) && Distinct(ready)
    && (forall n :: n in ready ==>
          && JobName(flow, n) !in l.server.jobs
          && exists i :: 0 <= i < |l.mem.steps| && l.mem.steps[i] == FreshStep(n) && !IsManual(flow.spec.steps[i]))
  }

  ghost predicate LaunchedAll(flow: Flow, inp: Inputs, l: Local, l': Local, ready: seq<string>)
  {
    && |l'.mem.steps| == |l.mem.steps|
    && (forall i :: 0 <= i < |l.mem.steps| ==>
          l'.mem.steps[i] == if l.mem.steps[i].name in ready then Launched(flow, inp, l.mem.steps[i])
              else l.mem.steps[i])
    && l'.mem.phase == l.mem.phase
    && l'.server.status == l.server.status
    && l'.server.created == l.server.created + Elems(ready)
    && (forall n :: JobName(flow, n) in l'.server.jobs <==> JobName(flow, n) in l.server.jobs || n in ready)
    && (forall n :: JobName(flow, n) in l.server.jobs && n !in ready ==>
          JobName(flow, n) in l'.server.jobs && l'.server.jobs[JobName(flow, n)] == l.server.jobs[JobName(flow, n)])
  }

  lemma LaunchOne(flow: Flow, inp: Inputs, l: Local, ready: seq<string>)
    requires StepsValid(flow.spec.steps) && Launchable(flow, l, ready) && |ready| > 0
    requires inp.createFaults == map[]
    ensures !ExecuteTurn(flow, inp, l, ready[0]).1
    ensures LaunchedAll(flow, inp, l, ExecuteTurn(flow, inp, l, ready[0]).0, [ready[0]])
  {
    var n := ready[0];
    assert n in ready;
    var i :| 0 <= i < |l.mem.steps| && l.mem.steps[i] == FreshStep(n) && !IsManual(flow.spec.steps[i]);
    AlignedUnique(flow, l.mem.steps);
    StatusIndexAt(l.mem.steps, i);
    FindStepAt(flow.spec.steps, i);
    assert ExecuteStep(flow, inp, l, n) == CreateJob(flow, inp, l, i);
    CreatedIsLaunched(flow, inp, l, i, n);
  }

  lemma CreatedIsLaunched(flow: Flow, inp: Inputs, l: Local, i: nat, n: string)
    requires i < |l.mem.steps| && l.mem.steps[i] == FreshStep(n) && UniqueEntries(l.mem.steps)
    requires JobName(flow, n) !in l.server.jobs && inp.createFaults == map[]
    ensures CreateJob(flow, inp, l, i).1.None?
    ensures LaunchedAll(flow, inp, l, CreateJob(flow, inp, l, i).0, [n])
  {
    var l' := CreateJob(flow, inp, l, i).0;
    forall m | JobName(flow, m) == JobName(flow, n)
      ensures m == n
    {
      JobNameInjective(flow, m, n);
    }
    assert l'.server.jobs == l.server.jobs[JobName(flow, n) := Job(0, 0)];
  }

  lemma LaunchableRest(flow: Flow, inp: Inputs, l: Local, l1: Local, ready: seq<string>)
    requires StepsValid(flow.spec.steps) && Launchable(flow, l, ready) && |ready| > 0
    requires LaunchedAll(flow, inp, l, l1, [ready[0]])
    ensures Launchable(flow, l1, ready[1..])
  {
    var rest := ready[1..];
    forall n | n in rest
      ensures JobName(flow, n) !in l1.server.jobs
      ensures exists i :: 0 <= i < |l1.mem.steps| && l1.mem.steps[i] == FreshStep(n) && !IsManual(flow.spec.steps[i])
    {
      var m :| 0 <= m < |rest| && rest[m] == n;
      assert ready[m + 1] == n && ready[m + 1] in ready && n != ready[0];
      var i :| 0 <= i < |l.mem.steps| && l.mem.steps[i] == FreshStep(n) && !IsManual(flow.spec.steps[i]);
      assert l1.mem.steps[i] == FreshStep(n);
    }
  }

  lemma LaunchedCompose(flow: Flow, inp: Inputs, l: Local, l1: Local, l2: Local, ready: seq<string>)
    requires |ready| > 0 && Distinct(ready)
    requires LaunchedAll(flow, inp, l, l1, [ready[0]]) && LaunchedAll(flow, inp, l1, l2, ready[1..])
    ensures LaunchedAll(flow, inp, l, l2, ready)
  {
    assert ready == [ready[0]] + ready[1..];
    assert ready[0] !in ready[1..];
    assert forall n :: n in ready <==> n == ready[0] || n in ready[1..];
    forall i | 0 <= i < |l.mem.steps|
      ensures l2.mem.steps[i] == if l.mem.steps[i].name in ready then Launched(flow, inp, l.mem.steps[i])
              else l.mem.steps[i]
    {
      assert l1.mem.steps[i].name == l.mem.steps[i].name;
    }
  }

  /** Without faults every step of the list gets its Job. */
  lemma {:induction false} LaunchLevel(flow: Flow, inp: Inputs, l: Local, ready: seq<string>)
    requires StepsValid(flow.spec.steps) && Launchable(flow, l, ready)
    requires inp.createFaults == map[]
    ensures !RunReady(flow, inp, l, ready).1
    ensures LaunchedAll(flow, inp, l, RunReady(flow, inp, l, ready).0, ready)
    decreases |ready|
  {
    if |ready| > 0 {
      var l1 := ExecuteTurn(flow, inp, l, ready[0]).0;
      LaunchOne(flow, inp, l, ready);
      LaunchableRest(flow, inp, l, l1, ready);
      LaunchLevel(flow, inp, l1, ready[1..]);
      LaunchedCompose(flow, inp, l, l1, RunReady(flow, inp, l1, ready[1..]).0, ready);
    }
  }

  // The pass as a whole.

  lemma NoRetries(steps: seq<StepStatus>)
    requires forall i :: 0 <= i < |steps| ==> steps[i].retryCount == 0
    ensures TotalRetries32(steps) == 0
  {
  }

  /** The gates are open: nothing was retried and there is no deadline. */
  lemma GatesOpenAt(flow: Flow, first: bool, waited: set<string>, waiting: set<string>, server: Server, inp: Inputs,
          ch: Choices)
    requires PlainFlow(flow) && LevelInv(flow, first, waited, waiting, server) && !inp.concurrencyError &&
             LegalChoices(flow, ch)
    ensures ch.sorted.Some? && TopologicalOrder(Edges(flow), ch.sorted.value)
    ensures Reconcile(flow, server, inp, ch) == Advance(flow, server, inp, ch.sorted.value, ch.firstErrorRetryable)
  {
    forall i | 0 <= i < |server.status.steps|
      ensures server.status.steps[i].retryCount == 0
    {
      assert EntryAt(flow, waited, waiting, server.status.steps[i]);
    }
    NoRetries(server.status.steps);
  }

  /** What the execution loop of the pass starts from. */
  lemma LevelLaunchable(flow: Flow, waiting: set<string>, server: Server, inp: Inputs, sorted: seq<string>)
    requires PlainFlow(flow) && TopologicalOrder(Edges(flow), sorted) && waiting <= Names(flow.spec.steps)
    requires AllRefreshed(flow, waiting, Refreshed(inp, server.status).steps)
    requires forall n :: n in waiting ==> JobName(flow, n) !in server.jobs
    ensures Elems(Planned(flow, server.status, inp, sorted)) == waiting - Blocked(flow, waiting)
    ensures Launchable(flow, Local(Refreshed(inp, server.status), server), Planned(flow, server.status, inp, sorted))
  {
    var steps := Refreshed(inp, server.status).steps;
    var ready := Planned(flow, server.status, inp, sorted);
    PlanDistinct(StepMap(flow.spec.steps), sorted, steps, inp.whenTrue);
    forall n
      ensures n in ready <==> n in waiting - Blocked(flow, waiting)
    {
      PlanIsLevel(flow, sorted, waiting, steps, inp.whenTrue, n);
    }
    EdgesAreNames(flow);
    forall n | n in ready
      ensures exists i :: 0 <= i < |steps| && steps[i] == FreshStep(n) && !IsManual(flow.spec.steps[i])
    {
      var i := StepOfEdge(flow, n);
      assert RefreshedAt(flow, waiting, steps[i], steps[i]) && PlainStep(flow.spec.steps[i]);
    }
  }

  /** The outcome of the pass: the unblocked steps have been launched, then the status has been
      updated and written. */
  lemma LevelOutcome(flow: Flow, first: bool, waited: set<string>, waiting: set<string>, server: Server, inp: Inputs,
          ch: Choices)
    returns (l: Local, ready: seq<string>)
    requires PlainFlow(flow) && LevelInv(flow, first, waited, waiting, server)
    requires SmoothInputs(flow, server, inp) && LegalChoices(flow, ch)
    ensures AllRefreshed(flow, waiting, Refreshed(inp, server.status).steps)
    ensures Refreshed(inp, server.status).phase == server.status.phase
    ensures LaunchedAll(flow, inp, Local(Refreshed(inp, server.status), server), l, ready)
    ensures Elems(ready) == waiting - Blocked(flow, waiting)
    ensures Reconcile(flow, server, inp, ch).server ==
            WriteStatus(l.server, UpdateStatus(l.mem, Clock(inp, Ending)), None)
  {
    GatesOpenAt(flow, first, waited, waiting, server, inp, ch);
    RefreshLevel(flow, first, waited, waiting, server, inp);
    StagesOfLevel(flow, waiting, server, inp);
    LevelLaunchable(flow, waiting, server, inp, ch.sorted.value);
    ready := Planned(flow, server.status, inp, ch.sorted.value);
    LaunchLevel(flow, inp, Local(Refreshed(inp, server.status), server), ready);
    l := Executed(flow, server, inp, ch.sorted.value).0;
    AdvanceOutcome(flow, server, inp, ch.sorted.value, ch.firstErrorRetryable);
  }

  lemma AdvanceOutcome(flow: Flow, server: Server, inp: Inputs, sorted: seq<string>, firstErrorRetryable: bool)
    requires !RefreshAborts(inp, server.status, firstErrorRetryable) && !Executed(flow, server, inp, sorted).1
    requires inp.lastWrite.None?
    ensures var l := Executed(flow, server, inp, sorted).0;
            Advance(flow, server, inp, sorted, firstErrorRetryable).server ==
                WriteStatus(l.server, UpdateStatus(l.mem, Clock(inp, Ending)), None)
  {
  }

  /** The entries after the execution loop. */
  ghost predicate LaunchedEntry(flow: Flow, waiting: set<string>, s: StepStatus)
  {
    && EntryAt(flow, waiting, Blocked(flow, waiting), s)
    && (s.phase in {StepSucceeded, StepFailed} <==> s.name !in waiting) && s.phase != StepFailed
  }

  /** The entries and the phase after the pass. */
  lemma StatusAfter(flow: Flow, waited: set<string>, waiting: set<string>, inp: Inputs, l0: Local, l: Local,
          ready: seq<string>)
    requires AllRefreshed(flow, waiting, l0.mem.steps) && LaunchedAll(flow, inp, l0, l, ready)
    requires Elems(ready) == waiting - Blocked(flow, waiting) && waiting <= waited && waiting <= Names(flow.spec.steps)
    requires l0.mem.phase in {FlowPending, FlowRunning, FlowSucceeded} &&
             (l0.mem.phase == FlowSucceeded ==> waiting == {})
    ensures LevelStatus(flow, false, waiting, Blocked(flow, waiting), UpdateStatus(l.mem, Clock(inp, Ending)))
  {
    forall i | 0 <= i < |l.mem.steps|
      ensures l.mem.steps[i].name == flow.spec.steps[i].name && LaunchedEntry(flow, waiting, l.mem.steps[i])
    {
      EntryAfter(flow, waiting, inp, l0, l, ready, i);
    }
    PhaseAfter(flow, waiting, l.mem, Clock(inp, Ending));
  }

  lemma PhaseAfter(flow: Flow, waiting: set<string>, mem: Status, now: int)
    requires Aligned(flow, mem.steps) && waiting <= Names(flow.spec.steps)
    requires forall i :: 0 <= i < |mem.steps| ==> LaunchedEntry(flow, waiting, mem.steps[i])
    requires mem.phase in {FlowPending, FlowRunning, FlowSucceeded} && (mem.phase == FlowSucceeded ==> waiting == {})
    ensures LevelStatus(flow, false, waiting, Blocked(flow, waiting), UpdateStatus(mem, now))
  {
    if waiting != {} {
      var n :| n in waiting;
      var i :| 0 <= i < |flow.spec.steps| && flow.spec.steps[i].name == n;
      assert LaunchedEntry(flow, waiting, mem.steps[i]);
      assert !AllComplete(mem.steps);
    } else {
      assert forall i :: 0 <= i < |mem.steps| ==>
             LaunchedEntry(flow, waiting, mem.steps[i]) && mem.steps[i].phase == StepSucceeded;
    }
  }

  lemma EntryAfter(flow: Flow, waiting: set<string>, inp: Inputs, l0: Local, l: Local, ready: seq<string>, i: nat)
    requires AllRefreshed(flow, waiting, l0.mem.steps) && LaunchedAll(flow, inp, l0, l, ready)
    requires Elems(ready) == waiting - Blocked(flow, waiting) && i < |l.mem.steps|
    ensures l.mem.steps[i].name == flow.spec.steps[i].name && LaunchedEntry(flow, waiting, l.mem.steps[i])
  {
    assert RefreshedAt(flow, waiting, l0.mem.steps[i], l0.mem.steps[i]);
    assert l0.mem.steps[i].name in ready <==> l0.mem.steps[i].name in Elems(ready);
  }

  /** One pass followed by the success of its Jobs moves the waiting set one level on. */
  lemma LevelPass(flow: Flow, first: bool, waited: set<string>, waiting: set<string>, server: Server, inp: Inputs,
          ch: Choices, next: Server)
    requires PlainFlow(flow) && LevelInv(flow, first, waited, waiting, server)
    requires SmoothInputs(flow, server, inp) && LegalChoices(flow, ch)
    requires JobsSucceed(flow, Reconcile(flow, server, inp, ch).server, next)
    ensures LevelInv(flow, false, waiting, Blocked(flow, waiting), next)
  {
    var l, ready := LevelOutcome(flow, first, waited, waiting, server, inp, ch);
    var l0 := Local(Refreshed(inp, server.status), server);
    StatusAfter(flow, waited, waiting, inp, l0, l, ready);
    NextLevel(flow, waiting, inp, l0, l, ready, next);
  }

  lemma NextLevel(flow: Flow, waiting: set<string>, inp: Inputs, l0: Local, l: Local, ready: seq<string>, next: Server)
    requires LaunchedAll(flow, inp, l0, l, ready) && Elems(ready) == waiting - Blocked(flow, waiting)
    requires waiting <= Names(flow.spec.steps) && LevelJobs(flow, waiting, l0.server)
    requires JobsSucceed(flow, WriteStatus(l.server, UpdateStatus(l.mem, Clock(inp, Ending)), None), next)
    requires LevelStatus(flow, false, waiting, Blocked(flow, waiting), next.status)
    ensures LevelInv(flow, false, waiting, Blocked(flow, waiting), next)
  {
    forall n | n in Names(flow.spec.steps)
      ensures JobOfLevel(flow, Blocked(flow, waiting), next, n)
    {
      NextJob(flow, waiting, inp, l0, l, ready, next, n);
    }
    NextCreated(flow, waiting, inp, l0, l, ready, next);
  }

  lemma NextCreated(flow: Flow, waiting: set<string>, inp: Inputs, l0: Local, l: Local, ready: seq<string>,
          next: Server)
    requires LaunchedAll(flow, inp, l0, l, ready) && Elems(ready) == waiting - Blocked(flow, waiting)
    requires waiting <= Names(flow.spec.steps) && l0.server.created == Names(flow.spec.steps) - waiting
    requires JobsSucceed(flow, WriteStatus(l.server, UpdateStatus(l.mem, Clock(inp, Ending)), None), next)
    ensures next.created == Names(flow.spec.steps) - Blocked(flow, waiting)
  {
  }

  lemma NextJob(flow: Flow, waiting: set<string>, inp: Inputs, l0: Local, l: Local, ready: seq<string>, next: Server,
          n: string)
    requires LaunchedAll(flow, inp, l0, l, ready) && Elems(ready) == waiting - Blocked(flow, waiting)
    requires n in Names(flow.spec.steps) && JobOfLevel(flow, waiting, l0.server, n)
    requires JobsSucceed(flow, WriteStatus(l.server, UpdateStatus(l.mem, Clock(inp, Ending)), None), next)
    ensures JobOfLevel(flow, Blocked(flow, waiting), next, n)
  {
    assert n in ready <==> n in Elems(ready);
  }

  function WaitedBefore(flow: Flow, j: nat): set<string>
  {
    if j == 0 then Names(flow.spec.steps) else Waiting(flow, j - 1)
  }

  /** The server before pass j. */
  ghost predicate LevelAt(flow: Flow, j: nat, server: Server)
  {
    LevelInv(flow, j == 0, WaitedBefore(flow, j), Waiting(flow, j), server)
  }

  lemma WaitingNext(flow: Flow, j: nat, k: nat)
    requires k == j + 1
    ensures Waiting(flow, k) == Blocked(flow, Waiting(flow, j)) && WaitedBefore(flow, k) == Waiting(flow, j)
  {
  }

  lemma LevelStep(flow: Flow, j: nat, k: nat, server: Server, inp: Inputs, ch: Choices, next: Server)
    requires PlainFlow(flow) && LevelAt(flow, j, server) && SmoothPass(flow, server, inp, ch, next)
    requires k == j + 1
    ensures LevelAt(flow, k, next)
  {
    WaitingNext(flow, j, k);
    LevelPass(flow, j == 0, WaitedBefore(flow, j), Waiting(flow, j), server, inp, ch, next);
  }

  lemma {:induction false} SmoothRunLevels(flow: Flow, servers: seq<Server>, inputs: seq<Inputs>,
          choices: seq<Choices>, j: nat)
    requires PlainFlow(flow) && SmoothRun(flow, servers, inputs, choices) && j <= |inputs|
    ensures LevelAt(flow, j, servers[j])
  {
    if j == 0 {
      FirstLevel(flow, servers[0]);
    } else {
      var i := j - 1;
      SmoothRunLevels(flow, servers, inputs, choices, i);
      LevelStep(flow, i, j, servers[i], inputs[i], choices[i], servers[i + 1]);
    }
  }

  lemma FirstLevel(flow: Flow, server: Server)
    requires StepsValid(flow.spec.steps) && (exists now :: server.status == Initialize(flow, BLANK, now)) &&
             server.created == {}
    requires forall n :: n in Names(flow.spec.steps) ==> JobName(flow, n) !in server.jobs
    ensures LevelAt(flow, 0, server)
  {
    forall i | 0 <= i < |server.status.steps|
      ensures server.status.steps[i].name in Names(flow.spec.steps)
    {
      AlignedName(flow, server.status.steps, i);
    }
  }

  /** Exact level scheduling: in a run without obstacles the j-th pass after initialisation
      creates Jobs for exactly the steps whose longest dependency chain has j edges. */
  lemma LevelByLevel(flow: Flow, servers: seq<Server>, inputs: seq<Inputs>, choices: seq<Choices>, j: nat, n: string)
    requires PlainFlow(flow) && SmoothRun(flow, servers, inputs, choices) && j < |inputs|
    ensures n in servers[j + 1].created - servers[j].created <==> n in Edges(flow) && OnLevel(flow, n, j)
    ensures n in servers[j].created ==> n in servers[j + 1].created
  {
    CreatedAt(flow, servers, inputs, choices, j);
    CreatedAt(flow, servers, inputs, choices, j + 1);
    WaitingDifference(flow, j, n);
  }

  lemma CreatedAt(flow: Flow, servers: seq<Server>, inputs: seq<Inputs>, choices: seq<Choices>, j: nat)
    requires PlainFlow(flow) && SmoothRun(flow, servers, inputs, choices) && j <= |inputs|
    ensures servers[j].created == Names(flow.spec.steps) - Waiting(flow, j)
  {
    SmoothRunLevels(flow, servers, inputs, choices, j);
  }

  lemma WaitingDifference(flow: Flow, j: nat, n: string)
    requires PlainFlow(flow)
    ensures n in Names(flow.spec.steps) && n in Waiting(flow, j) - Waiting(flow, j + 1) <==>
            n in Edges(flow) && OnLevel(flow, n, j)
    ensures n in Waiting(flow, j + 1) ==> n in Waiting(flow, j)
  {
    WaitingChains(flow, j, n);
    WaitingChains(flow, j + 1, n);
    EdgesAreNames(flow);
  }

  /** k is the last level: some step lies on it and none below. */
  ghost predicate LastLevel(flow: Flow, k: nat)
  {
    Waiting(flow, k) != {} && Waiting(flow, k + 1) == {}
  }

  lemma {:induction false} WaitingShrinks(flow: Flow, j: nat, k: nat)
    requires j <= k
    ensures Waiting(flow, k) <= Waiting(flow, j)
    decreases k - j
  {
    if j < k {
      WaitingShrinks(flow, j, k - 1);
    }
  }

  /** In terms of chains: the last level is that of the longest dependency chain. */
  lemma LastLevelChains(flow: Flow, k: nat)
    requires PlainFlow(flow)
    ensures LastLevel(flow, k) <==>
              && (exists n :: n in Names(flow.spec.steps) && Chain(Edges(flow), n, k))
              && (forall n :: n in Names(flow.spec.steps) ==> !Chain(Edges(flow), n, k + 1))
  {
    forall n
      ensures n in Waiting(flow, k) <==> n in Names(flow.spec.steps) && Chain(Edges(flow), n, k)
      ensures n in Waiting(flow, k + 1) <==> n in Names(flow.spec.steps) && Chain(Edges(flow), n, k + 1)
    {
      WaitingChains(flow, k, n);
      WaitingChains(flow, k + 1, n);
    }
  }

  /** The flow succeeds exactly one pass after the one that started the last level: it is
      Succeeded after pass k + 1 and from then on, and not before. */
  lemma SucceedsAfterLastLevel(flow: Flow, servers: seq<Server>, inputs: seq<Inputs>, choices: seq<Choices>, k: nat,
          j: nat)
    requires PlainFlow(flow) && SmoothRun(flow, servers, inputs, choices) && LastLevel(flow, k) && j <= |inputs|
    ensures servers[j].status.phase == FlowSucceeded <==> j >= k + 2
  {
    PhaseAt(flow, servers, inputs, choices, j);
    DoneIff(flow, k, j);
  }

  lemma PhaseAt(flow: Flow, servers: seq<Server>, inputs: seq<Inputs>, choices: seq<Choices>, j: nat)
    requires PlainFlow(flow) && SmoothRun(flow, servers, inputs, choices) && j <= |inputs|
    ensures servers[j].status.phase == FlowSucceeded <==> j > 0 && WaitedBefore(flow, j) == {}
  {
    SmoothRunLevels(flow, servers, inputs, choices, j);
  }

  lemma DoneIff(flow: Flow, k: nat, j: nat)
    requires LastLevel(flow, k)
    ensures j > 0 && WaitedBefore(flow, j) == {} <==> j >= k + 2
  {
    if j > 0 {
      var i := j - 1;
      if i > k {
        WaitingShrinks(flow, k + 1, i);
      } else {
        WaitingShrinks(flow, i, k);
      }
    }
  }

  /** A list without repetition is as long as its set of elements is large. */
  lemma {:induction false} DistinctLength(s: seq<string>)
    requires Distinct(s)
    ensures |Elems(s)| == |s|
  {
    if |s| > 0 {
      var front, last := s[..|s| - 1], s[|s| - 1];
      DistinctLength(front);
      assert Elems(s) == Elems(front) + {last};
      assert last !in Elems(front);
    }
  }

  lemma {:induction false} NamesSize(steps: seq<Step>)
    ensures |Names(steps)| <= |steps|
  {
    if |steps| > 0 {
      var front, last := steps[..|steps| - 1], steps[|steps| - 1];
      NamesSize(front);
      assert steps == front + [last];
      assert Names(steps) == Names(front) + {last.name};
    }
  }

  /** No dependency chain is as long as there are steps. */
  lemma LevelsBounded(flow: Flow, sorted: seq<string>)
    requires PlainFlow(flow) && TopologicalOrder(Edges(flow), sorted)
    ensures Waiting(flow, |flow.spec.steps|) == {}
  {
    EdgesAreNames(flow);
    forall n | n in Universe(Edges(flow))
      ensures n in Names(flow.spec.steps)
    {
      if n !in Edges(flow) {
        var m :| m in Edges(flow) && n in Succ(Edges(flow), m);
        DependencyIsStep(flow, m, n);
      }
    }
    assert Elems(sorted) == Names(flow.spec.steps);
    DistinctLength(sorted);
    NamesSize(flow.spec.steps);
    if n :| n in Waiting(flow, |flow.spec.steps|) {
      WaitingChains(flow, |flow.spec.steps|, n);
      assert n in Elems(sorted);
      var p :| 0 <= p < |sorted| && sorted[p] == n;
      ChainBound(Edges(flow), sorted, p, |flow.spec.steps|);
    }
  }

  /** So a flow of n steps without obstacles has succeeded after at most n + 1 passes. */
  lemma SucceedsInTime(flow: Flow, servers: seq<Server>, inputs: seq<Inputs>, choices: seq<Choices>)
    requires PlainFlow(flow) && SmoothRun(flow, servers, inputs, choices) && |inputs| == |flow.spec.steps| + 1
    ensures servers[|inputs|].status.phase == FlowSucceeded
  {
    SmoothRunLevels(flow, servers, inputs, choices, |inputs|);
    assert SmoothPass(flow, servers[0], inputs[0], choices[0], servers[0 + 1]);
    LevelsBounded(flow, choices[0].sorted.value);
  }

  // Smooth runs among all runs.

  /** The first pass stores the initial status. */
  lemma FirstPassInitializes(flow: Flow, now: int, jobs: map<string, Job>, ch: Choices)
    requires PlainFlow(flow)
    ensures var st := Initialize(flow, BLANK, now);
            Reconcile(flow, Server(BLANK, jobs, {}, [BLANK]), Calm(now), ch).server
            == Server(st, jobs, {}, [BLANK, st])
  {
    assert TotalRetries32(BLANK.steps) == 0;
    assert [BLANK] + [Initialize(flow, BLANK, now)] == [BLANK, Initialize(flow, BLANK, now)];
  }

  lemma SmoothStart(flow: Flow, server: Server, ch: Choices) returns (run: seq<Move>)
    requires PlainFlow(flow) && LegalChoices(flow, ch) && server.created == {}
    requires (exists now :: server.status == Initialize(flow, BLANK, now)) && server.history == [BLANK, server.status]
    ensures LegalRun(flow, run) && After(flow, run).server == server
  {
    var now :| server.status == Initialize(flow, BLANK, now);
    FirstPassInitializes(flow, now, server.jobs, ch);
    var clear, first := Environment(server.jobs), Pass(Calm(now), ch);
    AfterSnoc(flow, [], clear);
    AfterSnoc(flow, [] + [clear], first);
    run := [] + [clear] + [first];
  }

  lemma SmoothStep(flow: Flow, run: seq<Move>, server: Server, inp: Inputs, ch: Choices, next: Server)
    returns (longer: seq<Move>)
    requires LegalRun(flow, run) && After(flow, run).server == server && SmoothPass(flow, server, inp, ch, next)
    ensures LegalRun(flow, longer) && After(flow, longer).server == next
  {
    AfterSnoc(flow, run, Pass(inp, ch));
    AfterSnoc(flow, run + [Pass(inp, ch)], Environment(next.jobs));
    longer := run + [Pass(inp, ch)] + [Environment(next.jobs)];
  }

  /** Smooth runs are runs: each of their servers is that of a legal run, so all that holds of
      every run holds of them. */
  lemma {:induction false} SmoothIsLegal(flow: Flow, servers: seq<Server>, inputs: seq<Inputs>, choices: seq<Choices>,
          j: nat) returns (run: seq<Move>)
    requires PlainFlow(flow) && SmoothRun(flow, servers, inputs, choices) && j < |inputs|
    ensures LegalRun(flow, run) && After(flow, run).server == servers[j + 1]
  {
    var front;
    assert SmoothPass(flow, servers[j], inputs[j], choices[j], servers[j + 1]);
    if j == 0 {
      front := SmoothStart(flow, servers[0], choices[0]);
    } else {
      front := SmoothIsLegal(flow, servers, inputs, choices, j - 1);
    }
    run := SmoothStep(flow, front, servers[j], inputs[j], choices[j], servers[j + 1]);
  }
}
