/** Whole runs of the reconciler over one flow: any sequence of passes and of changes to the
    cluster's Jobs, with lost writes, failed requests and stale reads. */
module Runs {
  import opened Types
  import opened Digraph
  import opened Dag
  import opened Validation
  import opened Transition
  import opened Planning
  import opened Invariant

  /** The server together with the history of the run: the steps that ever left Pending, in
      memory at least, or had a Job accepted, and the steps whose approval annotation was
      "true" in a flow that some pass read. */
  datatype State = State(server: Server, started: set<string>, approved: set<string>)

  /** A pass reads the flow as it is stored, or an outdated copy from the controller's cache:
      then it sees the stored status number age, and all its status writes conflict. */
  datatype Move =
    | Pass(inp: Inputs, choices: Choices)
    | StalePass(inp: Inputs, choices: Choices, age: nat)
    | Environment(jobs: map<string, Job>)

  const INITIAL := State(Server(BLANK, map[], {}, [BLANK]), {}, {})

  /** A conflict is a retryable error, and nothing is written. */
  const CONFLICT := Fault(false, true)

  function Conflicting(flow: Flow, inp: Inputs): Inputs
  {
    inp.(stepWrites := map n | n in Names(flow.spec.steps) :: CONFLICT, lastWrite := Some(CONFLICT))
  }

  /** The server as an outdated read shows it. A number beyond the last one stands for a read
      that is outdated in other respects than the status. */
  function Outdated(server: Server, age: nat): Server
  {
    if age < |server.history| then server.(status := server.history[age]) else server
  }

  /** What the pass of a move starts from and is given. */
  ghost function Seen(s: State, move: Move): Server
  {
    if move.StalePass? then Outdated(s.server, move.age) else s.server
  }

  function Given(flow: Flow, move: Move): Inputs
    requires !move.Environment?
  {
    if move.StalePass? then Conflicting(flow, move.inp) else move.inp
  }

  ghost function Apply(flow: Flow, s: State, move: Move): State
  {
    match move
    case Environment(jobs) => s.(server := s.server.(jobs := jobs))
    case Pass(inp, choices) => Record(flow, s, inp, Reconcile(flow, s.server, inp, choices))
    case StalePass(inp, choices, _) =>
      var out := Reconcile(flow, Seen(s, move), Given(flow, move), choices);
      Record(flow, s, inp, out.(server := out.server.(status := s.server.status, history := s.server.history)))
  }

  /** What a pass does to the history, given its outcome. */
  ghost function Record(flow: Flow, s: State, inp: Inputs, out: Outcome): State
  {
    State(out.server, s.started + NotPending(out.mem.steps) + out.server.created, s.approved + ApprovedNames(flow, inp))
  }

  ghost predicate LegalMove(flow: Flow, move: Move)
  {
    !move.Environment? ==> LegalChoices(flow, move.choices)
  }

  ghost predicate LegalRun(flow: Flow, run: seq<Move>)
  {
    forall i :: 0 <= i < |run| ==> LegalMove(flow, run[i])
  }

  /** The state after a run. */
  ghost function After(flow: Flow, run: seq<Move>): State
  {
    if |run| == 0 then INITIAL else Apply(flow, After(flow, run[..|run| - 1]), run[|run| - 1])
  }

  /** A run with one more move. */
  lemma AfterSnoc(flow: Flow, run: seq<Move>, move: Move)
    ensures After(flow, run + [move]) == Apply(flow, After(flow, run), move)
    ensures LegalRun(flow, run) && LegalMove(flow, move) ==> LegalRun(flow, run + [move])
  {
    assert (run + [move])[..|run + [move]| - 1] == run;
  }

  /** What a pass is given when every Job is gone and no request fails. */
  function Calm(now: int): Inputs
  {
    Inputs(now, map[], map[], false, false, map[], {}, {}, map[], map[], {}, map[], map[], None)
  }

  function Edges(flow: Flow): Digraph.Graph
  {
    DependencyGraph(flow.spec.steps)
  }

  /** A manual step that later steps may pass only once it is approved. */
  predicate Gatekeeper(flow: Flow, m: string)
  {
    var steps := StepMap(flow.spec.steps);
    m in steps && IsManual(steps[m]) && !steps[m].continueOnFailure
  }

  /** The dependencies of a started step have started. */
  ghost predicate StartClosed(flow: Flow, started: set<string>)
  {
    forall n :: n in started ==> n in Edges(flow) && forall d :: d in Succ(Edges(flow), n) ==> d in started
  }

  /** Every gatekeeper before a started step has been approved. */
  ghost predicate GatesOpen(flow: Flow, started: set<string>, approved: set<string>)
  {
    forall n, m :: n in started && Reaches(Edges(flow), n, m) && Gatekeeper(flow, m) ==> m in approved
  }

  ghost predicate HistoryInv(flow: Flow, s: State)
  {
    && s.server.created <= s.started
    && StartClosed(flow, s.started)
    && GatesOpen(flow, s.started, s.approved)
  }

  /** A status that was stored at some time. */
  ghost predicate StoredGood(flow: Flow, st: Status, started: set<string>, approved: set<string>)
  {
    if StepsValid(flow.spec.steps) then StatusInv(flow, st, started, approved) else st.steps == []
  }

  /** An initialised status has this start time. */
  predicate StartsAt(st: Status, start: Option<int>)
  {
    st.startTime.Some? ==> st.startTime == start
  }

  ghost predicate Inv(flow: Flow, s: State)
  {
    && HistoryInv(flow, s)
    && |s.server.history| > 0 && s.server.status == s.server.history[|s.server.history| - 1]
    && (forall k :: 0 <= k < |s.server.history| ==> StoredGood(flow, s.server.history[k], s.started, s.approved))
    && (forall k :: 0 <= k < |s.server.history| ==> StartsAt(s.server.history[k], s.server.status.startTime))
    && (!StepsValid(flow.spec.steps) ==> s.started == {})
  }

  /** The stored status is good like every earlier one. */
  lemma StoredNow(flow: Flow, s: State)
    requires Inv(flow, s)
    ensures StoredGood(flow, s.server.status, s.started, s.approved)
  {
  }

  // One full pass.

  /** A planned step is a pending step of the flow. */
  lemma PlannedStep(flow: Flow, sorted: seq<string>, steps: seq<StepStatus>, whenTrue: set<string>,
                    started: set<string>, approved: set<string>, n: string) returns (i: nat)
    requires StepsValid(flow.spec.steps) && GoodSteps(flow, steps, started, approved)
    requires n in Plan(StepMap(flow.spec.steps), sorted, steps, whenTrue)
    ensures i < |steps| && steps[i].name == n && steps[i].phase == StepPending
    ensures n in Edges(flow)
  {
    var graph := StepMap(flow.spec.steps);
    SelectReadyContents(graph, sorted, steps, whenTrue, sorted);
    assert Ready(graph, sorted, steps, whenTrue, n);
    i := StepMapEntry(flow.spec.steps, n);
    Located(flow, steps, started, approved, i);
  }

  /** A completed step has started; if it is a gatekeeper it has been approved. */
  lemma CompletedStep(flow: Flow, sorted: seq<string>, steps: seq<StepStatus>, started: set<string>,
          approved: set<string>, d: string)
    requires StepsValid(flow.spec.steps) && GoodSteps(flow, steps, started, approved)
    requires Completed(StepMap(flow.spec.steps), sorted, steps, d)
    ensures d in started && (Gatekeeper(flow, d) ==> d in approved)
  {
    var graph := StepMap(flow.spec.steps);
    var k :| 0 <= k < |steps| && steps[k].name == d && steps[k].phase in {StepSucceeded, StepFailed}
             && (steps[k].phase == StepFailed ==> d in graph && graph[d].continueOnFailure);
    Located(flow, steps, started, approved, k);
    GoodStepsUnique(flow, steps, started, approved);
    StepMapFind(flow.spec.steps, d);
  }

  /** Each dependency of a planned step has started; if it is a gatekeeper it has been
      approved. */
  lemma PlannedDependency(flow: Flow, sorted: seq<string>, steps: seq<StepStatus>, whenTrue: set<string>,
                          started: set<string>, approved: set<string>, n: string, d: string)
    requires StepsValid(flow.spec.steps) && GoodSteps(flow, steps, started, approved)
    requires n in Plan(StepMap(flow.spec.steps), sorted, steps, whenTrue) && d in Succ(Edges(flow), n)
    ensures d in started && (Gatekeeper(flow, d) ==> d in approved)
  {
    SelectReadyContents(StepMap(flow.spec.steps), sorted, steps, whenTrue, sorted);
    assert Ready(StepMap(flow.spec.steps), sorted, steps, whenTrue, n);
    CompletedStep(flow, sorted, steps, started, approved, d);
  }

  lemma PlanAllPending(flow: Flow, inp: Inputs, sorted: seq<string>, st: Status, started: set<string>,
          approved: set<string>)
    requires StepsValid(flow.spec.steps) && GoodSteps(flow, st.steps, started, approved) && Distinct(sorted)
    ensures AllPending(Retries(flow, inp, Timeouts(flow, inp, st)).steps,
                       Plan(StepMap(flow.spec.steps), sorted, st.steps, inp.whenTrue))
  {
    var ready := Plan(StepMap(flow.spec.steps), sorted, st.steps, inp.whenTrue);
    var steps' := Retries(flow, inp, Timeouts(flow, inp, st)).steps;
    PlanDistinct(StepMap(flow.spec.steps), sorted, st.steps, inp.whenTrue);
    forall n | n in ready
      ensures exists i :: 0 <= i < |steps'| && steps'[i].name == n && steps'[i].phase == StepPending
    {
      var i := PlannedStep(flow, sorted, st.steps, inp.whenTrue, started, approved, n);
      PendingUntouched(flow, inp, st, i);
      assert steps'[i].name == n;
    }
  }

  /** Starting steps whose dependencies have all started, past approved gates only, keeps the
      history closed. */
  lemma HistoryGrows(flow: Flow, started: set<string>, started': set<string>, approved: set<string>)
    requires StartClosed(flow, started) && GatesOpen(flow, started, approved) && started <= started'
    requires forall n :: n in started' - started ==>
      n in Edges(flow) && forall d :: d in Succ(Edges(flow), n) ==>
          d in started && (Gatekeeper(flow, d) ==> d in approved)
    ensures StartClosed(flow, started') && GatesOpen(flow, started', approved)
  {
    forall n, m | n in started' && Reaches(Edges(flow), n, m) && Gatekeeper(flow, m)
      ensures m in approved
    {
      if n !in started {
        var d := ReachesSplit(Edges(flow), n, m);
      }
    }
  }

  lemma GatesGrow(flow: Flow, started: set<string>, a1: set<string>, a2: set<string>)
    requires GatesOpen(flow, started, a1) && a1 <= a2
    ensures GatesOpen(flow, started, a2)
  {
  }

  /** Up to the execution loop the invariant holds with the history unchanged, and what was
      planned is still pending. */
  lemma StagesGood(flow: Flow, st: Status, inp: Inputs, sorted: seq<string>, started: set<string>,
          approved: set<string>)
    requires StepsValid(flow.spec.steps) && GoodStatus(flow, st, started, approved) && Distinct(sorted)
    requires ApprovedNames(flow, inp) <= approved
    ensures GoodStatus(flow, Refreshed(inp, st), started, approved)
    ensures GoodStatus(flow, Retried(flow, inp, st), started, approved)
    ensures AllPending(Retried(flow, inp, st).steps, Planned(flow, st, inp, sorted))
  {
    ApprovalsKeep(flow, inp, st, started, approved);
    RefreshKeeps(flow, inp, ManualApprovals(inp, st), started, approved);
    TimeoutsKeep(flow, inp, Refreshed(inp, st), started, approved);
    RetriesKeep(flow, inp, Timeouts(flow, inp, Refreshed(inp, st)), started, approved);
    PlanAllPending(flow, inp, sorted, Refreshed(inp, st), started, approved);
  }

  lemma ExecutedGood(flow: Flow, server: Server, inp: Inputs, sorted: seq<string>, started: set<string>,
          approved: set<string>)
    requires StepsValid(flow.spec.steps) && GoodStatus(flow, server.status, started, approved) && Distinct(sorted)
    requires ApprovedNames(flow, inp) <= approved
    ensures RunEffect(flow, Local(Retried(flow, inp, server.status), AfterTimeouts(flow, inp, server)),
                      Executed(flow, server, inp, sorted).0, Planned(flow, server.status, inp, sorted), started,
                          approved)
    ensures var l := Executed(flow, server, inp, sorted).0;
            forall n :: n in NotPending(l.mem.steps) + l.server.created && n !in started + server.created ==>
              n in Planned(flow, server.status, inp, sorted)
  {
    StagesGood(flow, server.status, inp, sorted, started, approved);
    var retried := Retried(flow, inp, server.status);
    var ready := Planned(flow, server.status, inp, sorted);
    var l0 := Local(retried, AfterTimeouts(flow, inp, server));
    RunReadyKeeps(flow, inp, l0, ready, started, approved);
    var l := RunReady(flow, inp, l0, ready).0;
    forall n | n in NotPending(l.mem.steps) && n !in started
      ensures n in ready
    {
      var k :| 0 <= k < |l.mem.steps| && l.mem.steps[k].phase != StepPending && l.mem.steps[k].name == n;
      assert StepInv(flow, flow.spec.steps[k], retried.steps[k], started, approved);
    }
  }

  lemma UpdateKeeps(flow: Flow, st: Status, now: int, started: set<string>, approved: set<string>)
    requires GoodStatus(flow, st, started, approved)
    ensures GoodStatus(flow, UpdateStatus(st, now), started, approved)
  {
  }

  /** What the pass has stored is good, and an initialised flow keeps its start time. */
  ghost predicate StoresGood(flow: Flow, before: Server, after: Server, started: set<string>, approved: set<string>)
  {
    && before.history <= after.history
    && after.status == (if |after.history| == |before.history| then before.status
        else after.history[|after.history| - 1])
    && (forall k :: |before.history| <= k < |after.history| ==>
          StatusInv(flow, after.history[k], started, approved) && StartsAt(after.history[k], after.status.startTime))
    && (before.status.startTime.Some? ==> after.status.startTime == before.status.startTime)
  }

  /** The invariant afterwards, and: a step that starts has all its dependencies started
      before the pass. */
  ghost predicate PassEffect(flow: Flow, s: State, s': State)
  {
    && StoresGood(flow, s.server, s'.server, s'.started, s'.approved)
    && HistoryInv(flow, s')
    && s.started <= s'.started && s.approved <= s'.approved
    && (forall n :: n in s'.started - s.started ==>
          n in Edges(flow) && forall d :: d in Succ(Edges(flow), n) ==> d in s.started)
  }

  lemma NotPendingStarted(flow: Flow, steps: seq<StepStatus>, started: set<string>, approved: set<string>)
    requires GoodSteps(flow, steps, started, approved)
    ensures NotPending(steps) <= started
  {
    forall n | n in NotPending(steps)
      ensures n in started
    {
      var k :| 0 <= k < |steps| && steps[k].phase != StepPending && steps[k].name == n;
      assert StepInv(flow, flow.spec.steps[k], steps[k], started, approved);
    }
  }

  /** A pass that creates no Job and ends with a status in which nothing has newly started. */
  lemma QuietPass(flow: Flow, s: State, inp: Inputs, out: Outcome)
    requires HistoryInv(flow, s) && StatusInv(flow, s.server.status, s.started, s.approved)
    requires out.server.created == s.server.created
    requires || (out.server.status == s.server.status && out.server.history == s.server.history)
             || (out.server.status == out.mem && out.server.history == s.server.history + [out.mem])
    requires out.mem.startTime == s.server.status.startTime || s.server.status.startTime.None?
    requires NotInitialized(flow, out.mem) ||
             GoodStatus(flow, out.mem, s.started, s.approved + ApprovedNames(flow, inp))
    ensures PassEffect(flow, s, Record(flow, s, inp, out))
  {
    var approved := s.approved + ApprovedNames(flow, inp);
    GatesGrow(flow, s.started, s.approved, approved);
    if !NotInitialized(flow, out.mem) {
      NotPendingStarted(flow, out.mem.steps, s.started, approved);
    }
    if !NotInitialized(flow, s.server.status) {
      GoodStepsGrow(flow, s.server.status.steps, s.started, s.approved, s.started, approved);
    }
    assert Record(flow, s, inp, out).started == s.started;
  }

  /** The history after the execution loop. */
  ghost function StartedAfter(flow: Flow, s: State, inp: Inputs, sorted: seq<string>): set<string>
  {
    var l := Executed(flow, s.server, inp, sorted).0;
    s.started + NotPending(l.mem.steps) + l.server.created
  }

  lemma ExecutedHistory(flow: Flow, s: State, inp: Inputs, sorted: seq<string>, approved: set<string>, n: string)
    requires StepsValid(flow.spec.steps) && Distinct(sorted)
    requires s.server.created <= s.started && ApprovedNames(flow, inp) <= approved
    requires GoodStatus(flow, s.server.status, s.started, approved)
    requires n in StartedAfter(flow, s, inp, sorted) - s.started
    ensures n in Planned(flow, s.server.status, inp, sorted)
    ensures n in Edges(flow)
    ensures forall d :: d in Succ(Edges(flow), n) ==> d in s.started && (Gatekeeper(flow, d) ==> d in approved)
  {
    ExecutedGood(flow, s.server, inp, sorted, s.started, approved);
    StagesGood(flow, s.server.status, inp, sorted, s.started, approved);
    var steps := Refreshed(inp, s.server.status).steps;
    var i := PlannedStep(flow, sorted, steps, inp.whenTrue, s.started, approved, n);
    forall d | d in Succ(Edges(flow), n)
      ensures d in s.started && (Gatekeeper(flow, d) ==> d in approved)
    {
      PlannedDependency(flow, sorted, steps, inp.whenTrue, s.started, approved, n, d);
    }
  }

  lemma ExecutedCloses(flow: Flow, s: State, inp: Inputs, sorted: seq<string>, approved: set<string>)
    requires StepsValid(flow.spec.steps) && Distinct(sorted) && HistoryInv(flow, s)
    requires s.approved + ApprovedNames(flow, inp) <= approved
    requires GoodStatus(flow, s.server.status, s.started, s.approved)
    ensures StartClosed(flow, StartedAfter(flow, s, inp, sorted))
    ensures GatesOpen(flow, StartedAfter(flow, s, inp, sorted), approved)
    ensures forall n :: n in StartedAfter(flow, s, inp, sorted) - s.started ==>
              n in Edges(flow) && forall d :: d in Succ(Edges(flow), n) ==> d in s.started
  {
    GoodStepsGrow(flow, s.server.status.steps, s.started, s.approved, s.started, approved);
    GatesGrow(flow, s.started, s.approved, approved);
    var started := StartedAfter(flow, s, inp, sorted);
    forall n | n in started - s.started
      ensures n in Edges(flow) && forall d :: d in Succ(Edges(flow), n) ==>
              d in s.started && (Gatekeeper(flow, d) ==> d in approved)
    {
      ExecutedHistory(flow, s, inp, sorted, approved, n);
    }
    HistoryGrows(flow, s.started, started, approved);
  }

  /** How a pass that reached the end of the execution loop, or stopped in it, ends. */
  ghost predicate EndsFrom(inp: Inputs, l: Local, out: Outcome)
  {
    && out.server.created == l.server.created
    && out.mem.steps == l.mem.steps
    && (|| (out.server.status == l.server.status && out.server.history == l.server.history)
        || (&& out.mem == UpdateStatus(l.mem, Clock(inp, Ending)) && out.server.status == out.mem
            && out.server.history == l.server.history + [out.mem]))
  }

  lemma EndGood(flow: Flow, inp: Inputs, l0: Local, l: Local, ready: seq<string>, out: Outcome,
                started: set<string>, approved: set<string>, started': set<string>)
    requires RunEffect(flow, l0, l, ready, started, approved) && EndsFrom(inp, l, out)
    requires started + NotPending(l.mem.steps) <= started'
    ensures NewGood(flow, l0.server, out.server, l0.mem.startTime, started', approved)
  {
    var mid := started + NotPending(l.mem.steps);
    NewGoodGrow(flow, l0.server, l.server, l0.mem.startTime, mid, started', approved);
    GoodStepsGrow(flow, l.mem.steps, mid, approved, started', approved);
    LastWriteGood(flow, inp, l, out, started', approved);
    NewGoodCompose(flow, l0.server, l.server, out.server, l0.mem.startTime, started', started', approved);
  }

  lemma LastWriteGood(flow: Flow, inp: Inputs, l: Local, out: Outcome, started: set<string>, approved: set<string>)
    requires GoodStatus(flow, l.mem, started, approved) && EndsFrom(inp, l, out)
    ensures NewGood(flow, l.server, out.server, l.mem.startTime, started, approved)
  {
    UpdateKeeps(flow, l.mem, Clock(inp, Ending), started, approved);
  }

  lemma NewGoodGrow(flow: Flow, a: Server, b: Server, start: Option<int>, s1: set<string>, s2: set<string>,
          approved: set<string>)
    requires NewGood(flow, a, b, start, s1, approved) && s1 <= s2
    ensures NewGood(flow, a, b, start, s2, approved)
  {
    forall k | |a.history| <= k < |b.history|
      ensures GoodStatus(flow, b.history[k], s2, approved)
    {
      GoodStepsGrow(flow, b.history[k].steps, s1, approved, s2, approved);
    }
  }

  lemma NewGoodStores(flow: Flow, before: Server, mid: Server, after: Server, started: set<string>,
          approved: set<string>)
    requires mid.history == before.history && mid.status == before.status && before.status.startTime.Some?
    requires NewGood(flow, mid, after, before.status.startTime, started, approved)
    ensures StoresGood(flow, before, after, started, approved)
  {
  }

  /** A pass that runs the execution loop. */
  lemma ExecutingPass(flow: Flow, s: State, inp: Inputs, sorted: seq<string>, out: Outcome)
    requires StepsValid(flow.spec.steps) && Distinct(sorted) && HistoryInv(flow, s)
    requires GoodStatus(flow, s.server.status, s.started, s.approved)
    requires EndsFrom(inp, Executed(flow, s.server, inp, sorted).0, out)
    ensures PassEffect(flow, s, Record(flow, s, inp, out))
  {
    var approved := s.approved + ApprovedNames(flow, inp);
    var started := StartedAfter(flow, s, inp, sorted);
    ExecutedCloses(flow, s, inp, sorted, approved);
    ExecutingStores(flow, s, inp, sorted, out);
    assert Record(flow, s, inp, out) == State(out.server, started, approved);
  }

  lemma ExecutingStores(flow: Flow, s: State, inp: Inputs, sorted: seq<string>, out: Outcome)
    requires StepsValid(flow.spec.steps) && Distinct(sorted)
    requires GoodStatus(flow, s.server.status, s.started, s.approved)
    requires EndsFrom(inp, Executed(flow, s.server, inp, sorted).0, out)
    ensures StoresGood(flow, s.server, out.server, StartedAfter(flow, s, inp, sorted), s.approved +
            ApprovedNames(flow, inp))
  {
    var approved := s.approved + ApprovedNames(flow, inp);
    var l0 := Local(Retried(flow, inp, s.server.status), AfterTimeouts(flow, inp, s.server));
    GoodStepsGrow(flow, s.server.status.steps, s.started, s.approved, s.started, approved);
    ExecutedGood(flow, s.server, inp, sorted, s.started, approved);
    EndGood(flow, inp, l0, Executed(flow, s.server, inp, sorted).0, Planned(flow, s.server.status, inp, sorted), out,
            s.started, approved, StartedAfter(flow, s, inp, sorted));
    NewGoodStores(flow, s.server, l0.server, out.server, StartedAfter(flow, s, inp, sorted), approved);
  }

  lemma AdvanceEnds(flow: Flow, server: Server, inp: Inputs, sorted: seq<string>, firstErrorRetryable: bool)
    requires !RefreshAborts(inp, server.status, firstErrorRetryable)
    ensures EndsFrom(inp, Executed(flow, server, inp, sorted).0,
            Advance(flow, server, inp, sorted, firstErrorRetryable))
  {
  }

  lemma AdvanceKeeps(flow: Flow, s: State, inp: Inputs, sorted: seq<string>, firstErrorRetryable: bool)
    requires StepsValid(flow.spec.steps) && Distinct(sorted) && HistoryInv(flow, s)
    requires GoodStatus(flow, s.server.status, s.started, s.approved)
    ensures PassEffect(flow, s, Record(flow, s, inp, Advance(flow, s.server, inp, sorted, firstErrorRetryable)))
  {
    var out := Advance(flow, s.server, inp, sorted, firstErrorRetryable);
    if RefreshAborts(inp, s.server.status, firstErrorRetryable) {
      var all := s.approved + ApprovedNames(flow, inp);
      GoodStepsGrow(flow, s.server.status.steps, s.started, s.approved, s.started, all);
      StagesGood(flow, s.server.status, inp, sorted, s.started, all);
      QuietPass(flow, s, inp, out);
    } else {
      AdvanceEnds(flow, s.server, inp, sorted, firstErrorRetryable);
      ExecutingPass(flow, s, inp, sorted, out);
    }
  }

  lemma {:induction false} PassKeeps(flow: Flow, s: State, inp: Inputs, ch: Choices)
    requires StepsValid(flow.spec.steps) && LegalChoices(flow, ch)
    requires HistoryInv(flow, s) && StatusInv(flow, s.server.status, s.started, s.approved)
    ensures PassEffect(flow, s, Record(flow, s, inp, Reconcile(flow, s.server, inp, ch)))
  {
    var st := s.server.status;
    var out := Reconcile(flow, s.server, inp, ch);
    var all := s.approved + ApprovedNames(flow, inp);
    if NotInitialized(flow, st) {
      InitializeGood(flow, st, Clock(inp, Initializing), s.started, all);
      assert TotalRetries32(st.steps) == 0;
      QuietPass(flow, s, inp, out);
    } else {
      GoodStepsGrow(flow, st.steps, s.started, s.approved, s.started, all);
      if inp.concurrencyError || DeadlineExceeded(flow, st, inp.now) || BackoffExceeded(flow, st) || ch.sorted.None? {
        QuietPass(flow, s, inp, out);
      } else {
        AdvanceKeeps(flow, s, inp, ch.sorted.value, ch.firstErrorRetryable);
      }
    }
  }

  /** The steps that a move starts for the first time. */
  ghost function NewlyStarted(flow: Flow, s: State, move: Move): set<string>
  {
    Apply(flow, s, move).started - s.started
  }

  lemma PassInv(flow: Flow, s: State, s': State)
    requires StepsValid(flow.spec.steps) && Inv(flow, s) && PassEffect(flow, s, s')
    ensures Inv(flow, s')
  {
    forall k | 0 <= k < |s'.server.history|
      ensures StoredGood(flow, s'.server.history[k], s'.started, s'.approved)
      ensures StartsAt(s'.server.history[k], s'.server.status.startTime)
    {
      if k < |s.server.history| {
        assert s'.server.history[k] == s.server.history[k];
        StoredGrow(flow, s.server.history[k], s, s');
      }
    }
  }

  lemma StoredGrow(flow: Flow, st: Status, s: State, s': State)
    requires StoredGood(flow, st, s.started, s.approved) && s.started <= s'.started && s.approved <= s'.approved
    ensures StoredGood(flow, st, s'.started, s'.approved)
  {
    if StepsValid(flow.spec.steps) && !NotInitialized(flow, st) {
      GoodStepsGrow(flow, st.steps, s.started, s.approved, s'.started, s'.approved);
    }
  }

  /** A state as an outdated read shows it still has what a pass needs. */
  lemma OutdatedGood(flow: Flow, s: State, age: nat)
    requires Inv(flow, s)
    ensures StoredGood(flow, Outdated(s.server, age).status, s.started, s.approved)
    ensures HistoryInv(flow, s.(server := Outdated(s.server, age)))
  {
  }

  /** Conflicts leave nothing written, so an outdated pass cannot change what is stored. */
  lemma ConflictsWriteNothing(flow: Flow, server: Server, inp: Inputs, ch: Choices)
    ensures SameStore(server, Reconcile(flow, server, Conflicting(flow, inp), ch).server)
  {
    if Gated(flow, server, Conflicting(flow, inp)).None? && ch.sorted.Some? {
      var given := Conflicting(flow, inp);
      LoopWritesNothing(flow, inp, Local(Retried(flow, given, server.status), AfterTimeouts(flow, given, server)),
                        Planned(flow, server.status, given, ch.sorted.value));
    }
  }

  lemma {:induction false} LoopWritesNothing(flow: Flow, inp: Inputs, l: Local, ready: seq<string>)
    ensures SameStore(l.server, RunReady(flow, Conflicting(flow, inp), l, ready).0.server)
    decreases |ready|
  {
    if |ready| > 0 {
      var (l1, stopped) := ExecuteTurn(flow, Conflicting(flow, inp), l, ready[0]);
      StepWritesNothing(flow, inp, l, ready[0]);
      if !stopped {
        LoopWritesNothing(flow, inp, l1, ready[1..]);
      }
    }
  }

  ghost predicate SameStore(a: Server, b: Server)
  {
    b.status == a.status && b.history == a.history
  }

  lemma StartWritesNothing(flow: Flow, inp: Inputs, l: Local, i: nat, spec: Step)
    requires i < |l.mem.steps| && FaultFor(inp.stepWrites, l.mem.steps[i].name) == Some(CONFLICT)
    ensures SameStore(l.server, StartStep(flow, inp, l, i, spec).0.server)
  {
  }

  lemma StepWritesNothing(flow: Flow, inp: Inputs, l: Local, n: string)
    ensures SameStore(l.server, ExecuteTurn(flow, Conflicting(flow, inp), l, n).0.server)
  {
    var given := Conflicting(flow, inp);
    var (l', fault) := ExecuteStep(flow, given, l, n);
    assert ExecuteTurn(flow, given, l, n).0.server == l'.server;
    var spec, i := FindStep(flow.spec.steps, n), StatusIndex(l.mem.steps, n);
    if spec.Some? && i.Some? {
      assert n in Names(flow.spec.steps);
      assert FaultFor(given.stepWrites, n) == Some(CONFLICT);
      StartWritesNothing(flow, given, l, i.value, spec.value);
    }
  }

  /** A pass on an outdated flow. */
  lemma StaleKeeps(flow: Flow, s: State, move: Move)
    requires Inv(flow, s) && LegalMove(flow, move) && move.StalePass? && StepsValid(flow.spec.steps)
    ensures PassEffect(flow, s, Apply(flow, s, move))
  {
    var seen := s.(server := Seen(s, move));
    OutdatedGood(flow, s, move.age);
    PassKeeps(flow, seen, Given(flow, move), move.choices);
    var out := Reconcile(flow, seen.server, Given(flow, move), move.choices);
    assert ApprovedNames(flow, Given(flow, move)) == ApprovedNames(flow, move.inp);
    assert Record(flow, seen, Given(flow, move), out).started == Apply(flow, s, move).started;
  }

  lemma RefusedPass(flow: Flow, server: Server, inp: Inputs, ch: Choices)
    requires !StepsValid(flow.spec.steps)
    ensures var failed := server.status.(phase := FlowFailed);
            Reconcile(flow, server, inp, ch) == Outcome(WriteStatus(server, failed, inp.lastWrite), failed, [])
  {
  }

  /** A flow whose step list is refused starts nothing. */
  lemma RefusedMove(flow: Flow, s: State, move: Move)
    requires Inv(flow, s) && !StepsValid(flow.spec.steps) && !move.Environment?
    ensures Inv(flow, Apply(flow, s, move))
    ensures Apply(flow, s, move).started == {} && Apply(flow, s, move).server.created == {}
    ensures s.approved <= Apply(flow, s, move).approved
  {
    var s' := Apply(flow, s, move);
    OutdatedGood(flow, s, if move.StalePass? then move.age else |s.server.history| - 1);
    GatesGrow(flow, s.started, s.approved, s'.approved);
    RefusedPass(flow, Seen(s, move), Given(flow, move), move.choices);
    forall k | 0 <= k < |s'.server.history|
      ensures s'.server.history[k].steps == []
      ensures StartsAt(s'.server.history[k], s'.server.status.startTime)
    {
      if k < |s.server.history| {
        assert s'.server.history[k] == s.server.history[k];
      }
    }
  }

  lemma MoveKeeps(flow: Flow, s: State, move: Move)
    requires Inv(flow, s) && LegalMove(flow, move)
    ensures Inv(flow, Apply(flow, s, move))
    ensures s.started <= Apply(flow, s, move).started && s.approved <= Apply(flow, s, move).approved
    ensures forall n :: n in NewlyStarted(flow, s, move) ==>
              n in Edges(flow) && forall d :: d in Succ(Edges(flow), n) ==> d in s.started
  {
    if !move.Environment? {
      if StepsValid(flow.spec.steps) {
        if move.Pass? {
          StoredNow(flow, s);
          PassKeeps(flow, s, move.inp, move.choices);
        } else {
          StaleKeeps(flow, s, move);
        }
        PassInv(flow, s, Apply(flow, s, move));
      } else {
        RefusedMove(flow, s, move);
      }
    }
  }

  lemma {:induction false} RunKeeps(flow: Flow, run: seq<Move>)
    requires LegalRun(flow, run)
    ensures Inv(flow, After(flow, run))
  {
    if |run| == 0 {
      assert Inv(flow, INITIAL);
    } else {
      RunKeeps(flow, run[..|run| - 1]);
      MoveKeeps(flow, After(flow, run[..|run| - 1]), run[|run| - 1]);
    }
  }
}
