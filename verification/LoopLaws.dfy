/** What the execution loop and the end of a pass come to, in the same terms as in StageLaws. */
module LoopLaws {
  import opened Types
  import opened Validation
  import opened Transition
  import opened Planning
  import opened Invariant
  import opened Relaunch
  import opened StageLaws

  // One turn.

  /** The name of a step's Job: flow, step and the first characters of the flow's UID. */
  function NameOfJob(flow: Flow, step: string): string
  {
    flow.name + "-" + step + "-"
    + if |flow.uid| <= flow.config.uidTruncateLength then flow.uid else flow.uid[..flow.config.uidTruncateLength]
  }

  lemma JobNameIs(flow: Flow, step: string)
    ensures JobName(flow, step) == NameOfJob(flow, step)
  {
  }

  /** A manual step says so, or has neither a type nor a template. */
  predicate NeedsApproval(step: Step)
  {
    step.stepType == "Manual" || (step.stepType == "" && step.templateEmpty)
  }

  /** The i-th entry is that of the i-th step, which has not been started yet. */
  ghost predicate Unstarted(flow: Flow, l: Local, i: nat)
  {
    && i < |l.mem.steps| == |flow.spec.steps| && UniqueEntries(l.mem.steps) && UniqueNames(flow.spec.steps)
    && l.mem.steps[i].name == flow.spec.steps[i].name
    && l.mem.steps[i].phase == StepPending && l.mem.steps[i].jobRef.None? && l.mem.steps[i].startTime.None?
  }

  /** The i-th step has failed in its turn; unless it says to continue, so has the flow. */
  function AfterFailure(flow: Flow, inp: Inputs, st: Status, i: nat): Status
    requires i < |st.steps| == |flow.spec.steps|
  {
    var failed := st.steps[i := st.steps[i].(phase := StepFailed)];
    if flow.spec.steps[i].continueOnFailure then st.(steps := failed)
    else
      Status(FlowFailed, st.startTime, Some(Clock(inp, Failing(flow.spec.steps[i].name))), st.progress, failed)
  }

  /** The server with a Job of this name that has neither succeeded nor failed. */
  function WithJob(server: Server, job: string, step: string): Server
  {
    server.(jobs := server.jobs[job := Job(0, 0)], created := server.created + {step})
  }

  /** The turn of a step that runs a Job. If its name is free and the request meets no fault, it is
      accepted and the step runs. Otherwise a retryable fault ends the pass, and any other error
      fails the step; in both cases a request that took effect leaves its Job behind. */
  lemma JobTurn(flow: Flow, inp: Inputs, l: Local, i: nat)
    requires Unstarted(flow, l, i) && !NeedsApproval(flow.spec.steps[i])
    ensures var (s, n) := (l.mem.steps[i], l.mem.steps[i].name);
            var job := NameOfJob(flow, n);
            ExecuteTurn(flow, inp, l, n) ==
              if job !in l.server.jobs && n !in inp.createFaults then
                (Local(l.mem.(steps := l.mem.steps[i := StepStatus(n, StepRunning, Some(Clock(inp, Starting(n))),
                                                                   s.completionTime, Some(job), s.retryCount)]),
                       WithJob(l.server, job, n)), false)
              else
                var retryable := n in inp.createFaults && inp.createFaults[n].retryable;
                var left := job !in l.server.jobs && inp.createFaults[n].applied;
                (Local(if retryable then l.mem else AfterFailure(flow, inp, l.mem, i),
                       if left then WithJob(l.server, job, n) else l.server), retryable)
  {
    StatusIndexAt(l.mem.steps, i);
    FindStepAt(flow.spec.steps, i);
    assert ExecuteStep(flow, inp, l, l.mem.steps[i].name) == CreateJob(flow, inp, l, i);
    JobNameIs(flow, l.mem.steps[i].name);
  }

  /** What a manual step's turn notes: its success if it is approved, else that it waits, which
      pauses the flow. */
  function AfterAsking(flow: Flow, inp: Inputs, st: Status, i: nat): Status
    requires i < |st.steps|
  {
    var s := st.steps[i];
    var start := Some(Clock(inp, Starting(s.name)));
    if Granted(inp, s.name) then
      st.(steps := st.steps[i := StepStatus(s.name, StepSucceeded, start, Some(Clock(inp, Finishing(s.name))), s.jobRef,
                                            s.retryCount)])
    else
      st.(steps := st.steps[i := StepStatus(s.name, StepPendingApproval, start, s.completionTime, s.jobRef,
                                            s.retryCount)],
          phase := FlowPaused)
  }

  /** The turn of a manual step. What it notes is written at once; if that fails, a retryable fault
      ends the pass and any other one fails the step. */
  lemma ManualTurn(flow: Flow, inp: Inputs, l: Local, i: nat)
    requires Unstarted(flow, l, i) && NeedsApproval(flow.spec.steps[i])
    ensures var n := l.mem.steps[i].name;
            var noted := AfterAsking(flow, inp, l.mem, i);
            var (l', stopped) := ExecuteTurn(flow, inp, l, n);
            && Written(l.server, l'.server, noted, if n in inp.stepWrites then Some(inp.stepWrites[n]) else None)
            && stopped == (n in inp.stepWrites && inp.stepWrites[n].retryable)
            && l'.mem == if n in inp.stepWrites && !stopped then AfterFailure(flow, inp, noted, i) else noted
  {
    var n := l.mem.steps[i].name;
    StatusIndexAt(l.mem.steps, i);
    FindStepAt(flow.spec.steps, i);
    assert ExecuteStep(flow, inp, l, n) == AwaitApproval(inp, l, i);
    AskingMeans(flow, inp, l, i);
    var noted := AfterAsking(flow, inp, l.mem, i);
    EntriesStayUnique(l.mem.steps, noted.steps, i);
    StatusIndexAt(noted.steps, i);
  }

  lemma AskingMeans(flow: Flow, inp: Inputs, l: Local, i: nat)
    requires i < |l.mem.steps| && l.mem.steps[i].phase == StepPending && l.mem.steps[i].startTime.None?
    ensures var n := l.mem.steps[i].name;
            var fault := if n in inp.stepWrites then Some(inp.stepWrites[n]) else None;
            var (l', error) := AwaitApproval(inp, l, i);
            && l'.mem == AfterAsking(flow, inp, l.mem, i) && error == fault
            && Written(l.server, l'.server, l'.mem, fault)
  {
    ApprovedIff(inp, l.mem.steps[i].name);
    WriteMeans(l.server, AfterAsking(flow, inp, l.mem, i), FaultFor(inp.stepWrites, l.mem.steps[i].name));
  }

  /** Asking again changes nothing: a waiting step goes on waiting without an approval, and one that
      has succeeded stays so with it. */
  lemma AskedBefore(inp: Inputs, l: Local, i: nat)
    requires i < |l.mem.steps|
    requires var s := l.mem.steps[i];
             if Granted(inp, s.name) then s.phase == StepSucceeded else s.phase == StepPendingApproval
    ensures AwaitApproval(inp, l, i) == (l, None)
  {
    ApprovedIff(inp, l.mem.steps[i].name);
  }

  /** What an existing Job makes of its step: success if it succeeded, or failed in a way that the pod
      failure policy tolerates. */
  function AfterLooking(inp: Inputs, s: StepStatus, job: Job): StepStatus
  {
    var done := Some(Clock(inp, Finishing(s.name)));
    if job.succeeded >= 1 || (job.failed >= 1 && s.name in inp.toleratedFailures)
    then StepStatus(s.name, StepSucceeded, s.startTime, done, s.jobRef, s.retryCount)
    else if job.failed >= 1 then StepStatus(s.name, StepFailed, s.startTime, done, s.jobRef, s.retryCount)
    else StepStatus(s.name, StepRunning, s.startTime, s.completionTime, s.jobRef, s.retryCount)
  }

  /** Executing a step that refers to a Job, which no pass does: the Job decides, and what it decides
      is written at once; without the Job the step is started; a Job that cannot be looked up
      leaves everything as it is. */
  lemma ExistingJob(flow: Flow, inp: Inputs, l: Local, i: nat, job: string)
    requires i < |l.mem.steps| == |flow.spec.steps| && UniqueEntries(l.mem.steps) && UniqueNames(flow.spec.steps)
    requires l.mem.steps[i].name == flow.spec.steps[i].name && l.mem.steps[i].jobRef == Some(job)
    ensures var (s, n) := (l.mem.steps[i], l.mem.steps[i].name);
            var fault := if n in inp.stepWrites then Some(inp.stepWrites[n]) else None;
            var (l', error) := ExecuteStep(flow, inp, l, n);
            if job !in inp.rereads || inp.rereads[job] == NotFound then
              (l', error) == if NeedsApproval(flow.spec.steps[i]) then AwaitApproval(inp, l, i)
                             else CreateJob(flow, inp, l, i)
            else if inp.rereads[job].Found? then
              && l'.mem == l.mem.(steps := l.mem.steps[i := AfterLooking(inp, s, inp.rereads[job].job)])
              && Written(l.server, l'.server, l'.mem, fault) && error == fault
            else l' == l && error == Some(Fault(false, inp.rereads[job].retryable))
  {
    var s := l.mem.steps[i];
    StatusIndexAt(l.mem.steps, i);
    FindStepAt(flow.spec.steps, i);
    if job in inp.rereads && inp.rereads[job].Found? {
      WriteMeans(l.server, l.mem.(steps := l.mem.steps[i := AfterLooking(inp, s, inp.rereads[job].job)]),
                 FaultFor(inp.stepWrites, s.name));
    }
  }

  // What a turn does to the flow.

  /** The i-th step has failed, and its failure is the flow's. */
  ghost predicate Breaks(flow: Flow, st: Status, i: nat)
  {
    && i < |st.steps| == |flow.spec.steps|
    && st.steps[i].phase == StepFailed && !flow.spec.steps[i].continueOnFailure
  }

  /** The i-th step is manual and not approved, so in its turn it begins to wait. */
  ghost predicate Asks(flow: Flow, inp: Inputs, i: nat)
  {
    && i < |flow.spec.steps| && NeedsApproval(flow.spec.steps[i])
    && !Granted(inp, flow.spec.steps[i].name)
  }

  ghost predicate TurnFlow(flow: Flow, inp: Inputs, before: Status, after: Status, i: nat)
    requires i < |flow.spec.steps|
  {
    && (Breaks(flow, after, i) ==>
          after.phase == FlowFailed && after.completionTime == Some(Clock(inp, Failing(flow.spec.steps[i].name))))
    && (!Breaks(flow, after, i) ==>
          && after.completionTime == before.completionTime
          && after.phase == (if Asks(flow, inp, i) then FlowPaused else before.phase))
  }

  lemma TurnOnFlow(flow: Flow, inp: Inputs, l: Local, i: nat)
    requires Unstarted(flow, l, i)
    ensures TurnFlow(flow, inp, l.mem, ExecuteTurn(flow, inp, l, l.mem.steps[i].name).0.mem, i)
    ensures ExecuteTurn(flow, inp, l, l.mem.steps[i].name).1 <==> Interrupts(flow, inp, i)
    ensures Asks(flow, inp, i) ==> Started(ExecuteTurn(flow, inp, l, l.mem.steps[i].name).0.mem, i)
  {
    if NeedsApproval(flow.spec.steps[i]) {
      ManualTurn(flow, inp, l, i);
    } else {
      JobTurn(flow, inp, l, i);
    }
  }

  /** The request that the i-th step makes in its turn meets a retryable fault. */
  ghost predicate Interrupts(flow: Flow, inp: Inputs, i: nat)
  {
    && i < |flow.spec.steps|
    && var n := flow.spec.steps[i].name;
       if NeedsApproval(flow.spec.steps[i]) then n in inp.stepWrites && inp.stepWrites[n].retryable
       else n in inp.createFaults && inp.createFaults[n].retryable
  }

  // The loop.

  ghost predicate Listed(flow: Flow, ready: seq<string>, i: nat)
  {
    i < |flow.spec.steps| && flow.spec.steps[i].name in ready
  }

  /** A listed step has failed in its turn and its failure is the flow's; the time is its. */
  ghost predicate BrokenBy(flow: Flow, inp: Inputs, st: Status, ready: seq<string>, i: nat)
  {
    && Listed(flow, ready, i) && Breaks(flow, st, i)
    && st.completionTime == Some(Clock(inp, Failing(flow.spec.steps[i].name)))
  }

  ghost predicate AnyBreaks(flow: Flow, st: Status, ready: seq<string>)
  {
    exists i: nat :: Listed(flow, ready, i) && Breaks(flow, st, i)
  }

  ghost predicate AnyBroken(flow: Flow, inp: Inputs, st: Status, ready: seq<string>)
  {
    exists i: nat :: BrokenBy(flow, inp, st, ready, i)
  }

  ghost predicate AnyAsks(flow: Flow, inp: Inputs, ready: seq<string>)
  {
    exists i: nat :: Listed(flow, ready, i) && Asks(flow, inp, i)
  }

  ghost predicate AnyAsked(flow: Flow, inp: Inputs, st: Status, ready: seq<string>)
  {
    exists i: nat :: Listed(flow, ready, i) && Asks(flow, inp, i) && Started(st, i)
  }

  /** A step of this name has failed in its turn, and its failure is the flow's. */
  ghost predicate NameBreaks(flow: Flow, st: Status, n: string)
  {
    exists i: nat :: i < |flow.spec.steps| && flow.spec.steps[i].name == n && Breaks(flow, st, i)
  }

  /** A step of this name has begun to wait in its turn. */
  ghost predicate NameAsks(flow: Flow, inp: Inputs, st: Status, n: string)
  {
    exists i: nat :: i < |flow.spec.steps| && flow.spec.steps[i].name == n && Asks(flow, inp, i) && Started(st, i)
  }

  /** The phase after the turns of a list: the last turn decides that fails the flow or pauses it. */
  ghost function LastSay(flow: Flow, inp: Inputs, st: Status, ready: seq<string>, phase: FlowPhase): FlowPhase
    decreases |ready|
  {
    if |ready| == 0 then phase
    else LastSay(flow, inp, st, ready[1..], if NameBreaks(flow, st, ready[0]) then FlowFailed
                                            else if NameAsks(flow, inp, st, ready[0]) then FlowPaused
                                            else phase)
  }

  /** What a run of the loop does to the flow's phase and completion time: it fails the flow only over
      a step that fails in its turn without leave to continue, and then it notes the time; it
      pauses it only over a manual step that is not approved. */
  ghost predicate LoopFlow(flow: Flow, inp: Inputs, before: Status, after: Status, ready: seq<string>)
  {
    && (|| after.phase == before.phase
        || (after.phase == FlowFailed && AnyBreaks(flow, after, ready))
        || (after.phase == FlowPaused && AnyAsks(flow, inp, ready)))
    && (after.completionTime == before.completionTime || AnyBroken(flow, inp, after, ready))
    && (AnyBreaks(flow, after, ready) ==>
          && AnyBroken(flow, inp, after, ready)
          && after.phase in if AnyAsks(flow, inp, ready) then {FlowFailed, FlowPaused} else {FlowFailed})
    && (!AnyBreaks(flow, after, ready) && AnyAsked(flow, inp, after, ready) ==> after.phase == FlowPaused)
    && after.phase == LastSay(flow, inp, after, ready, before.phase)
  }

  ghost predicate Started(st: Status, i: nat)
  {
    i < |st.steps| && st.steps[i].phase != StepPending
  }

  /** The pass ends in the loop exactly if some listed step is interrupted; and only the steps after
      such a one do not come to their turn. */
  ghost predicate LoopStops(flow: Flow, inp: Inputs, ready: seq<string>, stopped: bool)
  {
    stopped <==> exists i: nat :: Listed(flow, ready, i) && Interrupts(flow, inp, i)
  }

  lemma GoodIsUnstarted(flow: Flow, l: Local, i: nat, started: set<string>, approved: set<string>)
    requires StepsValid(flow.spec.steps) && GoodSteps(flow, l.mem.steps, started, approved)
    requires i < |l.mem.steps| && l.mem.steps[i].phase == StepPending
    ensures Unstarted(flow, l, i)
  {
    GoodStepsUnique(flow, l.mem.steps, started, approved);
    assert StepInv(flow, flow.spec.steps[i], l.mem.steps[i], started, approved);
  }

  /** The first of the list and the others. */
  lemma OneListed(flow: Flow, ready: seq<string>, i: nat)
    requires UniqueNames(flow.spec.steps) && i < |flow.spec.steps|
    requires |ready| > 0 && ready[0] == flow.spec.steps[i].name
    ensures forall j: nat :: Listed(flow, ready, j) <==> j == i || Listed(flow, ready[1..], j)
  {
    assert ready == [ready[0]] + ready[1..];
    forall j: nat | j < |flow.spec.steps| && j != i
      ensures flow.spec.steps[j].name != flow.spec.steps[i].name
    {
      assert j < i || i < j;
    }
  }

  /** The loop stops in this turn; the rest of the list is still pending. */
  lemma StoppedFlow(flow: Flow, inp: Inputs, m0: Status, m1: Status, ready: seq<string>, i: nat)
    requires i < |flow.spec.steps| == |m1.steps| && TurnFlow(flow, inp, m0, m1, i)
    requires |ready| > 0 && ready[0] == flow.spec.steps[i].name && UniqueNames(flow.spec.steps) && Distinct(ready)
    requires Asks(flow, inp, i) ==> Started(m1, i)
    requires forall j: nat :: Listed(flow, ready, j) <==> j == i || Listed(flow, ready[1..], j)
    requires forall j: nat :: Listed(flow, ready, j) && j != i ==> m1.steps[j].phase == StepPending
    ensures LoopFlow(flow, inp, m0, m1, ready)
  {
    assert Listed(flow, ready, i);
    if Breaks(flow, m1, i) {
      assert BrokenBy(flow, inp, m1, ready, i);
    }
    forall n | n in ready[1..]
      ensures !NameBreaks(flow, m1, n) && !NameAsks(flow, inp, m1, n)
    {
      assert ready[0] !in ready[1..];
      forall j: nat | j < |flow.spec.steps| && flow.spec.steps[j].name == n
        ensures m1.steps[j].phase == StepPending
      {
        assert Listed(flow, ready[1..], j);
      }
    }
    NoSay(flow, inp, m1, ready[1..], m1.phase);
    NameOfTurn(flow, inp, m0, m1, m1, ready[0], i);
  }

  lemma {:induction false} NoSay(flow: Flow, inp: Inputs, st: Status, ready: seq<string>, phase: FlowPhase)
    requires forall n :: n in ready ==> !NameBreaks(flow, st, n) && !NameAsks(flow, inp, st, n)
    ensures LastSay(flow, inp, st, ready, phase) == phase
    decreases |ready|
  {
    if |ready| > 0 {
      assert ready[0] in ready;
      NoSay(flow, inp, st, ready[1..], phase);
    }
  }

  /** The phase after one turn, by the name of its step. */
  lemma NameOfTurn(flow: Flow, inp: Inputs, m0: Status, m1: Status, st: Status, n: string, i: nat)
    requires UniqueNames(flow.spec.steps) && i < |flow.spec.steps| == |m1.steps| == |st.steps|
    requires flow.spec.steps[i].name == n && TurnFlow(flow, inp, m0, m1, i) && st.steps[i] == m1.steps[i]
    requires Asks(flow, inp, i) ==> Started(m1, i)
    ensures m1.phase == if NameBreaks(flow, st, n) then FlowFailed
                        else if NameAsks(flow, inp, st, n) then FlowPaused else m0.phase
  {
    forall j: nat | j < |flow.spec.steps| && flow.spec.steps[j].name == n
      ensures j == i
    {
      assert j <= i && i <= j;
    }
    assert Breaks(flow, st, i) <==> Breaks(flow, m1, i);
    assert Started(st, i) <==> Started(m1, i);
  }

  lemma FlowCompose(flow: Flow, inp: Inputs, m0: Status, m1: Status, m2: Status, ready: seq<string>, i: nat)
    requires |ready| > 0 && i < |flow.spec.steps| == |m1.steps| == |m2.steps|
    requires TurnFlow(flow, inp, m0, m1, i) && LoopFlow(flow, inp, m1, m2, ready[1..])
    requires m2.steps[i] == m1.steps[i] && ready[0] == flow.spec.steps[i].name && UniqueNames(flow.spec.steps)
    requires Asks(flow, inp, i) ==> Started(m1, i)
    requires forall j: nat :: Listed(flow, ready, j) <==> j == i || Listed(flow, ready[1..], j)
    ensures LoopFlow(flow, inp, m0, m2, ready)
  {
    var rest := ready[1..];
    NameOfTurn(flow, inp, m0, m1, m2, ready[0], i);
    assert Listed(flow, ready, i) && (Breaks(flow, m2, i) <==> Breaks(flow, m1, i));
    forall j: nat | BrokenBy(flow, inp, m2, rest, j)
      ensures BrokenBy(flow, inp, m2, ready, j)
    {
    }
    if m2.completionTime == m1.completionTime && Breaks(flow, m1, i) {
      assert BrokenBy(flow, inp, m2, ready, i);
    }
  }

  lemma OthersPend(flow: Flow, l: Local, l1: Local, ready: seq<string>, i: nat, started: set<string>,
          approved: set<string>)
    requires StepsValid(flow.spec.steps) && GoodSteps(flow, l.mem.steps, started, approved)
    requires AllPending(l.mem.steps, ready) && OnlyStep(l.mem, l1.mem, i)
    ensures forall j: nat :: Listed(flow, ready, j) && j != i ==>
              j < |l1.mem.steps| && l1.mem.steps[j].phase == StepPending
  {
    forall j: nat | Listed(flow, ready, j) && j != i
      ensures j < |l1.mem.steps| && l1.mem.steps[j].phase == StepPending
    {
      var k :| 0 <= k < |l.mem.steps| && l.mem.steps[k].name == flow.spec.steps[j].name &&
               l.mem.steps[k].phase == StepPending;
      Located(flow, l.mem.steps, started, approved, j);
      Located(flow, l.mem.steps, started, approved, k);
    }
  }

  /** The turn is over and the pass goes on: what the rest of the loop starts from, and what it leaves
      alone. */
  lemma LoopGoesOn(flow: Flow, inp: Inputs, l: Local, l1: Local, ready: seq<string>, i: nat, started: set<string>,
          approved: set<string>)
    requires StepsValid(flow.spec.steps)
    requires GoodStatus(flow, l.mem, started, approved) && GoodStatus(flow, l.server.status, started, approved)
    requires ApprovedNames(flow, inp) <= approved && AllPending(l.mem.steps, ready) && |ready| > 0
    requires i < |l.mem.steps| && l.mem.steps[i].name == ready[0] && l.mem.steps[i].phase == StepPending
    requires TurnEffect(flow, inp, l, l1, i)
    ensures GoodStatus(flow, l1.mem, started + NotPending(l1.mem.steps), approved)
    ensures GoodStatus(flow, l1.server.status, started + NotPending(l1.mem.steps), approved)
    ensures AllPending(l1.mem.steps, ready[1..])
    ensures var m2 := RunReady(flow, inp, l1, ready[1..]).0.mem;
            |m2.steps| == |l1.mem.steps| == |flow.spec.steps| && m2.steps[i] == l1.mem.steps[i]
  {
    TurnInvariants(flow, inp, l, l1, i, started, approved);
    AllPendingTail(l.mem.steps, l1.mem.steps, ready, i);
    RunReadyKeeps(flow, inp, l1, ready[1..], started + NotPending(l1.mem.steps), approved);
    assert StepInv(flow, flow.spec.steps[i], l.mem.steps[i], started, approved);
    assert l1.mem.steps[i].name == ready[0] && ready[0] !in ready[1..];
  }

  lemma {:induction false} LoopMeans(flow: Flow, inp: Inputs, l: Local, ready: seq<string>, started: set<string>,
          approved: set<string>)
    requires StepsValid(flow.spec.steps)
    requires GoodStatus(flow, l.mem, started, approved) && GoodStatus(flow, l.server.status, started, approved)
    requires ApprovedNames(flow, inp) <= approved && AllPending(l.mem.steps, ready)
    ensures LoopFlow(flow, inp, l.mem, RunReady(flow, inp, l, ready).0.mem, ready)
    ensures LoopStops(flow, inp, ready, RunReady(flow, inp, l, ready).1)
    decreases |ready|
  {
    if |ready| > 0 {
      assert ready[0] in ready;
      var i :| 0 <= i < |l.mem.steps| && l.mem.steps[i].name == ready[0] && l.mem.steps[i].phase == StepPending;
      GoodIsUnstarted(flow, l, i, started, approved);
      TurnOnFlow(flow, inp, l, i);
      TurnKeeps(flow, inp, l, i, started, approved);
      var (l1, stopped) := ExecuteTurn(flow, inp, l, ready[0]);
      GoodStepsUnique(flow, l.mem.steps, started, approved);
      OneListed(flow, ready, i);
      if stopped {
        OthersPend(flow, l, l1, ready, i, started, approved);
        StoppedFlow(flow, inp, l.mem, l1.mem, ready, i);
      } else {
        LoopGoesOn(flow, inp, l, l1, ready, i, started, approved);
        LoopMeans(flow, inp, l1, ready[1..], started + NotPending(l1.mem.steps), approved);
        FlowCompose(flow, inp, l.mem, l1.mem, RunReady(flow, inp, l1, ready[1..]).0.mem, ready, i);
      }
    }
  }

  /** A failure is covered up by a manual step that begins to wait after it in the same pass: the flow
      is paused, with the time of the failure as its completion time. */
  lemma PausedOverFailure(flow: Flow, inp: Inputs, l: Local, i: nat, j: nat)
    requires Unstarted(flow, l, i) && Unstarted(flow, l, j) && i != j
    requires !NeedsApproval(flow.spec.steps[i]) && !flow.spec.steps[i].continueOnFailure
    requires NameOfJob(flow, l.mem.steps[i].name) in l.server.jobs && l.mem.steps[i].name !in inp.createFaults
    requires Asks(flow, inp, j) && l.mem.steps[j].name !in inp.stepWrites
    ensures var l' := RunReady(flow, inp, l, [l.mem.steps[i].name, l.mem.steps[j].name]).0;
            && Breaks(flow, l'.mem, i) && l'.mem.phase == FlowPaused
            && l'.mem.completionTime == Some(Clock(inp, Failing(flow.spec.steps[i].name)))
  {
    var a, b := l.mem.steps[i].name, l.mem.steps[j].name;
    JobTurn(flow, inp, l, i);
    var l1 := ExecuteTurn(flow, inp, l, a).0;
    EntriesStayUnique(l.mem.steps, l1.mem.steps, i);
    ManualTurn(flow, inp, l1, j);
    assert [a, b][1..] == [b] && [b][1..] == [];
    assert RunReady(flow, inp, l1, [b]) == RunReady(flow, inp, ExecuteTurn(flow, inp, l1, b).0, []);
  }

  // The entries after the loop.

  /** What its turn makes of the entry of a listed step, if the pass goes on after it. */
  function TurnEntry(flow: Flow, inp: Inputs, jobs: map<string, Job>, s: StepStatus, spec: Step): StepStatus
  {
    var n, start := s.name, Some(Clock(inp, Starting(s.name)));
    if NeedsApproval(spec) then
      if n in inp.stepWrites then
        s.(phase := StepFailed, startTime := start,
           completionTime := if Granted(inp, n) then Some(Clock(inp, Finishing(n))) else s.completionTime)
      else if Granted(inp, n) then
        s.(phase := StepSucceeded, startTime := start, completionTime := Some(Clock(inp, Finishing(n))))
      else s.(phase := StepPendingApproval, startTime := start)
    else if NameOfJob(flow, n) !in jobs && n !in inp.createFaults then
      s.(phase := StepRunning, startTime := start, jobRef := Some(NameOfJob(flow, n)))
    else s.(phase := StepFailed)
  }

  lemma OwnEntry(flow: Flow, inp: Inputs, l: Local, i: nat)
    requires Unstarted(flow, l, i) && !ExecuteTurn(flow, inp, l, l.mem.steps[i].name).1
    ensures var l' := ExecuteTurn(flow, inp, l, l.mem.steps[i].name).0;
            && |l'.mem.steps| == |l.mem.steps| && UniqueEntries(l'.mem.steps)
            && l'.mem.steps[i] == TurnEntry(flow, inp, l.server.jobs, l.mem.steps[i], flow.spec.steps[i])
  {
    if NeedsApproval(flow.spec.steps[i]) {
      ManualTurn(flow, inp, l, i);
    } else {
      JobTurn(flow, inp, l, i);
    }
    EntriesStayUnique(l.mem.steps, ExecuteTurn(flow, inp, l, l.mem.steps[i].name).0.mem.steps, i);
  }

  /** The entry after the loop is decided by what the loop started from, whatever becomes of the
      other steps of the list. */
  lemma {:induction false} LoopEntries(flow: Flow, inp: Inputs, l: Local, ready: seq<string>, i: nat)
    requires Unstarted(flow, l, i) && l.mem.steps[i].name in ready && Distinct(ready)
    requires !RunReady(flow, inp, l, ready).1
    ensures var l' := RunReady(flow, inp, l, ready).0;
            && i < |l'.mem.steps|
            && l'.mem.steps[i] == TurnEntry(flow, inp, l.server.jobs, l.mem.steps[i], flow.spec.steps[i])
    decreases |ready|
  {
    var l1 := ExecuteTurn(flow, inp, l, ready[0]).0;
    var rest := ready[1..];
    assert ready == [ready[0]] + rest && ready[0] !in rest;
    JobNameIs(flow, l.mem.steps[i].name);
    if ready[0] == l.mem.steps[i].name {
      OwnEntry(flow, inp, l, i);
      LoopLeaves(flow, inp, l1, rest, i);
    } else {
      OtherLeaves(flow, inp, l, ready[0], i);
      LoopEntries(flow, inp, l1, rest, i);
    }
  }

  // The end of a pass.

  /** The places of the entries that have this phase. */
  function Places(steps: seq<StepStatus>, phase: StepPhase): set<nat>
  {
    set i: nat | i < |steps| && steps[i].phase == phase
  }

  lemma PlacesSnoc(steps: seq<StepStatus>, phase: StepPhase)
    requires |steps| > 0
    ensures Places(steps, phase) == Places(steps[..|steps| - 1], phase)
                                    + if steps[|steps| - 1].phase == phase then {|steps| - 1} else {}
  {
    var front := steps[..|steps| - 1];
    forall i: nat
      ensures i in Places(steps, phase) <==>
                i in Places(front, phase) || (i == |steps| - 1 && steps[i].phase == phase)
    {
      if i < |front| {
        assert front[i] == steps[i];
      }
    }
  }

  lemma {:induction false} CountIs(steps: seq<StepStatus>, phase: StepPhase)
    ensures CountPhase(steps, phase) == |Places(steps, phase)|
  {
    if |steps| > 0 {
      CountIs(steps[..|steps| - 1], phase);
      PlacesSnoc(steps, phase);
    }
  }

  /** How the last stage leaves the status: it counts, and once every step has succeeded or failed it
      decides the flow; until then a flow that was pending is running. */
  lemma EndMeans(st: Status, now: int)
    ensures var after := UpdateStatus(st, now);
            && after.steps == st.steps && after.startTime == st.startTime
            && (if forall i :: 0 <= i < |st.steps| ==> st.steps[i].phase in {StepSucceeded, StepFailed}
                then && after.completionTime == Some(now)
                     && after.phase == (if forall i :: 0 <= i < |st.steps| ==> st.steps[i].phase == StepSucceeded
                                        then FlowSucceeded else FlowFailed)
                else && after.completionTime == st.completionTime
                     && after.phase == if st.phase in {FlowUnset, FlowPending} then FlowRunning else st.phase)
            && (st.progress.None? ==> after.progress.None?)
            && (st.progress.Some? ==>
                  var (good, bad) := (|Places(st.steps, StepSucceeded)|, |Places(st.steps, StepFailed)|);
                  after.progress == Some(Progress(good + bad, st.progress.value.total, good, bad)))
  {
    CountIs(st.steps, StepSucceeded);
    CountIs(st.steps, StepFailed);
  }
}
