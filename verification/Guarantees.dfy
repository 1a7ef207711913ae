/** The guarantees of the reconciler over every legal run. */
module Guarantees {
  import opened Types
  import opened Digraph
  import opened Dag
  import opened Validation
  import opened Transition
  import opened Planning
  import opened Invariant
  import opened Runs

  lemma RunSplit(flow: Flow, run: seq<Move>)
    requires |run| > 0 && LegalRun(flow, run)
    ensures LegalRun(flow, run[..|run| - 1]) && LegalMove(flow, run[|run| - 1])
    ensures After(flow, run) == Apply(flow, After(flow, run[..|run| - 1]), run[|run| - 1])
  {
  }

  /** The last move of a run that continues another one. */
  lemma Continued(flow: Flow, before: seq<Move>, later: seq<Move>)
    requires LegalRun(flow, before + later)
    ensures |later| == 0 ==> before + later == before
    ensures |later| > 0 ==>
              && LegalRun(flow, before + later[..|later| - 1]) && LegalMove(flow, later[|later| - 1])
              && Inv(flow, After(flow, before + later[..|later| - 1]))
              && After(flow, before + later) == Apply(flow, After(flow, before + later[..|later| - 1]),
                  later[|later| - 1])
  {
    if |later| > 0 {
      var front, last := later[..|later| - 1], later[|later| - 1];
      assert (before + later)[..|before + later| - 1] == before + front;
      assert (before + later)[|before + later| - 1] == last;
      RunSplit(flow, before + later);
      RunKeeps(flow, before + front);
    } else {
      assert before + later == before;
    }
  }

  // Start order.

  /** When a step leaves Pending for the first time, or gets its first Job, every step that it
      depends on, directly or not, has left Pending or got a Job in an earlier pass. This
      holds over lost writes, repeated passes, and outdated reads of Jobs and of the flow. */
  lemma {:induction false} StartOrder(flow: Flow, run: seq<Move>, n: string, d: string)
    requires LegalRun(flow, run) && |run| > 0
    requires n in After(flow, run).started && n !in After(flow, run[..|run| - 1]).started
    requires Reaches(Edges(flow), n, d)
    ensures d in After(flow, run[..|run| - 1]).started
  {
    var front, last := run[..|run| - 1], run[|run| - 1];
    RunSplit(flow, run);
    RunKeeps(flow, front);
    var before := After(flow, front);
    MoveKeeps(flow, before, last);
    assert n in NewlyStarted(flow, before, last);
    var m := ReachesSplit(Edges(flow), n, d);
    if m != d {
      var p :| PathBetween(Edges(flow), p, m, d);
      ClosedUnderReach(Edges(flow), before.started, m, d, p);
    }
  }

  /** The pass of a move planned the step, having seen each of its dependencies succeeded, or
      failed with leave to continue. */
  ghost predicate PlannedBy(flow: Flow, s: State, move: Move, n: string)
  {
    && !move.Environment? && move.choices.sorted.Some?
    && n in Reconcile(flow, Seen(s, move), Given(flow, move), move.choices).ready
    && Ready(StepMap(flow.spec.steps), move.choices.sorted.value,
        Refreshed(Given(flow, move), Seen(s, move).status).steps,
             Given(flow, move).whenTrue, n)
  }

  /** A step starts only in a pass whose plan holds it. */
  lemma {:induction false} StartWasPlanned(flow: Flow, run: seq<Move>, n: string)
    requires LegalRun(flow, run) && |run| > 0
    requires n in After(flow, run).started && n !in After(flow, run[..|run| - 1]).started
    ensures PlannedBy(flow, After(flow, run[..|run| - 1]), run[|run| - 1], n)
  {
    var front, move := run[..|run| - 1], run[|run| - 1];
    RunSplit(flow, run);
    RunKeeps(flow, front);
    var s := After(flow, front);
    MoveKeeps(flow, s, move);
    assert n in NewlyStarted(flow, s, move);
    var inp, ch := Given(flow, move), move.choices;
    PlannedInPass(flow, s, move, n);
    SelectReadyContents(StepMap(flow.spec.steps), ch.sorted.value, Refreshed(inp, Seen(s, move).status).steps,
                        inp.whenTrue, ch.sorted.value);
  }

  lemma PlannedInPass(flow: Flow, s: State, move: Move, n: string)
    requires StepsValid(flow.spec.steps) && LegalMove(flow, move) && Inv(flow, s) && !move.Environment?
    requires n in NewlyStarted(flow, s, move)
    ensures move.choices.sorted.Some?
    ensures n in Reconcile(flow, Seen(s, move), Given(flow, move), move.choices).ready
    ensures n in Planned(flow, Seen(s, move).status, Given(flow, move), move.choices.sorted.value)
  {
    var seen := s.(server := Seen(s, move));
    StoredNow(flow, s);
    if move.StalePass? {
      OutdatedGood(flow, s, move.age);
    }
    StartsInExecution(flow, seen, Given(flow, move), move.choices, n);
  }

  /** Only the execution loop starts steps, and only planned ones. */
  lemma StartsInExecution(flow: Flow, s: State, inp: Inputs, ch: Choices, n: string)
    requires StepsValid(flow.spec.steps) && LegalChoices(flow, ch)
    requires HistoryInv(flow, s) && StatusInv(flow, s.server.status, s.started, s.approved)
    requires n in Record(flow, s, inp, Reconcile(flow, s.server, inp, ch)).started && n !in s.started
    ensures ch.sorted.Some?
    ensures n in Reconcile(flow, s.server, inp, ch).ready
    ensures n in Planned(flow, s.server.status, inp, ch.sorted.value)
  {
    var st := s.server.status;
    var approved := s.approved + ApprovedNames(flow, inp);
    if NotInitialized(flow, st) {
      InitialPassStartsNothing(flow, s, inp, ch);
    } else {
      GoodStepsGrow(flow, st.steps, s.started, s.approved, s.started, approved);
      NotPendingStarted(flow, st.steps, s.started, approved);
      UnsortedPassStartsNothing(flow, s.server, inp, ch, n);
      StagesGood(flow, st, inp, ch.sorted.value, s.started, approved);
      NotPendingStarted(flow, Refreshed(inp, st).steps, s.started, approved);
      StartsAfterAdvance(flow, s.server, inp, ch, n);
      ExecutedHistory(flow, s, inp, ch.sorted.value, approved, n);
    }
  }

  lemma InitialPassStartsNothing(flow: Flow, s: State, inp: Inputs, ch: Choices)
    requires StepsValid(flow.spec.steps) && NotInitialized(flow, s.server.status) && s.server.created <= s.started
    ensures Record(flow, s, inp, Reconcile(flow, s.server, inp, ch)).started == s.started
  {
    assert TotalRetries32(s.server.status.steps) == 0;
    assert NotPending(Initialize(flow, s.server.status, Clock(inp, Initializing)).steps) == {};
  }

  lemma UnsortedPassStartsNothing(flow: Flow, server: Server, inp: Inputs, ch: Choices, n: string)
    requires StepsValid(flow.spec.steps) && HasInitialized(server.status)
    requires var out := Reconcile(flow, server, inp, ch); n in NotPending(out.mem.steps) + out.server.created
    requires n !in NotPending(server.status.steps) + server.created
    ensures ch.sorted.Some?
  {
  }

  /** What is outside Pending at the end of a pass and was not before comes out of the
      execution loop. */
  lemma StartsAfterAdvance(flow: Flow, server: Server, inp: Inputs, ch: Choices, n: string)
    requires StepsValid(flow.spec.steps) && HasInitialized(server.status) && ch.sorted.Some?
    requires var out := Reconcile(flow, server, inp, ch); n in NotPending(out.mem.steps) + out.server.created
    requires n !in NotPending(server.status.steps) + server.created + NotPending(Refreshed(inp, server.status).steps)
    ensures Reconcile(flow, server, inp, ch).ready == Planned(flow, server.status, inp, ch.sorted.value)
    ensures var l := Executed(flow, server, inp, ch.sorted.value).0;
            n in NotPending(l.mem.steps) + l.server.created
  {
    if !RefreshAborts(inp, server.status, ch.firstErrorRetryable) {
      AdvanceEnds(flow, server, inp, ch.sorted.value, ch.firstErrorRetryable);
    }
  }

  // The approval gate.

  /** No Job of a step behind a manual step that may not be skipped is ever created unless
      the approval of that manual step has been observed, in the same pass at the latest. */
  lemma {:induction false} ApprovalGate(flow: Flow, run: seq<Move>, n: string, m: string)
    requires LegalRun(flow, run)
    requires n in After(flow, run).server.created
    requires Reaches(Edges(flow), n, m) && Gatekeeper(flow, m)
    ensures m in After(flow, run).approved && Observed(run, m)
  {
    RunKeeps(flow, run);
    ApprovalObserved(flow, run, m);
  }

  /** Some pass of the run read a flow with the approval annotation of m set to "true". */
  ghost predicate Observed(run: seq<Move>, m: string)
  {
    exists i :: 0 <= i < |run| && !run[i].Environment? && Approved(run[i].inp.annotations, m)
  }

  lemma ObservedSnoc(run: seq<Move>, m: string)
    requires |run| > 0
    ensures Observed(run, m) <==>
              Observed(run[..|run| - 1], m) || (!run[|run| - 1].Environment? &&
                  Approved(run[|run| - 1].inp.annotations, m))
  {
    var front := run[..|run| - 1];
    if Observed(front, m) {
      var i :| 0 <= i < |front| && !front[i].Environment? && Approved(front[i].inp.annotations, m);
      assert run[i] == front[i];
    }
    if Observed(run, m) {
      var i :| 0 <= i < |run| && !run[i].Environment? && Approved(run[i].inp.annotations, m);
      if i < |front| {
        assert front[i] == run[i];
      }
    }
  }

  /** The approval history holds exactly what was really seen. */
  lemma {:induction false} ApprovalObserved(flow: Flow, run: seq<Move>, m: string)
    requires LegalRun(flow, run)
    ensures m in After(flow, run).approved <==> m in Names(flow.spec.steps) && Observed(run, m)
  {
    if |run| > 0 {
      RunSplit(flow, run);
      ApprovalObserved(flow, run[..|run| - 1], m);
      ObservedSnoc(run, m);
      ApprovedByMove(flow, After(flow, run[..|run| - 1]), run[|run| - 1], m);
    }
  }

  lemma ApprovedByMove(flow: Flow, s: State, move: Move, m: string)
    ensures m in Apply(flow, s, move).approved <==>
              m in s.approved || (!move.Environment? && m in Names(flow.spec.steps) &&
                  Approved(move.inp.annotations, m))
  {
  }

  // The spelling of approvals.

  function Slashes(s: string): nat
  {
    if |s| == 0 then 0 else Slashes(s[1..]) + if s[0] == '/' then 1 else 0
  }

  lemma {:induction false} SlashesAppend(s: string, t: string)
    ensures Slashes(s + t) == Slashes(s) + Slashes(t)
    decreases |s|
  {
    if |s| == 0 {
      assert s + t == t;
    } else {
      assert (s + t)[1..] == s[1..] + t;
      SlashesAppend(s[1..], t);
    }
  }

  /** Kubernetes allows an annotation key one slash, between an optional prefix and a name. */
  predicate QualifiedKeys(annotations: map<string, string>)
  {
    forall key :: key in annotations ==> Slashes(key) <= 1
  }

  /** The approval key of a step has a slash in its prefix and another one before the step's
      name, so a map of qualified keys approves nothing. */
  lemma QualifiedApprovesNothing(annotations: map<string, string>, step: string)
    requires QualifiedKeys(annotations)
    ensures !Approved(annotations, step)
  {
    var slash := "/";
    assert slash[1..] == "" && Slashes(slash) == 1;
    var domain, name := "workflow.kube-zen.io", "approved";
    assert APPROVAL_KEY == domain + slash + name;
    SlashesAppend(domain + slash, name);
    SlashesAppend(domain, slash);
    SlashesAppend(APPROVAL_KEY, slash);
    SlashesAppend(APPROVAL_KEY + slash, step);
  }

  /** So with annotations that Kubernetes accepts, no manual step ever succeeds in any stored
      status, and no Job behind a manual step that may not be skipped is ever created. */
  lemma {:induction false} QualifiedKeysNeverApprove(flow: Flow, run: seq<Move>)
    requires LegalRun(flow, run)
    requires forall i :: 0 <= i < |run| && !run[i].Environment? ==> QualifiedKeys(run[i].inp.annotations)
    ensures After(flow, run).approved == {}
    ensures forall age: nat, i: nat :: !ManualSuccess(flow, After(flow, run).server, age, i)
    ensures forall n, m :: n in After(flow, run).server.created && Gatekeeper(flow, m) ==> !Reaches(Edges(flow), n, m)
  {
    RunKeeps(flow, run);
    var s := After(flow, run);
    forall m
      ensures m !in s.approved
    {
      if Observed(run, m) {
        var i :| 0 <= i < |run| && !run[i].Environment? && Approved(run[i].inp.annotations, m);
        QualifiedApprovesNothing(run[i].inp.annotations, m);
      }
      ApprovalObserved(flow, run, m);
    }
    forall age: nat, i: nat | age < |s.server.history| && i < |s.server.history[age].steps|
      ensures !ManualSuccess(flow, s.server, age, i)
    {
      assert StoredGood(flow, s.server.history[age], s.started, s.approved);
      assert i < |flow.spec.steps| ==>
        StepInv(flow, flow.spec.steps[i], s.server.history[age].steps[i], s.started, s.approved);
    }
  }

  /** The i-th step is manual and has succeeded in the stored status number age. */
  ghost predicate ManualSuccess(flow: Flow, server: Server, age: nat, i: nat)
  {
    && age < |server.history| && i < |server.history[age].steps| && i < |flow.spec.steps|
    && IsManual(flow.spec.steps[i]) && server.history[age].steps[i].phase == StepSucceeded
  }

  // Flows that must not run.

  /** A flow that fails the step checks or whose dependencies have a cycle never starts a
      step and never creates a Job. */
  lemma {:induction false} BrokenFlowNeverStarts(flow: Flow, run: seq<Move>)
    requires LegalRun(flow, run)
    requires !StepsValid(flow.spec.steps) || HasCycle(Edges(flow))
    ensures After(flow, run).started == {} && After(flow, run).server.created == {}
  {
    RunKeeps(flow, run);
    if |run| > 0 && StepsValid(flow.spec.steps) {
      var front, last := run[..|run| - 1], run[|run| - 1];
      RunSplit(flow, run);
      BrokenFlowNeverStarts(flow, front);
      RunKeeps(flow, front);
      if n :| n in After(flow, run).started {
        PlannedInPass(flow, After(flow, front), last, n);
      }
    }
  }

  // Field invariants.

  /** In every status that a run has ever stored the fields of each step agree with its
      phase. */
  lemma {:induction false} FieldsAlwaysAgree(flow: Flow, run: seq<Move>, age: nat, i: nat)
    requires LegalRun(flow, run) && age < |After(flow, run).server.history|
    requires i < |After(flow, run).server.history[age].steps|
    ensures i < |flow.spec.steps|
    ensures FieldsAgree(flow, flow.spec.steps[i], After(flow, run).server.history[age].steps[i])
  {
    RunKeeps(flow, run);
    var s := After(flow, run);
    assert StoredGood(flow, s.server.history[age], s.started, s.approved);
    assert StepInv(flow, flow.spec.steps[i], s.server.history[age].steps[i], s.started, s.approved);
  }

  /** Every status that a run has ever stored has one entry for each step, in the order of the
      specification, or none at all before initialisation. */
  lemma {:induction false} OneEntryPerStep(flow: Flow, run: seq<Move>, age: nat)
    requires LegalRun(flow, run) && age < |After(flow, run).server.history|
    ensures var steps := After(flow, run).server.history[age].steps;
            && UniqueEntries(steps)
            && (steps == [] || (|steps| == |flow.spec.steps| && forall i :: 0 <= i < |steps| ==>
                steps[i].name == flow.spec.steps[i].name))
  {
    RunKeeps(flow, run);
    var s := After(flow, run);
    assert StoredGood(flow, s.server.history[age], s.started, s.approved);
    if s.server.history[age].steps != [] {
      GoodStepsUnique(flow, s.server.history[age].steps, s.started, s.approved);
    }
  }

  /** No turn of the execution loop meets a step that already refers to a Job. */
  ghost predicate NeverMeetsJob(flow: Flow, inp: Inputs, l: Local, ready: seq<string>)
    decreases |ready|
  {
    |ready| > 0 ==>
      var i := StatusIndex(l.mem.steps, ready[0]);
      var (l', stopped) := ExecuteTurn(flow, inp, l, ready[0]);
      && i.Some? && l.mem.steps[i.value].jobRef.None?
      && (!stopped ==> NeverMeetsJob(flow, inp, l', ready[1..]))
  }

  lemma {:induction false} LoopNeverMeetsJob(flow: Flow, inp: Inputs, l: Local, ready: seq<string>,
          started: set<string>, approved: set<string>)
    requires StepsValid(flow.spec.steps)
    requires GoodStatus(flow, l.mem, started, approved) && GoodStatus(flow, l.server.status, started, approved)
    requires ApprovedNames(flow, inp) <= approved && AllPending(l.mem.steps, ready)
    ensures NeverMeetsJob(flow, inp, l, ready)
    decreases |ready|
  {
    if |ready| > 0 {
      assert ready[0] in ready;
      var i :| 0 <= i < |l.mem.steps| && l.mem.steps[i].name == ready[0] && l.mem.steps[i].phase == StepPending;
      Located(flow, l.mem.steps, started, approved, i);
      TurnKeeps(flow, inp, l, i, started, approved);
      var (l1, stopped) := ExecuteTurn(flow, inp, l, ready[0]);
      if !stopped {
        TurnInvariants(flow, inp, l, l1, i, started, approved);
        AllPendingTail(l.mem.steps, l1.mem.steps, ready, i);
        LoopNeverMeetsJob(flow, inp, l1, ready[1..], started + NotPending(l1.mem.steps), approved);
      }
    }
  }

  /** So the branch of executeStep for an existing Job is unreachable from Reconcile: no pass
      takes it, whichever stored status it reads. */
  lemma {:induction false} ExistingJobBranchUnreachable(flow: Flow, run: seq<Move>, age: nat, inp: Inputs,
          sorted: seq<string>)
    requires LegalRun(flow, run) && StepsValid(flow.spec.steps) && Distinct(sorted)
    requires age < |After(flow, run).server.history| && After(flow, run).server.history[age].steps != []
    ensures var server := Outdated(After(flow, run).server, age);
            NeverMeetsJob(flow, inp, Local(Retried(flow, inp, server.status), AfterTimeouts(flow, inp, server)),
                          Planned(flow, server.status, inp, sorted))
  {
    RunKeeps(flow, run);
    var s := After(flow, run);
    OutdatedGood(flow, s, age);
    LoopFromGood(flow, s.(server := Outdated(s.server, age)), inp, sorted);
  }

  lemma LoopFromGood(flow: Flow, s: State, inp: Inputs, sorted: seq<string>)
    requires StepsValid(flow.spec.steps) && Distinct(sorted)
    requires GoodStatus(flow, s.server.status, s.started, s.approved)
    ensures NeverMeetsJob(flow, inp, Local(Retried(flow, inp, s.server.status), AfterTimeouts(flow, inp, s.server)),
                          Planned(flow, s.server.status, inp, sorted))
  {
    var approved := s.approved + ApprovedNames(flow, inp);
    GoodStepsGrow(flow, s.server.status.steps, s.started, s.approved, s.started, approved);
    StagesGood(flow, s.server.status, inp, sorted, s.started, approved);
    LoopNeverMeetsJob(flow, inp, Local(Retried(flow, inp, s.server.status), AfterTimeouts(flow, inp, s.server)),
                      Planned(flow, s.server.status, inp, sorted), s.started, approved);
  }

  // Gates that stay closed.

  /** A gate stops the pass that reads this status. */
  ghost predicate Halts(flow: Flow, st: Status, now: int)
  {
    StepsValid(flow.spec.steps) ==> DeadlineExceeded(flow, st, now) || BackoffExceeded(flow, st)
  }

  /** Some pass of the run that read the flow as stored was let through the concurrency check,
      and its write took effect. */
  ghost predicate Recorded(flow: Flow, run: seq<Move>)
  {
    exists i :: 0 <= i < |run| && Records(flow, run[i])
  }

  predicate Writes(move: Move)
  {
    move.Pass? && (move.inp.lastWrite.None? || move.inp.lastWrite.value.applied)
  }

  ghost predicate Records(flow: Flow, move: Move)
  {
    Writes(move) && !(StepsValid(flow.spec.steps) && move.inp.concurrencyError)
  }

  ghost predicate ClockAtLeast(run: seq<Move>, t: int)
  {
    forall i :: 0 <= i < |run| && !run[i].Environment? ==> run[i].inp.now >= t
  }

  /** What may happen to the stored status behind a closed gate: at most the flow's phase
      becomes Failed, and its completion time is set. */
  ghost predicate FrozenStatus(a: Status, b: Status)
  {
    b.steps == a.steps && b.startTime == a.startTime && (b.phase == a.phase || b.phase == FlowFailed)
  }

  /** Nothing starts either, and no Job is created. */
  ghost predicate Frozen(s: State, s': State)
  {
    && FrozenStatus(s.server.status, s'.server.status)
    && s'.server.created == s.server.created && s'.started == s.started
  }

  /** A pass that reads an outdated flow is stopped all the same: by a gate, or because that
      flow still has to be initialised. */
  ghost predicate StaleHalts(flow: Flow, s: State, move: Move, t: int)
  {
    move.StalePass? ==> Halts(flow, Seen(s, move).status, t) || !HasInitialized(Seen(s, move).status)
  }

  ghost predicate StaleStopped(flow: Flow, before: seq<Move>, later: seq<Move>, t: int)
  {
    forall k :: 0 <= k < |later| ==> StaleHalts(flow, After(flow, before + later[..k]), later[k], t)
  }

  lemma StaleStoppedFront(flow: Flow, before: seq<Move>, later: seq<Move>, t: int)
    requires |later| > 0 && StaleStopped(flow, before, later, t)
    ensures StaleStopped(flow, before, later[..|later| - 1], t)
    ensures StaleHalts(flow, After(flow, before + later[..|later| - 1]), later[|later| - 1], t)
  {
    var front := later[..|later| - 1];
    forall k | 0 <= k < |front|
      ensures StaleHalts(flow, After(flow, before + front[..k]), front[k], t)
    {
      assert front[..k] == later[..k] && front[k] == later[k];
    }
  }

  /** Once a gate closes, the stored step statuses never change again, and as soon as one pass
      records the failure the phase stays Failed. */
  lemma {:induction false} HaltedForever(flow: Flow, before: seq<Move>, later: seq<Move>, t: int)
    requires LegalRun(flow, before + later) && ClockAtLeast(later, t)
    requires Halts(flow, After(flow, before).server.status, t)
    ensures FrozenStatus(After(flow, before).server.status, After(flow, before + later).server.status)
    ensures Recorded(flow, later) ==> After(flow, before + later).server.status.phase == FlowFailed
    ensures Halts(flow, After(flow, before + later).server.status, t)
    decreases |later|
  {
    Continued(flow, before, later);
    if |later| > 0 {
      var front, last := later[..|later| - 1], later[|later| - 1];
      assert forall i :: 0 <= i < |front| ==> front[i] == later[i];
      HaltedForever(flow, before, front, t);
      HaltedMove(flow, After(flow, before + front), last, t);
      if Recorded(flow, later) {
        RecordedSnoc(flow, later);
      }
    }
  }

  /** And if passes on outdated flows are stopped too, nothing starts and no Job is created. */
  lemma {:induction false} NothingStartsBehindGate(flow: Flow, before: seq<Move>, later: seq<Move>, t: int)
    requires LegalRun(flow, before + later) && ClockAtLeast(later, t)
    requires Halts(flow, After(flow, before).server.status, t)
    requires StaleStopped(flow, before, later, t)
    ensures Frozen(After(flow, before), After(flow, before + later))
    decreases |later|
  {
    HaltedForever(flow, before, later, t);
    Continued(flow, before, later);
    if |later| > 0 {
      var front, last := later[..|later| - 1], later[|later| - 1];
      assert forall i :: 0 <= i < |front| ==> front[i] == later[i];
      StaleStoppedFront(flow, before, later, t);
      NothingStartsBehindGate(flow, before, front, t);
      HaltedForever(flow, before, front, t);
      HaltedStarts(flow, After(flow, before + front), last, t);
    }
  }

  lemma RecordedSnoc(flow: Flow, run: seq<Move>)
    requires |run| > 0 && Recorded(flow, run)
    ensures Recorded(flow, run[..|run| - 1]) || Records(flow, run[|run| - 1])
  {
    var i :| 0 <= i < |run| && Records(flow, run[i]);
    if i < |run| - 1 {
      assert run[..|run| - 1][i] == run[i];
    }
  }

  lemma HaltedMove(flow: Flow, s: State, move: Move, t: int)
    requires Halts(flow, s.server.status, t) && (!move.Environment? ==> move.inp.now >= t)
    ensures FrozenStatus(s.server.status, Apply(flow, s, move).server.status)
    ensures Records(flow, move) ==> Apply(flow, s, move).server.status.phase == FlowFailed
    ensures s.server.status.phase == FlowFailed ==> Apply(flow, s, move).server.status.phase == FlowFailed
    ensures Halts(flow, Apply(flow, s, move).server.status, t)
  {
  }

  /** What was stored, at any time, has started. */
  lemma StartedCovers(flow: Flow, s: State, age: nat)
    requires Inv(flow, s)
    ensures NotPending(s.server.status.steps) <= s.started
    ensures NotPending(Outdated(s.server, age).status.steps) <= s.started
  {
    var last, seen := s.server.status, Outdated(s.server, age).status;
    StoredNow(flow, s);
    OutdatedGood(flow, s, age);
    if GoodStatus(flow, last, s.started, s.approved) {
      NotPendingStarted(flow, last.steps, s.started, s.approved);
    }
    if GoodStatus(flow, seen, s.started, s.approved) {
      NotPendingStarted(flow, seen.steps, s.started, s.approved);
    }
  }

  lemma HaltedStarts(flow: Flow, s: State, move: Move, t: int)
    requires Inv(flow, s) && Halts(flow, s.server.status, t) && StaleHalts(flow, s, move, t)
    requires !move.Environment? ==> move.inp.now >= t
    ensures Apply(flow, s, move).server.created == s.server.created && Apply(flow, s, move).started == s.started
  {
    if !move.Environment? {
      StartedCovers(flow, s, if move.StalePass? then move.age else 0);
      HaltedPass(flow, Seen(s, move), Given(flow, move), move.choices, t);
    }
  }

  lemma HaltedPass(flow: Flow, server: Server, inp: Inputs, ch: Choices, t: int)
    requires Halts(flow, server.status, t) || !HasInitialized(server.status)
    requires inp.now >= t
    ensures var out := Reconcile(flow, server, inp, ch);
            && out.server.created == server.created
            && NotPending(out.mem.steps) <= NotPending(server.status.steps)
  {
  }
}
