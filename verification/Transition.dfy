/** One pass of Reconcile (pkg/controller/reconciler.go) as a function on values: the persisted
    status, the in-memory copy that the pass works on, and the Jobs of the cluster. The
    stages keep the names and the order of the methods they stand for. */
module Transition {
  import opened Types
  import opened Backoff
  import opened Dag
  import opened Validation
  import Digraph

  datatype Lookup = Found(job: Job) | NotFound | LookupFailed(retryable: bool)

  /** A request that came back with an error: it may have taken effect all the same, and
      isRetryable may hold of the error. */
  datatype Fault = Fault(applied: bool, retryable: bool)

  /** The places of a pass where the code reads the clock, apart from the deadline test. */
  datatype Reading =
    | Closing | Initializing | Ending
    | Approving(step: string) | Refreshing(step: string)
    | CheckingTimeout(step: string) | TimingOut(step: string) | FailingFlow
    | Retrying(step: string)
    | Starting(step: string) | Finishing(step: string) | Failing(step: string)

  /** Everything that one pass learns from outside. A Job that lookups does not mention is
      not found, a request without a fault succeeds. Lookups need not match the cluster:
      they may come from a stale cache or from another moment. rereads are the lookups made
      when a step is executed; undeleted holds the Jobs that a timeout fails to delete,
      because looking them up again or deleting them fails. */
  datatype Inputs = Inputs(
    now: int,
    clock: map<Reading, int>,
    annotations: map<string, string>,
    concurrencyError: bool,
    templatesFail: bool,
    lookups: map<string, Lookup>,
    whenTrue: set<string>,
    undeleted: set<string>,
    rereads: map<string, Lookup>,
    createFaults: map<string, Fault>,
    toleratedFailures: set<string>,
    exponential: map<string, int>,
    stepWrites: map<string, Fault>,
    lastWrite: Option<Fault>)

  /** What the pass itself leaves open: the order that the sort or the cache delivers, and
      which failed lookup is recorded first. */
  datatype Choices = Choices(sorted: Option<seq<string>>, firstErrorRetryable: bool)

  /** The API server: the stored status, the Jobs, the steps for which a Job of this flow was
      ever accepted, and every status that was ever stored. */
  datatype Server = Server(status: Status, jobs: map<string, Job>, created: set<string>, history: seq<Status>)

  datatype Local = Local(mem: Status, server: Server)

  /** The result of a pass: the server afterwards, the final in-memory status, the plan. */
  datatype Outcome = Outcome(server: Server, mem: Status, ready: seq<string>)

  const APPROVAL_KEY := "workflow.kube-zen.io/approved"

  predicate Approved(annotations: map<string, string>, step: string)
  {
    var key := APPROVAL_KEY + "/" + step;
    key in annotations && annotations[key] == "true"
  }

  function Truncate(uid: string, n: nat): string
  {
    if |uid| > n then uid[..n] else uid
  }

  function JobName(flow: Flow, step: string): string
  {
    flow.name + "-" + step + "-" + Truncate(flow.uid, flow.config.uidTruncateLength)
  }

  /** The clock as it is read at one place. Without an entry it still shows what the deadline
      test saw. */
  function Clock(inp: Inputs, r: Reading): int
  {
    if r in inp.clock then inp.clock[r] else inp.now
  }

  function LookupJob(inp: Inputs, job: string): Lookup
  {
    if job in inp.lookups then inp.lookups[job] else NotFound
  }

  function StatusIndex(steps: seq<StepStatus>, name: string): (r: Option<nat>)
    ensures r.Some? ==> r.value < |steps| && steps[r.value].name == name
    ensures r.None? <==> forall k :: 0 <= k < |steps| ==> steps[k].name != name
  {
    if |steps| == 0 then None
    else if steps[0].name == name then Some(0)
    else
      match StatusIndex(steps[1..], name)
      case None => None
      case Some(i) => Some(i + 1)
  }

  /** A status write and the error it returns. */
  function WriteStatus(server: Server, mem: Status, fault: Option<Fault>): Server
  {
    if fault.None? || fault.value.applied then server.(status := mem, history := server.history + [mem]) else server
  }

  function FaultFor(faults: map<string, Fault>, name: string): Option<Fault>
  {
    if name in faults then Some(faults[name]) else None
  }

  // Gates and initialisation.

  function HasInitialized(st: Status): bool
  {
    st.phase != FlowUnset || |st.steps| > 0
  }

  function DeadlineExceeded(flow: Flow, st: Status, now: int): bool
  {
    && flow.spec.activeDeadlineSeconds.Some?
    && st.startTime.Some?
    && now > st.startTime.value + SecondsToDuration(flow.spec.activeDeadlineSeconds.value)
  }

  function BackoffLimit(flow: Flow): I32
  {
    if flow.spec.backoffLimit.Some? then flow.spec.backoffLimit.value else flow.config.defaultBackoffLimit
  }

  /** The int32 accumulator of checkBackoffLimit. */
  function TotalRetries32(steps: seq<StepStatus>): I32
  {
    if |steps| == 0 then 0
    else Int32(TotalRetries32(steps[..|steps| - 1]) + steps[|steps| - 1].retryCount)
  }

  function BackoffExceeded(flow: Flow, st: Status): bool
  {
    TotalRetries32(st.steps) > BackoffLimit(flow)
  }

  function FailFlow(st: Status, now: int): Status
  {
    st.(phase := FlowFailed, completionTime := Some(now))
  }

  function FreshStep(name: string): StepStatus
  {
    StepStatus(name, StepPending, None, None, None, 0)
  }

  function Initialize(flow: Flow, st: Status, now: int): Status
  {
    st.(phase := FlowPending,
        startTime := Some(now),
        progress := Some(Progress(0, |flow.spec.steps|, 0, 0)),
        steps := seq(|flow.spec.steps|, i requires 0 <= i < |flow.spec.steps| => FreshStep(flow.spec.steps[i].name)))
  }

  // Manual approvals.

  function ApproveStep(inp: Inputs, s: StepStatus): StepStatus
  {
    if s.phase == StepPendingApproval && Approved(inp.annotations, s.name) then
      s.(phase := StepSucceeded,
         completionTime := Some(Clock(inp, Approving(s.name))),
         startTime := if s.startTime.None? then Some(Clock(inp, Approving(s.name))) else s.startTime)
    else s
  }

  predicate HasPendingApproval(steps: seq<StepStatus>)
  {
    exists i :: 0 <= i < |steps| && steps[i].phase == StepPendingApproval
  }

  function ManualApprovals(inp: Inputs, st: Status): Status
  {
    st.(phase := if HasPendingApproval(st.steps) then FlowPaused
                 else if st.phase == FlowPaused then FlowRunning
                 else st.phase,
        steps := seq(|st.steps|, i requires 0 <= i < |st.steps| => ApproveStep(inp, st.steps[i])))
  }

  // Refresh from Jobs.

  function StepFromJob(s: StepStatus, job: Job, now: int): StepStatus
  {
    if job.succeeded > 0 then s.(phase := StepSucceeded, completionTime := Some(now))
    else if job.failed > 0 then s.(phase := StepFailed, completionTime := Some(now))
    else s.(phase := StepRunning)
  }

  /** What the result of a lookup makes of the step that refers to the Job. */
  function ApplyLookup(s: StepStatus, result: Lookup, now: int): StepStatus
  {
    match result
    case NotFound => s.(phase := StepFailed, completionTime := Some(now))
    case Found(job) => StepFromJob(s, job, now)
    case LookupFailed(_) => s
  }

  function RefreshStep(inp: Inputs, s: StepStatus): StepStatus
  {
    if s.jobRef.None? then s else ApplyLookup(s, LookupJob(inp, s.jobRef.value), Clock(inp, Refreshing(s.name)))
  }

  function Refresh(inp: Inputs, st: Status): Status
  {
    st.(steps := seq(|st.steps|, i requires 0 <= i < |st.steps| => RefreshStep(inp, st.steps[i])))
  }

  /** The lookup of the i-th step fails with something other than "not found". */
  predicate LookupFails(inp: Inputs, steps: seq<StepStatus>, i: int)
  {
    && 0 <= i < |steps|
    && steps[i].jobRef.Some?
    && LookupJob(inp, steps[i].jobRef.value).LookupFailed?
  }

  predicate RefreshFails(inp: Inputs, steps: seq<StepStatus>)
  {
    exists i :: 0 <= i < |steps| && LookupFails(inp, steps, i)
  }

  // The execution plan.

  /** Some status entry of this name has succeeded, or has failed and may be ignored. */
  ghost predicate Completed(graph: map<string, Step>, sorted: seq<string>, steps: seq<StepStatus>, name: string)
  {
    exists i :: 0 <= i < |steps| && steps[i].name == name
                && (|| steps[i].phase == StepSucceeded
                    || (steps[i].phase == StepFailed && name in sorted && name in graph &&
                        graph[name].continueOnFailure))
  }

  predicate StillPending(steps: seq<StepStatus>, name: string)
  {
    var i := StatusIndex(steps, name);
    i.None? || steps[i.value].phase == StepPending
  }

  /** The condition under which a step may start. */
  ghost predicate Ready(graph: map<string, Step>, sorted: seq<string>, steps: seq<StepStatus>, whenTrue: set<string>,
          name: string)
  {
    && StillPending(steps, name)
    && name in graph
    && (forall d :: d in graph[name].dependencies ==> Completed(graph, sorted, steps, d))
    && (graph[name].when == "" || graph[name].when in whenTrue)
  }

  /** The part of names, in order, that is ready. */
  ghost function SelectReady(graph: map<string, Step>, sorted: seq<string>, steps: seq<StepStatus>,
          whenTrue: set<string>, names: seq<string>): seq<string>
  {
    if |names| == 0 then []
    else
      SelectReady(graph, sorted, steps, whenTrue, names[..|names| - 1])
      + if Ready(graph, sorted, steps, whenTrue, names[|names| - 1]) then [names[|names| - 1]] else []
  }

  ghost function Plan(graph: map<string, Step>, sorted: seq<string>, steps: seq<StepStatus>,
          whenTrue: set<string>): seq<string>
  {
    SelectReady(graph, sorted, steps, whenTrue, sorted)
  }

  // Timeouts.

  predicate TimedOut(flow: Flow, inp: Inputs, s: StepStatus)
  {
    var spec := FindStep(flow.spec.steps, s.name);
    && s.phase == StepRunning
    && spec.Some? && spec.value.timeoutSeconds.Some?
    && s.startTime.Some?
    && Clock(inp, CheckingTimeout(s.name)) > s.startTime.value + SecondsToDuration(spec.value.timeoutSeconds.value)
  }

  function TimeoutStep(flow: Flow, inp: Inputs, s: StepStatus): StepStatus
  {
    if TimedOut(flow, inp, s) then s.(phase := StepFailed, completionTime := Some(Clock(inp, TimingOut(s.name)))) else s
  }

  predicate FatalTimeout(flow: Flow, inp: Inputs, s: StepStatus)
  {
    TimedOut(flow, inp, s) && !FindStep(flow.spec.steps, s.name).value.continueOnFailure
  }

  predicate AnyFatalTimeout(flow: Flow, inp: Inputs, steps: seq<StepStatus>)
  {
    exists i :: 0 <= i < |steps| && FatalTimeout(flow, inp, steps[i])
  }

  function Timeouts(flow: Flow, inp: Inputs, st: Status): Status
  {
    var st' := st.(steps := seq(|st.steps|, i requires 0 <= i < |st.steps| => TimeoutStep(flow, inp, st.steps[i])));
    if AnyFatalTimeout(flow, inp, st.steps) then FailFlow(st', Clock(inp, FailingFlow)) else st'
  }

  /** The Jobs of timed-out steps whose deletion takes effect. */
  function TimedOutJobs(flow: Flow, inp: Inputs, steps: seq<StepStatus>): set<string>
  {
    set i | 0 <= i < |steps| && TimedOut(flow, inp, steps[i]) && steps[i].jobRef.Some?
            && steps[i].jobRef.value !in inp.undeleted :: steps[i].jobRef.value
  }

  function DeleteJobs(server: Server, names: set<string>): Server
  {
    server.(jobs := map j | j in server.jobs && j !in names :: server.jobs[j])
  }

  // Retries.

  function RetryLimit(flow: Flow, policy: RetryPolicy): I32
  {
    if policy.limit > 0 then policy.limit else Int32(flow.config.defaultRetryLimit)
  }

  /** The delay that handleStepRetry waits for. A negative count, which no pass produces,
      would make Go's shift panic. */
  function RetryDelay(flow: Flow, inp: Inputs, s: StepStatus, policy: RetryPolicy): int
  {
    CalculateBackoff(policy, if s.retryCount < 0 then 0 else s.retryCount, flow.config.defaultBackoffBase,
                     if s.name in inp.exponential then inp.exponential[s.name] else 0)
  }

  predicate RetryDue(flow: Flow, inp: Inputs, s: StepStatus)
  {
    var spec := FindStep(flow.spec.steps, s.name);
    && s.phase == StepFailed
    && spec.Some? && spec.value.retryPolicy.Some?
    && s.retryCount < RetryLimit(flow, spec.value.retryPolicy.value)
    && (s.completionTime.Some? ==>
          Clock(inp, Retrying(s.name)) >= s.completionTime.value +
              RetryDelay(flow, inp, s, spec.value.retryPolicy.value))
  }

  function RetryStep(flow: Flow, inp: Inputs, s: StepStatus): StepStatus
  {
    if RetryDue(flow, inp, s) then StepStatus(s.name, StepPending, None, None, None, Int32(s.retryCount + 1)) else s
  }

  function Retries(flow: Flow, inp: Inputs, st: Status): Status
  {
    st.(steps := seq(|st.steps|, i requires 0 <= i < |st.steps| => RetryStep(flow, inp, st.steps[i])))
  }

  // Execution of the ready steps.

  function SetStep(st: Status, i: nat, s: StepStatus): Status
    requires i < |st.steps|
  {
    st.(steps := st.steps[i := s])
  }

  /** The status change of updateStepStatusFromJob, pod failure policy included. */
  function StepFromJobWithPolicy(inp: Inputs, s: StepStatus, job: Job): StepStatus
  {
    if job.succeeded > 0 || (job.failed > 0 && s.name in inp.toleratedFailures) then
      s.(phase := StepSucceeded, completionTime := Some(Clock(inp, Finishing(s.name))))
    else if job.failed > 0 then s.(phase := StepFailed, completionTime := Some(Clock(inp, Finishing(s.name))))
    else s.(phase := StepRunning)
  }

  /** A changed status that is written at once; an error of the write becomes the step's. */
  function ChangeAndWrite(inp: Inputs, l: Local, name: string, mem: Status): (Local, Option<Fault>)
  {
    var fault := FaultFor(inp.stepWrites, name);
    (Local(mem, WriteStatus(l.server, mem, fault)), fault)
  }

  function AwaitApproval(inp: Inputs, l: Local, i: nat): (Local, Option<Fault>)
    requires i < |l.mem.steps|
  {
    var s := l.mem.steps[i];
    if Approved(inp.annotations, s.name) then
      if s.phase == StepSucceeded then (l, None)
      else
        var s' := s.(phase := StepSucceeded,
                     completionTime := Some(Clock(inp, Finishing(s.name))),
                     startTime := if s.startTime.None? then Some(Clock(inp, Starting(s.name))) else s.startTime);
        ChangeAndWrite(inp, l, s.name, SetStep(l.mem, i, s'))
    else if s.phase == StepPendingApproval then (l, None)
    else
      var s' := s.(phase := StepPendingApproval, startTime := Some(Clock(inp, Starting(s.name))));
      ChangeAndWrite(inp, l, s.name, SetStep(l.mem, i, s').(phase := FlowPaused))
  }

  function AcceptJob(flow: Flow, server: Server, step: string): Server
  {
    server.(jobs := server.jobs[JobName(flow, step) := Job(0, 0)], created := server.created + {step})
  }

  function CreateJob(flow: Flow, inp: Inputs, l: Local, i: nat): (Local, Option<Fault>)
    requires i < |l.mem.steps|
  {
    var s := l.mem.steps[i];
    var fault := FaultFor(inp.createFaults, s.name);
    if JobName(flow, s.name) in l.server.jobs then
      (l, if fault.Some? then fault else Some(Fault(false, false)))
    else if fault.Some? then
      (if fault.value.applied then l.(server := AcceptJob(flow, l.server, s.name)) else l, fault)
    else
      var s' := s.(phase := StepRunning,
                   startTime := Some(Clock(inp, Starting(s.name))),
                   jobRef := Some(JobName(flow, s.name)));
      (Local(SetStep(l.mem, i, s'), AcceptJob(flow, l.server, s.name)), None)
  }

  function StartStep(flow: Flow, inp: Inputs, l: Local, i: nat, spec: Step): (Local, Option<Fault>)
    requires i < |l.mem.steps|
  {
    if IsManual(spec) then AwaitApproval(inp, l, i) else CreateJob(flow, inp, l, i)
  }

  function RereadJob(inp: Inputs, job: string): Lookup
  {
    if job in inp.rereads then inp.rereads[job] else NotFound
  }

  function ExecuteStep(flow: Flow, inp: Inputs, l: Local, name: string): (Local, Option<Fault>)
  {
    var spec := FindStep(flow.spec.steps, name);
    var i := StatusIndex(l.mem.steps, name);
    if spec.None? || i.None? then (l, Some(Fault(false, false)))
    else
      var s := l.mem.steps[i.value];
      if s.jobRef.None? then StartStep(flow, inp, l, i.value, spec.value)
      else match RereadJob(inp, s.jobRef.value)
        case LookupFailed(retryable) => (l, Some(Fault(false, retryable)))
        case Found(job) => ChangeAndWrite(inp, l, name, SetStep(l.mem, i.value, StepFromJobWithPolicy(inp, s, job)))
        case NotFound => StartStep(flow, inp, l, i.value, spec.value)
  }

  function HandleStepFailure(flow: Flow, inp: Inputs, st: Status, name: string): Option<Status>
  {
    var spec := FindStep(flow.spec.steps, name);
    var i := StatusIndex(st.steps, name);
    if i.None? then None
    else
      var st' := SetStep(st, i.value, st.steps[i.value].(phase := StepFailed));
      Some(if spec.Some? && spec.value.continueOnFailure then st' else FailFlow(st', Clock(inp, Failing(name))))
  }

  /** One turn of the execution loop: the step and, if it failed for good, its failure. The
      flag says that the pass ends here. */
  function ExecuteTurn(flow: Flow, inp: Inputs, l: Local, name: string): (Local, bool)
  {
    var (l', fault) := ExecuteStep(flow, inp, l, name);
    EndTurn(flow, inp, l', fault, name)
  }

  /** What the loop does with the outcome of a step. */
  function EndTurn(flow: Flow, inp: Inputs, l: Local, fault: Option<Fault>, name: string): (Local, bool)
  {
    if fault.None? then (l, false)
    else if fault.value.retryable then (l, true)
    else match HandleStepFailure(flow, inp, l.mem, name)
      case None => (l, true)
      case Some(st) => (l.(mem := st), false)
  }

  /** Executes the ready steps in turn; the flag says whether the pass ends early. */
  function RunReady(flow: Flow, inp: Inputs, l: Local, ready: seq<string>): (Local, bool)
    decreases |ready|
  {
    if |ready| == 0 then (l, false)
    else
      var (l', stopped) := ExecuteTurn(flow, inp, l, ready[0]);
      if stopped then (l', true) else RunReady(flow, inp, l', ready[1..])
  }

  // Progress and flow phase.

  function CountPhase(steps: seq<StepStatus>, phase: StepPhase): nat
  {
    if |steps| == 0 then 0
    else CountPhase(steps[..|steps| - 1], phase) + if steps[|steps| - 1].phase == phase then 1 else 0
  }

  predicate AllComplete(steps: seq<StepStatus>)
  {
    forall i :: 0 <= i < |steps| ==> steps[i].phase in {StepSucceeded, StepFailed}
  }

  predicate AnyFailed(steps: seq<StepStatus>)
  {
    exists i :: 0 <= i < |steps| && steps[i].phase == StepFailed
  }

  function UpdateProgress(p: Option<Progress>, steps: seq<StepStatus>): Option<Progress>
  {
    if p.None? then None
    else
      var ok, bad := CountPhase(steps, StepSucceeded), CountPhase(steps, StepFailed);
      Some(Progress(ok + bad, p.value.total, ok, bad))
  }

  function UpdateStatus(st: Status, now: int): Status
  {
    var st' := st.(progress := UpdateProgress(st.progress, st.steps));
    if AllComplete(st.steps) then
      st'.(phase := if AnyFailed(st.steps) then FlowFailed else FlowSucceeded, completionTime := Some(now))
    else if st.phase in {FlowUnset, FlowPending} then st'.(phase := FlowRunning)
    else st'
  }

  // The whole pass.

  /** The in-memory status that the plan is made from. */
  function Refreshed(inp: Inputs, st: Status): Status
  {
    Refresh(inp, ManualApprovals(inp, st))
  }

  ghost function Planned(flow: Flow, st: Status, inp: Inputs, sorted: seq<string>): seq<string>
  {
    Plan(StepMap(flow.spec.steps), sorted, Refreshed(inp, st).steps, inp.whenTrue)
  }

  /** The in-memory status that the execution loop starts from. */
  function Retried(flow: Flow, inp: Inputs, st: Status): Status
  {
    Retries(flow, inp, Timeouts(flow, inp, Refreshed(inp, st)))
  }

  function AfterTimeouts(flow: Flow, inp: Inputs, server: Server): Server
  {
    DeleteJobs(server, TimedOutJobs(flow, inp, Refreshed(inp, server.status).steps))
  }

  ghost function Executed(flow: Flow, server: Server, inp: Inputs, sorted: seq<string>): (Local, bool)
  {
    RunReady(flow, inp, Local(Retried(flow, inp, server.status), AfterTimeouts(flow, inp, server)),
             Planned(flow, server.status, inp, sorted))
  }

  /** The first lookup error that is recorded is retryable, and the pass ends after the
      refresh. */
  predicate RefreshAborts(inp: Inputs, st: Status, firstErrorRetryable: bool)
  {
    RefreshFails(inp, ManualApprovals(inp, st).steps) && firstErrorRetryable
  }

  /** The plan is made before timeouts and retries are looked at, and executed after them. */
  ghost function Advance(flow: Flow, server: Server, inp: Inputs, sorted: seq<string>,
          firstErrorRetryable: bool): Outcome
  {
    if RefreshAborts(inp, server.status, firstErrorRetryable) then
      Outcome(server, Refreshed(inp, server.status), [])
    else
      var ready := Planned(flow, server.status, inp, sorted);
      var (l, stopped) := Executed(flow, server, inp, sorted);
      if stopped then Outcome(l.server, l.mem, ready)
      else
        var final := UpdateStatus(l.mem, Clock(inp, Ending));
        Outcome(WriteStatus(l.server, final, inp.lastWrite), final, ready)
  }

  /** A pass that ends with one status write and touches nothing else. */
  function Settle(server: Server, mem: Status, inp: Inputs): Outcome
  {
    Outcome(WriteStatus(server, mem, inp.lastWrite), mem, [])
  }

  /** The outcome of a pass that ends before the graph is needed. */
  ghost function Gated(flow: Flow, server: Server, inp: Inputs): Option<Outcome>
  {
    var st := server.status;
    if !StepsValid(flow.spec.steps) then Some(Settle(server, st.(phase := FlowFailed), inp))
    else if inp.concurrencyError then Some(Outcome(server, st, []))
    else if DeadlineExceeded(flow, st, inp.now) || BackoffExceeded(flow, st)
        then Some(Settle(server, FailFlow(st, Clock(inp, Closing)), inp))
    else if !HasInitialized(st) then
      var initial := Initialize(flow, st, Clock(inp, Initializing));
      Some(if inp.templatesFail then Outcome(server, initial, []) else Settle(server, initial, inp))
    else None
  }

  ghost function Reconcile(flow: Flow, server: Server, inp: Inputs, ch: Choices): Outcome
  {
    var gated := Gated(flow, server, inp);
    if gated.Some? then gated.value else Ungated(flow, server, inp, ch)
  }

  /** The outcome of a pass that gets as far as sorting the graph. */
  ghost function Ungated(flow: Flow, server: Server, inp: Inputs, ch: Choices): Outcome
  {
    if ch.sorted.None? then Settle(server, server.status.(phase := FlowFailed), inp)
    else Advance(flow, server, inp, ch.sorted.value, ch.firstErrorRetryable)
  }

  /** The choices that the sort and the cache can make. */
  ghost predicate LegalChoices(flow: Flow, ch: Choices)
  {
    var g := DependencyGraph(flow.spec.steps);
    && (ch.sorted.None? <==> Digraph.HasCycle(g))
    && (ch.sorted.Some? ==> Digraph.TopologicalOrder(g, ch.sorted.value))
  }
}
