/** The JobFlow API objects (pkg/api/v1alpha1/types.go) as values, reduced to the fields
    that the scheduler reads or writes, and the wrap-around of Go's fixed-width integers. */
module Types {

  datatype Option<+T> = None | Some(value: T)

  type I32 = x: int | -0x8000_0000 <= x < 0x8000_0000

  /** Go's int32 and int64 conversions: reduction into the two's-complement range. */
  function Int32(x: int): I32
  {
    (x + 0x8000_0000) % 0x1_0000_0000 - 0x8000_0000
  }

  function Int64(x: int): int
  {
    (x + 0x8000_0000_0000_0000) % 0x1_0000_0000_0000_0000 - 0x8000_0000_0000_0000
  }

  const MAX_INT32: int := 0x7FFF_FFFF
  const MAX_INT64: int := 0x7FFF_FFFF_FFFF_FFFF

  /** Durations and instants are int64 nanoseconds. */
  const SECOND: int := 1_000_000_000

  /** time.Duration(seconds) * time.Second, with int64 wrap-around. */
  function SecondsToDuration(seconds: int): int
  {
    Int64(seconds * SECOND)
  }

  // Step and flow phases. FlowUnset is the empty string.
  datatype StepPhase =
    | StepPending | StepRunning | StepSucceeded | StepFailed | StepSkipped | StepPendingApproval

  datatype FlowPhase =
    | FlowUnset | FlowPending | FlowRunning | FlowSucceeded | FlowFailed | FlowSuspended | FlowPaused

  /** A duration string as time.ParseDuration sees it; an empty string does not parse. */
  datatype DurationText = Empty | Malformed | Parsed(nanos: int)

  datatype BackoffPolicy = BackoffPolicy(kind: string, factor: Option<real>, duration: DurationText)

  datatype RetryPolicy = RetryPolicy(limit: I32, backoff: Option<BackoffPolicy>)

  datatype Step = Step(
    name: string,
    stepType: string,
    templateEmpty: bool,
    dependencies: seq<string>,
    retryPolicy: Option<RetryPolicy>,
    timeoutSeconds: Option<int>,
    when: string,
    continueOnFailure: bool)

  datatype Spec = Spec(
    steps: seq<Step>,
    backoffLimit: Option<I32>,
    activeDeadlineSeconds: Option<int>)

  /** The settings that the controller loads once (pkg/config/config.go). */
  datatype Config = Config(
    uidTruncateLength: nat,
    defaultBackoffLimit: I32,
    defaultRetryLimit: int,
    defaultBackoffBase: int)

  const DEFAULTS := Config(8, 6, 3, SECOND)

  /** A JobFlow's identity and desired state, with the settings of the controller that runs
      it; the status is kept apart. */
  datatype Flow = Flow(namespace: string, name: string, uid: string, spec: Spec, config: Config)

  /** jobRef holds the name of the referenced Job. */
  datatype StepStatus = StepStatus(
    name: string,
    phase: StepPhase,
    startTime: Option<int>,
    completionTime: Option<int>,
    jobRef: Option<string>,
    retryCount: I32)

  datatype Progress = Progress(completed: int, total: int, successful: int, failed: int)

  datatype Status = Status(
    phase: FlowPhase,
    startTime: Option<int>,
    completionTime: Option<int>,
    progress: Option<Progress>,
    steps: seq<StepStatus>)

  /** The counters of a Kubernetes Job that the controller looks at. */
  datatype Job = Job(succeeded: int, failed: int)

  /** The manual-approval test of executeStep and GetJobTemplate. */
  predicate IsManual(step: Step)
  {
    step.stepType == "Manual" || (step.stepType == "" && step.templateEmpty)
  }

  function Elems<T>(s: seq<T>): (r: set<T>)
  {
    set x | x in s
  }

  ghost predicate Distinct<T>(s: seq<T>)
  {
    forall i, j :: 0 <= i < j < |s| ==> s[i] != s[j]
  }

  /** The first step with the given name, as the controller's linear searches find it. */
  function FindStep(steps: seq<Step>, name: string): (r: Option<Step>)
    ensures r.Some? ==> r.value in steps && r.value.name == name
    ensures r.None? <==> forall k :: 0 <= k < |steps| ==> steps[k].name != name
  {
    if |steps| == 0 then None
    else if steps[0].name == name then Some(steps[0])
    else FindStep(steps[1..], name)
  }

  ghost predicate UniqueNames(steps: seq<Step>)
  {
    forall i, j :: 0 <= i < j < |steps| ==> steps[i].name != steps[j].name
  }

  lemma {:induction false} FindStepAt(steps: seq<Step>, i: nat)
    requires UniqueNames(steps) && i < |steps|
    ensures FindStep(steps, steps[i].name) == Some(steps[i])
  {
    if i > 0 {
      FindStepAt(steps[1..], i - 1);
    }
  }
}
