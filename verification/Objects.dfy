/** The mutable objects that a pass works on. */
module Objects {
  import opened Types
  import opened Transition

  /** The in-memory copy of a JobFlow that Reconcile fetches and then updates in place. */
  class JobFlow {
    const flow: Flow
    const annotations: map<string, string>
    var phase: FlowPhase
    var startTime: Option<int>
    var completionTime: Option<int>
    var progress: Option<Progress>
    var steps: seq<StepStatus>

    constructor (flow: Flow, annotations: map<string, string>, status: Types.Status)
      ensures this.flow == flow && this.annotations == annotations && Status() == status
    {
      this.flow, this.annotations := flow, annotations;
      phase, startTime, completionTime := status.phase, status.startTime, status.completionTime;
      progress, steps := status.progress, status.steps;
    }

    function Status(): Types.Status
      reads this
    {
      Types.Status(phase, startTime, completionTime, progress, steps)
    }
  }

  /** The API server as far as one flow is concerned. created records the step label of every
      Job ever accepted, history every status ever stored. */
  class ApiServer {
    var status: Status
    var jobs: map<string, Job>
    var created: set<string>
    var history: seq<Status>

    constructor (server: Transition.Server)
      ensures Server() == server
    {
      status, jobs, created, history := server.status, server.jobs, server.created, server.history;
    }

    function Server(): Transition.Server
      reads this
    {
      Transition.Server(status, jobs, created, history)
    }

    /** Writes the status; a fault is returned to the caller and may or may not mean that the
        write was lost. */
    method UpdateStatus(mem: Types.Status, fault: Option<Fault>) returns (err: Option<Fault>)
      modifies this
      ensures Server() == WriteStatus(old(Server()), mem, fault) && err == fault
    {
      if fault.None? || fault.value.applied {
        status, history := mem, history + [mem];
      }
      err := fault;
    }
  }
}
