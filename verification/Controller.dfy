/** The reconciler object of pkg/controller/reconciler.go: its cache of sorted graphs and the
    Reconcile method, which refines Transition.Reconcile. */
module Controller {
  import opened Types
  import opened Validation
  import opened Transition
  import opened Planning
  import opened Objects
  import opened Reconciler
  import opened Executor
  import opened CacheRaces
  import Digraph
  import Dag

  /** An entry of the cache. */
  datatype CachedDAG = CachedDAG(specHash: string, dagGraph: Dag.Graph, sortedSteps: seq<string>)

  class JobFlowReconciler {
    const hash: seq<Step> -> string
    var dagCache: map<string, CachedDAG>

    constructor (hash: seq<Step> -> string)
      ensures this.hash == hash && dagCache == map[] && CacheSound()
    {
      this.hash := hash;
      dagCache := map[];
    }

    /** Every entry is right for whichever step list has its hash. */
    ghost predicate CacheSound()
      reads this, set k | k in dagCache :: dagCache[k].dagGraph
    {
      forall k, steps :: k in dagCache && hash(steps) == dagCache[k].specHash ==>
        && dagCache[k].dagGraph.steps == Dag.StepMap(steps)
        && Digraph.TopologicalOrder(Dag.DependencyGraph(steps), dagCache[k].sortedSteps)
    }

    method GetOrBuildDAG(flow: Flow) returns (graph: Dag.Graph, sorted: Option<seq<string>>)
      requires CacheSound() && Separates(hash)
      modifies this`dagCache
      ensures CacheSound()
      ensures sorted.None? <==> Digraph.HasCycle(Dag.DependencyGraph(flow.spec.steps))
      ensures sorted.None? ==> dagCache == old(dagCache)
      ensures sorted.Some? ==> graph.steps == Dag.StepMap(flow.spec.steps)
                               && Digraph.TopologicalOrder(Dag.DependencyGraph(flow.spec.steps), sorted.value)
    {
      var specHash := hash(flow.spec.steps);
      var cacheKey := flow.namespace + "/" + flow.name;
      if cacheKey in dagCache && dagCache[cacheKey].specHash == specHash {
        var cached := dagCache[cacheKey];
        graph, sorted := cached.dagGraph, Some(cached.sortedSteps);
        Digraph.OrderableIffAcyclic(Dag.DependencyGraph(flow.spec.steps));
        return;
      }
      var culprit;
      graph := Dag.BuildDAG(flow.spec.steps);
      sorted, culprit := graph.TopologicalSort();
      if sorted.None? {
        return;
      }
      dagCache := dagCache[cacheKey := CachedDAG(specHash, graph, sorted.value)];
    }

    /** One pass. The ghost result names the order and the first lookup error that this pass
        happened to get; for them the server ends up as the transition says. */
    method Reconcile(flow: Flow, api: ApiServer, inp: Inputs) returns (ghost ch: Choices)
      requires CacheSound() && Separates(hash)
      modifies this`dagCache, api
      ensures CacheSound()
      ensures LegalChoices(flow, ch)
      ensures UniqueEntries(old(api.status.steps)) ==>
                api.Server() == Transition.Reconcile(flow, old(api.Server()), inp, ch).server
      ensures UniqueEntries(old(api.status.steps)) && Gated(flow, old(api.Server()), inp).None? && ch.sorted.Some? ==>
                FirstError(inp, old(api.status.steps), ch.firstErrorRetryable)
    {
      ch := SomeChoices(flow);
      var jf := new JobFlow(flow, inp.annotations, api.status);
      var stopped := PassGates(jf, api, inp);
      if stopped {
        return;
      }
      ch := Schedule(jf, api, inp);
    }

    /** The part of the pass that needs the graph. */
    method Schedule(jf: JobFlow, api: ApiServer, inp: Inputs) returns (ghost ch: Choices)
      requires CacheSound() && Separates(hash)
      requires jf.annotations == inp.annotations && jf.Status() == api.status
      modifies this`dagCache, jf, api
      ensures CacheSound()
      ensures LegalChoices(jf.flow, ch)
      ensures UniqueEntries(old(api.status.steps)) ==>
                api.Server() == Ungated(jf.flow, old(api.Server()), inp, ch).server
      ensures UniqueEntries(old(api.status.steps)) && ch.sorted.Some? ==>
                FirstError(inp, old(api.status.steps), ch.firstErrorRetryable)
    {
      var graph, sorted := GetOrBuildDAG(jf.flow);
      ch := Choices(sorted, false);
      if sorted.None? {
        jf.phase := FlowFailed;
        var err := api.UpdateStatus(jf.Status(), inp.lastWrite);
        return;
      }
      ghost var retryable := Proceed(jf, api, inp, graph, sorted.value);
      ch := Choices(sorted, retryable);
    }

    /** Validation, concurrency check, deadline, backoff limit and initialisation: each of them
        can end the pass. */
    method PassGates(jf: JobFlow, api: ApiServer, inp: Inputs) returns (stopped: bool)
      requires jf.Status() == api.status
      modifies jf, api
      ensures stopped <==> Gated(jf.flow, old(api.Server()), inp).Some?
      ensures stopped ==> api.Server() == Gated(jf.flow, old(api.Server()), inp).value.server
      ensures !stopped ==> api.Server() == old(api.Server()) && jf.Status() == old(jf.Status())
    {
      var invalid := ValidateJobFlow(jf.flow.spec.steps);
      VerdictUnique(jf.flow.spec.steps, invalid, invalid);
      if invalid.Some? {
        jf.phase := FlowFailed;
        var err := api.UpdateStatus(jf.Status(), inp.lastWrite);
        return true;
      }
      if inp.concurrencyError {
        return true;
      }
      var late := CheckActiveDeadline(jf, inp.now);
      var spent := CheckBackoffLimit(jf);
      if late || spent {
        jf.phase, jf.completionTime := FlowFailed, Some(Clock(inp, Closing));
        var err := api.UpdateStatus(jf.Status(), inp.lastWrite);
        return true;
      }
      if !HasInitialized(jf.Status()) {
        InitializeJobFlow(jf, api, inp);
        return true;
      }
      return false;
    }

    /** The rest of the pass, once the graph is sorted. */
    method Proceed(jf: JobFlow, api: ApiServer, inp: Inputs, graph: Dag.Graph, sorted: seq<string>)
            returns (ghost firstErrorRetryable: bool)
      requires jf.annotations == inp.annotations && jf.Status() == api.status
      requires graph.steps == Dag.StepMap(jf.flow.spec.steps)
      modifies jf, api
      ensures UniqueEntries(old(api.status.steps)) ==>
                api.Server() == Advance(jf.flow, old(api.Server()), inp, sorted, firstErrorRetryable).server
      ensures UniqueEntries(old(api.status.steps)) ==> FirstError(inp, old(api.status.steps), firstErrorRetryable)
    {
      ghost var server := api.Server();
      ghost var unique := UniqueEntries(server.status.steps);
      firstErrorRetryable := false;
      CheckManualApprovals(jf, inp);
      if unique {
        StagesKeepNames(jf.flow, inp, server.status);
      }
      var err := RefreshStepStatusesParallel(jf, inp);
      if unique {
        ErrorKept(inp, server.status, err);
      }
      if err.Some? && err.value.retryable {
        firstErrorRetryable := true;
        return;
      }
      var ready := CreateExecutionPlan(graph, jf, sorted, inp.whenTrue);
      CheckStepTimeouts(jf, api, inp);
      RetryFailedSteps(jf, inp);
      ghost var l0 := Local(jf.Status(), api.Server());
      var stopped := ExecuteReadySteps(jf, api, inp, ready);
      if unique {
        ExecutedFrom(jf.flow, inp, server, sorted, l0, ready);
      }
      if stopped {
        return;
      }
      UpdateJobFlowStatus(jf, api, inp);
    }
  }

  /** Some lookup fails, retryably or not as the flag says, if any lookup fails at all; without one the
      flag is not set. */
  ghost predicate FirstError(inp: Inputs, steps: seq<StepStatus>, retryable: bool)
  {
    if exists k, r :: FailsWith(inp, steps, k, r) then exists k :: FailsWith(inp, steps, k, retryable)
    else !retryable
  }

  ghost predicate FailsWith(inp: Inputs, steps: seq<StepStatus>, k: int, retryable: bool)
  {
    && 0 <= k < |steps| && steps[k].jobRef.Some? && steps[k].jobRef.value in inp.lookups
    && inp.lookups[steps[k].jobRef.value] == LookupFailed(retryable)
  }

  /** The refresh reports an error that is really there. */
  lemma ErrorKept(inp: Inputs, st: Status, err: Option<Fault>)
    requires var steps := ManualApprovals(inp, st).steps;
             && (err.Some? <==> RefreshFails(inp, steps))
             && (err.Some? ==> exists k ::
                   && LookupFails(inp, steps, k)
                   && LookupJob(inp, steps[k].jobRef.value) == LookupFailed(err.value.retryable))
    ensures FirstError(inp, st.steps, err.Some? && err.value.retryable)
  {
    var steps := ManualApprovals(inp, st).steps;
    assert |steps| == |st.steps|;
    forall k | 0 <= k < |steps|
      ensures steps[k].jobRef == st.steps[k].jobRef
    {
      assert steps[k] == ApproveStep(inp, st.steps[k]);
    }
    if err.Some? {
      var k :| LookupFails(inp, steps, k) && LookupJob(inp, steps[k].jobRef.value) == LookupFailed(err.value.retryable);
      assert FailsWith(inp, st.steps, k, err.value.retryable);
    }
    forall k, r | FailsWith(inp, st.steps, k, r)
      ensures LookupFails(inp, steps, k)
    {
    }
  }

  /** Every flow admits choices: a cycle or an order. */
  lemma SomeChoices(flow: Flow) returns (ch: Choices)
    ensures LegalChoices(flow, ch)
  {
    var g := Dag.DependencyGraph(flow.spec.steps);
    Digraph.OrderableIffAcyclic(g);
    if Digraph.HasCycle(g) {
      ch := Choices(None, false);
    } else {
      var s :| Digraph.TopologicalOrder(g, s);
      ch := Choices(Some(s), false);
    }
  }

  lemma StagesKeepNames(flow: Flow, inp: Inputs, st: Status)
    requires UniqueEntries(st.steps)
    ensures UniqueEntries(ManualApprovals(inp, st).steps)
    ensures UniqueEntries(Refreshed(inp, st).steps)
    ensures UniqueEntries(Timeouts(flow, inp, Refreshed(inp, st)).steps)
  {
    var a, b := ManualApprovals(inp, st).steps, Refreshed(inp, st).steps;
    KeepNames(st.steps, a);
    KeepNames(a, b);
    KeepNames(b, Timeouts(flow, inp, Refreshed(inp, st)).steps);
  }

  lemma ExecutedFrom(flow: Flow, inp: Inputs, server: Server, sorted: seq<string>, l0: Local, ready: seq<string>)
    requires l0 == Local(Retried(flow, inp, server.status), AfterTimeouts(flow, inp, server))
    requires ready == Planned(flow, server.status, inp, sorted)
    ensures RunReady(flow, inp, l0, ready) == Executed(flow, server, inp, sorted)
  {
  }
}
