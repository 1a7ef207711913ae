/** What the execution plan of createExecutionPlan contains. */
module Planning {
  import opened Types
  import opened Digraph
  import opened Dag
  import opened Transition

  /** Distinct status names: the validated flow's steps, one entry each. */
  ghost predicate UniqueEntries(steps: seq<StepStatus>)
  {
    forall i, j :: 0 <= i < j < |steps| ==> steps[i].name != steps[j].name
  }

  lemma {:induction false} StatusIndexAt(steps: seq<StepStatus>, i: nat)
    requires UniqueEntries(steps) && i < |steps|
    ensures StatusIndex(steps, steps[i].name) == Some(i)
  {
    if i > 0 {
      StatusIndexAt(steps[1..], i - 1);
    }
  }

  /** Entries with the same names are as distinct. */
  lemma KeepNames(a: seq<StepStatus>, b: seq<StepStatus>)
    requires UniqueEntries(a) && |a| == |b| && forall i :: 0 <= i < |a| ==> b[i].name == a[i].name
    ensures UniqueEntries(b)
  {
    forall i, j | 0 <= i < j < |b|
      ensures b[i].name != b[j].name
    {
      assert b[i].name == a[i].name && b[j].name == a[j].name;
    }
  }

  /** Steps of one flow never share a Job name. */
  lemma JobNameInjective(flow: Flow, a: string, b: string)
    requires JobName(flow, a) == JobName(flow, b)
    ensures a == b
  {
    var pre, post := flow.name + "-", "-" + Truncate(flow.uid, flow.config.uidTruncateLength);
    assert JobName(flow, a) == pre + a + post && JobName(flow, b) == pre + b + post;
    assert |a| == |b|;
    assert a == JobName(flow, a)[|pre|..|pre| + |a|];
    assert b == JobName(flow, b)[|pre|..|pre| + |b|];
  }

  /** The plan consists of exactly the ready names of the sorted list. */
  lemma {:induction false} SelectReadyContents(graph: map<string, Step>, sorted: seq<string>, steps: seq<StepStatus>,
                                               whenTrue: set<string>, names: seq<string>)
    ensures forall n :: n in SelectReady(graph, sorted, steps, whenTrue, names)
                        <==> n in names && Ready(graph, sorted, steps, whenTrue, n)
  {
    if |names| > 0 {
      var front, last := names[..|names| - 1], names[|names| - 1];
      SelectReadyContents(graph, sorted, steps, whenTrue, front);
      assert names == front + [last];
    }
  }

  /** a can be read off b from left to right: where[k] is the position of a[k] in b. */
  ghost predicate Subsequence(a: seq<string>, b: seq<string>, where: seq<nat>)
  {
    && |where| == |a|
    && (forall k :: 0 <= k < |a| ==> where[k] < |b| && b[where[k]] == a[k])
    && (forall k, m :: 0 <= k < m < |a| ==> where[k] < where[m])
  }

  /** A subsequence stays one when the longer list grows at its end, also if it takes the new name. */
  lemma SubsequenceGrows(a: seq<string>, b: seq<string>, where: seq<nat>, last: string)
    requires Subsequence(a, b, where)
    ensures Subsequence(a, b + [last], where)
    ensures Subsequence(a + [last], b + [last], where + [|b|])
  {
  }

  /** The plan keeps the order of the sorted list. */
  lemma {:induction false} SelectReadyOrder(graph: map<string, Step>, sorted: seq<string>, steps: seq<StepStatus>,
                                            whenTrue: set<string>, names: seq<string>) returns (where: seq<nat>)
    ensures Subsequence(SelectReady(graph, sorted, steps, whenTrue, names), names, where)
  {
    if |names| == 0 {
      where := [];
    } else {
      var front, last := names[..|names| - 1], names[|names| - 1];
      where := SelectReadyOrder(graph, sorted, steps, whenTrue, front);
      SubsequenceGrows(SelectReady(graph, sorted, steps, whenTrue, front), front, where, last);
      assert names == front + [last];
      if Ready(graph, sorted, steps, whenTrue, last) {
        where := where + [|front|];
      }
    }
  }

  lemma PlanDistinct(graph: map<string, Step>, sorted: seq<string>, steps: seq<StepStatus>, whenTrue: set<string>)
    requires Distinct(sorted)
    ensures Distinct(Plan(graph, sorted, steps, whenTrue))
  {
    var where := SelectReadyOrder(graph, sorted, steps, whenTrue, sorted);
  }

  /** Exactness: over a topological order the plan is the subsequence of the steps that are
      pending, have every dependency completed, and whose condition holds. */
  lemma PlanExact(graph: map<string, Step>, sorted: seq<string>, steps: seq<StepStatus>, whenTrue: set<string>)
    returns (where: seq<nat>)
    requires TopologicalOrder(Adjacency(graph), sorted)
    ensures Subsequence(Plan(graph, sorted, steps, whenTrue), sorted, where)
    ensures forall n :: n in Plan(graph, sorted, steps, whenTrue) <==>
            n in graph && Ready(graph, sorted, steps, whenTrue, n)
  {
    where := SelectReadyOrder(graph, sorted, steps, whenTrue, sorted);
    SelectReadyContents(graph, sorted, steps, whenTrue, sorted);
    assert forall n :: n in graph ==> n in Universe(Adjacency(graph)) && n in Elems(sorted);
  }

  /** As a set the plan does not depend on which topological order was supplied. */
  lemma PlanIgnoresOrder(graph: map<string, Step>, s1: seq<string>, s2: seq<string>, steps: seq<StepStatus>,
          whenTrue: set<string>)
    requires TopologicalOrder(Adjacency(graph), s1) && TopologicalOrder(Adjacency(graph), s2)
    ensures Elems(Plan(graph, s1, steps, whenTrue)) == Elems(Plan(graph, s2, steps, whenTrue))
  {
    SelectReadyContents(graph, s1, steps, whenTrue, s1);
    SelectReadyContents(graph, s2, steps, whenTrue, s2);
    assert forall n :: n in s1 <==> n in Elems(s1);
    assert forall n :: n in s2 <==> n in Elems(s2);
    forall n
      ensures Completed(graph, s1, steps, n) <==> Completed(graph, s2, steps, n)
    {
    }
  }

  /** No step is planned together with one of its dependencies. */
  lemma PlanAntichain(graph: map<string, Step>, sorted: seq<string>, steps: seq<StepStatus>, whenTrue: set<string>,
          n: string, d: string)
    requires UniqueEntries(steps)
    requires n in Plan(graph, sorted, steps, whenTrue) && n in graph && d in graph[n].dependencies
    ensures d !in Plan(graph, sorted, steps, whenTrue)
  {
    SelectReadyContents(graph, sorted, steps, whenTrue, sorted);
    assert Completed(graph, sorted, steps, d);
    var i :| 0 <= i < |steps| && steps[i].name == d && steps[i].phase in {StepSucceeded, StepFailed};
    StatusIndexAt(steps, i);
  }

  /** Every entry that is no longer pending counts as completed. */
  ghost predicate Unobstructed(graph: map<string, Step>, steps: seq<StepStatus>)
  {
    forall i :: 0 <= i < |steps| ==>
      || steps[i].phase in {StepPending, StepSucceeded}
      || (steps[i].phase == StepFailed && steps[i].name in graph && graph[steps[i].name].continueOnFailure)
  }

  /** Dependencies name steps, steps have entries, conditions hold. */
  ghost predicate Unconditional(graph: map<string, Step>, steps: seq<StepStatus>, whenTrue: set<string>)
  {
    && (forall n :: n in graph ==> exists i :: 0 <= i < |steps| && steps[i].name == n)
    && (forall n, d :: n in graph && d in graph[n].dependencies ==> d in graph)
    && (forall n :: n in graph ==> graph[n].when == "" || graph[n].when in whenTrue)
  }

  /** No scheduling deadlock: while a step is pending and nothing runs, waits or has failed
      fatally, the plan is not empty. */
  lemma PlanProgress(graph: map<string, Step>, sorted: seq<string>, steps: seq<StepStatus>, whenTrue: set<string>,
          i: nat)
    requires TopologicalOrder(Adjacency(graph), sorted) && UniqueEntries(steps)
    requires Unobstructed(graph, steps) && Unconditional(graph, steps, whenTrue)
    requires i < |steps| && steps[i].name in graph && steps[i].phase == StepPending
    ensures Plan(graph, sorted, steps, whenTrue) != []
  {
    assert steps[i].name in Elems(sorted);
    var p :| 0 <= p < |sorted| && sorted[p] == steps[i].name;
    StatusIndexAt(steps, i);
    var q := FirstPending(graph, sorted, steps, p);
    SelectReadyContents(graph, sorted, steps, whenTrue, sorted);
    var n := sorted[q];
    forall d | d in graph[n].dependencies
      ensures Completed(graph, sorted, steps, d)
    {
      assert d in Succ(Adjacency(graph), n);
      var r := SuccessorPosition(Adjacency(graph), sorted, q, d);
      var k :| 0 <= k < |steps| && steps[k].name == d;
      StatusIndexAt(steps, k);
      assert sorted[r] in graph;
    }
    assert n in Plan(graph, sorted, steps, whenTrue);
  }

  /** The first name of the sorted list that is a pending step. */
  lemma FirstPending(graph: map<string, Step>, sorted: seq<string>, steps: seq<StepStatus>, p: nat) returns (q: nat)
    requires p < |sorted| && sorted[p] in graph && StillPending(steps, sorted[p])
    ensures q < |sorted| && sorted[q] in graph && StillPending(steps, sorted[q])
    ensures forall r :: 0 <= r < q ==> sorted[r] !in graph || !StillPending(steps, sorted[r])
    decreases p
  {
    if r :| 0 <= r < p && sorted[r] in graph && StillPending(steps, sorted[r]) {
      q := FirstPending(graph, sorted, steps, r);
    } else {
      q := p;
    }
  }
}
