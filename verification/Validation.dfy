/** pkg/validation/validator.go (step list and cycle checks, execution policy) and the
    controller's own step-list check, pkg/controller/reconciler.go. */
module Validation {
  import opened Types
  import opened Digraph
  import Dag

  datatype StepError =
    | NoSteps
    | EmptyName(index: nat)
    | DuplicateName(name: string)
    | InvalidDependency(step: string, dependency: string)

  ghost predicate HasStep(steps: seq<Step>, name: string)
  {
    exists k :: 0 <= k < |steps| && steps[k].name == name
  }

  /** An empty dependency name is always let through. */
  ghost predicate KnownDependency(steps: seq<Step>, dependency: string)
  {
    dependency == "" || HasStep(steps, dependency)
  }

  ghost predicate StepSound(steps: seq<Step>, i: nat)
    requires i < |steps|
  {
    && steps[i].name != ""
    && !HasStep(steps[..i], steps[i].name)
    && (forall k :: 0 <= k < |steps[i].dependencies| ==> KnownDependency(steps, steps[i].dependencies[k]))
  }

  /** What both step-list checks accept. */
  ghost predicate StepsValid(steps: seq<Step>)
  {
    |steps| > 0 && forall i :: 0 <= i < |steps| ==> StepSound(steps, i)
  }

  /** err is the first complaint about step i, in the order in which the checks are made. */
  ghost predicate Describes(steps: seq<Step>, i: nat, err: StepError)
    requires i < |steps|
  {
    var step := steps[i];
    match err
    case NoSteps => false
    case EmptyName(index) => index == i && step.name == ""
    case DuplicateName(name) => name == step.name != "" && HasStep(steps[..i], name)
    case InvalidDependency(name, dependency) =>
      && name == step.name != "" && !HasStep(steps[..i], name)
      && (exists k :: 0 <= k < |step.dependencies| && step.dependencies[k] == dependency
                      && !KnownDependency(steps, dependency)
                      && forall j :: 0 <= j < k ==> KnownDependency(steps, step.dependencies[j]))
  }

  /** The verdict on a step list: none for a valid list, else the first fault found. */
  ghost predicate Verdict(steps: seq<Step>, err: Option<StepError>)
  {
    match err
    case None => StepsValid(steps)
    case Some(e) =>
      if |steps| == 0 then e == NoSteps
      else exists i :: 0 <= i < |steps| && Describes(steps, i, e) && forall j :: 0 <= j < i ==> StepSound(steps, j)
  }

  lemma ValidNamesUnique(steps: seq<Step>)
    requires StepsValid(steps)
    ensures UniqueNames(steps)
  {
    forall i, j | 0 <= i < j < |steps|
      ensures steps[i].name != steps[j].name
    {
      assert StepSound(steps, j);
      assert steps[..j][i].name == steps[i].name;
    }
  }

  /** At most one verdict fits, and it accepts exactly the valid lists. */
  lemma VerdictUnique(steps: seq<Step>, e1: Option<StepError>, e2: Option<StepError>)
    requires Verdict(steps, e1) && Verdict(steps, e2)
    ensures e1 == e2
    ensures e1.None? <==> StepsValid(steps)
  {
    if |steps| > 0 && e1.Some? {
      var i :| 0 <= i < |steps| && Describes(steps, i, e1.value) && forall j :: 0 <= j < i ==> StepSound(steps, j);
      DescribedIsUnsound(steps, i, e1.value);
      if e2.Some? {
        var j :| 0 <= j < |steps| && Describes(steps, j, e2.value) && forall k :: 0 <= k < j ==> StepSound(steps, k);
        DescribedIsUnsound(steps, j, e2.value);
        assert i == j;
      }
    } else if |steps| > 0 && e2.Some? {
      var j :| 0 <= j < |steps| && Describes(steps, j, e2.value) && forall k :: 0 <= k < j ==> StepSound(steps, k);
      DescribedIsUnsound(steps, j, e2.value);
    }
  }

  lemma DescribedIsUnsound(steps: seq<Step>, i: nat, err: StepError)
    requires i < |steps| && Describes(steps, i, err)
    ensures !StepSound(steps, i)
  {
  }

  /** The inner search of both checks: does any step carry this name? */
  method SearchName(steps: seq<Step>, name: string) returns (found: bool)
    ensures found <==> HasStep(steps, name)
  {
    found := false;
    for i := 0 to |steps|
      invariant !HasStep(steps[..i], name)
    {
      if steps[i].name == name {
        return true;
      }
    }
    assert steps[..|steps|] == steps;
  }

  /** Extending a prefix by one step extends its set of names. */
  lemma PrefixNames(steps: seq<Step>, i: nat, seen: set<string>)
    requires i < |steps|
    requires forall n :: n in seen <==> HasStep(steps[..i], n)
    ensures forall n :: n in seen + {steps[i].name} <==> HasStep(steps[..i + 1], n)
  {
    var a, b := steps[..i], steps[..i + 1];
    assert b[i] == steps[i];
    forall n | n in seen + {steps[i].name}
      ensures HasStep(b, n)
    {
      if n in seen {
        var k :| 0 <= k < |a| && a[k].name == n;
        assert b[k].name == n;
      }
    }
    forall n | HasStep(b, n)
      ensures n in seen + {steps[i].name}
    {
      var k :| 0 <= k < |b| && b[k].name == n;
      if k < i {
        assert a[k].name == n;
      }
    }
  }

  lemma SeenNameExists(steps: seq<Step>, i: nat, name: string)
    requires i <= |steps| && HasStep(steps[..i], name)
    ensures HasStep(steps, name)
  {
    var k :| 0 <= k < i && steps[..i][k].name == name;
    assert steps[k].name == name;
  }

  method ValidateSteps(steps: seq<Step>) returns (err: Option<StepError>)
    ensures Verdict(steps, err)
  {
    if |steps| == 0 {
      return Some(NoSteps);
    }
    var stepNames: set<string> := {};
    for i := 0 to |steps|
      invariant forall n :: n in stepNames <==> HasStep(steps[..i], n)
      invariant forall j :: 0 <= j < i ==> StepSound(steps, j)
    {
      var step := steps[i];
      if step.name == "" {
        assert Describes(steps, i, EmptyName(i));
        return Some(EmptyName(i));
      }
      if step.name in stepNames {
        assert Describes(steps, i, DuplicateName(step.name));
        return Some(DuplicateName(step.name));
      }
      PrefixNames(steps, i, stepNames);
      stepNames := stepNames + {step.name};
      for k := 0 to |step.dependencies|
        invariant forall j :: 0 <= j < k ==> KnownDependency(steps, step.dependencies[j])
      {
        var dep := step.dependencies[k];
        if dep != "" && dep !in stepNames {
          var found := SearchName(steps, dep);
          if !found {
            assert Describes(steps, i, InvalidDependency(step.name, dep));
            return Some(InvalidDependency(step.name, dep));
          }
        } else if dep != "" {
          SeenNameExists(steps, i + 1, dep);
        }
      }
    }
    return None;
  }

  /** The controller's check; its errors carry the same facts under other codes. */
  method ValidateJobFlow(steps: seq<Step>) returns (err: Option<StepError>)
    ensures Verdict(steps, err)
  {
    if |steps| == 0 {
      return Some(NoSteps);
    }
    var stepNames: set<string> := {};
    for i := 0 to |steps|
      invariant forall n :: n in stepNames <==> HasStep(steps[..i], n)
      invariant forall j :: 0 <= j < i ==> StepSound(steps, j)
    {
      var step := steps[i];
      if step.name == "" {
        assert Describes(steps, i, EmptyName(i));
        return Some(EmptyName(i));
      }
      if step.name in stepNames {
        assert Describes(steps, i, DuplicateName(step.name));
        return Some(DuplicateName(step.name));
      }
      PrefixNames(steps, i, stepNames);
      stepNames := stepNames + {step.name};
      for k := 0 to |step.dependencies|
        invariant forall j :: 0 <= j < k ==> KnownDependency(steps, step.dependencies[j])
      {
        var dep := step.dependencies[k];
        if dep in stepNames {
          SeenNameExists(steps, i + 1, dep);
        } else if dep != "" {
          var found := SearchName(steps, dep);
          if !found {
            assert Describes(steps, i, InvalidDependency(step.name, dep));
            return Some(InvalidDependency(step.name, dep));
          }
        }
      }
    }
    return None;
  }

  // The cycle check.

  function Names(steps: seq<Step>): set<string>
  {
    set s | s in steps :: s.name
  }

  /** The dependencies that name a step. */
  function Known(deps: seq<string>, names: set<string>): (r: seq<string>)
    ensures forall d :: d in r <==> d in deps && d != "" && d in names
  {
    if |deps| == 0 then []
    else
      var d := deps[|deps| - 1];
      assert deps == deps[..|deps| - 1] + [d];
      Known(deps[..|deps| - 1], names) + if d != "" && d in names then [d] else []
  }

  /** The edges collected for n: those of every step with that name, in list order. */
  function DeclaredEdges(steps: seq<Step>, names: set<string>, n: string): seq<string>
  {
    if |steps| == 0 then []
    else
      var last := steps[|steps| - 1];
      DeclaredEdges(steps[..|steps| - 1], names, n)
      + if last.name == n then Known(last.dependencies, names) else []
  }

  /** Only declared, nonempty dependencies that name a step become edges, and all of them do. */
  lemma {:induction false} DeclaredEdgesContents(steps: seq<Step>, names: set<string>, n: string, d: string)
    ensures d in DeclaredEdges(steps, names, n)
            <==> exists s :: s in steps && s.name == n && d in s.dependencies && d != "" && d in names
  {
    if |steps| > 0 {
      var last := steps[|steps| - 1];
      assert steps == steps[..|steps| - 1] + [last];
      DeclaredEdgesContents(steps[..|steps| - 1], names, n, d);
    }
  }

  function DeclaredGraph(steps: seq<Step>): Graph
  {
    map n | n in Names(steps) :: DeclaredEdges(steps, Names(steps), n)
  }

  method BuildAdjacency(steps: seq<Step>) returns (adj: Graph)
    ensures adj == DeclaredGraph(steps)
  {
    var stepMap: set<string>;
    adj, stepMap := CollectNames(steps);
    for i := 0 to |steps|
      invariant stepMap == Names(steps) && adj.Keys == stepMap
      invariant forall n :: n in stepMap ==> adj[n] == DeclaredEdges(steps[..i], stepMap, n)
    {
      assert steps[..i + 1][..i] == steps[..i];
      adj := AddEdges(adj, stepMap, steps[i]);
    }
    assert steps[..|steps|] == steps;
  }

  /** The first loop: every name, with no edge yet. */
  method CollectNames(steps: seq<Step>) returns (adj: Graph, stepMap: set<string>)
    ensures stepMap == Names(steps) && adj.Keys == stepMap
    ensures forall n :: n in adj ==> adj[n] == []
  {
    adj, stepMap := map[], {};
    for i := 0 to |steps|
      invariant stepMap == Names(steps[..i]) && adj.Keys == stepMap
      invariant forall n :: n in adj ==> adj[n] == []
    {
      assert steps[..i + 1] == steps[..i] + [steps[i]];
      stepMap := stepMap + {steps[i].name};
      adj := adj[steps[i].name := []];
    }
    assert steps[..|steps|] == steps;
  }

  /** The inner loop of the edge collection: the known dependencies of one step. */
  method AddEdges(adj: Graph, stepMap: set<string>, step: Step) returns (r: Graph)
    requires step.name in stepMap && adj.Keys == stepMap
    ensures r == adj[step.name := adj[step.name] + Known(step.dependencies, stepMap)]
  {
    r := adj;
    var deps := step.dependencies;
    assert adj[step.name] + Known(deps[..0], stepMap) == adj[step.name];
    for k := 0 to |deps|
      invariant r == adj[step.name := adj[step.name] + Known(deps[..k], stepMap)]
    {
      KnownSnoc(deps, k, stepMap, adj[step.name]);
      if deps[k] != "" && deps[k] in stepMap {
        r := r[step.name := r[step.name] + [deps[k]]];
      }
    }
    assert deps[..|deps|] == deps;
  }

  lemma KnownSnoc(deps: seq<string>, k: nat, stepMap: set<string>, before: seq<string>)
    requires k < |deps|
    ensures before + Known(deps[..k + 1], stepMap)
            == if deps[k] != "" && deps[k] in stepMap then before + Known(deps[..k], stepMap) + [deps[k]]
               else before + Known(deps[..k], stepMap)
  {
    assert deps[..k + 1][..k] == deps[..k];
  }

  /** The variables that the recursive closure of validateDAG captures, with the finishing
      order as a ghost: it is what makes the search complete. */
  class CycleSearch {
    const adj: Graph
    var visited: set<string>
    var recStack: set<string>
    ghost var finished: seq<string>

    constructor (adj: Graph)
      ensures this.adj == adj && visited == {} && recStack == {} && finished == []
    {
      this.adj := adj;
      visited, recStack, finished := {}, {}, [];
    }

    ghost predicate Valid()
      reads this
    {
      && (forall n, d :: n in adj && d in adj[n] ==> d in adj)
      && visited <= adj.Keys
      && recStack <= visited
      && Elems(finished) == visited - recStack
      && Ordered(adj, finished)
    }

    method Dfs(node: string, ghost stack: seq<string>) returns (err: Option<(string, string)>)
      requires Valid() && node in adj && node !in visited
      requires recStack == Elems(stack) && IsPath(adj, stack + [node])
      modifies this
      ensures err.Some? ==> err.value.1 in Succ(adj, err.value.0)
      ensures err.Some? ==> Reaches(adj, err.value.0, err.value.0) && Reaches(adj, err.value.1, err.value.1)
      ensures err.None? ==> Valid() && recStack == old(recStack)
      ensures err.None? ==> old(visited) <= visited && node in visited
      decreases adj.Keys - visited
    {
      visited := visited + {node};
      recStack := recStack + {node};
      var neighbors := adj[node];
      for i := 0 to |neighbors|
        invariant Valid() && recStack == old(recStack) + {node}
        invariant old(visited) <= visited && node in visited
        invariant forall k :: 0 <= k < i ==> neighbors[k] in visited - recStack
      {
        var neighbor := neighbors[i];
        PathSnoc(adj, stack + [node], neighbor);
        if neighbor !in visited {
          var e := Dfs(neighbor, stack + [node]);
          if e.Some? {
            return e;
          }
        } else if neighbor in recStack {
          CycleThroughEdge(adj, stack, node, neighbor);
          return Some((node, neighbor));
        }
      }
      assert forall d :: d in Succ(adj, node) ==> d in Elems(finished);
      assert node !in Elems(finished);
      OrderedSnoc(adj, finished, node);
      assert Elems(finished + [node]) == Elems(finished) + {node};
      recStack := recStack - {node};
      finished := finished + [node];
      return None;
    }
  }

  /** An edge back onto the search path lies on a cycle with both its ends. */
  lemma CycleThroughEdge(g: Graph, stack: seq<string>, node: string, neighbor: string)
    requires IsPath(g, stack + [node]) && neighbor in Succ(g, node)
    requires neighbor in stack + [node]
    ensures Reaches(g, node, node) && Reaches(g, neighbor, neighbor)
  {
    var q := stack + [node];
    PathSnoc(g, q, neighbor);
    ClosingPath(g, q, neighbor);
    var k :| 0 <= k < |q| && q[k] == neighbor;
    var p := [node] + q[k..];
    forall i | 0 <= i < |p| - 1
      ensures p[i + 1] in Succ(g, p[i])
    {
      if i > 0 {
        assert p[i] == q[k + i - 1] && p[i + 1] == q[k + i - 1 + 1];
      }
    }
    assert PathBetween(g, p, node, node);
  }

  method ValidateDAG(steps: seq<Step>) returns (err: Option<(string, string)>)
    ensures err.Some? <==> HasCycle(DeclaredGraph(steps))
    ensures err.Some? ==> Reaches(DeclaredGraph(steps), err.value.0, err.value.0)
                          && Reaches(DeclaredGraph(steps), err.value.1, err.value.1)
  {
    var adj := BuildAdjacency(steps);
    forall n, d | n in adj && d in adj[n]
      ensures d in adj
    {
      DeclaredEdgesContents(steps, Names(steps), n, d);
    }
    var search := new CycleSearch(adj);
    var todo := adj.Keys;
    while todo != {}
      invariant fresh(search) && search.Valid() && search.adj == adj && search.recStack == {}
      invariant todo <= adj.Keys && adj.Keys - todo <= search.visited
      decreases todo
    {
      var name :| name in todo;
      todo := todo - {name};
      if name !in search.visited {
        var e := search.Dfs(name, []);
        if e.Some? {
          return e;
        }
      }
    }
    OrderedIsAcyclic(adj, search.finished);
    return None;
  }

  /** The two cycle detectors agree: on every list that passes the step checks, the
      validator's graph has a cycle exactly when the graph that the controller sorts has one,
      although the latter also keeps the empty dependency name. */
  lemma DetectorsAgree(steps: seq<Step>)
    requires StepsValid(steps)
    ensures HasCycle(DeclaredGraph(steps)) <==> HasCycle(Dag.DependencyGraph(steps))
  {
    var g, h := DeclaredGraph(steps), Dag.DependencyGraph(steps);
    ValidNamesUnique(steps);
    forall n | Reaches(g, n, n)
      ensures Reaches(h, n, n)
    {
      var p :| PathBetween(g, p, n, n);
      forall i | 0 <= i < |p| - 1
        ensures p[i + 1] in Succ(h, p[i])
      {
        SameEdge(steps, p[i], p[i + 1]);
      }
      assert PathBetween(h, p, n, n);
    }
    forall n | Reaches(h, n, n)
      ensures Reaches(g, n, n)
    {
      var p :| PathBetween(h, p, n, n);
      forall i | 0 <= i < |p| - 1
        ensures p[i + 1] in Succ(g, p[i])
      {
        SameEdge(steps, p[i], p[i + 1]);
        if i + 1 < |p| - 1 {
          assert p[i + 1 + 1] in Succ(h, p[i + 1]);
        } else {
          assert p[0 + 1] in Succ(h, p[0]);
        }
      }
      assert PathBetween(g, p, n, n);
    }
  }

  lemma SameEdge(steps: seq<Step>, a: string, b: string)
    requires StepsValid(steps) && UniqueNames(steps)
    ensures b in Succ(DeclaredGraph(steps), a) ==> b in Succ(Dag.DependencyGraph(steps), a)
    ensures b in Succ(Dag.DependencyGraph(steps), a) && b in Dag.DependencyGraph(steps)
            ==> b in Succ(DeclaredGraph(steps), a)
  {
    Dag.StepMapFind(steps, a);
    DeclaredEdgesContents(steps, Names(steps), a, b);
    if b in Succ(DeclaredGraph(steps), a) {
      var s :| s in steps && s.name == a && b in s.dependencies;
      var i :| 0 <= i < |steps| && steps[i] == s;
      FindStepAt(steps, i);
    }
    if b in Succ(Dag.DependencyGraph(steps), a) && b in Dag.DependencyGraph(steps) {
      var k := Dag.StepMapEntry(steps, b);
      assert StepSound(steps, k);
      var j := Dag.StepMapEntry(steps, a);
    }
  }
}
