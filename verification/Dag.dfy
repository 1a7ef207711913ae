/** pkg/controller/dag/dag.go: building the graph of a step list and sorting it. */
module Dag {
  import opened Types
  import opened Digraph

  /** The map a step list denotes: for a repeated name the last step wins. */
  function StepMap(steps: seq<Step>): map<string, Step>
  {
    if |steps| == 0 then map[]
    else
      var last := steps[|steps| - 1];
      StepMap(steps[..|steps| - 1])[last.name := last]
  }

  lemma {:induction false} StepMapEntry(steps: seq<Step>, name: string) returns (i: nat)
    requires name in StepMap(steps)
    ensures i < |steps| && steps[i] == StepMap(steps)[name] && steps[i].name == name
  {
    if steps[|steps| - 1].name == name {
      i := |steps| - 1;
    } else {
      i := StepMapEntry(steps[..|steps| - 1], name);
    }
  }

  lemma {:induction false} StepMapHas(steps: seq<Step>, i: nat)
    requires i < |steps|
    ensures steps[i].name in StepMap(steps)
  {
    if i < |steps| - 1 {
      StepMapHas(steps[..|steps| - 1], i);
    }
  }

  function Adjacency(m: map<string, Step>): (g: Digraph.Graph)
    ensures g.Keys == m.Keys
  {
    map n | n in m :: m[n].dependencies
  }

  /** The dependency graph of a step list. */
  function DependencyGraph(steps: seq<Step>): Digraph.Graph
  {
    Adjacency(StepMap(steps))
  }

  /** With distinct names the map and the linear search agree. */
  lemma {:induction false} StepMapFind(steps: seq<Step>, name: string)
    requires UniqueNames(steps)
    ensures name in StepMap(steps) <==> FindStep(steps, name).Some?
    ensures name in StepMap(steps) ==> FindStep(steps, name).value == StepMap(steps)[name]
  {
    if name in StepMap(steps) {
      var i := StepMapEntry(steps, name);
      FindStepAt(steps, i);
    } else if FindStep(steps, name).Some? {
      var i :| 0 <= i < |steps| && steps[i] == FindStep(steps, name).value;
      StepMapHas(steps, i);
    }
  }

  class Graph {
    var steps: map<string, Step>

    constructor ()
      ensures steps == map[]
    {
      steps := map[];
    }

    function GetStep(name: string): (r: Option<Step>)
      reads this
      ensures r.Some? <==> name in steps
      ensures r.Some? ==> r.value == steps[name]
    {
      if name in steps then Some(steps[name]) else None
    }

    ghost function Edges(): Digraph.Graph
      reads this
    {
      Adjacency(steps)
    }

    /** Sorts the graph. The loop over the step map takes its keys in an arbitrary order,
        as Go's map iteration does, so the contract covers every iteration order. */
    method TopologicalSort() returns (sorted: Option<seq<string>>, culprit: string)
      ensures sorted.None? <==> HasCycle(Edges())
      ensures sorted.None? ==> Reaches(Edges(), culprit, culprit)
      ensures sorted.Some? ==> TopologicalOrder(Edges(), sorted.value)
    {
      var marks := new Marks(this);
      var todo := steps.Keys;
      while todo != {}
        invariant fresh(marks) && marks.graph == this && marks.edges == Edges() && marks.Valid()
        invariant marks.tempMark == {}
        invariant todo <= steps.Keys
        invariant steps.Keys - todo <= marks.visited <= Universe(Edges())
        decreases todo
      {
        var name :| name in todo;
        todo := todo - {name};
        if name !in marks.visited {
          var err := marks.Visit(name, []);
          if err.Some? {
            return None, err.value;
          }
        }
      }
      OrderedIsAcyclic(Edges(), marks.result);
      assert Universe(Edges()) <= marks.visited by {
        forall d | d in Universe(Edges())
          ensures d in marks.visited
        {
          if d !in steps {
            var n :| n in steps && d in Succ(Edges(), n);
            var i :| 0 <= i < |marks.result| && marks.result[i] == n;
            assert d in marks.result[..i];
          }
        }
      }
      return Some(marks.result), "";
    }
  }

  /** The variables that the recursive closure of TopologicalSort captures. The maps from
      names to booleans are kept as the sets of names mapped to true. */
  class Marks {
    const graph: Graph
    ghost const edges: Digraph.Graph
    var visited: set<string>
    var tempMark: set<string>
    var result: seq<string>

    constructor (graph: Graph)
      ensures this.graph == graph && edges == graph.Edges()
      ensures visited == {} && tempMark == {} && result == []
    {
      this.graph := graph;
      edges := graph.Edges();
      visited, tempMark, result := {}, {}, [];
    }

    ghost predicate Valid()
      reads this, graph
    {
      && edges == graph.Edges()
      && visited == Elems(result)
      && visited !! tempMark
      && Ordered(edges, result)
    }

    /** Depth-first visit. stack is the path of names being visited; its length is bounded
        because every name on it is marked and comes from the finite set of known names. */
    method Visit(name: string, ghost stack: seq<string>) returns (err: Option<string>)
      requires Valid()
      requires name in Universe(edges)
      requires tempMark == Elems(stack) && IsPath(edges, stack + [name])
      requires visited <= Universe(edges)
      modifies this
      ensures err.Some? ==> Reaches(edges, err.value, err.value)
      ensures err.None? ==> Valid() && tempMark == old(tempMark)
      ensures err.None? ==> old(result) <= result && old(visited) <= visited && name in visited
      ensures err.None? ==> visited <= Universe(edges)
      decreases Universe(edges) - tempMark
    {
      if name in tempMark {
        ClosingPath(edges, stack, name);
        return Some(name);
      }
      if name in visited {
        return None;
      }
      tempMark := tempMark + {name};
      var node := graph.GetStep(name);
      if node.Some? {
        var deps := node.value.dependencies;
        var i := 0;
        while i < |deps|
          invariant 0 <= i <= |deps|
          invariant Valid() && tempMark == old(tempMark) + {name}
          invariant old(result) <= result && old(visited) <= visited
          invariant visited <= Universe(edges)
          invariant forall k :: 0 <= k < i ==> deps[k] in visited
        {
          PathSnoc(edges, stack + [name], deps[i]);
          var e := Visit(deps[i], stack + [name]);
          if e.Some? {
            return e;
          }
          i := i + 1;
        }
      }
      VisitDone(edges, result, tempMark, name);
      tempMark := tempMark - {name};
      visited := visited + {name};
      result := result + [name];
      return None;
    }
  }

  /** Marking a name as visited once all it depends on has been: the list stays ordered. */
  lemma VisitDone(g: Digraph.Graph, result: seq<string>, tempMark: set<string>, name: string)
    requires Ordered(g, result) && name !in result && Elems(result) !! tempMark
    requires forall d :: d in Succ(g, name) ==> d in Elems(result)
    ensures Ordered(g, result + [name])
    ensures Elems(result + [name]) == Elems(result) + {name}
    ensures Elems(result + [name]) !! tempMark - {name}
  {
    OrderedSnoc(g, result, name);
    assert forall n :: n in result + [name] <==> n in result || n == name;
  }

  method BuildDAG(steps: seq<Step>) returns (graph: Graph)
    ensures fresh(graph)
    ensures graph.steps == StepMap(steps)
  {
    graph := new Graph();
    for i := 0 to |steps|
      invariant fresh(graph)
      invariant graph.steps == StepMap(steps[..i])
    {
      assert steps[..i + 1][..i] == steps[..i];
      graph.steps := graph.steps[steps[i].name := steps[i]];
    }
    assert steps[..|steps|] == steps;
  }
}
