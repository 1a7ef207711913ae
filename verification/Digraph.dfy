/** Dependency graphs as adjacency lists, with paths, cycles and topological orders. */
module Digraph {
  import opened Types

  /** A name without an entry has no outgoing edge. */
  type Graph = map<string, seq<string>>

  function Succ(g: Graph, n: string): seq<string>
  {
    if n in g then g[n] else []
  }

  /** Every name that occurs in the graph: the keys and whatever they point at. */
  function Universe(g: Graph): set<string>
  {
    g.Keys + set n, d | n in g.Keys && d in g[n] :: d
  }

  ghost predicate IsPath(g: Graph, p: seq<string>)
  {
    |p| > 0 && forall i :: 0 <= i < |p| - 1 ==> p[i + 1] in Succ(g, p[i])
  }

  ghost predicate PathBetween(g: Graph, p: seq<string>, a: string, b: string)
  {
    IsPath(g, p) && |p| > 1 && p[0] == a && p[|p| - 1] == b
  }

  /** b is reached from a over one edge or more. */
  ghost predicate Reaches(g: Graph, a: string, b: string)
  {
    exists p :: PathBetween(g, p, a, b)
  }

  ghost predicate HasCycle(g: Graph)
  {
    exists n :: Reaches(g, n, n)
  }

  /** s has no repetition and lists every name after all names it points at. */
  ghost predicate Ordered(g: Graph, s: seq<string>)
  {
    && Distinct(s)
    && (forall i, d :: 0 <= i < |s| && d in Succ(g, s[i]) ==> d in s[..i])
  }

  /** A topological order of the whole graph. */
  ghost predicate TopologicalOrder(g: Graph, s: seq<string>)
  {
    Ordered(g, s) && Elems(s) == Universe(g)
  }

  lemma OrderedSnoc(g: Graph, s: seq<string>, n: string)
    requires Ordered(g, s) && n !in s
    requires forall d :: d in Succ(g, n) ==> d in s
    ensures Ordered(g, s + [n])
  {
    var t := s + [n];
    forall i, d | 0 <= i < |t| && d in Succ(g, t[i])
      ensures d in t[..i]
    {
      assert t[..i] == s[..i];
      if i == |s| {
        assert s[..i] == s;
      }
    }
  }

  /** Where an ordered list keeps a successor of its i-th name. */
  lemma SuccessorPosition(g: Graph, s: seq<string>, i: nat, d: string) returns (j: nat)
    requires Ordered(g, s) && i < |s| && d in Succ(g, s[i])
    ensures j < i && s[j] == d
  {
    assert d in s[..i];
    j :| 0 <= j < i && s[j] == d;
  }

  /** Along a path the position in an ordered list strictly decreases. */
  lemma {:induction false} PathDescends(g: Graph, s: seq<string>, p: seq<string>, k: nat, i: nat) returns (j: nat)
    requires Ordered(g, s) && IsPath(g, p) && k < |p| && i < |s| && p[0] == s[i]
    ensures j < |s| && p[k] == s[j] && j <= i && (k > 0 ==> j < i)
    decreases k
  {
    if k == 0 {
      j := i;
    } else {
      var m := PathDescends(g, s, p, k - 1, i);
      assert p[k - 1 + 1] in Succ(g, p[k - 1]);
      j := SuccessorPosition(g, s, m, p[k]);
    }
  }

  /** An ordered list that covers every key leaves no room for a cycle. */
  lemma OrderedIsAcyclic(g: Graph, s: seq<string>)
    requires Ordered(g, s) && g.Keys <= Elems(s)
    ensures !HasCycle(g)
  {
    forall n | Reaches(g, n, n)
      ensures false
    {
      var p :| PathBetween(g, p, n, n);
      assert p[0 + 1] in Succ(g, p[0]);
      assert n in s;
      var i :| 0 <= i < |s| && s[i] == n;
      var j := PathDescends(g, s, p, |p| - 1, i);
      assert false;
    }
  }

  /** A path that comes back to one of its own names closes a cycle. */
  lemma ClosingPath(g: Graph, stack: seq<string>, name: string)
    requires IsPath(g, stack + [name]) && name in stack
    ensures Reaches(g, name, name)
  {
    var q := stack + [name];
    var k :| 0 <= k < |stack| && stack[k] == name;
    var p := q[k..];
    forall i | 0 <= i < |p| - 1
      ensures p[i + 1] in Succ(g, p[i])
    {
      assert p[i] == q[k + i] && p[i + 1] == q[k + i + 1];
      assert q[(k + i) + 1] in Succ(g, q[k + i]);
    }
    assert PathBetween(g, p, name, name);
  }

  /** Outside an incomplete ordered list there is a name with all successors inside. The
      search walks along a path of outside names; a name met twice would close a cycle. */
  lemma {:induction false} NextInOrder(g: Graph, s: seq<string>, stack: seq<string>, name: string) returns (n: string)
    requires !HasCycle(g) && IsPath(g, stack + [name])
    requires name in Universe(g) && name !in s && Elems(stack) <= Universe(g)
    ensures n in Universe(g) && n !in s && forall d :: d in Succ(g, n) ==> d in s
    decreases Universe(g) - Elems(stack)
  {
    if name in stack {
      ClosingPath(g, stack, name);
      assert false;
    }
    if d :| d in Succ(g, name) && d !in s {
      PathSnoc(g, stack + [name], d);
      assert Elems(stack + [name]) == Elems(stack) + {name};
      n := NextInOrder(g, s, stack + [name], d);
    } else {
      n := name;
    }
  }

  /** Every acyclic graph has a topological order. */
  lemma {:induction false} OrderExists(g: Graph, start: seq<string>) returns (s: seq<string>)
    requires !HasCycle(g) && Ordered(g, start) && Elems(start) <= Universe(g)
    ensures TopologicalOrder(g, s)
    decreases Universe(g) - Elems(start)
  {
    if name :| name in Universe(g) && name !in start {
      var n := NextInOrder(g, start, [], name);
      OrderedSnoc(g, start, n);
      assert Elems(start + [n]) == Elems(start) + {n};
      s := OrderExists(g, start + [n]);
    } else {
      s := start;
    }
  }

  /** A graph has a topological order if and only if it has no cycle. */
  lemma OrderableIffAcyclic(g: Graph)
    ensures (exists s :: TopologicalOrder(g, s)) <==> !HasCycle(g)
  {
    if !HasCycle(g) {
      var s := OrderExists(g, []);
    } else if s :| TopologicalOrder(g, s) {
      OrderedIsAcyclic(g, s);
      assert false;
    }
  }

  lemma PathSnoc(g: Graph, p: seq<string>, n: string)
    requires IsPath(g, p) && n in Succ(g, p[|p| - 1])
    ensures IsPath(g, p + [n])
  {
  }

  /** Reachability splits at the first edge. */
  lemma ReachesSplit(g: Graph, a: string, b: string) returns (d: string)
    requires Reaches(g, a, b)
    ensures d in Succ(g, a) && (d == b || Reaches(g, d, b))
  {
    var p :| PathBetween(g, p, a, b);
    assert p[0 + 1] in Succ(g, p[0]);
    d := p[1];
    if |p| > 2 {
      var q := p[1..];
      forall i | 0 <= i < |q| - 1
        ensures q[i + 1] in Succ(g, q[i])
      {
        assert p[(i + 1) + 1] in Succ(g, p[i + 1]);
      }
      assert PathBetween(g, q, d, b);
    }
  }

  /** A set that contains the direct successors of its members contains all they reach. */
  lemma {:induction false} ClosedUnderReach(g: Graph, s: set<string>, a: string, b: string, p: seq<string>)
    requires forall n, d :: n in s && d in Succ(g, n) ==> d in s
    requires a in s && PathBetween(g, p, a, b)
    ensures b in s
    decreases |p|
  {
    assert p[0 + 1] in Succ(g, p[0]);
    if |p| > 2 {
      var q := p[1..];
      forall i | 0 <= i < |q| - 1
        ensures q[i + 1] in Succ(g, q[i])
      {
        assert p[(i + 1) + 1] in Succ(g, p[i + 1]);
      }
      ClosedUnderReach(g, s, p[1], b, q);
    }
  }

  /** Some dependency chain of k edges starts at n. */
  ghost predicate Chain(g: Graph, n: string, k: nat)
    decreases k
  {
    k == 0 || exists d :: d in Succ(g, n) && Chain(g, d, k - 1)
  }

  lemma {:induction false} ChainShorter(g: Graph, n: string, k: nat)
    requires Chain(g, n, k + 1)
    ensures Chain(g, n, k)
    decreases k
  {
    if k > 0 {
      var d :| d in Succ(g, n) && Chain(g, d, k);
      ChainShorter(g, d, k - 1);
    }
  }

  lemma {:induction false} ChainMonotone(g: Graph, n: string, j: nat, k: nat)
    requires j <= k && Chain(g, n, k)
    ensures Chain(g, n, j)
    decreases k - j
  {
    if j < k {
      ChainShorter(g, n, k - 1);
      ChainMonotone(g, n, j, k - 1);
    }
  }

  /** In an ordered list no chain is longer than the position of its first name. */
  lemma {:induction false} ChainBound(g: Graph, s: seq<string>, i: nat, k: nat)
    requires Ordered(g, s) && i < |s| && Chain(g, s[i], k)
    ensures k <= i
    decreases k
  {
    if k > 0 {
      var d :| d in Succ(g, s[i]) && Chain(g, d, k - 1);
      var j := SuccessorPosition(g, s, i, d);
      ChainBound(g, s, j, k - 1);
    }
  }
}
