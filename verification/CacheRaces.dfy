/** getOrBuildDAG (pkg/controller/reconciler.go) called by concurrent reconciles of any flows:
    each call reads the cache under the read lock, builds outside any lock, and writes under
    the write lock; anything may happen in between. */
module CacheRaces {
  import opened Types
  import opened Digraph
  import opened Dag
  import opened Transition
  import opened Planning

  datatype Entry = Entry(specHash: string, graph: map<string, Step>, sorted: seq<string>)

  /** The program counter of one call and what it holds at that point. */
  datatype Call =
    | Called(key: string, steps: seq<Step>)
    | Missed(key: string, steps: seq<Step>)
    | Built(key: string, steps: seq<Step>, sorted: seq<string>)
    | Returned(steps: seq<Step>, graph: map<string, Step>, order: Option<seq<string>>)

  datatype Shared = Shared(cache: map<string, Entry>, calls: seq<Call>)

  /** A new call, or one atomic step of a call; order is what the sort happens to deliver. */
  datatype Event = Spawn(key: string, steps: seq<Step>) | Act(call: nat, order: Option<seq<string>>)

  function ReadCache(hash: seq<Step> -> string, cache: map<string, Entry>, key: string, steps: seq<Step>): Call
  {
    if key in cache && cache[key].specHash == hash(steps)
        then Returned(steps, cache[key].graph, Some(cache[key].sorted))
    else Missed(key, steps)
  }

  function Take(hash: seq<Step> -> string, s: Shared, event: Event): Shared
  {
    match event
    case Spawn(key, steps) => s.(calls := s.calls + [Called(key, steps)])
    case Act(i, order) =>
      if i >= |s.calls| then s
      else match s.calls[i]
        case Called(key, steps) => s.(calls := s.calls[i := ReadCache(hash, s.cache, key, steps)])
        case Missed(key, steps) =>
          s.(calls := s.calls[i := if order.None? then Returned(steps, map[], None)
              else Built(key, steps, order.value)])
        case Built(key, steps, sorted) =>
          Shared(s.cache[key := Entry(hash(steps), StepMap(steps), sorted)],
                 s.calls[i := Returned(steps, StepMap(steps), Some(sorted))])
        case Returned(_, _, _) => s
  }

  function Play(hash: seq<Step> -> string, events: seq<Event>): Shared
  {
    if |events| == 0 then Shared(map[], [])
    else Take(hash, Play(hash, events[..|events| - 1]), events[|events| - 1])
  }

  /** What a correct sort returns for a step list. */
  ghost predicate SortResult(steps: seq<Step>, order: Option<seq<string>>)
  {
    && (order.None? <==> HasCycle(DependencyGraph(steps)))
    && (order.Some? ==> TopologicalOrder(DependencyGraph(steps), order.value))
  }

  ghost predicate LegalEvent(s: Shared, event: Event)
  {
    event.Act? && event.call < |s.calls| && s.calls[event.call].Missed? ==>
        SortResult(s.calls[event.call].steps, event.order)
  }

  ghost predicate LegalEvents(hash: seq<Step> -> string, events: seq<Event>)
  {
    forall i :: 0 <= i < |events| ==> LegalEvent(Play(hash, events[..i]), events[i])
  }

  /** The hash tells a list that can be sorted from every list with another step map. */
  ghost predicate Separates(hash: seq<Step> -> string)
  {
    forall a, b :: hash(a) == hash(b) && !HasCycle(DependencyGraph(a)) ==> StepMap(a) == StepMap(b)
  }

  /** The call has returned the graph of its own list, and an order of it or the cycle error. */
  ghost predicate Transparent(call: Call)
  {
    call.Returned? ==> SortResult(call.steps, call.order) && (call.order.Some? ==> call.graph == StepMap(call.steps))
  }

  ghost predicate CacheInv(hash: seq<Step> -> string, s: Shared)
  {
    && (forall k :: k in s.cache ==> exists steps :: EntryOf(hash, s.cache[k], steps))
    && (forall i :: 0 <= i < |s.calls| ==> Transparent(s.calls[i]))
    && (forall i :: 0 <= i < |s.calls| && s.calls[i].Built? ==> SortResult(s.calls[i].steps, Some(s.calls[i].sorted)))
  }

  /** The entry was built from this acyclic list. */
  ghost predicate EntryOf(hash: seq<Step> -> string, e: Entry, steps: seq<Step>)
  {
    e.specHash == hash(steps) && e.graph == StepMap(steps) && SortResult(steps, Some(e.sorted))
  }

  lemma StepKeeps(hash: seq<Step> -> string, s: Shared, event: Event)
    requires Separates(hash) && CacheInv(hash, s) && LegalEvent(s, event)
    ensures CacheInv(hash, Take(hash, s, event))
  {
    if event.Act? && event.call < |s.calls| {
      var i := event.call;
      match s.calls[i] {
        case Called(key, steps) =>
          if key in s.cache && s.cache[key].specHash == hash(steps) {
            var own :| EntryOf(hash, s.cache[key], own);
            assert DependencyGraph(own) == DependencyGraph(steps);
          }
        case Missed(key, steps) =>
        case Built(key, steps, sorted) =>
          assert EntryOf(hash, Entry(hash(steps), StepMap(steps), sorted), steps);
        case Returned(_, _, _) =>
      }
    }
  }

  lemma {:induction false} PlayKeeps(hash: seq<Step> -> string, events: seq<Event>)
    requires Separates(hash) && LegalEvents(hash, events)
    ensures CacheInv(hash, Play(hash, events))
  {
    if |events| > 0 {
      var front := events[..|events| - 1];
      assert forall i :: 0 <= i < |front| ==> front[..i] == events[..i] && front[i] == events[i];
      PlayKeeps(hash, front);
      assert LegalEvent(Play(hash, events[..|events| - 1]), events[|events| - 1]);
      StepKeeps(hash, Play(hash, front), events[|events| - 1]);
    }
  }

  /** Transparency: whatever the interleaving of calls for whatever flows, every call returns
      the graph of its own step list with a topological order of it, or the cycle error
      exactly if there is a cycle; a list with a cycle is never cached. */
  lemma {:induction false} CacheTransparent(hash: seq<Step> -> string, events: seq<Event>)
    requires Separates(hash) && LegalEvents(hash, events)
    ensures forall i :: 0 <= i < |Play(hash, events).calls| ==> Transparent(Play(hash, events).calls[i])
    ensures forall k :: k in Play(hash, events).cache ==> !HasCycle(Adjacency(Play(hash, events).cache[k].graph))
  {
    PlayKeeps(hash, events);
    var s := Play(hash, events);
    forall k | k in s.cache
      ensures !HasCycle(Adjacency(s.cache[k].graph))
    {
      var steps :| EntryOf(hash, s.cache[k], steps);
    }
  }

  /** So the plan made from a returned graph has the same ready steps as one made from a fresh
      build. */
  lemma SamePlan(call: Call, rebuilt: seq<string>, steps: seq<StepStatus>, whenTrue: set<string>)
    requires call.Returned? && Transparent(call) && call.order.Some?
    requires SortResult(call.steps, Some(rebuilt))
    ensures Elems(Plan(call.graph, call.order.value, steps, whenTrue)) ==
            Elems(Plan(StepMap(call.steps), rebuilt, steps, whenTrue))
  {
    PlanIgnoresOrder(StepMap(call.steps), call.order.value, rebuilt, steps, whenTrue);
  }

  lemma PlaySnoc(hash: seq<Step> -> string, events: seq<Event>, event: Event)
    ensures Play(hash, events + [event]) == Take(hash, Play(hash, events), event)
  {
    assert (events + [event])[..|events + [event]| - 1] == events;
  }

  lemma LegalSnoc(hash: seq<Step> -> string, events: seq<Event>, event: Event)
    requires LegalEvents(hash, events) && LegalEvent(Play(hash, events), event)
    ensures LegalEvents(hash, events + [event])
  {
    var all := events + [event];
    forall i | 0 <= i < |all|
      ensures LegalEvent(Play(hash, all[..i]), all[i])
    {
      if i < |events| {
        assert all[..i] == events[..i];
      } else {
        assert all[..i] == events;
      }
    }
  }

  /** The condition is exact: if the hash confuses an acyclic list with another one, two calls
      for the same flow, the second after an edit, return the old graph for the new list. */
  lemma {:induction false} CollisionReturnsOldGraph(hash: seq<Step> -> string, a: seq<Step>, b: seq<Step>, key: string)
          returns (events: seq<Event>)
    requires hash(a) == hash(b) && !HasCycle(DependencyGraph(a)) && StepMap(a) != StepMap(b)
    ensures LegalEvents(hash, events)
    ensures exists i :: 0 <= i < |Play(hash, events).calls| && !Transparent(Play(hash, events).calls[i])
  {
    var order := OrderExists(DependencyGraph(a), []);
    events := FillCache(hash, a, order, key);
    events := Extend(hash, events, Spawn(key, b));
    events := Extend(hash, events, Act(1, None));
    assert Play(hash, events).calls[1] == Returned(b, StepMap(a), Some(order));
  }

  /** The three steps of a first call, which leave its graph in the cache. */
  lemma FillCache(hash: seq<Step> -> string, a: seq<Step>, order: seq<string>, key: string) returns (events: seq<Event>)
    requires SortResult(a, Some(order))
    ensures LegalEvents(hash, events)
    ensures Play(hash, events) == Shared(map[key := Entry(hash(a), StepMap(a), order)],
            [Returned(a, StepMap(a), Some(order))])
  {
    var called := Shared(map[], [Called(key, a)]);
    var missed := Shared(map[], [Missed(key, a)]);
    var built := Shared(map[], [Built(key, a, order)]);
    var e0: seq<Event> := [];
    var e1 := Extend(hash, e0, Spawn(key, a));
    assert Play(hash, e1) == called;
    FillSteps(hash, a, order, key, called, missed, built);
    var e2 := Extend(hash, e1, Act(0, None));
    var e3 := Extend(hash, e2, Act(0, Some(order)));
    events := Extend(hash, e3, Act(0, None));
  }

  lemma FillSteps(hash: seq<Step> -> string, a: seq<Step>, order: seq<string>, key: string, called: Shared,
          missed: Shared, built: Shared)
    requires called == Shared(map[], [Called(key, a)]) && missed == Shared(map[], [Missed(key, a)])
    requires built == Shared(map[], [Built(key, a, order)])
    ensures Take(hash, called, Act(0, None)) == missed
    ensures Take(hash, missed, Act(0, Some(order))) == built
    ensures Take(hash, built, Act(0, None))
            == Shared(map[key := Entry(hash(a), StepMap(a), order)], [Returned(a, StepMap(a), Some(order))])
  {
  }

  lemma Extend(hash: seq<Step> -> string, events: seq<Event>, event: Event) returns (longer: seq<Event>)
    requires LegalEvents(hash, events) && LegalEvent(Play(hash, events), event)
    ensures LegalEvents(hash, longer) && Play(hash, longer) == Take(hash, Play(hash, events), event)
  {
    longer := events + [event];
    LegalSnoc(hash, events, event);
    PlaySnoc(hash, events, event);
  }

  /** Transparency of all runs is the same as separation. */
  lemma TransparentIffSeparates(hash: seq<Step> -> string)
    ensures Separates(hash) <==>
              forall events :: LegalEvents(hash, events) ==>
                forall i :: 0 <= i < |Play(hash, events).calls| ==> Transparent(Play(hash, events).calls[i])
  {
    if Separates(hash) {
      forall events | LegalEvents(hash, events)
        ensures forall i :: 0 <= i < |Play(hash, events).calls| ==> Transparent(Play(hash, events).calls[i])
      {
        CacheTransparent(hash, events);
      }
    } else {
      var a, b :| hash(a) == hash(b) && !HasCycle(DependencyGraph(a)) && StepMap(a) != StepMap(b);
      var events := CollisionReturnsOldGraph(hash, a, b, "");
    }
  }
}
