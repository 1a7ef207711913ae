/** The goroutines of refreshStepStatusesParallel as a small-step machine: a schedule says
    which task moves next, at what time, and how the API server answers at that moment. */
module Interleaving {
  import opened Types
  import opened Transition
  import opened Planning

  /** A task fetches its Job first and enters the critical section later. */
  datatype Worker = Idle | Fetched(result: Lookup) | Done

  datatype Pool = Pool(steps: seq<StepStatus>, workers: map<nat, Worker>, firstErr: Option<Fault>)

  datatype Tick = Tick(worker: nat, now: int, answers: map<string, Lookup>)

  function Start(steps: seq<StepStatus>): Pool
  {
    Pool(steps, map i: nat | 0 <= i < |steps| && steps[i].jobRef.Some? :: Idle, None)
  }

  function Answer(tick: Tick, steps: seq<StepStatus>): Lookup
  {
    if tick.worker < |steps| && steps[tick.worker].jobRef.Some? && steps[tick.worker].jobRef.value in tick.answers
    then tick.answers[steps[tick.worker].jobRef.value] else NotFound
  }

  /** The critical section: a missing Job is noted through the task's own pointer, a found one
      through a search by name. */
  function Critical(steps: seq<StepStatus>, i: nat, result: Lookup, now: int): seq<StepStatus>
    requires i < |steps|
  {
    match result
    case NotFound => steps[i := steps[i].(phase := StepFailed, completionTime := Some(now))]
    case LookupFailed(_) => steps
    case Found(job) =>
      match StatusIndex(steps, steps[i].name)
      case None => steps
      case Some(k) => steps[k := StepFromJob(steps[k], job, now)]
  }

  function Move(pool: Pool, tick: Tick): Pool
  {
    var w := tick.worker;
    if w !in pool.workers || w >= |pool.steps| then pool
    else match pool.workers[w]
      case Idle => pool.(workers := pool.workers[w := Fetched(Answer(tick, pool.steps))])
      case Done => pool
      case Fetched(result) =>
        Pool(Critical(pool.steps, w, result, tick.now),
             pool.workers[w := Done],
             if result.LookupFailed? && pool.firstErr.None? then Some(Fault(false, result.retryable))
                 else pool.firstErr)
  }

  function Play(steps: seq<StepStatus>, schedule: seq<Tick>): Pool
  {
    if |schedule| == 0 then Start(steps)
    else Move(Play(steps, schedule[..|schedule| - 1]), schedule[|schedule| - 1])
  }

  /** The answer that task i gets for its own Job: that of its first tick. */
  function OwnLookup(steps: seq<StepStatus>, schedule: seq<Tick>, i: nat): Option<Lookup>
  {
    if |schedule| == 0 then None
    else
      var earlier := OwnLookup(steps, schedule[..|schedule| - 1], i);
      var last := schedule[|schedule| - 1];
      if earlier.Some? then earlier
      else if last.worker == i then Some(Answer(last, steps))
      else None
  }

  predicate Complete(pool: Pool)
  {
    forall i :: i in pool.workers ==> pool.workers[i] == Done
  }

  /** Where task i stands and what has become of its step. */
  ghost predicate TaskTracks(steps: seq<StepStatus>, schedule: seq<Tick>, pool: Pool, i: nat)
    requires i < |steps| == |pool.steps|
  {
    if steps[i].jobRef.None? then i !in pool.workers && pool.steps[i] == steps[i]
    else
      && i in pool.workers
      && match pool.workers[i]
         case Idle => pool.steps[i] == steps[i] && OwnLookup(steps, schedule, i).None?
         case Fetched(result) => pool.steps[i] == steps[i] && OwnLookup(steps, schedule, i) == Some(result)
         case Done =>
           && OwnLookup(steps, schedule, i).Some?
           && exists now :: pool.steps[i] == ApplyLookup(steps[i], OwnLookup(steps, schedule, i).value, now)
  }

  /** Task i is done and its lookup failed. */
  ghost predicate FailedTask(steps: seq<StepStatus>, schedule: seq<Tick>, pool: Pool, i: nat)
  {
    && i in pool.workers && pool.workers[i] == Done
    && OwnLookup(steps, schedule, i).Some? && OwnLookup(steps, schedule, i).value.LookupFailed?
  }

  ghost predicate Tracks(steps: seq<StepStatus>, schedule: seq<Tick>, pool: Pool)
  {
    && |pool.steps| == |steps|
    && (forall i :: i in pool.workers ==> i < |steps|)
    && (forall i :: 0 <= i < |steps| ==> TaskTracks(steps, schedule, pool, i))
    && (pool.firstErr.Some? <==> exists i :: FailedTask(steps, schedule, pool, i))
  }

  lemma TracksNames(steps: seq<StepStatus>, schedule: seq<Tick>, pool: Pool)
    requires Tracks(steps, schedule, pool) && UniqueEntries(steps)
    ensures UniqueEntries(pool.steps)
    ensures forall i :: 0 <= i < |steps| ==>
            pool.steps[i].jobRef == steps[i].jobRef && pool.steps[i].name == steps[i].name
  {
    forall i | 0 <= i < |steps|
      ensures pool.steps[i].jobRef == steps[i].jobRef && pool.steps[i].name == steps[i].name
    {
      assert TaskTracks(steps, schedule, pool, i);
    }
    forall i, j | 0 <= i < j < |steps|
      ensures pool.steps[i].name != pool.steps[j].name
    {
      assert pool.steps[i].name == steps[i].name && pool.steps[j].name == steps[j].name;
    }
  }

  lemma {:induction false} PlayTracks(steps: seq<StepStatus>, schedule: seq<Tick>)
    requires UniqueEntries(steps)
    ensures Tracks(steps, schedule, Play(steps, schedule))
  {
    if |schedule| == 0 {
      assert Play(steps, schedule) == Start(steps);
    } else {
      PlayTracks(steps, schedule[..|schedule| - 1]);
      MoveTracks(steps, schedule, Play(steps, schedule[..|schedule| - 1]));
    }
  }

  lemma MoveTracks(steps: seq<StepStatus>, schedule: seq<Tick>, pool: Pool)
    requires |schedule| > 0 && UniqueEntries(steps) && Tracks(steps, schedule[..|schedule| - 1], pool)
    ensures Tracks(steps, schedule, Move(pool, schedule[|schedule| - 1]))
  {
    var front, tick := schedule[..|schedule| - 1], schedule[|schedule| - 1];
    var pool' := Move(pool, tick);
    TracksNames(steps, front, pool);
    forall i | 0 <= i < |steps|
      ensures TaskTracks(steps, schedule, pool', i)
      ensures FailedTask(steps, schedule, pool', i) <==>
                FailedTask(steps, front, pool, i)
                || (i == tick.worker && FailingFetch(pool, i))
    {
      TaskMoves(steps, schedule, pool, i);
    }
    FirstErrorMoves(steps, schedule, pool, pool');
  }

  /** The first error is set exactly when some task's lookup has failed. */
  lemma FirstErrorMoves(steps: seq<StepStatus>, schedule: seq<Tick>, pool: Pool, pool': Pool)
    requires |schedule| > 0 && Tracks(steps, schedule[..|schedule| - 1], pool)
    requires var tick := schedule[|schedule| - 1];
             && pool' == Move(pool, tick)
             && forall i :: 0 <= i < |steps| ==>
                  (FailedTask(steps, schedule, pool', i) <==>
                     || FailedTask(steps, schedule[..|schedule| - 1], pool, i)
                     || (i == tick.worker && FailingFetch(pool, i)))
    ensures pool'.firstErr.Some? <==> exists i :: FailedTask(steps, schedule, pool', i)
  {
    var front, tick := schedule[..|schedule| - 1], schedule[|schedule| - 1];
    if i: nat :| FailedTask(steps, front, pool, i) {
      assert FailedTask(steps, schedule, pool', i);
    }
    if FailingFetch(pool, tick.worker) && tick.worker < |steps| {
      assert FailedTask(steps, schedule, pool', tick.worker);
    }
    if i: nat :| FailedTask(steps, schedule, pool', i) {
      assert i in pool.workers;
    }
  }

  /** Task i holds a failed lookup that it has not reported yet. */
  ghost predicate FailingFetch(pool: Pool, i: nat)
  {
    i in pool.workers && pool.workers[i].Fetched? && pool.workers[i].result.LookupFailed?
  }

  lemma TaskMoves(steps: seq<StepStatus>, schedule: seq<Tick>, pool: Pool, i: nat)
    requires |schedule| > 0 && UniqueEntries(pool.steps) && |pool.steps| == |steps| && i < |steps|
    requires forall k :: 0 <= k < |steps| ==> pool.steps[k].jobRef == steps[k].jobRef
    requires TaskTracks(steps, schedule[..|schedule| - 1], pool, i)
    ensures var tick := schedule[|schedule| - 1];
            var pool' := Move(pool, tick);
            && |pool'.steps| == |steps|
            && TaskTracks(steps, schedule, pool', i)
            && (FailedTask(steps, schedule, pool', i) <==>
                  || FailedTask(steps, schedule[..|schedule| - 1], pool, i)
                  || (i == tick.worker && FailingFetch(pool, i)))
  {
    var tick := schedule[|schedule| - 1];
    MoveSteps(pool, tick);
    if i == tick.worker && i in pool.workers && pool.workers[i].Fetched? {
      assert Move(pool, tick).steps[i] == ApplyLookup(steps[i], pool.workers[i].result, tick.now);
    }
  }

  /** A tick changes at most the entry of its own task. */
  lemma MoveSteps(pool: Pool, tick: Tick)
    requires UniqueEntries(pool.steps)
    ensures var w := tick.worker;
            Move(pool, tick).steps ==
              if w in pool.workers && w < |pool.steps| && pool.workers[w].Fetched?
              then pool.steps[w := ApplyLookup(pool.steps[w], pool.workers[w].result, tick.now)] else pool.steps
  {
    if tick.worker < |pool.steps| {
      StatusIndexAt(pool.steps, tick.worker);
    }
  }

  /** phase is what task i's own lookup calls for. */
  ghost predicate OwnPhase(steps: seq<StepStatus>, schedule: seq<Tick>, i: nat, phase: StepPhase)
    requires i < |steps|
  {
    && OwnLookup(steps, schedule, i).Some?
    && phase == ApplyLookup(steps[i], OwnLookup(steps, schedule, i).value, 0).phase
  }

  /** Confluence: whatever the schedule, once every task is done each step has the phase that
      its own lookup calls for, its Job reference is unchanged, and an error is reported if
      and only if some task's lookup failed with something other than "not found". */
  lemma Confluent(steps: seq<StepStatus>, schedule: seq<Tick>)
    requires UniqueEntries(steps) && Complete(Play(steps, schedule))
    ensures var pool := Play(steps, schedule);
            && |pool.steps| == |steps|
            && (forall i :: 0 <= i < |steps| ==>
                  && pool.steps[i].name == steps[i].name && pool.steps[i].jobRef == steps[i].jobRef
                  && pool.steps[i].startTime == steps[i].startTime && pool.steps[i].retryCount == steps[i].retryCount
                  && (steps[i].jobRef.None? ==> pool.steps[i] == steps[i])
                  && (steps[i].jobRef.Some? ==> OwnPhase(steps, schedule, i, pool.steps[i].phase)))
    ensures Play(steps, schedule).firstErr.Some? <==>
              exists i :: 0 <= i < |steps| && steps[i].jobRef.Some? && OwnLookup(steps, schedule, i).Some?
                          && OwnLookup(steps, schedule, i).value.LookupFailed?
  {
    PlayTracks(steps, schedule);
    var pool := Play(steps, schedule);
    forall i | 0 <= i < |steps|
      ensures pool.steps[i].name == steps[i].name && pool.steps[i].jobRef == steps[i].jobRef
      ensures pool.steps[i].startTime == steps[i].startTime && pool.steps[i].retryCount == steps[i].retryCount
      ensures steps[i].jobRef.None? ==> pool.steps[i] == steps[i]
      ensures steps[i].jobRef.Some? ==> OwnPhase(steps, schedule, i, pool.steps[i].phase)
      ensures steps[i].jobRef.Some? ==>
                (FailedTask(steps, schedule, pool, i) <==> OwnLookup(steps, schedule, i).value.LookupFailed?)
    {
      assert TaskTracks(steps, schedule, pool, i);
    }
    if i :| 0 <= i < |steps| && steps[i].jobRef.Some? && OwnLookup(steps, schedule, i).Some?
            && OwnLookup(steps, schedule, i).value.LookupFailed? {
      assert FailedTask(steps, schedule, pool, i);
    }
    if i: nat :| FailedTask(steps, schedule, pool, i) {
      assert TaskTracks(steps, schedule, pool, i);
    }
  }

  /** Two schedules in which every task sees the same answer end with the same phases and Job
      references, and both or neither report an error. */
  lemma SchedulesAgree(steps: seq<StepStatus>, s1: seq<Tick>, s2: seq<Tick>)
    requires UniqueEntries(steps) && Complete(Play(steps, s1)) && Complete(Play(steps, s2))
    requires forall i :: 0 <= i < |steps| && steps[i].jobRef.Some? ==>
             OwnLookup(steps, s1, i) == OwnLookup(steps, s2, i)
    ensures |Play(steps, s1).steps| == |Play(steps, s2).steps| == |steps|
    ensures forall i :: 0 <= i < |steps| ==>
              && Play(steps, s1).steps[i].phase == Play(steps, s2).steps[i].phase
              && Play(steps, s1).steps[i].jobRef == Play(steps, s2).steps[i].jobRef
    ensures Play(steps, s1).firstErr.Some? <==> Play(steps, s2).firstErr.Some?
  {
    Confluent(steps, s1);
    Confluent(steps, s2);
  }

  /** If no lookup fails, the phases are those of the sequential refresh of the same answers. */
  lemma AgreesWithSequential(steps: seq<StepStatus>, schedule: seq<Tick>, inp: Inputs, st: Status)
    requires UniqueEntries(steps) && Complete(Play(steps, schedule)) && st.steps == steps
    requires forall i :: 0 <= i < |steps| && steps[i].jobRef.Some? ==>
      OwnLookup(steps, schedule, i) == Some(LookupJob(inp, steps[i].jobRef.value))
    requires !RefreshFails(inp, steps)
    ensures Play(steps, schedule).firstErr.None? && |Play(steps, schedule).steps| == |steps|
    ensures forall i :: 0 <= i < |steps| ==>
              && Play(steps, schedule).steps[i].phase == Refresh(inp, st).steps[i].phase
              && Play(steps, schedule).steps[i].jobRef == Refresh(inp, st).steps[i].jobRef
  {
    Confluent(steps, schedule);
    var pool := Play(steps, schedule);
    if pool.firstErr.Some? {
      var i :| 0 <= i < |steps| && steps[i].jobRef.Some? && OwnLookup(steps, schedule, i).Some?
               && OwnLookup(steps, schedule, i).value.LookupFailed?;
      assert LookupFails(inp, steps, i);
      assert false;
    }
    forall i | 0 <= i < |steps|
      ensures pool.steps[i].phase == RefreshStep(inp, steps[i]).phase &&
              pool.steps[i].jobRef == RefreshStep(inp, steps[i]).jobRef
    {
      assert steps[i].jobRef.Some? ==> OwnPhase(steps, schedule, i, pool.steps[i].phase);
    }
  }
}
