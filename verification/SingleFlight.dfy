/** The per-key mutex of `get_like_count_with_fallback`: one COUNT(*) fills the counter for everybody. */
module SingleFlight {
  import opened CounterProtocol
  import opened Environments
  import opened Wrappers

  /** The mutex a task holds. */
  function Held(pc: Pc): Option<MutexId> {
    match pc
    case DoubleCheck(m) => Some(m)
    case Querying(m) => Some(m)
    case Fill(m, _) => Some(m)
    case Cleanup(m, _) => Some(m)
    case Release(m, _) => Some(m)
    case _ => None
  }

  /** The mutex a task waits for, or holds while the lock-map entry may still be its own. */
  function Engaged(pc: Pc): Option<MutexId> {
    match pc
    case Lock(m) => Some(m)
    case DoubleCheck(m) => Some(m)
    case Querying(m) => Some(m)
    case Fill(m, _) => Some(m)
    case Cleanup(m, _) => Some(m)
    case _ => None
  }

  predicate Critical(pc: Pc) { pc.Querying? || pc.Fill? }

  /** The cache works: its commands succeed, a counter that can be read stays so, and no batch locks the key. */
  predicate Steady(s: State, events: seq<Event>)
    requires Possible(s, events)
    decreases |events|
  {
    events == [] || (
      && SteadyEvent(s, events[0])
      && Steady(Next(s, events[0]), events[1..])
    )
  }

  predicate SteadyEvent(s: State, e: Event)
    requires Enabled(s, e)
  {
    && (e.Step? && CacheCommand(s.tasks[e.t].pc) ==> e.ok)
    && (e.Step? ==> !s.tasks[e.t].pc.BatchLock?)
    && (Readable(s.cache) ==> Readable(Next(s, e).cache))
  }

  ghost predicate Holds(s: State, t: TaskId, m: MutexId) {
    t in s.tasks && Held(s.tasks[t].pc) == Some(m)
  }

  ghost predicate EngagedWith(s: State, t: TaskId, m: MutexId) {
    t in s.tasks && Engaged(s.tasks[t].pc) == Some(m)
  }

  ghost predicate IsCritical(s: State, t: TaskId) {
    t in s.tasks && Critical(s.tasks[t].pc)
  }

  ghost predicate IsFilling(s: State, t: TaskId) {
    t in s.tasks && s.tasks[t].pc.Fill?
  }

  /** The guards: whoever holds a mutex is its owner. */
  ghost predicate Guarded(s: State) {
    && (forall t: TaskId, m: MutexId :: Holds(s, t, m) ==> m in s.owners && s.owners[m] == t)
    && (forall m :: m in s.owners ==> Holds(s, s.owners[m], m))
  }

  /**
   While the counter cannot be read, everyone engaged is engaged with the mutex in the lock map.
   A stale mutex can only be waited for once the counter is readable.
   */
  ghost predicate OneLock(s: State) {
    && (!Readable(s.cache) ==> forall t: TaskId, m: MutexId :: EngagedWith(s, t, m) ==> s.entry == Some(m))
    && (forall t :: t in s.tasks && s.tasks[t].pc.Cleanup? ==> Readable(s.cache))
    && (forall t: TaskId :: IsFilling(s, t) ==> s.tasks[t].pc.v >= 0)
  }

  ghost predicate OneQuery(s: State) {
    && (forall t: TaskId, u: TaskId :: IsCritical(s, t) && IsCritical(s, u) ==> t == u)
    && s.answered <= 1
    && (forall t: TaskId :: IsCritical(s, t) && s.tasks[t].pc.Querying? ==> s.answered == 0)
    && (s.answered == 1 ==> Readable(s.cache) || exists t: TaskId :: IsFilling(s, t))
  }

  // ---------- what one piece of a task changes ----------

  lemma OthersStay(s: State, t: TaskId, ok: bool)
    requires Enabled(s, Step(t, ok))
    ensures var next := Next(s, Step(t, ok));
            && next.tasks.Keys == s.tasks.Keys
            && forall u :: u in s.tasks && u != t ==> next.tasks[u] == s.tasks[u]
  {
  }

  lemma MutexStep(s: State, t: TaskId, ok: bool)
    requires Enabled(s, Step(t, ok))
    ensures var next := Next(s, Step(t, ok));
            var pc, after := s.tasks[t].pc, next.tasks[t].pc;
            && (pc.Lock? ==>
                  && Held(pc) == None && pc.m !in s.owners
                  && next.owners == s.owners[pc.m := t] && Held(after) == Some(pc.m))
            && (pc.Release? ==> Held(pc) == Some(pc.m) && next.owners == s.owners - {pc.m} && Held(after) == None)
            && (!pc.Lock? && !pc.Release? ==> next.owners == s.owners && Held(after) == Held(pc))
  {
  }

  lemma EntryStep(s: State, t: TaskId, ok: bool)
    requires Enabled(s, Step(t, ok)) && !s.tasks[t].pc.BatchLock?
    ensures var next := Next(s, Step(t, ok));
            var pc, after := s.tasks[t].pc, next.tasks[t].pc;
            && (pc.Entry? ==>
                  && next.cache == s.cache && Engaged(pc) == None && next.entry.Some? && Engaged(after) == next.entry
                  && (s.entry.Some? ==> next.entry == s.entry))
            && (pc.Cleanup? ==> next.cache == s.cache && Engaged(after) == None)
            && (!pc.Entry? && !pc.Cleanup? ==>
                  next.entry == s.entry && (Engaged(after) == Engaged(pc) || Engaged(after) == None))
  {
  }

  lemma FillStep(s: State, t: TaskId, ok: bool)
    requires Enabled(s, Step(t, ok)) && SteadyEvent(s, Step(t, ok))
    requires IsFilling(s, t) ==> s.tasks[t].pc.v >= 0
    ensures var next := Next(s, Step(t, ok));
            var pc, after := s.tasks[t].pc, next.tasks[t].pc;
            && (after.Fill? ==> pc.Querying? && after.v >= 0 && next.answered == s.answered + 1)
            && (!after.Fill? ==> next.answered == s.answered)
            && (after.Querying? ==> pc.DoubleCheck? && pc.m == after.m && !Readable(s.cache) && next.cache == s.cache)
            && (after.Cleanup? ==> Readable(next.cache))
            && (pc.Fill? ==> after.Cleanup?)
  {
  }

  lemma GuardedNext(s: State, e: Event)
    requires Enabled(s, e) && Guarded(s)
    ensures Guarded(Next(s, e))
  {
    var next := Next(s, e);
    if e.Step? {
      OthersStay(s, e.t, e.ok);
      MutexStep(s, e.t, e.ok);
      hide Next;
      var pc := s.tasks[e.t].pc;
      assert pc.Release? ==> Holds(s, e.t, pc.m);
      assert forall u: TaskId, m: MutexId :: u != e.t ==> (Holds(next, u, m) <==> Holds(s, u, m));
      forall u: TaskId, m: MutexId | Holds(next, u, m) ensures m in next.owners && next.owners[m] == u {
        assert (pc.Lock? && u == e.t) || Holds(s, u, m);
      }
      forall m: MutexId | m in next.owners ensures Holds(next, next.owners[m], m) {
        assert (pc.Lock? && m == pc.m) || Holds(s, s.owners[m], m);
      }
    } else {
      assert forall u: TaskId, m: MutexId :: Holds(next, u, m) <==> Holds(s, u, m);
    }
  }

  lemma OneLockNext(s: State, e: Event)
    requires Enabled(s, e) && SteadyEvent(s, e) && OneLock(s)
    ensures OneLock(Next(s, e))
  {
    var next := Next(s, e);
    if e.Step? {
      OthersStay(s, e.t, e.ok);
      EntryStep(s, e.t, e.ok);
      FillStep(s, e.t, e.ok);
      hide Next;
      assert Engaged(s.tasks[e.t].pc).Some? ==> EngagedWith(s, e.t, Engaged(s.tasks[e.t].pc).value);
      assert forall u: TaskId, m: MutexId :: u != e.t ==> (EngagedWith(next, u, m) <==> EngagedWith(s, u, m));
      assert forall u: TaskId :: u != e.t ==> (IsFilling(next, u) <==> IsFilling(s, u));
    } else {
      assert forall u: TaskId, m: MutexId :: EngagedWith(next, u, m) <==> EngagedWith(s, u, m);
      assert forall u: TaskId :: IsFilling(next, u) <==> IsFilling(s, u);
    }
  }

  lemma OneQueryNext(s: State, e: Event)
    requires Enabled(s, e) && SteadyEvent(s, e) && Guarded(s) && OneLock(s) && OneQuery(s)
    ensures OneQuery(Next(s, e))
  {
    var next := Next(s, e);
    if e.Step? {
      var t := e.t;
      OthersStay(s, t, e.ok);
      FillStep(s, t, e.ok);
      hide Next;
      assert Critical(s.tasks[t].pc) ==> IsCritical(s, t);
      assert next.tasks[t].pc.Fill? ==> IsFilling(next, t);
      assert forall u: TaskId :: u != t ==> (IsCritical(next, u) <==> IsCritical(s, u));
      assert forall u: TaskId :: u != t ==> (IsFilling(next, u) <==> IsFilling(s, u));
      assert forall u: TaskId :: IsFilling(s, u) ==> IsCritical(s, u);
      if next.tasks[t].pc.Querying? {
        NobodyElseCritical(s, t);
      }
    } else {
      assert forall u: TaskId :: IsCritical(next, u) <==> IsCritical(s, u);
      assert forall u: TaskId :: IsFilling(next, u) <==> IsFilling(s, u);
    }
  }

  /** A task that misses at the double check finds nobody past it. */
  lemma NobodyElseCritical(s: State, t: TaskId)
    requires Guarded(s) && OneLock(s) && !Readable(s.cache)
    requires t in s.tasks && s.tasks[t].pc.DoubleCheck?
    ensures forall u: TaskId :: !IsCritical(s, u)
  {
    forall u: TaskId ensures !IsCritical(s, u) {
      if IsCritical(s, u) {
        var m, n := s.tasks[t].pc.m, s.tasks[u].pc.m;
        assert EngagedWith(s, t, m) && EngagedWith(s, u, n);
        assert Holds(s, t, m) && Holds(s, u, n);
      }
    }
  }

  lemma {:induction false} InvariantsAlongRun(s: State, events: seq<Event>)
    requires Possible(s, events) && Steady(s, events) && Guarded(s) && OneLock(s) && OneQuery(s)
    ensures var end := Exec(s, events); Guarded(end) && OneLock(end) && OneQuery(end)
    decreases |events|
  {
    hide Next, Enabled, SteadyEvent;
    if events != [] {
      GuardedNext(s, events[0]);
      OneLockNext(s, events[0]);
      OneQueryNext(s, events[0]);
      InvariantsAlongRun(Next(s, events[0]), events[1..]);
    }
  }

  /** The tasks whose fill query is in progress. */
  function QueriesInProgress(s: State): set<TaskId> {
    set t | t in s.tasks && s.tasks[t].pc.Querying?
  }

  /**
   Single flight: whatever readers, adds and removals interleave, as long as a readable counter
   stays readable, at most one fill query runs at any moment and at most one ever succeeds.
   */
  lemma AtMostOneFillQuery(s: State, events: seq<Event>)
    requires Idle(s) && Possible(s, events) && Steady(s, events)
    ensures |QueriesInProgress(Exec(s, events))| <= 1
    ensures Exec(s, events).answered <= 1
  {
    var end := Exec(s, events);
    InvariantsAlongRun(s, events);
    var queries := QueriesInProgress(end);
    assert forall t :: t in queries ==> IsCritical(end, t);
    if queries != {} {
      var t :| t in queries;
      assert queries == {t};
    }
  }

  // ---------- what may happen around the readers ----------

  /** Neither removals nor batches, and a cache that keeps the counter and does not fail. */
  predicate Calm(env: Env) {
    !env.removals && !env.batches && !env.expiry && !env.cacheFailures
  }

  predicate CalmTask(task: Task) {
    && (task.kind.Add? || task.kind.Read?)
    && !task.pc.Decrement? && !InBatch(task.pc)
    && (task.pc.Fill? ==> task.pc.v >= 0)
  }

  predicate CalmTasks(s: State) {
    forall t :: t in s.tasks ==> CalmTask(s.tasks[t])
  }

  lemma CalmStep(env: Env, s: State, t: TaskId, ok: bool)
    requires Calm(env) && Enabled(s, Step(t, ok)) && Allows(env, s, Step(t, ok)) && CalmTask(s.tasks[t])
    ensures CalmTask(Next(s, Step(t, ok)).tasks[t]) && SteadyEvent(s, Step(t, ok))
  {
  }

  lemma CalmNext(env: Env, s: State, e: Event)
    requires Calm(env) && Enabled(s, e) && Allows(env, s, e) && CalmTasks(s)
    ensures CalmTasks(Next(s, e)) && SteadyEvent(s, e)
  {
    if e.Step? {
      OthersStay(s, e.t, e.ok);
      CalmStep(env, s, e.t, e.ok);
      hide Next, CalmTask;
    }
  }

  lemma {:induction false} CalmIsSteady(env: Env, s: State, events: seq<Event>)
    requires Calm(env) && Possible(s, events) && Within(env, s, events) && CalmTasks(s)
    ensures Steady(s, events)
    decreases |events|
  {
    if events != [] {
      CalmNext(env, s, events[0]);
      hide Next, Enabled, SteadyEvent, CalmTasks, Allows;
      CalmIsSteady(env, Next(s, events[0]), events[1..]);
    }
  }

  /**
   Any readers and likes share one query: with a working cache and no expiry, removal or batch, without
   further conditions.
   */
  lemma ReadersShareOneQuery(env: Env, s: State, events: seq<Event>)
    requires Calm(env) && Idle(s) && Possible(s, events) && Within(env, s, events)
    ensures |QueriesInProgress(Exec(s, events))| <= 1
    ensures Exec(s, events).answered <= 1
  {
    CalmIsSteady(env, s, events);
    AtMostOneFillQuery(s, events);
  }

  // ---------- the lock map is left clean ----------

  predicate NoBatch(s: State) {
    forall t :: t in s.tasks ==> !s.tasks[t].kind.Batch?
  }

  ghost predicate EntryInUse(s: State) {
    && (s.entry.Some? && s.lost == 0 && NoBatch(s) ==> exists t :: t in s.tasks && Engaged(s.tasks[t].pc).Some?)
    && (forall t :: t in s.tasks && (s.tasks[t].pc.BatchGet? || s.tasks[t].pc.BatchLock?) ==> s.tasks[t].kind.Batch?)
  }

  lemma KindsStay(s: State, e: Event)
    requires Enabled(s, e)
    ensures forall t :: t in s.tasks ==> t in Next(s, e).tasks && Next(s, e).tasks[t].kind == s.tasks[t].kind
  {
  }

  lemma EntryInUseNext(s: State, e: Event)
    requires Enabled(s, e) && EntryInUse(s)
    ensures EntryInUse(Next(s, e))
  {
    var next := Next(s, e);
    KindsStay(s, e);
    if e.Step? {
      OthersStay(s, e.t, e.ok);
      EntryUse(s, e.t, e.ok);
      hide Next;
      if next.entry.Some? && next.lost == 0 && NoBatch(next) {
        assert s.tasks[e.t].kind == next.tasks[e.t].kind;
        if Engaged(next.tasks[e.t].pc).None? {
          var t :| t in s.tasks && Engaged(s.tasks[t].pc).Some?;
          assert t in next.tasks && Engaged(next.tasks[t].pc).Some?;
        }
      }
    } else if s.entry.Some? && s.lost == 0 && NoBatch(next) {
      var t :| t in s.tasks && Engaged(s.tasks[t].pc).Some?;
      assert t in next.tasks && Engaged(next.tasks[t].pc).Some?;
    }
  }

  /** An entry without its task comes from a failed query or from a batch. */
  lemma EntryUse(s: State, t: TaskId, ok: bool)
    requires Enabled(s, Step(t, ok))
    ensures var next := Next(s, Step(t, ok));
            var pc, after := s.tasks[t].pc, next.tasks[t].pc;
            && next.lost >= s.lost
            && (pc.BatchLock? || after.BatchLock? ==> pc.BatchGet? || pc.BatchLock?) && !after.BatchGet?
            && (next.entry.Some? && !pc.BatchLock? && Engaged(after).None? ==>
                  s.entry.Some? && (Engaged(pc).None? || next.lost > s.lost))
  {
  }

  lemma {:induction false} EntryInUseAlongRun(s: State, events: seq<Event>)
    requires Possible(s, events) && EntryInUse(s)
    ensures EntryInUse(Exec(s, events))
    decreases |events|
  {
    hide Next, Enabled;
    if events != [] {
      EntryInUseNext(s, events[0]);
      EntryInUseAlongRun(Next(s, events[0]), events[1..]);
    }
  }

  /**
   If no fill query failed and no batch came by, the lock map has no entry for the key once every task
   is finished.
   */
  lemma LockMapEndsClean(s: State, events: seq<Event>)
    requires Idle(s) && Possible(s, events)
    requires Quiescent(Exec(s, events)) && Exec(s, events).lost == 0 && NoBatch(Exec(s, events))
    ensures Exec(s, events).entry == None
  {
    EntryInUseAlongRun(s, events);
    var end := Exec(s, events);
    assert forall t :: t in end.tasks ==> Engaged(end.tasks[t].pc).None?;
  }
}
