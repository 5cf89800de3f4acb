/** In which surroundings the counter of a key, once all tasks have finished, is the number of its likers. */
module CounterEnvironments {
  import opened Conservation
  import opened CounterProtocol
  import opened CounterRaces
  import opened Environments
  import opened FlightEnvironments
  import opened SingleFlight
  import opened Wrappers

  /** How a run begins: with the right counter, without one, or without one and without a like. */
  datatype Begin = Cached | NotCached | Untouched

  predicate Begins(begin: Begin, s: State) {
    && Idle(s)
    && match begin
       case Cached => Readable(s.cache) && s.cache.value == |s.likers|
       case NotCached => s.cache == None
       case Untouched => s.cache == None && s.likers == {}
  }

  /** The counter, if there is one, is the number of likers. */
  predicate Right(s: State) {
    s.cache.Some? ==> s.cache.value == |s.likers|
  }

  /** However reads and what the surroundings allow interleave, the counter is right once all tasks have finished. */
  ghost predicate EndsRight(env: Env, begin: Begin) {
    forall s, events ::
      Begins(begin, s) && Possible(s, events) && Within(env, s, events) && Quiescent(Exec(s, events))
      ==> Right(Exec(s, events))
  }

  // ---------- without writes, whatever else happens ----------

  /** A task that neither writes rows nor counts: a read, a batch, or a removal that finds nothing to delete. */
  predicate StillTask(task: Task, likers: nat) {
    && !task.kind.Add? && (task.kind.Remove? ==> likers == 0)
    && (task.pc.Write? ==> task.kind.Remove?)
    && task.debt == Settled && !task.pc.Increment? && !task.pc.Decrement?
    && (Filling(task.pc) ==> task.pc.v == likers)
  }

  ghost predicate StillState(s: State, likers: nat) {
    |s.likers| == likers && Right(s) && forall t :: t in s.tasks ==> StillTask(s.tasks[t], likers)
  }

  lemma StillStep(s: State, t: TaskId, ok: bool)
    requires Enabled(s, Step(t, ok)) && Right(s) && StillTask(s.tasks[t], |s.likers|)
    ensures var next := Next(s, Step(t, ok)); next.likers == s.likers && Right(next)
    ensures StillTask(Next(s, Step(t, ok)).tasks[t], |s.likers|)
  {
    StillLikers(s, t, ok);
    StaysStill(s, t, ok);
    hide Next, StillTask;
  }

  lemma StillLikers(s: State, t: TaskId, ok: bool)
    requires Enabled(s, Step(t, ok)) && Right(s) && StillTask(s.tasks[t], |s.likers|)
    ensures var next := Next(s, Step(t, ok)); next.likers == s.likers && Right(next)
  {
  }

  lemma StaysStill(s: State, t: TaskId, ok: bool)
    requires Enabled(s, Step(t, ok)) && StillTask(s.tasks[t], |s.likers|)
    ensures StillTask(Next(s, Step(t, ok)).tasks[t], |s.likers|)
  {
  }

  lemma StillNext(env: Env, s: State, e: Event, likers: nat)
    requires !env.adds && (env.removals ==> likers == 0) && Enabled(s, e) && Allows(env, s, e) && StillState(s, likers)
    ensures StillState(Next(s, e), likers)
  {
    if e.Step? {
      OthersStay(s, e.t, e.ok);
      StillStep(s, e.t, e.ok);
      hide Next, StillTask;
    }
  }

  lemma {:induction false} StillAlongRun(env: Env, s: State, events: seq<Event>, likers: nat)
    requires !env.adds && (env.removals ==> likers == 0)
    requires Possible(s, events) && Within(env, s, events) && StillState(s, likers)
    ensures StillState(Exec(s, events), likers)
    decreases |events|
  {
    hide Next, Enabled, Allows, StillState;
    if events != [] {
      StillNext(env, s, events[0], likers);
      StillAlongRun(env, Next(s, events[0]), events[1..], likers);
    }
  }

  // ---------- adds alone, or removals alone, on a counter that stays ----------

  predicate OneSided(env: Env) {
    !(env.adds && env.removals) && !env.expiry && !env.cacheFailures
  }

  /** A task that finds the counter whenever it reads it, and never has to skip. */
  predicate WarmTask(env: Env, task: Task) {
    && (task.kind.Add? ==> env.adds) && (task.kind.Remove? ==> env.removals)
    && match task.pc
       case Write => (task.kind.Add? || task.kind.Remove?) && task.debt == Settled
       case FirstGet => task.debt == Settled || (task.kind.Remove? && task.debt == OwesDecrement)
       case Got(v) => task.debt == Settled || (task.kind.Remove? && task.debt == OwesDecrement && v >= 1)
       case Increment => task.kind.Add? && task.debt == OwesIncrement
       case Decrement => task.kind.Remove? && task.debt == OwesDecrement
       case BatchGet => task.kind.Batch? && task.debt == Settled
       case Done(_) => task.debt == Settled
       case Failed => task.debt == Settled
       case _ => false
  }

  ghost predicate WarmState(env: Env, s: State) {
    Readable(s.cache) && Imbalance(s) == 0 && forall t :: t in s.tasks ==> WarmTask(env, s.tasks[t])
  }

  lemma WarmStep(env: Env, s: State, t: TaskId, ok: bool)
    requires OneSided(env) && Enabled(s, Step(t, ok)) && Allows(env, s, Step(t, ok))
    requires WarmTask(env, s.tasks[t]) && Readable(s.cache) && (s.tasks[t].debt == OwesDecrement ==> s.cache.value >= 1)
    ensures var next := Next(s, Step(t, ok));
            WarmTask(env, next.tasks[t]) && Readable(next.cache) && !Overwrites(s, Step(t, ok))
  {
  }

  /** Who still owes a decrement finds it in the counter. */
  lemma OwedIsCounted(env: Env, s: State, t: TaskId)
    requires OneSided(env) && WarmState(env, s) && t in s.tasks && s.tasks[t].debt == OwesDecrement
    ensures s.cache.value >= 1
  {
    assert WarmTask(env, s.tasks[t]);
    assert With(s.tasks, OwesIncrement) == {} by {
      assert forall u :: u in s.tasks ==> WarmTask(env, s.tasks[u]);
    }
    assert t in With(s.tasks, OwesDecrement);
  }

  lemma WarmNext(env: Env, s: State, e: Event)
    requires OneSided(env) && Enabled(s, e) && Allows(env, s, e) && WarmState(env, s)
    ensures WarmState(env, Next(s, e))
  {
    assert DebtsFit(s) by {
      assert forall t :: t in s.tasks ==> WarmTask(env, s.tasks[t]);
    }
    EventBalance(s, e);
    if e.Step? {
      if s.tasks[e.t].debt == OwesDecrement { OwedIsCounted(env, s, e.t); }
      OthersStay(s, e.t, e.ok);
      WarmStep(env, s, e.t, e.ok);
      hide Next, WarmTask, Imbalance;
    }
  }

  lemma {:induction false} WarmAlongRun(env: Env, s: State, events: seq<Event>)
    requires OneSided(env) && Possible(s, events) && Within(env, s, events) && WarmState(env, s)
    ensures WarmState(env, Exec(s, events))
    decreases |events|
  {
    hide Next, Enabled, Allows, WarmState;
    if events != [] {
      WarmNext(env, s, events[0]);
      WarmAlongRun(env, Next(s, events[0]), events[1..]);
    }
  }

  lemma WarmAtRest(env: Env, s: State)
    requires WarmState(env, s) && Quiescent(s)
    ensures Right(s)
  {
    forall t | t in s.tasks ensures s.tasks[t].debt == Settled {
      assert WarmTask(env, s.tasks[t]);
    }
    assert With(s.tasks, OwesIncrement) == {} && With(s.tasks, OwesDecrement) == {} && With(s.tasks, Skipped) == {};
  }

  // ---------- runs that end wrong ----------

  /** `at` is where a run begins or where a counter has just expired; one user more likes the content. */
  lemma ColdAdd(env: Env, s: State, events: seq<Event>, at: State) returns (more: seq<Event>, end: State)
    requires Leads(env, s, events, at) && env.adds && at == Beginning({7}, None)
    ensures Leads(env, s, more, end) && Quiescent(end) && end.likers == {7, 8} && end.cache == Some(1)
  {
    more, end := Then(env, s, events, at, Arrive(0, Add(8)));
    more, end := Then(env, s, more, end, Step(0, true));
    more, end := Then(env, s, more, end, Step(0, true));
    assert end.tasks == map[0 := Task(Add(8), Done(1), Settled)] && {7} + {8} == {7, 8};
  }

  /** One of two likers goes; the counter it fills is the lowered count, which it then decrements. */
  lemma ColdRemoval(env: Env, s: State, events: seq<Event>, at: State) returns (more: seq<Event>, end: State)
    requires Leads(env, s, events, at) && env.removals && at == Beginning({7, 8}, None)
    ensures Leads(env, s, more, end) && Quiescent(end) && end.likers == {8} && end.cache == Some(0)
  {
    hide Leads, Next;
    more, end := Delete(env, s, events, at, 0, 7);
    assert {7, 8} - {7} == {8};
    more, end := RemovalQueries(env, s, more, end);
    more, end := RemovalFills(env, s, more, end);
  }

  lemma RemovalQueries(env: Env, s: State, events: seq<Event>, at: State) returns (more: seq<Event>, end: State)
    requires Leads(env, s, events, at)
    requires at == Beginning({8}, None).(tasks := map[0 := Task(Remove(7), FirstGet, OwesDecrement)])
    ensures Leads(env, s, more, end)
    ensures end == at.(entry := Some(0), nextMutex := 1, owners := map[0 := 0],
                       tasks := map[0 := Task(Remove(7), Querying(0), OwesDecrement)])
  {
    more, end := Then(env, s, events, at, Step(0, true));
    more, end := Then(env, s, more, end, Step(0, true));
    more, end := Then(env, s, more, end, Step(0, true));
    more, end := Then(env, s, more, end, Step(0, true));
  }

  lemma RemovalFills(env: Env, s: State, events: seq<Event>, at: State) returns (more: seq<Event>, end: State)
    requires Leads(env, s, events, at)
    requires at == State({8}, None, Some(0), map[0 := 0], 1, map[0 := Task(Remove(7), Querying(0), OwesDecrement)], 0,
                         0)
    ensures Leads(env, s, more, end) && Quiescent(end) && end.likers == {8} && end.cache == Some(0)
  {
    hide Leads;
    more, end := Then(env, s, events, at, Step(0, true));
    more, end := Then(env, s, more, end, Step(0, true));
    more, end := Then(env, s, more, end, Step(0, true));
    assert end.tasks == map[0 := Task(Remove(7), Release(0, Some(1)), OwesDecrement)] && end.cache == Some(1);
    more, end := RemovalCounts(env, s, more, end);
  }

  lemma RemovalCounts(env: Env, s: State, events: seq<Event>, at: State) returns (more: seq<Event>, end: State)
    requires Leads(env, s, events, at) && at.likers == {8} && at.cache == Some(1)
    requires at.tasks == map[0 := Task(Remove(7), Release(0, Some(1)), OwesDecrement)]
    ensures Leads(env, s, more, end) && Quiescent(end) && end.likers == {8} && end.cache == Some(0)
  {
    hide Leads;
    more, end := Then(env, s, events, at, Step(0, true));
    more, end := Then(env, s, more, end, Step(0, true));
    assert end.tasks == map[0 := Task(Remove(7), Decrement, OwesDecrement)] && end.cache == Some(1);
    more, end := LastStep(env, s, more, end);
  }

  lemma LastStep(env: Env, s: State, events: seq<Event>, at: State) returns (more: seq<Event>, end: State)
    requires Leads(env, s, events, at) && at.cache == Some(1)
    requires at.tasks == map[0 := Task(Remove(7), Decrement, OwesDecrement)]
    ensures Leads(env, s, more, end) && Quiescent(end) && end.likers == at.likers && end.cache == Some(0)
  {
    hide Leads;
    more, end := Then(env, s, events, at, Step(0, true));
    assert end.tasks == map[0 := Task(Remove(7), Done(0), Settled)];
  }

  /** The INCR of a first like fails. */
  lemma LostIncrement(env: Env) returns (events: seq<Event>, end: State)
    requires env.adds && env.cacheFailures
    ensures Leads(env, Beginning({}, Some(0)), events, end) && Quiescent(end) && end.likers == {7}
            && end.cache == Some(0)
  {
    hide Leads;
    var s := Beginning({}, Some(0));
    Nothing(env, s);
    events, end := Then(env, s, [], s, Arrive(0, Add(7)));
    events, end := Then(env, s, events, end, Step(0, true));
    assert end.likers == {7};
    events, end := FailToCount(env, s, events, end);
  }

  lemma FailToCount(env: Env, s: State, events: seq<Event>, at: State) returns (more: seq<Event>, end: State)
    requires Leads(env, s, events, at) && env.cacheFailures
             && at.tasks == map[0 := Task(Add(7), Increment, OwesIncrement)]
    ensures Leads(env, s, more, end) && Quiescent(end) && end.likers == at.likers && end.cache == at.cache
  {
    hide Leads;
    more, end := Then(env, s, events, at, Step(0, false));
    more, end := Then(env, s, more, end, Step(0, true));
    assert end.tasks == map[0 := Task(Add(7), Done(|at.likers|), OwesIncrement)];
  }

  /** The DECR of the last like's removal fails. */
  lemma LostDecrement(env: Env) returns (events: seq<Event>, end: State)
    requires env.removals && env.cacheFailures
    ensures Leads(env, Beginning({7}, Some(1)), events, end) && Quiescent(end) && end.likers == {}
            && end.cache == Some(1)
  {
    hide Leads;
    var s := Beginning({7}, Some(1));
    Nothing(env, s);
    events, end := Delete(env, s, [], s, 0, 7);
    assert {7} - {7} == {};
    events, end := ReadAndDecide(env, s, events, end, 0);
    events, end := Then(env, s, events, end, Step(0, false));
    events, end := Then(env, s, events, end, Step(0, true));
    assert end.tasks == map[0 := Task(Remove(7), Done(0), OwesDecrement)];
  }

  lemma ExpireFirst(env: Env, likers: set<UserId>) returns (events: seq<Event>, end: State)
    requires env.expiry
    ensures Leads(env, Beginning(likers, Some(|likers|)), events, end) && end == Beginning(likers, None)
  {
    var s := Beginning(likers, Some(|likers|));
    Nothing(env, s);
    events, end := Then(env, s, [], s, Expire);
  }

  lemma WrongFromCached(env: Env) returns (s: State, events: seq<Event>, end: State)
    requires (env.adds && env.removals) || ((env.expiry || env.cacheFailures) && (env.adds || env.removals))
    ensures Begins(Cached, s) && Leads(env, s, events, end) && Quiescent(end) && !Right(end)
  {
    hide Leads, Quiescent, Next;
    if env.adds && env.removals {
      s := Beginning({}, Some(0));
      events, end := SkipLeavesPhantomLike(env);
      assert Leads(env, s, events, end) by { QuietLeads(env, s, events, end); }
    } else if env.cacheFailures && env.adds {
      s := Beginning({}, Some(0));
      events, end := LostIncrement(env);
    } else if env.cacheFailures {
      s := Beginning({7}, Some(1));
      events, end := LostDecrement(env);
    } else if env.adds {
      s := Beginning({7}, Some(|{7}|));
      events, end := ExpireFirst(env, {7});
      events, end := ColdAdd(env, s, events, end);
      assert |{7, 8}| == 2;
    } else {
      s := Beginning({7, 8}, Some(|{7, 8}|));
      events, end := ExpireFirst(env, {7, 8});
      events, end := ColdRemoval(env, s, events, end);
    }
  }

  lemma QuietLeads(env: Env, s: State, events: seq<Event>, end: State)
    requires LeadsQuietly(env, s, events, end)
    ensures Leads(env, s, events, end)
  {
  }

  lemma WrongFromNotCached(env: Env) returns (s: State, events: seq<Event>, end: State)
    requires env.adds || env.removals
    ensures Begins(NotCached, s) && Leads(env, s, events, end) && Quiescent(end) && !Right(end)
  {
    hide Leads, Quiescent, Next;
    s := if env.adds then Beginning({7}, None) else Beginning({7, 8}, None);
    assert Leads(env, s, [], s) by { Nothing(env, s); }
    if env.adds {
      events, end := ColdAdd(env, s, [], s);
      assert |{7, 8}| == 2;
    } else {
      events, end := ColdRemoval(env, s, [], s);
    }
  }

  // ---------- exactly when ----------

  /**
   Starting from the right counter, it ends right exactly if adds and removals do not both come, and,
   where the counter may expire or the cache fail, neither does. Reads, batches and failing database
   commands never matter.
   */
  lemma EndsRightExactlyIf(env: Env)
    ensures EndsRight(env, Cached)
            <==> !(env.adds && env.removals) && (env.expiry || env.cacheFailures ==> !env.adds && !env.removals)
  {
    if !(env.adds && env.removals) && (env.expiry || env.cacheFailures ==> !env.adds && !env.removals) {
      forall s, events | Begins(Cached, s) && Possible(s, events) && Within(env, s, events)
          && Quiescent(Exec(s, events))
        ensures Right(Exec(s, events))
      {
        if !env.adds && !env.removals {
          StillAlongRun(env, s, events, |s.likers|);
        } else {
          assert forall d :: With(s.tasks, d) == {};
          WarmAlongRun(env, s, events);
          WarmAtRest(env, Exec(s, events));
        }
      }
    } else {
      var s, events, end := WrongFromCached(env);
    }
  }

  /** Starting without a counter, it ends right exactly if there are neither adds nor removals. */
  lemma EndsRightFromAbsentExactlyIf(env: Env)
    ensures EndsRight(env, NotCached) <==> !env.adds && !env.removals
  {
    if !env.adds && !env.removals {
      forall s, events | Begins(NotCached, s) && Possible(s, events) && Within(env, s, events)
          && Quiescent(Exec(s, events))
        ensures Right(Exec(s, events))
      {
        StillAlongRun(env, s, events, |s.likers|);
      }
    } else {
      var s, events, end := WrongFromNotCached(env);
    }
  }

  /** Starting without a counter and without a like, it ends right exactly if there are no adds. */
  lemma EndsRightFromNothingExactlyIf(env: Env)
    ensures EndsRight(env, Untouched) <==> !env.adds
  {
    if !env.adds {
      forall s, events | Begins(Untouched, s) && Possible(s, events) && Within(env, s, events)
          && Quiescent(Exec(s, events))
        ensures Right(Exec(s, events))
      {
        StillAlongRun(env, s, events, 0);
      }
    } else {
      var events, end := FillCountsPendingAddTwice(env);
      assert Begins(Untouched, Beginning({}, None));
    }
  }
}
