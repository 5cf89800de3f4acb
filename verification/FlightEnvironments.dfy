/** In which surroundings the reads of a key share one query: exactly the calm ones. */
module FlightEnvironments {
  import opened CounterProtocol
  import opened Environments
  import opened SingleFlight
  import opened Wrappers

  /** Whatever interleaves, at most one fill query is in progress. */
  ghost predicate OneAtATime(env: Env) {
    forall s, events :: Idle(s) && Possible(s, events) && Within(env, s, events)
        ==> |QueriesInProgress(Exec(s, events))| <= 1
  }

  /** Whatever interleaves, at most one fill query ever succeeds. */
  ghost predicate OneEver(env: Env) {
    forall s, events :: Idle(s) && Possible(s, events) && Within(env, s, events) ==> Exec(s, events).answered <= 1
  }

  // ---------- pieces of runs ----------

  /** A reader that misses the counter, up to waiting for the mutex. */
  lemma MissAndWait(env: Env, s: State, events: seq<Event>, at: State, t: TaskId) returns (more: seq<Event>, end: State)
    requires Leads(env, s, events, at) && t !in at.tasks && !Readable(at.cache)
    ensures Leads(env, s, more, end)
    ensures var m := if at.entry.Some? then at.entry.value else at.nextMutex;
            end == at.(entry := Some(m), nextMutex := if at.entry.Some? then at.nextMutex else m + 1,
                       tasks := at.tasks[t := Task(Read, Lock(m), Settled)])
  {
    more, end := Then(env, s, events, at, Arrive(t, Read));
    more, end := Then(env, s, more, end, Step(t, true));
    more, end := Then(env, s, more, end, Step(t, true));
  }

  /** A reader that gets its mutex and misses the counter again. */
  lemma LockAndMiss(env: Env, s: State, events: seq<Event>, at: State, t: TaskId, m: MutexId)
    returns (more: seq<Event>, end: State)
    requires Leads(env, s, events, at) && !Readable(at.cache)
    requires t in at.tasks && at.tasks[t] == Task(Read, Lock(m), Settled) && m !in at.owners
    ensures Leads(env, s, more, end)
    ensures end == at.(owners := at.owners[m := t], tasks := at.tasks[t := Task(Read, Querying(m), Settled)])
  {
    more, end := Then(env, s, events, at, Step(t, true));
    more, end := Then(env, s, more, end, Step(t, true));
  }

  /** A reader that answers its query, tries to fill the counter, and lets go of lock-map entry and mutex. */
  lemma FetchAndRelease(env: Env, s: State, events: seq<Event>, at: State, t: TaskId, m: MutexId, filled: bool)
    returns (more: seq<Event>, end: State)
    requires Leads(env, s, events, at) && (filled || env.cacheFailures)
    requires t in at.tasks && at.tasks[t] == Task(Read, Querying(m), Settled) && at.owners == map[m := t]
    ensures Leads(env, s, more, end)
    ensures end == at.(cache := if filled then Some(|at.likers|) else at.cache, entry := None, owners := map[],
                       answered := at.answered + 1, tasks := at.tasks[t := Task(Read, Got(|at.likers|), Settled)])
  {
    more, end := FetchAndFill(env, s, events, at, t, m, filled);
    more, end := Then(env, s, more, end, Step(t, true));
    assert at.owners - {m} == map[];
    more, end := Then(env, s, more, end, Step(t, true));
  }

  lemma FetchAndFill(env: Env, s: State, events: seq<Event>, at: State, t: TaskId, m: MutexId, filled: bool)
    returns (more: seq<Event>, end: State)
    requires Leads(env, s, events, at) && (filled || env.cacheFailures)
    requires t in at.tasks && at.tasks[t] == Task(Read, Querying(m), Settled)
    ensures Leads(env, s, more, end)
    ensures end == at.(cache := if filled then Some(|at.likers|) else at.cache, answered := at.answered + 1,
                       tasks := at.tasks[t := Task(Read, Cleanup(m, |at.likers|), Settled)])
  {
    more, end := Then(env, s, events, at, Step(t, true));
    more, end := Then(env, s, more, end, Step(t, filled));
  }

  /** The DELETE of a like. */
  lemma Delete(env: Env, s: State, events: seq<Event>, at: State, t: TaskId, u: UserId)
      returns (more: seq<Event>, end: State)
    requires Leads(env, s, events, at) && env.removals && t !in at.tasks && u in at.likers
    ensures Leads(env, s, more, end)
    ensures end == at.(likers := at.likers - {u}, tasks := at.tasks[t := Task(Remove(u), FirstGet, OwesDecrement)])
  {
    more, end := Then(env, s, events, at, Arrive(t, Remove(u)));
    more, end := Then(env, s, more, end, Step(t, true));
  }

  /** A removal that reads a positive counter and decides to decrement it. */
  lemma ReadAndDecide(env: Env, s: State, events: seq<Event>, at: State, t: TaskId)
      returns (more: seq<Event>, end: State)
    requires Leads(env, s, events, at) && t in at.tasks && at.tasks[t].kind.Remove?
    requires at.tasks[t].pc == FirstGet && at.tasks[t].debt == OwesDecrement
    requires Readable(at.cache) && at.cache.value > 0
    ensures Leads(env, s, more, end) && end == Goto(at, t, Decrement)
  {
    more, end := Then(env, s, events, at, Step(t, true));
    more, end := Then(env, s, more, end, Step(t, true));
  }

  // ---------- how the surroundings break it ----------

  /** A reader still waiting for a mutex that is no longer in the lock map, and a newcomer, both miss and query. */
  lemma StaleMeetsFresh(env: Env, s: State, events: seq<Event>, at: State, waiter: TaskId, newcomer: TaskId, m: MutexId)
    returns (more: seq<Event>, end: State)
    requires Leads(env, s, events, at) && !Readable(at.cache) && at.owners == map[] && at.nextMutex > m
    requires at.entry == None && QueriesInProgress(at) == {}
    requires waiter in at.tasks && at.tasks[waiter] == Task(Read, Lock(m), Settled) && newcomer !in at.tasks
    ensures Leads(env, s, more, end) && waiter != newcomer && QueriesInProgress(end) == {waiter, newcomer}
  {
    more, end := LockAndMiss(env, s, events, at, waiter, m);
    more, end := MissAndWait(env, s, more, end, newcomer);
    more, end := LockAndMiss(env, s, more, end, newcomer, at.nextMutex);
    hide Leads;
    assert forall t :: t in at.tasks ==> t !in QueriesInProgress(at);
  }

  /** One reader querying and one waiting for its mutex. */
  lemma QueryAndWaiter(env: Env, s: State) returns (events: seq<Event>, end: State)
    requires Idle(s) && s.cache == None
    ensures Leads(env, s, events, end)
    ensures end == s.(entry := Some(s.nextMutex), nextMutex := s.nextMutex + 1, owners := map[s.nextMutex := 0],
                      tasks := map[0 := Task(Read, Querying(s.nextMutex), Settled),
                                   1 := Task(Read, Lock(s.nextMutex), Settled)])
  {
    Nothing(env, s);
    events, end := MissAndWait(env, s, [], s, 0);
    events, end := MissAndWait(env, s, events, end, 1);
    events, end := LockAndMiss(env, s, events, end, 0, s.nextMutex);
  }

  /** The counter expires right after the fill. */
  lemma ExpiryBreaks(env: Env) returns (events: seq<Event>, end: State)
    requires env.expiry
    ensures Leads(env, Beginning({}, None), events, end) && QueriesInProgress(end) == {1, 2}
  {
    var s := Beginning({}, None);
    events, end := QueryAndWaiter(env, s);
    events, end := FetchAndRelease(env, s, events, end, 0, 0, true);
    events, end := Then(env, s, events, end, Expire);
    events, end := StaleMeetsFresh(env, s, events, end, 1, 2, 0);
  }

  /** The SET of the fill fails. */
  lemma CacheFailureBreaks(env: Env) returns (events: seq<Event>, end: State)
    requires env.cacheFailures
    ensures Leads(env, Beginning({}, None), events, end) && QueriesInProgress(end) == {1, 2}
  {
    var s := Beginning({}, None);
    events, end := QueryAndWaiter(env, s);
    events, end := FetchAndRelease(env, s, events, end, 0, 0, false);
    events, end := StaleMeetsFresh(env, s, events, end, 1, 2, 0);
  }

  /**
   Without any failure or expiry: two removals, one deleting before and one after a fill, both read the
   filled 1 and both decrement, which leaves a counter of -1 that nobody can read.
   */
  lemma RemovalsBreak(env: Env) returns (events: seq<Event>, end: State)
    requires env.removals
    ensures Leads(env, Beginning({7, 8}, None), events, end) && QueriesInProgress(end) == {1, 4}
  {
    hide Leads, Next;
    var s := Beginning({7, 8}, None);
    events, end := FillBetweenDeletes(env);
    events, end := ReadAndDecide(env, s, events, end, 2);
    events, end := ReadAndDecide(env, s, events, end, 3);
    events, end := DecrementTwice(env, s, events, end, 2, 3);
    events, end := StaleMeetsFresh(env, s, events, end, 1, 4, 0);
  }

  /** A reader fills the counter with 1, between the DELETEs of two removals that have yet to read it. */
  lemma FillBetweenDeletes(env: Env) returns (events: seq<Event>, end: State)
    requires env.removals
    ensures Leads(env, Beginning({7, 8}, None), events, end)
    ensures end == Beginning({7, 8}, None).(
              likers := {}, cache := Some(1), nextMutex := 1, answered := 1,
              tasks := map[0 := Task(Read, Got(1), Settled), 1 := Task(Read, Lock(0), Settled),
                           2 := Task(Remove(7), FirstGet, OwesDecrement),
                               3 := Task(Remove(8), FirstGet, OwesDecrement)])
  {
    hide Leads, Next, QueriesInProgress;
    var s := Beginning({7, 8}, None);
    events, end := QueryAndWaiter(env, s);
    events, end := Delete(env, s, events, end, 2, 7);
    assert end.likers == {8};
    events, end := FetchAndRelease(env, s, events, end, 0, 0, true);
    events, end := Delete(env, s, events, end, 3, 8);
    assert {8} - {8} == {};
  }

  lemma DecrementTwice(env: Env, s: State, events: seq<Event>, at: State, t: TaskId, u: TaskId)
    returns (more: seq<Event>, end: State)
    requires Leads(env, s, events, at) && t != u && t in at.tasks && u in at.tasks
    requires at.tasks[t].pc == Decrement && at.tasks[u].pc == Decrement && at.cache == Some(1)
    ensures Leads(env, s, more, end)
    ensures end == at.(cache := Some(-1), tasks := at.tasks[t := Task(at.tasks[t].kind, Done(0), Settled)]
                                                           [u := Task(at.tasks[u].kind, Recount, Settled)])
  {
    more, end := Then(env, s, events, at, Step(t, true));
    more, end := Then(env, s, more, end, Step(u, true));
  }

  /** A batch that misses the counter and finds the key locked. */
  lemma LockByBatch(env: Env, s: State, events: seq<Event>, at: State, t: TaskId) returns (more: seq<Event>, end: State)
    requires Leads(env, s, events, at) && env.batches && t !in at.tasks && !Readable(at.cache) && at.entry.Some?
    ensures Leads(env, s, more, end)
    ensures end == at.(entry := Some(at.nextMutex), nextMutex := at.nextMutex + 1,
                       tasks := at.tasks[t := Task(Batch, Omitted, Settled)])
  {
    more, end := Then(env, s, events, at, Arrive(t, Batch));
    more, end := Then(env, s, more, end, Step(t, true));
    more, end := Then(env, s, more, end, Step(t, true));
  }

  /** A batch puts a mutex of its own into the lock map while a reader is querying under the old one. */
  lemma BatchBreaks(env: Env) returns (events: seq<Event>, end: State)
    requires env.batches
    ensures Leads(env, Beginning({}, None), events, end) && QueriesInProgress(end) == {0, 3}
  {
    hide Leads, Next;
    var s := Beginning({}, None);
    events, end := QueryAndWaiter(env, s);
    events, end := LockByBatch(env, s, events, end, 2);
    events, end := MissAndWait(env, s, events, end, 3);
    events, end := LockAndMiss(env, s, events, end, 3, 1);
  }

  /** In surroundings that are not calm, two readers of some run query at the same time. */
  lemma TwoQueries(env: Env) returns (s: State, events: seq<Event>, end: State, a: TaskId, b: TaskId)
    requires !Calm(env)
    ensures Idle(s) && Leads(env, s, events, end)
    ensures a != b && QueriesInProgress(end) == {a, b}
  {
    if env.expiry {
      s, a, b := Beginning({}, None), 1, 2;
      events, end := ExpiryBreaks(env);
    } else if env.cacheFailures {
      s, a, b := Beginning({}, None), 1, 2;
      events, end := CacheFailureBreaks(env);
    } else if env.removals {
      s, a, b := Beginning({7, 8}, None), 1, 4;
      events, end := RemovalsBreak(env);
    } else {
      s, a, b := Beginning({}, None), 0, 3;
      events, end := BatchBreaks(env);
    }
  }

  lemma BothSucceed(env: Env, s: State, events: seq<Event>, at: State, a: TaskId, b: TaskId)
      returns (more: seq<Event>, end: State)
    requires Leads(env, s, events, at) && a != b && QueriesInProgress(at) == {a, b}
    ensures Leads(env, s, more, end) && end.answered == at.answered + 2
  {
    assert a in QueriesInProgress(at) && b in QueriesInProgress(at);
    more, end := Then(env, s, events, at, Step(a, true));
    more, end := Then(env, s, more, end, Step(b, true));
  }

  /**
   Likes, reads and failing database commands never bring two fill queries about; removals, batches,
   expiry or a failing cache do, each of them alone: there is one query at a time, and one that ever
   succeeds, exactly in calm surroundings.
   */
  lemma SingleFlightExactlyInCalm(env: Env)
    ensures OneAtATime(env) <==> Calm(env)
    ensures OneEver(env) <==> Calm(env)
  {
    if Calm(env) {
      forall s, events | Idle(s) && Possible(s, events) && Within(env, s, events)
        ensures |QueriesInProgress(Exec(s, events))| <= 1 && Exec(s, events).answered <= 1
      {
        ReadersShareOneQuery(env, s, events);
      }
    } else {
      var s, events, two, a, b := TwoQueries(env);
      var more, end := BothSucceed(env, s, events, two, a, b);
      assert |{a, b}| == 2;
      assert Exec(s, more).answered >= 2;
    }
  }

  // ---------- what is left in the lock map ----------

  /** Whatever interleaves, the lock map has no entry for the key once all tasks are finished. */
  ghost predicate EndsClean(env: Env) {
    forall s, events ::
      Idle(s) && Possible(s, events) && Within(env, s, events) && Quiescent(Exec(s, events))
      ==> Exec(s, events).entry == None
  }

  predicate NothingLeaks(s: State) {
    s.lost == 0 && NoBatch(s)
  }

  lemma NothingLeaksNext(env: Env, s: State, e: Event)
    requires !env.batches && !env.databaseFailures && Enabled(s, e) && Allows(env, s, e) && NothingLeaks(s)
    ensures NothingLeaks(Next(s, e))
  {
    KindsStay(s, e);
    if e.Step? { OthersStay(s, e.t, e.ok); }
  }

  lemma {:induction false} NothingLeaksAlongRun(env: Env, s: State, events: seq<Event>)
    requires !env.batches && !env.databaseFailures && Possible(s, events) && Within(env, s, events) && NothingLeaks(s)
    ensures NothingLeaks(Exec(s, events))
    decreases |events|
  {
    hide Next, Enabled, Allows, NothingLeaks;
    if events != [] {
      NothingLeaksNext(env, s, events[0]);
      NothingLeaksAlongRun(env, Next(s, events[0]), events[1..]);
    }
  }

  /** A batch by itself. */
  lemma BatchLeaves(env: Env) returns (events: seq<Event>, end: State)
    requires env.batches
    ensures Leads(env, Beginning({}, None), events, end) && Quiescent(end) && end.entry.Some?
  {
    hide Leads;
    var s := Beginning({}, None);
    Nothing(env, s);
    events, end := Then(env, s, [], s, Arrive(0, Batch));
    events, end := Then(env, s, events, end, Step(0, true));
    events, end := Then(env, s, events, end, Step(0, true));
    events, end := FinishBatch(env, s, events, end);
  }

  lemma FinishBatch(env: Env, s: State, events: seq<Event>, at: State) returns (more: seq<Event>, end: State)
    requires Leads(env, s, events, at) && at.tasks == map[0 := Task(Batch, BatchQuery, Settled)] && at.entry.Some?
    ensures Leads(env, s, more, end) && Quiescent(end) && end.entry.Some?
  {
    hide Leads;
    more, end := Then(env, s, events, at, Step(0, true));
    more, end := Then(env, s, more, end, Step(0, true));
    assert end.tasks == map[0 := Task(Batch, Done(|at.likers|), Settled)];
  }

  /** A reader whose query fails. */
  lemma FailedQueryLeaves(env: Env) returns (events: seq<Event>, end: State)
    requires env.databaseFailures
    ensures Leads(env, Beginning({}, None), events, end) && Quiescent(end) && end.entry.Some?
  {
    var s := Beginning({}, None);
    Nothing(env, s);
    events, end := MissAndWait(env, s, [], s, 0);
    events, end := LockAndMiss(env, s, events, end, 0, 0);
    events, end := Then(env, s, events, end, Step(0, false));
    events, end := Then(env, s, events, end, Step(0, true));
    assert end.tasks == map[0 := Task(Read, Failed, Settled)];
  }

  /**
   An entry can be left behind exactly if there are batches or failing queries; expiry, removals and a
   failing cache leave none.
   */
  lemma EndsCleanExactlyIf(env: Env)
    ensures EndsClean(env) <==> !env.batches && !env.databaseFailures
  {
    if !env.batches && !env.databaseFailures {
      forall s, events | Idle(s) && Possible(s, events) && Within(env, s, events) && Quiescent(Exec(s, events))
        ensures Exec(s, events).entry == None
      {
        NothingLeaksAlongRun(env, s, events);
        LockMapEndsClean(s, events);
      }
    } else {
      var events, end;
      if env.batches {
        events, end := BatchLeaves(env);
      } else {
        events, end := FailedQueryLeaves(env);
      }
      assert Idle(Beginning({}, None));
    }
  }
}
