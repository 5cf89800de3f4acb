/** What may happen in a run of the counter protocol, and runs put together event by event. */
module Environments {
  import opened CounterProtocol
  import opened Wrappers

  predicate CacheCommand(pc: Pc) {
    || pc.FirstGet? || pc.DoubleCheck? || pc.Fill? || pc.Increment? || pc.Decrement? || pc.BatchGet? || pc.BatchFill?
  }

  /** An add that has read the count still fetches the row of the like. */
  predicate DatabaseCommand(task: Task) {
    || task.pc.Write? || task.pc.Querying? || task.pc.Recount? || task.pc.BatchQuery?
    || (task.pc.Got? && task.kind.Add?)
  }

  /** What the surroundings allow besides reads. */
  datatype Env = Env(
    adds: bool, removals: bool, batches: bool, expiry: bool, cacheFailures: bool, databaseFailures: bool)

  predicate Allows(env: Env, s: State, e: Event)
    requires Enabled(s, e)
  {
    match e
    case Arrive(_, kind) => (kind.Add? ==> env.adds) && (kind.Remove? ==> env.removals) && (kind.Batch? ==> env.batches)
    case Step(t, ok) =>
      !ok ==> && (CacheCommand(s.tasks[t].pc) ==> env.cacheFailures)
              && (DatabaseCommand(s.tasks[t]) ==> env.databaseFailures)
    case Expire => env.expiry
  }

  predicate Within(env: Env, s: State, events: seq<Event>)
    requires Possible(s, events)
    decreases |events|
  {
    events == [] || (Allows(env, s, events[0]) && Within(env, Next(s, events[0]), events[1..]))
  }

  /** A state with no task in it. */
  function Beginning(likers: set<UserId>, cache: Option<int>): State {
    State(likers, cache, None, map[], 0, map[], 0, 0)
  }

  predicate Failures(env: Env) { env.cacheFailures || env.databaseFailures }

  /** A run from `s` to `end` that the surroundings allow, and in which no command fails unless they allow that. */
  ghost predicate Leads(env: Env, s: State, events: seq<Event>, end: State) {
    && Possible(s, events) && Exec(s, events) == end && Within(env, s, events)
    && (AllSucceed(events) || Failures(env))
  }

  lemma {:induction false} Append(env: Env, s: State, events: seq<Event>, e: Event)
    requires Possible(s, events) && Within(env, s, events)
    requires Enabled(Exec(s, events), e) && Allows(env, Exec(s, events), e)
    ensures Possible(s, events + [e]) && Within(env, s, events + [e])
    ensures Exec(s, events + [e]) == Next(Exec(s, events), e)
    decreases |events|
  {
    hide Next, Enabled, Allows;
    if events == [] {
      assert events + [e] == [e] && [e][1..] == [];
      assert Possible(Next(s, e), []) && Within(env, Next(s, e), []) && Exec(Next(s, e), []) == Next(s, e);
    } else {
      Append(env, Next(s, events[0]), events[1..], e);
      assert (events + [e])[1..] == events[1..] + [e];
    }
  }

  lemma Then(env: Env, s: State, events: seq<Event>, at: State, e: Event) returns (more: seq<Event>, next: State)
    requires Leads(env, s, events, at) && Enabled(at, e) && Allows(env, at, e) && (e.Step? ==> e.ok || Failures(env))
    ensures Leads(env, s, more, next) && next == Next(at, e) && more == events + [e]
  {
    Append(env, s, events, e);
    more, next := events + [e], Next(at, e);
  }

  lemma Nothing(env: Env, s: State)
    ensures Leads(env, s, [], s)
  {
  }
}
