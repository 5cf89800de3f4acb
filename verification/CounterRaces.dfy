/** Healthy interleavings that show why the laws of the counter carry the conditions they do. */
module CounterRaces {
  import opened CounterProtocol
  import opened Conservation
  import opened Environments
  import opened FlightEnvironments
  import opened Wrappers

  // ---------- runs that leave the counter to INCR and DECR ----------

  ghost predicate LeadsQuietly(env: Env, s: State, events: seq<Event>, end: State) {
    Leads(env, s, events, end) && NeverOverwritten(s, events)
  }

  lemma {:induction false} AppendQuietly(s: State, events: seq<Event>, e: Event)
    requires Possible(s, events) && NeverOverwritten(s, events)
    requires Enabled(Exec(s, events), e) && !Overwrites(Exec(s, events), e)
    ensures Possible(s, events + [e]) && NeverOverwritten(s, events + [e])
    decreases |events|
  {
    hide Next, Enabled, Overwrites;
    if events == [] {
      assert events + [e] == [e] && [e][1..] == [];
      assert Possible(Next(s, e), []) && NeverOverwritten(Next(s, e), []);
    } else {
      AppendQuietly(Next(s, events[0]), events[1..], e);
      assert (events + [e])[1..] == events[1..] + [e];
    }
  }

  lemma ThenQuietly(env: Env, s: State, events: seq<Event>, at: State, e: Event) returns (more: seq<Event>, next: State)
    requires LeadsQuietly(env, s, events, at) && Enabled(at, e) && Allows(env, at, e) && (e.Step? ==> e.ok)
    requires !Overwrites(at, e)
    ensures LeadsQuietly(env, s, more, next) && next == Next(at, e)
  {
    AppendQuietly(s, events, e);
    more, next := Then(env, s, events, at, e);
  }

  /** The INSERT of a new like. */
  lemma Insert(env: Env, s: State, t: TaskId, u: UserId) returns (events: seq<Event>, end: State)
    requires env.adds && t !in s.tasks && u !in s.likers
    ensures LeadsQuietly(env, s, events, end)
    ensures end == s.(likers := s.likers + {u}, tasks := s.tasks[t := Task(Add(u), Increment, OwesIncrement)])
  {
    assert LeadsQuietly(env, s, [], s) by { Nothing(env, s); }
    events, end := ThenQuietly(env, s, [], s, Arrive(t, Add(u)));
    events, end := ThenQuietly(env, s, events, end, Step(t, true));
  }

  // ---------- the races ----------

  /**
   A fill that reads the rows after an add's INSERT and writes the counter before its INCR counts the
   like twice: the counter ends at 2 with a single liker.
   */
  lemma FillCountsPendingAddTwice(env: Env) returns (events: seq<Event>, end: State)
    requires env.adds
    ensures Leads(env, Beginning({}, None), events, end)
    ensures Quiescent(end) && end.likers == {7} && end.cache == Some(2)
  {
    hide Leads, Next;
    var s := Beginning({}, None);
    events, end := Insert(env, s, 0, 7);
    events, end := MissAndWait(env, s, events, end, 1);
    events, end := LockAndMiss(env, s, events, end, 1, 0);
    assert end.likers == {7};
    events, end := FetchAndRelease(env, s, events, end, 1, 0, true);
    events, end := AnswerAndCount(env, s, events, end);
  }

  lemma AnswerAndCount(env: Env, s: State, events: seq<Event>, at: State) returns (more: seq<Event>, end: State)
    requires Leads(env, s, events, at) && at.likers == {7} && at.cache == Some(1)
    requires at.tasks == map[0 := Task(Add(7), Increment, OwesIncrement), 1 := Task(Read, Got(1), Settled)]
    ensures Leads(env, s, more, end) && Quiescent(end) && end.likers == {7} && end.cache == Some(2)
  {
    hide Leads;
    more, end := Then(env, s, events, at, Step(1, true));
    more, end := Then(env, s, more, end, Step(0, true));
    assert end.tasks == map[0 := Task(Add(7), Done(2), Settled), 1 := Task(Read, Done(1), Settled)];
  }

  /**
   A removal between an add's INSERT and its INCR reads 0 and skips its decrement: without any fill
   or expiry, the counter ends at 1 with no liker at all.
   */
  lemma SkipLeavesPhantomLike(env: Env) returns (events: seq<Event>, end: State)
    requires env.adds && env.removals
    ensures InStep(Beginning({}, Some(0))) && LeadsQuietly(env, Beginning({}, Some(0)), events, end)
    ensures Quiescent(end) && end.likers == {} && end.cache == Some(1)
  {
    hide Leads, LeadsQuietly, Next;
    var s := Beginning({}, Some(0));
    events, end := Insert(env, s, 0, 7);
    assert end.likers == {7};
    events, end := DeleteAndSkip(env, s, events, end, 1, 7);
    assert {7} - {7} == {};
    events, end := CountAfterSkip(env, s, events, end);
  }

  /** A removal that deletes a row and reads a counter of 0. */
  lemma DeleteAndSkip(env: Env, s: State, events: seq<Event>, at: State, t: TaskId, u: UserId)
    returns (more: seq<Event>, end: State)
    requires LeadsQuietly(env, s, events, at) && env.removals && t !in at.tasks && u in at.likers && at.cache == Some(0)
    ensures LeadsQuietly(env, s, more, end)
    ensures end == at.(likers := at.likers - {u}, tasks := at.tasks[t := Task(Remove(u), Done(0), Skipped)])
  {
    more, end := DeleteQuietly(env, s, events, at, t, u);
    more, end := ThenQuietly(env, s, more, end, Step(t, true));
    more, end := ThenQuietly(env, s, more, end, Step(t, true));
  }

  lemma DeleteQuietly(env: Env, s: State, events: seq<Event>, at: State, t: TaskId, u: UserId)
    returns (more: seq<Event>, end: State)
    requires LeadsQuietly(env, s, events, at) && env.removals && t !in at.tasks && u in at.likers
    ensures LeadsQuietly(env, s, more, end)
    ensures end == at.(likers := at.likers - {u}, tasks := at.tasks[t := Task(Remove(u), FirstGet, OwesDecrement)])
  {
    more, end := ThenQuietly(env, s, events, at, Arrive(t, Remove(u)));
    more, end := ThenQuietly(env, s, more, end, Step(t, true));
  }

  lemma CountAfterSkip(env: Env, s: State, events: seq<Event>, at: State) returns (more: seq<Event>, end: State)
    requires LeadsQuietly(env, s, events, at) && at.likers == {} && at.cache == Some(0)
    requires at.tasks == map[0 := Task(Add(7), Increment, OwesIncrement), 1 := Task(Remove(7), Done(0), Skipped)]
    ensures LeadsQuietly(env, s, more, end) && Quiescent(end) && end.likers == {} && end.cache == Some(1)
  {
    more, end := ThenQuietly(env, s, events, at, Step(0, true));
    assert end.tasks == map[0 := Task(Add(7), Done(1), Settled), 1 := Task(Remove(7), Done(0), Skipped)];
  }
}
