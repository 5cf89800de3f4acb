/** What the counter and the rows of one content key owe each other, over every interleaving. */
module Conservation {
  import opened CounterProtocol
  import opened Wrappers

  /** The tasks whose row change the counter treats as `d`. */
  function With(tasks: map<TaskId, Task>, d: Debt): set<TaskId> {
    set t | t in tasks && tasks[t].debt == d
  }

  /**
   How far the counter is from the number of likers, once adds saved but not yet incremented,
   removals deleted but not yet decremented, and skipped decrements are accounted for.
   */
  function Imbalance(s: State): int {
    Value(s.cache) - (|s.likers| - |With(s.tasks, OwesIncrement)| + |With(s.tasks, OwesDecrement)|
                      + |With(s.tasks, Skipped)|)
  }

  /** SET by a read or a batch, or the key expiring: the only events that overwrite the counter. */
  predicate Overwrites(s: State, e: Event) {
    || e.Expire?
    || (e.Step? && e.ok && e.t in s.tasks && Filling(s.tasks[e.t].pc))
  }

  predicate Filling(pc: Pc) { pc.Fill? || pc.BatchFill? }

  lemma WithAfter(tasks: map<TaskId, Task>, t: TaskId, task: Task, d: Debt)
    ensures |With(tasks[t := task], d)|
            == |With(tasks, d)| - (if t in tasks && tasks[t].debt == d then 1 else 0)
               + (if task.debt == d then 1 else 0)
  {
    var before, after := With(tasks, d), With(tasks[t := task], d);
    if task.debt == d {
      assert after == before + {t};
    } else {
      assert after == before - {t};
    }
  }

  lemma DebtsAfter(s: State, e: Event)
    requires Enabled(s, e) && !e.Expire?
    ensures var next := Next(s, e);
            forall d :: d != Settled ==>
              |With(next.tasks, d)| == |With(s.tasks, d)|
                - (if e.t in s.tasks && s.tasks[e.t].debt == d then 1 else 0)
                    + (if next.tasks[e.t].debt == d then 1 else 0)
  {
    var next := Next(s, e);
    assert next.tasks == s.tasks[e.t := next.tasks[e.t]];
    forall d | d != Settled
      ensures |With(next.tasks, d)| == |With(s.tasks, d)|
        - (if e.t in s.tasks && s.tasks[e.t].debt == d then 1 else 0) + (if next.tasks[e.t].debt == d then 1 else 0)
    {
      WithAfter(s.tasks, e.t, next.tasks[e.t], d);
    }
  }

  /** A task that has inserted or deleted a row sits where it will settle with the counter. */
  predicate DebtFits(task: Task) {
    match task.debt
    case Settled => task.pc != Increment && task.pc != Decrement
    case OwesIncrement => task.kind.Add? && (task.pc.Increment? || task.pc.Recount? || Finished(task.pc))
    case OwesDecrement => task.kind.Remove? && task.pc != Write && task.pc != Increment && !InBatch(task.pc)
    case Skipped => task.kind.Remove? && task.pc.Done?
  }

  predicate DebtsFit(s: State) {
    forall t :: t in s.tasks ==> DebtFits(s.tasks[t])
  }

  lemma DebtsKeepFitting(s: State, e: Event)
    requires Enabled(s, e) && DebtsFit(s)
    ensures DebtsFit(Next(s, e))
  {
  }

  /** What a debt adds to the counter's excess over the likers. */
  function Weight(d: Debt): int {
    match d
    case Settled => 0
    case OwesIncrement => -1
    case OwesDecrement => 1
    case Skipped => 1
  }

  /** What an event changes the rows and the counter by, it changes the debt of its task by. */
  ghost predicate Accounted(s: State, e: Event, next: State)
    requires !e.Expire? && e.t in next.tasks
  {
    var before := if e.t in s.tasks then s.tasks[e.t].debt else Settled;
    var jump := if Overwrites(s, e) then Value(next.cache) - Value(s.cache) else 0;
    (Value(next.cache) - jump - |next.likers|) - (Value(s.cache) - |s.likers|)
    == Weight(next.tasks[e.t].debt) - Weight(before)
  }

  lemma WriteAccounted(s: State, t: TaskId, ok: bool)
    requires Enabled(s, Step(t, ok)) && DebtFits(s.tasks[t]) && s.tasks[t].pc == Write
    ensures Accounted(s, Step(t, ok), Next(s, Step(t, ok)))
  {
  }

  lemma BumpAccounted(s: State, t: TaskId, ok: bool)
    requires Enabled(s, Step(t, ok)) && DebtFits(s.tasks[t])
             && (s.tasks[t].pc == Increment || s.tasks[t].pc == Decrement)
    ensures Accounted(s, Step(t, ok), Next(s, Step(t, ok)))
  {
  }

  lemma OtherAccounted(s: State, t: TaskId, ok: bool)
    requires Enabled(s, Step(t, ok)) && DebtFits(s.tasks[t])
    requires s.tasks[t].pc != Write && s.tasks[t].pc != Increment && s.tasks[t].pc != Decrement
    ensures Accounted(s, Step(t, ok), Next(s, Step(t, ok)))
  {
  }

  /** What one event does to the balance. */
  lemma EventBalance(s: State, e: Event)
    requires Enabled(s, e) && DebtsFit(s)
    ensures Imbalance(Next(s, e))
            == Imbalance(s) + (if Overwrites(s, e) then Value(Next(s, e).cache) - Value(s.cache) else 0)
  {
    if !e.Expire? {
      DebtsAfter(s, e);
      if e.Step? {
        assert DebtFits(s.tasks[e.t]);
        if s.tasks[e.t].pc == Write {
          WriteAccounted(s, e.t, e.ok);
        } else if s.tasks[e.t].pc == Increment || s.tasks[e.t].pc == Decrement {
          BumpAccounted(s, e.t, e.ok);
        } else {
          OtherAccounted(s, e.t, e.ok);
        }
        hide Next;
      }
    }
  }

  /** The sum of what the run's fills and expiries changed the counter by. */
  function Overwritten(s: State, events: seq<Event>): int
    requires Possible(s, events)
    decreases |events|
  {
    if events == [] then 0 else
      var next := Next(s, events[0]);
      (if Overwrites(s, events[0]) then Value(next.cache) - Value(s.cache) else 0) + Overwritten(next, events[1..])
  }

  /** No SET on the key succeeds and the key does not expire. */
  predicate NeverOverwritten(s: State, events: seq<Event>)
    requires Possible(s, events)
    decreases |events|
  {
    events == [] || (!Overwrites(s, events[0]) && NeverOverwritten(Next(s, events[0]), events[1..]))
  }

  lemma {:induction false} BalanceAlongRun(s: State, events: seq<Event>)
    requires Possible(s, events) && DebtsFit(s)
    ensures DebtsFit(Exec(s, events))
    ensures Imbalance(Exec(s, events)) == Imbalance(s) + Overwritten(s, events)
    decreases |events|
  {
    if events != [] {
      DebtsKeepFitting(s, events[0]);
      EventBalance(s, events[0]);
      BalanceAlongRun(Next(s, events[0]), events[1..]);
    }
  }

  lemma {:induction false} NothingOverwritten(s: State, events: seq<Event>)
    requires Possible(s, events) && NeverOverwritten(s, events)
    ensures Overwritten(s, events) == 0
    decreases |events|
  {
    if events != [] { NothingOverwritten(Next(s, events[0]), events[1..]); }
  }

  /** The counter starts in step with the rows; an absent key counts as 0. */
  predicate InStep(s: State) {
    Idle(s) && Value(s.cache) == |s.likers|
  }

  /**
   Over every interleaving of adds, removals and reads, with any database or cache command failing:
   the counter is the number of likers, less the adds it has not seen, plus the removals it has not
   seen or has skipped, plus what fills and expiries overwrote.
   */
  lemma CounterLaw(s: State, events: seq<Event>)
    requires InStep(s) && Possible(s, events)
    ensures var end := Exec(s, events);
            Value(end.cache) == |end.likers| - |With(end.tasks, OwesIncrement)| + |With(end.tasks, OwesDecrement)|
                                + |With(end.tasks, Skipped)| + Overwritten(s, events)
  {
    assert forall d :: With(s.tasks, d) == {};
    BalanceAlongRun(s, events);
  }

  /** Conservation: without a SET or an expiry, nothing but what is still owed separates the two. */
  lemma CounterConservation(s: State, events: seq<Event>)
    requires InStep(s) && Possible(s, events) && NeverOverwritten(s, events)
    ensures var end := Exec(s, events);
            Value(end.cache) == |end.likers| - |With(end.tasks, OwesIncrement)| + |With(end.tasks, OwesDecrement)|
                                + |With(end.tasks, Skipped)|
  {
    CounterLaw(s, events);
    NothingOverwritten(s, events);
  }

  /** Without failing commands, a finished task owes the counter nothing it has not skipped. */
  predicate PaysUp(task: Task) {
    && task.pc != Failed
    && (task.pc.Release? ==> task.pc.answer.Some?)
    && (task.debt == OwesIncrement ==> task.pc.Increment?)
    && (task.debt == OwesDecrement ==> !Finished(task.pc) && task.pc != Recount)
  }

  predicate AllPayUp(s: State) {
    forall t :: t in s.tasks ==> PaysUp(s.tasks[t])
  }

  lemma HealthyEventPaysUp(s: State, e: Event)
    requires Enabled(s, e) && (e.Step? ==> e.ok) && DebtsFit(s) && AllPayUp(s)
    ensures AllPayUp(Next(s, e))
  {
    if e.Step? {
      assert PaysUp(s.tasks[e.t]) && DebtFits(s.tasks[e.t]);
      assert PaysUp(Next(s, e).tasks[e.t]);
    }
  }

  lemma {:induction false} HealthyRunsPayUp(s: State, events: seq<Event>)
    requires Possible(s, events) && AllSucceed(events) && DebtsFit(s)
    requires AllPayUp(s)
    ensures AllPayUp(Exec(s, events))
    decreases |events|
  {
    hide Next, Enabled;
    if events != [] {
      DebtsKeepFitting(s, events[0]);
      HealthyEventPaysUp(s, events[0]);
      HealthyRunsPayUp(Next(s, events[0]), events[1..]);
    }
  }

  // ---------- when the counter at rest is right ----------

  /**
   From a state reached without failures on, nothing fails and nothing overwrites the counter, until
   all tasks are done.
   */
  ghost predicate ComesToRest(s: State, events: seq<Event>) {
    && DebtsFit(s) && AllPayUp(s)
    && Possible(s, events) && AllSucceed(events) && NeverOverwritten(s, events) && Quiescent(Exec(s, events))
  }

  /**
   From any point of a healthy run on that is not overwritten again, the imbalance there and the skips
   are what stays.
   */
  lemma ErrorAtRest(s: State, events: seq<Event>)
    requires ComesToRest(s, events)
    ensures var end := Exec(s, events);
            Value(end.cache) - |end.likers| == Imbalance(s) + |With(end.tasks, Skipped)|
  {
    var end := Exec(s, events);
    BalanceAlongRun(s, events);
    NothingOverwritten(s, events);
    HealthyRunsPayUp(s, events);
    assert With(end.tasks, OwesIncrement) == {} && With(end.tasks, OwesDecrement) == {};
  }

  /**
   A healthy run that is never overwritten ends with the counter right exactly if no removal skipped
   its decrement.
   */
  lemma QuiescentCounterIsExact(s: State, events: seq<Event>)
    requires InStep(s) && ComesToRest(s, events)
    ensures var end := Exec(s, events);
            Value(end.cache) == |end.likers| <==> forall t :: t in end.tasks ==> end.tasks[t].debt != Skipped
  {
    var end := Exec(s, events);
    assert forall d :: With(s.tasks, d) == {};
    ErrorAtRest(s, events);
    var skipped := With(end.tasks, Skipped);
    if forall t :: t in end.tasks ==> end.tasks[t].debt != Skipped { assert skipped == {}; }
    forall t | t in end.tasks && end.tasks[t].debt == Skipped ensures skipped != {} { assert t in skipped; }
  }

  lemma {:induction false} SkipsStay(s: State, events: seq<Event>)
    requires Possible(s, events) && DebtsFit(s)
    ensures With(s.tasks, Skipped) <= With(Exec(s, events).tasks, Skipped)
    decreases |events|
  {
    if events != [] {
      DebtsKeepFitting(s, events[0]);
      forall t | t in With(s.tasks, Skipped) ensures t in With(Next(s, events[0]).tasks, Skipped) {
        SkipStays(s, events[0], t);
      }
      hide Next, Enabled, DebtsFit;
      SkipsStay(Next(s, events[0]), events[1..]);
    }
  }

  lemma SkipStays(s: State, e: Event, t: TaskId)
    requires Enabled(s, e) && t in s.tasks && DebtFits(s.tasks[t]) && s.tasks[t].debt == Skipped
    ensures t in Next(s, e).tasks && Next(s, e).tasks[t] == s.tasks[t]
  {
  }

  /** The removals that skip their decrement during a run. */
  function Skips(s: State, events: seq<Event>): set<TaskId>
    requires Possible(s, events)
  {
    With(Exec(s, events).tasks, Skipped) - With(s.tasks, Skipped)
  }

  lemma ErrorSince(s: State, events: seq<Event>)
    requires ComesToRest(s, events)
    ensures var end := Exec(s, events);
            Value(end.cache) - |end.likers|
            == Value(s.cache) - |s.likers| + |With(s.tasks, OwesIncrement)| - |With(s.tasks, OwesDecrement)|
               + |Skips(s, events)|
  {
    var end := Exec(s, events);
    ErrorAtRest(s, events);
    SkipsStay(s, events);
    assert |With(end.tasks, Skipped)| == |With(s.tasks, Skipped)| + |Skips(s, events)| by {
      assert With(end.tasks, Skipped) == With(s.tasks, Skipped) + Skips(s, events);
    }
  }

  /**
   A run from idleness that is never overwritten ends right exactly if what the counter lacked at the
   start was skipped.
   */
  lemma RestUntouchedIsExactExactlyIf(s: State, events: seq<Event>)
    requires Idle(s) && ComesToRest(s, events)
    ensures var end := Exec(s, events);
            Value(end.cache) == |end.likers| <==> Value(s.cache) + |Skips(s, events)| == |s.likers|
  {
    assert forall d :: With(s.tasks, d) == {};
    ErrorSince(s, events);
  }

  /**
   If the last event to overwrite the counter is its expiry, the counter ends right exactly if the adds
   still to be counted then, and the decrements skipped later, are as many as the likers there were
   and the decrements still owed.
   */
  lemma RestAfterExpiryIsExactExactlyIf(s: State, after: seq<Event>)
    requires ComesToRest(Next(s, Expire), after)
    ensures var end := Exec(Next(s, Expire), after);
            Value(end.cache) == |end.likers|
            <==> |With(s.tasks, OwesIncrement)| + |Skips(Next(s, Expire), after)|
                 == |s.likers| + |With(s.tasks, OwesDecrement)|
  {
    ErrorSince(Next(s, Expire), after);
  }

  // ---------- a fill between other tasks' writes ----------

  predicate InsertsRow(s: State, e: Event) {
    e.Step? && e.ok && e.t in s.tasks && s.tasks[e.t].pc == Write && s.tasks[e.t].kind.Add?
        && s.tasks[e.t].kind.user !in s.likers
  }

  predicate DeletesRow(s: State, e: Event) {
    e.Step? && e.ok && e.t in s.tasks && s.tasks[e.t].pc == Write && s.tasks[e.t].kind.Remove?
        && s.tasks[e.t].kind.user in s.likers
  }

  /** The adds whose INSERT is among the events. */
  function Inserted(s: State, events: seq<Event>): set<TaskId>
    requires Possible(s, events)
    decreases |events|
  {
    if events == [] then {} else
      (if InsertsRow(s, events[0]) then {events[0].t} else {}) + Inserted(Next(s, events[0]), events[1..])
  }

  /** The removals whose DELETE is among the events. */
  function Deleted(s: State, events: seq<Event>): set<TaskId>
    requires Possible(s, events)
    decreases |events|
  {
    if events == [] then {} else
      (if DeletesRow(s, events[0]) then {events[0].t} else {}) + Deleted(Next(s, events[0]), events[1..])
  }

  predicate PastWrite(s: State, t: TaskId) {
    t in s.tasks && s.tasks[t].pc != Write
  }

  lemma PastWriteStays(s: State, e: Event, t: TaskId)
    requires Enabled(s, e)
    ensures PastWrite(s, t) ==> PastWrite(Next(s, e), t)
    ensures e.Step? ==> PastWrite(Next(s, e), e.t)
  {
  }

  lemma {:induction false} WrittenOnce(s: State, events: seq<Event>, t: TaskId)
    requires Possible(s, events) && PastWrite(s, t)
    ensures t !in Inserted(s, events) && t !in Deleted(s, events)
    decreases |events|
  {
    if events != [] {
      PastWriteStays(s, events[0], t);
      hide Next, Enabled;
      WrittenOnce(Next(s, events[0]), events[1..], t);
    }
  }

  lemma LikersAfter(s: State, e: Event)
    requires Enabled(s, e)
    ensures |Next(s, e).likers|
            == |s.likers| + (if InsertsRow(s, e) then 1 else 0) - (if DeletesRow(s, e) then 1 else 0)
  {
    LikersOf(s, e);
    hide Next, Enabled;
  }

  lemma LikersOf(s: State, e: Event)
    requires Enabled(s, e)
    ensures Next(s, e).likers == if InsertsRow(s, e) then s.likers + {s.tasks[e.t].kind.user}
                                 else if DeletesRow(s, e) then s.likers - {s.tasks[e.t].kind.user} else s.likers
  {
  }

  /** Likers change by the INSERTs and DELETEs of distinct tasks. */
  lemma {:induction false} LikersBetween(s: State, events: seq<Event>)
    requires Possible(s, events)
    ensures |Exec(s, events).likers| == |s.likers| + |Inserted(s, events)| - |Deleted(s, events)|
    decreases |events|
  {
    if events != [] {
      var e, next, rest := events[0], Next(s, events[0]), events[1..];
      LikersAfter(s, e);
      LikersBetween(next, rest);
      if e.Step? {
        PastWriteStays(s, e, e.t);
        WrittenOnce(next, rest, e.t);
      }
      hide Next, Enabled;
    }
  }

  predicate Counting(pc: Pc) { pc.Querying? || pc.BatchQuery? }

  /**
   `t`, a read or a batch, gets its count at `query`; `between` are the events until its SET, which is
   the last event to overwrite the counter.
   */
  ghost predicate FillsLast(query: State, t: TaskId, between: seq<Event>, after: seq<Event>) {
    && DebtsFit(query) && AllPayUp(query) && t in query.tasks && Counting(query.tasks[t].pc)
    && var counted := Next(query, Step(t, true));
       && Possible(counted, between) && AllSucceed(between)
       && (forall i :: 0 <= i < |between| && between[i].Step? ==> between[i].t != t)
       && Enabled(Exec(counted, between), Step(t, true))
       && ComesToRest(Next(Exec(counted, between), Step(t, true)), after)
  }

  lemma {:induction false} Untouched(s: State, events: seq<Event>, t: TaskId)
    requires Possible(s, events) && t in s.tasks
    requires forall i :: 0 <= i < |events| && events[i].Step? ==> events[i].t != t
    ensures t in Exec(s, events).tasks && Exec(s, events).tasks[t] == s.tasks[t]
    decreases |events|
  {
    if events != [] {
      assert t in Next(s, events[0]).tasks && Next(s, events[0]).tasks[t] == s.tasks[t];
      forall i | 0 <= i < |events[1..]| && events[1..][i].Step? ensures events[1..][i].t != t {
        assert events[1..][i] == events[i + 1];
      }
      hide Next, Enabled;
      Untouched(Next(s, events[0]), events[1..], t);
    }
  }

  lemma FillWritesCount(query: State, t: TaskId, between: seq<Event>, after: seq<Event>)
    requires FillsLast(query, t, between, after)
    ensures var counted := Next(query, Step(t, true));
            var before := Exec(counted, between);
            var filled := Next(before, Step(t, true));
            && counted.likers == query.likers && filled.likers == before.likers
            && Value(filled.cache) == |query.likers|
  {
    hide AllPayUp, ComesToRest;
    Untouched(Next(query, Step(t, true)), between, t);
  }

  lemma SetsApart<T>(a: set<T>, b: set<T>)
    ensures |a| - |b| == |a - b| - |b - a|
  {
    assert a == (a - b) + (a * b) && b == (b - a) + (a * b);
    assert |a| == |a - b| + |a * b|;
    assert |b| == |b - a| + |a * b|;
  }

  /**
   If the last event to overwrite the counter is a fill, the counter ends right exactly if these are
   as many: the adds inserted before the query and counted after the SET, the removals that both delete
   and settle in between, and the decrements skipped after the SET; and the adds that both insert and
   count in between, and the removals that deleted before the query and still have to settle after the SET.
   */
  lemma RestAfterFillIsExactExactlyIf(query: State, t: TaskId, between: seq<Event>, after: seq<Event>)
    requires FillsLast(query, t, between, after)
    ensures var counted := Next(query, Step(t, true));
            var filled := Next(Exec(counted, between), Step(t, true));
            var end := Exec(filled, after);
            var inserted, toCount := Inserted(counted, between), With(filled.tasks, OwesIncrement);
            var deleted, toSettle := Deleted(counted, between), With(filled.tasks, OwesDecrement);
            Value(end.cache) == |end.likers|
            <==> |toCount - inserted| + |deleted - toSettle| + |Skips(filled, after)|
                 == |inserted - toCount| + |toSettle - deleted|
  {
    var counted := Next(query, Step(t, true));
    var filled := Next(Exec(counted, between), Step(t, true));
    FillWritesCount(query, t, between, after);
    ErrorSince(filled, after);
    LikersBetween(counted, between);
    SetsApart(With(filled.tasks, OwesIncrement), Inserted(counted, between));
    SetsApart(With(filled.tasks, OwesDecrement), Deleted(counted, between));
  }

  // ---------- every healthy run is one of these ----------

  lemma AllSucceedSplit(first: seq<Event>, second: seq<Event>)
    requires AllSucceed(first + second)
    ensures AllSucceed(first) && AllSucceed(second)
  {
    forall i | 0 <= i < |first| && first[i].Step? ensures first[i].ok { assert (first + second)[i] == first[i]; }
    forall i | 0 <= i < |second| && second[i].Step?
      ensures second[i].ok { assert (first + second)[|first| + i] == second[i]; }
  }

  /** Where a run is overwritten for the last time. */
  lemma {:induction false} LastOverwrite(s: State, events: seq<Event>)
      returns (before: seq<Event>, o: Event, after: seq<Event>)
    requires Possible(s, events) && !NeverOverwritten(s, events)
    ensures events == before + [o] + after && Possible(s, before) && Enabled(Exec(s, before), o)
    ensures Overwrites(Exec(s, before), o)
    ensures Possible(Next(Exec(s, before), o), after) && NeverOverwritten(Next(Exec(s, before), o), after)
    ensures Exec(s, events) == Exec(Next(Exec(s, before), o), after)
    decreases |events|
  {
    var next, rest := Next(s, events[0]), events[1..];
    assert events == [events[0]] + rest;
    if NeverOverwritten(next, rest) {
      before, o, after := [], events[0], rest;
    } else {
      var early;
      early, o, after := LastOverwrite(next, rest);
      before := [events[0]] + early;
      assert before[1..] == early;
    }
  }

  /** A task about to SET got its count by a query, and has not moved since. */
  lemma {:induction false} QueryOfFill(s: State, events: seq<Event>, t: TaskId)
      returns (early: seq<Event>, between: seq<Event>)
    requires Possible(s, events) && t !in s.tasks
    requires t in Exec(s, events).tasks && Filling(Exec(s, events).tasks[t].pc)
    ensures events == early + [Step(t, true)] + between
    ensures Possible(s, early) && t in Exec(s, early).tasks && Counting(Exec(s, early).tasks[t].pc)
    ensures Possible(Next(Exec(s, early), Step(t, true)), between)
    ensures Exec(Next(Exec(s, early), Step(t, true)), between) == Exec(s, events)
    ensures forall i :: 0 <= i < |between| && between[i].Step? ==> between[i].t != t
    decreases |events|
  {
    var n := |events| - 1;
    var front, last := events[..n], events[n];
    assert events == front + [last] && [last][1..] == [];
    Split(s, front, [last]);
    var at := Exec(s, front);
    assert Exec(s, events) == Next(at, last);
    if last.Step? && last.t == t {
      FillFollowsQuery(at, t, last.ok);
      early, between := front, [];
      assert early + [Step(t, true)] + between == events;
    } else {
      FillStays(at, last, t);
      early, between := QueryOfFill(s, front, t);
      var counted := Next(Exec(s, early), Step(t, true));
      OneMore(counted, between, last);
      assert early + [Step(t, true)] + (between + [last]) == events;
      between := between + [last];
    }
  }

  lemma FillFollowsQuery(s: State, t: TaskId, ok: bool)
    requires Enabled(s, Step(t, ok)) && Filling(Next(s, Step(t, ok)).tasks[t].pc)
    ensures ok && Counting(s.tasks[t].pc)
  {
  }

  lemma FillStays(s: State, e: Event, t: TaskId)
    requires Enabled(s, e) && t in Next(s, e).tasks && Filling(Next(s, e).tasks[t].pc) && (e.Step? ==> e.t != t)
    ensures t in s.tasks && s.tasks[t] == Next(s, e).tasks[t]
  {
  }

  lemma HealthyStates(s: State, events: seq<Event>)
    requires Idle(s) && Possible(s, events) && AllSucceed(events)
    ensures DebtsFit(Exec(s, events)) && AllPayUp(Exec(s, events))
  {
    BalanceAlongRun(s, events);
    HealthyRunsPayUp(s, events);
  }

  /** The end of a run after an expiry at `at`. */
  ghost predicate ExpiresLast(s: State, events: seq<Event>, at: State, after: seq<Event>) {
    && Possible(s, events)
    && ComesToRest(Next(at, Expire), after) && Exec(s, events) == Exec(Next(at, Expire), after)
  }

  /** A healthy run at rest was never overwritten, or last by an expiry, or last by a fill and its query. */
  lemma EveryRestIsCovered(s: State, events: seq<Event>)
    returns (at: State, t: TaskId, between: seq<Event>, after: seq<Event>)
    requires Idle(s) && Possible(s, events) && AllSucceed(events) && Quiescent(Exec(s, events))
    ensures || ComesToRest(s, events)
            || ExpiresLast(s, events, at, after)
            || (FillsLast(at, t, between, after)
                && Exec(s, events) == Exec(Next(Exec(Next(at, Step(t, true)), between), Step(t, true)), after))
  {
    at, t, between, after := s, 0, [], [];
    if NeverOverwritten(s, events) { return; }
    var before, o;
    before, o, after := LastOverwrite(s, events);
    AllSucceedSplit(before + [o], after);
    AllSucceedSplit(before, [o]);
    HealthyStates(s, before);
    at := Exec(s, before);
    DebtsKeepFitting(at, o);
    HealthyEventPaysUp(at, o) by { assert o == [o][0]; }
    hide Next, DebtsFit, AllPayUp, Quiescent;
    if o.Step? {
      t := o.t;
      var early;
      early, between := QueryOfFill(s, before, t);
      AllSucceedSplit(early + [Step(t, true)], between);
      AllSucceedSplit(early, [Step(t, true)]);
      HealthyStates(s, early);
      at := Exec(s, early);
    }
  }

  // ---------- likes by different users at once ----------

  /** Nothing but first likes by different users arrives, nothing fails and nothing expires. */
  predicate FirstLikesOnly(s: State, events: seq<Event>)
    requires Possible(s, events)
    decreases |events|
  {
    events == [] || (
      && (match events[0]
          case Arrive(_, kind) => kind.Add? && kind.user !in s.likers && kind !in Kinds(s.tasks)
          case Step(_, ok) => ok
          case Expire => false)
      && FirstLikesOnly(Next(s, events[0]), events[1..])
    )
  }

  function Kinds(tasks: map<TaskId, Task>): set<Kind> {
    set t | t in tasks :: tasks[t].kind
  }

  /** The tasks past their INSERT. */
  function Saved(tasks: map<TaskId, Task>): set<TaskId> {
    set t | t in tasks && !tasks[t].pc.Write?
  }

  predicate OnItsWay(likers: set<UserId>, task: Task) {
    && task.kind.Add? && (task.pc.Write? || task.pc.Increment? || task.pc.Done?)
    && (task.pc.Write? ==> task.kind.user !in likers)
  }

  ghost predicate CountingLikes(s: State, before: nat) {
    && Value(s.cache) >= 0
    && (forall t :: t in s.tasks ==> OnItsWay(s.likers, s.tasks[t]))
    && (forall t, u :: t in s.tasks && u in s.tasks && s.tasks[t].kind == s.tasks[u].kind ==> t == u)
    && |s.likers| == before + |Saved(s.tasks)|
  }

  lemma FirstLikeStep(s: State, t: TaskId)
    requires t in s.tasks && s.tasks[t].kind.Add? && Enabled(s, Step(t, true)) && Value(s.cache) >= 0
    ensures s.tasks[t].pc == Write && s.tasks[t].kind.user !in s.likers ==>
              Next(s, Step(t, true)) == s.(likers := s.likers + {s.tasks[t].kind.user},
                                           tasks := s.tasks[t := Task(s.tasks[t].kind, Increment, OwesIncrement)])
    ensures s.tasks[t].pc == Increment ==>
              Next(s, Step(t, true)) == s.(cache := Some(Value(s.cache) + 1),
                                           tasks := s.tasks[t := Task(s.tasks[t].kind, Done(Value(s.cache) + 1),
                                                                      Settled)])
  {
  }

  lemma CountingArrive(s: State, t: TaskId, kind: Kind, before: nat)
    requires CountingLikes(s, before) && t !in s.tasks && kind.Add? && kind.user !in s.likers && kind !in Kinds(s.tasks)
    ensures CountingLikes(s.(tasks := s.tasks[t := Task(kind, Write, Settled)]), before)
  {
    assert forall u :: u in s.tasks ==> s.tasks[u].kind in Kinds(s.tasks);
    assert Saved(s.tasks[t := Task(kind, Write, Settled)]) == Saved(s.tasks);
  }

  lemma CountingInsert(s: State, t: TaskId, before: nat)
    requires CountingLikes(s, before) && t in s.tasks && s.tasks[t].pc == Write
    ensures CountingLikes(s.(likers := s.likers + {s.tasks[t].kind.user},
                             tasks := s.tasks[t := Task(s.tasks[t].kind, Increment, OwesIncrement)]), before)
  {
    assert OnItsWay(s.likers, s.tasks[t]);
    var next := s.tasks[t := Task(s.tasks[t].kind, Increment, OwesIncrement)];
    assert Saved(next) == Saved(s.tasks) + {t};
    forall u | u in next ensures OnItsWay(s.likers + {s.tasks[t].kind.user}, next[u]) {
      assert OnItsWay(s.likers, s.tasks[u]);
    }
  }

  lemma CountingIncrement(s: State, t: TaskId, before: nat)
    requires CountingLikes(s, before) && t in s.tasks && s.tasks[t].pc == Increment
    ensures CountingLikes(s.(cache := Some(Value(s.cache) + 1),
                             tasks := s.tasks[t := Task(s.tasks[t].kind, Done(Value(s.cache) + 1), Settled)]), before)
  {
    assert OnItsWay(s.likers, s.tasks[t]);
    assert Saved(s.tasks[t := Task(s.tasks[t].kind, Done(Value(s.cache) + 1), Settled)]) == Saved(s.tasks);
  }

  lemma CountingLikesNext(s: State, e: Event, before: nat)
    requires Enabled(s, e) && CountingLikes(s, before) && !e.Expire? && (e.Step? ==> e.ok)
    requires e.Arrive? ==> e.kind.Add? && e.kind.user !in s.likers && e.kind !in Kinds(s.tasks)
    ensures CountingLikes(Next(s, e), before) && !Overwrites(s, e)
  {
    match e {
      case Arrive(t, kind) => CountingArrive(s, t, kind, before);
      case Step(t, ok) =>
        assert OnItsWay(s.likers, s.tasks[t]);
        FirstLikeStep(s, t);
        hide Next, CountingLikes;
        if s.tasks[t].pc.Write? { CountingInsert(s, t, before); } else { CountingIncrement(s, t, before); }
    }
  }

  lemma {:induction false} FirstLikesAlongRun(s: State, events: seq<Event>, before: nat)
    requires Possible(s, events) && FirstLikesOnly(s, events) && CountingLikes(s, before)
    ensures CountingLikes(Exec(s, events), before) && NeverOverwritten(s, events)
    decreases |events|
  {
    if events != [] {
      CountingLikesNext(s, events[0], before);
      FirstLikesAlongRun(Next(s, events[0]), events[1..], before);
    }
  }

  lemma {:induction false} FirstLikesSucceed(s: State, events: seq<Event>)
    requires Possible(s, events) && FirstLikesOnly(s, events)
    ensures AllSucceed(events)
    decreases |events|
  {
    if events != [] {
      FirstLikesSucceed(Next(s, events[0]), events[1..]);
      forall i | 0 <= i < |events| && events[i].Step? ensures events[i].ok {
        if i > 0 { assert events[i] == events[1..][i - 1]; }
      }
    }
  }

  /**
   Likes by different users at the same time are all counted: however they interleave, the counter
   ends at the number of likers, which is the number there was plus one for each request.
   */
  lemma ConcurrentLikesAreCounted(s: State, events: seq<Event>)
    requires InStep(s) && Possible(s, events) && FirstLikesOnly(s, events) && Quiescent(Exec(s, events))
    ensures var end := Exec(s, events);
            Value(end.cache) == |end.likers| == |s.likers| + |end.tasks.Keys|
  {
    var end := Exec(s, events);
    assert Saved(s.tasks) == {};
    FirstLikesAlongRun(s, events, |s.likers|);
    FirstLikesSucceed(s, events);
    assert With(s.tasks, OwesIncrement) == {};
    BalanceAlongRun(s, events);
    assert With(end.tasks, Skipped) == {} by {
      assert forall t :: t in end.tasks ==> DebtFits(end.tasks[t]);
    }
    QuiescentCounterIsExact(s, events);
    assert Saved(end.tasks) == end.tasks.Keys;
  }
}
