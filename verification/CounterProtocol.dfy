/**
 The like counter of one content key under concurrency: a set of likers in the database, a counter
 in Redis, and the `flight_locks` entry of the key, changed by any number of interleaved tasks.

 Every event is one atomic piece of `add_like`, `remove_like`, `get_like_count_with_fallback` or
 `get_likes_count_batch`, that is, one database or Redis command or one action on the lock map.
 */
module CounterProtocol {
  import opened Wrappers

  type TaskId = nat
  type MutexId = nat
  type UserId = nat

  /** `Batch`: a batch of counts that lists the key. */
  datatype Kind = Add(user: UserId) | Remove(user: UserId) | Read | Batch

  /** Where a task stands; `m` is the mutex it waits for or holds, `v` the count it will answer with. */
  datatype Pc =
    | Write                                      // before INSERT or DELETE
    | FirstGet                                   // before the first GET of the counter
    | Entry                                      // before looking up the lock map
    | Lock(m: MutexId)                           // waiting for the mutex
    | DoubleCheck(m: MutexId)                    // before the second GET
    | Querying(m: MutexId)                       // COUNT(*) in progress
    | Fill(m: MutexId, v: int)                   // before SET
    | Cleanup(m: MutexId, v: int)                // before removing the lock-map entry
    | Release(m: MutexId, answer: Option<int>)   // before dropping the guard
    | Got(v: int)                                // the read has returned
    | Increment
    | Decrement
    | Recount                                    // INCR or DECR failed: COUNT(*) outside the lock
    | BatchGet                                   // before the MGET
    | BatchLock                                  // before inserting a mutex of its own into the lock map
    | BatchQuery                                 // the grouped join in progress
    | BatchFill(v: int)                          // the background task, before its SET
    | Done(v: int)
    | Omitted                                    // left out of the reply, the key being locked
    | Failed

  /** What the counter still owes to a row the task inserted or deleted. */
  datatype Debt = Settled | OwesIncrement | OwesDecrement | Skipped

  datatype Task = Task(kind: Kind, pc: Pc, debt: Debt)

  datatype State = State(
    likers: set<UserId>,
    cache: Option<int>,
    entry: Option<MutexId>,
    owners: map<MutexId, TaskId>,
    nextMutex: MutexId,
    tasks: map<TaskId, Task>,
    answered: nat,   // fill queries that succeeded so far
    lost: nat        // fill queries that failed so far
  )

  /** A new request, the next piece of a task (`ok`: the command in it succeeds), or the TTL running out. */
  datatype Event = Arrive(t: TaskId, kind: Kind) | Step(t: TaskId, ok: bool) | Expire

  /** A counter that parses as u64. */
  predicate Readable(cache: Option<int>) {
    cache.Some? && cache.value >= 0
  }

  /** INCR and DECR take an absent key for 0. */
  function Value(cache: Option<int>): int {
    if cache.Some? then cache.value else 0
  }

  predicate Finished(pc: Pc) {
    pc.Done? || pc.Omitted? || pc.Failed?
  }

  predicate InBatch(pc: Pc) {
    pc.BatchGet? || pc.BatchLock? || pc.BatchQuery? || pc.BatchFill?
  }

  predicate Enabled(s: State, e: Event) {
    match e
    case Arrive(t, _) => t !in s.tasks
    case Step(t, _) => t in s.tasks && !Finished(s.tasks[t].pc)
        && (s.tasks[t].pc.Lock? ==> s.tasks[t].pc.m !in s.owners)
    case Expire => true
  }

  function Goto(s: State, t: TaskId, pc: Pc): State
    requires t in s.tasks
  {
    s.(tasks := s.tasks[t := s.tasks[t].(pc := pc)])
  }

  function Settle(s: State, t: TaskId, pc: Pc, debt: Debt): State
    requires t in s.tasks
  {
    s.(tasks := s.tasks[t := s.tasks[t].(pc := pc, debt := debt)])
  }

  function WriteRow(s: State, t: TaskId, ok: bool): State
    requires t in s.tasks
  {
    match s.tasks[t].kind
    case Add(u) =>
      if !ok then Goto(s, t, Failed)
      else if u in s.likers then Goto(s, t, FirstGet)
      else Settle(s.(likers := s.likers + {u}), t, Increment, OwesIncrement)
    case Remove(u) =>
      if !ok then Goto(s, t, Failed)
      else if u in s.likers then Settle(s.(likers := s.likers - {u}), t, FirstGet, OwesDecrement)
      else Goto(s, t, FirstGet)
    case Read => Goto(s, t, FirstGet)
    case Batch => Goto(s, t, FirstGet)
  }

  /** INCR or DECR: a negative result does not parse as u64 and is an error to the caller. */
  function Bump(s: State, t: TaskId, delta: int, ok: bool): State
    requires t in s.tasks
  {
    var value := Value(s.cache) + delta;
    if !ok then Goto(s, t, Recount)
    else Settle(s.(cache := Some(value)), t, if value >= 0 then Done(value) else Recount, Settled)
  }

  function AfterRead(s: State, t: TaskId, v: int, ok: bool): State
    requires t in s.tasks
  {
    match s.tasks[t].kind
    case Read => Goto(s, t, Done(v))
    case Batch => Goto(s, t, Done(v))
    case Add(_) => Goto(s, t, if ok then Done(v) else Failed)
    case Remove(_) =>
      if s.tasks[t].debt != OwesDecrement then Goto(s, t, Done(v))
      else if v != 0 then Goto(s, t, Decrement)
      else Settle(s, t, Done(v), Skipped)
  }

  function Advance(s: State, t: TaskId, ok: bool): State
    requires t in s.tasks
  {
    var hit := ok && Readable(s.cache);
    match s.tasks[t].pc
    case Write => WriteRow(s, t, ok)
    case FirstGet => Goto(s, t, if hit then Got(s.cache.value) else Entry)
    case Entry =>
      if s.entry.Some? then Goto(s, t, Lock(s.entry.value))
      else Goto(s.(entry := Some(s.nextMutex), nextMutex := s.nextMutex + 1), t, Lock(s.nextMutex))
    case Lock(m) => Goto(s.(owners := s.owners[m := t]), t, DoubleCheck(m))
    case DoubleCheck(m) => Goto(s, t, if hit then Cleanup(m, s.cache.value) else Querying(m))
    case Querying(m) =>
      if ok then Goto(s.(answered := s.answered + 1), t, Fill(m, |s.likers|))
      else Goto(s.(lost := s.lost + 1), t, Release(m, None))
    case Fill(m, v) => Goto(if ok then s.(cache := Some(v)) else s, t, Cleanup(m, v))
    case Cleanup(m, v) => Goto(s.(entry := None), t, Release(m, Some(v)))
    case Release(m, answer) =>
      Goto(s.(owners := s.owners - {m}), t, if answer.Some? then Got(answer.value) else Failed)
    case Got(v) => AfterRead(s, t, v, ok)
    case Increment => Bump(s, t, 1, ok)
    case Decrement => Bump(s, t, -1, ok)
    case Recount => Goto(s, t, if ok then Done(|s.likers|) else Failed)
    case BatchGet => Goto(s, t, if hit then Done(s.cache.value) else BatchLock)
    case BatchLock =>
      Goto(s.(entry := Some(s.nextMutex), nextMutex := s.nextMutex + 1), t,
           if s.entry.Some? then Omitted else BatchQuery)
    case BatchQuery => Goto(s, t, if ok then BatchFill(|s.likers|) else Failed)
    case BatchFill(v) => Goto(if ok then s.(cache := Some(v)) else s, t, Done(v))
    case Done(_) => s
    case Omitted => s
    case Failed => s
  }

  function FirstPc(kind: Kind): Pc {
    match kind
    case Add(_) => Write
    case Remove(_) => Write
    case Read => FirstGet
    case Batch => BatchGet
  }

  function Next(s: State, e: Event): State
    requires Enabled(s, e)
  {
    match e
    case Arrive(t, kind) => s.(tasks := s.tasks[t := Task(kind, FirstPc(kind), Settled)])
    case Step(t, ok) => Advance(s, t, ok)
    case Expire => s.(cache := None)
  }

  /** Every event of the run can happen where it stands. */
  predicate Possible(s: State, events: seq<Event>)
    decreases |events|
  {
    events == [] || (Enabled(s, events[0]) && Possible(Next(s, events[0]), events[1..]))
  }

  function Exec(s: State, events: seq<Event>): State
    requires Possible(s, events)
    decreases |events|
  {
    if events == [] then s else Exec(Next(s, events[0]), events[1..])
  }

  predicate Idle(s: State) {
    s.tasks == map[] && s.owners == map[] && s.entry == None && s.answered == 0 && s.lost == 0
  }

  predicate Quiescent(s: State) {
    forall t :: t in s.tasks ==> Finished(s.tasks[t].pc)
  }

  /** No command of the run fails. */
  predicate AllSucceed(events: seq<Event>) {
    forall i :: 0 <= i < |events| && events[i].Step? ==> events[i].ok
  }

  // ---------- runs put together ----------

  lemma {:induction false} InSequence(s: State, first: seq<Event>, second: seq<Event>)
    requires Possible(s, first) && Possible(Exec(s, first), second)
    ensures Possible(s, first + second) && Exec(s, first + second) == Exec(Exec(s, first), second)
    decreases |first|
  {
    if first == [] {
      assert first + second == second;
    } else {
      assert (first + second)[1..] == first[1..] + second;
      InSequence(Next(s, first[0]), first[1..], second);
    }
  }

  lemma OneMore(s: State, events: seq<Event>, e: Event)
    requires Possible(s, events) && Enabled(Exec(s, events), e)
    ensures Possible(s, events + [e]) && Exec(s, events + [e]) == Next(Exec(s, events), e)
  {
    assert [e][1..] == [];
    InSequence(s, events, [e]);
  }

  lemma {:induction false} Split(s: State, first: seq<Event>, second: seq<Event>)
    requires Possible(s, first + second)
    ensures Possible(s, first) && Possible(Exec(s, first), second)
    ensures Exec(s, first + second) == Exec(Exec(s, first), second)
    decreases |first|
  {
    if first == [] {
      assert first + second == second;
    } else {
      assert (first + second)[1..] == first[1..] + second;
      Split(Next(s, first[0]), first[1..], second);
    }
  }
}
