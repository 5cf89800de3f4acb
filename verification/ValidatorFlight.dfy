/**
 The content validator: cached verdicts, positive and negative, and a set of keys that lets one
 task at a time ask the content API about a key.
 */
module ValidatorFlight {
  import opened Wrappers

  type TaskId = nat

  /** The cache key of a content. */
  type ContentKey = string

  datatype Verdict = Valid(uuid: nat) | NotFound

  /** The reply of `call_content_api`: a verdict, or any other error, a rejecting breaker included. */
  datatype Reply = Definitive(verdict: Verdict) | Inconclusive

  datatype Pc =
    | CheckCache
    | TryLock
    | Sleeping
    | Calling
    | Store(verdict: Verdict)
    | Unlock(result: Option<Verdict>)
    | Done(result: Option<Verdict>)

  datatype Task = Task(key: ContentKey, pc: Pc)

  datatype State = State(cache: map<ContentKey, Verdict>, locks: set<ContentKey>, tasks: map<TaskId, Task>)

  /** `ok`: the cache command of the step succeeds; `reply`: what the content API says, where it is asked. */
  datatype Event = Arrive(t: TaskId, key: ContentKey) | Step(t: TaskId, ok: bool,
                                                             reply: Reply) | Expire(key: ContentKey)

  // ---------- the code, running alone ----------

  function Answered(cache: map<ContentKey, Verdict>, key: ContentKey, readOk: bool, writeOk: bool, reply: Reply)
    : (map<ContentKey, Verdict>, Option<Verdict>) {
    if readOk && key in cache then (cache, Some(cache[key]))
    else match reply
      case Inconclusive => (cache, None)
      case Definitive(v) => (if writeOk then cache[key := v] else cache, Some(v))
  }

  datatype Round = Returned(result: Option<Verdict>) | SleepAndRetry

  /** A miss that finds the key locked. */
  predicate MustWait(cache: map<ContentKey, Verdict>, locks: set<ContentKey>, key: ContentKey, readOk: bool) {
    !(readOk && key in cache) && key in locks
  }

  class HttpExternalValidator {
    var cached: map<ContentKey, Verdict>
    var singleFlightLock: set<ContentKey>

    constructor ()
      ensures cached == map[] && singleFlightLock == {}
    {
      cached := map[];
      singleFlightLock := {};
    }

    /** One round of a validation: if it finds a flight under way for its key, the source sleeps and starts another. */
    method ValidateContent(key: ContentKey, readOk: bool, writeOk: bool, reply: Reply) returns (round: Round)
      modifies this
      ensures singleFlightLock == old(singleFlightLock)
      ensures MustWait(old(cached), old(singleFlightLock), key, readOk)
              ==> round == SleepAndRetry && cached == old(cached)
      ensures !MustWait(old(cached), old(singleFlightLock), key, readOk) ==>
                && round.Returned?
                && (cached, round.result) == Answered(old(cached), key, readOk, writeOk, reply)
    {
      if readOk && key in cached {
        return Returned(Some(cached[key]));
      }
      if key in singleFlightLock {
        return SleepAndRetry;
      }
      singleFlightLock := singleFlightLock + {key};
      var result: Option<Verdict> := None;
      if reply.Definitive? {
        result := Some(reply.verdict);
        if writeOk {
          cached := cached[key := reply.verdict];
        }
      }
      singleFlightLock := singleFlightLock - {key};
      round := Returned(result);
    }
  }

  // ---------- the code, interleaved ----------

  predicate Enabled(s: State, e: Event) {
    match e
    case Arrive(t, _) => t !in s.tasks
    case Step(t, _, _) => t in s.tasks && !s.tasks[t].pc.Done?
    case Expire(_) => true
  }

  function Goto(s: State, t: TaskId, pc: Pc): State
    requires t in s.tasks
  {
    s.(tasks := s.tasks[t := s.tasks[t].(pc := pc)])
  }

  function Next(s: State, e: Event): State
    requires Enabled(s, e)
  {
    match e
    case Arrive(t, key) => s.(tasks := s.tasks[t := Task(key, CheckCache)])
    case Expire(key) => s.(cache := s.cache - {key})
    case Step(t, ok, reply) =>
      var key := s.tasks[t].key;
      match s.tasks[t].pc
      case CheckCache => Goto(s, t, if ok && key in s.cache then Done(Some(s.cache[key])) else TryLock)
      case TryLock => if key in s.locks then Goto(s, t, Sleeping) else Goto(s.(locks := s.locks + {key}), t, Calling)
      case Sleeping => Goto(s, t, CheckCache)
      case Calling => Goto(s, t, if reply.Definitive? then Store(reply.verdict) else Unlock(None))
      case Store(v) => Goto(if ok then s.(cache := s.cache[key := v]) else s, t, Unlock(Some(v)))
      case Unlock(r) => Goto(s.(locks := s.locks - {key}), t, Done(r))
      case Done(_) => s
  }

  predicate Possible(s: State, events: seq<Event>)
    decreases |events|
  {
    events == [] || (Enabled(s, events[0]) && Possible(Next(s, events[0]), events[1..]))
  }

  function Exec(s: State, events: seq<Event>): State
    requires Possible(s, events)
    decreases |events|
  {
    if events == [] then s else Exec(Next(s, events[0]), events[1..])
  }

  // ---------- one flight per key ----------

  /** From taking the lock to giving it back: the external call and what follows from it. */
  predicate Flying(pc: Pc) {
    pc.Calling? || pc.Store? || pc.Unlock?
  }

  ghost predicate FliesFor(s: State, t: TaskId, key: ContentKey) {
    t in s.tasks && s.tasks[t].key == key && Flying(s.tasks[t].pc)
  }

  ghost predicate SingleFlight(s: State) {
    && (forall key :: key in s.locks <==> exists t: TaskId :: FliesFor(s, t, key))
    && (forall key, t: TaskId, u: TaskId :: FliesFor(s, t, key) && FliesFor(s, u, key) ==> t == u)
  }

  lemma SingleFlightNext(s: State, e: Event)
    requires Enabled(s, e) && SingleFlight(s)
    ensures SingleFlight(Next(s, e))
  {
    var next := Next(s, e);
    if e.Expire? {
      assert forall key, u: TaskId :: FliesFor(next, u, key) <==> FliesFor(s, u, key);
    } else {
      var t := e.t;
      var key := next.tasks[t].key;
      assert forall k, u: TaskId :: u != t || k != key ==> (FliesFor(next, u, k) <==> FliesFor(s, u, k));
      assert FliesFor(next, t, key) <==> Flying(next.tasks[t].pc);
      assert t in s.tasks ==> (FliesFor(s, t, key) <==> Flying(s.tasks[t].pc));
      forall k ensures k in next.locks <==> exists u: TaskId :: FliesFor(next, u, k) {
        if k in s.locks {
          var u: TaskId :| FliesFor(s, u, k);
          assert u != t || k != key ==> FliesFor(next, u, k);
        }
      }
    }
  }

  /** In every interleaving, the locked keys are those with a call under way, one task for each. */
  lemma {:induction false} OneFlightPerKey(s: State, events: seq<Event>)
    requires Possible(s, events) && SingleFlight(s)
    ensures SingleFlight(Exec(s, events))
    decreases |events|
  {
    if events != [] {
      SingleFlightNext(s, events[0]);
      hide Next, Enabled;
      OneFlightPerKey(Next(s, events[0]), events[1..]);
    }
  }

  lemma OneFlightFromTheStart(cache: map<ContentKey, Verdict>, events: seq<Event>)
    requires Possible(State(cache, {}, map[]), events)
    ensures var end := Exec(State(cache, {}, map[]), events);
            && SingleFlight(end)
            && ((forall t :: t in end.tasks ==> end.tasks[t].pc.Done?) ==> end.locks == {})
  {
    var start := State(cache, {}, map[]);
    assert forall t: TaskId, key :: !FliesFor(start, t, key);
    OneFlightPerKey(start, events);
    var end := Exec(start, events);
    if forall t :: t in end.tasks ==> end.tasks[t].pc.Done? {
      assert forall t: TaskId, key :: !FliesFor(end, t, key);
    }
  }

  // ---------- after a definitive answer ----------

  /** The tasks that have missed the cache for `key` and are about to try its lock. */
  function Missed(s: State, key: ContentKey): set<TaskId> {
    set t | t in s.tasks && s.tasks[t].key == key && s.tasks[t].pc == TryLock
  }

  predicate StartsCall(s: State, e: Event, key: ContentKey) {
    e.Step? && e.t in s.tasks && s.tasks[e.t] == Task(key, TryLock) && key !in s.locks
  }

  function CallsStarted(s: State, events: seq<Event>, key: ContentKey): nat
    requires Possible(s, events)
    decreases |events|
  {
    if events == [] then 0 else
      (if StartsCall(s, events[0], key) then 1 else 0) + CallsStarted(Next(s, events[0]), events[1..], key)
  }

  /** The verdict for `key` does not expire, and reading it does not fail. */
  predicate StaysCached(s: State, events: seq<Event>, key: ContentKey)
    requires Possible(s, events)
    decreases |events|
  {
    events == [] || (
      && (match events[0]
          case Expire(k) => k != key
          case Step(t, ok, _) => s.tasks[t] == Task(key, CheckCache) ==> ok
          case Arrive(_, _) => true)
      && StaysCached(Next(s, events[0]), events[1..], key)
    )
  }

  lemma MissedTask(s: State, e: Event, key: ContentKey)
    requires Enabled(s, e) && key in s.cache && !e.Expire?
    requires e.Step? && s.tasks[e.t] == Task(key, CheckCache) ==> e.ok
    ensures var next := Next(s, e);
            && next.tasks == s.tasks[e.t := next.tasks[e.t]]
            && next.tasks[e.t] != Task(key, TryLock)
            && key in next.cache
  {
  }

  lemma MissedShrinks(s: State, e: Event, key: ContentKey)
    requires Enabled(s, e) && key in s.cache
    requires e.Expire? ==> e.key != key
    requires e.Step? && s.tasks[e.t] == Task(key, CheckCache) ==> e.ok
    ensures key in Next(s, e).cache
    ensures |Missed(Next(s, e), key)| + (if StartsCall(s, e, key) then 1 else 0) <= |Missed(s, key)|
  {
    var before, after := Missed(s, key), Missed(Next(s, e), key);
    if e.Expire? {
      assert after == before;
    } else {
      MissedTask(s, e, key);
      hide Next;
      assert after == before - {e.t};
    }
  }

  /**
   Once a verdict is cached, and until it expires, only tasks that had already missed the cache can
   still call out: the later calls number at most those tasks.
   */
  lemma {:induction false} LateCallsAreBounded(s: State, events: seq<Event>, key: ContentKey)
    requires Possible(s, events) && key in s.cache && StaysCached(s, events, key)
    ensures CallsStarted(s, events, key) <= |Missed(s, key)|
    decreases |events|
  {
    if events != [] {
      MissedShrinks(s, events[0], key);
      hide Missed, StartsCall;
      LateCallsAreBounded(Next(s, events[0]), events[1..], key);
    }
  }

  // ---------- the interleaved steps are the code's ----------

  lemma Then(s: State, e: Event, next: State, rest: seq<Event>)
    requires Enabled(s, e) && Next(s, e) == next && Possible(next, rest)
    ensures Possible(s, [e] + rest) && Exec(s, [e] + rest) == Exec(next, rest)
  {
    assert ([e] + rest)[1..] == rest;
  }

  function At(s: State, t: TaskId, key: ContentKey, cache: map<ContentKey, Verdict>, locked: bool, pc: Pc): State {
    State(cache, if locked then s.locks + {key} else s.locks, s.tasks[t := Task(key, pc)])
  }

  lemma GotoAt(s: State, t: TaskId, key: ContentKey, cache: map<ContentKey, Verdict>, locked: bool, pc: Pc, to: Pc)
    ensures Goto(At(s, t, key, cache, locked, pc), t, to) == At(s, t, key, cache, locked, to)
  {
  }

  /** The steps of one task from the lock on, with nothing in between. */
  function Flight(t: TaskId, writeOk: bool, reply: Reply): seq<Event> {
    var ask, end := Step(t, true, reply), Step(t, true, reply);
    [Step(t, true, reply)] + ([ask] + if reply.Definitive? then [Step(t, writeOk, reply)] + [end] else [end])
  }

  function Solo(cache: map<ContentKey, Verdict>, t: TaskId, key: ContentKey, readOk: bool, writeOk: bool,
                reply: Reply): seq<Event> {
    [Arrive(t, key)] + ([Step(t, readOk, reply)] + if readOk && key in cache then [] else Flight(t, writeOk, reply))
  }

  lemma LandAlone(s: State, t: TaskId, key: ContentKey, cache: map<ContentKey, Verdict>, result: Option<Verdict>,
                  e: Event)
    requires t !in s.tasks && key !in s.locks && e.Step? && e.t == t
    ensures var at, landed := At(s, t, key, cache, true, Unlock(result)), At(s, t, key, cache, false, Done(result));
            Possible(at, [e]) && Exec(at, [e]) == landed
  {
    var at, landed := At(s, t, key, cache, true, Unlock(result)), At(s, t, key, cache, false, Done(result));
    assert at.locks - {key} == s.locks;
    GotoAt(s, t, key, cache, false, Unlock(result), Done(result));
    assert [e] + [] == [e];
    Then(at, e, landed, []);
  }

  lemma FlyAlone(s: State, t: TaskId, key: ContentKey, writeOk: bool, reply: Reply)
    requires t !in s.tasks && key !in s.locks
    ensures var at := At(s, t, key, s.cache, false, TryLock);
            var cache := if writeOk && reply.Definitive? then s.cache[key := reply.verdict] else s.cache;
            var result := if reply.Definitive? then Some(reply.verdict) else None;
            var events := Flight(t, writeOk, reply);
            Possible(at, events) && Exec(at, events) == At(s, t, key, cache, false, Done(result))
  {
    var cache := if writeOk && reply.Definitive? then s.cache[key := reply.verdict] else s.cache;
    var result := if reply.Definitive? then Some(reply.verdict) else None;
    var e, w := Step(t, true, reply), Step(t, writeOk, reply);
    var calling := At(s, t, key, s.cache, true, Calling);
    LandAlone(s, t, key, cache, result, e);
    if reply.Definitive? {
      var storing := At(s, t, key, s.cache, true, Store(reply.verdict));
      GotoAt(s, t, key, cache, true, Store(reply.verdict), Unlock(result));
      Then(storing, w, At(s, t, key, cache, true, Unlock(result)), [e]);
      GotoAt(s, t, key, s.cache, true, Calling, Store(reply.verdict));
      Then(calling, e, storing, [w] + [e]);
    } else {
      GotoAt(s, t, key, s.cache, true, Calling, Unlock(result));
      Then(calling, e, At(s, t, key, cache, true, Unlock(result)), [e]);
    }
    GotoAt(s, t, key, s.cache, true, TryLock, Calling);
    Then(At(s, t, key, s.cache, false, TryLock), e, calling, Flight(t, writeOk, reply)[1..]);
  }

  /** A round whose steps are not interleaved with others' does what the code does running alone. */
  lemma SoloTaskIsTheCode(s: State, t: TaskId, key: ContentKey, readOk: bool, writeOk: bool, reply: Reply)
    requires t !in s.tasks && !MustWait(s.cache, s.locks, key, readOk)
    ensures var events := Solo(s.cache, t, key, readOk, writeOk, reply);
            var (cache, result) := Answered(s.cache, key, readOk, writeOk, reply);
            Possible(s, events) && Exec(s, events) == State(cache, s.locks, s.tasks[t := Task(key, Done(result))])
  {
    var arrived := At(s, t, key, s.cache, false, CheckCache);
    var hit := readOk && key in s.cache;
    var checked := At(s, t, key, s.cache, false, if hit then Done(Some(s.cache[key])) else TryLock);
    var rest := if hit then [] else Flight(t, writeOk, reply);
    if !hit { FlyAlone(s, t, key, writeOk, reply); }
    hide Flight;
    GotoAt(s, t, key, s.cache, false, CheckCache, if hit then Done(Some(s.cache[key])) else TryLock);
    Then(arrived, Step(t, readOk, reply), checked, rest);
    Then(s, Arrive(t, key), arrived, [Step(t, readOk, reply)] + rest);
  }

  /** A round that must wait changes nothing and goes to sleep, from where it starts over. */
  lemma SoloTaskSleeps(s: State, t: TaskId, key: ContentKey, readOk: bool, reply: Reply)
    requires t !in s.tasks && MustWait(s.cache, s.locks, key, readOk)
    ensures var e := Step(t, readOk, reply);
            var events := [Arrive(t, key)] + ([e] + ([e] + []));
            var asleep := At(s, t, key, s.cache, false, Sleeping);
            && Possible(s, events) && Exec(s, events) == asleep
            && Enabled(asleep, e) && Next(asleep, e) == At(s, t, key, s.cache, false, CheckCache)
  {
    var e := Step(t, readOk, reply);
    GotoAt(s, t, key, s.cache, false, CheckCache, TryLock);
    GotoAt(s, t, key, s.cache, false, TryLock, Sleeping);
    GotoAt(s, t, key, s.cache, false, Sleeping, CheckCache);
    Then(At(s, t, key, s.cache, false, TryLock), e, At(s, t, key, s.cache, false, Sleeping), []);
    Then(At(s, t, key, s.cache, false, CheckCache), e, At(s, t, key, s.cache, false, TryLock), [e] + []);
    Then(s, Arrive(t, key), At(s, t, key, s.cache, false, CheckCache), [e] + ([e] + []));
  }

  // ---------- what a verdict is worth ----------

  lemma {:induction false} PrefixPossible(s: State, events: seq<Event>, n: nat)
    requires Possible(s, events) && n <= |events|
    ensures Possible(s, events[..n])
    decreases n
  {
    if n > 0 {
      assert events[..n][1..] == events[1..][..n - 1];
      PrefixPossible(Next(s, events[0]), events[1..], n - 1);
    }
  }

  /** The state after the first n events. */
  function After(s: State, events: seq<Event>, n: nat): State
    requires Possible(s, events) && n <= |events|
  {
    PrefixPossible(s, events, n);
    Exec(s, events[..n])
  }

  lemma AfterNext(s: State, events: seq<Event>, n: nat)
    requires Possible(s, events) && n < |events|
    ensures After(s, events, n + 1) == After(Next(s, events[0]), events[1..], n)
  {
    PrefixPossible(s, events, n + 1);
    assert events[..n + 1][1..] == events[1..][..n];
  }

  predicate Carries(task: Task, key: ContentKey, v: Verdict) {
    task.key == key && (task.pc == Store(v) || task.pc == Unlock(Some(v)) || task.pc == Done(Some(v)))
  }

  /** The verdict is cached for the key, or a task for the key has it. */
  ghost predicate Known(s: State, key: ContentKey, v: Verdict) {
    (key in s.cache && s.cache[key] == v) || exists t: TaskId :: t in s.tasks && Carries(s.tasks[t], key, v)
  }

  /** The content API answers a task for the key with the verdict. */
  predicate Rules(s: State, e: Event, key: ContentKey, v: Verdict) {
    e.Step? && e.t in s.tasks && s.tasks[e.t] == Task(key, Calling) && e.reply == Definitive(v)
  }

  lemma CarriedStep(s: State, e: Event, key: ContentKey, v: Verdict)
    requires Enabled(s, e) && e.Step?
    ensures var next := Next(s, e);
            && next.tasks == s.tasks[e.t := next.tasks[e.t]]
            && (Carries(next.tasks[e.t], key, v) ==>
                  Carries(s.tasks[e.t], key, v) || (key in s.cache && s.cache[key] == v) || Rules(s, e, key, v))
            && (key in next.cache && next.cache[key] == v ==>
                  (key in s.cache && s.cache[key] == v) || Carries(s.tasks[e.t], key, v))
  {
  }

  lemma KnownNext(s: State, e: Event, key: ContentKey, v: Verdict)
    requires Enabled(s, e) && Known(Next(s, e), key, v)
    ensures Known(s, key, v) || Rules(s, e, key, v)
  {
    var next := Next(s, e);
    if e.Step? {
      CarriedStep(s, e, key, v);
      hide Next, Carries;
    }
    if !(key in next.cache && next.cache[key] == v) {
      var t: TaskId :| t in next.tasks && Carries(next.tasks[t], key, v);
      if t in s.tasks && s.tasks[t] == next.tasks[t] { assert Carries(s.tasks[t], key, v); }
    }
  }

  lemma {:induction false} RuledBy(s: State, events: seq<Event>, key: ContentKey, v: Verdict) returns (n: nat)
    requires Possible(s, events) && Known(Exec(s, events), key, v) && !Known(s, key, v)
    ensures n < |events| && Rules(After(s, events, n), events[n], key, v)
    decreases |events|
  {
    hide Next, Enabled, Known;
    var next := Next(s, events[0]);
    if Known(next, key, v) {
      KnownNext(s, events[0], key, v);
      n := 0;
    } else {
      var m := RuledBy(next, events[1..], key, v);
      AfterNext(s, events, m);
      n := m + 1;
    }
  }

  /**
   In every interleaving, a verdict returned for a key was cached for that key at the start, or is what the
   content API answered a task for that key.
   */
  lemma VerdictsAreReplies(cache: map<ContentKey, Verdict>, events: seq<Event>, t: TaskId, v: Verdict) returns (n: nat)
    requires Possible(State(cache, {}, map[]), events)
    requires var end := Exec(State(cache, {}, map[]), events); t in end.tasks && end.tasks[t].pc == Done(Some(v))
    ensures var start := State(cache, {}, map[]);
            var key := Exec(start, events).tasks[t].key;
            (key in cache && cache[key] == v) || (n < |events| && Rules(After(start, events, n), events[n], key, v))
  {
    var start := State(cache, {}, map[]);
    var key := Exec(start, events).tasks[t].key;
    assert Carries(Exec(start, events).tasks[t], key, v);
    n := 0;
    if !Known(start, key, v) { n := RuledBy(start, events, key, v); }
  }

  predicate GaveUp(s: State, t: TaskId) {
    t in s.tasks && (s.tasks[t].pc == Unlock(None) || s.tasks[t].pc == Done(None))
  }

  /** The content API gives the task no verdict. */
  predicate Fails(s: State, e: Event, t: TaskId) {
    e.Step? && e.t == t && t in s.tasks && s.tasks[t].pc == Calling && e.reply == Inconclusive
  }

  /** A task returns without a verdict only after the content API has given it none itself. */
  lemma {:induction false} NoVerdictIsOwn(s: State, events: seq<Event>, t: TaskId) returns (n: nat)
    requires Possible(s, events) && GaveUp(Exec(s, events), t) && !GaveUp(s, t)
    ensures n < |events| && Fails(After(s, events, n), events[n], t)
    decreases |events|
  {
    var next := Next(s, events[0]);
    if GaveUp(next, t) {
      n := 0;
    } else {
      hide Next, Enabled, GaveUp;
      var m := NoVerdictIsOwn(next, events[1..], t);
      AfterNext(s, events, m);
      n := m + 1;
    }
  }

  /** The cache commands of the task succeed, and the key does not expire. */
  predicate Kept(events: seq<Event>, t: TaskId, key: ContentKey) {
    forall i :: 0 <= i < |events| ==> events[i] != Expire(key) && (events[i].Step? && events[i].t == t ==> events[i].ok)
  }

  predicate StoredOrStoring(s: State, t: TaskId, key: ContentKey) {
    t in s.tasks && (key in s.cache || (s.tasks[t].key == key && s.tasks[t].pc.Store?))
  }

  lemma StoringNext(s: State, e: Event, t: TaskId, key: ContentKey)
    requires Enabled(s, e) && StoredOrStoring(s, t, key) && e != Expire(key) && (e.Step? && e.t == t ==> e.ok)
    ensures StoredOrStoring(Next(s, e), t, key)
  {
  }

  lemma {:induction false} StoringAlongRun(s: State, events: seq<Event>, t: TaskId, key: ContentKey)
    requires Possible(s, events) && StoredOrStoring(s, t, key) && Kept(events, t, key)
    ensures StoredOrStoring(Exec(s, events), t, key)
    decreases |events|
  {
    hide Next, Enabled, StoredOrStoring;
    if events != [] {
      StoringNext(s, events[0], t, key);
      forall i | 0 <= i < |events[1..]|
        ensures events[1..][i] != Expire(key) && (events[1..][i].Step? && events[1..][i].t == t ==> events[1..][i].ok)
      {
        assert events[1..][i] == events[i + 1];
      }
      StoringAlongRun(Next(s, events[0]), events[1..], t, key);
    }
  }

  /**
   A definitive reply is cached by the time its task has finished, positive or negative, if the task's
   cache commands succeed, and stays so until the key expires, whatever interleaves.
   */
  lemma DefinitiveIsCached(s: State, e: Event, events: seq<Event>, key: ContentKey, v: Verdict)
    requires Rules(s, e, key, v) && Enabled(s, e) && Possible(Next(s, e), events) && Kept(events, e.t, key)
    requires var end := Exec(Next(s, e), events); e.t in end.tasks && end.tasks[e.t].pc.Done?
    ensures key in Exec(Next(s, e), events).cache
  {
    StoringAlongRun(Next(s, e), events, e.t, key);
  }
}
