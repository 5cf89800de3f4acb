/** The interleaved steps of the counter protocol, run by one task alone, are the operations of the service. */
module CounterSolo {
  import opened CounterProtocol
  import L = Likes
  import B = BatchReply
  import R = CounterRuns
  import S = ServiceSpec
  import opened Wrappers

  /** What a run of task `t` alone leaves behind. */
  datatype Outcome = Outcome(likers: set<UserId>, cache: Option<int>, locked: bool, pc: Pc, debt: Debt)

  /** `healthy`: none of the commands fails. */
  ghost predicate Alone(s: State, events: seq<Event>, t: TaskId, o: Outcome, healthy: bool) {
    && t in s.tasks
    && Possible(s, events)
    && (healthy ==> AllSucceed(events))
    && var end := Exec(s, events);
       && end.nextMutex >= s.nextMutex && end.likers == o.likers && end.cache == o.cache && end.entry.Some? == o.locked
          && end.owners == map[]
       && end.tasks == s.tasks[t := Task(s.tasks[t].kind, o.pc, o.debt)]
  }

  lemma Before(s: State, t: TaskId, ok: bool, events: seq<Event>, o: Outcome, healthy: bool)
    requires t in s.tasks && Enabled(s, Step(t, ok))
    requires var next := Next(s, Step(t, ok));
             && next.tasks == s.tasks[t := next.tasks[t]] && next.tasks[t].kind == s.tasks[t].kind
             && next.nextMutex >= s.nextMutex && Alone(next, events, t, o, healthy)
    ensures Alone(s, [Step(t, ok)] + events, t, o, healthy && ok)
  {
    assert ([Step(t, ok)] + events)[1..] == events;
  }

  // ---------- the read, from its end to its start ----------

  lemma FromRelease(s: State, t: TaskId, m: MutexId, answer: Option<int>) returns (events: seq<Event>)
    requires t in s.tasks && s.tasks[t].pc == Release(m, answer) && s.owners == map[m := t]
    ensures Alone(s, events, t, Outcome(s.likers, s.cache, s.entry.Some?,
                                        if answer.Some? then Got(answer.value) else Failed, s.tasks[t].debt), true)
  {
    assert s.owners - {m} == map[];
    events := [Step(t, true)];
    assert [Step(t, true)] + [] == events;
    Before(s, t, true, [], Outcome(s.likers, s.cache, s.entry.Some?,
                                   if answer.Some? then Got(answer.value) else Failed, s.tasks[t].debt), true);
  }

  lemma FromCleanup(s: State, t: TaskId, m: MutexId, v: int) returns (events: seq<Event>)
    requires t in s.tasks && s.tasks[t].pc == Cleanup(m, v) && s.owners == map[m := t]
    ensures Alone(s, events, t, Outcome(s.likers, s.cache, false, Got(v), s.tasks[t].debt), true)
  {
    events := FromRelease(Next(s, Step(t, true)), t, m, Some(v));
    Before(s, t, true, events, Outcome(s.likers, s.cache, false, Got(v), s.tasks[t].debt), true);
    events := [Step(t, true)] + events;
  }

  lemma FromFill(s: State, t: TaskId, m: MutexId, v: int, set_: bool) returns (events: seq<Event>)
    requires t in s.tasks && s.tasks[t].pc == Fill(m, v) && s.owners == map[m := t]
    ensures Alone(s, events, t, Outcome(s.likers, if set_ then Some(v) else s.cache, false, Got(v), s.tasks[t].debt),
                  set_)
  {
    events := FromCleanup(Next(s, Step(t, set_)), t, m, v);
    Before(s, t, set_, events, Outcome(s.likers, if set_ then Some(v) else s.cache, false, Got(v), s.tasks[t].debt),
           true);
    events := [Step(t, set_)] + events;
  }

  /** What the read returns once the counter has been missed twice. */
  function Fetched(s: State, t: TaskId, counted: bool, set_: bool): Outcome
    requires t in s.tasks
  {
    if counted then Outcome(s.likers, if set_ then Some(|s.likers|) else s.cache, false, Got(|s.likers|),
                            s.tasks[t].debt)
    else Outcome(s.likers, s.cache, s.entry.Some?, Failed, s.tasks[t].debt)
  }

  lemma FromQuery(s: State, t: TaskId, m: MutexId, counted: bool, set_: bool) returns (events: seq<Event>)
    requires t in s.tasks && s.tasks[t].pc == Querying(m) && s.owners == map[m := t]
    ensures Alone(s, events, t, Fetched(s, t, counted, set_), counted && set_)
  {
    var next := Next(s, Step(t, counted));
    if counted {
      events := FromFill(next, t, m, |s.likers|, set_);
    } else {
      events := FromRelease(next, t, m, None);
    }
    Before(s, t, counted, events, Fetched(s, t, counted, set_), set_);
    events := [Step(t, counted)] + events;
  }

  function Rechecked(s: State, t: TaskId, second: bool, counted: bool, set_: bool): Outcome
    requires t in s.tasks
  {
    if second && Readable(s.cache) then Outcome(s.likers, s.cache, false, Got(s.cache.value), s.tasks[t].debt)
    else Fetched(s, t, counted, set_)
  }

  lemma FromDoubleCheck(s: State, t: TaskId, m: MutexId, second: bool, counted: bool, set_: bool)
      returns (events: seq<Event>)
    requires t in s.tasks && s.tasks[t].pc == DoubleCheck(m) && s.owners == map[m := t]
    ensures Alone(s, events, t, Rechecked(s, t, second, counted, set_), second && counted && set_)
  {
    var next := Next(s, Step(t, second));
    if second && Readable(s.cache) {
      events := FromCleanup(next, t, m, s.cache.value);
    } else {
      events := FromQuery(next, t, m, counted, set_);
    }
    Before(s, t, second, events, Rechecked(s, t, second, counted, set_), counted && set_);
    events := [Step(t, second)] + events;
  }

  lemma FromEntry(s: State, t: TaskId, second: bool, counted: bool, set_: bool) returns (events: seq<Event>)
    requires t in s.tasks && s.tasks[t].pc == Entry && s.owners == map[]
    ensures Alone(s, events, t, Rechecked(s.(entry := Some(0)), t, second, counted, set_), second && counted && set_)
  {
    var o := Rechecked(s.(entry := Some(0)), t, second, counted, set_);
    var entered := Next(s, Step(t, true));
    var m := entered.tasks[t].pc.m;
    var locked := Next(entered, Step(t, true));
    events := FromDoubleCheck(locked, t, m, second, counted, set_);
    assert Rechecked(locked, t, second, counted, set_) == o;
    Before(entered, t, true, events, o, second && counted && set_);
    events := [Step(t, true)] + events;
    Before(s, t, true, events, o, second && counted && set_);
    events := [Step(t, true)] + events;
  }

  /** `get_like_count_with_fallback` with its commands succeeding as told. */
  function ReadOutcome(s: State, t: TaskId, first: bool, second: bool, counted: bool, set_: bool): Outcome
    requires t in s.tasks
  {
    if first && Readable(s.cache) then Outcome(s.likers, s.cache, s.entry.Some?, Got(s.cache.value), s.tasks[t].debt)
    else Rechecked(s.(entry := Some(0)), t, second, counted, set_)
  }

  lemma FromFirstGet(s: State, t: TaskId, first: bool, second: bool, counted: bool, set_: bool)
      returns (events: seq<Event>)
    requires t in s.tasks && s.tasks[t].pc == FirstGet && s.owners == map[]
    ensures Alone(s, events, t, ReadOutcome(s, t, first, second, counted, set_), first && second && counted && set_)
  {
    var next := Next(s, Step(t, first));
    if first && Readable(s.cache) {
      events := [];
    } else {
      events := FromEntry(next, t, second, counted, set_);
    }
    Before(s, t, first, events, ReadOutcome(s, t, first, second, counted, set_), second && counted && set_);
    events := [Step(t, first)] + events;
  }

  // ---------- the key's part of the world ----------

  function Lookup(w: S.World, c: L.Content): Option<int> {
    if c in w.counts then Some(w.counts[c]) else None
  }

  /** The protocol state shows the key `c` of the world `w`, and nobody holds a mutex. */
  ghost predicate Shows(s: State, w: S.World, c: L.Content) {
    s.likers == L.Likers(w.likes, c) && s.cache == Lookup(w, c) && s.entry.Some? == (c in w.locks) && s.owners == map[]
  }

  ghost predicate ShowsOutcome(o: Outcome, w: S.World, c: L.Content) {
    o.likers == L.Likers(w.likes, c) && o.cache == Lookup(w, c) && o.locked == (c in w.locks)
  }

  lemma ReadOutcomeIsTheCode(s: State, t: TaskId, f: S.Faults, w: S.World, c: L.Content)
    requires t in s.tasks && Shows(s, w, c)
    ensures var o := ReadOutcome(s, t, f.cache(w.cacheCalls), f.cache(w.cacheCalls + 1), f.db(w.dbCalls),
                                 f.cache(w.cacheCalls + 2));
            var (after, read) := S.ReadCount(f, w, c);
            && ShowsOutcome(o, after, c)
            && o.pc == (if read.Ok? then Got(read.value) else Failed)
            && o.debt == s.tasks[t].debt
  {
  }

  /** A read whose steps are not interleaved with others' is `get_like_count_with_fallback` of the service. */
  lemma SoloReadIsTheCode(s: State, t: TaskId, f: S.Faults, w: S.World, c: L.Content) returns (events: seq<Event>)
    requires t in s.tasks && s.tasks[t].pc == FirstGet && Shows(s, w, c)
    ensures Possible(s, events)
    ensures var (after, read) := S.ReadCount(f, w, c);
            && Shows(Exec(s, events), after, c)
            && Exec(s, events).tasks == s.tasks[t := s.tasks[t].(pc := if read.Ok? then Got(read.value) else Failed)]
  {
    ReadOutcomeIsTheCode(s, t, f, w, c);
    events := FromFirstGet(s, t, f.cache(w.cacheCalls), f.cache(w.cacheCalls + 1), f.db(w.dbCalls),
                           f.cache(w.cacheCalls + 2));
    hide S.ReadCount, ReadOutcome;
  }

  // ---------- whole operations ----------

  /** The end of a task that was given the answer `r`. */
  predicate EndsWith(pc: Pc, ok: bool, count: int) {
    if ok then pc == Done(count) else pc == Failed
  }

  lemma BumpAlone(s: State, t: TaskId, f: S.Faults, w: S.World, c: L.Content) returns (events: seq<Event>)
    requires t in s.tasks && (s.tasks[t].pc == Increment || s.tasks[t].pc == Decrement) && Shows(s, w, c)
    ensures Possible(s, events)
    ensures var (w1, bumped) := S.CacheBump(f, w, c, if s.tasks[t].pc == Increment then 1 else -1);
            var (w2, counted) := S.DbCount(f, w1, c);
            var end := Exec(s, events);
            && t in end.tasks && Shows(end, if bumped.Ok? then w1 else w2, c)
            && (if bumped.Ok? then end.tasks[t].pc == Done(bumped.value)
                else if counted.Ok? then end.tasks[t].pc == Done(counted.value) else end.tasks[t].pc == Failed)
  {
    var (w1, bumped) := S.CacheBump(f, w, c, if s.tasks[t].pc == Increment then 1 else -1);
    var e1 := Step(t, f.cache(w.cacheCalls));
    BumpStep(s, t, f, w, c);
    var next := Next(s, e1);
    hide Next, S.CacheBump, S.DbCount;
    OneMore(s, [], e1);
    assert [] + [e1] == [e1];
    events := [e1];
    if bumped.Err? {
      var e2 := Step(t, f.db(w1.dbCalls));
      RecountStep(next, t, f, w1, c);
      OneMore(s, [e1], e2);
      events := [e1] + [e2];
    }
  }

  lemma BumpStep(s: State, t: TaskId, f: S.Faults, w: S.World, c: L.Content)
    requires t in s.tasks && (s.tasks[t].pc == Increment || s.tasks[t].pc == Decrement) && Shows(s, w, c)
    ensures var (w1, bumped) := S.CacheBump(f, w, c, if s.tasks[t].pc == Increment then 1 else -1);
            var next := Next(s, Step(t, f.cache(w.cacheCalls)));
            t in next.tasks && Shows(next, w1, c) && next.tasks[t].pc == if bumped.Ok? then Done(bumped.value)
                else Recount
  {
  }

  lemma RecountStep(s: State, t: TaskId, f: S.Faults, w: S.World, c: L.Content)
    requires t in s.tasks && s.tasks[t].pc == Recount && Shows(s, w, c)
    ensures var (w1, counted) := S.DbCount(f, w, c);
            var next := Next(s, Step(t, f.db(w.dbCalls)));
            t in next.tasks && Shows(next, w, c) && Shows(next, w1, c)
            && next.tasks[t].pc == if counted.Ok? then Done(counted.value) else Failed
  {
  }

  lemma InsertAlone(s: State, t: TaskId, f: S.Faults, w: S.World, key: L.Key, stamp: L.Stamp)
    requires t in s.tasks && s.tasks[t] == Task(CounterProtocol.Add(key.user), Write, Settled)
             && Shows(s, w, key.content)
    ensures var (w1, saved) := S.DbSave(f, w, key, stamp);
            var next := Next(s, Step(t, f.db(w.dbCalls)));
            && Possible(s, [Step(t, f.db(w.dbCalls))]) && Exec(s, [Step(t, f.db(w.dbCalls))]) == next
            && Shows(next, w1, key.content)
            && t in next.tasks && next.tasks[t].kind == s.tasks[t].kind
            && next.tasks[t].pc == if saved.Err? then Failed else if saved.value then FirstGet else Increment
  {
    L.InLikers(w.likes, key.user, key.content);
    L.LikersInsert(w.likes, key, stamp, key.content);
    OneMore(s, [], Step(t, f.db(w.dbCalls)));
    assert [] + [Step(t, f.db(w.dbCalls))] == [Step(t, f.db(w.dbCalls))];
  }

  /** After the read of a repeated add: the row is fetched for its time. */
  lemma RepeatedAlone(s: State, t: TaskId, f: S.Faults, w: S.World, key: L.Key, v: nat) returns (events: seq<Event>)
    requires t in s.tasks && s.tasks[t].kind.Add? && s.tasks[t].pc == Got(v) && Shows(s, w, key.content)
             && key in w.likes
    ensures Possible(s, events)
    ensures var (w1, existed) := S.DbGetLike(f, w, key);
            var end := Exec(s, events);
            && t in end.tasks && Shows(end, w1, key.content)
            && end.tasks[t].pc == if existed.Ok? then Done(v) else Failed
  {
    var e := Step(t, f.db(w.dbCalls));
    OneMore(s, [], e);
    events := [] + [e];
  }

  /** An add whose steps are not interleaved with others' is `add_like` of the service. */
  lemma SoloAddIsTheCode(s: State, t: TaskId, f: S.Faults, w: S.World, key: L.Key, stamp: L.Stamp)
      returns (events: seq<Event>)
    requires t in s.tasks && s.tasks[t] == Task(CounterProtocol.Add(key.user), Write, Settled)
             && Shows(s, w, key.content)
    ensures Possible(s, events)
    ensures var (after, added) := S.Add(f, w, key, stamp, false);
            var end := Exec(s, events);
            && t in end.tasks && Shows(end, after, key.content)
            && EndsWith(end.tasks[t].pc, added.Ok?, if added.Ok? then added.value.count else 0)
  {
    var c := key.content;
    var (w1, saved) := S.DbSave(f, w, key, stamp);
    InsertAlone(s, t, f, w, key, stamp);
    events := [Step(t, f.db(w.dbCalls))];
    if saved.Err? { return; }
    var s1 := Exec(s, events);
    if saved.value {
      assert key in w1.likes;
      var (w2, read) := S.ReadCount(f, w1, c);
      ReadKeepsTable(f, w1, c);
      var more := SoloReadIsTheCode(s1, t, f, w1, c);
      hide S.ReadCount, Next, Shows, Exec, Possible, S.DbSave;
      InSequence(s, events, more);
      events := events + more;
      if read.Ok? {
        var last := RepeatedAlone(Exec(s, events), t, f, w2, key, read.value);
        InSequence(s, events, last);
        events := events + last;
      }
    } else {
      var more := BumpAlone(s1, t, f, w1, c);
      hide S.ReadCount, Next, Shows, Exec, Possible, S.DbSave;
      InSequence(s, events, more);
      events := events + more;
    }
  }

  lemma ReadKeepsTable(f: S.Faults, w: S.World, c: L.Content)
    ensures S.ReadCount(f, w, c).0.likes == w.likes
  {
  }

  /** From the read's answer to the end of a removal: the decrement, unless there is nothing to decrement. */
  lemma DecideAlone(s: State, t: TaskId, f: S.Faults, w: S.World, c: L.Content, v: nat) returns (events: seq<Event>)
    requires t in s.tasks && s.tasks[t].kind.Remove? && s.tasks[t].pc == Got(v) && Shows(s, w, c)
    ensures Possible(s, events)
    ensures var (w1, bumped) := S.CacheBump(f, w, c, -1);
            var (w2, counted) := S.DbCount(f, w1, c);
            var end := Exec(s, events);
            && t in end.tasks
            && if s.tasks[t].debt != OwesDecrement || v == 0 then Shows(end, w, c) && end.tasks[t].pc == Done(v)
               else Shows(end, if bumped.Ok? then w1 else w2, c)
                    && (if bumped.Ok? then end.tasks[t].pc == Done(bumped.value)
                        else if counted.Ok? then end.tasks[t].pc == Done(counted.value) else end.tasks[t].pc == Failed)
  {
    var decide := Step(t, true);
    OneMore(s, [], decide);
    assert [] + [decide] == [decide];
    events := [decide];
    var next := Next(s, decide);
    if s.tasks[t].debt == OwesDecrement && v != 0 {
      var last := BumpAlone(next, t, f, w, c);
      InSequence(s, events, last);
      events := events + last;
    }
  }

  lemma DeleteAlone(s: State, t: TaskId, f: S.Faults, w: S.World, key: L.Key)
    requires t in s.tasks && s.tasks[t] == Task(CounterProtocol.Remove(key.user), Write, Settled)
             && Shows(s, w, key.content)
    ensures var (w1, removed) := S.DbRemove(f, w, key);
            var next := Next(s, Step(t, f.db(w.dbCalls)));
            && Possible(s, [Step(t, f.db(w.dbCalls))]) && Exec(s, [Step(t, f.db(w.dbCalls))]) == next
            && Shows(next, w1, key.content)
            && next.tasks[t] == (if removed.Err? then s.tasks[t].(pc := Failed)
                                 else s.tasks[t].(pc := FirstGet,
                                                  debt := if removed.value then OwesDecrement else Settled))
  {
    L.InLikers(w.likes, key.user, key.content);
    L.LikersDelete(w.likes, key, key.content);
    OneMore(s, [], Step(t, f.db(w.dbCalls)));
    assert [] + [Step(t, f.db(w.dbCalls))] == [Step(t, f.db(w.dbCalls))];
  }

  /** A removal whose steps are not interleaved with others' is `remove_like` of the service. */
  lemma SoloRemoveIsTheCode(s: State, t: TaskId, f: S.Faults, w: S.World, key: L.Key) returns (events: seq<Event>)
    requires t in s.tasks && s.tasks[t] == Task(CounterProtocol.Remove(key.user), Write, Settled)
             && Shows(s, w, key.content)
    ensures Possible(s, events)
    ensures var (after, removed) := S.Remove(f, w, key, false);
            var end := Exec(s, events);
            && t in end.tasks && Shows(end, after, key.content)
            && EndsWith(end.tasks[t].pc, removed.Ok?, if removed.Ok? then removed.value.count else 0)
  {
    var c := key.content;
    var (w1, removed) := S.DbRemove(f, w, key);
    DeleteAlone(s, t, f, w, key);
    events := [Step(t, f.db(w.dbCalls))];
    if removed.Err? { return; }
    var s1 := Exec(s, events);
    var (w2, read) := S.ReadCount(f, w1, c);
    var more := SoloReadIsTheCode(s1, t, f, w1, c);
    hide S.ReadCount, Next, Shows, Exec, Possible, S.DbRemove;
    InSequence(s, events, more);
    events := events + more;
    if read.Err? { return; }
    var last := DecideAlone(Exec(s, events), t, f, w2, c, read.value);
    InSequence(s, events, last);
    events := events + last;
  }

  // ---------- a batch that lists the key ----------

  /**
   Counter, lock-map entry and end of the task after a batch. `found`: the MGET succeeds and every counter
   in it parses; `queried` and `written`: the join and the background SET succeed.
   */
  function BatchEnd(s: State, found: bool, queried: bool, written: bool): (Option<int>, bool, Pc) {
    if found && Readable(s.cache) then (s.cache, s.entry.Some?, Done(s.cache.value))
    else if s.entry.Some? then (s.cache, true, Omitted)
    else if !queried then (s.cache, true, Failed)
    else (if written then Some(|s.likers|) else s.cache, true, Done(|s.likers|))
  }

  ghost predicate EndsAs(end: State, s: State, t: TaskId, o: (Option<int>, bool, Pc)) {
    && end.likers == s.likers && end.owners == s.owners
    && end.cache == o.0 && end.entry.Some? == o.1 && end.tasks == s.tasks[t := Task(Batch, o.2, Settled)]
  }

  lemma EmptyRun(s: State)
    ensures Possible(s, []) && Exec(s, []) == s
  {
  }

  /** From the query of a batch on. */
  lemma BatchQueryAlone(s: State, t: TaskId, queried: bool, written: bool) returns (events: seq<Event>)
    requires t in s.tasks && s.tasks[t] == Task(Batch, BatchQuery, Settled)
    ensures Possible(s, events)
    ensures var cache := if queried && written then Some(|s.likers|) else s.cache;
            EndsAs(Exec(s, events), s, t, (cache, s.entry.Some?, if queried then Done(|s.likers|) else Failed))
  {
    EmptyRun(s);
    hide Possible, Exec;
    OneMore(s, [], Step(t, queried));
    events := [] + [Step(t, queried)];
    if queried {
      OneMore(s, events, Step(t, written));
      events := events + [Step(t, written)];
    }
  }

  lemma BatchAlone(s: State, t: TaskId, found: bool, queried: bool, written: bool) returns (events: seq<Event>)
    requires t in s.tasks && s.tasks[t] == Task(Batch, BatchGet, Settled)
    ensures Possible(s, events)
    ensures EndsAs(Exec(s, events), s, t, BatchEnd(s, found, queried, written))
  {
    EmptyRun(s);
    hide Possible, Exec;
    OneMore(s, [], Step(t, found));
    events := [] + [Step(t, found)];
    if found && Readable(s.cache) { return; }
    var missed := Next(s, Step(t, found));
    OneMore(s, events, Step(t, true));
    events := events + [Step(t, true)];
    if s.entry.Some? { return; }
    var rest := BatchQueryAlone(Next(missed, Step(t, true)), t, queried, written);
    InSequence(s, events, rest);
    events := events + rest;
  }

  lemma {:induction false} RehydratedAt(counts: map<L.Content, int>, rows: seq<L.ContentCount>, t: L.Table,
                                        c: L.Content)
    requires forall r :: r in rows ==> r.count == L.Count(t, r.content)
    ensures var after := S.Rehydrated(counts, rows);
            if L.ContentCount(c, L.Count(t, c)) in rows then c in after && after[c] == L.Count(t, c)
            else (c in after <==> c in counts) && (c in counts ==> after[c] == counts[c])
    decreases |rows|
  {
    hide L.Count;
    if rows != [] {
      var n := |rows| - 1;
      RehydratedAt(counts, rows[..n], t, c);
      assert rows == rows[..n] + [rows[n]];
      assert rows[n] in rows;
    }
  }

  predicate MgetWorks(f: S.Faults, w: S.World, items: seq<L.Content>) {
    f.cache(w.cacheCalls) && forall i :: 0 <= i < |items| && items[i] in w.counts ==> w.counts[items[i]] >= 0
  }

  /** What a batch does to one of its keys: its counter and its entry in the lock map. */
  lemma BatchKey(
      f: S.Faults, w: S.World, items: seq<L.Content>, c: L.Content, mid: S.World,
      reply: Result<seq<L.ContentCount>, S.DomainError>, job: Option<seq<L.ContentCount>>)
    requires S.IsBatchOutcome(f, w, items, mid, reply, job)
    requires |items| <= 100 && B.OneTypePerId(items) && c in items
    ensures var after := R.AfterBackground(f, mid, job);
            var missed := !(MgetWorks(f, w, items) && c in w.counts);
            && after.likes == w.likes
            && (c in after.locks <==> c in w.locks || missed)
            && Lookup(after, c) == if missed && c !in w.locks && f.db(w.dbCalls) && f.cache(w.cacheCalls + 1)
                                   then Some(L.Count(w.likes, c)) else Lookup(w, c)
  {
    B.BatchLocksMissing(f, w, items, mid, reply, job);
    var visible := B.Visible(f, w, items);
    assert c in visible <==> MgetWorks(f, w, items) && c in w.counts;
    BatchCalls(f, w, items, c, mid, reply, job);
    hide S.IsBatchOutcome, B.Visible, L.Count, S.Rehydrated, MgetWorks;
    if job.Some? {
      B.BatchRowsAreCounts(f, w, items, mid, reply, job);
      RehydratedAt(w.counts, job.value, w.likes, c);
    }
  }

  /** Which commands decide over the counter of one key. */
  lemma BatchCalls(
      f: S.Faults, w: S.World, items: seq<L.Content>, c: L.Content, mid: S.World,
      reply: Result<seq<L.ContentCount>, S.DomainError>, job: Option<seq<L.ContentCount>>)
    requires S.IsBatchOutcome(f, w, items, mid, reply, job)
    requires |items| <= 100 && B.OneTypePerId(items) && c in items
    ensures mid.cacheCalls == w.cacheCalls + 1
    ensures B.Wanted(f, w, items, c) && f.db(w.dbCalls) ==> job.Some?
    ensures job.Some? ==>
              f.db(w.dbCalls) && (L.ContentCount(c, L.Count(w.likes, c)) in job.value <==> B.Wanted(f, w, items, c))
  {
    var (w1, hits) := S.CacheMget(f, w, items);
    B.VisibleHits(f, w, items);
    hide S.Served, S.Missing, S.ToFetch, S.HitsById, B.Visible;
    var fetch := S.ToFetch(S.Missing(items, hits), w1.locks);
    B.FetchedOnce(S.Missing(items, hits), w1.locks);
    assert B.Wanted(f, w, items, c) <==> c in fetch;
    if job.Some? {
      L.DistinctInputCountsOnce(w1.likes, fetch, job.value);
    }
  }

  /** What a batch answers for one of its keys. */
  predicate AnswersWith(reply: Result<seq<L.ContentCount>, S.DomainError>, c: L.Content, pc: Pc) {
    match pc
    case Done(v) => v >= 0 && (reply.Ok? ==> L.ContentCount(c, v) in reply.value)
    case Omitted => reply.Ok? ==> forall r :: r in reply.value ==> r.content != c
    case Failed => reply == Err(S.DatabaseError)
    case _ => false
  }

  lemma BatchAnswer(
      f: S.Faults, w: S.World, items: seq<L.Content>, c: L.Content, mid: S.World,
      reply: Result<seq<L.ContentCount>, S.DomainError>, job: Option<seq<L.ContentCount>>)
    requires S.IsBatchOutcome(f, w, items, mid, reply, job)
    requires |items| <= 100 && B.OneTypePerId(items) && c in items
    ensures AnswersWith(reply, c,
              if MgetWorks(f, w, items) && c in w.counts then Done(w.counts[c])
              else if c in w.locks then Omitted
              else if f.db(w.dbCalls) then Done(L.Count(w.likes, c)) else Failed)
  {
    hide S.IsBatchOutcome, L.Count, B.OwnHits;
    VisibleIf(f, w, items, c);
    if B.Wanted(f, w, items, c) { BatchErrs(f, w, items, c, mid, reply, job); }
    if reply.Ok? {
      B.BatchReplyIs(f, w, items, mid, reply, job);
      OwnHitsAre(items, B.Visible(f, w, items), c);
      hide B.Visible, MgetWorks, S.MgetParses, L.Distinct, L.Contents;
      var hits := B.OwnHits(items, B.Visible(f, w, items));
      var rows := reply.value[|hits|..];
      assert reply.value == hits + rows;
    }
  }

  lemma VisibleIf(f: S.Faults, w: S.World, items: seq<L.Content>, c: L.Content)
    requires c in items
    ensures var visible := B.Visible(f, w, items);
            && (c in visible <==> MgetWorks(f, w, items) && c in w.counts)
            && (c in visible ==> visible[c] == w.counts[c] && w.counts[c] >= 0)
  {
  }

  lemma BatchErrs(
      f: S.Faults, w: S.World, items: seq<L.Content>, c: L.Content, mid: S.World,
      reply: Result<seq<L.ContentCount>, S.DomainError>, job: Option<seq<L.ContentCount>>)
    requires S.IsBatchOutcome(f, w, items, mid, reply, job)
    requires |items| <= 100 && B.OneTypePerId(items) && B.Wanted(f, w, items, c)
    ensures !f.db(w.dbCalls) ==> reply == Err(S.DatabaseError)
  {
    var (w1, hits) := S.CacheMget(f, w, items);
    B.VisibleHits(f, w, items);
    hide S.Served, S.Missing, S.ToFetch, S.HitsById, B.Visible;
    B.FetchedOnce(S.Missing(items, hits), w1.locks);
    assert c in S.ToFetch(S.Missing(items, hits), w1.locks);
  }

  lemma {:induction false} OwnHitsAre(items: seq<L.Content>, counts: map<L.Content, int>, c: L.Content)
    requires S.MgetParses(counts, items)
    ensures c in items && c in counts ==> L.ContentCount(c, counts[c]) in B.OwnHits(items, counts)
    ensures c !in counts ==> forall r :: r in B.OwnHits(items, counts) ==> r.content != c
    decreases |items|
  {
    if items != [] {
      var n := |items| - 1;
      OwnHitsAre(items[..n], counts, c);
      assert items == items[..n] + [items[n]];
    }
  }

  /**
   The steps a batch takes for one of its keys, not interleaved with others', have for that key the
   effect and the answer of `get_likes_count_batch` with its background write, whatever else it lists.
   */
  lemma SoloBatchIsTheCode(
      s: State, t: TaskId, f: S.Faults, w: S.World, items: seq<L.Content>, c: L.Content, mid: S.World,
      reply: Result<seq<L.ContentCount>, S.DomainError>, job: Option<seq<L.ContentCount>>) returns (events: seq<Event>)
    requires t in s.tasks && s.tasks[t] == Task(Batch, BatchGet, Settled) && Shows(s, w, c)
    requires S.IsBatchOutcome(f, w, items, mid, reply, job)
    requires |items| <= 100 && B.OneTypePerId(items) && c in items
    ensures Possible(s, events)
    ensures var end := Exec(s, events);
            t in end.tasks && Shows(end, R.AfterBackground(f, mid, job), c) && AnswersWith(reply, c, end.tasks[t].pc)
  {
    hide S.IsBatchOutcome, R.AfterBackground, Exec, Possible, AnswersWith;
    events := BatchAlone(s, t, MgetWorks(f, w, items), f.db(w.dbCalls), f.cache(w.cacheCalls + 1));
    BatchKey(f, w, items, c, mid, reply, job);
    BatchAnswer(f, w, items, c, mid, reply, job);
    assert MgetWorks(f, w, items) && c in w.counts ==> w.counts[c] >= 0;
  }
}
