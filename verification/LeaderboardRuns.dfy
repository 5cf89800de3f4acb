/**
 The leaderboard of one slot under concurrency: requests, background refreshes, likes that come and
 go, and the clock, interleaved in any order, with failing commands.
 */
module LeaderboardRuns {
  import opened Leaderboard
  import opened Likes
  import opened TopLikes
  import opened Wrappers

  type TaskId = nat

  /** How a list got into a reply: fetched by the request itself, or found with or without a living canary. */
  datatype How = Filled | Fresh | Stale

  /** A list together with the moment its query ran, which Redis does not store and the steps do not use. */
  datatype Listing = Listing(items: seq<ContentCount>, asked: Time)

  /** `at` is when the keys were looked up, and `seen` how often they had been written by then. */
  datatype Pc =
    | Lookup                                                   // before the MGET
    | TryLock(list: Listing, at: Time, seen: nat)              // before trying the refresh lock
    | Query
    | Write(list: Listing)                                     // before the SET of data and canary
    | Served(list: Listing, how: How, at: Time, seen: nat)
    | Ended                                                    // a failed query, or a background task at its end

  /** A request or a background task; the time window starts before `arrived`, when the request came in. */
  datatype Task = Task(limit: int, arrived: Time, background: bool, pc: Pc)

  /** A successful SET of data and canary, by a background task or by a request that missed. */
  datatype Written = Written(at: Time, ttl: nat, list: Listing, background: bool)

  datatype State = State(
    now: Time,
    likes: Table,
    data: Option<Listing>,
    canaryUntil: Option<Time>,
    lockUntil: Option<Time>,
    tasks: map<TaskId, Task>,
    writes: seq<Written>,
    refreshes: seq<Time>     // when background refreshes were started
  )

  /** `spawn` names the background task a step may start; `rows` is what a query answers. */
  datatype Event =
    | Wait(until: Time)
    | Like(key: Key, stamp: Stamp)
    | Unlike(key: Key)
    | Arrive(t: TaskId, limit: int)
    | Step(t: TaskId, ok: bool, spawn: TaskId, rows: seq<ContentCount>)

  predicate IsAlive(until: Option<Time>, now: Time) {
    until.Some? && now < until.value
  }

  predicate Finished(pc: Pc) { pc.Served? || pc.Ended? }

  /** The groups a query of a task sees. */
  function Groups(slot: Slot, likes: Table, arrived: Time): map<Content, nat> {
    var since := Since(slot.window, arrived);
    Grouped(likes, AsOpt(slot.kind), if since.Some? then since.value else None)
  }

  predicate QuerySucceeds(task: Task, ok: bool) {
    task.pc.Query? && ok && Cap(task.limit) >= 0
  }

  ghost predicate Enabled(slot: Slot, s: State, e: Event) {
    match e
    case Wait(until) => s.now <= until
    case Like(_, _) => true
    case Unlike(_) => true
    case Arrive(t, _) => t !in s.tasks
    case Step(t, ok, spawn, rows) =>
      && t in s.tasks && !Finished(s.tasks[t].pc) && spawn !in s.tasks
      && (QuerySucceeds(s.tasks[t], ok)
          ==> IsTop(rows, Groups(slot, s.likes, s.tasks[t].arrived), Cap(s.tasks[t].limit)))
  }

  function Goto(s: State, t: TaskId, pc: Pc): State
    requires t in s.tasks
  {
    s.(tasks := s.tasks[t := s.tasks[t].(pc := pc)])
  }

  function Canary(slot: Slot, background: bool): nat {
    if background then RefreshCanary(slot.window) else FILL_CANARY
  }

  function Advance(slot: Slot, s: State, t: TaskId, ok: bool, spawn: TaskId, rows: seq<ContentCount>): State
    requires t in s.tasks
  {
    var task := s.tasks[t];
    match task.pc
    case Lookup =>
      if !ok || s.data.None? then Goto(s, t, Query)
      else if IsAlive(s.canaryUntil, s.now) then Goto(s, t, Served(s.data.value, Fresh, s.now, |s.writes|))
      else Goto(s, t, TryLock(s.data.value, s.now, |s.writes|))
    case TryLock(list, at, seen) =>
      var served := Goto(s, t, Served(list, Stale, at, seen));
      if ok && !IsAlive(s.lockUntil, s.now)
      then served.(lockUntil := Some(s.now + LOCK_TTL), refreshes := s.refreshes + [s.now],
                   tasks := served.tasks[spawn := Task(task.limit, task.arrived, true, Query)])
      else served
    case Query => Goto(s, t, if QuerySucceeds(task, ok) then Write(Listing(rows, s.now)) else Ended)
    case Write(list) =>
      var ttl := Canary(slot, task.background);
      var written :=
        if !ok then s else
          s.(data := Some(list), canaryUntil := Some(s.now + ttl),
             writes := s.writes + [Written(s.now, ttl, list, task.background)]);
      Goto(written, t, if task.background then Ended else Served(list, Filled, s.now, |s.writes|))
    case Served(_, _, _, _) => s
    case Ended => s
  }

  function Next(slot: Slot, s: State, e: Event): State
    requires Enabled(slot, s, e)
  {
    match e
    case Wait(until) => s.(now := until)
    case Like(key, stamp) => if key in s.likes then s else s.(likes := s.likes[key := stamp])
    case Unlike(key) => s.(likes := s.likes - {key})
    case Arrive(t, limit) => s.(tasks := s.tasks[t := Task(limit, s.now, false, Lookup)])
    case Step(t, ok, spawn, rows) => Advance(slot, s, t, ok, spawn, rows)
  }

  ghost predicate Possible(slot: Slot, s: State, events: seq<Event>)
    decreases |events|
  {
    events == [] || (Enabled(slot, s, events[0]) && Possible(slot, Next(slot, s, events[0]), events[1..]))
  }

  ghost function Exec(slot: Slot, s: State, events: seq<Event>): State
    requires Possible(slot, s, events)
    decreases |events|
  {
    if events == [] then s else Exec(slot, Next(slot, s, events[0]), events[1..])
  }

  /** Nothing cached, nobody under way. */
  predicate Start(s: State) {
    && s.data == None && s.canaryUntil == None && s.lockUntil == None
    && s.tasks == map[] && s.writes == [] && s.refreshes == []
  }

  lemma {:induction false} PrefixPossible(slot: Slot, s: State, events: seq<Event>, n: nat)
    requires Possible(slot, s, events) && n <= |events|
    ensures Possible(slot, s, events[..n])
    decreases n
  {
    if n > 0 {
      assert events[..n][1..] == events[1..][..n - 1];
      PrefixPossible(slot, Next(slot, s, events[0]), events[1..], n - 1);
    }
  }

  /** The state after the first n events. */
  ghost function After(slot: Slot, s: State, events: seq<Event>, n: nat): State
    requires Possible(slot, s, events) && n <= |events|
  {
    PrefixPossible(slot, s, events, n);
    Exec(slot, s, events[..n])
  }

  lemma AfterNext(slot: Slot, s: State, events: seq<Event>, n: nat)
    requires Possible(slot, s, events) && n < |events|
    ensures After(slot, s, events, n + 1) == After(slot, Next(slot, s, events[0]), events[1..], n)
  {
    PrefixPossible(slot, s, events, n + 1);
    assert events[..n + 1][1..] == events[1..][..n];
  }

  // ---------- where a served list comes from ----------

  predicate HasList(pc: Pc) { pc.TryLock? || pc.Write? || pc.Served? }

  /** `list` is cached or on its way through some task. */
  ghost predicate Holds(s: State, list: Listing) {
    s.data == Some(list) || exists t :: t in s.tasks && HasList(s.tasks[t].pc) && s.tasks[t].pc.list == list
  }

  /** The event is a query of a task that answers `list`. */
  predicate Answers(s: State, e: Event, list: Listing) {
    e.Step? && e.t in s.tasks && QuerySucceeds(s.tasks[e.t], e.ok) && list == Listing(e.rows, s.now)
  }

  lemma ListOfStep(slot: Slot, s: State, e: Event)
    requires e.Step? && Enabled(slot, s, e)
    ensures var pc := Next(slot, s, e).tasks[e.t].pc;
            HasList(pc) ==> Answers(s, e, pc.list) || s.data == Some(pc.list)
                            || (HasList(s.tasks[e.t].pc) && pc.list == s.tasks[e.t].pc.list)
    ensures var data := Next(slot, s, e).data;
            data.Some? ==> data == s.data || (HasList(s.tasks[e.t].pc) && data.value == s.tasks[e.t].pc.list)
    ensures forall t :: t in Next(slot, s, e).tasks && t != e.t ==>
              if t in s.tasks then Next(slot, s, e).tasks[t] == s.tasks[t] else Next(slot, s, e).tasks[t].pc == Query
  {
  }

  lemma HoldsNext(slot: Slot, s: State, e: Event, list: Listing)
    requires Enabled(slot, s, e) && Holds(Next(slot, s, e), list)
    ensures Holds(s, list) || Answers(s, e, list)
  {
    hide IsTop, Groups;
    var next := Next(slot, s, e);
    if e.Step? {
      ListOfStep(slot, s, e);
      hide Next;
      assert HasList(s.tasks[e.t].pc) ==> Holds(s, s.tasks[e.t].pc.list);
    }
    if next.data != Some(list) {
      var t :| t in next.tasks && HasList(next.tasks[t].pc) && next.tasks[t].pc.list == list;
      if t in s.tasks && (e.Step? ==> t != e.t) { assert s.tasks[t] == next.tasks[t]; }
    }
  }

  /** Whatever list is around at the end of a run and was not at its start has been answered by a query of the run. */
  lemma {:induction false} Provenance(slot: Slot, s: State, events: seq<Event>, list: Listing) returns (n: nat)
    requires Possible(slot, s, events) && Holds(Exec(slot, s, events), list) && !Holds(s, list)
    ensures n < |events| && Answers(After(slot, s, events, n), events[n], list)
    ensures Enabled(slot, After(slot, s, events, n), events[n])
    decreases |events|
  {
    hide Enabled, Next, Holds;
    var e, next := events[0], Next(slot, s, events[0]);
    if Holds(next, list) {
      HoldsNext(slot, s, e, list);
      n := 0;
    } else {
      var m := Provenance(slot, next, events[1..], list);
      AfterNext(slot, s, events, m);
      n := m + 1;
    }
  }

  /** Some task asks with `limit` for the window of a request that came in at `arrived`. */
  ghost predicate Asking(s: State, limit: int, arrived: Time) {
    exists t :: t in s.tasks && s.tasks[t].limit == limit && s.tasks[t].arrived == arrived
  }

  predicate Requests(s: State, e: Event, limit: int, arrived: Time) {
    e.Arrive? && e.limit == limit && s.now == arrived
  }

  lemma AskingNext(slot: Slot, s: State, e: Event, limit: int, arrived: Time)
    requires Enabled(slot, s, e) && Asking(Next(slot, s, e), limit, arrived)
    ensures Asking(s, limit, arrived) || Requests(s, e, limit, arrived)
  {
    hide IsTop, Groups;
    var next := Next(slot, s, e);
    var t :| t in next.tasks && next.tasks[t].limit == limit && next.tasks[t].arrived == arrived;
    if t in s.tasks {
      assert e.Arrive? ==> t != e.t;
      assert s.tasks[t].limit == limit && s.tasks[t].arrived == arrived;
    } else if e.Step? {
      assert s.tasks[e.t].limit == limit && s.tasks[e.t].arrived == arrived;
    }
  }

  /** Limit and window of every task, background tasks included, are those of a request of the run. */
  lemma {:induction false} RequestOf(slot: Slot, s: State, events: seq<Event>, limit: int, arrived: Time)
      returns (m: nat)
    requires Possible(slot, s, events) && Asking(Exec(slot, s, events), limit, arrived) && !Asking(s, limit, arrived)
    ensures m < |events| && Requests(After(slot, s, events, m), events[m], limit, arrived)
    decreases |events|
  {
    hide Enabled, Next, Asking;
    var e, next := events[0], Next(slot, s, events[0]);
    if Asking(next, limit, arrived) {
      AskingNext(slot, s, e, limit, arrived);
      m := 0;
    } else {
      var k := RequestOf(slot, next, events[1..], limit, arrived);
      AfterNext(slot, s, events, k);
      m := k + 1;
    }
  }

  lemma AfterOfPrefix(slot: Slot, s: State, events: seq<Event>, n: nat, m: nat)
    requires Possible(slot, s, events) && m <= n <= |events|
    ensures Possible(slot, s, events[..n])
    ensures After(slot, s, events[..n], m) == After(slot, s, events, m)
  {
    PrefixPossible(slot, s, events, n);
    assert events[..n][..m] == events[..m];
  }

  /** Every task came with a request made since `from`. */
  ghost predicate InTime(s: State, from: Time) {
    from <= s.now && forall t :: t in s.tasks ==> from <= s.tasks[t].arrived <= s.now
  }

  lemma InTimeNext(slot: Slot, s: State, e: Event, from: Time)
    requires Enabled(slot, s, e) && InTime(s, from)
    ensures InTime(Next(slot, s, e), from)
  {
    hide IsTop, Groups;
  }

  lemma {:induction false} InTimeAlongRun(slot: Slot, s: State, events: seq<Event>, from: Time)
    requires Possible(slot, s, events) && InTime(s, from)
    ensures InTime(Exec(slot, s, events), from)
    decreases |events|
  {
    hide Enabled, Next, InTime;
    if events != [] {
      InTimeNext(slot, s, events[0], from);
      InTimeAlongRun(slot, Next(slot, s, events[0]), events[1..], from);
    }
  }

  /** Event n is a successful query, and the likes it sees then, in its window, have the top `items` for `limit`. */
  ghost predicate Snapshot(slot: Slot, s: State, events: seq<Event>, n: nat, list: Listing, limit: int)
    requires Possible(slot, s, events)
  {
    && n < |events|
    && var q := After(slot, s, events, n);
       && Answers(q, events[n], list)
       && IsTop(list.items, Groups(slot, q.likes, q.tasks[events[n].t].arrived), limit)
  }

  lemma OriginOf(slot: Slot, s: State, events: seq<Event>, list: Listing) returns (n: nat, m: nat)
    requires Start(s) && Possible(slot, s, events) && Holds(Exec(slot, s, events), list)
    ensures m < n < |events|
    ensures var q := After(slot, s, events, n);
            && Answers(q, events[n], list)
            && Snapshot(slot, s, events, n, list, Cap(q.tasks[events[n].t].limit))
            && Requests(After(slot, s, events, m), events[m], q.tasks[events[n].t].limit, q.tasks[events[n].t].arrived)
  {
    assert !Holds(s, list);
    n := Provenance(slot, s, events, list);
    var q := After(slot, s, events, n);
    var task := q.tasks[events[n].t];
    PrefixPossible(slot, s, events, n);
    assert Asking(q, task.limit, task.arrived) && !Asking(s, task.limit, task.arrived);
    m := RequestOf(slot, s, events[..n], task.limit, task.arrived);
    AfterOfPrefix(slot, s, events, n, m);
  }

  /**
   Every list served, in any timed interleaving of requests, background refreshes, likes and unlikes, was
   answered by a query of the run, at the moment the list says: it is the top of the likes there were
   then, for limit and window of one request of the run, with the limit cut at 50.
   */
  lemma ServedListsAreTopLists(slot: Slot, s: State, events: seq<Event>, t: TaskId) returns (n: nat, m: nat)
    requires Start(s) && Possible(slot, s, events)
    requires t in Exec(slot, s, events).tasks && Exec(slot, s, events).tasks[t].pc.Served?
    ensures m < n < |events| && events[m].Arrive? && events[n].Step?
    ensures var q, request, list :=
              After(slot, s, events, n), After(slot, s, events, m), Exec(slot, s, events).tasks[t].pc.list;
            && events[n].t in q.tasks && q.tasks[events[n].t].pc.Query?
            && q.tasks[events[n].t].limit == events[m].limit
            && s.now <= q.tasks[events[n].t].arrived == request.now <= q.now
            && 0 <= Cap(events[m].limit) <= 50
            && list.asked == q.now
            && IsTop(list.items, Groups(slot, q.likes, request.now), Cap(events[m].limit))
  {
    n, m := OriginOf(slot, s, events, Exec(slot, s, events).tasks[t].pc.list);
    PrefixPossible(slot, s, events, n);
    InTimeAlongRun(slot, s, events[..n], s.now);
  }

  lemma GroupsInSeconds(slot: Slot, likes: Table, asked: Time)
    ensures Groups(slot, likes, asked)
            == Grouped(likes, if slot.kind == "all" then None else Some(slot.kind), SecondsBefore(slot.window, asked))
  {
    hide Grouped;
  }

  /** The same in plain numbers. */
  lemma ServedListsInNumbers(slot: Slot, s: State, events: seq<Event>, t: TaskId) returns (n: nat, m: nat)
    requires Start(s) && Possible(slot, s, events)
    requires t in Exec(slot, s, events).tasks && Exec(slot, s, events).tasks[t].pc.Served?
    ensures m < n < |events| && events[m].Arrive? && events[n].Step?
    ensures ListsRecentLikes(Exec(slot, s, events).tasks[t].pc.list.items, After(slot, s, events, n).likes,
                             slot.kind, slot.window, After(slot, s, events, m).now, events[m].limit)
  {
    n, m := ServedListsAreTopLists(slot, s, events, t);
    var likes, asked := After(slot, s, events, n).likes, After(slot, s, events, m).now;
    GroupsInSeconds(slot, likes, asked);
    hide IsTop, Groups, Grouped, Exec, Possible, ListsRecentLikes;
    TopIsRecent(Exec(slot, s, events).tasks[t].pc.list.items, likes, slot.kind, slot.window, asked, events[m].limit);
  }

  // ---------- what the canary promises ----------

  /** The keys hold what was written last, and the canary dies when that is as old as it was told. */
  ghost predicate KeysAreLastWrite(s: State) {
    if s.writes == [] then s.data == None && s.canaryUntil == None else
      var last := s.writes[|s.writes| - 1];
      s.data == Some(last.list) && s.canaryUntil == Some(last.at + last.ttl)
  }

  /** A list looked up at `at` is that of the last of the first `seen` writes; those after it came no earlier. */
  ghost predicate LookedUp(s: State, list: Listing, at: Time, seen: nat, isFresh: bool) {
    && 1 <= seen <= |s.writes| && list == s.writes[seen - 1].list
    && s.writes[seen - 1].at <= at <= s.now
    && (forall i :: seen <= i < |s.writes| ==> at <= s.writes[i].at)
    && isFresh == (at < s.writes[seen - 1].at + s.writes[seen - 1].ttl)
  }

  ghost predicate TaskHonest(s: State, pc: Pc) {
    match pc
    case TryLock(list, at, seen) => LookedUp(s, list, at, seen, false)
    case Served(list, how, at, seen) => how == Filled || LookedUp(s, list, at, seen, how == Fresh)
    case _ => true
  }

  ghost predicate Honest(slot: Slot, s: State) {
    && KeysAreLastWrite(s)
    && (forall i :: 0 <= i < |s.writes| ==>
          s.writes[i].at <= s.now && s.writes[i].ttl == Canary(slot, s.writes[i].background))
    && (forall t :: t in s.tasks ==> TaskHonest(s, s.tasks[t].pc))
  }

  lemma StaysHonest(slot: Slot, s: State, e: Event, pc: Pc)
    requires Enabled(slot, s, e) && TaskHonest(s, pc)
    ensures TaskHonest(Next(slot, s, e), pc)
  {
    hide IsTop, Groups;
    var next := Next(slot, s, e);
    WritesGrow(slot, s, e);
    hide Next;
    if !SameKeys(s, next) {
      var w :| Wrote(slot, s, next, w);
      assert forall i :: 0 <= i < |s.writes| ==> next.writes[i] == s.writes[i];
    }
  }

  /** From `s` to `next` the keys have been written, with `w`. */
  ghost predicate Wrote(slot: Slot, s: State, next: State, w: Written) {
    && next.writes == s.writes + [w] && w.at == s.now
    && next.data == Some(w.list) && next.canaryUntil == Some(w.at + w.ttl)
    && w.ttl == Canary(slot, w.background)
  }

  predicate SameKeys(s: State, next: State) {
    next.writes == s.writes && next.data == s.data && next.canaryUntil == s.canaryUntil
  }

  lemma WritesGrow(slot: Slot, s: State, e: Event)
    requires Enabled(slot, s, e)
    ensures s.now <= Next(slot, s, e).now
    ensures SameKeys(s, Next(slot, s, e)) || exists w :: Wrote(slot, s, Next(slot, s, e), w)
  {
    hide IsTop, Groups;
    if e.Step? && s.tasks[e.t].pc.Write? && e.ok {
      assert Wrote(slot, s, Next(slot, s, e),
                   Written(s.now, Canary(slot, s.tasks[e.t].background), s.tasks[e.t].pc.list,
                           s.tasks[e.t].background));
    }
  }

  lemma StepIsHonest(slot: Slot, s: State, e: Event)
    requires Enabled(slot, s, e) && Honest(slot, s) && e.Step?
    ensures TaskHonest(Next(slot, s, e), Next(slot, s, e).tasks[e.t].pc)
  {
    hide IsTop, Groups;
    var pc := s.tasks[e.t].pc;
    assert TaskHonest(s, pc);
    if pc.Lookup? {
      LookupIsHonest(slot, s, e);
    } else {
      WritesGrow(slot, s, e);
      PcAfter(slot, s, e);
      hide Next, KeysAreLastWrite;
      if pc.TryLock? { assert LookedUp(s, pc.list, pc.at, pc.seen, false); }
    }
  }

  lemma PcAfter(slot: Slot, s: State, e: Event)
    requires Enabled(slot, s, e) && e.Step? && !s.tasks[e.t].pc.Lookup?
    ensures var pc, after := s.tasks[e.t].pc, Next(slot, s, e).tasks[e.t].pc;
            && (after.TryLock? ==> false)
            && (after.Served? && after.how != Filled ==>
                  && pc.TryLock? && after == Served(pc.list, Stale, pc.at, pc.seen)
                  && Next(slot, s, e).writes == s.writes && Next(slot, s, e).now == s.now)
  {
    hide IsTop, Groups;
  }

  lemma LookupIsHonest(slot: Slot, s: State, e: Event)
    requires Enabled(slot, s, e) && Honest(slot, s) && e.Step? && s.tasks[e.t].pc.Lookup?
    ensures TaskHonest(Next(slot, s, e), Next(slot, s, e).tasks[e.t].pc)
  {
    hide IsTop, Groups;
  }

  /** A refresh starts only where a list was found and its canary had died by the time it was looked up. */
  lemma RefreshesAnswerStaleHits(slot: Slot, s: State, events: seq<Event>, e: Event)
    requires Start(s) && Possible(slot, s, events) && Enabled(slot, Exec(slot, s, events), e)
    ensures var at := Exec(slot, s, events);
            Next(slot, at, e).refreshes != at.refreshes ==>
              && e.Step? && at.tasks[e.t].pc.TryLock?
              && var pc := at.tasks[e.t].pc;
                 && 1 <= pc.seen <= |at.writes|
                 && at.writes[pc.seen - 1].at + at.writes[pc.seen - 1].ttl <= pc.at <= at.now
  {
    hide IsTop, Groups;
    HonestAlongRun(slot, s, events);
    var at := Exec(slot, s, events);
    if e.Step? { assert TaskHonest(at, at.tasks[e.t].pc); }
  }

  lemma HonestNext(slot: Slot, s: State, e: Event)
    requires Enabled(slot, s, e) && Honest(slot, s)
    ensures Honest(slot, Next(slot, s, e))
  {
    var next := Next(slot, s, e);
    WritesGrow(slot, s, e);
    forall t | t in next.tasks ensures TaskHonest(next, next.tasks[t].pc) {
      if t in s.tasks && next.tasks[t].pc == s.tasks[t].pc {
        StaysHonest(slot, s, e, s.tasks[t].pc);
      } else if e.Step? && t == e.t {
        StepIsHonest(slot, s, e);
      } else {
        NewTasks(slot, s, e, t);
      }
    }
    hide Next, IsTop, Groups, TaskHonest;
  }

  lemma NewTasks(slot: Slot, s: State, e: Event, t: TaskId)
    requires Enabled(slot, s, e) && t in Next(slot, s, e).tasks && (e.Step? ==> t != e.t)
    ensures if t in s.tasks then Next(slot, s, e).tasks[t] == s.tasks[t] else !HasList(Next(slot, s, e).tasks[t].pc)
  {
    hide IsTop, Groups;
  }

  lemma {:induction false} HonestAlongRun(slot: Slot, s: State, events: seq<Event>)
    requires Possible(slot, s, events) && Honest(slot, s)
    ensures Honest(slot, Exec(slot, s, events))
    decreases |events|
  {
    hide Enabled, Next, Honest;
    if events != [] {
      HonestNext(slot, s, events[0]);
      HonestAlongRun(slot, Next(slot, s, events[0]), events[1..]);
    }
  }

  /**
   A list found in the cache is the one written last before the lookup, and it is served as fresh
   exactly if it was written less than its canary's seconds before: 300 if by a refresh, of a window other
   than the day, and otherwise 30.
   */
  lemma FreshExactlyWhileCanaryLives(slot: Slot, s: State, events: seq<Event>, t: TaskId)
    requires Start(s) && Possible(slot, s, events)
    requires var tasks := Exec(slot, s, events).tasks; t in tasks && tasks[t].pc.Served? && !tasks[t].pc.how.Filled?
    ensures var end := Exec(slot, s, events);
            var pc := end.tasks[t].pc;
            && 1 <= pc.seen <= |end.writes|
            && var w := end.writes[pc.seen - 1];
               && pc.list == w.list && w.at <= pc.at
               && (pc.how == Fresh <==> pc.at - w.at < w.ttl)
               && w.ttl == (if w.background && slot.window != "24h" then 300 else 30)
               && forall i :: pc.seen <= i < |end.writes| ==> pc.at <= end.writes[i].at
  {
    HonestAlongRun(slot, s, events);
    var end := Exec(slot, s, events);
    assert TaskHonest(end, end.tasks[t].pc);
  }

  // ---------- the limit a list is served for ----------

  predicate AsksWithin(events: seq<Event>, limits: set<int>) {
    forall i :: 0 <= i < |events| && events[i].Arrive? ==> events[i].limit in limits
  }

  ghost predicate IsServed(slot: Slot, s: State, events: seq<Event>, t: TaskId)
    requires Possible(slot, s, events)
  {
    t in Exec(slot, s, events).tasks && Exec(slot, s, events).tasks[t].pc.Served?
  }

  /** The query that answered the list served to `t` saw it as the top for the limit `t` asked with. */
  ghost predicate ServedOwn(slot: Slot, s: State, events: seq<Event>, t: TaskId)
    requires Possible(slot, s, events) && IsServed(slot, s, events, t)
  {
    var task := Exec(slot, s, events).tasks[t];
    exists n: nat :: Snapshot(slot, s, events, n, task.pc.list, Cap(task.limit))
  }

  /** In every run whose requests ask with these limits, everyone is served the top for its own. */
  ghost predicate ServesOwnLimits(slot: Slot, limits: set<int>) {
    forall s, events, t ::
      Start(s) && Possible(slot, s, events) && AsksWithin(events, limits) && IsServed(slot, s, events, t)
      ==> ServedOwn(slot, s, events, t)
  }

  /** Any limit that can be queried at all is cut to the same number as every other. */
  predicate OneLimit(limits: set<int>) {
    forall a, b :: a in limits && b in limits && a >= 0 ==> (if a < 50 then a else 50) == (if b < 50 then b else 50)
  }

  // A run that breaks the promise: 50 contents with one like each, and a request for each of two limits.

  function Crowd(kind: string): Table {
    map k | k in (set i: nat | i < MAX_LIMIT :: Key(0, Content(kind, i))) :: Stamp(k.content.id, 0)
  }

  function CrowdContents(kind: string): set<Content> {
    set i: nat | i < MAX_LIMIT :: Content(kind, i)
  }

  function FirstOnes(kind: string, n: nat): (rows: seq<ContentCount>)
    ensures |rows| == n
    ensures forall i :: 0 <= i < n ==> rows[i] == ContentCount(Content(kind, i), 1)
  {
    if n == 0 then [] else FirstOnes(kind, n - 1) + [ContentCount(Content(kind, n - 1), 1)]
  }

  lemma {:induction false} FirstContentsOfKind(kind: string, n: nat)
    ensures |set i: nat | i < n :: Content(kind, i)| == n
    decreases n
  {
    if n == 0 {
      assert (set i: nat | i < n :: Content(kind, i)) == {};
    } else {
      FirstContentsOfKind(kind, n - 1);
      var front := set i: nat | i < n - 1 :: Content(kind, i);
      assert (set i: nat | i < n :: Content(kind, i)) == front + {Content(kind, n - 1)};
    }
  }

  function From(slot: Slot): Option<Time> {
    var since := Since(slot.window, 0);
    if since.Some? then since.value else None
  }

  lemma AllRecent(slot: Slot)
    ensures Recent(Crowd(slot.kind), AsOpt(slot.kind), From(slot)) == Crowd(slot.kind).Keys
  {
  }

  lemma CrowdKeys(kind: string, k: Key)
    ensures k in Crowd(kind) <==> k.user == 0 && k.content in CrowdContents(kind)
  {
    if k.user == 0 && k.content in CrowdContents(kind) { assert k == Key(0, Content(kind, k.content.id)); }
  }

  lemma CrowdGroups(slot: Slot)
    ensures Groups(slot, Crowd(slot.kind), 0) == map c | c in CrowdContents(slot.kind) :: 1
    ensures |Groups(slot, Crowd(slot.kind), 0).Keys| == MAX_LIMIT
  {
    var rows := Recent(Crowd(slot.kind), AsOpt(slot.kind), From(slot));
    AllRecent(slot);
    hide Crowd, CrowdContents, Recent;
    forall k ensures k in rows <==> k.user == 0 && k.content in CrowdContents(slot.kind) { CrowdKeys(slot.kind, k); }
    forall c | c in CrowdContents(slot.kind) ensures (set l | l in rows && l.content == c) == {Key(0, c)} {
      assert Key(0, c) in rows;
    }
    var groups := Groups(slot, Crowd(slot.kind), 0);
    assert groups.Keys == CrowdContents(slot.kind) by {
      forall c | c in CrowdContents(slot.kind) ensures c in groups { assert Key(0, c) in rows; }
    }
    CrowdSize(slot.kind);
  }

  lemma CrowdSize(kind: string)
    ensures |CrowdContents(kind)| == MAX_LIMIT
  {
    FirstContentsOfKind(kind, MAX_LIMIT);
  }

  lemma FirstOnesAreTop(slot: Slot, n: nat)
    requires n <= MAX_LIMIT
    ensures IsTop(FirstOnes(slot.kind, n), Groups(slot, Crowd(slot.kind), 0), n)
  {
    CrowdGroups(slot);
    hide Groups, Crowd;
  }

  /** The clock and the likes stand still. */
  predicate Still(events: seq<Event>) {
    forall i :: 0 <= i < |events| ==> events[i].Arrive? || events[i].Step?
  }

  lemma {:induction false} StillStays(slot: Slot, s: State, events: seq<Event>)
    requires Possible(slot, s, events) && Still(events)
    ensures Exec(slot, s, events).likes == s.likes && Exec(slot, s, events).now == s.now
    decreases |events|
  {
    hide IsTop, Groups;
    if events != [] {
      assert events[0].Arrive? || events[0].Step?;
      StillStays(slot, Next(slot, s, events[0]), events[1..]);
    }
  }

  function CrowdStart(kind: string): State {
    State(0, Crowd(kind), None, None, None, map[], [], [])
  }

  lemma First(slot: Slot, s: State, e: Event, rest: seq<Event>)
    requires Enabled(slot, s, e) && Possible(slot, Next(slot, s, e), rest)
    ensures Possible(slot, s, [e] + rest) && Exec(slot, s, [e] + rest) == Exec(slot, Next(slot, s, e), rest)
  {
    assert ([e] + rest)[1..] == rest;
  }

  function Asks(t: TaskId, limit: int): Event { Arrive(t, limit) }

  function Runs(t: TaskId, rows: seq<ContentCount>): Event { Step(t, true, 2, rows) }

  /** A request fills the cache for its limit, and the next one, with another limit, is served the same list. */
  function FillAndHit(a: int, b: int, rows: seq<ContentCount>): seq<Event> {
    [Asks(0, a)] + ([Runs(0, rows)] + ([Runs(0, rows)] + ([Runs(0, rows)] + ([Asks(1, b)] + ([Runs(1, rows)] + [])))))
  }

  lemma AskStep(slot: Slot, s: State, t: TaskId, limit: int)
    requires t !in s.tasks
    ensures Enabled(slot, s, Asks(t, limit))
    ensures Next(slot, s, Asks(t, limit)) == s.(tasks := s.tasks[t := Task(limit, s.now, false, Lookup)])
  {
    hide IsTop, Groups;
  }

  lemma FillSteps(slot: Slot, s0: State, s1: State, s2: State, s3: State, s4: State, a: int, rows: seq<ContentCount>)
    requires s0 == CrowdStart(slot.kind) && a >= 0 && IsTop(rows, Groups(slot, Crowd(slot.kind), 0), Cap(a))
    requires s1 == s0.(tasks := map[0 := Task(a, 0, false, Lookup)])
    requires s2 == s0.(tasks := map[0 := Task(a, 0, false, Query)])
    requires s3 == s0.(tasks := map[0 := Task(a, 0, false, Write(Listing(rows, 0)))])
    requires s4 == s0.(data := Some(Listing(rows, 0)), canaryUntil := Some(FILL_CANARY),
                       writes := [Written(0, FILL_CANARY, Listing(rows, 0), false)],
                       tasks := map[0 := Task(a, 0, false, Served(Listing(rows, 0), Filled, 0, 0))])
    ensures Enabled(slot, s1, Runs(0, rows)) && Next(slot, s1, Runs(0, rows)) == s2
    ensures Enabled(slot, s2, Runs(0, rows)) && Next(slot, s2, Runs(0, rows)) == s3
    ensures Enabled(slot, s3, Runs(0, rows)) && Next(slot, s3, Runs(0, rows)) == s4
  {
    hide IsTop, Groups, Crowd;
  }

  lemma HitStep(slot: Slot, s: State, served: State, b: int, rows: seq<ContentCount>)
    requires 1 in s.tasks && s.tasks[1] == Task(b, 0, false, Lookup) && 2 !in s.tasks
    requires s.now == 0 && s.data == Some(Listing(rows, 0)) && s.canaryUntil == Some(FILL_CANARY) && |s.writes| == 1
    requires served == s.(tasks := s.tasks[1 := Task(b, 0, false, Served(Listing(rows, 0), Fresh, 0, 1))])
    ensures Enabled(slot, s, Runs(1, rows)) && Next(slot, s, Runs(1, rows)) == served
  {
    hide IsTop, Groups;
  }

  lemma FillAndHitRuns(slot: Slot, a: int, b: int, rows: seq<ContentCount>)
    requires a >= 0 && IsTop(rows, Groups(slot, Crowd(slot.kind), 0), Cap(a))
    ensures var s, events := CrowdStart(slot.kind), FillAndHit(a, b, rows);
            && Possible(slot, s, events)
            && 1 in Exec(slot, s, events).tasks
            && Exec(slot, s, events).tasks[1] == Task(b, 0, false, Served(Listing(rows, 0), Fresh, 0, 1))
  {
    hide IsTop, Groups, Crowd;
    var s0 := CrowdStart(slot.kind);
    var s1 := s0.(tasks := map[0 := Task(a, 0, false, Lookup)]);
    var s2 := s0.(tasks := map[0 := Task(a, 0, false, Query)]);
    var s3 := s0.(tasks := map[0 := Task(a, 0, false, Write(Listing(rows, 0)))]);
    var filled := Task(a, 0, false, Served(Listing(rows, 0), Filled, 0, 0));
    var s4 := s0.(data := Some(Listing(rows, 0)), canaryUntil := Some(FILL_CANARY),
                  writes := [Written(0, FILL_CANARY, Listing(rows, 0), false)],
                  tasks := map[0 := filled]);
    var s5 := s4.(tasks := map[0 := filled, 1 := Task(b, 0, false, Lookup)]);
    var s6 := s4.(tasks := map[0 := filled, 1 := Task(b, 0, false, Served(Listing(rows, 0), Fresh, 0, 1))]);
    AskStep(slot, s0, 0, a);
    FillSteps(slot, s0, s1, s2, s3, s4, a, rows);
    AskStep(slot, s4, 1, b);
    assert s4.tasks[1 := Task(b, 0, false, Lookup)] == s5.tasks;
    HitStep(slot, s5, s6, b, rows);
    hide Next, Enabled, Asks, Runs;
    First(slot, s5, Runs(1, rows), []);
    First(slot, s4, Asks(1, b), [Runs(1, rows)] + []);
    First(slot, s3, Runs(0, rows), [Asks(1, b)] + ([Runs(1, rows)] + []));
    First(slot, s2, Runs(0, rows), [Runs(0, rows)] + ([Asks(1, b)] + ([Runs(1, rows)] + [])));
    First(slot, s1, Runs(0, rows), [Runs(0, rows)] + ([Runs(0, rows)] + ([Asks(1, b)] + ([Runs(1, rows)] + []))));
    First(slot, s0, Asks(0, a),
          [Runs(0, rows)] + ([Runs(0, rows)] + ([Runs(0, rows)] + ([Asks(1, b)] + ([Runs(1, rows)] + [])))));
  }

  /** While nothing but requests happens, no other limit's top list can be this one. */
  lemma NeverTopForOther(slot: Slot, s: State, events: seq<Event>, n: nat, rows: seq<ContentCount>, a: int, b: int)
    requires s == CrowdStart(slot.kind) && Possible(slot, s, events) && Still(events)
    requires IsTop(rows, Groups(slot, s.likes, 0), Cap(a)) && a >= 0 && Cap(a) != Cap(b)
    ensures !Snapshot(slot, s, events, n, Listing(rows, 0), Cap(b))
  {
    hide Exec, Possible, IsTop, Groups, Crowd;
    if n < |events| {
      PrefixPossible(slot, s, events, n);
      StillStays(slot, s, events[..n]);
      InTimeAlongRun(slot, s, events[..n], 0);
      NotTopForOther(slot, rows, a, b);
    }
  }

  lemma NotTopForOther(slot: Slot, rows: seq<ContentCount>, a: int, b: int)
    requires IsTop(rows, Groups(slot, Crowd(slot.kind), 0), Cap(a)) && a >= 0 && Cap(a) != Cap(b)
    ensures !IsTop(rows, Groups(slot, Crowd(slot.kind), 0), Cap(b))
  {
    hide IsTop, Groups, Crowd;
    CrowdGroups(slot);
    CachedListFitsLimitExactlyIf(rows, Groups(slot, Crowd(slot.kind), 0), Cap(a), Cap(b));
  }

  lemma TwoLimitsClash(slot: Slot, limits: set<int>, a: int, b: int)
    requires a in limits && b in limits && a >= 0 && Cap(a) != Cap(b)
    ensures !ServesOwnLimits(slot, limits)
  {
    hide IsTop, Groups, Exec, Possible, Crowd, Snapshot;
    var rows := FirstOnes(slot.kind, Cap(a));
    var s, events := CrowdStart(slot.kind), FillAndHit(a, b, rows);
    FirstOnesAreTop(slot, Cap(a));
    FillAndHitRuns(slot, a, b, rows);
    assert AsksWithin(events, limits) && Still(events);
    forall n: nat ensures !Snapshot(slot, s, events, n, Listing(rows, 0), Cap(b)) {
      NeverTopForOther(slot, s, events, n, rows, a, b);
    }
    assert IsServed(slot, s, events, 1);
    assert !ServedOwn(slot, s, events, 1);
    assert Start(s);
  }

  /**
   The cache key omits the limit: everyone is served its own top exactly if all who ask use one limit,
   limits above 50 counting as 50.
   */
  lemma ServesOwnLimitsExactlyIfOne(slot: Slot, limits: set<int>)
    ensures ServesOwnLimits(slot, limits) <==> OneLimit(limits)
  {
    hide IsTop, Groups, Exec, Possible, Snapshot;
    if OneLimit(limits) {
      forall s: State, events: seq<Event>, t: TaskId |
          Start(s) && Possible(slot, s, events) && AsksWithin(events, limits) && IsServed(slot, s, events, t)
        ensures ServedOwn(slot, s, events, t)
      {
        var task := Exec(slot, s, events).tasks[t];
        var n, m := OriginOf(slot, s, events, task.pc.list);
        var k := RequestOf(slot, s, events, task.limit, task.arrived);
        assert events[m].limit in limits && events[k].limit in limits;
        assert Cap(events[m].limit) == Cap(task.limit);
      }
    } else {
      var a, b :| a in limits && b in limits && a >= 0 && Cap(a) != Cap(b);
      TwoLimitsClash(slot, limits, a, b);
    }
  }

  // ---------- how often refreshes start ----------

  ghost predicate Spaced(times: seq<Time>) {
    forall i, j :: 0 <= i < j < |times| ==> times[j] >= times[i] + LOCK_TTL
  }

  ghost predicate RefreshesSpaced(s: State) {
    && Spaced(s.refreshes)
    && forall i :: 0 <= i < |s.refreshes| ==>
         s.refreshes[i] <= s.now && s.lockUntil.Some? && s.refreshes[i] + LOCK_TTL <= s.lockUntil.value
  }

  lemma RefreshesSpacedNext(slot: Slot, s: State, e: Event)
    requires Enabled(slot, s, e) && RefreshesSpaced(s)
    ensures RefreshesSpaced(Next(slot, s, e))
  {
    hide IsTop, Groups;
  }

  lemma {:induction false} RefreshesSpacedAlongRun(slot: Slot, s: State, events: seq<Event>)
    requires Possible(slot, s, events) && RefreshesSpaced(s)
    ensures RefreshesSpaced(Exec(slot, s, events))
    decreases |events|
  {
    hide Enabled, Next, RefreshesSpaced;
    if events != [] {
      RefreshesSpacedNext(slot, s, events[0]);
      RefreshesSpacedAlongRun(slot, Next(slot, s, events[0]), events[1..]);
    }
  }

  function CountIn(times: seq<Time>, lo: Time, hi: Time): nat {
    if times == [] then 0 else
      CountIn(times[..|times| - 1], lo, hi) + if lo <= times[|times| - 1] <= hi then 1 else 0
  }

  lemma {:induction false} SpacedCount(times: seq<Time>, lo: Time, hi: Time)
    requires Spaced(times) && lo <= hi
    ensures LOCK_TTL * CountIn(times, lo, hi) <= hi - lo + LOCK_TTL
    decreases |times|
  {
    if times != [] {
      var n := |times| - 1;
      var last := times[n];
      if !(lo <= last <= hi) {
        SpacedCount(times[..n], lo, hi);
      } else if last - LOCK_TTL < lo {
        NoneEarlier(times[..n], lo, hi);
      } else {
        SpacedCount(times[..n], lo, last - LOCK_TTL);
        SameUpTo(times[..n], lo, last - LOCK_TTL, hi);
      }
    }
  }

  lemma {:induction false} NoneEarlier(times: seq<Time>, lo: Time, hi: Time)
    requires forall i :: 0 <= i < |times| ==> times[i] < lo
    ensures CountIn(times, lo, hi) == 0
    decreases |times|
  {
    if times != [] { NoneEarlier(times[..|times| - 1], lo, hi); }
  }

  lemma {:induction false} SameUpTo(times: seq<Time>, lo: Time, mid: Time, hi: Time)
    requires mid <= hi && forall i :: 0 <= i < |times| ==> times[i] <= mid
    ensures CountIn(times, lo, mid) == CountIn(times, lo, hi)
    decreases |times|
  {
    if times != [] { SameUpTo(times[..|times| - 1], lo, mid, hi); }
  }

  /** In any interval, at most one background refresh and one more per ten seconds of it are started. */
  lemma RefreshRateBound(slot: Slot, s: State, events: seq<Event>, lo: Time, hi: Time)
    requires Start(s) && Possible(slot, s, events) && lo <= hi
    ensures CountIn(Exec(slot, s, events).refreshes, lo, hi) <= 1 + (hi - lo) / 10
  {
    RefreshesSpacedAlongRun(slot, s, events);
    SpacedCount(Exec(slot, s, events).refreshes, lo, hi);
  }
}
