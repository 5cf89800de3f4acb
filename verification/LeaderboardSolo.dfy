/** The interleavable steps of a leaderboard request or refresh, run with nothing in between, are the code's. */
module LeaderboardSolo {
  import opened Leaderboard
  import opened LeaderboardRuns
  import opened Likes
  import opened ServiceSpec
  import opened TopLikes
  import opened Wrappers

  function Shown<T>(keys: map<Slot, T>, slot: Slot): Option<T> {
    if slot in keys then Some(keys[slot]) else None
  }

  /** The state shows the keys of the slot, the likes and the clock. */
  predicate Shows(s: State, slot: Slot, v: View, likes: Table, now: Time) {
    && (s.data.Some? <==> slot in v.data) && (slot in v.data ==> s.data.value.items == v.data[slot])
    && s.canaryUntil == Shown(v.canaryUntil, slot) && s.lockUntil == Shown(v.lockUntil, slot)
    && s.likes == likes && s.now == now
  }

  ghost predicate Leads(slot: Slot, s: State, events: seq<Event>, end: State) {
    Possible(slot, s, events) && Exec(slot, s, events) == end
  }

  lemma Before(slot: Slot, s: State, e: Event, rest: seq<Event>, end: State)
    requires Enabled(slot, s, e) && Leads(slot, Next(slot, s, e), rest, end)
    ensures Leads(slot, s, [e] + rest, end)
  {
    First(slot, s, e, rest);
  }

  /** From a list to write to the end of its task. */
  lemma WriteAlone(slot: Slot, s: State, t: TaskId, spawn: TaskId, rows: seq<ContentCount>, v: View, likes: Table,
                   ok: bool)
    returns (events: seq<Event>, end: State)
    requires t in s.tasks && s.tasks[t].pc.Write? && s.tasks[t].pc.list.items == rows && spawn !in s.tasks
             && Shows(s, slot, v, likes, s.now)
    ensures Leads(slot, s, events, end)
    ensures Shows(end, slot, if ok then Stored(v, slot, rows, s.now + Canary(slot, s.tasks[t].background)) else v,
                  likes, s.now)
    ensures end.tasks.Keys == s.tasks.Keys
    ensures if s.tasks[t].background then end.tasks[t].pc == Ended
            else end.tasks[t].pc.Served? && end.tasks[t].pc.list.items == rows
  {
    hide Groups, IsTop;
    var e := Step(t, ok, spawn, rows);
    end := Next(slot, s, e);
    assert Leads(slot, end, [], end);
    Before(slot, s, e, [], end);
    events := [e] + [];
  }

  /** From the query on. */
  lemma QueryAlone(slot: Slot, s: State, t: TaskId, spawn: TaskId, rows: seq<ContentCount>, v: View, likes: Table,
                   ok: bool, written: bool)
    returns (events: seq<Event>, end: State)
    requires t in s.tasks && s.tasks[t].pc == Query && spawn !in s.tasks && Shows(s, slot, v, likes, s.now)
    requires QuerySucceeds(s.tasks[t], ok)
             ==> IsTop(rows, Groups(slot, likes, s.tasks[t].arrived), Cap(s.tasks[t].limit))
    ensures Leads(slot, s, events, end) && end.tasks.Keys == s.tasks.Keys
    ensures var until := s.now + Canary(slot, s.tasks[t].background);
            Shows(end, slot, if QuerySucceeds(s.tasks[t], ok)
                  && written then Stored(v, slot, rows, until) else v, likes, s.now)
    ensures if QuerySucceeds(s.tasks[t], ok) && !s.tasks[t].background
            then end.tasks[t].pc.Served? && end.tasks[t].pc.list.items == rows
            else end.tasks[t].pc == Ended
  {
    hide Groups, IsTop;
    var e := Step(t, ok, spawn, rows);
    var next := Next(slot, s, e);
    if QuerySucceeds(s.tasks[t], ok) {
      events, end := WriteAlone(slot, next, t, spawn, rows, v, likes, written);
    } else {
      events, end := [], next;
    }
    Before(slot, s, e, events, end);
    events := [e] + events;
  }

  /** From a stale hit on: the lock, and the background task it lets start. */
  lemma LockAlone(slot: Slot, s: State, t: TaskId, spawn: TaskId, v: View, likes: Table, ok: bool)
    returns (events: seq<Event>, end: State)
    requires t in s.tasks && s.tasks[t].pc.TryLock? && spawn !in s.tasks && Shows(s, slot, v, likes, s.now)
    ensures Leads(slot, s, events, end)
    ensures var refresh := ok && !IsAlive(s.lockUntil, s.now);
            && Shows(end, slot, if refresh then v.(lockUntil := v.lockUntil[slot := s.now + LOCK_TTL]) else v, likes,
                     s.now)
            && t in end.tasks && end.tasks[t].pc.Served? && end.tasks[t].pc.list == s.tasks[t].pc.list
            && (spawn in end.tasks <==> refresh)
            && (refresh ==> end.tasks[spawn] == Task(s.tasks[t].limit, s.tasks[t].arrived, true, Query))
  {
    hide Groups, IsTop;
    var e := Step(t, ok, spawn, []);
    end := Next(slot, s, e);
    assert Leads(slot, end, [], end);
    Before(slot, s, e, [], end);
    events := [e] + [];
  }

  /** A task served a list or ended, and a background task started or not. */
  ghost predicate Replies(
      end: State, t: TaskId, spawn: TaskId, r: Result<seq<ContentCount>, DomainError>, refresh: bool, limit: int,
          arrived: Time)
  {
    && t in end.tasks
    && (if r.Ok? then end.tasks[t].pc.Served? && end.tasks[t].pc.list.items == r.value else end.tasks[t].pc == Ended)
    && (spawn in end.tasks <==> refresh) && (refresh ==> end.tasks[spawn] == Task(limit, arrived, true, Query))
  }

  /** A hit: served at once, or after trying the lock. */
  lemma HitAlone(slot: Slot, s: State, t: TaskId, spawn: TaskId, v: View, ok: bool)
      returns (events: seq<Event>, end: State)
    requires t in s.tasks && s.tasks[t].pc.Lookup? && spawn !in s.tasks && Shows(s, slot, v, s.likes, s.now)
             && slot in v.data
    ensures Leads(slot, s, events, end)
    ensures var stale := !Alive(v.canaryUntil, slot, s.now);
            var refresh := stale && ok && !Alive(v.lockUntil, slot, s.now);
            && Shows(end, slot, if refresh then v.(lockUntil := v.lockUntil[slot := s.now + LOCK_TTL]) else v, s.likes,
                     s.now)
            && Replies(end, t, spawn, Ok(v.data[slot]), refresh, s.tasks[t].limit, s.tasks[t].arrived)
  {
    hide Groups, IsTop;
    var look := Step(t, true, spawn, []);
    var looked := Next(slot, s, look);
    if Alive(v.canaryUntil, slot, s.now) {
      events, end := [], looked;
      assert Leads(slot, end, [], end);
    } else {
      events, end := LockAlone(slot, looked, t, spawn, v, s.likes, ok);
    }
    hide Leads;
    Before(slot, s, look, events, end);
    events := [look] + events;
  }

  /** A miss: the query, and the SET of what it answers. */
  lemma MissAlone(slot: Slot, s: State, t: TaskId, spawn: TaskId, rows: seq<ContentCount>, v: View, ok: bool,
                  query: bool, written: bool)
    returns (events: seq<Event>, end: State)
    requires t in s.tasks && s.tasks[t].pc.Lookup? && !s.tasks[t].background && spawn !in s.tasks
    requires Shows(s, slot, v, s.likes, s.now) && (ok ==> slot !in v.data)
    requires query && Cap(s.tasks[t].limit) >= 0
             ==> IsTop(rows, Groups(slot, s.likes, s.tasks[t].arrived), Cap(s.tasks[t].limit))
    ensures Leads(slot, s, events, end)
    ensures var found := query && Cap(s.tasks[t].limit) >= 0;
            && Shows(end, slot, if found
                     && written then Stored(v, slot, rows, s.now + FILL_CANARY) else v, s.likes, s.now)
            && Replies(end, t, spawn, if found then Ok(rows) else Err(DatabaseError), false, s.tasks[t].limit,
                       s.tasks[t].arrived)
  {
    hide Groups, IsTop;
    var look := Step(t, ok, spawn, []);
    var looked := Next(slot, s, look);
    events, end := QueryAlone(slot, looked, t, spawn, rows, v, s.likes, query, written);
    hide Leads;
    Before(slot, s, look, events, end);
    events := [look] + events;
  }

  /** A request whose steps are not interleaved with others' is `get_top_likes`, for every outcome the code allows. */
  lemma SoloRequestIsTheCode(
      slot: Slot, s: State, t: TaskId, spawn: TaskId, f: Faults, before: View, requested: int, after: View,
      r: Result<seq<ContentCount>, DomainError>, refresh: bool) returns (events: seq<Event>, end: State)
    requires t !in s.tasks && spawn !in s.tasks && t != spawn && Shows(s, slot, before, s.likes, s.now)
    requires IsTopLikesOutcome(f, s.likes, before, slot, requested, s.now, after, Some(r), refresh)
    ensures Leads(slot, s, events, end) && Shows(end, slot, after, s.likes, s.now)
    ensures Replies(end, t, spawn, r, refresh, requested, s.now)
  {
    hide Grouped, IsTop, Leads, Replies;
    var ok, second := f.cache(before.cacheCalls), f.cache(before.cacheCalls + 1);
    var arrive := Arrive(t, requested);
    var arrived := Next(slot, s, arrive);
    if ok && slot in before.data {
      events, end := HitAlone(slot, arrived, t, spawn, before, second);
    } else {
      var rows := if r.Ok? then r.value else [];
      events, end := MissAlone(slot, arrived, t, spawn, rows, before, ok, f.db(before.dbCalls), second);
    }
    Before(slot, s, arrive, events, end);
    events := [arrive] + events;
  }

  /** A background task whose steps are not interleaved with others' is the code's, for every outcome it allows. */
  lemma SoloRefreshIsTheCode(
      slot: Slot, s: State, t: TaskId, spawn: TaskId, f: Faults, before: View, since: Option<Time>, after: View)
    returns (events: seq<Event>, end: State)
    requires t in s.tasks && s.tasks[t].background && s.tasks[t].pc == Query && spawn !in s.tasks
    requires Since(slot.window, s.tasks[t].arrived) == Some(since) && Shows(s, slot, before, s.likes, s.now)
    requires IsRefreshOutcome(f, s.likes, before, slot, since, s.tasks[t].limit, s.now, after)
    ensures Leads(slot, s, events, end) && Shows(end, slot, after, s.likes, s.now)
    ensures t in end.tasks && end.tasks[t].pc == Ended
  {
    hide Grouped, IsTop;
    var rows: seq<ContentCount> := [];
    var queried := before.(dbCalls := before.dbCalls + 1);
    if QuerySucceeds(s.tasks[t], f.db(before.dbCalls)) {
      rows :| && IsTop(rows, Grouped(s.likes, AsOpt(slot.kind), since), Cap(s.tasks[t].limit))
              && var written := queried.(cacheCalls := queried.cacheCalls + 1);
                 after == if f.cache(queried.cacheCalls)
                     then Stored(written, slot, rows, s.now + RefreshCanary(slot.window)) else written;
    }
    events, end := QueryAlone(slot, s, t, spawn, rows, before, s.likes, f.db(before.dbCalls),
                              f.cache(before.cacheCalls));
  }
}
