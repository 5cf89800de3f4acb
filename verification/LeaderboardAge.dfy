/** How old the likes are that a list served from the cache shows. */
module LeaderboardAge {
  import opened Leaderboard
  import opened LeaderboardRuns
  import opened Likes
  import opened TopLikes
  import opened Wrappers

  /** Seconds between the query of a served list and its lookup in the cache. */
  function Age(pc: Pc): int
    requires pc.Served?
  {
    pc.at - pc.list.asked
  }

  /** Every SET that succeeds comes at most `delay` seconds after the query of its list. */
  ghost predicate Prompt(slot: Slot, s: State, events: seq<Event>, delay: nat)
    requires Possible(slot, s, events)
    decreases |events|
  {
    events == [] || (PromptEvent(s, events[0], delay) && Prompt(slot, Next(slot, s, events[0]), events[1..], delay))
  }

  predicate PromptEvent(s: State, e: Event, delay: nat) {
    e.Step? && e.ok && e.t in s.tasks && s.tasks[e.t].pc.Write? ==> s.now - s.tasks[e.t].pc.list.asked <= delay
  }

  // ---------- how old a list can be ----------

  ghost predicate WrittenPromptly(s: State, delay: nat) {
    forall i :: 0 <= i < |s.writes| ==> s.writes[i].at - s.writes[i].list.asked <= delay
  }

  lemma WrittenPromptlyNext(slot: Slot, s: State, e: Event, delay: nat)
    requires Enabled(slot, s, e) && PromptEvent(s, e, delay) && WrittenPromptly(s, delay)
    ensures WrittenPromptly(Next(slot, s, e), delay)
  {
    hide IsTop, Groups;
  }

  lemma {:induction false} WrittenPromptlyAlongRun(slot: Slot, s: State, events: seq<Event>, delay: nat)
    requires Possible(slot, s, events) && Prompt(slot, s, events, delay) && WrittenPromptly(s, delay)
    ensures WrittenPromptly(Exec(slot, s, events), delay)
    decreases |events|
  {
    hide Enabled, Next, WrittenPromptly, PromptEvent;
    if events != [] {
      WrittenPromptlyNext(slot, s, events[0], delay);
      WrittenPromptlyAlongRun(slot, Next(slot, s, events[0]), events[1..], delay);
    }
  }

  ghost predicate ServedFromCache(slot: Slot, s: State, events: seq<Event>, t: TaskId, how: How)
    requires Possible(slot, s, events)
  {
    IsServed(slot, s, events, t) && Exec(slot, s, events).tasks[t].pc.how == how
  }

  /** Lists served this way are younger than `bound`, if every SET comes within `delay` seconds of its query. */
  ghost predicate YoungerThan(slot: Slot, how: How, delay: nat, bound: int) {
    forall s, events, t ::
      Start(s) && Possible(slot, s, events) && Prompt(slot, s, events, delay)
          && ServedFromCache(slot, s, events, t, how)
      ==> Age(Exec(slot, s, events).tasks[t].pc) < bound
  }

  lemma FreshIsYoung(slot: Slot, s: State, events: seq<Event>, t: TaskId, delay: nat)
    requires Start(s) && Possible(slot, s, events) && Prompt(slot, s, events, delay)
    requires ServedFromCache(slot, s, events, t, Fresh)
    ensures Age(Exec(slot, s, events).tasks[t].pc) < (if slot.window == "24h" then 30 else 300) + delay
  {
    FreshExactlyWhileCanaryLives(slot, s, events, t);
    WrittenPromptlyAlongRun(slot, s, events, delay);
  }

  // ---------- runs that reach that age ----------

  ghost predicate Leads(slot: Slot, delay: nat, s: State, events: seq<Event>, end: State) {
    Possible(slot, s, events) && Exec(slot, s, events) == end && Prompt(slot, s, events, delay)
  }

  lemma {:induction false} Append(slot: Slot, delay: nat, s: State, events: seq<Event>, e: Event)
    requires Possible(slot, s, events) && Prompt(slot, s, events, delay)
    requires Enabled(slot, Exec(slot, s, events), e) && PromptEvent(Exec(slot, s, events), e, delay)
    ensures Leads(slot, delay, s, events + [e], Next(slot, Exec(slot, s, events), e))
    decreases |events|
  {
    hide Next, Enabled, PromptEvent;
    if events == [] {
      var next := Next(slot, s, e);
      assert events + [e] == [e] && [e][1..] == [];
      assert Possible(slot, next, []) && Exec(slot, next, []) == next && Prompt(slot, next, [], delay);
    } else {
      Append(slot, delay, Next(slot, s, events[0]), events[1..], e);
      assert (events + [e])[1..] == events[1..] + [e];
    }
  }

  lemma Then(slot: Slot, delay: nat, s: State, events: seq<Event>, at: State, e: Event)
    returns (more: seq<Event>, next: State)
    requires Leads(slot, delay, s, events, at) && Enabled(slot, at, e) && PromptEvent(at, e, delay)
    ensures Leads(slot, delay, s, more, next) && next == Next(slot, at, e)
  {
    Append(slot, delay, s, events, e);
    more, next := events + [e], Next(slot, at, e);
  }

  /** Nobody has liked anything, and the empty list is the top for every limit. */
  function Nobody(): State {
    State(0, map[], None, None, None, map[], [], [])
  }

  lemma EmptyTop(slot: Slot, arrived: Time)
    ensures IsTop([], Groups(slot, map[], arrived), 1)
  {
    var groups := Groups(slot, map[], arrived);
    assert groups == map[];
  }

  function Ask(t: TaskId): Event { Arrive(t, 1) }

  function Do(t: TaskId, spawn: TaskId): Event { Step(t, true, spawn, []) }

  /** A request that misses, queries, and fills the cache at once. */
  lemma FillAtOnce(slot: Slot, delay: nat) returns (events: seq<Event>, end: State)
    ensures Leads(slot, delay, Nobody(), events, end)
    ensures end == Nobody().(
              data := Some(Listing([], 0)), canaryUntil := Some(FILL_CANARY),
              writes := [Written(0, FILL_CANARY, Listing([], 0), false)],
              tasks := map[0 := Task(1, 0, false, Served(Listing([], 0), Filled, 0, 0))])
  {
    hide IsTop, Groups;
    EmptyTop(slot, 0);
    var s := Nobody();
    assert Leads(slot, delay, s, [], s);
    events, end := Then(slot, delay, s, [], s, Ask(0));
    events, end := Then(slot, delay, s, events, end, Do(0, 2));
    events, end := Then(slot, delay, s, events, end, Do(0, 2));
    events, end := Then(slot, delay, s, events, end, Do(0, 2));
  }

  /** A request at `now`, after the canary has died: it is served the old list, and starts a refresh. */
  lemma StaleHit(slot: Slot, delay: nat, now: Time) returns (events: seq<Event>, end: State)
    requires now >= FILL_CANARY
    ensures Leads(slot, delay, Nobody(), events, end)
    ensures end == Nobody().(
              now := now, data := Some(Listing([], 0)), canaryUntil := Some(FILL_CANARY),
              lockUntil := Some(now + LOCK_TTL), refreshes := [now],
                  writes := [Written(0, FILL_CANARY, Listing([], 0), false)],
              tasks := map[0 := Task(1, 0, false, Served(Listing([], 0), Filled, 0, 0)),
                           1 := Task(1, now, false, Served(Listing([], 0), Stale, now, 1)),
                           2 := Task(1, now, true, Query)])
  {
    hide IsTop, Groups, Leads;
    var s := Nobody();
    events, end := FillAtOnce(slot, delay);
    events, end := Then(slot, delay, s, events, end, Wait(now));
    events, end := Then(slot, delay, s, events, end, Ask(1));
    events, end := Then(slot, delay, s, events, end, Do(1, 2));
    events, end := Then(slot, delay, s, events, end, Do(1, 2));
  }

  /** The refresh writes `delay` seconds after its query. */
  lemma SlowRefresh(slot: Slot, delay: nat) returns (events: seq<Event>, end: State)
    ensures Leads(slot, delay, Nobody(), events, end)
    ensures end.now == FILL_CANARY + delay && end.data == Some(Listing([], FILL_CANARY))
    ensures end.canaryUntil == Some(FILL_CANARY + delay + RefreshCanary(slot.window))
    ensures 3 !in end.tasks && 4 !in end.tasks
  {
    EmptyTop(slot, FILL_CANARY);
    hide IsTop, Groups, Leads;
    var s := Nobody();
    events, end := StaleHit(slot, delay, FILL_CANARY);
    events, end := Then(slot, delay, s, events, end, Do(2, 3));
    events, end := Then(slot, delay, s, events, end, Wait(FILL_CANARY + delay));
    events, end := Then(slot, delay, s, events, end, Do(2, 3));
  }

  /** In the canary's last second the refreshed list is still served as fresh. */
  lemma OldFreshHit(slot: Slot, delay: nat) returns (events: seq<Event>, end: State)
    ensures Leads(slot, delay, Nobody(), events, end)
    ensures 3 in end.tasks && end.tasks[3].pc.Served? && end.tasks[3].pc.how == Fresh
    ensures Age(end.tasks[3].pc) == RefreshCanary(slot.window) + delay - 1
  {
    hide IsTop, Groups, Leads;
    var s := Nobody();
    events, end := SlowRefresh(slot, delay);
    events, end := Then(slot, delay, s, events, end, Wait(FILL_CANARY + delay + RefreshCanary(slot.window) - 1));
    events, end := Then(slot, delay, s, events, end, Ask(3));
    events, end := Then(slot, delay, s, events, end, Do(3, 4));
  }

  /**
   A list served as fresh shows likes younger than `bound` seconds exactly if the bound leaves room for the
   canary of a refresh, 30 seconds for the day and 300 for longer windows, and for the delay between the
   refresh's query and its SET.
   */
  lemma FreshAgeExactly(slot: Slot, delay: nat, bound: int)
    ensures YoungerThan(slot, Fresh, delay, bound) <==> (if slot.window == "24h" then 30 else 300) + delay <= bound
  {
    hide Possible, Exec, Prompt;
    if (if slot.window == "24h" then 30 else 300) + delay <= bound {
      forall s, events, t |
          Start(s) && Possible(slot, s, events) && Prompt(slot, s, events, delay)
              && ServedFromCache(slot, s, events, t, Fresh)
        ensures Age(Exec(slot, s, events).tasks[t].pc) < bound
      {
        FreshIsYoung(slot, s, events, t, delay);
      }
    } else {
      var events, end := OldFreshHit(slot, delay);
      assert Start(Nobody()) && ServedFromCache(slot, Nobody(), events, 3, Fresh);
    }
  }

  /** A list served stale, while its refresh is only starting, has no greatest age, however prompt the SETs are. */
  lemma StaleHasNoAgeBound(slot: Slot, delay: nat, bound: int)
    ensures !YoungerThan(slot, Stale, delay, bound)
  {
    hide Possible, Exec, Prompt;
    var now := if bound >= FILL_CANARY then bound else FILL_CANARY;
    var events, end := StaleHit(slot, delay, now);
    assert Start(Nobody()) && ServedFromCache(slot, Nobody(), events, 1, Stale);
    assert Age(end.tasks[1].pc) == now;
  }

  // ---------- how close refreshes can be ----------

  /** Any two background refreshes of a run start at least `gap` seconds apart. */
  ghost predicate RefreshesApart(slot: Slot, gap: int) {
    forall s, events, i, j ::
      Start(s) && Possible(slot, s, events) && 0 <= i < j < |Exec(slot, s, events).refreshes|
      ==> Exec(slot, s, events).refreshes[j] - Exec(slot, s, events).refreshes[i] >= gap
  }

  /** A refresh that has not written anything after ten seconds; the next stale hit starts another. */
  lemma RefreshAgain(slot: Slot) returns (events: seq<Event>, end: State)
    ensures Leads(slot, 0, Nobody(), events, end) && end.refreshes == [30, 40]
  {
    hide IsTop, Groups, Leads;
    var s := Nobody();
    events, end := StaleHit(slot, 0, 30);
    events, end := Then(slot, 0, s, events, end, Wait(40));
    events, end := Then(slot, 0, s, events, end, Ask(3));
    events, end := Then(slot, 0, s, events, end, Do(3, 4));
    events, end := Then(slot, 0, s, events, end, Do(3, 4));
  }

  /** Background refreshes start ten seconds apart, and not more. */
  lemma RefreshesTenSecondsApart(slot: Slot, gap: int)
    ensures RefreshesApart(slot, gap) <==> gap <= 10
  {
    hide Possible, Exec, Prompt;
    if gap <= 10 {
      forall s, events, i, j |
          Start(s) && Possible(slot, s, events) && 0 <= i < j < |Exec(slot, s, events).refreshes|
        ensures Exec(slot, s, events).refreshes[j] - Exec(slot, s, events).refreshes[i] >= gap
      {
        RefreshesSpacedAlongRun(slot, s, events);
      }
    } else {
      var events, end := RefreshAgain(slot);
      assert Start(Nobody()) && end.refreshes[1] - end.refreshes[0] == 10;
    }
  }
}
