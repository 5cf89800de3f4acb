/**
 The leaderboard: a cached list that never expires, a canary key whose absence makes it stale, and
 a refresh lock of ten seconds that lets one request start a background refresh.
 */
module Leaderboard {
  import opened Arithmetic
  import opened Likes
  import opened LikeService
  import opened ServiceSpec
  import opened TopLikes
  import opened Wrappers

  const MAX_LIMIT := 50
  const LOCK_TTL := 10
  const HOUR := 3600

  /** The key space of one (window, content type): its name omits the limit. */
  datatype Slot = Slot(window: string, kind: string)

  function AsOpt(kind: string): Option<string> {
    if kind == "all" then None else Some(kind)
  }

  /** The start of a time window, or nothing for a window that is not known. */
  function Since(window: string, now: Time): Option<Option<Time>> {
    if window == "24h" then Some(Some(now - 24 * HOUR))
    else if window == "7d" then Some(Some(now - 7 * 24 * HOUR))
    else if window == "30d" then Some(Some(now - 30 * 24 * HOUR))
    else if window == "all" then Some(None)
    else None
  }

  const FILL_CANARY := 30

  function RefreshCanary(window: string): nat { if window == "24h" then 30 else 300 }

  // ---------- the code ----------

  /** The leaderboard keys of Redis; `canaryUntil` and `lockUntil` are the expiry times. */
  class LeaderboardCache {
    const up: nat -> bool
    var calls: nat
    var data: map<Slot, seq<ContentCount>>
    var canaryUntil: map<Slot, Time>
    var lockUntil: map<Slot, Time>

    constructor (up: nat -> bool)
      ensures this.up == up && calls == 0 && data == map[] && canaryUntil == map[] && lockUntil == map[]
    {
      this.up := up;
      calls := 0;
      data, canaryUntil, lockUntil := map[], map[], map[];
    }

    method GetLeaderboardWithCanary(slot: Slot, now: Time) returns (items: Option<seq<ContentCount>>, isFresh: bool)
      modifies this`calls
      ensures calls == old(calls) + 1
      ensures !up(old(calls)) ==> items == None && !isFresh
      ensures up(old(calls))
              ==> items == (if slot in data then Some(data[slot]) else None) && isFresh == Alive(canaryUntil, slot, now)
    {
      var ok := up(calls);
      calls := calls + 1;
      if !ok { return None, false; }
      return if slot in data then Some(data[slot]) else None, Alive(canaryUntil, slot, now);
    }

    method SetLeaderboardWithCanary(slot: Slot, items: seq<ContentCount>, ttl: nat, now: Time)
      modifies this`calls, this`data, this`canaryUntil
      ensures calls == old(calls) + 1
      ensures data == if up(old(calls)) then old(data)[slot := items] else old(data)
      ensures canaryUntil == if up(old(calls)) then old(canaryUntil)[slot := now + ttl] else old(canaryUntil)
    {
      var ok := up(calls);
      calls := calls + 1;
      if ok {
        data := data[slot := items];
        canaryUntil := canaryUntil[slot := now + ttl];
      }
    }

    /** SET NX EX 10 */
    method AcquireRefreshLock(slot: Slot, now: Time) returns (acquired: bool)
      modifies this`calls, this`lockUntil
      ensures calls == old(calls) + 1
      ensures acquired == (up(old(calls)) && !Alive(old(lockUntil), slot, now))
      ensures lockUntil == if acquired then old(lockUntil)[slot := now + 10] else old(lockUntil)
    {
      acquired := up(calls) && !Alive(lockUntil, slot, now);
      calls := calls + 1;
      if acquired {
        lockUntil := lockUntil[slot := now + LOCK_TTL];
      }
    }
  }

  // ---------- the service ----------

  /** The keys of Redis and the numbers of commands sent so far. */
  datatype View = View(
    data: map<Slot, seq<ContentCount>>, canaryUntil: map<Slot, Time>, lockUntil: map<Slot, Time>, dbCalls: nat,
        cacheCalls: nat)

  function Cap(requested: int): int { Min(requested, MAX_LIMIT) }

  predicate Alive(until: map<Slot, Time>, slot: Slot, now: Time) {
    slot in until && now < until[slot]
  }

  function Stored(v: View, slot: Slot, items: seq<ContentCount>, until: Time): View {
    v.(data := v.data[slot := items], canaryUntil := v.canaryUntil[slot := until])
  }

  /**
   What `get_top_likes` does; `r` is nothing for an unknown window, and `refresh` says that a
   background task was started.
   */
  ghost predicate IsTopLikesOutcome(
      f: Faults, likes: Table, before: View, slot: Slot, requested: int, now: Time,
      after: View, r: Option<Result<seq<ContentCount>, DomainError>>, refresh: bool)
  {
    match Since(slot.window, now)
    case None => after == before && r == None && !refresh
    case Some(since) =>
      var asked := before.(cacheCalls := before.cacheCalls + 1);
      if f.cache(before.cacheCalls) && slot in before.data then
        && r == Some(Ok(before.data[slot]))
        && if Alive(before.canaryUntil, slot, now) then after == asked && !refresh else
             var tried := asked.(cacheCalls := asked.cacheCalls + 1);
             && refresh == (f.cache(asked.cacheCalls) && !Alive(before.lockUntil, slot, now))
             && after == if refresh then tried.(lockUntil := before.lockUntil[slot := now + LOCK_TTL]) else tried
      else
        var queried := asked.(dbCalls := before.dbCalls + 1);
        && !refresh
        && if !f.db(before.dbCalls) || Cap(requested) < 0 then r == Some(Err(DatabaseError)) && after == queried else
             && r.Some? && r.value.Ok?
             && IsTop(r.value.value, Grouped(likes, AsOpt(slot.kind), since), Cap(requested))
             && var written := queried.(cacheCalls := queried.cacheCalls + 1);
                after == if f.cache(queried.cacheCalls) then Stored(written, slot, r.value.value, now + FILL_CANARY)
                    else written
  }

  /** What the background task does; `since` was computed by the request that started it. */
  ghost predicate IsRefreshOutcome(
      f: Faults, likes: Table, before: View, slot: Slot, since: Option<Time>, requested: int, now: Time, after: View)
  {
    var queried := before.(dbCalls := before.dbCalls + 1);
    if !f.db(before.dbCalls) || Cap(requested) < 0 then after == queried else
      exists rows ::
        && IsTop(rows, Grouped(likes, AsOpt(slot.kind), since), Cap(requested))
        && var written := queried.(cacheCalls := queried.cacheCalls + 1);
           after == if f.cache(queried.cacheCalls) then Stored(written, slot, rows, now + RefreshCanary(slot.window))
               else written
  }

  /** Any window but the four is refused, with nothing sent to Redis or the database; those four are not refused. */
  lemma OtherWindowsAreRefused(
      f: Faults, likes: Table, before: View, slot: Slot, requested: int, now: Time,
      after: View, r: Option<Result<seq<ContentCount>, DomainError>>, refresh: bool)
    requires IsTopLikesOutcome(f, likes, before, slot, requested, now, after, r, refresh)
    ensures r == None <==> slot.window != "24h" && slot.window != "7d" && slot.window != "30d" && slot.window != "all"
    ensures r == None ==> after == before && !refresh
  {
    hide IsTop, Grouped;
  }

  // ---------- a top list in plain numbers ----------

  /** A window's start: a day, a week or 30 days before `asked`, in seconds, or none. */
  function SecondsBefore(window: string, asked: Time): Option<Time> {
    if window == "24h" then Some(asked - 86400)
    else if window == "7d" then Some(asked - 604800)
    else if window == "30d" then Some(asked - 2592000)
    else None
  }

  /**
   Of the likes there are, those count that are of the kind asked for and not older than the window. Every
   listed content has as many such likes as the list says, larger numbers come first, at most 50 contents
   are listed, and one is left out only if the list is as long as 50 or the request allow, for no more likes.
   */
  ghost predicate ListsRecentLikes(
      rows: seq<ContentCount>, likes: Table, kind: string, window: string, asked: Time, requested: int)
  {
    var since := SecondsBefore(window, asked);
    var limit := if requested < 50 then requested else 50;
    && |rows| <= limit
    && (forall i, j :: 0 <= i < j < |rows| ==> rows[i].content != rows[j].content && rows[i].count >= rows[j].count)
    && (forall i :: 0 <= i < |rows| ==>
          && (kind == "all" || rows[i].content.kind == kind) && rows[i].count >= 1
          && rows[i].count
             == |set k | k in likes && k.content == rows[i].content
                         && (since.None? || likes[k].createdAt >= since.value) :: k.user|)
    && (forall k ::
          && k in likes && (kind == "all" || k.content.kind == kind)
          && (since.None? || likes[k].createdAt >= since.value)
          && (forall i :: 0 <= i < |rows| ==> rows[i].content != k.content)
          ==> && |rows| == limit
              && forall i :: 0 <= i < |rows| ==>
                   rows[i].count
                   >= |set l | l in likes && l.content == k.content
                               && (since.None? || likes[l].createdAt >= since.value) :: l.user|)
  }

  lemma TopIsRecent(rows: seq<ContentCount>, likes: Table, kind: string, window: string, asked: Time, requested: int)
    requires IsTop(rows, Grouped(likes, if kind == "all" then None else Some(kind), SecondsBefore(window, asked)),
                   Cap(requested))
    ensures ListsRecentLikes(rows, likes, kind, window, asked, requested)
  {
    hide IsTop, Grouped, SecondsBefore;
    TopListIs(rows, likes, if kind == "all" then None else Some(kind), SecondsBefore(window, asked), Cap(requested));
  }

  /**
   A request for a known window fails exactly if it misses and the query fails, be it for a negative limit,
   and then with the database's error, nothing but the counted commands having changed.
   */
  lemma TopLikesFailExactlyIf(
      f: Faults, likes: Table, before: View, slot: Slot, requested: int, now: Time,
      after: View, r: Option<Result<seq<ContentCount>, DomainError>>, refresh: bool)
    requires IsTopLikesOutcome(f, likes, before, slot, requested, now, after, r, refresh) && r.Some?
    ensures r.value.Err? <==>
              (slot !in before.data || !f.cache(before.cacheCalls)) && (!f.db(before.dbCalls) || requested < 0)
    ensures r.value.Err? ==>
              && r.value.error == DatabaseError && !refresh
              && after.data == before.data && after.canaryUntil == before.canaryUntil
              && after.lockUntil == before.lockUntil
  {
    hide IsTop, Grouped;
  }

  /** What a request that misses is answered. */
  lemma MissListsRecentLikes(
      f: Faults, likes: Table, before: View, slot: Slot, requested: int, now: Time,
      after: View, r: Option<Result<seq<ContentCount>, DomainError>>, refresh: bool)
    requires IsTopLikesOutcome(f, likes, before, slot, requested, now, after, r, refresh)
    requires r.Some? && r.value.Ok? && (slot !in before.data || !f.cache(before.cacheCalls))
    ensures ListsRecentLikes(r.value.value, likes, slot.kind, slot.window, now, requested)
  {
    hide IsTop, Grouped, ListsRecentLikes;
    TopIsRecent(r.value.value, likes, slot.kind, slot.window, now, requested);
  }

  class LeaderboardService {
    const db: PostgresLikeRepository
    const cache: LeaderboardCache

    constructor (db: PostgresLikeRepository, cache: LeaderboardCache)
      ensures this.db == db && this.cache == cache
    {
      this.db, this.cache := db, cache;
    }

    ghost function Env(): Faults { Faults(db.up, cache.up) }

    ghost function Keys(): View
      reads db, cache
    {
      View(cache.data, cache.canaryUntil, cache.lockUntil, db.calls, cache.calls)
    }

    method GetTopLikes(kind: string, window: string, requested: int, now: Time)
      returns (r: Option<Result<seq<ContentCount>, DomainError>>, refresh: bool)
      modifies db`calls, cache
      ensures IsTopLikesOutcome(Env(), db.likes, old(Keys()), Slot(window, kind), requested, now, Keys(), r, refresh)
    {
      hide IsTop, Grouped;
      var limit := Cap(requested);
      refresh := false;
      var start := Since(window, now);
      if start == None {
        return None, false;
      }
      var slot := Slot(window, kind);
      var cached, isFresh := cache.GetLeaderboardWithCanary(slot, now);
      if cached.Some? {
        if !isFresh {
          refresh := cache.AcquireRefreshLock(slot, now);
        }
        return Some(Ok(cached.value)), refresh;
      }
      var items := db.GetTopLikes(AsOpt(kind), start.value, limit);
      if items.Ok? {
        cache.SetLeaderboardWithCanary(slot, items.value, FILL_CANARY, now);
      }
      r := Some(items);
    }

    method Refresh(kind: string, window: string, start: Option<Time>, requested: int, now: Time)
      modifies db`calls, cache`calls, cache`data, cache`canaryUntil
      ensures IsRefreshOutcome(Env(), db.likes, old(Keys()), Slot(window, kind), start, requested, now, Keys())
    {
      hide IsTop, Grouped;
      var items := db.GetTopLikes(AsOpt(kind), start, Cap(requested));
      if items.Ok? {
        cache.SetLeaderboardWithCanary(Slot(window, kind), items.value, RefreshCanary(window), now);
      }
    }
  }
}
