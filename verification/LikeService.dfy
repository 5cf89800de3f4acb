/** The like service, its database repository and its Redis repository, as the source changes their fields. */
module LikeService {
  import opened Likes
  import opened Pagination
  import opened ServiceSpec
  import opened TopLikes
  import opened Wrappers

  // ---------- the repositories ----------

  class PostgresLikeRepository {
    const up: nat -> bool
    var likes: Table
    var calls: nat

    constructor (up: nat -> bool)
      ensures this.up == up && likes == map[] && calls == 0
    {
      this.up := up;
      likes, calls := map[], 0;
    }

    method Save(key: Key, stamp: Stamp) returns (r: Result<bool, DomainError>)
      modifies this
      ensures calls == old(calls) + 1
      ensures !up(old(calls)) ==> r == Err(DatabaseError) && likes == old(likes)
      ensures up(old(calls)) ==> r == Ok(key in old(likes))
      ensures up(old(calls)) && key in old(likes) ==> likes == old(likes)
      ensures up(old(calls)) && key !in old(likes) ==> likes == old(likes)[key := stamp]
    {
      var ok := up(calls);
      calls := calls + 1;
      if !ok { return Err(DatabaseError); }
      var affected := 0;
      if key !in likes {
        likes := likes[key := stamp];
        affected := 1;
      }
      return Ok(affected == 0);
    }

    method Remove(key: Key) returns (r: Result<bool, DomainError>)
      modifies this
      ensures calls == old(calls) + 1
      ensures !up(old(calls)) ==> r == Err(DatabaseError) && likes == old(likes)
      ensures up(old(calls)) ==> r == Ok(key in old(likes)) && likes == old(likes) - {key}
    {
      var ok := up(calls);
      calls := calls + 1;
      if !ok { return Err(DatabaseError); }
      var affected := if key in likes then 1 else 0;
      likes := likes - {key};
      return Ok(affected > 0);
    }

    method GetLike(key: Key) returns (r: Result<Stamp, DomainError>)
      modifies this`calls
      ensures calls == old(calls) + 1
      ensures r == if up(old(calls)) && key in likes then Ok(likes[key]) else Err(DatabaseError)
    {
      var ok := up(calls);
      calls := calls + 1;
      return if ok && key in likes then Ok(likes[key]) else Err(DatabaseError);
    }

    method GetLikesCount(c: Content) returns (r: Result<nat, DomainError>)
      modifies this`calls
      ensures calls == old(calls) + 1
      ensures r == if up(old(calls)) then Ok(Count(likes, c)) else Err(DatabaseError)
    {
      var ok := up(calls);
      calls := calls + 1;
      return if ok then Ok(Count(likes, c)) else Err(DatabaseError);
    }

    /** The grouped join, built by going through the input rows; no items, no query. */
    method GetCountsBatch(items: seq<Content>) returns (r: Result<seq<ContentCount>, DomainError>)
      modifies this`calls
      ensures items == [] ==> r == Ok([]) && calls == old(calls)
      ensures items != [] ==> calls == old(calls) + 1
      ensures items != [] && !up(old(calls)) ==> r == Err(DatabaseError)
      ensures items != [] && up(old(calls)) ==> r.Ok? && IsGroupedJoin(likes, items, r.value)
    {
      if items == [] { return Ok([]); }
      var ok := up(calls);
      calls := calls + 1;
      if !ok { return Err(DatabaseError); }
      var rows: seq<ContentCount> := [];
      for i := 0 to |items|
        invariant calls == old(calls) + 1
        invariant IsGroupedJoin(likes, items[..i], rows)
      {
        var c := items[i];
        assert items[..i + 1] == items[..i] + [c];
        var j := 0;
        while j < |rows| && rows[j].content != c
          invariant 0 <= j <= |rows|
          invariant forall k :: 0 <= k < j ==> rows[k].content != c
        {
          j := j + 1;
        }
        ghost var before := rows;
        if j < |rows| {
          rows := rows[j := ContentCount(c, rows[j].count + Count(likes, c))];
        } else {
          rows := rows + [ContentCount(c, Count(likes, c))];
        }
        GroupingStep(likes, items[..i], c, before, rows);
      }
      assert items[..|items|] == items;
      return Ok(rows);
    }

    method GetUserLikes(user: UserId, filter: Option<string>, cursor: Option<Stamp>, n: nat)
      returns (r: Result<seq<Row>, DomainError>)
      requires UniqueIds(likes)
      modifies this`calls
      ensures calls == old(calls) + 1
      ensures r == if up(old(calls)) then Ok(Query(likes, user, filter, cursor, n)) else Err(DatabaseError)
    {
      var ok := up(calls);
      calls := calls + 1;
      if !ok { return Err(DatabaseError); }
      MatchingOrdered(likes, user, filter, cursor);
      var rows := NewestFirst(Matching(likes, user, filter, cursor), n);
      return Ok(rows);
    }

    /** The leaderboard query; a negative LIMIT is an error of the database. */
    method GetTopLikes(kind: Option<string>, since: Option<Time>, limit: int)
      returns (r: Result<seq<ContentCount>, DomainError>)
      modifies this`calls
      ensures calls == old(calls) + 1
      ensures r.Ok? <==> up(old(calls)) && limit >= 0
      ensures r.Err? ==> r.error == DatabaseError
      ensures r.Ok? ==> IsTop(r.value, Grouped(likes, kind, since), limit)
    {
      var ok := up(calls);
      calls := calls + 1;
      if !ok || limit < 0 { return Err(DatabaseError); }
      var rows := MostLiked(Grouped(likes, kind, since), limit);
      return Ok(rows);
    }
  }

  /** The counter keys of Redis. */
  class RedisLikeRepository {
    const up: nat -> bool
    var counts: map<Content, int>
    var calls: nat

    constructor (up: nat -> bool)
      ensures this.up == up && counts == map[] && calls == 0
    {
      this.up := up;
      counts, calls := map[], 0;
    }

    method GetCount(c: Content) returns (r: Result<Option<nat>, DomainError>)
      modifies this`calls
      ensures calls == old(calls) + 1
      ensures r == if up(old(calls)) then Parsed(counts, c) else Err(CacheError)
    {
      var ok := up(calls);
      calls := calls + 1;
      return if ok then Parsed(counts, c) else Err(CacheError);
    }

    /** INCR for `delta` 1, DECR for -1. */
    method Bump(c: Content, delta: int) returns (r: Result<nat, DomainError>)
      modifies this
      ensures calls == old(calls) + 1
      ensures !up(old(calls)) ==> r == Err(CacheError) && counts == old(counts)
      ensures var value := (if c in old(counts) then old(counts)[c] else 0) + delta;
              up(old(calls)) ==>
                counts == old(counts)[c := value] && r == if value < 0 then Err(CacheError) else Ok(value)
    {
      var ok := up(calls);
      calls := calls + 1;
      if !ok { return Err(CacheError); }
      var value := (if c in counts then counts[c] else 0) + delta;
      counts := counts[c := value];
      return if value < 0 then Err(CacheError) else Ok(value);
    }

    method SetValue(c: Content, value: nat) returns (r: Result<(), DomainError>)
      modifies this
      ensures calls == old(calls) + 1
      ensures !up(old(calls)) ==> r == Err(CacheError) && counts == old(counts)
      ensures up(old(calls)) ==> r == Ok(()) && counts == old(counts)[c := value]
    {
      var ok := up(calls);
      calls := calls + 1;
      if !ok { return Err(CacheError); }
      counts := counts[c := value];
      return Ok(());
    }

    method GetCountsBatch(items: seq<Content>) returns (r: Result<map<nat, nat>, DomainError>)
      modifies this`calls
      ensures calls == if items == [] then old(calls) else old(calls) + 1
      ensures r == if items == [] then Ok(map[])
                   else if up(old(calls)) && MgetParses(counts, items) then Ok(HitsById(counts, items))
                   else Err(CacheError)
    {
      if items == [] { return Ok(map[]); }
      var ok := up(calls);
      calls := calls + 1;
      if !ok { return Err(CacheError); }
      var result: map<nat, nat> := map[];
      for i := 0 to |items|
        invariant calls == old(calls) + 1
        invariant MgetParses(counts, items[..i]) && result == HitsById(counts, items[..i])
      {
        assert items[..i + 1][..i] == items[..i];
        if items[i] in counts {
          if counts[items[i]] < 0 {
            assert !MgetParses(counts, items);
            return Err(CacheError);
          }
          result := result[items[i].id := counts[items[i]]];
        }
      }
      assert items[..|items|] == items;
      return Ok(result);
    }

    method SetCountsBatch(rows: seq<ContentCount>) returns (r: Result<(), DomainError>)
      modifies this
      ensures calls == if rows == [] then old(calls) else old(calls) + 1
      ensures counts == if rows != [] && !up(old(calls)) then old(counts) else Rehydrated(old(counts), rows)
      ensures r == if rows != [] && !up(old(calls)) then Err(CacheError) else Ok(())
    {
      if rows == [] { return Ok(()); }
      var pipe := counts;
      for i := 0 to |rows|
        invariant calls == old(calls) && counts == old(counts)
        invariant pipe == Rehydrated(counts, rows[..i])
      {
        assert rows[..i + 1][..i] == rows[..i];
        pipe := pipe[rows[i].content := rows[i].count];
      }
      assert rows[..|rows|] == rows;
      var ok := up(calls);
      calls := calls + 1;
      if !ok { return Err(CacheError); }
      counts := pipe;
      return Ok(());
    }
  }

  // ---------- the service ----------

  /** Indexing the items with `limit - 1` panics for a limit of 0. */
  datatype PageReply = Replied(page: Result<Page, DomainError>) | Panicked

  class LikeService {
    const db: PostgresLikeRepository
    const cache: RedisLikeRepository
    /** The keys of `flight_locks`; with one operation at a time nobody waits for a mutex. */
    var flightLocks: set<Content>

    constructor (db: PostgresLikeRepository, cache: RedisLikeRepository)
      ensures this.db == db && this.cache == cache && flightLocks == {}
    {
      this.db, this.cache := db, cache;
      flightLocks := {};
    }

    ghost function Env(): Faults { Faults(db.up, cache.up) }

    ghost function View(): World
      reads this, db, cache
    {
      World(db.likes, cache.counts, flightLocks, db.calls, cache.calls)
    }

    method GetCacheLikeCount(c: Content) returns (count: Option<nat>)
      modifies cache`calls
      ensures (View(), count) == Cached(Env(), old(View()), c)
    {
      var got := cache.GetCount(c);
      count := if got.Ok? then got.value else None;
    }

    method GetLikeCountWithFallback(c: Content) returns (r: Result<nat, DomainError>)
      modifies this, db, cache
      ensures (View(), r) == ReadCount(Env(), old(View()), c)
    {
      var count := GetCacheLikeCount(c);
      if count.Some? {
        return Ok(count.value);
      }
      flightLocks := flightLocks + {c};
      count := GetCacheLikeCount(c);
      if count.Some? {
        flightLocks := flightLocks - {c};
        return Ok(count.value);
      }
      r := db.GetLikesCount(c);
      if r.Err? {
        return r;
      }
      var _ := cache.SetValue(c, r.value);
      flightLocks := flightLocks - {c};
    }

    method AddLike(key: Key, stamp: Stamp, invalid: bool) returns (r: Result<Added, DomainError>)
      modifies this, db, cache
      ensures (View(), r) == Add(Env(), old(View()), key, stamp, invalid)
    {
      hide ReadCount;
      if invalid {
        return Err(InvalidContent);
      }
      var createdAt := stamp.createdAt;
      var saved := db.Save(key, stamp);
      if saved.Err? { return Err(saved.error); }
      var alreadyExists := saved.value;
      var count: nat;
      if alreadyExists {
        var read := GetLikeCountWithFallback(key.content);
        if read.Err? { return Err(read.error); }
        count := read.value;
        var existed := db.GetLike(key);
        if existed.Err? { return Err(existed.error); }
        createdAt := existed.value.createdAt;
      } else {
        var bumped := cache.Bump(key.content, 1);
        if bumped.Ok? {
          count := bumped.value;
        } else {
          var counted := db.GetLikesCount(key.content);
          if counted.Err? { return Err(counted.error); }
          count := counted.value;
        }
      }
      return Ok(Added(count, createdAt, alreadyExists));
    }

    method RemoveLike(key: Key, invalid: bool) returns (r: Result<Removed, DomainError>)
      modifies this, db, cache
      ensures (View(), r) == ServiceSpec.Remove(Env(), old(View()), key, invalid)
    {
      hide ReadCount;
      if invalid {
        return Err(InvalidContent);
      }
      var removed := db.Remove(key);
      if removed.Err? { return Err(removed.error); }
      var wasLiked := removed.value;
      var read := GetLikeCountWithFallback(key.content);
      if read.Err? { return Err(read.error); }
      var currCount := read.value;
      if !wasLiked {
        return Ok(Removed(wasLiked, currCount));
      }
      if currCount != 0 {
        var bumped := cache.Bump(key.content, -1);
        if bumped.Ok? {
          currCount := bumped.value;
        } else {
          var counted := db.GetLikesCount(key.content);
          if counted.Err? { return Err(counted.error); }
          currCount := counted.value;
        }
      }
      return Ok(Removed(wasLiked, currCount));
    }

    /** The first loop of `get_likes_count_batch`: cached items are answered, the others collected. */
    method Partition(items: seq<Content>, cachedCounts: map<nat, nat>)
      returns (results: seq<ContentCount>, missingItems: seq<Content>)
      ensures results == Served(items, cachedCounts) && missingItems == Missing(items, cachedCounts)
    {
      results, missingItems := [], [];
      for i := 0 to |items|
        invariant results == Served(items[..i], cachedCounts) && missingItems == Missing(items[..i], cachedCounts)
      {
        var item := items[i];
        assert items[..i + 1][..i] == items[..i];
        if item.id in cachedCounts {
          results := results + [ContentCount(item, cachedCounts[item.id])];
        } else {
          missingItems := missingItems + [item];
        }
      }
      assert items[..|items|] == items;
    }

    /** The second loop: a lock key is inserted for every missing item, and the new ones are to be fetched. */
    method LockMissing(missingItems: seq<Content>) returns (toFetch: seq<Content>)
      modifies this
      ensures flightLocks == old(flightLocks) + SetOf(missingItems)
      ensures toFetch == ToFetch(missingItems, old(flightLocks))
    {
      toFetch := [];
      for i := 0 to |missingItems|
        invariant flightLocks == old(flightLocks) + SetOf(missingItems[..i])
        invariant toFetch == ToFetch(missingItems[..i], old(flightLocks))
      {
        var item := missingItems[i];
        assert missingItems[..i + 1][..i] == missingItems[..i];
        assert SetOf(missingItems[..i + 1]) == SetOf(missingItems[..i]) + {item};
        if item !in flightLocks {
          toFetch := toFetch + [item];
        }
        flightLocks := flightLocks + {item};
      }
      assert missingItems[..|missingItems|] == missingItems;
    }

    /** `job` is what the spawned background task will write. */
    method GetLikesCountBatch(items: seq<Content>)
      returns (r: Result<seq<ContentCount>, DomainError>, job: Option<seq<ContentCount>>)
      modifies this, db, cache
      ensures IsBatchOutcome(Env(), old(View()), items, View(), r, job)
    {
      hide HitsById, Served, Missing, ToFetch, SetOf, IsGroupedJoin;
      if |items| > MAX_BATCH {
        return Err(BatchTooLarge(|items|)), None;
      }
      var mget := cache.GetCountsBatch(items);
      var results, missingItems := Partition(items, if mget.Ok? then mget.value else map[]);
      var toFetch := LockMissing(missingItems);
      job := None;
      r := Ok(results);
      if toFetch != [] {
        var dbCounts := db.GetCountsBatch(toFetch);
        if dbCounts.Err? {
          return Err(dbCounts.error), None;
        }
        r := Ok(results + dbCounts.value);
        job := Some(dbCounts.value);
      }
    }

    /**
     The background task: it writes the counts and then removes the keys from its own copy of the
     lock map, so the map of the service keeps them.
     */
    method Rehydrate(rows: seq<ContentCount>, lockedKeys: seq<Content>)
      modifies cache
      ensures cache.counts == if rows != [] && !cache.up(old(cache.calls)) then old(cache.counts)
              else Rehydrated(old(cache.counts), rows)
      ensures cache.calls == if rows == [] then old(cache.calls) else old(cache.calls) + 1
    {
      var rehydrationSet := flightLocks;
      var _ := cache.SetCountsBatch(rows);
      for i := 0 to |lockedKeys|
        invariant cache.calls == if rows == [] then old(cache.calls) else old(cache.calls) + 1
        invariant cache.counts == if rows != [] && !cache.up(old(cache.calls)) then old(cache.counts)
                  else Rehydrated(old(cache.counts), rows)
      {
        rehydrationSet := rehydrationSet - {lockedKeys[i]};
      }
    }

    method GetUserLikedItems(user: UserId, filter: Option<string>, cursorText: Option<CursorText>, limit: nat)
      returns (r: PageReply)
      requires UniqueIds(db.likes)
      modifies db`calls
      ensures cursorText == Some(Malformed) ==> r == Replied(Err(InvalidCursor)) && db.calls == old(db.calls)
      ensures cursorText != Some(Malformed) ==>
                var cursor := if cursorText.None? then None else Some(cursorText.value.stamp);
                && db.calls == old(db.calls) + 1
                && r == if !db.up(old(db.calls)) then Replied(Err(DatabaseError))
                        else if limit >= 1 then Replied(Ok(Fetch(db.likes, user, filter, cursor, limit)))
                        else if Matching(db.likes, user, filter, cursor) == {} then Replied(Ok(Page([], None)))
                        else Panicked
    {
      var cursor: Option<Stamp> := None;
      if cursorText.Some? {
        if cursorText.value.Malformed? { return Replied(Err(InvalidCursor)); }
        cursor := Some(cursorText.value.stamp);
      }
      var fetched := db.GetUserLikes(user, filter, cursor, limit + 1);
      if fetched.Err? { return Replied(Err(fetched.error)); }
      var items := fetched.value;
      var nextCursor: Option<Stamp> := None;
      if |items| > limit {
        if limit == 0 { return Panicked; }
        nextCursor := Some(items[limit - 1].stamp);
        items := items[..limit];
      }
      return Replied(Ok(Page(items, nextCursor)));
    }
  }

  lemma GroupingStep(t: Table, input: seq<Content>, c: Content, before: seq<ContentCount>, after: seq<ContentCount>)
    requires IsGroupedJoin(t, input, before)
    requires if c in input
             then exists j :: 0 <= j < |before| && before[j].content == c
                              && after == before[j := ContentCount(c, before[j].count + Count(t, c))]
             else after == before + [ContentCount(c, Count(t, c))]
    ensures IsGroupedJoin(t, input + [c], after)
  {
    hide Joined, Count;
    var next := input + [c];
    forall d ensures |Joined(t, next, d)| == |Joined(t, input, d)| + if c == d then Count(t, d) else 0 {
      assert next[..|next| - 1] == input;
      JoinedLast(t, next, d);
    }
    if c in input {
      var j :| 0 <= j < |before| && before[j].content == c
               && after == before[j := ContentCount(c, before[j].count + Count(t, c))];
      assert forall i :: 0 <= i < |before| ==> after[i].content == before[i].content;
      forall d ensures d in next <==> exists i :: 0 <= i < |after| && after[i].content == d {
        assert d in next <==> d in input;
      }
    } else {
      JoinMultiplies(t, input, c);
      NotListed(input, c);
      forall d ensures d in next <==> exists i :: 0 <= i < |after| && after[i].content == d {
        if d == c { assert after[|before|].content == c; }
        if d in input {
          var i :| 0 <= i < |before| && before[i].content == d;
          assert after[i].content == d;
        }
      }
    }
  }

  lemma {:induction false} NotListed(input: seq<Content>, c: Content)
    requires c !in input
    ensures Multiplicity(input, c) == 0
    decreases |input|
  {
    if input != [] { NotListed(input[..|input| - 1], c); }
  }
}
