/**
 What the operations of the like service do to the table, the counters and the lock map, one
 operation at a time.

 Every database and cache command can fail: `up` of a repository tells, for each of its calls in
 turn, whether it succeeds. A failed command changes nothing.
 */
module ServiceSpec {
  import opened Likes
  import opened Wrappers

  datatype DomainError =
    | InvalidContent          // whatever `validate_content` returned
    | DatabaseError
    | CacheError
    | BatchTooLarge(size: nat)
    | InvalidCursor

  datatype Faults = Faults(db: nat -> bool, cache: nat -> bool)

  datatype World = World(likes: Table, counts: map<Content, int>, locks: set<Content>, dbCalls: nat, cacheCalls: nat)

  datatype Added = Added(count: nat, likedAt: Time, alreadyExisted: bool)

  datatype Removed = Removed(wasLiked: bool, count: nat)

  /** A cursor as sent by the client: one of ours, or text that does not decode. */
  datatype CursorText = Encoded(stamp: Stamp) | Malformed

  const MAX_BATCH := 100

  // ---------- single commands ----------

  function DbSave(f: Faults, w: World, key: Key, stamp: Stamp): (World, Result<bool, DomainError>) {
    var called := w.(dbCalls := w.dbCalls + 1);
    if !f.db(w.dbCalls) then (called, Err(DatabaseError))
    else (called.(likes := if key in w.likes then w.likes else w.likes[key := stamp]), Ok(key in w.likes))
  }

  function DbRemove(f: Faults, w: World, key: Key): (World, Result<bool, DomainError>) {
    var called := w.(dbCalls := w.dbCalls + 1);
    if !f.db(w.dbCalls) then (called, Err(DatabaseError))
    else (called.(likes := w.likes - {key}), Ok(key in w.likes))
  }

  function DbGetLike(f: Faults, w: World, key: Key): (World, Result<Stamp, DomainError>) {
    var called := w.(dbCalls := w.dbCalls + 1);
    (called, if f.db(w.dbCalls) && key in w.likes then Ok(w.likes[key]) else Err(DatabaseError))
  }

  function DbCount(f: Faults, w: World, c: Content): (World, Result<nat, DomainError>) {
    var called := w.(dbCalls := w.dbCalls + 1);
    (called, if f.db(w.dbCalls) then Ok(Count(w.likes, c)) else Err(DatabaseError))
  }

  /** A counter as GET returns it: absent, or an integer that fails to parse when negative. */
  function Parsed(counts: map<Content, int>, c: Content): Result<Option<nat>, DomainError> {
    if c !in counts then Ok(None)
    else if counts[c] < 0 then Err(CacheError)
    else Ok(Some(counts[c]))
  }

  function CacheGet(f: Faults, w: World, c: Content): (World, Result<Option<nat>, DomainError>) {
    var called := w.(cacheCalls := w.cacheCalls + 1);
    (called, if f.cache(w.cacheCalls) then Parsed(w.counts, c) else Err(CacheError))
  }

  /** INCR and DECR: an absent key counts as 0, and a negative result does not parse as u64. */
  function CacheBump(f: Faults, w: World, c: Content, delta: int): (World, Result<nat, DomainError>) {
    var called := w.(cacheCalls := w.cacheCalls + 1);
    var value := (if c in w.counts then w.counts[c] else 0) + delta;
    if !f.cache(w.cacheCalls) then (called, Err(CacheError))
    else (called.(counts := w.counts[c := value]), if value < 0 then Err(CacheError) else Ok(value))
  }

  function CacheSet(f: Faults, w: World, c: Content, value: nat): World {
    var called := w.(cacheCalls := w.cacheCalls + 1);
    if f.cache(w.cacheCalls) then called.(counts := w.counts[c := value]) else called
  }

  // ---------- operations ----------

  /** The count a GET delivers, if it delivers one. */
  function Cached(f: Faults, w: World, c: Content): (World, Option<nat>) {
    var (w1, got) := CacheGet(f, w, c);
    (w1, if got.Ok? then got.value else None)
  }

  /** `get_like_count_with_fallback` */
  function ReadCount(f: Faults, w: World, c: Content): (World, Result<nat, DomainError>) {
    var (w1, first) := Cached(f, w, c);
    if first.Some? then (w1, Ok(first.value)) else
      var (w2, second) := Cached(f, w1.(locks := w1.locks + {c}), c);
      if second.Some? then (w2.(locks := w2.locks - {c}), Ok(second.value)) else
        var (w3, counted) := DbCount(f, w2, c);
        if counted.Err? then (w3, counted) else
          var w4 := CacheSet(f, w3, c, counted.value);
          (w4.(locks := w4.locks - {c}), counted)
  }

  /** `add_like`; `invalid` is the error of `validate_content`, if it returned one. */
  function Add(f: Faults, w: World, key: Key, stamp: Stamp, invalid: bool): (World, Result<Added, DomainError>) {
    if invalid then (w, Err(InvalidContent)) else
      var (w1, saved) := DbSave(f, w, key, stamp);
      if saved.Err? then (w1, Err(saved.error))
      else if saved.value then
        var (w2, read) := ReadCount(f, w1, key.content);
        if read.Err? then (w2, Err(read.error)) else
          var (w3, existed) := DbGetLike(f, w2, key);
          (w3, if existed.Err? then Err(existed.error) else Ok(Added(read.value, existed.value.createdAt, true)))
      else
        var (w2, bumped) := CacheBump(f, w1, key.content, 1);
        if bumped.Ok? then (w2, Ok(Added(bumped.value, stamp.createdAt, false))) else
          var (w3, counted) := DbCount(f, w2, key.content);
          (w3, if counted.Err? then Err(counted.error) else Ok(Added(counted.value, stamp.createdAt, false)))
  }

  /** `remove_like` */
  function Remove(f: Faults, w: World, key: Key, invalid: bool): (World, Result<Removed, DomainError>) {
    if invalid then (w, Err(InvalidContent)) else
      var (w1, removed) := DbRemove(f, w, key);
      if removed.Err? then (w1, Err(removed.error)) else
        var (w2, read) := ReadCount(f, w1, key.content);
        if read.Err? then (w2, Err(read.error))
        else if !removed.value || read.value == 0 then (w2, Ok(Removed(removed.value, read.value)))
        else
          var (w3, bumped) := CacheBump(f, w2, key.content, -1);
          if bumped.Ok? then (w3, Ok(Removed(true, bumped.value))) else
            var (w4, counted) := DbCount(f, w3, key.content);
            (w4, if counted.Err? then Err(counted.error) else Ok(Removed(true, counted.value)))
  }

  // ---------- batch counts ----------

  /** MGET: one value that does not parse fails the whole reply. */
  predicate MgetParses(counts: map<Content, int>, items: seq<Content>) {
    forall i :: 0 <= i < |items| && items[i] in counts ==> counts[items[i]] >= 0
  }

  /** The map `get_counts_batch` builds: keyed by content id alone, a later item overwriting an earlier. */
  function HitsById(counts: map<Content, int>, items: seq<Content>): (hits: map<nat, nat>)
    requires MgetParses(counts, items)
  {
    if items == [] then map[] else
      var last := items[|items| - 1];
      var earlier := HitsById(counts, items[..|items| - 1]);
      if last in counts then earlier[last.id := counts[last]] else earlier
  }

  /** An empty batch does not reach Redis; a failed MGET is taken for an empty map. */
  function CacheMget(f: Faults, w: World, items: seq<Content>): (World, map<nat, nat>) {
    if items == [] then (w, map[]) else
      var called := w.(cacheCalls := w.cacheCalls + 1);
      (called, if f.cache(w.cacheCalls) && MgetParses(w.counts, items) then HitsById(w.counts, items) else map[])
  }

  /** The part of the reply served from the cache, in request order. */
  function Served(items: seq<Content>, hits: map<nat, nat>): seq<ContentCount> {
    if items == [] then [] else
      Served(items[..|items| - 1], hits)
      + (var last := items[|items| - 1]; if last.id in hits then [ContentCount(last, hits[last.id])] else [])
  }

  function Missing(items: seq<Content>, hits: map<nat, nat>): seq<Content> {
    if items == [] then [] else
      Missing(items[..|items| - 1], hits)
      + (var last := items[|items| - 1]; if last.id in hits then [] else [last])
  }

  /** The missing items whose lock key was absent from the lock map when their turn came. */
  function ToFetch(missing: seq<Content>, locks: set<Content>): seq<Content> {
    if missing == [] then [] else
      var last := missing[|missing| - 1];
      var earlier := ToFetch(missing[..|missing| - 1], locks);
      if last in locks || last in missing[..|missing| - 1] then earlier else earlier + [last]
  }

  function SetOf<T>(s: seq<T>): set<T> { set x | x in s }

  /** The background write of `set_counts_batch`. */
  function Rehydrated(counts: map<Content, int>, rows: seq<ContentCount>): map<Content, int> {
    if rows == [] then counts else
      var last := rows[|rows| - 1];
      Rehydrated(counts, rows[..|rows| - 1])[last.content := last.count]
  }

  /**
   What `get_likes_count_batch` makes of `w`: the new world, the reply, and the rows handed to the
   background task.
   */
  ghost predicate IsBatchOutcome(
      f: Faults, w: World, items: seq<Content>,
      after: World, reply: Result<seq<ContentCount>, DomainError>, job: Option<seq<ContentCount>>) {
    if |items| > MAX_BATCH then after == w && reply == Err(BatchTooLarge(|items|)) && job == None else
      var (w1, hits) := CacheMget(f, w, items);
      var served, missing := Served(items, hits), Missing(items, hits);
      var fetch := ToFetch(missing, w1.locks);
      var locked := w1.(locks := w1.locks + SetOf(missing));
      if fetch == [] then after == locked && reply == Ok(served) && job == None else
        && after == locked.(dbCalls := w1.dbCalls + 1)
        && (!f.db(w1.dbCalls) ==> reply == Err(DatabaseError) && job == None)
        && (f.db(w1.dbCalls) ==>
              && job.Some? && IsGroupedJoin(w1.likes, fetch, job.value)
              && reply == Ok(served + job.value))
  }
}
