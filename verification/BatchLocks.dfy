/** How long a batch keeps a key in the lock map, and what later batches make of it. */
module BatchLocks {
  import opened BatchReply
  import opened CounterRuns
  import opened Likes
  import opened ServiceSpec
  import opened Wrappers

  /** The state in which an operation reads the count of `c` with `get_like_count_with_fallback`, if it does. */
  function ReadsIn(f: Faults, w: World, op: Op, c: Content): Option<World> {
    match op
    case Like(key, stamp, invalid) =>
      var (saved, existed) := DbSave(f, w, key, stamp);
      if !invalid && key.content == c && existed == Ok(true) then Some(saved) else None
    case Unlike(key, invalid) =>
      if !invalid && key.content == c && DbRemove(f, w, key).1.Ok? then Some(DbRemove(f, w, key).0) else None
    case ReadOne(d) => if d == c then Some(w) else None
    case ReadBatch(_) => None
    case Expire(_) => None
  }

  /** A read of `c` that misses the counter and still succeeds. */
  predicate Unlocks(f: Faults, w: World, op: Op, c: Content) {
    var at := ReadsIn(f, w, op, c);
    at.Some? && Cached(f, at.value, c).1 == None && ReadCount(f, at.value, c).1.Ok?
  }

  predicate BatchMisses(f: Faults, w: World, items: seq<Content>, c: Content) {
    |items| <= 100 && c in Missing(items, CacheMget(f, w, items).1)
  }

  /** A batch that misses `c`, or a read of it that misses the counter and fails. */
  predicate Locks(f: Faults, w: World, op: Op, c: Content) {
    if op.ReadBatch? then BatchMisses(f, w, op.items, c) else
      var at := ReadsIn(f, w, op, c);
      at.Some? && Cached(f, at.value, c).1 == None && ReadCount(f, at.value, c).1.Err?
  }

  lemma ReadLocks(f: Faults, w: World, c: Content, d: Content)
    ensures var (after, read) := ReadCount(f, w, c);
            d in after.locks <==>
              if d == c && Cached(f, w, c).1 == None then read.Err? else d in w.locks
  {
  }

  lemma BatchLocks(f: Faults, w: World, items: seq<Content>, mid: World, reply: Result<seq<ContentCount>, DomainError>,
                   job: Option<seq<ContentCount>>, c: Content)
    requires IsBatchOutcome(f, w, items, mid, reply, job)
    ensures c in AfterBackground(f, mid, job).locks <==> c in w.locks || BatchMisses(f, w, items, c)
  {
    hide HitsById, Served, Missing, ToFetch, IsGroupedJoin, Rehydrated;
  }

  lemma LockStep(f: Faults, w: World, op: Op, after: World, c: Content)
    requires OpStep(f, w, op, after)
    ensures c in after.locks <==> (c in w.locks && !Unlocks(f, w, op, c)) || Locks(f, w, op, c)
  {
    match op {
      case Like(key, stamp, invalid) => ReadLocks(f, DbSave(f, w, key, stamp).0, key.content, c);
      case Unlike(key, invalid) => ReadLocks(f, DbRemove(f, w, key).0, key.content, c);
      case ReadOne(d) => ReadLocks(f, w, d, c);
      case Expire(gone) =>
      case ReadBatch(items) =>
        var mid, reply, job :| IsBatchOutcome(f, w, items, mid, reply, job) && after == AfterBackground(f, mid, job);
        BatchLocks(f, w, items, mid, reply, job, c);
    }
    hide ReadCount, Cached;
  }

  /** Operation `i` locks `c`, and none of those after it, up to `j`, unlocks it. */
  ghost predicate LockedSince(f: Faults, worlds: seq<World>, ops: seq<Op>, i: int, j: int, c: Content)
    requires |worlds| == |ops| + 1 && 0 <= i < j <= |ops|
  {
    Locks(f, worlds[i], ops[i], c) && forall k :: i < k < j ==> !Unlocks(f, worlds[k], ops[k], c)
  }

  /**
   Over all sequential runs: a key that was not locked at the start is locked exactly if some earlier
   batch missed it, or some earlier read of it failed, and no read that misses its counter has
   succeeded since. Neither the batch's background task nor expiry unlocks it.
   */
  lemma {:induction false} LockedExactlySinceMiss(f: Faults, worlds: seq<World>, ops: seq<Op>, j: nat, c: Content)
    requires Trace(f, worlds, ops) && j <= |ops| && c !in worlds[0].locks
    ensures c in worlds[j].locks <==> exists i :: 0 <= i < j && LockedSince(f, worlds, ops, i, j, c)
    decreases j
  {
    hide Locks, Unlocks, OpStep;
    if j > 0 {
      LockedExactlySinceMiss(f, worlds, ops, j - 1, c);
      LockStep(f, worlds[j - 1], ops[j - 1], worlds[j], c);
      if c in worlds[j].locks {
        if Locks(f, worlds[j - 1], ops[j - 1], c) {
          assert LockedSince(f, worlds, ops, j - 1, j, c);
        } else {
          var i :| 0 <= i < j - 1 && LockedSince(f, worlds, ops, i, j - 1, c);
          assert LockedSince(f, worlds, ops, i, j, c);
        }
      }
      if i :| 0 <= i < j && LockedSince(f, worlds, ops, i, j, c) {
        if i < j - 1 { assert LockedSince(f, worlds, ops, i, j - 1, c); }
      }
    }
  }

  /** A batch that misses a content answers for it exactly if it is not locked. */
  lemma MissIsAnsweredExactlyIfUnlocked(
      f: Faults, w: World, items: seq<Content>, after: World, reply: Result<seq<ContentCount>, DomainError>,
      job: Option<seq<ContentCount>>, c: Content)
    requires IsBatchOutcome(f, w, items, after, reply, job) && reply.Ok? && OneTypePerId(items)
             && BatchMisses(f, w, items, c)
    ensures (exists r :: r in reply.value && r.content == c) <==> c !in w.locks
  {
    VisibleHits(f, w, items);
    var visible := Visible(f, w, items);
    assert c in items && c !in visible;
    BatchReplyIs(f, w, items, after, reply, job);
    hide IsBatchOutcome, Visible;
    var hits := OwnHits(items, visible);
    OwnHitsContents(items, visible);
    var rows := reply.value[|hits|..];
    assert reply.value == hits + rows;
    if c !in w.locks {
      assert Wanted(f, w, items, c);
      assert ContentCount(c, Count(w.likes, c)) in reply.value;
    }
    if r :| r in reply.value && r.content == c {
      assert r in rows;
      assert ContentCount(c, Count(w.likes, c)) in rows;
    }
  }

  /**
   In every run a batch that misses a content, in whatever state of its counter, leaves it out of the
   reply exactly if an earlier batch missed it, or an earlier read of it failed, and no read that misses
   its counter has succeeded since.
   */
  lemma OmittedExactlySinceMiss(
      f: Faults, worlds: seq<World>, ops: seq<Op>, j: nat, c: Content,
      after: World, reply: Result<seq<ContentCount>, DomainError>, job: Option<seq<ContentCount>>)
    requires Trace(f, worlds, ops) && j < |ops| && c !in worlds[0].locks && ops[j].ReadBatch?
    requires IsBatchOutcome(f, worlds[j], ops[j].items, after, reply, job) && reply.Ok?
    requires OneTypePerId(ops[j].items) && BatchMisses(f, worlds[j], ops[j].items, c)
    ensures (forall r :: r in reply.value ==> r.content != c)
            <==> exists i :: 0 <= i < j && LockedSince(f, worlds, ops, i, j, c)
  {
    LockedExactlySinceMiss(f, worlds, ops, j, c);
    MissIsAnsweredExactlyIfUnlocked(f, worlds[j], ops[j].items, after, reply, job, c);
  }
}
