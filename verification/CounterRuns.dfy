/** Runs of the like service with operations one at a time: with a working cache, and without one. */
module CounterRuns {
  import opened BatchReply
  import opened Likes
  import opened Pagination
  import opened ServiceSpec
  import opened Wrappers

  ghost predicate CacheUp(f: Faults) { forall n :: f.cache(n) }

  ghost predicate CacheDown(f: Faults) { forall n :: !f.cache(n) }

  ghost predicate DatabaseUp(f: Faults) { forall n :: f.db(n) }

  // ---------- with a working cache: how far a counter drifts ----------

  /** Every counter is between 0 and the true count. */
  ghost predicate InRange(w: World) {
    forall c :: c in w.counts ==> 0 <= w.counts[c] <= Count(w.likes, c)
  }

  function Drift(w: World, c: Content): int
    requires c in w.counts
  {
    w.counts[c] - Count(w.likes, c)
  }

  ghost predicate SameElsewhere(w: World, after: World, c: Content) {
    forall d :: d != c ==>
      && (d in after.counts <==> d in w.counts)
      && (d in w.counts ==> after.counts[d] == w.counts[d])
      && Count(after.likes, d) == Count(w.likes, d)
  }

  /**
   A read answers what is cached, even while it exceeds a count just lowered, and otherwise makes the
   counter exact.
   */
  lemma ReadDrift(f: Faults, w: World, c: Content)
    requires CacheUp(f) && (c in w.counts ==> w.counts[c] >= 0)
    ensures var (after, read) := ReadCount(f, w, c);
            && after.likes == w.likes
            && (c in w.counts ==> after.counts == w.counts && read == Ok(w.counts[c]))
            && (c !in w.counts ==>
                  if read.Ok? then after.counts == w.counts[c := Count(w.likes, c)] && read.value == Count(w.likes, c)
                  else after.counts == w.counts)
  {
  }

  /** The counter after `add_like`. */
  lemma AddDrift(f: Faults, w: World, key: Key, stamp: Stamp)
    requires CacheUp(f) && InRange(w) && Add(f, w, key, stamp, false).1.Ok?
    ensures var (after, added) := Add(f, w, key, stamp, false);
            var c := key.content;
            && c in after.counts && added.value.count == after.counts[c]
            && added.value.alreadyExisted == (key in w.likes)
            && key in after.likes && added.value.likedAt == after.likes[key].createdAt
            && Drift(after, c) == (if c in w.counts then Drift(w, c)
                                   else -(if key in w.likes then 0 else Count(w.likes, c)))
            && SameElsewhere(w, after, c)
  {
    if key !in w.likes { CountsAfterInsert(w.likes, key, stamp); }
    ReadDrift(f, DbSave(f, w, key, stamp).0, key.content);
    hide ReadCount, Count;
  }

  /** The counter after `remove_like`. */
  lemma RemoveDrift(f: Faults, w: World, key: Key)
    requires CacheUp(f) && InRange(w) && Remove(f, w, key, false).1.Ok?
    ensures var (after, removed) := Remove(f, w, key, false);
            var c := key.content;
            && c in after.counts && removed.value.count == after.counts[c]
            && removed.value.wasLiked == (key in w.likes)
            && Drift(after, c) == (
                 if key !in w.likes then (if c in w.counts then Drift(w, c) else 0)
                 else if c in w.counts then (if w.counts[c] == 0 then Drift(w, c) + 1 else Drift(w, c))
                 else if Count(w.likes, c) == 1 then 0 else -1)
            && SameElsewhere(w, after, c)
  {
    if key in w.likes { CountsAfterDelete(w.likes, key); }
    assert key !in w.likes ==> w.likes - {key} == w.likes;
    var w1 := DbRemove(f, w, key).0;
    ReadDrift(f, w1, key.content);
    hide ReadCount, Count;
  }

  /**
   The write-through promise, exactly: the count answered to a like is the true count if the key was
   cached without drift, or if it was not cached and the like is a repeated or the very first one.
   */
  lemma AddAnswersTrueCountExactlyIf(f: Faults, w: World, key: Key, stamp: Stamp)
    requires CacheUp(f) && InRange(w) && Add(f, w, key, stamp, false).1.Ok?
    ensures var (after, added) := Add(f, w, key, stamp, false);
            added.value.count == Count(after.likes, key.content)
            <==> if key.content in w.counts then Drift(w, key.content) == 0
                 else key in w.likes || Count(w.likes, key.content) == 0
  {
    AddDrift(f, w, key, stamp);
  }

  /** For an unlike: without drift if cached, and, if not cached, unless a like was removed and others remain. */
  lemma RemoveAnswersTrueCountExactlyIf(f: Faults, w: World, key: Key)
    requires CacheUp(f) && InRange(w) && Remove(f, w, key, false).1.Ok?
    ensures var (after, removed) := Remove(f, w, key, false);
            var c := key.content;
            removed.value.count == Count(after.likes, c)
            <==> if c in w.counts
                 then Drift(w, c) == 0 || (key in w.likes && w.counts[c] == 0 && Count(w.likes, c) == 1)
                 else key !in w.likes || Count(w.likes, c) == 1
  {
    RemoveDrift(f, w, key);
  }

  // ---------- runs with expiry ----------

  datatype Op =
    | Like(key: Key, stamp: Stamp, invalid: bool)
    | Unlike(key: Key, invalid: bool)
    | ReadOne(content: Content)
    | ReadBatch(items: seq<Content>)
    | Expire(gone: set<Content>)

  /** One operation from start to end, the background write of a batch included. */
  ghost predicate OpStep(f: Faults, w: World, op: Op, after: World) {
    match op
    case Like(key, stamp, invalid) => after == Add(f, w, key, stamp, invalid).0
    case Unlike(key, invalid) => after == Remove(f, w, key, invalid).0
    case ReadOne(c) => after == ReadCount(f, w, c).0
    case Expire(gone) => after == w.(counts := w.counts - gone)
    case ReadBatch(items) =>
      exists mid, reply, job :: IsBatchOutcome(f, w, items, mid, reply, job) && after == AfterBackground(f, mid, job)
  }

  function AfterBackground(f: Faults, w: World, job: Option<seq<ContentCount>>): World {
    if job.None? || job.value == [] then w else
      var called := w.(cacheCalls := w.cacheCalls + 1);
      if f.cache(w.cacheCalls) then called.(counts := Rehydrated(w.counts, job.value)) else called
  }

  ghost predicate Trace(f: Faults, worlds: seq<World>, ops: seq<Op>) {
    && |worlds| == |ops| + 1
    && forall i :: 0 <= i < |ops| ==> OpStep(f, worlds[i], ops[i], worlds[i + 1])
  }

  lemma {:induction false} RehydratedIs(counts: map<Content, int>, rows: seq<ContentCount>, t: Table)
    requires forall r :: r in rows ==> r.count == Count(t, r.content)
    ensures forall c :: c in Rehydrated(counts, rows) ==>
              (c in counts && Rehydrated(counts, rows)[c] == counts[c]) || Rehydrated(counts, rows)[c] == Count(t, c)
    decreases |rows|
  {
    if rows != [] {
      var n := |rows| - 1;
      RehydratedIs(counts, rows[..n], t);
      assert rows[n] in rows;
    }
  }

  lemma BatchStaysInRange(f: Faults, w: World, items: seq<Content>, mid: World,
                          reply: Result<seq<ContentCount>, DomainError>, job: Option<seq<ContentCount>>)
    requires InRange(w) && IsBatchOutcome(f, w, items, mid, reply, job)
    ensures InRange(AfterBackground(f, mid, job))
  {
    hide Count;
    assert mid.likes == w.likes && mid.counts == w.counts by { hide HitsById, Served, Missing, ToFetch; }
    if job.Some? {
      BatchRowsAreCounts(f, w, items, mid, reply, job);
      RehydratedIs(w.counts, job.value, w.likes);
    }
  }

  lemma OpStaysInRange(f: Faults, w: World, op: Op, after: World)
    requires CacheUp(f) && InRange(w) && OpStep(f, w, op, after)
    ensures InRange(after)
  {
    match op {
      case Like(key, stamp, invalid) => AddStaysInRange(f, w, key, stamp, invalid);
      case Unlike(key, invalid) => RemoveStaysInRange(f, w, key, invalid);
      case ReadOne(c) => ReadDrift(f, w, c);
      case Expire(gone) =>
      case ReadBatch(items) =>
        var mid, reply, job :| IsBatchOutcome(f, w, items, mid, reply, job) && after == AfterBackground(f, mid, job);
        BatchStaysInRange(f, w, items, mid, reply, job);
    }
  }

  lemma AddStaysInRange(f: Faults, w: World, key: Key, stamp: Stamp, invalid: bool)
    requires CacheUp(f) && InRange(w)
    ensures InRange(Add(f, w, key, stamp, invalid).0)
  {
    hide Count, ReadCount;
    var (w1, saved) := DbSave(f, w, key, stamp);
    if !invalid && saved.Ok? {
      if key in w.likes {
        ReadDrift(f, w1, key.content);
        assert InRange(ReadCount(f, w1, key.content).0);
      } else {
        CountsAfterInsert(w.likes, key, stamp);
        var counts := CacheBump(f, w1, key.content, 1).0.counts;
        forall c | c in counts ensures 0 <= counts[c] <= Count(w1.likes, c) {
          assert Count(w1.likes, c) == Count(w.likes, c) + if c == key.content then 1 else 0;
          assert Count(w.likes, c) >= 0;
        }
      }
    }
  }

  lemma RemoveStaysInRange(f: Faults, w: World, key: Key, invalid: bool)
    requires CacheUp(f) && InRange(w)
    ensures InRange(Remove(f, w, key, invalid).0)
  {
    hide Count, ReadCount;
    var (w1, removed) := DbRemove(f, w, key);
    var (w2, read) := ReadCount(f, w1, key.content);
    ReadDrift(f, w1, key.content);
    if removed.Ok? {
      if key in w.likes { CountsAfterDelete(w.likes, key); } else { assert w1.likes == w.likes; }
      assert forall d :: d in w2.counts && d != key.content ==> 0 <= w2.counts[d] <= Count(w1.likes, d);
    }
  }

  /**
   With a working cache, whatever the database does and whichever counters expire in between, every
   counter stays between 0 and the true count.
   */
  lemma {:induction false} CountersStayInRange(f: Faults, worlds: seq<World>, ops: seq<Op>)
    requires CacheUp(f) && Trace(f, worlds, ops) && InRange(worlds[0])
    ensures forall i :: 0 <= i < |worlds| ==> InRange(worlds[i])
    decreases |ops|
  {
    if ops != [] {
      OpStaysInRange(f, worlds[0], ops[0], worlds[1]);
      forall i | 0 <= i < |ops[1..]| ensures OpStep(f, worlds[1..][i], ops[1..][i], worlds[1..][i + 1]) {
        assert OpStep(f, worlds[i + 1], ops[i + 1], worlds[i + 2]);
      }
      CountersStayInRange(f, worlds[1..], ops[1..]);
      forall i | 0 <= i < |worlds| ensures InRange(worlds[i]) {
        if i > 0 { assert worlds[i] == worlds[1..][i - 1]; }
      }
    }
  }

  // ---------- runs that answer wrong counts ----------

  function AllUp(): Faults { Faults(n => true, n => true) }

  function EmptyWorld(): World { World(map[], map[], {}, 0, 0) }

  function First(c: Content): Op { Like(Key(1, c), Stamp(1, 0), false) }

  function Second(c: Content): Op { Like(Key(2, c), Stamp(2, 0), false) }

  /** One like, an expiry, and a like by somebody else, which is answered with 1. */
  lemma ExpiryMakesLikeWrong(c: Content) returns (worlds: seq<World>)
    ensures Trace(AllUp(), worlds, [First(c), Expire({c}), Second(c)]) && worlds[0] == EmptyWorld()
    ensures Add(AllUp(), worlds[2], Key(2, c), Stamp(2, 0), false).1 == Ok(Added(1, 0, false))
    ensures Count(worlds[3].likes, c) == 2
  {
    var f, w0 := AllUp(), EmptyWorld();
    var w1 := Add(f, w0, Key(1, c), Stamp(1, 0), false).0;
    var w2 := w1.(counts := w1.counts - {c});
    var w3 := Add(f, w2, Key(2, c), Stamp(2, 0), false).0;
    worlds := [w0, w1, w2, w3];
    NoLikers(c);
    CountsAfterInsert(w0.likes, Key(1, c), Stamp(1, 0));
    CountsAfterInsert(w1.likes, Key(2, c), Stamp(2, 0));
    hide Count;
  }

  lemma NoLikers(c: Content)
    ensures Count(map[], c) == 0
  {
  }

  /** Two likes, an expiry, and the removal of one, which is answered with 0. */
  lemma ExpiryMakesUnlikeWrong(c: Content) returns (worlds: seq<World>)
    ensures Trace(AllUp(), worlds, [First(c), Second(c), Expire({c}), Unlike(Key(1, c), false)])
            && worlds[0] == EmptyWorld()
    ensures Remove(AllUp(), worlds[3], Key(1, c), false).1 == Ok(Removed(true, 0))
    ensures Count(worlds[4].likes, c) == 1
  {
    var f, w0 := AllUp(), EmptyWorld();
    var w1 := Add(f, w0, Key(1, c), Stamp(1, 0), false).0;
    var w2 := Add(f, w1, Key(2, c), Stamp(2, 0), false).0;
    var w3 := w2.(counts := w2.counts - {c});
    var w4 := Remove(f, w3, Key(1, c), false).0;
    worlds := [w0, w1, w2, w3, w4];
    NoLikers(c);
    CountsAfterInsert(w0.likes, Key(1, c), Stamp(1, 0));
    CountsAfterInsert(w1.likes, Key(2, c), Stamp(2, 0));
    CountsAfterDelete(w3.likes, Key(1, c));
    hide Count;
  }

  // ---------- the primary key ----------

  /** Every like of the run comes with a row id that no row has. */
  ghost predicate NewIds(worlds: seq<World>, ops: seq<Op>)
    requires |worlds| == |ops| + 1
  {
    forall i, k :: 0 <= i < |ops| && ops[i].Like? && k in worlds[i].likes ==> worlds[i].likes[k].id != ops[i].stamp.id
  }

  lemma RowsAfter(f: Faults, w: World, op: Op, after: World)
    requires OpStep(f, w, op, after)
    ensures forall k :: k in after.likes ==>
              (k in w.likes && after.likes[k] == w.likes[k]) || (op.Like? && k == op.key && after.likes[k] == op.stamp)
  {
    match op {
      case Like(key, stamp, invalid) => AddKeepsRows(f, w, key, stamp, invalid);
      case Unlike(key, invalid) => RemoveKeepsRows(f, w, key, invalid);
      case ReadOne(c) => ReadKeepsRows(f, w, c);
      case Expire(gone) =>
      case ReadBatch(items) =>
        var mid, reply, job :| IsBatchOutcome(f, w, items, mid, reply, job) && after == AfterBackground(f, mid, job);
        BatchKeepsRows(f, w, items, mid, reply, job);
    }
    hide ReadCount, Add, Remove;
  }

  lemma AddKeepsRows(f: Faults, w: World, key: Key, stamp: Stamp, invalid: bool)
    ensures var after := Add(f, w, key, stamp, invalid).0.likes;
            after == w.likes || after == w.likes[key := stamp]
  {
    hide ReadCount;
    ReadKeepsRows(f, DbSave(f, w, key, stamp).0, key.content);
  }

  lemma RemoveKeepsRows(f: Faults, w: World, key: Key, invalid: bool)
    ensures var after := Remove(f, w, key, invalid).0.likes;
            after == w.likes || after == w.likes - {key}
  {
    hide ReadCount;
    ReadKeepsRows(f, DbRemove(f, w, key).0, key.content);
  }

  lemma ReadKeepsRows(f: Faults, w: World, c: Content)
    ensures ReadCount(f, w, c).0.likes == w.likes
  {
  }

  lemma BatchKeepsRows(f: Faults, w: World, items: seq<Content>, mid: World,
                       reply: Result<seq<ContentCount>, DomainError>, job: Option<seq<ContentCount>>)
    requires IsBatchOutcome(f, w, items, mid, reply, job)
    ensures AfterBackground(f, mid, job).likes == w.likes
  {
    hide Count, HitsById, Served, Missing, ToFetch, IsGroupedJoin, Rehydrated;
  }

  /** What pagination needs of the table holds throughout every run whose likes bring new row ids. */
  lemma {:induction false} IdsStayUnique(f: Faults, worlds: seq<World>, ops: seq<Op>, n: nat)
    requires Trace(f, worlds, ops) && NewIds(worlds, ops) && UniqueIds(worlds[0].likes) && n <= |ops|
    ensures UniqueIds(worlds[n].likes)
    decreases n
  {
    if n > 0 {
      IdsStayUnique(f, worlds, ops, n - 1);
      RowsAfter(f, worlds[n - 1], ops[n - 1], worlds[n]);
    }
  }

  // ---------- without a cache ----------

  datatype Answer =
    | AddAnswer(added: Result<Added, DomainError>)
    | RemoveAnswer(removed: Result<Removed, DomainError>)
    | CountAnswer(count: Result<nat, DomainError>)
    | NoAnswer

  predicate IsSingle(op: Op) { op.Like? || op.Unlike? || op.ReadOne? }

  function Apply(f: Faults, w: World, op: Op): (World, Answer)
    requires IsSingle(op)
  {
    match op
    case Like(key, stamp, invalid) => var (after, r) := Add(f, w, key, stamp, invalid); (after, AddAnswer(r))
    case Unlike(key, invalid) => var (after, r) := Remove(f, w, key, invalid); (after, RemoveAnswer(r))
    case ReadOne(c) => var (after, r) := ReadCount(f, w, c); (after, CountAnswer(r))
  }

  /** The same operations on a bare set of likes. */
  function ApplyToSet(t: Table, op: Op): (Table, Answer)
    requires IsSingle(op)
  {
    match op
    case Like(key, stamp, invalid) =>
      if invalid then (t, AddAnswer(Err(InvalidContent))) else
        var after := if key in t then t else t[key := stamp];
        (after, AddAnswer(Ok(Added(Count(after, key.content), after[key].createdAt, key in t))))
    case Unlike(key, invalid) =>
      if invalid then (t, RemoveAnswer(Err(InvalidContent))) else
        (t - {key}, RemoveAnswer(Ok(Removed(key in t, Count(t - {key}, key.content)))))
    case ReadOne(c) => (t, CountAnswer(Ok(Count(t, c))))
  }

  predicate AllSingle(ops: seq<Op>) { forall i :: 0 <= i < |ops| ==> IsSingle(ops[i]) }

  function Run(f: Faults, w: World, ops: seq<Op>): (World, seq<Answer>)
    requires AllSingle(ops)
    decreases |ops|
  {
    if ops == [] then (w, []) else
      var (next, answer) := Apply(f, w, ops[0]);
      var (end, answers) := Run(f, next, ops[1..]);
      (end, [answer] + answers)
  }

  function RunOnSet(t: Table, ops: seq<Op>): (r: (Table, seq<Answer>))
    requires AllSingle(ops)
    ensures |r.1| == |ops|
    decreases |ops|
  {
    if ops == [] then (t, []) else
      var (next, answer) := ApplyToSet(t, ops[0]);
      var (end, answers) := RunOnSet(next, ops[1..]);
      (end, [answer] + answers)
  }

  lemma OfflineRead(f: Faults, w: World, c: Content)
    requires CacheDown(f) && DatabaseUp(f)
    ensures ReadCount(f, w, c).1 == Ok(Count(w.likes, c)) && ReadCount(f, w, c).0.likes == w.likes
  {
  }

  lemma OfflineStep(f: Faults, w: World, op: Op)
    requires CacheDown(f) && DatabaseUp(f) && IsSingle(op)
    ensures (Apply(f, w, op).0.likes, Apply(f, w, op).1) == ApplyToSet(w.likes, op)
  {
    match op {
      case Like(key, stamp, _) => OfflineRead(f, DbSave(f, w, key, stamp).0, key.content);
      case Unlike(key, _) => OfflineRead(f, DbRemove(f, w, key).0, key.content);
      case ReadOne(c) => OfflineRead(f, w, c);
    }
    hide Count, ReadCount;
  }

  /** With the cache failing on every call, the service answers as a plain set of likes. */
  lemma {:induction false} OfflineServiceIsASet(f: Faults, w: World, ops: seq<Op>)
    requires CacheDown(f) && DatabaseUp(f) && AllSingle(ops)
    ensures (Run(f, w, ops).0.likes, Run(f, w, ops).1) == RunOnSet(w.likes, ops)
    decreases |ops|
  {
    if ops != [] {
      OfflineStep(f, w, ops[0]);
      hide Apply, ApplyToSet;
      OfflineServiceIsASet(f, Apply(f, w, ops[0]).0, ops[1..]);
    }
  }

  /** Likes answered as new, minus unlikes answered as removing one, for one content. */
  function Net(ops: seq<Op>, answers: seq<Answer>, c: Content): int
    requires |ops| == |answers|
    decreases |ops|
  {
    if ops == [] then 0 else NetOf(ops[0], answers[0], c) + Net(ops[1..], answers[1..], c)
  }

  function NetOf(op: Op, answer: Answer, c: Content): int {
    if op.Like? && op.key.content == c
       && answer.AddAnswer? && answer.added.Ok? && !answer.added.value.alreadyExisted then 1
    else if op.Unlike? && op.key.content == c
            && answer.RemoveAnswer? && answer.removed.Ok? && answer.removed.value.wasLiked then -1
    else 0
  }

  lemma SetStepNet(t: Table, op: Op, c: Content)
    requires IsSingle(op)
    ensures var (after, answer) := ApplyToSet(t, op);
            Count(after, c) == Count(t, c) + NetOf(op, answer, c)
  {
    if op.Like? && op.key !in t { CountsAfterInsert(t, op.key, op.stamp); }
    if op.Unlike? && op.key in t { CountsAfterDelete(t, op.key); }
    if op.Unlike? && op.key !in t { assert t - {op.key} == t; }
  }

  lemma {:induction false} SetRunNet(t: Table, ops: seq<Op>, c: Content)
    requires AllSingle(ops)
    ensures var (end, answers) := RunOnSet(t, ops); Count(end, c) == Count(t, c) + Net(ops, answers, c)
    decreases |ops|
  {
    if ops != [] {
      var (next, answer) := ApplyToSet(t, ops[0]);
      SetStepNet(t, ops[0], c);
      SetRunNet(next, ops[1..], c);
      hide ApplyToSet, Count;
      var (end, answers) := RunOnSet(next, ops[1..]);
      assert RunOnSet(t, ops).1 == [answer] + answers;
    }
  }

  /** Offline, the count read after any run is what the earlier answers add up to. */
  lemma OfflineCountIsNet(f: Faults, w: World, ops: seq<Op>, c: Content)
    requires CacheDown(f) && DatabaseUp(f) && AllSingle(ops)
    ensures var (end, answers) := Run(f, w, ops);
            && |answers| == |ops|
            && Apply(f, end, ReadOne(c)).1 == CountAnswer(Ok(Count(end.likes, c)))
            && Count(end.likes, c) == Count(w.likes, c) + Net(ops, answers, c)
  {
    OfflineServiceIsASet(f, w, ops);
    SetRunNet(w.likes, ops, c);
    OfflineRead(f, Run(f, w, ops).0, c);
  }
}
