/** What a batch of counts answers, and what it leaves in the lock map. */
module BatchReply {
  import opened Likes
  import opened ServiceSpec
  import opened Wrappers

  /** The counters a batch gets to see: all of them, or none if the MGET fails. */
  function Visible(f: Faults, w: World, items: seq<Content>): map<Content, int> {
    if items != [] && f.cache(w.cacheCalls)
        && (forall i :: 0 <= i < |items| && items[i] in w.counts ==> w.counts[items[i]] >= 0)
    then w.counts else map[]
  }

  /** The cached hits of the batch in request order, each with the counter of its own pair. */
  function OwnHits(items: seq<Content>, counts: map<Content, int>): seq<ContentCount>
    requires MgetParses(counts, items)
  {
    if items == [] then [] else
      var last := items[|items| - 1];
      OwnHits(items[..|items| - 1], counts) + (if last in counts then [ContentCount(last, counts[last])] else [])
  }

  /** Every content id is listed under one content type. */
  predicate OneTypePerId(items: seq<Content>) {
    forall i, j :: 0 <= i < |items| && 0 <= j < |items| && items[i].id == items[j].id ==> items[i] == items[j]
  }

  // ---------- the cached part ----------

  predicate HitFrom(counts: map<Content, int>, items: seq<Content>, i: int, k: nat, value: int) {
    0 <= i < |items| && items[i].id == k && items[i] in counts && value == counts[items[i]]
  }

  /** A hit is some listed pair's counter. */
  lemma {:induction false} HitSource(counts: map<Content, int>, items: seq<Content>, k: nat) returns (i: int)
    requires MgetParses(counts, items) && k in HitsById(counts, items)
    ensures HitFrom(counts, items, i, k, HitsById(counts, items)[k])
    decreases |items|
  {
    var n := |items| - 1;
    if items[n] in counts && k == items[n].id {
      i := n;
    } else {
      i := HitSource(counts, items[..n], k);
    }
  }

  lemma {:induction false} CachedIsHit(counts: map<Content, int>, items: seq<Content>, i: int)
    requires MgetParses(counts, items) && 0 <= i < |items| && items[i] in counts
    ensures items[i].id in HitsById(counts, items)
    decreases |items|
  {
    if i < |items| - 1 { CachedIsHit(counts, items[..|items| - 1], i); }
  }

  /** Of the cached pairs with one content id, the one listed last is the hit. */
  lemma {:induction false} LastListedIsHit(counts: map<Content, int>, items: seq<Content>, i: int)
    requires MgetParses(counts, items) && 0 <= i < |items| && items[i] in counts
    requires forall j :: i < j < |items| && items[j].id == items[i].id ==> items[j] !in counts
    ensures items[i].id in HitsById(counts, items) && HitsById(counts, items)[items[i].id] == counts[items[i]]
    decreases |items|
  {
    var n := |items| - 1;
    if i < n { LastListedIsHit(counts, items[..n], i); }
  }

  lemma {:induction false} ServedIsOwn(items: seq<Content>, hits: map<nat, nat>, counts: map<Content, int>)
    requires MgetParses(counts, items)
    requires forall i :: 0 <= i < |items| ==> (items[i].id in hits <==> items[i] in counts)
    requires forall i :: 0 <= i < |items| && items[i] in counts ==> hits[items[i].id] == counts[items[i]]
    ensures Served(items, hits) == OwnHits(items, counts)
    ensures forall c :: c in Missing(items, hits) <==> c in items && c !in counts
    decreases |items|
  {
    if items != [] {
      var n := |items| - 1;
      ServedIsOwn(items[..n], hits, counts);
      assert items == items[..n] + [items[n]];
    }
  }

  lemma OneTypeServesOwn(counts: map<Content, int>, items: seq<Content>)
    requires MgetParses(counts, items) && OneTypePerId(items)
    ensures Served(items, HitsById(counts, items)) == OwnHits(items, counts)
    ensures forall c :: c in Missing(items, HitsById(counts, items)) <==> c in items && c !in counts
  {
    var hits := HitsById(counts, items);
    forall i | 0 <= i < |items|
      ensures items[i].id in hits <==> items[i] in counts
      ensures items[i] in counts ==> hits[items[i].id] == counts[items[i]]
    {
      if items[i].id in hits {
        var j := HitSource(counts, items, items[i].id);
        assert items[i] == items[j];
      }
      if items[i] in counts { CachedIsHit(counts, items, i); }
    }
    ServedIsOwn(items, hits, counts);
  }

  /** Whatever the counters hold, every cached answer carries its own pair's counter. */
  ghost predicate AnswersOwnCounters(items: seq<Content>) {
    forall counts :: MgetParses(counts, items) ==> Served(items, HitsById(counts, items)) == OwnHits(items, counts)
  }

  lemma {:induction false} ServedContents(items: seq<Content>, hits: map<nat, nat>, c: Content)
    ensures (exists n: nat :: ContentCount(c, n) in Served(items, hits)) <==> c in items && c.id in hits
    decreases |items|
  {
    if items != [] {
      var n := |items| - 1;
      ServedContents(items[..n], hits, c);
      assert items == items[..n] + [items[n]];
      if c.id in hits && c == items[n] {
        assert ContentCount(c, hits[c.id]) in Served(items, hits);
      }
      if m: nat :| ContentCount(c, m) in Served(items[..n], hits) {
        assert ContentCount(c, m) in Served(items, hits);
      }
    }
  }

  lemma {:induction false} OwnHitsContents(items: seq<Content>, counts: map<Content, int>)
    requires MgetParses(counts, items)
    ensures forall r :: r in OwnHits(items, counts) ==> r.content in counts
    decreases |items|
  {
    if items != [] {
      OwnHitsContents(items[..|items| - 1], counts);
    }
  }

  /**
   The map of cached counts is keyed by content id alone. Answers are right for every state of the
   cache exactly if the batch lists each content id under one type.
   */
  lemma CachedAnswersAreOwnExactlyIfOneTypePerId(items: seq<Content>)
    ensures AnswersOwnCounters(items) <==> OneTypePerId(items)
  {
    if OneTypePerId(items) {
      forall counts | MgetParses(counts, items)
        ensures Served(items, HitsById(counts, items)) == OwnHits(items, counts)
      {
        OneTypeServesOwn(counts, items);
      }
    } else {
      var i, j :| 0 <= i < |items| && 0 <= j < |items| && items[i].id == items[j].id && items[i] != items[j];
      var counts: map<Content, int> := map[items[j] := 7];
      var hits := HitsById(counts, items);
      CachedIsHit(counts, items, j);
      ServedContents(items, hits, items[i]);
      OwnHitsContents(items, counts);
      assert Served(items, hits) != OwnHits(items, counts);
    }
  }

  // ---------- the fetched part ----------

  lemma {:induction false} FetchedOnce(missing: seq<Content>, locks: set<Content>)
    ensures Distinct(ToFetch(missing, locks))
    ensures forall c :: c in ToFetch(missing, locks) <==> c in missing && c !in locks
    decreases |missing|
  {
    if missing != [] {
      var n := |missing| - 1;
      FetchedOnce(missing[..n], locks);
      assert missing == missing[..n] + [missing[n]];
    }
  }

  /**
   Every row the batch reads from the database, answers with and hands to the background write is the
   single-item count.
   */
  lemma BatchRowsAreCounts(
      f: Faults, w: World, items: seq<Content>, after: World, reply: Result<seq<ContentCount>, DomainError>,
      job: Option<seq<ContentCount>>)
    requires IsBatchOutcome(f, w, items, after, reply, job) && job.Some?
    ensures forall r :: r in job.value ==> r.count == Count(w.likes, r.content)
  {
    var (w1, hits) := CacheMget(f, w, items);
    var fetch := ToFetch(Missing(items, hits), w1.locks);
    FetchedOnce(Missing(items, hits), w1.locks);
    DistinctInputCountsOnce(w1.likes, fetch, job.value);
  }

  /** The pairs of the batch that neither the cache answers nor an earlier flight has locked. */
  predicate Wanted(f: Faults, w: World, items: seq<Content>, c: Content) {
    c in items && c !in Visible(f, w, items) && c !in w.locks
  }

  lemma VisibleHits(f: Faults, w: World, items: seq<Content>)
    requires OneTypePerId(items)
    ensures MgetParses(Visible(f, w, items), items)
    ensures var hits := CacheMget(f, w, items).1;
            && Served(items, hits) == OwnHits(items, Visible(f, w, items))
            && forall c :: c in Missing(items, hits) <==> c in items && c !in Visible(f, w, items)
  {
    var visible := Visible(f, w, items);
    if items != [] && f.cache(w.cacheCalls) && MgetParses(w.counts, items) {
      OneTypeServesOwn(visible, items);
    } else {
      ServedIsOwn(items, map[], map[]);
    }
  }

  /**
   The reply to a batch of at most 100 items that lists each content id under one type: the cached
   hits in request order with repetitions, then one row for each distinct pair that is neither
   cached nor locked, carrying its true count, and nothing else.
   */
  lemma BatchReplyIs(
      f: Faults, w: World, items: seq<Content>, after: World, reply: Result<seq<ContentCount>, DomainError>,
      job: Option<seq<ContentCount>>)
    requires IsBatchOutcome(f, w, items, after, reply, job) && |items| <= 100 && OneTypePerId(items)
    ensures reply.Err? ==> reply.error == DatabaseError && !f.db(w.dbCalls) && exists c :: Wanted(f, w, items, c)
    ensures reply.Ok? ==>
              && MgetParses(Visible(f, w, items), items)
              && (var hits := OwnHits(items, Visible(f, w, items));
                  && hits <= reply.value
                  && (var rows := reply.value[|hits|..];
                      && Distinct(Contents(rows))
                      && (forall c :: Wanted(f, w, items, c) <==> ContentCount(c, Count(w.likes, c)) in rows)
                      && forall r :: r in rows ==> r == ContentCount(r.content, Count(w.likes, r.content))))
  {
    var (w1, found) := CacheMget(f, w, items);
    VisibleHits(f, w, items);
    hide HitsById, Served, Missing, ToFetch, Visible;
    var fetch := ToFetch(Missing(items, found), w1.locks);
    FetchedOnce(Missing(items, found), w1.locks);
    var hits := OwnHits(items, Visible(f, w, items));
    assert forall c :: Wanted(f, w, items, c) <==> c in fetch;
    if fetch != [] {
      assert Wanted(f, w, items, fetch[0]);
      if job.Some? {
        DistinctInputCountsOnce(w1.likes, fetch, job.value);
        assert reply.value[|hits|..] == job.value;
      }
    }
  }

  // ---------- the lock map after a batch ----------

  /** Every pair a batch misses is locked afterwards, and no step of the batch ever unlocks it. */
  lemma BatchLocksMissing(
      f: Faults, w: World, items: seq<Content>, after: World, reply: Result<seq<ContentCount>, DomainError>,
      job: Option<seq<ContentCount>>)
    requires IsBatchOutcome(f, w, items, after, reply, job) && |items| <= 100 && OneTypePerId(items)
    ensures after.locks == w.locks + (set c | c in items && c !in Visible(f, w, items))
    ensures after.likes == w.likes && after.counts == w.counts
  {
    VisibleHits(f, w, items);
  }

  /**
   A batch of uncached contents followed by the expiry of everything it wrote back: the same batch is
   then answered with an empty list, since its keys are still in the lock map.
   */
  lemma BatchAfterExpiryIsEmpty(
      f: Faults, w: World, items: seq<Content>, counts: map<Content, int>,
      after: World, reply: Result<seq<ContentCount>, DomainError>, job: Option<seq<ContentCount>>,
      after2: World, reply2: Result<seq<ContentCount>, DomainError>, job2: Option<seq<ContentCount>>)
    requires |items| <= 100 && OneTypePerId(items)
    requires (forall c :: c in items ==> c !in w.counts) && (forall c :: c in items ==> c !in counts)
    requires IsBatchOutcome(f, w, items, after, reply, job)
    requires IsBatchOutcome(f, after.(counts := counts), items, after2, reply2, job2)
    ensures reply2 == Ok([])
  {
    var w2 := after.(counts := counts);
    BatchLocksMissing(f, w, items, after, reply, job);
    VisibleHits(f, w2, items);
    var (w3, found) := CacheMget(f, w2, items);
    FetchedOnce(Missing(items, found), w3.locks);
    NoHits(items, Visible(f, w2, items));
    var fetch := ToFetch(Missing(items, found), w3.locks);
    NoMembers(fetch);
  }

  lemma NoMembers<T>(s: seq<T>)
    ensures (forall x :: x !in s) <==> s == []
  {
    if s != [] { assert s[0] in s; }
  }

  lemma {:induction false} NoHits(items: seq<Content>, counts: map<Content, int>)
    requires forall c :: c in items ==> c !in counts
    ensures OwnHits(items, counts) == []
    decreases |items|
  {
    if items != [] {
      assert items[|items| - 1] in items;
      NoHits(items[..|items| - 1], counts);
    }
  }
}
