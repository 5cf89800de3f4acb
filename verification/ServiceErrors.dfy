/** Which errors the operations answer, and for which failing commands. */
module ServiceErrors {
  import opened Likes
  import opened ServiceSpec
  import opened Wrappers

  /**
   A read fails exactly if neither GET delivers a count and the count query fails, and then with the
   database's error.
   */
  lemma ReadFailsExactlyIf(f: Faults, w: World, c: Content)
    ensures var read := ReadCount(f, w, c).1;
            var readable := c in w.counts && w.counts[c] >= 0;
            && (read.Err? <==> !(readable && (f.cache(w.cacheCalls) || f.cache(w.cacheCalls + 1))) && !f.db(w.dbCalls))
            && (read.Err? ==> read.error == DatabaseError)
  {
  }

  /** What a read leaves behind, and which commands it took. */
  lemma ReadTakes(f: Faults, w: World, c: Content)
    ensures var (after, read) := ReadCount(f, w, c);
            var readable := c in w.counts && w.counts[c] >= 0;
            var first, second := readable && f.cache(w.cacheCalls), readable && f.cache(w.cacheCalls + 1);
            && after.likes == w.likes
            && (read.Ok? ==> read.value == if first || second then w.counts[c] else Count(w.likes, c))
            && after.dbCalls == (if first || second then w.dbCalls else w.dbCalls + 1)
            && after.cacheCalls == (if first then w.cacheCalls + 1
                                    else if second || read.Err? then w.cacheCalls + 2 else w.cacheCalls + 3)
            && after.counts == if first || second || read.Err? || !f.cache(w.cacheCalls + 2) then w.counts
                               else w.counts[c := Count(w.likes, c)]
  {
    hide Count;
  }

  /**
   An add of a valid content fails exactly if its INSERT fails; or the like existed and the count cannot be
   read or the row not fetched; or it is new, the INCR fails or leaves a negative counter, and the count
   query fails too. It then answers the database's error. An invalid content is answered with the
   validator's error, and nothing is touched.
   */
  lemma AddFailsExactlyIf(f: Faults, w: World, key: Key, stamp: Stamp)
    ensures Add(f, w, key, stamp, true) == (w, Err(InvalidContent))
    ensures var added := Add(f, w, key, stamp, false).1;
            var c, db, cache := key.content, w.dbCalls, w.cacheCalls;
            var hit := c in w.counts && w.counts[c] >= 0 && (f.cache(cache) || f.cache(cache + 1));
            var counted := f.cache(cache) && (c in w.counts ==> w.counts[c] >= -1);
            && (added.Err? ==> added.error == DatabaseError)
            && (added.Err? <==>
                  || !f.db(db)
                  || (if key in w.likes then !f.db(db + 1) || (!hit && !f.db(db + 2)) else !counted && !f.db(db + 1)))
  {
    var w1 := DbSave(f, w, key, stamp).0;
    ReadFailsExactlyIf(f, w1, key.content);
    ReadTakes(f, w1, key.content);
    hide ReadCount, Count;
  }

  /**
   A removal of a valid content fails exactly if its DELETE fails; or the count cannot be read; or a like
   was removed, the count read is not 0, the DECR fails or leaves a negative counter, and the count query
   after it fails too. It then answers the database's error.
   */
  lemma RemoveFailsExactlyIf(f: Faults, w: World, key: Key)
    ensures Remove(f, w, key, true) == (w, Err(InvalidContent))
    ensures var removed := Remove(f, w, key, false).1;
            var c, db, cache := key.content, w.dbCalls, w.cacheCalls;
            var readable := c in w.counts && w.counts[c] >= 0;
            var first := readable && f.cache(cache);
            var hit := first || (readable && f.cache(cache + 1));
            var left := Count(w.likes - {key}, c);
            var read := if hit then w.counts[c] else left;
            var filled := !hit && f.cache(cache + 2);
            var held := if filled then left else if c in w.counts then w.counts[c] else 0;
            var counted := f.cache(if first then cache + 1 else if hit then cache + 2 else cache + 3) && held >= 1;
            && (removed.Err? ==> removed.error == DatabaseError)
            && (removed.Err? <==>
                  || !f.db(db)
                  || (!hit && !f.db(db + 1))
                  || (key in w.likes && read != 0 && !counted && !f.db(if hit then db + 1 else db + 2)))
  {
    var w1 := DbRemove(f, w, key).0;
    ReadFailsExactlyIf(f, w1, key.content);
    ReadTakes(f, w1, key.content);
    hide ReadCount, Count;
  }

  /** A batch of at most 100 items is never refused for its size, and a larger one always, before any command. */
  lemma BatchIsRefusedExactlyAboveHundred(
      f: Faults, w: World, items: seq<Content>, after: World, reply: Result<seq<ContentCount>, DomainError>,
      job: Option<seq<ContentCount>>)
    requires IsBatchOutcome(f, w, items, after, reply, job)
    ensures |items| <= 100 ==> reply.Ok? || reply.error == DatabaseError
    ensures |items| > 100 ==> reply == Err(BatchTooLarge(|items|)) && after == w && job == None
  {
    hide CacheMget, Served, Missing, ToFetch, SetOf, IsGroupedJoin;
  }
}
