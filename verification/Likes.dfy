/** The `likes` table: rows under the unique key (user, content), and the queries on it. */
module Likes {
  type UserId = nat
  type RowId = nat
  type Time = int

  /** A content type and a content id: the pair that identifies what is liked. */
  datatype Content = Content(kind: string, id: nat)

  datatype Key = Key(user: UserId, content: Content)

  datatype Stamp = Stamp(id: RowId, createdAt: Time)

  /** The unique constraint on (user_id, content_type, content_id) is the map's own. */
  type Table = map<Key, Stamp>

  datatype ContentCount = ContentCount(content: Content, count: nat)

  /** The users who like a content. */
  function Likers(t: Table, c: Content): set<UserId> {
    set k | k in t && k.content == c :: k.user
  }

  /** SELECT COUNT(*) for one content. */
  function Count(t: Table, c: Content): nat {
    |Likers(t, c)|
  }

  lemma LikersInsert(t: Table, key: Key, stamp: Stamp, c: Content)
    ensures Likers(t[key := stamp], c) == if key.content == c then Likers(t, c) + {key.user} else Likers(t, c)
  {
    var after := t[key := stamp];
    forall u ensures u in Likers(after, c) <==> Key(u, c) in after { InLikers(after, u, c); }
    forall u ensures u in Likers(t, c) <==> Key(u, c) in t { InLikers(t, u, c); }
  }

  lemma LikersDelete(t: Table, key: Key, c: Content)
    ensures Likers(t - {key}, c) == if key.content == c then Likers(t, c) - {key.user} else Likers(t, c)
  {
    var after := t - {key};
    forall u ensures u in Likers(after, c) <==> Key(u, c) in after { InLikers(after, u, c); }
    forall u ensures u in Likers(t, c) <==> Key(u, c) in t { InLikers(t, u, c); }
  }

  lemma InLikers(t: Table, u: UserId, c: Content)
    ensures u in Likers(t, c) <==> Key(u, c) in t
  {
    if Key(u, c) in t { assert Key(u, c).user == u; }
    if u in Likers(t, c) {
      var k :| k in t && k.content == c && k.user == u;
      assert k == Key(u, c);
    }
  }

  /** What INSERT ... ON CONFLICT DO NOTHING and DELETE do to the count of every content. */
  lemma CountsAfterInsert(t: Table, key: Key, stamp: Stamp)
    requires key !in t
    ensures forall c :: Count(t[key := stamp], c) == Count(t, c) + if c == key.content then 1 else 0
  {
    forall c ensures Count(t[key := stamp], c) == Count(t, c) + if c == key.content then 1 else 0 {
      LikersInsert(t, key, stamp, c);
      InLikers(t, key.user, key.content);
    }
  }

  lemma CountsAfterDelete(t: Table, key: Key)
    requires key in t
    ensures Count(t, key.content) >= 1
    ensures forall c :: Count(t - {key}, c) == Count(t, c) - if c == key.content then 1 else 0
  {
    InLikers(t, key.user, key.content);
    forall c ensures Count(t - {key}, c) == Count(t, c) - if c == key.content then 1 else 0 {
      LikersDelete(t, key, c);
    }
  }

  // ---------- the batch query ----------

  /** The rows of `UNNEST(input) LEFT JOIN likes` for one pair whose like is not null: (input row, liker). */
  function Joined(t: Table, input: seq<Content>, c: Content): set<(nat, UserId)> {
    set i: nat, u | i < |input| && input[i] == c && u in Likers(t, c) :: (i, u)
  }

  /** How often a pair is listed. */
  function Multiplicity(input: seq<Content>, c: Content): nat {
    if input == [] then 0 else Multiplicity(input[..|input| - 1], c) + if input[|input| - 1] == c then 1 else 0
  }

  predicate Distinct<T(==)>(s: seq<T>) {
    forall i, j :: 0 <= i < j < |s| ==> s[i] != s[j]
  }

  function Contents(rows: seq<ContentCount>): (cs: seq<Content>)
    ensures |cs| == |rows|
    ensures forall i :: 0 <= i < |rows| ==> cs[i] == rows[i].content
  {
    if rows == [] then [] else [rows[0].content] + Contents(rows[1..])
  }

  /** GROUP BY over the join: one row for each distinct input pair, in an order of the database's choosing. */
  ghost predicate IsGroupedJoin(t: Table, input: seq<Content>, rows: seq<ContentCount>) {
    && (forall i, j :: 0 <= i < j < |rows| ==> rows[i].content != rows[j].content)
    && (forall c :: c in input <==> exists i :: 0 <= i < |rows| && rows[i].content == c)
    && (forall i :: 0 <= i < |rows| ==> rows[i].count == |Joined(t, input, rows[i].content)|)
  }

  function Pairs(i: nat, users: set<UserId>): set<(nat, UserId)> {
    set u | u in users :: (i, u)
  }

  lemma PairsSize(i: nat, users: set<UserId>)
    ensures |Pairs(i, users)| == |users|
  {
    if users == {} {
      assert Pairs(i, users) == {};
    } else {
      var u :| u in users;
      PairsSize(i, users - {u});
      assert Pairs(i, users) == Pairs(i, users - {u}) + {(i, u)};
    }
  }

  lemma InJoined(t: Table, input: seq<Content>, c: Content, p: (nat, UserId))
    ensures p in Joined(t, input, c) <==> p.0 < |input| && input[p.0] == c && p.1 in Likers(t, c)
  {
    hide Likers;
  }

  lemma JoinedLast(t: Table, input: seq<Content>, c: Content)
    requires input != []
    ensures var n := |input| - 1;
            |Joined(t, input, c)| == |Joined(t, input[..n], c)| + if input[n] == c then Count(t, c) else 0
  {
    hide Likers, Joined;
    var n := |input| - 1;
    var all, front := Joined(t, input, c), Joined(t, input[..n], c);
    var last := if input[n] == c then Pairs(n, Likers(t, c)) else {};
    PairsSize(n, Likers(t, c));
    forall p ensures p in all <==> p in front + last {
      InJoined(t, input, c, p);
      InJoined(t, input[..n], c, p);
    }
    forall p | p in last ensures p !in front {
      InJoined(t, input[..n], c, p);
    }
    assert all == front + last && front !! last;
  }

  /** The join counts every like once for each time its pair is listed. */
  lemma {:induction false} JoinMultiplies(t: Table, input: seq<Content>, c: Content)
    ensures |Joined(t, input, c)| == Multiplicity(input, c) * Count(t, c)
    decreases |input|
  {
    if input == [] {
      assert Joined(t, input, c) == {};
    } else {
      JoinedLast(t, input, c);
      JoinMultiplies(t, input[..|input| - 1], c);
    }
  }

  lemma {:induction false} ListedOnce(input: seq<Content>, c: Content)
    requires Distinct(input)
    ensures Multiplicity(input, c) == if c in input then 1 else 0
    decreases |input|
  {
    if input != [] {
      var n := |input| - 1;
      ListedOnce(input[..n], c);
      assert input == input[..n] + [input[n]];
    }
  }

  /** On an input without repetitions, every row of the batch query carries the single-content count. */
  lemma DistinctInputCountsOnce(t: Table, input: seq<Content>, rows: seq<ContentCount>)
    requires Distinct(input) && IsGroupedJoin(t, input, rows)
    ensures forall i :: 0 <= i < |rows| ==> rows[i].count == Count(t, rows[i].content)
    ensures |rows| == |input|
    ensures forall c :: c in input <==> ContentCount(c, Count(t, c)) in rows
  {
    forall i | 0 <= i < |rows| ensures rows[i].count == Count(t, rows[i].content) {
      JoinMultiplies(t, input, rows[i].content);
      ListedOnce(input, rows[i].content);
    }
    var cs := Contents(rows);
    assert Distinct(cs);
    assert (set c | c in cs) == (set c | c in input) by {
      forall c ensures c in cs <==> c in input { }
    }
    DistinctSize(cs);
    DistinctSize(input);
    forall c ensures c in input <==> ContentCount(c, Count(t, c)) in rows {
      if c in input {
        var i :| 0 <= i < |rows| && rows[i].content == c;
        assert rows[i] == ContentCount(c, Count(t, c));
      }
    }
  }

  lemma {:induction false} DistinctSize<T>(s: seq<T>)
    requires Distinct(s)
    ensures |set x | x in s| == |s|
    decreases |s|
  {
    if s != [] {
      var n := |s| - 1;
      DistinctSize(s[..n]);
      assert s == s[..n] + [s[n]];
      assert (set x | x in s) == (set x | x in s[..n]) + {s[n]};
    }
  }
}
