/** The leaderboard query: contents by number of likes, most liked first. */
module TopLikes {
  import opened Arithmetic
  import opened Likes
  import opened Wrappers

  /** The rows the WHERE clause keeps. */
  function Recent(t: Table, kind: Option<string>, since: Option<Time>): set<Key> {
    set k | k in t && (kind.None? || k.content.kind == kind.value) && (since.None? || t[k].createdAt >= since.value)
  }

  /** GROUP BY content with COUNT(*): only contents with a row that is kept. */
  function Grouped(t: Table, kind: Option<string>, since: Option<Time>): map<Content, nat> {
    var rows := Recent(t, kind, since);
    map k | k in rows :: k.content := |set l | l in rows && l.content == k.content|
  }

  lemma InRecent(t: Table, kind: Option<string>, since: Option<Time>, k: Key)
    ensures k in Recent(t, kind, since) <==>
              && k in t && (kind.None? || k.content.kind == kind.value)
              && (since.None? || t[k].createdAt >= since.value)
  {
  }

  lemma UsersCount(keys: set<Key>, users: set<UserId>, c: Content)
    requires forall k :: k in keys ==> k.content == c
    requires forall u :: u in users <==> Key(u, c) in keys
    ensures |keys| == |users|
    decreases |keys|
  {
    if keys == {} {
      assert users == {};
    } else {
      var k :| k in keys;
      assert k == Key(k.user, c);
      UsersCount(keys - {k}, users - {k.user}, c);
    }
  }

  /**
   The groups of the query in the terms of the table: a content has one exactly if some user's like of it
   is of the kind asked for and not older than `since`, and its count is the number of such users.
   */
  lemma GroupsAre(t: Table, kind: Option<string>, since: Option<Time>, c: Content)
    ensures c in Grouped(t, kind, since) <==>
              exists u: UserId ::
                && Key(u, c) in t && (kind.None? || c.kind == kind.value)
                && (since.None? || t[Key(u, c)].createdAt >= since.value)
    ensures c in Grouped(t, kind, since) ==>
              Grouped(t, kind, since)[c]
              == |set k | k in t && k.content == c && (since.None? || t[k].createdAt >= since.value) :: k.user|
  {
    var rows := Recent(t, kind, since);
    forall k ensures k in rows <==>
                       && k in t && (kind.None? || k.content.kind == kind.value)
                       && (since.None? || t[k].createdAt >= since.value)
    {
      InRecent(t, kind, since, k);
    }
    hide Recent;
    if u: UserId :| Key(u, c) in t && (kind.None? || c.kind == kind.value)
                    && (since.None? || t[Key(u, c)].createdAt >= since.value)
    {
      assert Key(u, c) in rows;
    }
    if c in Grouped(t, kind, since) {
      var k :| k in rows && k.content == c;
      assert k == Key(k.user, c);
      var keys := set l | l in rows && l.content == c;
      var users := set l | l in t && l.content == c && (since.None? || t[l].createdAt >= since.value) :: l.user;
      forall u ensures u in users <==> Key(u, c) in keys {
        if Key(u, c) in keys { assert Key(u, c).user == u; }
        if u in users {
          var l :| l in t && l.content == c && (since.None? || t[l].createdAt >= since.value) && l.user == u;
          assert l == Key(u, c);
        }
      }
      UsersCount(keys, users, c);
    }
  }

  /** Without a window, the count of a group is the single-content count. */
  lemma GroupsOfAllTime(t: Table, kind: Option<string>, c: Content)
    ensures c in Grouped(t, kind, None) <==> Count(t, c) >= 1 && (kind.None? || c.kind == kind.value)
    ensures c in Grouped(t, kind, None) ==> Grouped(t, kind, None)[c] == Count(t, c)
  {
    GroupsAre(t, kind, None, c);
    AllUsers(t, None, c);
    hide Grouped;
    var users := Likers(t, c);
    forall u: UserId ensures Key(u, c) in t <==> u in users { InLikers(t, u, c); }
    if Count(t, c) >= 1 {
      var u :| u in users;
    }
  }

  lemma AllUsers(t: Table, since: Option<Time>, c: Content)
    ensures |set k | k in t && k.content == c
            && (since.None? || t[k].createdAt >= since.value) :: k.user| == Count(t, c)
            || since.Some?
  {
    var users := set k | k in t && k.content == c && (since.None? || t[k].createdAt >= since.value) :: k.user;
    if since.None? { assert users == Likers(t, c); }
  }

  ghost predicate Listed(rows: seq<ContentCount>, c: Content) {
    exists i :: 0 <= i < |rows| && rows[i].content == c
  }

  /** The first `limit` groups in descending order of count; ties are ordered as the database likes. */
  ghost predicate IsTop(rows: seq<ContentCount>, grouped: map<Content, nat>, limit: int) {
    && |rows| == Min(limit, |grouped.Keys|)
    && (forall i, j :: 0 <= i < j < |rows| ==> rows[i].content != rows[j].content)
    && (forall i :: 0 <= i < |rows| ==> rows[i].content in grouped && rows[i].count == grouped[rows[i].content])
    && (forall i, j :: 0 <= i < j < |rows| ==> rows[i].count >= rows[j].count)
    && (forall c, i :: c in grouped && !Listed(rows, c) && 0 <= i < |rows| ==> grouped[c] <= rows[i].count)
  }

  lemma MostLikedExists(grouped: map<Content, nat>, left: set<Content>)
    requires left != {} && left <= grouped.Keys
    ensures exists c :: c in left && forall d :: d in left ==> grouped[d] <= grouped[c]
  {
    var c :| c in left;
    var rest := left - {c};
    if rest == {} {
      assert left == {c};
    } else {
      MostLikedExists(grouped, rest);
      var d :| d in rest && forall e :: e in rest ==> grouped[e] <= grouped[d];
      var best := if grouped[c] >= grouped[d] then c else d;
      assert best in left && forall e :: e in left ==> grouped[e] <= grouped[best] by {
        assert forall e :: e in left ==> e == c || e in rest;
      }
    }
  }

  /** `rows` lists, most liked first, what has been picked; everything in `left` has no more likes. */
  ghost predicate Picked(rows: seq<ContentCount>, left: set<Content>, grouped: map<Content, nat>) {
    && (forall i, j :: 0 <= i < j < |rows| ==> rows[i].content != rows[j].content)
    && (forall i :: 0 <= i < |rows| ==> rows[i].content in grouped && rows[i].count == grouped[rows[i].content])
    && (forall i, j :: 0 <= i < j < |rows| ==> rows[i].count >= rows[j].count)
    && left <= grouped.Keys
    && (forall c :: c in grouped ==> (c in left <==> !Listed(rows, c)))
    && (forall c, i :: c in left && 0 <= i < |rows| ==> grouped[c] <= rows[i].count)
  }

  lemma PickNext(rows: seq<ContentCount>, left: set<Content>, grouped: map<Content, nat>, best: Content)
    requires Picked(rows, left, grouped) && best in left && forall d :: d in left ==> grouped[d] <= grouped[best]
    ensures Picked(rows + [ContentCount(best, grouped[best])], left - {best}, grouped)
  {
    var next, rest := rows + [ContentCount(best, grouped[best])], left - {best};
    forall c | c in grouped ensures c in rest <==> !Listed(next, c) {
      if c == best {
        assert next[|rows|].content == c;
      } else if Listed(rows, c) {
        var i :| 0 <= i < |rows| && rows[i].content == c;
        assert next[i].content == c;
      }
    }
  }

  /** ORDER BY count DESC LIMIT: picks a most liked remaining content until `limit` are found. */
  method MostLiked(grouped: map<Content, nat>, limit: nat) returns (rows: seq<ContentCount>)
    ensures IsTop(rows, grouped, limit)
  {
    var left := grouped.Keys;
    rows := [];
    while |rows| < limit && left != {}
      invariant |rows| <= limit && |rows| + |left| == |grouped.Keys|
      invariant Picked(rows, left, grouped)
      decreases left
    {
      MostLikedExists(grouped, left);
      var best :| best in left && forall d :: d in left ==> grouped[d] <= grouped[best];
      PickNext(rows, left, grouped, best);
      left := left - {best};
      rows := rows + [ContentCount(best, grouped[best])];
    }
  }

  /**
   A top list in the terms of the table: different contents of the kind asked for, each with the number of
   its likes not older than `since`, larger numbers first; and what is left out, if the list has room for
   nothing more, has no more such likes than anything listed.
   */
  lemma TopListIs(rows: seq<ContentCount>, t: Table, kind: Option<string>, since: Option<Time>, limit: int)
    requires IsTop(rows, Grouped(t, kind, since), limit)
    ensures |rows| <= limit
    ensures forall i :: 0 <= i < |rows| ==>
              && (kind.None? || rows[i].content.kind == kind.value) && rows[i].count >= 1
              && rows[i].count
                 == |set k | k in t && k.content == rows[i].content
                             && (since.None? || t[k].createdAt >= since.value) :: k.user|
    ensures forall i, j :: 0 <= i < j < |rows| ==> rows[i].content != rows[j].content && rows[i].count >= rows[j].count
    ensures forall k ::
              && k in t && (kind.None? || k.content.kind == kind.value)
              && (since.None? || t[k].createdAt >= since.value)
              && (forall i :: 0 <= i < |rows| ==> rows[i].content != k.content)
              ==> && |rows| == limit
                  && forall i :: 0 <= i < |rows| ==>
                       rows[i].count
                       >= |set l | l in t && l.content == k.content
                                   && (since.None? || t[l].createdAt >= since.value) :: l.user|
  {
    var groups := Grouped(t, kind, since);
    forall i | 0 <= i < |rows|
      ensures && (kind.None? || rows[i].content.kind == kind.value) && rows[i].count >= 1
              && rows[i].count
                 == |set k | k in t && k.content == rows[i].content
                             && (since.None? || t[k].createdAt >= since.value) :: k.user|
    {
      ListedGroup(t, kind, since, rows[i].content);
    }
    forall k | && k in t && (kind.None? || k.content.kind == kind.value)
               && (since.None? || t[k].createdAt >= since.value)
               && (forall i :: 0 <= i < |rows| ==> rows[i].content != k.content)
      ensures |rows| == limit
      ensures forall i :: 0 <= i < |rows| ==>
                rows[i].count
                >= |set l | l in t && l.content == k.content
                            && (since.None? || t[l].createdAt >= since.value) :: l.user|
    {
      hide Grouped, IsTop;
      LikedIsGrouped(t, kind, since, k);
      ListedGroup(t, kind, since, k.content);
      assert !Listed(rows, k.content);
      ShortListsAreWhole(rows, groups, limit, k.content);
    }
  }

  lemma LikedIsGrouped(t: Table, kind: Option<string>, since: Option<Time>, k: Key)
    requires k in t && (kind.None? || k.content.kind == kind.value) && (since.None? || t[k].createdAt >= since.value)
    ensures k.content in Grouped(t, kind, since)
  {
    assert k == Key(k.user, k.content);
    GroupsAre(t, kind, since, k.content);
  }

  lemma ListedGroup(t: Table, kind: Option<string>, since: Option<Time>, c: Content)
    requires c in Grouped(t, kind, since)
    ensures (kind.None? || c.kind == kind.value) && Grouped(t, kind, since)[c] >= 1
    ensures Grouped(t, kind, since)[c]
            == |set k | k in t && k.content == c && (since.None? || t[k].createdAt >= since.value) :: k.user|
  {
    GroupsAre(t, kind, since, c);
    hide Grouped;
    var u: UserId :| && Key(u, c) in t && (kind.None? || c.kind == kind.value)
                     && (since.None? || t[Key(u, c)].createdAt >= since.value);
    var users := set k | k in t && k.content == c && (since.None? || t[k].createdAt >= since.value) :: k.user;
    assert Key(u, c).user in users;
  }

  lemma ShortListsAreWhole(rows: seq<ContentCount>, grouped: map<Content, nat>, limit: int, c: Content)
    requires IsTop(rows, grouped, limit) && c in grouped && !Listed(rows, c)
    ensures |rows| == limit
    ensures forall i :: 0 <= i < |rows| ==> grouped[c] <= rows[i].count
  {
    if |rows| != limit {
      assert |rows| == |grouped.Keys|;
      FirstContentsSize(rows, |rows|);
      var listed := FirstContents(rows, |rows|);
      assert c !in listed;
      assert listed <= grouped.Keys - {c};
      SubsetSize(listed, grouped.Keys - {c});
      assert false;
    }
  }

  // ---------- the query determines the counts ----------

  function FirstContents(rows: seq<ContentCount>, n: nat): set<Content>
    requires n <= |rows|
  {
    set i | 0 <= i < n :: rows[i].content
  }

  lemma {:induction false} FirstContentsSize(rows: seq<ContentCount>, n: nat)
    requires n <= |rows| && forall i, j :: 0 <= i < j < |rows| ==> rows[i].content != rows[j].content
    ensures |FirstContents(rows, n)| == n
    decreases n
  {
    if n > 0 {
      FirstContentsSize(rows, n - 1);
      assert FirstContents(rows, n) == FirstContents(rows, n - 1) + {rows[n - 1].content};
    }
  }

  lemma SubsetSize<T>(a: set<T>, b: set<T>)
    requires a <= b
    ensures |a| <= |b|
  {
    assert |b - a| + |a| == |b|;
  }

  /** A content with more likes than the n-th row is among the rows before it. */
  lemma BetterIsListedEarlier(rows: seq<ContentCount>, grouped: map<Content, nat>, limit: nat, n: nat, c: Content)
    requires IsTop(rows, grouped, limit) && n < |rows| && c in grouped && grouped[c] > rows[n].count
    ensures c in FirstContents(rows, n)
  {
    assert Listed(rows, c);
    var j :| 0 <= j < |rows| && rows[j].content == c;
    assert j < n;
  }

  /** Ties aside, the answer is determined: any two answers to the query agree on the count at every position. */
  lemma TopCountsAreDetermined(a: seq<ContentCount>, b: seq<ContentCount>, grouped: map<Content, nat>, limit: nat,
                               n: nat)
    requires IsTop(a, grouped, limit) && IsTop(b, grouped, limit) && n < |a|
    ensures |a| == |b| && a[n].count == b[n].count
  {
    NoBetterCount(a, b, grouped, limit, n);
    NoBetterCount(b, a, grouped, limit, n);
  }

  lemma LeadersHaveMore(a: seq<ContentCount>, grouped: map<Content, nat>, limit: nat, n: nat, c: Content)
    requires IsTop(a, grouped, limit) && n < |a| && c in FirstContents(a, n + 1)
    ensures c in grouped && grouped[c] >= a[n].count
  {
    var i :| 0 <= i < n + 1 && a[i].content == c;
    assert i == n || a[i].count >= a[n].count;
  }

  lemma TopLength(rows: seq<ContentCount>, grouped: map<Content, nat>, limit: nat)
    requires IsTop(rows, grouped, limit)
    ensures |rows| == Min(limit, |grouped.Keys|)
  {
  }

  lemma FirstOfTop(rows: seq<ContentCount>, grouped: map<Content, nat>, limit: nat, n: nat)
    requires IsTop(rows, grouped, limit) && n <= |rows|
    ensures |FirstContents(rows, n)| == n
  {
    FirstContentsSize(rows, n);
  }

  lemma NoBetterCount(a: seq<ContentCount>, b: seq<ContentCount>, grouped: map<Content, nat>, limit: nat, n: nat)
    requires IsTop(a, grouped, limit) && IsTop(b, grouped, limit) && n < |a|
    ensures n < |b| && a[n].count <= b[n].count
  {
    hide IsTop, FirstContents;
    TopLength(a, grouped, limit);
    TopLength(b, grouped, limit);
    FirstOfTop(a, grouped, limit, n + 1);
    FirstOfTop(b, grouped, limit, n);
    if a[n].count > b[n].count {
      forall c | c in FirstContents(a, n + 1) ensures c in FirstContents(b, n) {
        LeadersHaveMore(a, grouped, limit, n, c);
        BetterIsListedEarlier(b, grouped, limit, n, c);
      }
      SubsetSize(FirstContents(a, n + 1), FirstContents(b, n));
    }
  }

  /** A list that is right for one limit is right for another if both cut off the same number of groups. */
  lemma CachedListFitsLimitExactlyIf(rows: seq<ContentCount>, grouped: map<Content, nat>, cached: int, requested: int)
    requires IsTop(rows, grouped, cached)
    ensures IsTop(rows, grouped, requested) <==> Min(cached, |grouped.Keys|) == Min(requested, |grouped.Keys|)
  {
  }
}
