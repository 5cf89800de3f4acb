/** Keyset pagination over a user's likes, newest first. */
module Pagination {
  import opened Likes
  import opened Wrappers

  datatype Row = Row(key: Key, stamp: Stamp)

  datatype Page = Page(items: seq<Row>, next: Option<Stamp>)

  /** The row comparison (created_at, id) < cursor. */
  predicate Below(s: Stamp, cursor: Stamp) {
    s.createdAt < cursor.createdAt || (s.createdAt == cursor.createdAt && s.id < cursor.id)
  }

  /** The primary key. */
  ghost predicate UniqueIds(t: Table) {
    forall k, l :: k in t && l in t && t[k].id == t[l].id ==> k == l
  }

  /** The rows selected by the WHERE clause. */
  function Matching(t: Table, user: UserId, filter: Option<string>, cursor: Option<Stamp>): set<Row> {
    set k | k in t && k.user == user
            && (filter.None? || k.content.kind == filter.value)
            && (cursor.None? || Below(t[k], cursor.value))
      :: Row(k, t[k])
  }

  // ---------- ORDER BY created_at DESC, id DESC ----------

  ghost predicate Ordered(rows: set<Row>) {
    forall r, s :: r in rows && s in rows ==> r == s || Below(r.stamp, s.stamp) || Below(s.stamp, r.stamp)
  }

  ghost predicate IsNewest(rows: set<Row>, r: Row) {
    r in rows && forall s :: s in rows && s != r ==> Below(s.stamp, r.stamp)
  }

  lemma NewestExists(rows: set<Row>)
    requires rows != {} && Ordered(rows)
    ensures exists r :: IsNewest(rows, r)
  {
    var r :| r in rows;
    var rest := rows - {r};
    if rest == {} {
      assert rows == {r};
      assert IsNewest(rows, r);
    } else {
      NewestExists(rest);
      var s :| IsNewest(rest, s);
      assert IsNewest(rows, if Below(s.stamp, r.stamp) then r else s);
    }
  }

  ghost function Newest(rows: set<Row>): (r: Row)
    requires rows != {} && Ordered(rows)
    ensures IsNewest(rows, r)
  {
    NewestExists(rows);
    var r :| IsNewest(rows, r);
    r
  }

  /** The rows, newest first. */
  ghost function Sorted(rows: set<Row>): (sorted: seq<Row>)
    requires Ordered(rows)
    ensures |sorted| == |rows|
    ensures forall r :: r in sorted <==> r in rows
    decreases |rows|
  {
    if rows == {} then [] else
      var r := Newest(rows);
      [r] + Sorted(rows - {r})
  }

  ghost predicate Descending(rows: seq<Row>) {
    forall i, j :: 0 <= i < j < |rows| ==> Below(rows[j].stamp, rows[i].stamp)
  }

  lemma {:induction false} SortedDescends(rows: set<Row>)
    requires Ordered(rows)
    ensures Descending(Sorted(rows))
    decreases |rows|
  {
    if rows != {} {
      var r := Newest(rows);
      SortedDescends(rows - {r});
      forall s | s in Sorted(rows - {r}) ensures Below(s.stamp, r.stamp) {
        assert s in rows - {r};
      }
    }
  }

  function RowsBelow(rows: set<Row>, cursor: Stamp): set<Row> {
    set r | r in rows && Below(r.stamp, cursor)
  }

  lemma SortedCons(rows: set<Row>)
    requires Ordered(rows) && rows != {}
    ensures Ordered(rows - {Newest(rows)})
    ensures Sorted(rows) == [Newest(rows)] + Sorted(rows - {Newest(rows)})
  {
  }

  /** Cutting the order at its n-th row and sorting what lies below gives the rest of the order. */
  lemma {:induction false} SortedTail(rows: set<Row>, n: nat)
    requires Ordered(rows) && 1 <= n <= |rows|
    ensures Ordered(RowsBelow(rows, Sorted(rows)[n - 1].stamp))
    ensures Sorted(RowsBelow(rows, Sorted(rows)[n - 1].stamp)) == Sorted(rows)[n..]
    decreases n
  {
    hide Sorted;
    var r := Newest(rows);
    var rest := rows - {r};
    SortedCons(rows);
    var pivot := Sorted(rows)[n - 1];
    if n == 1 {
      assert RowsBelow(rows, pivot.stamp) == rest;
    } else {
      assert pivot == Sorted(rest)[n - 2];
      assert pivot in rest;
      assert RowsBelow(rows, pivot.stamp) == RowsBelow(rest, pivot.stamp);
      SortedTail(rest, n - 1);
      assert Sorted(rows)[n..] == Sorted(rest)[n - 1..];
    }
  }

  lemma MatchingOrdered(t: Table, user: UserId, filter: Option<string>, cursor: Option<Stamp>)
    requires UniqueIds(t)
    ensures Ordered(Matching(t, user, filter, cursor))
  {
  }

  // ---------- one page ----------

  function Take<T>(s: seq<T>, n: nat): seq<T> {
    if |s| <= n then s else s[..n]
  }

  /**
   The first n rows of the order, in numbers: later ones first, larger ids first among those of one time,
   and whatever is left out comes after all of them.
   */
  lemma FirstAreNewest(rows: set<Row>, n: nat)
    requires Ordered(rows)
    ensures var first := Take(Sorted(rows), n);
            && |first| == (if |rows| <= n then |rows| else n)
            && (forall r :: r in first ==> r in rows)
            && (forall i, j :: 0 <= i < j < |first| ==>
                  || first[j].stamp.createdAt < first[i].stamp.createdAt
                  || (first[j].stamp.createdAt == first[i].stamp.createdAt && first[j].stamp.id < first[i].stamp.id))
            && (forall r, i :: r in rows && r !in first && 0 <= i < |first| ==>
                  || r.stamp.createdAt < first[i].stamp.createdAt
                  || (r.stamp.createdAt == first[i].stamp.createdAt && r.stamp.id < first[i].stamp.id))
  {
    var sorted := Sorted(rows);
    SortedDescends(rows);
    assert SameMembers(sorted, rows);
    hide *;
    FirstInNumbers(sorted, rows, n);
  }

  lemma FirstInNumbers(sorted: seq<Row>, rows: set<Row>, n: nat)
    requires Descending(sorted) && SameMembers(sorted, rows)
    ensures var first := Take(sorted, n);
            && |first| == (if |rows| <= n then |rows| else n)
            && (forall r :: r in first ==> r in rows)
            && (forall i, j :: 0 <= i < j < |first| ==>
                  || first[j].stamp.createdAt < first[i].stamp.createdAt
                  || (first[j].stamp.createdAt == first[i].stamp.createdAt && first[j].stamp.id < first[i].stamp.id))
            && (forall r, i :: r in rows && r !in first && 0 <= i < |first| ==>
                  || r.stamp.createdAt < first[i].stamp.createdAt
                  || (r.stamp.createdAt == first[i].stamp.createdAt && r.stamp.id < first[i].stamp.id))
  {
    hide *;
    MembersAre(sorted, rows);
    FirstDescend(sorted, n);
    OthersComeBelow(sorted, n);
    DescendingIs(Take(sorted, n));
    OthersBelowIs(sorted, Take(sorted, n));
    TakeLength(sorted, n);
  }

  ghost predicate SameMembers(rows: seq<Row>, all: set<Row>) {
    |rows| == |all| && forall r :: r in rows <==> r in all
  }

  lemma MembersAre(rows: seq<Row>, all: set<Row>)
    requires SameMembers(rows, all)
    ensures |rows| == |all| && forall r :: r in rows <==> r in all
  {
  }

  lemma TakeLength<T>(s: seq<T>, n: nat)
    ensures |Take(s, n)| == if |s| <= n then |s| else n
    ensures forall x :: x in Take(s, n) ==> x in s
  {
  }

  lemma FirstDescend(sorted: seq<Row>, n: nat)
    requires Descending(sorted)
    ensures Descending(Take(sorted, n))
  {
    hide Below;
  }

  /** Every row that is not among the first comes below all that are. */
  ghost predicate OthersBelow(rows: seq<Row>, first: seq<Row>) {
    forall r, i :: r in rows && r !in first && 0 <= i < |first| ==> Below(r.stamp, first[i].stamp)
  }

  lemma OthersComeBelow(sorted: seq<Row>, n: nat)
    requires Descending(sorted)
    ensures OthersBelow(sorted, Take(sorted, n))
  {
    hide Below;
    var first := Take(sorted, n);
    forall r, i | r in sorted && r !in first && 0 <= i < |first| ensures Below(r.stamp, first[i].stamp) {
      var j :| 0 <= j < |sorted| && sorted[j] == r;
      assert forall k :: 0 <= k < |first| ==> first[k] == sorted[k] && first[k] in first;
    }
  }

  lemma DescendingIs(rows: seq<Row>)
    requires Descending(rows)
    ensures forall i, j :: 0 <= i < j < |rows| ==>
              || rows[j].stamp.createdAt < rows[i].stamp.createdAt
              || (rows[j].stamp.createdAt == rows[i].stamp.createdAt && rows[j].stamp.id < rows[i].stamp.id)
  {
  }

  lemma OthersBelowIs(rows: seq<Row>, first: seq<Row>)
    requires OthersBelow(rows, first)
    ensures forall r, i :: r in rows && r !in first && 0 <= i < |first| ==>
              || r.stamp.createdAt < first[i].stamp.createdAt
              || (r.stamp.createdAt == first[i].stamp.createdAt && r.stamp.id < first[i].stamp.id)
  {
  }

  /** ORDER BY ... LIMIT n, by picking the newest remaining row. */
  method NewestFirst(rows: set<Row>, n: nat) returns (picked: seq<Row>)
    requires Ordered(rows)
    ensures picked == Take(Sorted(rows), n)
    ensures forall i, j :: 0 <= i < j < |picked| ==>
              || picked[j].stamp.createdAt < picked[i].stamp.createdAt
              || (picked[j].stamp.createdAt == picked[i].stamp.createdAt && picked[j].stamp.id < picked[i].stamp.id)
    ensures forall r, i :: r in rows && r !in picked && 0 <= i < |picked| ==>
              || r.stamp.createdAt < picked[i].stamp.createdAt
              || (r.stamp.createdAt == picked[i].stamp.createdAt && r.stamp.id < picked[i].stamp.id)
  {
    picked := PickNewest(rows, n);
    hide *;
    FirstAreNewest(rows, n);
  }

  method PickNewest(rows: set<Row>, n: nat) returns (picked: seq<Row>)
    requires Ordered(rows)
    ensures picked == Take(Sorted(rows), n)
  {
    hide Sorted;
    var left := rows;
    picked := [];
    while |picked| < n && left != {}
      invariant Ordered(left)
      invariant |picked| <= n && picked + Sorted(left) == Sorted(rows)
      decreases left
    {
      NewestExists(left);
      var top :| top in left && forall s :: s in left && s != top ==> Below(s.stamp, top.stamp);
      assert top == Newest(left) by { assert IsNewest(left, Newest(left)); }
      SortedCons(left);
      left := left - {top};
      picked := picked + [top];
    }
  }

  /** `get_user_likes`: the first n matching rows. */
  ghost function Query(t: Table, user: UserId, filter: Option<string>, cursor: Option<Stamp>, n: nat): seq<Row>
    requires UniqueIds(t)
  {
    MatchingOrdered(t, user, filter, cursor);
    Take(Sorted(Matching(t, user, filter, cursor)), n)
  }

  /** `get_user_liked_items`: one row more than the page holds tells whether there is a next page. */
  ghost function Fetch(t: Table, user: UserId, filter: Option<string>, cursor: Option<Stamp>, limit: nat): Page
    requires UniqueIds(t) && limit >= 1
  {
    var rows := Query(t, user, filter, cursor, limit + 1);
    if |rows| > limit then Page(rows[..limit], Some(rows[limit - 1].stamp)) else Page(rows, None)
  }

  predicate Selected(r: Row, user: UserId, filter: Option<string>, cursor: Option<Stamp>) {
    && r.key.user == user
    && (filter.None? || r.key.content.kind == filter.value)
    && (cursor.None? || Below(r.stamp, cursor.value))
  }

  predicate Present(t: Table, r: Row) {
    r.key in t && t[r.key] == r.stamp
  }

  lemma InMatching(t: Table, user: UserId, filter: Option<string>, cursor: Option<Stamp>, r: Row)
    ensures r in Matching(t, user, filter, cursor) <==> Present(t, r) && Selected(r, user, filter, cursor)
  {
  }

  lemma MatchingBelow(t: Table, user: UserId, filter: Option<string>, cursor: Option<Stamp>, pivot: Row)
    requires pivot in Matching(t, user, filter, cursor)
    ensures Matching(t, user, filter, Some(pivot.stamp)) == RowsBelow(Matching(t, user, filter, cursor), pivot.stamp)
    ensures Matching(t, user, filter, Some(pivot.stamp)) < Matching(t, user, filter, cursor)
  {
    hide Matching;
    var all, below := Matching(t, user, filter, cursor), Matching(t, user, filter, Some(pivot.stamp));
    InMatching(t, user, filter, cursor, pivot);
    InMatching(t, user, filter, Some(pivot.stamp), pivot);
    forall r ensures r in below <==> r in RowsBelow(all, pivot.stamp) {
      InMatching(t, user, filter, cursor, r);
      InMatching(t, user, filter, Some(pivot.stamp), r);
    }
  }

  /** A page and the rows its cursor leaves are the order cut in two. */
  lemma FetchSplitsOrder(t: Table, user: UserId, filter: Option<string>, cursor: Option<Stamp>, limit: nat)
    requires UniqueIds(t) && limit >= 1
    ensures Ordered(Matching(t, user, filter, cursor))
    ensures var page := Fetch(t, user, filter, cursor, limit);
            var all := Sorted(Matching(t, user, filter, cursor));
            && (page.next.None? ==> page.items == all && |all| <= limit)
            && (page.next.Some? ==>
                  && |all| > limit && page.items == all[..limit] && page.next == Some(all[limit - 1].stamp)
                  && Ordered(Matching(t, user, filter, page.next))
                  && Sorted(Matching(t, user, filter, page.next)) == all[limit..]
                  && Matching(t, user, filter, page.next) < Matching(t, user, filter, cursor))
  {
    hide Matching, Sorted;
    MatchingOrdered(t, user, filter, cursor);
    var rows := Matching(t, user, filter, cursor);
    if |rows| > limit {
      var last := Sorted(rows)[limit - 1];
      assert last in Sorted(rows);
      MatchingBelow(t, user, filter, cursor, last);
      SortedTail(rows, limit);
    }
  }

  /**
   A page in numbers: the likes of the user, and of the kind asked for, under the cursor, later ones first
   and larger ids first among those of one time. A matching like that is not on the page comes after
   every like that is, and there is one exactly if there is a next cursor, the last like on a full page.
   */
  lemma PageIsNewestFirst(t: Table, user: UserId, filter: Option<string>, cursor: Option<Stamp>, limit: nat)
    requires UniqueIds(t) && limit >= 1
    ensures var items := Fetch(t, user, filter, cursor, limit).items;
            && |items| <= limit
            && (forall r :: r in items ==>
                  && r.key in t && t[r.key] == r.stamp && r.key.user == user
                  && (filter.None? || r.key.content.kind == filter.value)
                  && (cursor.None? || r.stamp.createdAt < cursor.value.createdAt
                      || (r.stamp.createdAt == cursor.value.createdAt && r.stamp.id < cursor.value.id)))
            && (forall i, j :: 0 <= i < j < |items| ==>
                  || items[j].stamp.createdAt < items[i].stamp.createdAt
                  || (items[j].stamp.createdAt == items[i].stamp.createdAt && items[j].stamp.id < items[i].stamp.id))
    ensures var items := Fetch(t, user, filter, cursor, limit).items;
            forall k, i ::
              && k in t && k.user == user && (filter.None? || k.content.kind == filter.value)
              && (cursor.None? || t[k].createdAt < cursor.value.createdAt
                  || (t[k].createdAt == cursor.value.createdAt && t[k].id < cursor.value.id))
              && Row(k, t[k]) !in items && 0 <= i < |items|
              ==> || t[k].createdAt < items[i].stamp.createdAt
                  || (t[k].createdAt == items[i].stamp.createdAt && t[k].id < items[i].stamp.id)
    ensures var page := Fetch(t, user, filter, cursor, limit);
            && (page.next.Some? ==> |page.items| == limit && page.next.value == page.items[limit - 1].stamp)
            && (page.next.Some? <==> exists k ::
                  && k in t && k.user == user && (filter.None? || k.content.kind == filter.value)
                  && (cursor.None? || t[k].createdAt < cursor.value.createdAt
                      || (t[k].createdAt == cursor.value.createdAt && t[k].id < cursor.value.id))
                  && Row(k, t[k]) !in page.items)
  {
    hide Sorted, Ordered, Matching, Fetch, Take;
    FetchTakes(t, user, filter, cursor, limit);
    FirstAreNewest(Matching(t, user, filter, cursor), limit);
    MatchingIs(t, user, filter, cursor);
    var page := Fetch(t, user, filter, cursor, limit);
    if page.next.Some? {
      var r := LeftOut(Matching(t, user, filter, cursor), page.items);
      assert r.key in t && Row(r.key, t[r.key]) == r;
    }
  }

  lemma FetchTakes(t: Table, user: UserId, filter: Option<string>, cursor: Option<Stamp>, limit: nat)
    requires UniqueIds(t) && limit >= 1
    ensures Ordered(Matching(t, user, filter, cursor))
    ensures var page, rows := Fetch(t, user, filter, cursor, limit), Matching(t, user, filter, cursor);
            && page.items == Take(Sorted(rows), limit)
            && (page.next.None? ==> |rows| <= limit && forall r :: r in rows ==> r in page.items)
            && (page.next.Some? ==> |rows| > limit && page.next.value == page.items[limit - 1].stamp)
  {
    MatchingOrdered(t, user, filter, cursor);
    var rows := Matching(t, user, filter, cursor);
    var sorted := Sorted(rows);
    assert SameMembers(sorted, rows);
    hide Sorted, Matching, Ordered, SameMembers;
    MembersAre(sorted, rows);
  }

  lemma MatchingIs(t: Table, user: UserId, filter: Option<string>, cursor: Option<Stamp>)
    ensures forall r :: r in Matching(t, user, filter, cursor) <==>
              && r.key in t && t[r.key] == r.stamp && r.key.user == user
              && (filter.None? || r.key.content.kind == filter.value)
              && (cursor.None? || r.stamp.createdAt < cursor.value.createdAt
                  || (r.stamp.createdAt == cursor.value.createdAt && r.stamp.id < cursor.value.id))
  {
  }

  lemma LeftOut<T>(all: set<T>, some: seq<T>) returns (x: T)
    requires |some| < |all|
    ensures x in all && x !in some
  {
    var listed := set y | y in some;
    ListedSize(some);
    if all <= listed { SmallerOrEqual(all, listed); }
    x :| x in all && x !in listed;
  }

  lemma SmallerOrEqual<T>(a: set<T>, b: set<T>)
    requires a <= b
    ensures |a| <= |b|
  {
    assert |b - a| + |a| == |b|;
  }

  lemma {:induction false} ListedSize<T>(s: seq<T>)
    ensures |set x | x in s| <= |s|
    decreases |s|
  {
    if s != [] {
      var n := |s| - 1;
      ListedSize(s[..n]);
      assert s == s[..n] + [s[n]];
      assert (set x | x in s) == (set x | x in s[..n]) + {s[n]};
    }
  }

  // ---------- a walk over a fixed table ----------

  function Items(pages: seq<Page>): seq<Row> {
    if pages == [] then [] else pages[0].items + Items(pages[1..])
  }

  /** Following `next_cursor` until it is absent. */
  ghost function Walk(t: Table, user: UserId, filter: Option<string>, cursor: Option<Stamp>, limit: nat): seq<Page>
    requires UniqueIds(t) && limit >= 1
    decreases |Matching(t, user, filter, cursor)|
  {
    var page := Fetch(t, user, filter, cursor, limit);
    FetchSplitsOrder(t, user, filter, cursor, limit);
    if page.next.None? then [page] else
      SmallerSet(Matching(t, user, filter, page.next), Matching(t, user, filter, cursor));
      [page] + Walk(t, user, filter, page.next, limit)
  }

  lemma SmallerSet<T>(a: set<T>, b: set<T>)
    requires a < b
    ensures |a| < |b|
  {
    assert |b - a| + |a| == |b|;
  }

  /** A finished walk: every page is full and has a successor but the last, which is not empty unless alone. */
  ghost predicate FinishedWalk(pages: seq<Page>, limit: nat) {
    && |pages| >= 1 && pages[|pages| - 1].next.None?
    && (forall i :: 0 <= i < |pages| - 1 ==> |pages[i].items| == limit && pages[i].next.Some?)
    && (|pages| > 1 ==> 1 <= |pages[|pages| - 1].items|)
    && |pages[|pages| - 1].items| <= limit
  }

  lemma OnePage(page: Page, limit: nat)
    requires page.next.None? && |page.items| <= limit
    ensures FinishedWalk([page], limit) && Items([page]) == page.items
  {
    assert [page][1..] == [];
  }

  lemma PageBefore(page: Page, rest: seq<Page>, limit: nat)
    requires page.next.Some? && |page.items| == limit && FinishedWalk(rest, limit) && Items(rest) != []
    ensures FinishedWalk([page] + rest, limit) && Items([page] + rest) == page.items + Items(rest)
  {
    assert ([page] + rest)[1..] == rest;
    if |rest| == 1 { OnePage(rest[0], limit); assert rest == [rest[0]]; }
  }

  /**
   On a fixed table a walk ends; its pages are full but the last; strung together they are the
   matching rows in order, none lost and none repeated.
   */
  lemma {:induction false} WalkIsComplete(t: Table, user: UserId, filter: Option<string>, cursor: Option<Stamp>,
                                          limit: nat)
    requires UniqueIds(t) && limit >= 1
    ensures Ordered(Matching(t, user, filter, cursor))
    ensures var pages := Walk(t, user, filter, cursor, limit);
            FinishedWalk(pages, limit) && Items(pages) == Sorted(Matching(t, user, filter, cursor))
    decreases |Matching(t, user, filter, cursor)|
  {
    hide Matching, Sorted, Fetch, Ordered, UniqueIds, FinishedWalk, Items;
    var page := Fetch(t, user, filter, cursor, limit);
    FetchSplitsOrder(t, user, filter, cursor, limit);
    var all := Sorted(Matching(t, user, filter, cursor));
    if page.next.None? {
      OnePage(page, limit);
    } else {
      SmallerSet(Matching(t, user, filter, page.next), Matching(t, user, filter, cursor));
      WalkIsComplete(t, user, filter, page.next, limit);
      PageBefore(page, Walk(t, user, filter, page.next, limit), limit);
      assert all == all[..limit] + all[limit..];
    }
  }

  /**
   Every like of the user, and of the kind asked for, is on exactly one place of the walk and every other
   row on none; later likes come first, and larger ids among those of one time.
   */
  lemma WalkListsEachLikeOnce(t: Table, user: UserId, filter: Option<string>, limit: nat)
    requires UniqueIds(t) && limit >= 1
    ensures var items := Items(Walk(t, user, filter, None, limit));
            && (forall i, j :: 0 <= i < j < |items| ==>
                  || items[j].stamp.createdAt < items[i].stamp.createdAt
                  || (items[j].stamp.createdAt == items[i].stamp.createdAt && items[j].stamp.id < items[i].stamp.id))
            && forall r :: multiset(items)[r] ==
                 if r.key in t && t[r.key] == r.stamp && r.key.user == user
                    && (filter.None? || r.key.content.kind == filter.value) then 1 else 0
  {
    hide Matching, Sorted;
    var items := Items(Walk(t, user, filter, None, limit));
    WalkIsComplete(t, user, filter, None, limit);
    SortedDescends(Matching(t, user, filter, None));
    DescendingIs(items);
    forall r ensures multiset(items)[r] == if Present(t, r) && Selected(r, user, filter, None) then 1 else 0 {
      InMatching(t, user, filter, None, r);
      DescendingOnce(items, r);
      assert r in items <==> r in multiset(items);
    }
  }

  // ---------- a walk while the table changes ----------

  /** Page k is fetched from `tables[k]`; the walk stops when there is no next cursor or no further table. */
  ghost function LiveWalk(tables: seq<Table>, user: UserId, filter: Option<string>, cursor: Option<Stamp>,
                          limit: nat): seq<Page>
    requires limit >= 1 && forall i :: 0 <= i < |tables| ==> UniqueIds(tables[i])
    decreases |tables|
  {
    if tables == [] then [] else
      var page := Fetch(tables[0], user, filter, cursor, limit);
      if page.next.None? then [page] else [page] + LiveWalk(tables[1..], user, filter, page.next, limit)
  }

  ghost predicate Completed(pages: seq<Page>) {
    pages != [] && pages[|pages| - 1].next.None?
  }

  lemma PageDescends(t: Table, user: UserId, filter: Option<string>, cursor: Option<Stamp>, limit: nat)
    requires UniqueIds(t) && limit >= 1
    ensures var page := Fetch(t, user, filter, cursor, limit);
            && Descending(page.items)
            && (forall r :: r in page.items ==> Selected(r, user, filter, cursor))
            && (page.next.Some? ==>
                  && page.items != [] && page.next.value == page.items[|page.items| - 1].stamp)
  {
    hide Matching, Sorted, Fetch, Ordered;
    FetchSplitsOrder(t, user, filter, cursor, limit);
    var all := Sorted(Matching(t, user, filter, cursor));
    SortedDescends(Matching(t, user, filter, cursor));
    forall r | r in Fetch(t, user, filter, cursor, limit).items ensures Selected(r, user, filter, cursor) {
      assert r in all;
      InMatching(t, user, filter, cursor, r);
    }
  }

  /** Rows below the last row of a descending list extend it to a descending list. */
  lemma DescendingOnward(items: seq<Row>, later: seq<Row>)
    requires Descending(items) && Descending(later) && items != []
    requires forall r :: r in later ==> Below(r.stamp, items[|items| - 1].stamp)
    ensures Descending(items + later)
  {
    forall i, j | 0 <= i < |items| && 0 <= j < |later| ensures Below(later[j].stamp, items[i].stamp) {
      assert later[j] in later;
    }
  }

  /** Whatever happens to the table between fetches, the pages descend, and so no row is returned twice. */
  lemma {:induction false} LiveWalkDescends(
      tables: seq<Table>, user: UserId, filter: Option<string>, cursor: Option<Stamp>, limit: nat)
    requires limit >= 1 && forall i :: 0 <= i < |tables| ==> UniqueIds(tables[i])
    ensures var items := Items(LiveWalk(tables, user, filter, cursor, limit));
            Descending(items) && forall r :: r in items ==> Selected(r, user, filter, cursor)
    decreases |tables|
  {
    hide Fetch, UniqueIds;
    if tables == [] { return; }
    var page := Fetch(tables[0], user, filter, cursor, limit);
    PageDescends(tables[0], user, filter, cursor, limit);
    var pages := LiveWalk(tables, user, filter, cursor, limit);
    if page.next.None? {
      assert pages[1..] == [];
    } else {
      var rest := LiveWalk(tables[1..], user, filter, page.next, limit);
      LiveWalkDescends(tables[1..], user, filter, page.next, limit);
      assert pages[1..] == rest;
      assert page.items[|page.items| - 1] in page.items;
      DescendingOnward(page.items, Items(rest));
    }
  }

  lemma {:induction false} LiveWalkFinds(
      tables: seq<Table>, user: UserId, filter: Option<string>, cursor: Option<Stamp>, limit: nat, r: Row)
    requires limit >= 1 && forall i :: 0 <= i < |tables| ==> UniqueIds(tables[i])
    requires Completed(LiveWalk(tables, user, filter, cursor, limit))
    requires forall i :: 0 <= i < |tables| ==> Present(tables[i], r)
    requires Selected(r, user, filter, cursor)
    ensures r in Items(LiveWalk(tables, user, filter, cursor, limit))
    decreases |tables|
  {
    hide Matching, Sorted, Fetch, Ordered;
    var t := tables[0];
    var page := Fetch(t, user, filter, cursor, limit);
    FetchSplitsOrder(t, user, filter, cursor, limit);
    var all := Sorted(Matching(t, user, filter, cursor));
    InMatching(t, user, filter, cursor, r);
    assert r in all;
    var pages := LiveWalk(tables, user, filter, cursor, limit);
    if page.next.Some? {
      var rest := LiveWalk(tables[1..], user, filter, page.next, limit);
      assert pages == [page] + rest && pages[1..] == rest;
      if r !in page.items {
        InMatching(t, user, filter, page.next, r);
        assert all == all[..limit] + all[limit..];
        assert r in Sorted(Matching(t, user, filter, page.next));
        LiveWalkFinds(tables[1..], user, filter, page.next, limit, r);
      }
    }
  }

  lemma {:induction false} DescendingOnce(rows: seq<Row>, r: Row)
    requires Descending(rows)
    ensures multiset(rows)[r] <= 1
    decreases |rows|
  {
    if rows != [] {
      DescendingOnce(rows[1..], r);
      assert rows == [rows[0]] + rows[1..];
      assert multiset(rows) == multiset{rows[0]} + multiset(rows[1..]);
      forall i | 0 <= i < |rows[1..]| ensures rows[1..][i] != rows[0] {
        assert Below(rows[i + 1].stamp, rows[0].stamp);
      }
    }
  }

  /**
   With likes inserted and deleted at will between page fetches, the items still come later ones first,
   larger ids first among those of one time, and no like more than once; a completed walk returns every
   like of the user and kind that was present at each of its fetches.
   */
  lemma PaginationUnderMutation(tables: seq<Table>, user: UserId, filter: Option<string>, limit: nat, r: Row)
    requires limit >= 1 && forall i :: 0 <= i < |tables| ==> UniqueIds(tables[i])
    ensures var items := Items(LiveWalk(tables, user, filter, None, limit));
            forall i, j :: 0 <= i < j < |items| ==>
              || items[j].stamp.createdAt < items[i].stamp.createdAt
              || (items[j].stamp.createdAt == items[i].stamp.createdAt && items[j].stamp.id < items[i].stamp.id)
    ensures var pages := LiveWalk(tables, user, filter, None, limit);
            var times := multiset(Items(pages))[r];
            && times <= 1
            && (Completed(pages)
                && r.key.user == user && (filter.None? || r.key.content.kind == filter.value)
                && (forall i :: 0 <= i < |tables| ==> r.key in tables[i] && tables[i][r.key] == r.stamp)
                ==> times == 1)
  {
    var pages := LiveWalk(tables, user, filter, None, limit);
    LiveWalkDescends(tables, user, filter, None, limit);
    DescendingIs(Items(pages));
    DescendingOnce(Items(pages), r);
    if Completed(pages) && Selected(r, user, filter, None)
       && (forall i :: 0 <= i < |tables| ==> r.key in tables[i] && tables[i][r.key] == r.stamp)
    {
      assert forall i :: 0 <= i < |tables| ==> Present(tables[i], r);
      LiveWalkFinds(tables, user, filter, None, limit, r);
    }
  }
}
