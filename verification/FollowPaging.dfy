/**
 Keyset paging over the follow rows of one user, newest first. The table may change between
 two pages. A cursor is the (created_at, id) pair of the last row shown.
 */
module FollowPaging {
  import opened Common
  import FollowCounts

  datatype Cursor = Cursor(createdAt: int, id: nat)

  datatype FollowRow = FollowRow(key: Cursor, userId: nat)

  /** The later timestamp comes first, and the larger id among equal timestamps. */
  predicate Before(a: Cursor, b: Cursor) {
    a.createdAt > b.createdAt || (a.createdAt == b.createdAt && a.id > b.id)
  }

  /** Primary keys: rows with the same id are the same row. */
  ghost predicate UniqueIds(rows: set<FollowRow>) {
    forall a, b :: a in rows && b in rows && a.key.id == b.key.id ==> a == b
  }

  ghost predicate Descending(s: seq<FollowRow>) {
    forall i, j :: 0 <= i < j < |s| ==> Before(s[i].key, s[j].key)
  }

  // ---- the query ----

  /** The rows that the cursor's condition selects. */
  function Selected(rows: set<FollowRow>, cursor: Option<Cursor>): set<FollowRow> {
    set r | r in rows && (cursor.Some? ==> Before(cursor.value, r.key))
  }

  ghost predicate IsFirst(r: FollowRow, rows: set<FollowRow>) {
    r in rows && forall x :: x in rows && x != r ==> Before(r.key, x.key)
  }

  lemma {:induction false} FirstExists(rows: set<FollowRow>)
    requires rows != {} && UniqueIds(rows)
    ensures exists first :: IsFirst(first, rows)
  {
    var x :| x in rows;
    if rows == {x} {
      assert IsFirst(x, rows);
    } else {
      FirstExists(rows - {x});
      var y :| IsFirst(y, rows - {x});
      assert IsFirst(if Before(x.key, y.key) then x else y, rows);
    }
  }

  /** The rows in page order. */
  ghost function Listed(rows: set<FollowRow>): seq<FollowRow>
    requires UniqueIds(rows)
  {
    if rows == {} then []
    else
      FirstExists(rows);
      var first :| IsFirst(first, rows);
      [first] + Listed(rows - {first})
  }

  lemma {:induction false} ListedIsOrdered(rows: set<FollowRow>)
    requires UniqueIds(rows)
    ensures Descending(Listed(rows)) && |Listed(rows)| == |rows|
    ensures forall r :: r in Listed(rows) <==> r in rows
  {
    if rows != {} {
      var first := Listed(rows)[0];
      FirstExists(rows);
      assert IsFirst(first, rows);
      ListedIsOrdered(rows - {first});
    }
  }

  /** Up to limit + 1 rows in page order, starting after the cursor. */
  ghost function Fetched(rows: set<FollowRow>, limit: nat, cursor: Option<Cursor>): seq<FollowRow>
    requires UniqueIds(rows)
  {
    var all := Listed(Selected(rows, cursor));
    if |all| > limit + 1 then all[..limit + 1] else all
  }

  // ---- the response ----

  datatype Entry = Entry(userId: nat, viewerFollowing: bool, viewerFollowedBy: bool, mutual: bool)

  function EntryOf(row: FollowRow, hasViewer: bool, following: set<nat>, followedBy: set<nat>): Entry {
    var out, back := hasViewer && row.userId in following, hasViewer && row.userId in followedBy;
    Entry(row.userId, out, back, out && back)
  }

  /** The flags say who follows whom: the viewer the listed user, the listed user the viewer, or both. */
  lemma EntryShowsEdges(row: FollowRow, viewer: Option<nat>, edges: set<FollowCounts.Edge>)
    ensures var following := if viewer.Some? then FollowCounts.FollowedBy(edges, viewer.value) else {};
            var followedBy := if viewer.Some? then FollowCounts.FollowersOf(edges, viewer.value) else {};
            var entry := EntryOf(row, viewer.Some?, following, followedBy);
            && entry.userId == row.userId
            && (entry.viewerFollowing <==> viewer.Some? && FollowCounts.Edge(viewer.value, row.userId) in edges)
            && (entry.viewerFollowedBy <==> viewer.Some? && FollowCounts.Edge(row.userId, viewer.value) in edges)
            && (entry.mutual <==> entry.viewerFollowing && entry.viewerFollowedBy)
  {
    if viewer.Some? {
      FollowCounts.NeighboursAre(edges, viewer.value, row.userId);
    }
  }

  function Shown(rows: seq<FollowRow>, limit: nat): seq<FollowRow> {
    if |rows| > limit then rows[..limit] else rows
  }

  /** A cursor is returned when a row beyond the limit was fetched. */
  function NextCursor(rows: seq<FollowRow>, limit: nat): Option<Cursor> {
    if |rows| > limit && limit > 0 then Some(rows[limit - 1].key) else None
  }

  function Limit(requested: Option<int>): (limit: nat)
    ensures 1 <= limit <= 100
    ensures if requested.Some? && 1 <= requested.value <= 100 then limit == requested.value else limit == 20
  {
    match requested
    case Some(n) => if 1 <= n <= 100 then n else 20
    case None => 20
  }

  method BuildFollowListResponse(rows: seq<FollowRow>, limit: nat, hasViewer: bool, following: set<nat>,
      followedBy: set<nat>)
    returns (entries: seq<Entry>, next: Option<Cursor>)
    ensures |entries| == |Shown(rows, limit)|
    ensures forall i :: 0 <= i < |entries| ==>
        entries[i] == EntryOf(Shown(rows, limit)[i], hasViewer, following, followedBy)
    ensures next == NextCursor(rows, limit)
  {
    var hasMore, shown := |rows| > limit, rows;
    if hasMore {
      shown := rows[..limit];
    }
    var dtos := new Entry[|shown|];
    for i := 0 to |shown|
      invariant forall j :: 0 <= j < i ==> dtos[j] == EntryOf(shown[j], hasViewer, following, followedBy)
    {
      var isFollowing, isFollowedBy := shown[i].userId in following, shown[i].userId in followedBy;
      dtos[i] := Entry(shown[i].userId, hasViewer && isFollowing, hasViewer && isFollowedBy,
                       hasViewer && isFollowing && isFollowedBy);
    }
    next := None;
    if hasMore && |shown| > 0 {
      next := Some(shown[|shown| - 1].key);
    }
    entries := dtos[..];
  }

  // ---- walking the pages ----

  ghost predicate Tables(tables: seq<set<FollowRow>>) {
    forall i :: 0 <= i < |tables| ==> UniqueIds(tables[i])
  }

  /** The rows shown when page i is read from tables[i]; it stops at the page without a cursor. */
  ghost function Walk(tables: seq<set<FollowRow>>, limit: nat, cursor: Option<Cursor>): seq<FollowRow>
    requires Tables(tables)
  {
    if tables == [] then []
    else
      var rows := Fetched(tables[0], limit, cursor);
      var next := NextCursor(rows, limit);
      if next.None? then Shown(rows, limit) else Shown(rows, limit) + Walk(tables[1..], limit, next)
  }

  /** How many pages the walk reads. */
  ghost function Pages(tables: seq<set<FollowRow>>, limit: nat, cursor: Option<Cursor>): nat
    requires Tables(tables)
  {
    if tables == [] then 0
    else
      var next := NextCursor(Fetched(tables[0], limit, cursor), limit);
      if next.None? then 1 else 1 + Pages(tables[1..], limit, next)
  }

  /** The walk reaches the page without a cursor. */
  ghost predicate Ends(tables: seq<set<FollowRow>>, limit: nat, cursor: Option<Cursor>)
    requires Tables(tables)
  {
    tables != [] &&
    var next := NextCursor(Fetched(tables[0], limit, cursor), limit);
    next.Some? ==> Ends(tables[1..], limit, next)
  }

  lemma PageShape(rows: set<FollowRow>, limit: nat, cursor: Option<Cursor>)
    requires UniqueIds(rows) && limit >= 1
    ensures var all, fetched := Listed(Selected(rows, cursor)), Fetched(rows, limit, cursor);
            && Shown(fetched, limit) == (if |all| > limit then all[..limit] else all)
            && NextCursor(fetched, limit) == (if |all| > limit then Some(all[limit - 1].key) else None)
  {
    var all, fetched := Listed(Selected(rows, cursor)), Fetched(rows, limit, cursor);
    if |all| > limit {
      assert fetched[..limit] == all[..limit];
    }
  }

  /** In an ordered list every row is within the first `limit` or comes after them. */
  lemma SplitsAt(all: seq<FollowRow>, limit: nat, r: FollowRow)
    requires Descending(all) && 1 <= limit <= |all| && r in all
    ensures r in all[..limit] || (r in all[limit..] && Before(all[limit - 1].key, r.key))
  {
    var i :| 0 <= i < |all| && all[i] == r;
    if i < limit {
      assert all[..limit][i] == r;
    } else {
      assert all[limit..][i - limit] == r;
    }
  }

  /** One page: ordered, after the cursor, and nothing is skipped before the next cursor. */
  lemma PageCovers(rows: set<FollowRow>, limit: nat, cursor: Option<Cursor>)
    requires UniqueIds(rows) && limit >= 1
    ensures var fetched := Fetched(rows, limit, cursor);
            var shown, next := Shown(fetched, limit), NextCursor(fetched, limit);
            && Descending(shown)
            && (forall r :: r in shown ==> r in Selected(rows, cursor))
            && (next.None? ==> forall r :: r in Selected(rows, cursor) ==> r in shown)
            && (next.Some? ==> |shown| == limit && shown[limit - 1].key == next.value)
            && (next.Some? ==> forall r :: r in Selected(rows, cursor) ==> r in shown || Before(next.value, r.key))
  {
    var all := Listed(Selected(rows, cursor));
    ListedIsOrdered(Selected(rows, cursor));
    PageShape(rows, limit, cursor);
    if |all| > limit {
      FirstRows(all, limit);
    }
  }

  lemma FirstRows(all: seq<FollowRow>, limit: nat)
    requires Descending(all) && 1 <= limit <= |all|
    ensures forall r :: r in all ==> r in all[..limit] || Before(all[limit - 1].key, r.key)
    ensures forall r :: r in all[..limit] ==> r in all
    ensures Descending(all[..limit])
  {
    forall r | r in all
      ensures r in all[..limit] || Before(all[limit - 1].key, r.key)
    {
      SplitsAt(all, limit, r);
    }
  }

  lemma DescendingConcat(a: seq<FollowRow>, b: seq<FollowRow>)
    requires Descending(a) && Descending(b) && a != [] && forall r :: r in b ==> Before(a[|a| - 1].key, r.key)
    ensures Descending(a + b)
  {
    forall i, j | 0 <= i < j < |a + b|
      ensures Before((a + b)[i].key, (a + b)[j].key)
    {
      if i < |a| <= j {
        assert b[j - |a|] in b;
      }
    }
  }

  /** However the table changes between pages, rows come strictly in order, so none is shown twice. */
  lemma {:induction false} WalkIsOrdered(tables: seq<set<FollowRow>>, limit: nat, cursor: Option<Cursor>)
    requires Tables(tables) && limit >= 1
    ensures Descending(Walk(tables, limit, cursor))
    ensures cursor.Some? ==> forall r :: r in Walk(tables, limit, cursor) ==> Before(cursor.value, r.key)
  {
    if tables != [] {
      var fetched := Fetched(tables[0], limit, cursor);
      var shown, next := Shown(fetched, limit), NextCursor(fetched, limit);
      PageCovers(tables[0], limit, cursor);
      if next.Some? {
        WalkIsOrdered(tables[1..], limit, next);
        DescendingConcat(shown, Walk(tables[1..], limit, next));
        assert shown[limit - 1] in shown;
      }
    }
  }

  /** Newest first: no row of a walk is younger than one before it, and equal times go by falling id. */
  lemma WalkIsNewestFirst(tables: seq<set<FollowRow>>, limit: nat, cursor: Option<Cursor>, i: nat, j: nat)
    requires Tables(tables) && limit >= 1 && i < j < |Walk(tables, limit, cursor)|
    ensures var a, b := Walk(tables, limit, cursor)[i].key, Walk(tables, limit, cursor)[j].key;
            a.createdAt >= b.createdAt && (a.createdAt == b.createdAt ==> a.id > b.id)
  {
    WalkIsOrdered(tables, limit, cursor);
  }

  /** A completed walk shows every row that was there for all of its pages. */
  lemma {:induction false} WalkShowsStableRows(tables: seq<set<FollowRow>>, limit: nat, cursor: Option<Cursor>,
      r: FollowRow)
    requires Tables(tables) && limit >= 1 && Ends(tables, limit, cursor)
    requires forall i :: 0 <= i < |tables| ==> r in tables[i]
    requires cursor.Some? ==> Before(cursor.value, r.key)
    ensures r in Walk(tables, limit, cursor)
  {
    var fetched := Fetched(tables[0], limit, cursor);
    var next := NextCursor(fetched, limit);
    PageCovers(tables[0], limit, cursor);
    assert r in Selected(tables[0], cursor);
    if next.Some? && r !in Shown(fetched, limit) {
      WalkShowsStableRows(tables[1..], limit, next, r);
    }
  }

  /** A walk shows nothing that was in no table. */
  lemma {:induction false} WalkShowsOnlyRows(tables: seq<set<FollowRow>>, limit: nat, cursor: Option<Cursor>,
      rows: set<FollowRow>)
    requires Tables(tables) && limit >= 1 && forall i :: 0 <= i < |tables| ==> tables[i] <= rows
    ensures forall r :: r in Walk(tables, limit, cursor) ==> r in rows
  {
    if tables != [] {
      PageCovers(tables[0], limit, cursor);
      WalkShowsOnlyRows(tables[1..], limit, NextCursor(Fetched(tables[0], limit, cursor), limit), rows);
    }
  }

  // ---- a table that does not change ----

  lemma HasMember(s: seq<FollowRow>)
    ensures s != [] ==> exists r :: r in s
  {
    if s != [] {
      assert s[0] in s;
    }
  }

  /** Two listings of the same rows are the same list. */
  lemma {:induction false} OrderIsUnique(a: seq<FollowRow>, b: seq<FollowRow>)
    requires Descending(a) && Descending(b) && forall r :: r in a <==> r in b
    ensures a == b
  {
    HasMember(a);
    HasMember(b);
    if a != [] && b != [] {
      assert a[0] in b && b[0] in a;
      assert a[0] == b[0];
      forall r
        ensures r in a[1..] <==> r in b[1..]
      {
        assert r in a <==> r == a[0] || r in a[1..];
        assert r in b <==> r == b[0] || r in b[1..];
      }
      OrderIsUnique(a[1..], b[1..]);
    }
  }

  /** The number of pages for `n` rows: at least one, and no empty last page. */
  function PageCount(n: nat, limit: nat): nat
    requires limit >= 1
  {
    if n <= limit then 1 else 1 + PageCount(n - limit, limit)
  }

  lemma {:induction false} PageCountIsCeiling(n: nat, limit: nat)
    requires n >= 1 && limit >= 1
    ensures (PageCount(n, limit) - 1) * limit < n <= PageCount(n, limit) * limit
  {
    if n > limit {
      PageCountIsCeiling(n - limit, limit);
      var p := PageCount(n - limit, limit);
      assert (p - 1) * limit == p * limit - limit && (p + 1) * limit == p * limit + limit;
    }
  }

  lemma NextSelects(rows: set<FollowRow>, limit: nat, cursor: Option<Cursor>)
    requires UniqueIds(rows) && limit >= 1
    ensures var next := NextCursor(Fetched(rows, limit, cursor), limit);
            && (next.None? <==> |Selected(rows, cursor)| <= limit)
            && (next.Some? ==> |Selected(rows, next)| == |Selected(rows, cursor)| - limit)
  {
    var all, next := Listed(Selected(rows, cursor)), NextCursor(Fetched(rows, limit, cursor), limit);
    ListedIsOrdered(Selected(rows, cursor));
    PageShape(rows, limit, cursor);
    if next.Some? {
      AfterCursor(all, rows, limit, cursor);
      ListedIsOrdered(Selected(rows, next));
      OrderIsUnique(Listed(Selected(rows, next)), all[limit..]);
    }
  }

  lemma AfterCursor(all: seq<FollowRow>, rows: set<FollowRow>, limit: nat, cursor: Option<Cursor>)
    requires Descending(all) && 1 <= limit <= |all| && forall r :: r in all <==> r in Selected(rows, cursor)
    ensures forall r :: r in Selected(rows, Some(all[limit - 1].key)) <==> r in all[limit..]
  {
    var last := all[limit - 1];
    assert last in all;
    forall r | r in Selected(rows, Some(last.key))
      ensures r in all[limit..]
    {
      assert r in all;
      SplitsAt(all, limit, r);
    }
    forall r | r in all[limit..]
      ensures r in Selected(rows, Some(last.key))
    {
      var later := all[limit..];
      var i :| 0 <= i < |later| && later[i] == r;
      assert all[limit + i] == r;
      assert r in all;
    }
  }

  /** Over an unchanged table the walk ends after exactly the expected number of pages. */
  lemma {:induction false} StaticWalkEnds(rows: set<FollowRow>, tables: seq<set<FollowRow>>, limit: nat,
      cursor: Option<Cursor>)
    requires UniqueIds(rows) && limit >= 1 && forall i :: 0 <= i < |tables| ==> tables[i] == rows
    requires |tables| >= PageCount(|Selected(rows, cursor)|, limit)
    ensures Ends(tables, limit, cursor)
    ensures Pages(tables, limit, cursor) == PageCount(|Selected(rows, cursor)|, limit)
    decreases |tables|
  {
    NextSelects(rows, limit, cursor);
    if |Selected(rows, cursor)| > limit {
      StaticWalkEnds(rows, tables[1..], limit, NextCursor(Fetched(rows, limit, cursor), limit));
    }
  }

  /** Following the cursors shows every row exactly once, in order, in ceil(n / limit) pages. */
  lemma StaticWalk(rows: set<FollowRow>, tables: seq<set<FollowRow>>, limit: nat)
    requires UniqueIds(rows) && limit >= 1 && |tables| == PageCount(|rows|, limit)
    requires forall i :: 0 <= i < |tables| ==> tables[i] == rows
    ensures Walk(tables, limit, None) == Listed(rows)
    ensures Ends(tables, limit, None) && Pages(tables, limit, None) == PageCount(|rows|, limit)
  {
    assert Selected(rows, None) == rows;
    StaticWalkEnds(rows, tables, limit, None);
    WalkIsOrdered(tables, limit, None);
    WalkShowsOnlyRows(tables, limit, None, rows);
    forall r | r in rows
      ensures r in Walk(tables, limit, None)
    {
      WalkShowsStableRows(tables, limit, None, r);
    }
    ListedIsOrdered(rows);
    OrderIsUnique(Walk(tables, limit, None), Listed(rows));
  }
}
