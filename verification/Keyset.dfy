/** Keyset queries: rows in a strict total order of (time, id), read one page at a
    time from a cursor. */
module Keyset {
  import opened Wrappers

  /** A row's sort position. Instant 0 is Go's zero time; tie 0 stands for the empty
      string, below every id. */
  datatype Position = Position(at: int, tie: nat)

  datatype Order = Ascending | NewestFirst

  predicate Less(a: Position, b: Position) {
    a.at < b.at || (a.at == b.at && a.tie < b.tie)
  }

  predicate Precedes(o: Order, a: Position, b: Position) {
    if o.Ascending? then Less(a, b) else Less(b, a)
  }

  /** The rows matching a query's other conditions, known by their positions. */
  type Table = set<Position>

  // --------------------------------------------------------------- the listing

  ghost predicate Sorted(o: Order, s: seq<Position>) {
    forall i, j :: 0 <= i < j < |s| ==> Precedes(o, s[i], s[j])
  }

  /** What the two orders are: by time, then by tie; and the same backwards. */
  lemma OrdersAre(s: seq<Position>)
    ensures Sorted(Ascending, s) <==>
              forall i, j :: 0 <= i < j < |s| ==>
                s[i].at < s[j].at || (s[i].at == s[j].at && s[i].tie < s[j].tie)
    ensures Sorted(NewestFirst, s) <==>
              forall i, j :: 0 <= i < j < |s| ==>
                s[i].at > s[j].at || (s[i].at == s[j].at && s[i].tie > s[j].tie)
  {
  }

  predicate IsFirst(o: Order, t: Table, p: Position) {
    p in t && forall q :: q in t && q != p ==> Precedes(o, p, q)
  }

  lemma NotBoth(o: Order, a: Position, b: Position)
    ensures !(Precedes(o, a, b) && Precedes(o, b, a))
  {
  }

  lemma {:induction false} FirstExists(o: Order, t: Table)
    requires t != {}
    ensures exists p :: IsFirst(o, t, p)
    decreases |t|
  {
    var p :| p in t;
    var rest := t - {p};
    if rest == {} {
      assert t == {p};
      assert IsFirst(o, t, p);
    } else {
      FirstExists(o, rest);
      var q :| IsFirst(o, rest, q);
      var first := if Precedes(o, p, q) then p else q;
      forall r | r in t && r != first
        ensures Precedes(o, first, r)
      {
        assert r == p || r in rest;
      }
      assert IsFirst(o, t, first);
    }
  }

  lemma FirstIsUnique(o: Order, t: Table, p: Position, q: Position)
    requires IsFirst(o, t, p) && IsFirst(o, t, q)
    ensures p == q
  {
    assert p in t && q in t;
  }

  ghost function FirstOf(o: Order, t: Table): (p: Position)
    requires t != {}
    ensures p in t && IsFirst(o, t, p)
  {
    FirstExists(o, t);
    var p :| IsFirst(o, t, p);
    p
  }

  /** SELECT ... ORDER BY over the whole table. */
  ghost function Listing(o: Order, t: Table): seq<Position>
    decreases |t|
  {
    if t == {} then [] else [FirstOf(o, t)] + Listing(o, t - {FirstOf(o, t)})
  }

  lemma ListingUnfolds(o: Order, t: Table)
    ensures Listing(o, t) == if t == {} then [] else [FirstOf(o, t)] + Listing(o, t - {FirstOf(o, t)})
  {
  }

  lemma {:induction false} ListingIsSorted(o: Order, t: Table)
    ensures Sorted(o, Listing(o, t)) && |Listing(o, t)| == |t|
    ensures forall p :: p in Listing(o, t) <==> p in t
    decreases |t|
  {
    if t != {} {
      var p := FirstOf(o, t);
      var s := Listing(o, t - {p});
      ListingIsSorted(o, t - {p});
      forall j | 0 <= j < |s|
        ensures Precedes(o, p, s[j])
      {
        assert s[j] in s;
      }
    }
  }

  /** A sorted sequence is the listing of its elements. */
  lemma {:induction false} SortedIsListing(o: Order, t: Table, s: seq<Position>)
    requires Sorted(o, s) && forall p :: p in s <==> p in t
    ensures s == Listing(o, t)
    decreases |t|
  {
    hide Precedes;
    assert forall i :: 0 <= i < |s| ==> s[i] in t;
    assert |s| > 0 ==> s[0] in t;
    if t != {} {
      var p := FirstOf(o, t);
      var i :| 0 <= i < |s| && s[i] == p;
      NotBoth(o, s[0], p);
      assert s[0] in t;
      assert i == 0;
      forall q
        ensures q in s[1..] <==> q in t - {p}
      {
        assert q in s <==> q == s[0] || q in s[1..];
      }
      SortedIsListing(o, t - {p}, s[1..]);
      assert s == [s[0]] + s[1..];
    }
  }

  // ----------------------------------------------------------------- the query

  function After(o: Order, t: Table, cursor: Option<Position>): Table {
    if cursor.None? then t else set p | p in t && Precedes(o, cursor.value, p)
  }

  function Min(a: int, b: int): int {
    if a < b then a else b
  }

  /** WHERE (at, tie) strictly past the cursor, ORDER BY, LIMIT. */
  ghost function Query(o: Order, t: Table, cursor: Option<Position>, limit: nat): seq<Position> {
    var rows := Listing(o, After(o, t, cursor));
    rows[..Min(limit, |rows|)]
  }

  method Select(o: Order, t: Table, cursor: Option<Position>, limit: nat) returns (rows: seq<Position>)
    ensures rows == Query(o, t, cursor, limit)
  {
    hide Precedes, IsFirst, Listing, After;
    rows := [];
    var rest := After(o, t, cursor);
    ghost var all := Listing(o, rest);
    while |rows| < limit && rest != {}
      invariant |rows| <= limit
      invariant all == rows + Listing(o, rest)
      decreases |rest|
    {
      ListingUnfolds(o, rest);
      ghost var first := FirstOf(o, rest);
      var p :| p in rest && IsFirst(o, rest, p);
      FirstIsUnique(o, rest, p, first);
      rows := rows + [p];
      rest := rest - {p};
    }
    ListingUnfolds(o, rest);
    assert all[..|rows|] == rows;
  }

  /** The listing past its n-th row is what the query sees with that row as cursor. */
  lemma ListingAfter(o: Order, t: Table, n: nat)
    requires n < |Listing(o, t)|
    ensures Listing(o, After(o, t, Some(Listing(o, t)[n]))) == Listing(o, t)[n + 1..]
  {
    hide Listing;
    var s := Listing(o, t);
    ListingIsSorted(o, t);
    var rest := After(o, t, Some(s[n]));
    forall i | 0 <= i < |s|
      ensures s[i] in rest <==> i > n
    {
      assert s[i] in s;
    }
    hide Precedes, After;
    forall p
      ensures p in s[n + 1..] <==> p in rest
    {
      SuffixHolds(s, n + 1, rest, p);
    }
    SortedIsListing(o, rest, s[n + 1..]);
  }

  lemma SuffixHolds(s: seq<Position>, n: nat, rest: Table, p: Position)
    requires n <= |s| && (p in rest ==> p in s) && forall i :: 0 <= i < |s| ==> (s[i] in rest <==> i >= n)
    ensures p in s[n..] <==> p in rest
  {
    if p in rest {
      var i :| 0 <= i < |s| && s[i] == p;
      assert s[n..][i - n] == p;
    }
  }

  /** Where a walk that has listed the first n rows continues. */
  ghost function CursorAt(o: Order, t: Table, n: nat): Option<Position>
    requires n <= |Listing(o, t)|
  {
    if n == 0 then None else Some(Listing(o, t)[n - 1])
  }

  lemma QueryContinues(o: Order, t: Table, n: nat, limit: nat)
    requires n <= |Listing(o, t)|
    ensures var s := Listing(o, t);
            Query(o, t, CursorAt(o, t, n), limit) == s[n..Min(n + limit, |s|)]
  {
    hide Listing;
    if n > 0 {
      ListingAfter(o, t, n - 1);
    }
  }

  // ------------------------------------------------------------------- NewPage

  datatype Page = Page(data: seq<Position>, nextCursor: Option<Position>, hasMore: bool)

  function NewPage(rows: seq<Position>, limit: nat): Page {
    var hasMore := |rows| > limit;
    var data := if hasMore then rows[..limit] else rows;
    Page(data, if hasMore && |data| > 0 then Some(data[|data| - 1]) else None, hasMore)
  }

  /** A page read with one extra row. */
  ghost function FetchPage(o: Order, t: Table, cursor: Option<Position>, limit: nat): Page {
    NewPage(Query(o, t, cursor, limit + 1), limit)
  }

  /** The page is the next stretch of the listing, and has_more tells whether rows remain. */
  lemma PageIsNextStretch(o: Order, t: Table, n: nat, limit: nat)
    requires n <= |Listing(o, t)| && limit >= 1
    ensures var s, page := Listing(o, t), FetchPage(o, t, CursorAt(o, t, n), limit);
            && page.data == s[n..Min(n + limit, |s|)]
            && (page.hasMore <==> n + limit < |s|)
            && (page.hasMore ==> page.nextCursor == CursorAt(o, t, n + limit))
            && (!page.hasMore ==> page.nextCursor == None)
  {
    hide Listing, Query;
    QueryContinues(o, t, n, limit + 1);
    var s := Listing(o, t);
    if n + limit < |s| {
      assert s[n..n + limit + 1][..limit] == s[n..n + limit];
    }
  }

  // ------------------------------------------------- walks over changing tables

  datatype Walk = Walk(rows: seq<Position>, cursor: Option<Position>, more: bool)

  const START := Walk([], None, true)

  /** One request: the page after the cursor, from the table as it now is. */
  ghost function Fetch(o: Order, w: Walk, t: Table, limit: nat): Walk {
    if !w.more then w
    else
      var page := FetchPage(o, t, w.cursor, limit);
      Walk(w.rows + page.data, page.nextCursor, page.hasMore)
  }

  /** A client following next_cursor; request k sees tables[k]. */
  ghost function Follow(o: Order, tables: seq<Table>, limit: nat): Walk {
    if tables == [] then START
    else Fetch(o, Follow(o, tables[..|tables| - 1], limit), tables[|tables| - 1], limit)
  }

  /** The rows so far lie in order up to the cursor, and those of the table that are
      not past it and were there all along have been returned. */
  ghost predicate WalkInv(o: Order, tables: seq<Table>, w: Walk) {
    && Sorted(o, w.rows)
    && (w.more && w.cursor.None? ==> w.rows == [] && tables == [])
    && (w.more && w.cursor.Some? ==> w.rows != [] && w.cursor.value == w.rows[|w.rows| - 1])
    && (forall p :: p in w.rows ==> exists k :: 0 <= k < |tables| && p in tables[k])
    && (forall p :: (forall k :: 0 <= k < |tables| ==> p in tables[k]) ==>
          p in w.rows || (w.more && (w.cursor.Some? ==> Precedes(o, w.cursor.value, p))))
  }

  lemma QueryTakesFirst(o: Order, t: Table, cursor: Option<Position>, limit: nat)
    ensures var q, rest := Query(o, t, cursor, limit), After(o, t, cursor);
            && Sorted(o, q) && (forall p :: p in q ==> p in rest) && |q| == Min(limit, |rest|)
            && (forall p :: p in rest ==> p in q || (|q| == limit && forall r :: r in q ==> Precedes(o, r, p)))
  {
    hide Listing;
    var rest := After(o, t, cursor);
    var s := Listing(o, rest);
    ListingIsSorted(o, rest);
    var q := Query(o, t, cursor, limit);
    assert forall j :: 0 <= j < |q| ==> q[j] == s[j] && s[j] in q && q[j] in s;
    forall p | p in rest && p !in q
      ensures |q| == limit && forall r :: r in q ==> Precedes(o, r, p)
    {
      assert p in s;
      var i :| 0 <= i < |s| && s[i] == p;
      assert i >= |q|;
      forall r | r in q
        ensures Precedes(o, r, p)
      {
        var j :| 0 <= j < |q| && q[j] == r;
        assert Precedes(o, s[j], s[i]);
      }
    }
  }

  /** `data` starts what lies past the cursor; with `more` it ends at `next`, without
      it nothing is left. */
  ghost predicate Stretch(o: Order, t: Table, cursor: Option<Position>, data: seq<Position>,
                          next: Option<Position>, more: bool) {
    var rest := After(o, t, cursor);
    && Sorted(o, data) && (forall p :: p in data ==> p in rest)
    && (more ==> data != [] && next == Some(data[|data| - 1]))
    && (more ==> forall p :: p in rest ==> p in data || Precedes(o, next.value, p))
    && (!more ==> forall p :: p in rest ==> p in data)
  }

  lemma PageTakesFirst(o: Order, t: Table, cursor: Option<Position>, limit: nat)
    requires limit >= 1
    ensures var page := FetchPage(o, t, cursor, limit); Stretch(o, t, cursor, page.data, page.nextCursor, page.hasMore)
  {
    hide Query, Listing, After;
    var q := Query(o, t, cursor, limit + 1);
    QueryTakesFirst(o, t, cursor, limit + 1);
    var page := FetchPage(o, t, cursor, limit);
    if page.hasMore {
      assert q == page.data + [q[limit]];
      forall p | p in After(o, t, cursor)
        ensures p in page.data || Precedes(o, page.nextCursor.value, p)
      {
        assert p in q ==> p in page.data || p == q[limit];
      }
    }
  }

  /** A full page read without a look-ahead row may have more after it. */
  lemma FullPageMayHaveMore(o: Order, t: Table, cursor: Option<Position>, limit: nat)
    requires limit >= 1
    ensures var q := Query(o, t, cursor, limit);
            Stretch(o, t, cursor, q, if q == [] then cursor else Some(q[|q| - 1]), |q| >= limit)
  {
    hide Query, Listing, After;
    QueryTakesFirst(o, t, cursor, limit);
  }

  lemma StretchKeepsInv(o: Order, tables: seq<Table>, w: Walk, t: Table, data: seq<Position>,
                        next: Option<Position>, more: bool)
    requires WalkInv(o, tables, w) && w.more && Stretch(o, t, w.cursor, data, next, more)
    ensures WalkInv(o, tables + [t], Walk(w.rows + data, next, more))
  {
    var w', later := Walk(w.rows + data, next, more), tables + [t];
    assert forall p :: p in data ==> p in t && later[|tables|] == t;
    forall i, j | 0 <= i < j < |w'.rows|
      ensures Precedes(o, w'.rows[i], w'.rows[j])
    {
      if i < |w.rows| <= j {
        assert w'.rows[j] in data && w.cursor.Some?;
        assert Precedes(o, w.cursor.value, w'.rows[j]);
      }
    }
    forall p | p in w'.rows
      ensures exists k :: 0 <= k < |later| && p in later[k]
    {
      if p in w.rows {
        var k :| 0 <= k < |tables| && p in tables[k];
        assert p in later[k];
      }
    }
    forall p | forall k :: 0 <= k < |later| ==> p in later[k]
      ensures p in w'.rows || (more && (next.Some? ==> Precedes(o, next.value, p)))
    {
      assert p in later[|tables|];
      ThereThroughout(tables, t, p);
    }
  }

  lemma ThereThroughout(tables: seq<Table>, t: Table, p: Position)
    requires forall k :: 0 <= k < |tables + [t]| ==> p in (tables + [t])[k]
    ensures forall k :: 0 <= k < |tables| ==> p in tables[k]
  {
    forall k | 0 <= k < |tables|
      ensures p in tables[k]
    {
      assert p in (tables + [t])[k];
    }
  }

  lemma FetchKeepsInv(o: Order, tables: seq<Table>, w: Walk, t: Table, limit: nat)
    requires WalkInv(o, tables, w) && limit >= 1
    ensures WalkInv(o, tables + [t], Fetch(o, w, t, limit))
  {
    hide FetchPage, Stretch;
    if w.more {
      PageTakesFirst(o, t, w.cursor, limit);
      var page := FetchPage(o, t, w.cursor, limit);
      StretchKeepsInv(o, tables, w, t, page.data, page.nextCursor, page.hasMore);
    } else {
      EndedKeepsInv(o, tables, w, t);
    }
  }

  lemma EndedKeepsInv(o: Order, tables: seq<Table>, w: Walk, t: Table)
    requires WalkInv(o, tables, w) && !w.more
    ensures WalkInv(o, tables + [t], w)
  {
    var later := tables + [t];
    forall p | p in w.rows
      ensures exists k :: 0 <= k < |later| && p in later[k]
    {
      var k :| 0 <= k < |tables| && p in tables[k];
      assert p in later[k];
    }
    forall p | forall k :: 0 <= k < |later| ==> p in later[k]
      ensures p in w.rows
    {
      ThereThroughout(tables, t, p);
    }
  }

  lemma {:induction false} FollowKeepsInv(o: Order, tables: seq<Table>, limit: nat)
    requires limit >= 1
    ensures WalkInv(o, tables, Follow(o, tables, limit))
  {
    if tables != [] {
      var n := |tables| - 1;
      FollowKeepsInv(o, tables[..n], limit);
      FetchKeepsInv(o, tables[..n], Follow(o, tables[..n], limit), tables[n], limit);
      assert tables == tables[..n] + [tables[n]];
    }
  }

  /** Whatever is inserted or deleted between requests, a walk never returns a row
      twice or out of order, and once has_more is false it has returned every row
      that was there throughout. */
  lemma WalkSurvivesChanges(o: Order, tables: seq<Table>, limit: nat)
    requires limit >= 1
    ensures var w := Follow(o, tables, limit);
            && Sorted(o, w.rows)
            && (forall p :: p in w.rows ==> exists k :: 0 <= k < |tables| && p in tables[k])
            && (!w.more ==> forall p :: (forall k :: 0 <= k < |tables| ==> p in tables[k]) ==> p in w.rows)
  {
    FollowKeepsInv(o, tables, limit);
  }

  /** `later` keeps the rows of t; those it adds come ahead of them all. */
  ghost predicate AddsAhead(o: Order, t: Table, later: Table) {
    t <= later && forall p, q :: p in later && p !in t && q in t ==> Precedes(o, p, q)
  }

  /** The walk has listed the first `seen` rows of s and stands at the last of them. */
  ghost predicate ListedTo(s: seq<Position>, w: Walk, seen: nat) {
    && w.rows == s[..Min(seen, |s|)]
    && (w.more <==> seen < |s|)
    && (w.more && seen > 0 ==> w.cursor == Some(s[seen - 1]))
  }

  lemma {:induction false} FollowFixed(o: Order, tables: seq<Table>, t: Table, limit: nat)
    requires limit >= 1 && tables != [] && tables[0] == t
    requires forall k :: 0 <= k < |tables| ==> AddsAhead(o, t, tables[k])
    ensures ListedTo(Listing(o, t), Follow(o, tables, limit), |tables| * limit)
  {
    hide Listing, Fetch, AddsAhead, ListedTo;
    var n := |tables| - 1;
    var w := Follow(o, tables[..n], limit);
    assert Follow(o, tables, limit) == Fetch(o, w, tables[n], limit);
    assert |tables| * limit == n * limit + limit;
    if n == 0 {
      assert w == START && tables[0] == t;
      FetchAhead(o, t, t, w, 0, limit);
    } else {
      FollowFixed(o, tables[..n], t, limit);
      FetchAhead(o, t, tables[n], w, n * limit, limit);
    }
  }

  /** One more request, `seen` rows into the listing of the table the walk began on. */
  lemma FetchAhead(o: Order, t: Table, now: Table, w: Walk, seen: nat, limit: nat)
    requires limit >= 1 && AddsAhead(o, t, now) && (seen == 0 ==> now == t)
    requires if seen == 0 then w == START else ListedTo(Listing(o, t), w, seen)
    ensures ListedTo(Listing(o, t), Fetch(o, w, now, limit), seen + limit)
  {
    hide Listing, FetchPage, After, Precedes, AddsAhead;
    var s := Listing(o, t);
    ListingIsSorted(o, t);
    if w.more {
      if seen > 0 {
        assert s[seen - 1] in s;
        SamePastCursor(o, t, now, w.cursor.value);
      }
      SamePage(o, t, now, w.cursor, limit);
      PageIsNextStretch(o, t, seen, limit);
      PrefixGrows(s, seen, Min(seen + limit, |s|));
    }
  }

  lemma PrefixGrows(s: seq<Position>, a: nat, b: nat)
    requires a <= b <= |s|
    ensures s[..a] + s[a..b] == s[..b]
  {
  }

  lemma SamePastCursor(o: Order, t: Table, later: Table, cursor: Position)
    requires cursor in t && AddsAhead(o, t, later)
    ensures After(o, later, Some(cursor)) == After(o, t, Some(cursor))
  {
  }

  lemma SamePage(o: Order, t: Table, later: Table, cursor: Option<Position>, limit: nat)
    requires After(o, later, cursor) == After(o, t, cursor)
    ensures FetchPage(o, later, cursor, limit) == FetchPage(o, t, cursor, limit)
  {
  }

  /** While rows are only added ahead of those already there, following next_cursor
      lists exactly the table the walk started on, and ends: after k requests it has
      returned the first k * limit rows, and has_more is false once none remain. */
  lemma WalkIsTheListing(o: Order, tables: seq<Table>, t: Table, limit: nat)
    requires limit >= 1 && tables != [] && tables[0] == t
    requires forall k :: 0 <= k < |tables| ==> AddsAhead(o, t, tables[k])
    ensures var w := Follow(o, tables, limit);
            && (!w.more ==> w.rows == Listing(o, t))
            && (|tables| >= |t| ==> !w.more)
  {
    hide Listing, Follow;
    FollowFixed(o, tables, t, limit);
    ListingIsSorted(o, t);
    assert |tables| * limit >= |tables|;
  }
}
