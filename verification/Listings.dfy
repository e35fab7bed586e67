/** The listings built on keyset queries: the API-key and audit-log pages, and the
    loops that collect every rollup, every session, and a bounded customer export. */
module Listings {
  import opened Keyset
  import opened Wrappers
  import Calendar

  const DEFAULT_LIMIT := 50
  const MAX_LIMIT := 200

  /** The `limit` parameter is absent, or what strconv.Atoi makes of it. */
  datatype LimitParam = NoLimit | Number(n: int) | Malformed

  /** The `cursor` parameter is absent, decodes to a position, or does not decode. */
  datatype CursorParam = NoCursorParam | Encoded(position: Position) | Garbled

  datatype Params = Params(limit: nat, cursor: Option<Position>)

  /** A limit out of range is clamped, one that is no number or a garbled cursor refused. */
  function PageParams(limit: LimitParam, cursor: CursorParam): (params: Option<Params>)
    ensures params.None? <==> limit.Malformed? || cursor.Garbled?
    ensures params.Some? ==> 1 <= params.value.limit <= 200
    ensures params.Some? && limit.Number? && 1 <= limit.n <= 200 ==> params.value.limit == limit.n
    ensures params.Some? && limit.Number? && limit.n > 200 ==> params.value.limit == 200
    ensures params.Some? && (limit.NoLimit? || limit.n <= 0) ==> params.value.limit == 50
    ensures params.Some? ==> (params.value.cursor.None? <==> cursor.NoCursorParam?)
    ensures params.Some? && cursor.Encoded? ==> params.value.cursor == Some(cursor.position)
  {
    if limit.Malformed? || cursor.Garbled? then None
    else
      var asked := if limit.NoLimit? || limit.n <= 0 then DEFAULT_LIMIT else limit.n;
      Some(Params(if asked > MAX_LIMIT then MAX_LIMIT else asked,
                  if cursor.Encoded? then Some(cursor.position) else None))
  }

  /** The last nanosecond of 9999, standing in for "no cursor". */
  const FAR_FUTURE := 315_537_897_599_999_999_999

  lemma FarFutureEndsTheYear9999()
    ensures FAR_FUTURE + 1 == Calendar.Date(12 * 10_000, 1, 0)
  {
    assert Calendar.DaysBeforeYear(10_000) == 3_652_059;
    assert 10_000 % 400 == 0;
  }

  const NO_CURSOR := Position(0, 0)

  function Decode(cursor: Option<Position>): Position {
    if cursor.Some? then cursor.value else NO_CURSOR
  }

  /** API keys, sessions and schedules: a zero time means the first page. */
  function UnlessZeroTime(c: Position): Option<Position> {
    if c.at == 0 then None else Some(c)
  }

  /** Audit log and customers: a zero time is replaced by the far future. */
  function FarIfZeroTime(c: Position): Option<Position> {
    if c.at == 0 then Some(Position(FAR_FUTURE, c.tie)) else Some(c)
  }

  /** Rollups: only a zero time with empty dimensions means the first page. */
  function UnlessBothZero(c: Position): Option<Position> {
    if c == NO_CURSOR then None else Some(c)
  }

  predicate RealTimes(t: Table) {
    forall p :: p in t ==> 0 < p.at < FAR_FUTURE
  }

  predicate RealTies(t: Table) {
    forall p :: p in t ==> p.tie > 0
  }

  // ------------------------------------------------------------ page endpoints

  function KeyQueryLimit(limit: int): nat {
    if limit <= 0 then 100 else if limit > 201 then 201 else limit
  }

  function AuditQueryLimit(limit: int): nat {
    if limit <= 0 || limit > 200 then 200 else limit
  }

  /** What the clamps make of a query's limit. */
  lemma QueryLimits(limit: int)
    ensures 1 <= KeyQueryLimit(limit) <= 201 && 1 <= AuditQueryLimit(limit) <= 200
    ensures 1 <= limit <= 201 ==> KeyQueryLimit(limit) == limit
    ensures 1 <= limit <= 200 ==> AuditQueryLimit(limit) == limit
    ensures limit <= 0 ==> KeyQueryLimit(limit) == 100 && AuditQueryLimit(limit) == 200
    ensures limit > 201 ==> KeyQueryLimit(limit) == 201
  {
  }

  ghost function KeyPage(t: Table, cursor: Option<Position>, limit: nat): Page {
    NewPage(Query(NewestFirst, t, UnlessZeroTime(Decode(cursor)), KeyQueryLimit(limit + 1)), limit)
  }

  ghost function AuditPage(t: Table, cursor: Option<Position>, limit: nat): Page {
    NewPage(Query(NewestFirst, t, FarIfZeroTime(Decode(cursor)), AuditQueryLimit(limit + 1)), limit)
  }

  /** A cursor handed out by an earlier page of a listing with real times. */
  predicate RealCursor(cursor: Option<Position>) {
    cursor.Some? ==> 0 < cursor.value.at < FAR_FUTURE
  }

  /** API keys: at every permitted limit the endpoint is the exact keyset page. */
  lemma KeyPageIsExact(t: Table, cursor: Option<Position>, limit: nat)
    requires RealTimes(t) && RealCursor(cursor) && 1 <= limit <= MAX_LIMIT
    ensures KeyPage(t, cursor, limit) == FetchPage(NewestFirst, t, cursor, limit)
  {
  }

  lemma FarCursorSeesAll(t: Table)
    requires RealTimes(t)
    ensures After(NewestFirst, t, FarIfZeroTime(NO_CURSOR)) == t
  {
  }

  /** Audit log: below the maximum the endpoint is the exact keyset page too. */
  lemma AuditPageIsExact(t: Table, cursor: Option<Position>, limit: nat)
    requires RealTimes(t) && RealCursor(cursor) && 1 <= limit < MAX_LIMIT
    ensures AuditPage(t, cursor, limit) == FetchPage(NewestFirst, t, cursor, limit)
  {
    hide Listing;
    FarCursorSeesAll(t);
  }

  /** At every permitted limit: the rows are right, but has_more is right if and only
      if the limit leaves room for the look-ahead row or no more than 200 rows remain. */
  lemma AuditLookAhead(t: Table, cursor: Option<Position>, limit: nat)
    requires RealTimes(t) && RealCursor(cursor) && 1 <= limit <= MAX_LIMIT
    ensures var page, exact := AuditPage(t, cursor, limit), FetchPage(NewestFirst, t, cursor, limit);
            && page.data == exact.data
            && (page.hasMore == exact.hasMore <==> limit < 200 || |After(NewestFirst, t, cursor)| <= 200)
  {
    hide Listing, FetchPage;
    FarCursorSeesAll(t);
    if limit < MAX_LIMIT {
      AuditPageIsExact(t, cursor, limit);
    } else {
      var rest := After(NewestFirst, t, cursor);
      ListingIsSorted(NewestFirst, rest);
      PageOfQuery(t, cursor, Listing(NewestFirst, rest));
    }
  }

  lemma PageOfQuery(t: Table, cursor: Option<Position>, s: seq<Position>)
    requires s == Listing(NewestFirst, After(NewestFirst, t, cursor))
    ensures FetchPage(NewestFirst, t, cursor, 200) == NewPage(s[..Min(201, |s|)], 200)
    ensures FetchPage(NewestFirst, t, cursor, 200).data == s[..Min(200, |s|)]
  {
    hide Listing;
    if |s| > 200 {
      assert s[..Min(201, |s|)][..200] == s[..200];
    }
  }

  // ------------------------------------------------------------------ full walks

  /** The tables the first n queries of a loop saw. */
  ghost function Seen(tables: nat -> Table, n: nat): seq<Table> {
    seq(n, i requires 0 <= i < n => tables(i))
  }

  /** `rows` come in order, each once, from what was seen, and hold every position there
      throughout; unless they are `complete`, up to the last of them. */
  ghost predicate Collected(o: Order, seen: seq<Table>, rows: seq<Position>, complete: bool) {
    && Sorted(o, rows)
    && (forall p :: p in rows ==> exists k :: 0 <= k < |seen| && p in seen[k])
    && (forall p :: (forall k :: 0 <= k < |seen| ==> p in seen[k]) ==>
          p in rows || (!complete && rows != [] && Precedes(o, rows[|rows| - 1], p)))
  }

  /** Where a loop that has collected `out` resumes. */
  function LastOf(out: seq<Position>): Position {
    if out == [] then NO_CURSOR else out[|out| - 1]
  }

  function CursorOf(out: seq<Position>): Option<Position> {
    if out == [] then None else Some(LastOf(out))
  }

  ghost predicate Collecting(o: Order, tables: nat -> Table, n: nat, out: seq<Position>) {
    WalkInv(o, Seen(tables, n), Walk(out, CursorOf(out), true))
  }

  lemma NoRowsNoCursor()
    ensures CursorOf([]) == None
  {
  }

  lemma CollectingStarts(o: Order, tables: nat -> Table)
    ensures Collecting(o, tables, 0, [])
  {
  }

  /** One more query of a loop, which goes on if the page is full. */
  lemma CollectPage(o: Order, tables: nat -> Table, n: nat, out: seq<Position>, size: nat)
    requires Collecting(o, tables, n, out) && size >= 1
    ensures var page := Query(o, tables(n), CursorOf(out), size);
            && |page| <= size
            && (|page| >= size ==> Collecting(o, tables, n + 1, out + page))
            && (|page| < size ==> Collected(o, Seen(tables, n + 1), out + page, true))
            && forall p :: p in page ==> p in After(o, tables(n), CursorOf(out))
  {
    hide Query, Stretch, After, Sorted;
    var t, cursor := tables(n), CursorOf(out);
    var page := Query(o, t, cursor, size);
    var next := if page == [] then cursor else Some(page[|page| - 1]);
    QueryTakesFirst(o, t, cursor, size);
    FullPageMayHaveMore(o, t, cursor, size);
    StretchKeepsInv(o, Seen(tables, n), Walk(out, cursor, true), t, page, next, |page| >= size);
    assert Seen(tables, n + 1) == Seen(tables, n) + [t];
    assert page != [] ==> next == CursorOf(out + page);
  }

  lemma AfterShrinks(o: Order, ever: Table, cursor: Option<Position>, p: Position)
    requires p in After(o, ever, cursor)
    ensures |After(o, ever, Some(p))| < |After(o, ever, cursor)|
  {
    assert After(o, ever, Some(p)) <= After(o, ever, cursor) - {p};
    SmallerSet(After(o, ever, Some(p)), After(o, ever, cursor), p);
  }

  lemma {:induction false} SmallerSet(a: Table, b: Table, p: Position)
    requires a <= b - {p} && p in b
    ensures |a| < |b|
    decreases |a|
  {
    if q :| q in a {
      SmallerSet(a - {q}, b - {q}, p);
    }
  }

  /** A table that stayed as it was is listed from its beginning. */
  lemma CollectedIsListing(o: Order, seen: seq<Table>, t: Table, rows: seq<Position>, complete: bool)
    requires Collected(o, seen, rows, complete) && seen != [] && forall k :: 0 <= k < |seen| ==> seen[k] == t
    ensures |rows| <= |Listing(o, t)| && rows == Listing(o, t)[..|rows|]
    ensures complete ==> rows == Listing(o, t)
  {
    hide Listing;
    assert forall p :: p in rows ==> p in t;
    assert seen[0] == t;
    var rest := if complete || rows == [] then {} else After(o, t, Some(rows[|rows| - 1]));
    var all := rows + Listing(o, rest);
    ListingIsSorted(o, rest);
    RestFollows(o, rows, rest, all);
    forall p
      ensures p in all <==> p in t
    {
      assert p in all <==> p in rows || p in rest;
    }
    SortedIsListing(o, t, all);
    if complete {
      assert rest == {} && |Listing(o, rest)| == 0;
    }
  }

  lemma RestFollows(o: Order, rows: seq<Position>, rest: Table, all: seq<Position>)
    requires Sorted(o, rows) && all == rows + Listing(o, rest)
    requires rest != {} ==> rows != [] && forall p :: p in rest ==> Precedes(o, rows[|rows| - 1], p)
    ensures Sorted(o, all)
  {
    hide Listing;
    ListingIsSorted(o, rest);
    forall i, j | 0 <= i < j < |all|
      ensures Precedes(o, all[i], all[j])
    {
      if i < |rows| <= j {
        assert all[j] in Listing(o, rest);
        assert i < |rows| - 1 ==> Precedes(o, rows[i], rows[|rows| - 1]);
      }
    }
  }

  lemma LastWasSeen(o: Order, tables: nat -> Table, n: nat, out: seq<Position>)
    requires Collecting(o, tables, n, out) && out != []
    ensures exists k: nat :: LastOf(out) in tables(k)
  {
    assert LastOf(out) in out;
    var k :| 0 <= k < |Seen(tables, n)| && LastOf(out) in Seen(tables, n)[k];
    assert LastOf(out) in tables(k);
  }

  method RollupsPage(t: Table, after: Position, limit: int) returns (page: seq<Position>)
    ensures page == Query(Ascending, t, UnlessBothZero(after), if limit <= 0 || limit > 201 then 200 else limit)
    ensures UnlessBothZero(after) == if after.at == 0 && after.tie == 0 then None else Some(after)
  {
    page := Select(Ascending, t, UnlessBothZero(after), if limit <= 0 || limit > 201 then 200 else limit);
  }

  /** Rollups: in (bucket, dimensions) order every matching row that is there throughout,
      each once, whatever is folded meanwhile; query k sees tables(k), and `ever` holds
      all rows that exist during the call. */
  method Rollups(tables: nat -> Table, ghost ever: Table) returns (result: seq<Position>, ghost queries: nat)
    requires forall k: nat :: tables(k) <= ever
    requires RealTies(ever)
    ensures queries >= 1 && Collected(Ascending, Seen(tables, queries), result, true)
    ensures (forall k: nat :: tables(k) == ever) ==> result == Listing(Ascending, ever)
  {
    hide Query, Collecting, Collected, CursorOf, After, Precedes, Listing;
    result, queries := [], 0;
    var after, k: nat := NO_CURSOR, 0;
    CollectingStarts(Ascending, tables);
    while true
      invariant k == queries && Collecting(Ascending, tables, k, result) && after == LastOf(result)
      decreases |After(Ascending, ever, CursorOf(result))|
    {
      EncodesBoth(tables, k, result, ever);
      CollectPage(Ascending, tables, k, result, 200);
      var page := RollupsPage(tables(k), after, 200);
      ghost var before := result;
      result, k, queries := result + page, k + 1, queries + 1;
      if |page| < 200 {
        FixedIsListing(Ascending, tables, queries, result, ever);
        return;
      }
      after := page[|page| - 1];
      PageAdvances(Ascending, tables(k - 1), ever, before, page);
    }
  }

  lemma EncodesBoth(tables: nat -> Table, n: nat, out: seq<Position>, ever: Table)
    requires Collecting(Ascending, tables, n, out) && RealTies(ever) && forall k: nat :: tables(k) <= ever
    ensures UnlessBothZero(LastOf(out)) == CursorOf(out)
  {
    if out != [] {
      LastWasSeen(Ascending, tables, n, out);
    }
  }

  lemma EncodesTime(tables: nat -> Table, n: nat, out: seq<Position>, ever: Table)
    requires Collecting(NewestFirst, tables, n, out) && RealTimes(ever) && forall k: nat :: tables(k) <= ever
    ensures UnlessZeroTime(LastOf(out)) == CursorOf(out)
    ensures out != [] ==> FarIfZeroTime(LastOf(out)) == CursorOf(out)
  {
    if out != [] {
      LastWasSeen(NewestFirst, tables, n, out);
    }
  }

  lemma PageAdvances(o: Order, t: Table, ever: Table, out: seq<Position>, page: seq<Position>)
    requires t <= ever && page != [] && forall p :: p in page ==> p in After(o, t, CursorOf(out))
    ensures |After(o, ever, CursorOf(out + page))| < |After(o, ever, CursorOf(out))|
    ensures LastOf(out + page) == page[|page| - 1]
  {
    var p := page[|page| - 1];
    assert p in page;
    AfterShrinks(o, ever, CursorOf(out), p);
    assert LastOf(out + page) == p;
  }

  lemma FixedIsListing(o: Order, tables: nat -> Table, n: nat, rows: seq<Position>, t: Table)
    requires n >= 1 && Collected(o, Seen(tables, n), rows, true)
    ensures (forall k: nat :: tables(k) == t) ==> rows == Listing(o, t)
  {
    hide Collected, Listing;
    if forall k: nat :: tables(k) == t {
      CollectedIsListing(o, Seen(tables, n), t, rows, true);
    }
  }

  method ListSessionsPage(t: Table, before: Position, limit: int) returns (page: seq<Position>)
    ensures page == Query(NewestFirst, t, UnlessZeroTime(before), if limit <= 0 || limit > 201 then 101 else limit)
    ensures UnlessZeroTime(before) == if before.at == 0 then None else Some(before)
  {
    page := Select(NewestFirst, t, UnlessZeroTime(before), if limit <= 0 || limit > 201 then 101 else limit);
  }

  /** ListSessions: most recently seen first, every live session that keeps its place
      throughout, no place twice. */
  method ListSessions(tables: nat -> Table, ghost ever: Table) returns (out: seq<Position>, ghost queries: nat)
    requires forall k: nat :: tables(k) <= ever
    requires RealTimes(ever)
    ensures queries >= 1 && Collected(NewestFirst, Seen(tables, queries), out, true)
    ensures (forall k: nat :: tables(k) == ever) ==> out == Listing(NewestFirst, ever)
  {
    hide Query, Collecting, Collected, CursorOf, After, Precedes, Listing;
    out, queries := [], 0;
    var before, k: nat := NO_CURSOR, 0;
    CollectingStarts(NewestFirst, tables);
    while true
      invariant k == queries && Collecting(NewestFirst, tables, k, out) && before == LastOf(out)
      decreases |After(NewestFirst, ever, CursorOf(out))|
    {
      EncodesTime(tables, k, out, ever);
      CollectPage(NewestFirst, tables, k, out, 201);
      var page := ListSessionsPage(tables(k), before, 201);
      ghost var sofar := out;
      out, k, queries := out + page, k + 1, queries + 1;
      if |page| < 201 {
        FixedIsListing(NewestFirst, tables, queries, out, ever);
        return;
      }
      before := page[|page| - 1];
      PageAdvances(NewestFirst, tables(k - 1), ever, sofar, page);
    }
  }

  method ListCustomers(t: Table, before: Position, limit: int) returns (page: seq<Position>)
    ensures page == Query(NewestFirst, t, FarIfZeroTime(before), if limit <= 0 || limit > 200 then 50 else limit)
  {
    page := Select(NewestFirst, t, FarIfZeroTime(before), if limit <= 0 || limit > 200 then 50 else limit);
  }

  const PAGE_SIZE := 200
  const MAX_ROWS := 10000

  lemma FirstQueryIsFar(t: Table, size: nat)
    requires RealTimes(t)
    ensures Query(NewestFirst, t, FarIfZeroTime(NO_CURSOR), size) == Query(NewestFirst, t, None, size)
  {
    hide Listing;
    FarCursorSeesAll(t);
  }

  lemma StopsAtMaximum(o: Order, tables: nat -> Table, n: nat, rows: seq<Position>)
    requires n >= 1 && rows != [] && Collecting(o, tables, n, rows)
    ensures Collected(o, Seen(tables, n), rows, false)
  {
  }

  lemma FixedIsPrefix(tables: nat -> Table, n: nat, rows: seq<Position>, t: Table)
    requires n >= 1 && Collected(NewestFirst, Seen(tables, n), rows, |rows| < MAX_ROWS) && |rows| <= MAX_ROWS
    ensures (forall k: nat :: tables(k) == t) ==>
              var s := Listing(NewestFirst, t); rows == s[..Min(MAX_ROWS, |s|)]
  {
    hide Collected, Listing;
    if forall k: nat :: tables(k) == t {
      CollectedIsListing(NewestFirst, Seen(tables, n), t, rows, |rows| < MAX_ROWS);
    }
  }

  /** The customer export: in directory order every customer that keeps its place
      throughout, up to the 10000th row; of a table that does not change, exactly the
      first min(n, 10000). */
  method ExportCustomers(tables: nat -> Table, ghost ever: Table) returns (rows: seq<Position>, ghost queries: nat)
    requires forall k: nat :: tables(k) <= ever
    requires RealTimes(ever)
    ensures queries >= 1 && |rows| <= 10000
    ensures Collected(NewestFirst, Seen(tables, queries), rows, |rows| < 10000)
    ensures (forall k: nat :: tables(k) == ever) ==>
              var s := Listing(NewestFirst, ever); rows == s[..Min(10000, |s|)]
  {
    hide Query, Collecting, Collected, CursorOf, After, Precedes, Listing;
    rows, queries := [], 0;
    var before, k: nat := NO_CURSOR, 0;
    CollectingStarts(NewestFirst, tables);
    while |rows| < MAX_ROWS
      invariant k == queries && |rows| == k * PAGE_SIZE < MAX_ROWS && before == LastOf(rows)
      invariant Collecting(NewestFirst, tables, k, rows)
      decreases MAX_ROWS - |rows|
    {
      EncodesTime(tables, k, rows, ever);
      FirstQueryIsFar(tables(k), PAGE_SIZE);
      CollectPage(NewestFirst, tables, k, rows, PAGE_SIZE);
      NoRowsNoCursor();
      var page := ListCustomers(tables(k), before, PAGE_SIZE);
      assert page[..|page|] == page;
      page := page[..Min(|page|, MAX_ROWS - |rows|)];
      ghost var sofar := rows;
      rows, k, queries := rows + page, k + 1, queries + 1;
      if |page| < PAGE_SIZE || |rows| >= MAX_ROWS {
        if |page| == PAGE_SIZE {
          StopsAtMaximum(NewestFirst, tables, queries, rows);
        }
        break;
      }
      before := page[|page| - 1];
    }
    FixedIsPrefix(tables, queries, rows, ever);
  }
}
