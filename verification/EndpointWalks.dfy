/** Clients following next_cursor through the API-key and audit-log endpoints. */
module EndpointWalks {
  import opened Keyset
  import opened Listings
  import opened Wrappers

  datatype Endpoint = ApiKeys | AuditLog

  ghost function PageOf(e: Endpoint, t: Table, cursor: Option<Position>, limit: nat): Page {
    match e
    case ApiKeys => KeyPage(t, cursor, limit)
    case AuditLog => AuditPage(t, cursor, limit)
  }

  /** One request, with the cursor the previous page handed out. */
  ghost function Request(e: Endpoint, w: Walk, t: Table, limit: nat): Walk {
    if !w.more then w
    else
      var page := PageOf(e, t, w.cursor, limit);
      Walk(w.rows + page.data, page.nextCursor, page.hasMore)
  }

  /** Request k sees tables[k]. */
  ghost function Browse(e: Endpoint, tables: seq<Table>, limit: nat): Walk {
    if tables == [] then START
    else Request(e, Browse(e, tables[..|tables| - 1], limit), tables[|tables| - 1], limit)
  }

  /** The limits at which the look-ahead row survives the endpoint's own clamp. */
  predicate LooksAhead(e: Endpoint, limit: nat) {
    1 <= limit && if e.ApiKeys? then limit <= MAX_LIMIT else limit < MAX_LIMIT
  }

  lemma NextCursorIsReal(t: Table, cursor: Option<Position>, limit: nat)
    requires RealTimes(t)
    ensures RealCursor(FetchPage(NewestFirst, t, cursor, limit).nextCursor)
  {
    hide Listing;
    var rest := After(NewestFirst, t, cursor);
    ListingIsSorted(NewestFirst, rest);
    var page := FetchPage(NewestFirst, t, cursor, limit);
    if page.nextCursor.Some? {
      var i := |page.data| - 1;
      assert page.nextCursor.value == Listing(NewestFirst, rest)[i] && Listing(NewestFirst, rest)[i] in rest;
    }
  }

  lemma {:induction false} BrowseIsFollow(e: Endpoint, tables: seq<Table>, limit: nat)
    requires LooksAhead(e, limit) && forall k :: 0 <= k < |tables| ==> RealTimes(tables[k])
    ensures Browse(e, tables, limit) == Follow(NewestFirst, tables, limit)
    ensures RealCursor(Browse(e, tables, limit).cursor)
  {
    if tables != [] {
      hide KeyPage, AuditPage, FetchPage, RealTimes, RealCursor;
      var n := |tables| - 1;
      BrowseIsFollow(e, tables[..n], limit);
      var w, t := Browse(e, tables[..n], limit), tables[n];
      NextCursorIsReal(t, w.cursor, limit);
      if e.ApiKeys? {
        KeyPageIsExact(t, w.cursor, limit);
      } else {
        AuditPageIsExact(t, w.cursor, limit);
      }
    }
  }

  /** Whatever comes and goes between requests, the API-key endpoint at every limit and
      the audit endpoint below 200 never return a row twice or out of order, and once
      has_more is false have returned every row that was there throughout. */
  lemma BrowsingSurvivesChanges(e: Endpoint, tables: seq<Table>, limit: nat)
    requires LooksAhead(e, limit) && forall k :: 0 <= k < |tables| ==> RealTimes(tables[k])
    ensures var w := Browse(e, tables, limit);
            && Sorted(NewestFirst, w.rows)
            && (forall p :: p in w.rows ==> exists k :: 0 <= k < |tables| && p in tables[k])
            && (!w.more ==> forall p :: (forall k :: 0 <= k < |tables| ==> p in tables[k]) ==> p in w.rows)
  {
    hide Browse, Follow, RealTimes, Sorted;
    BrowseIsFollow(e, tables, limit);
    WalkSurvivesChanges(NewestFirst, tables, limit);
  }

  /** While rows only arrive at the newest end, the pages concatenate to the table the
      walk began on, and the walk ends. */
  lemma BrowsingListsTheTable(e: Endpoint, tables: seq<Table>, t: Table, limit: nat)
    requires LooksAhead(e, limit) && forall k :: 0 <= k < |tables| ==> RealTimes(tables[k])
    requires tables != [] && tables[0] == t && forall k :: 0 <= k < |tables| ==> AddsAhead(NewestFirst, t, tables[k])
    ensures var w := Browse(e, tables, limit);
            && (!w.more ==> w.rows == Listing(NewestFirst, t))
            && (|tables| >= |t| ==> !w.more)
  {
    hide Browse, Follow, Listing, RealTimes, AddsAhead;
    BrowseIsFollow(e, tables, limit);
    WalkIsTheListing(NewestFirst, tables, t, limit);
  }

  lemma NoLookAhead(t: Table, cursor: Option<Position>)
    requires RealTimes(t)
    ensures !AuditPage(t, cursor, 200).hasMore
    ensures cursor.None? ==>
              var s := Listing(NewestFirst, t); AuditPage(t, cursor, 200).data == s[..Min(200, |s|)]
  {
    hide Listing;
    if cursor.None? {
      FarCursorSeesAll(t);
    }
  }

  /** The audit endpoint at its maximum limit: has_more is never true, so a client stops
      after the first min(n, 200) rows, however many there are. */
  lemma {:induction false} AuditStopsAtMaximum(tables: seq<Table>)
    requires tables != [] && RealTimes(tables[0])
    ensures var s, w := Listing(NewestFirst, tables[0]), Browse(AuditLog, tables, 200);
            !w.more && w.rows == s[..Min(200, |s|)]
  {
    hide Listing, AuditPage;
    var n := |tables| - 1;
    if n > 0 {
      AuditStopsAtMaximum(tables[..n]);
    } else {
      assert Browse(AuditLog, tables[..0], 200) == START;
      NoLookAhead(tables[0], None);
    }
  }

  /** So at the maximum the walk lists the table exactly when it has at most 200 rows. */
  lemma AuditMaximumIsEnough(tables: seq<Table>)
    requires tables != [] && RealTimes(tables[0])
    ensures Browse(AuditLog, tables, 200).rows == Listing(NewestFirst, tables[0]) <==> |tables[0]| <= 200
  {
    hide Browse, Listing;
    AuditStopsAtMaximum(tables);
    ListingIsSorted(NewestFirst, tables[0]);
    var s := Listing(NewestFirst, tables[0]);
    assert |s[..Min(200, |s|)]| == Min(200, |s|);
    assert |s| <= 200 ==> s[..|s|] == s;
  }
}
