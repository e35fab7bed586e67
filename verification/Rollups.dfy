/** internal/analytics/service.go: which metrics an event counts towards, and the
    transaction that folds new events of one workspace into its daily rollups. */
module Rollups {
  import opened Wrappers

  datatype Kind =
    | ConversationCreated | TicketCreated | MessageCreated | ConversationResolved
    | ConversationStateSet | TicketStateSet
    | FeedbackCreated | FeedbackVoteRecorded | FeedbackStatusChanged
    | ArticleViewed | ArticleFeedbackRecorded | ArticleSearchRecorded
    | SurveyResponseCreated | FormSubmitted | SLAApproaching | SLABreached
    | EventReceived | OtherKind

  /** The fields read out of an event's JSON data; absent or mistyped ones are zero. */
  datatype Data = Data(channel: string, authorType: string, typ: string, surface: string,
                       resultCount: int, helpful: bool, from: string, to: string)

  /** `day` is the UTC midnight of occurred_at. */
  datatype Event = Event(sequence: nat, kind: Kind, day: int, data: Data)

  datatype Metric =
    | ConversationsCreated | ConversationsResolved | ConversationsReopened
    | SurfaceConversationsStarted(channel: string) // surfaces.<channel>.conversations_started
    | TicketsCreated | TicketsResolved | TicketsReopened
    | MessagesReceived | MessagesSent
    | FeedbackItems | FeedbackVotes | FeedbackStatus
    | ArticleViews | ArticleHelpful | ArticleUnhelpful | Searches | SearchNoResults
    | SurveyResponses | FormsSubmitted | SLAWarnings | SLABreaches
    | WidgetImpressions | WidgetOpens | WidgetArticlesViewed

  /** At most one dimension is ever attached. */
  datatype Dimensions = NoDimension | Channel(channel: string) | Status(status: string) | Surface(surface: string)

  datatype Tally = Tally(metric: Metric, dimensions: Dimensions)

  function Plain(metric: Metric): Tally {
    Tally(metric, NoDimension)
  }

  function SurfaceOf(d: Data): Dimensions {
    if d.surface != "" then Surface(d.surface) else NoDimension
  }

  predicate ClosedState(state: string) {
    state == "resolved" || state == "closed"
  }

  function MetricsForEvent(e: Event): seq<Tally> {
    var d := e.data;
    match e.kind
    case ConversationCreated =>
      [Tally(ConversationsCreated, if d.channel != "" then Channel(d.channel) else NoDimension)] +
      if d.channel == "widget" || d.channel == "portal" then [Plain(SurfaceConversationsStarted(d.channel))] else []
    case TicketCreated => [Plain(TicketsCreated)]
    case MessageCreated => [Plain(if d.authorType == "customer" then MessagesReceived else MessagesSent)]
    case ConversationResolved => [Plain(ConversationsResolved)]
    case ConversationStateSet =>
      if d.from == "resolved" && d.to != "resolved" then [Plain(ConversationsReopened)] else []
    case TicketStateSet =>
      (if ClosedState(d.to) then [Plain(TicketsResolved)] else []) +
      if ClosedState(d.from) && !ClosedState(d.to) then [Plain(TicketsReopened)] else []
    case FeedbackCreated => [Plain(FeedbackItems)]
    case FeedbackVoteRecorded => [Plain(FeedbackVotes)]
    case FeedbackStatusChanged => [Tally(FeedbackStatus, if d.to != "" then Status(d.to) else NoDimension)]
    case ArticleViewed => [Tally(ArticleViews, SurfaceOf(d))]
    case ArticleFeedbackRecorded => [Plain(if d.helpful then ArticleHelpful else ArticleUnhelpful)]
    case ArticleSearchRecorded =>
      [Tally(Searches, SurfaceOf(d))] + if d.resultCount == 0 then [Tally(SearchNoResults, SurfaceOf(d))] else []
    case SurveyResponseCreated => [Plain(SurveyResponses)]
    case FormSubmitted => [Plain(FormsSubmitted)]
    case SLAApproaching => [Plain(SLAWarnings)]
    case SLABreached => [Plain(SLABreaches)]
    case EventReceived =>
      if d.typ == "widget.impression" then [Plain(WidgetImpressions)]
      else if d.typ == "widget.opened" then [Plain(WidgetOpens)]
      else if d.typ == "widget.article_viewed" then [Plain(WidgetArticlesViewed)]
      else []
    case OtherKind => []
  }

  // ------------------------------------------------------- the batch histogram

  /** The unique index (metric, bucket, dimensions) of one workspace at grain day. */
  datatype Bucket = Bucket(tally: Tally, day: int)

  function Occurrences(tallies: seq<Tally>, tally: Tally): nat {
    if tallies == [] then 0
    else (if tallies[0] == tally then 1 else 0) + Occurrences(tallies[1..], tally)
  }

  function InEvent(e: Event, b: Bucket): nat {
    if e.day == b.day then Occurrences(MetricsForEvent(e), b.tally) else 0
  }

  /** How often the events in `log` count towards the bucket. */
  function Histogram(log: seq<Event>, b: Bucket): nat {
    if log == [] then 0 else Histogram(log[..|log| - 1], b) + InEvent(log[|log| - 1], b)
  }

  function Emitted(log: seq<Event>): nat {
    if log == [] then 0 else Emitted(log[..|log| - 1]) + |MetricsForEvent(log[|log| - 1])|
  }

  lemma {:induction false} HistogramConcat(a: seq<Event>, b: seq<Event>, k: Bucket)
    ensures Histogram(a + b, k) == Histogram(a, k) + Histogram(b, k)
  {
    if b == [] {
      assert a + b == a;
    } else {
      assert (a + b)[..|a + b| - 1] == a + b[..|b| - 1];
      HistogramConcat(a, b[..|b| - 1], k);
    }
  }

  // ------------------------------------------------------------ the rollup table

  datatype Rollup = Rollup(value: real, count: nat, computedAt: int)

  type Table = map<Bucket, Rollup>

  /** The upsert: insert (1, 1), or add one to both columns. */
  function Upsert(t: Table, b: Bucket, now: int): Table {
    if b in t then t[b := Rollup(t[b].value + 1.0, t[b].count + 1, now)] else t[b := Rollup(1.0, 1, now)]
  }

  function UpsertAll(t: Table, tallies: seq<Tally>, day: int, now: int): Table {
    if tallies == [] then t
    else Upsert(UpsertAll(t, tallies[..|tallies| - 1], day, now), Bucket(tallies[|tallies| - 1], day), now)
  }

  function Fold(t: Table, records: seq<Event>, now: int): Table {
    if records == [] then t
    else
      var last := records[|records| - 1];
      UpsertAll(Fold(t, records[..|records| - 1], now), MetricsForEvent(last), last.day, now)
  }

  function CountAt(t: Table, b: Bucket): nat {
    if b in t then t[b].count else 0
  }

  /** Rows hold value = count >= 1: a bucket nothing counted towards has no row. */
  ghost predicate Consistent(t: Table) {
    forall b :: b in t ==> t[b].count >= 1 && t[b].value == t[b].count as real
  }

  /** The table is exactly the histogram of `log`. */
  ghost predicate Tabulates(t: Table, log: seq<Event>) {
    Consistent(t) && forall b :: CountAt(t, b) == Histogram(log, b)
  }

  lemma {:induction false} OccurrencesSnoc(tallies: seq<Tally>, tally: Tally, x: Tally)
    ensures Occurrences(tallies + [x], tally) == Occurrences(tallies, tally) + if x == tally then 1 else 0
  {
    if tallies == [] {
      assert tallies + [x] == [x];
    } else {
      assert (tallies + [x])[1..] == tallies[1..] + [x];
      OccurrencesSnoc(tallies[1..], tally, x);
    }
  }

  lemma {:induction false} UpsertAllCounts(t: Table, tallies: seq<Tally>, day: int, now: int)
    requires Consistent(t)
    ensures var t' := UpsertAll(t, tallies, day, now);
            Consistent(t') &&
            forall b :: CountAt(t', b) == CountAt(t, b) + if b.day == day then Occurrences(tallies, b.tally) else 0
  {
    if tallies != [] {
      var n := |tallies| - 1;
      UpsertAllCounts(t, tallies[..n], day, now);
      forall b: Bucket
        ensures Occurrences(tallies, b.tally) == Occurrences(tallies[..n], b.tally) +
                  if tallies[n] == b.tally then 1 else 0
      {
        assert tallies == tallies[..n] + [tallies[n]];
        OccurrencesSnoc(tallies[..n], b.tally, tallies[n]);
      }
    }
  }

  /** Folding records adds their histogram to every bucket, and nothing else. */
  lemma {:induction false} FoldAddsHistogram(t: Table, records: seq<Event>, now: int)
    requires Consistent(t)
    ensures var t' := Fold(t, records, now);
            Consistent(t') && forall b :: CountAt(t', b) == CountAt(t, b) + Histogram(records, b)
  {
    if records != [] {
      var n := |records| - 1;
      FoldAddsHistogram(t, records[..n], now);
      UpsertAllCounts(Fold(t, records[..n], now), MetricsForEvent(records[n]), records[n].day, now);
    }
  }

  // ----------------------------------------------------------- FoldWorkspace

  datatype Result = Ok(count: nat) | Failed(count: nat)

  ghost predicate InSequence(log: seq<Event>) {
    forall i, j :: 0 <= i < j < |log| ==> log[i].sequence < log[j].sequence
  }

  /** SELECT ... WHERE sequence > after ORDER BY sequence, over a log kept in sequence. */
  function After(log: seq<Event>, after: nat): seq<Event> {
    if log == [] then []
    else After(log[..|log| - 1], after) + if log[|log| - 1].sequence > after then [log[|log| - 1]] else []
  }

  lemma {:induction false} AfterSelects(log: seq<Event>, after: nat)
    ensures forall e :: e in After(log, after) <==> e in log && e.sequence > after
  {
    if log != [] {
      AfterSelects(log[..|log| - 1], after);
      assert log == log[..|log| - 1] + [log[|log| - 1]];
    }
  }

  function LastSequence(after: nat, records: seq<Event>): nat {
    if records == [] then after else records[|records| - 1].sequence
  }

  class RollupStore {
    var rollups: Table
    var lastSequence: Option<nat>   // the report_rollup_state row, if any

    constructor ()
      ensures rollups == map[] && lastSequence == None
    {
      rollups, lastSequence := map[], None;
    }

    function From(): nat
      reads this
    {
      if lastSequence.Some? then lastSequence.value else 0
    }

    /** One transaction. `budget` of its statements succeed and the next one fails it:
        begin, lock, two reads, the upserts, the state row, commit. None means nothing
        fails. */
    method FoldWorkspace(log: seq<Event>, now: int, budget: Option<nat>) returns (r: Result)
      modifies this
      ensures r.Failed? <==> budget.Some? && budget.value < Statements(old(From()), After(log, old(From())))
      ensures r.Failed? ==> r.count == Upserted(budget.value, Emitted(After(log, old(From()))))
      ensures r.Failed? ==> rollups == old(rollups) && lastSequence == old(lastSequence)
      ensures r.Ok? ==> r.count == Emitted(After(log, old(From())))
      ensures r.Ok? ==> rollups == Fold(old(rollups), After(log, old(From())), now)
      ensures r.Ok? ==> From() == LastSequence(old(From()), After(log, old(From())))
      ensures r.Ok? && old(From()) == From() ==> lastSequence == old(lastSequence)
    {
      if budget.Some? && budget.value < OPENING {
        return Failed(0);
      }
      var left := if budget.Some? then Some(budget.value - OPENING) else None;
      var after := From();
      var records := After(log, after);
      var last := LastSequence(after, records);
      AfterSelects(log, after);
      assert records != [] ==> records[|records| - 1] in records;
      var table, count, failed := FoldRecords(rollups, records, now, left);
      if failed {
        return Failed(count);
      }
      if last > after && left == Some(count) {
        return Failed(count);
      }
      if left.Some? && left.value == count + StateWrites(after, records) {
        return Failed(count);
      }
      rollups := table;
      if last > after {
        lastSequence := Some(last);
      }
      r := Ok(count);
    }
  }

  const OPENING := 4

  function StateWrites(after: nat, records: seq<Event>): nat {
    if LastSequence(after, records) > after then 1 else 0
  }

  /** How many statements the transaction issues, commit included. */
  function Statements(after: nat, records: seq<Event>): nat {
    OPENING + Emitted(records) + StateWrites(after, records) + 1
  }

  /** How many upserts are among the first `budget` statements. */
  function Upserted(budget: nat, emitted: nat): nat {
    if budget <= OPENING then 0 else if budget - OPENING < emitted then budget - OPENING else emitted
  }

  /** The upserts of all records, within the budget. */
  method FoldRecords(t: Table, records: seq<Event>, now: int, budget: Option<nat>)
    returns (table: Table, count: nat, failed: bool)
    ensures failed <==> budget.Some? && budget.value < Emitted(records)
    ensures failed ==> count == budget.value
    ensures !failed ==> table == Fold(t, records, now) && count == Emitted(records)
  {
    FoldNone(t, now);
    hide Fold, Emitted, UpsertAll, MetricsForEvent;
    table, count, failed := t, 0, false;
    assert records[..0] == [];
    for i := 0 to |records|
      invariant table == Fold(t, records[..i], now) && count == Emitted(records[..i])
      invariant !failed && (budget.Some? ==> count <= budget.value)
    {
      EmittedGrows(records, i);
      FoldSnoc(t, records, i, now);
      table, count, failed := FoldRecord(table, records[i], now, count, budget);
      if failed {
        return;
      }
    }
    assert records[..|records|] == records;
  }

  lemma FoldNone(t: Table, now: int)
    ensures Fold(t, [], now) == t && Emitted([]) == 0
  {
  }

  lemma FoldSnoc(t: Table, records: seq<Event>, i: nat, now: int)
    requires i < |records|
    ensures Fold(t, records[..i + 1], now) ==
              UpsertAll(Fold(t, records[..i], now), MetricsForEvent(records[i]), records[i].day, now)
    ensures Emitted(records[..i + 1]) == Emitted(records[..i]) + |MetricsForEvent(records[i])|
  {
    assert records[..i + 1][..i] == records[..i];
  }

  /** The upserts of one event, within the budget. */
  method FoldRecord(t: Table, e: Event, now: int, done: nat, budget: Option<nat>)
    returns (table: Table, count: nat, failed: bool)
    requires budget.Some? ==> done <= budget.value
    ensures failed <==> budget.Some? && budget.value < done + |MetricsForEvent(e)|
    ensures failed ==> count == budget.value
    ensures !failed ==> table == UpsertAll(t, MetricsForEvent(e), e.day, now) && count == done + |MetricsForEvent(e)|
  {
    var metrics := MetricsForEvent(e);
    table, count, failed := t, done, false;
    var j := 0;
    while j < |metrics|
      invariant 0 <= j <= |metrics|
      invariant table == UpsertAll(t, metrics[..j], e.day, now)
      invariant count == done + j
      invariant budget.Some? ==> count <= budget.value
    {
      if budget.Some? && count == budget.value {
        failed := true;
        return;
      }
      assert metrics[..j + 1][..j] == metrics[..j];
      table := Upsert(table, Bucket(metrics[j], e.day), now);
      count := count + 1;
      j := j + 1;
    }
    assert metrics[..j] == metrics;
  }

  lemma {:induction false} EmittedGrows(records: seq<Event>, i: nat)
    requires i < |records|
    ensures Emitted(records[..i]) + |MetricsForEvent(records[i])| <= Emitted(records)
    decreases |records|
  {
    hide MetricsForEvent;
    var n := |records| - 1;
    if i < n {
      EmittedGrows(records[..n], i);
      assert records[..n][..i] == records[..i];
    }
  }
}
