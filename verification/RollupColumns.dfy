/** What each column of the rollup table counts, said of the events alone. */
module RollupColumns {
  import opened Rollups
  import opened RollupRuns
  import opened Wrappers

  predicate Closed(state: string) {
    state == "resolved" || state == "closed"
  }

  function SurfaceDimension(d: Data): Dimensions {
    if d.surface == "" then NoDimension else Surface(d.surface)
  }

  /** The event counts, once, towards this metric under these dimensions. */
  predicate Counts(e: Event, metric: Metric, dimensions: Dimensions) {
    var d := e.data;
    match metric
    case ConversationsCreated =>
      e.kind == ConversationCreated && dimensions == (if d.channel == "" then NoDimension else Channel(d.channel))
    case SurfaceConversationsStarted(channel) =>
      e.kind == ConversationCreated && d.channel == channel && (channel == "widget" || channel == "portal") &&
      dimensions == NoDimension
    case ConversationsResolved => e.kind == ConversationResolved && dimensions == NoDimension
    case ConversationsReopened =>
      e.kind == ConversationStateSet && d.from == "resolved" && d.to != "resolved" && dimensions == NoDimension
    case TicketsCreated => e.kind == TicketCreated && dimensions == NoDimension
    case TicketsResolved => e.kind == TicketStateSet && Closed(d.to) && dimensions == NoDimension
    case TicketsReopened =>
      e.kind == TicketStateSet && Closed(d.from) && !Closed(d.to) && dimensions == NoDimension
    case MessagesReceived => e.kind == MessageCreated && d.authorType == "customer" && dimensions == NoDimension
    case MessagesSent => e.kind == MessageCreated && d.authorType != "customer" && dimensions == NoDimension
    case FeedbackItems => e.kind == FeedbackCreated && dimensions == NoDimension
    case FeedbackVotes => e.kind == FeedbackVoteRecorded && dimensions == NoDimension
    case FeedbackStatus =>
      e.kind == FeedbackStatusChanged && dimensions == (if d.to == "" then NoDimension else Status(d.to))
    case ArticleViews => e.kind == ArticleViewed && dimensions == SurfaceDimension(d)
    case ArticleHelpful => e.kind == ArticleFeedbackRecorded && d.helpful && dimensions == NoDimension
    case ArticleUnhelpful => e.kind == ArticleFeedbackRecorded && !d.helpful && dimensions == NoDimension
    case Searches => e.kind == ArticleSearchRecorded && dimensions == SurfaceDimension(d)
    case SearchNoResults =>
      e.kind == ArticleSearchRecorded && d.resultCount == 0 && dimensions == SurfaceDimension(d)
    case SurveyResponses => e.kind == SurveyResponseCreated && dimensions == NoDimension
    case FormsSubmitted => e.kind == FormSubmitted && dimensions == NoDimension
    case SLAWarnings => e.kind == SLAApproaching && dimensions == NoDimension
    case SLABreaches => e.kind == SLABreached && dimensions == NoDimension
    case WidgetImpressions => e.kind == EventReceived && d.typ == "widget.impression" && dimensions == NoDimension
    case WidgetOpens => e.kind == EventReceived && d.typ == "widget.opened" && dimensions == NoDimension
    case WidgetArticlesViewed =>
      e.kind == EventReceived && d.typ == "widget.article_viewed" && dimensions == NoDimension
  }

  /** How many events of the day, up to that sequence number, count. */
  function Counted(log: seq<Event>, last: nat, metric: Metric, dimensions: Dimensions, day: int): nat {
    if log == [] then 0
    else
      var e := log[|log| - 1];
      Counted(log[..|log| - 1], last, metric, dimensions, day) +
      if e.sequence <= last && e.day == day && Counts(e, metric, dimensions) then 1 else 0
  }

  /** The event's metrics hold this tally once if it counts, and not at all otherwise. */
  predicate CountsExactly(e: Event, metric: Metric, dimensions: Dimensions) {
    Occurrences(MetricsForEvent(e), Tally(metric, dimensions)) == if Counts(e, metric, dimensions) then 1 else 0
  }

  lemma ConversationsCountOnce(e: Event, metric: Metric, dimensions: Dimensions)
    requires e.kind == ConversationCreated
    ensures CountsExactly(e, metric, dimensions)
  {
    OccurrencesOfTwo(MetricsForEvent(e), Tally(metric, dimensions));
    hide Occurrences;
  }

  lemma StatesCountOnce(e: Event, metric: Metric, dimensions: Dimensions)
    requires e.kind == ConversationStateSet || e.kind == TicketStateSet
    ensures CountsExactly(e, metric, dimensions)
  {
    OccurrencesOfTwo(MetricsForEvent(e), Tally(metric, dimensions));
    hide Occurrences;
  }

  lemma ArticlesCountOnce(e: Event, metric: Metric, dimensions: Dimensions)
    requires e.kind == ArticleViewed || e.kind == ArticleFeedbackRecorded || e.kind == ArticleSearchRecorded
    ensures CountsExactly(e, metric, dimensions)
  {
    OccurrencesOfTwo(MetricsForEvent(e), Tally(metric, dimensions));
    hide Occurrences;
  }

  lemma WidgetEventsCountOnce(e: Event, metric: Metric, dimensions: Dimensions)
    requires e.kind == EventReceived
    ensures CountsExactly(e, metric, dimensions)
  {
    assert "widget.impression"[7] != "widget.opened"[7];
    assert "widget.impression"[7] != "widget.article_viewed"[7];
    assert "widget.opened"[7] != "widget.article_viewed"[7];
    OccurrencesOfTwo(MetricsForEvent(e), Tally(metric, dimensions));
    hide Occurrences;
  }

  predicate Simple(kind: Kind) {
    kind !in {ConversationCreated, ConversationStateSet, TicketStateSet, ArticleViewed, ArticleFeedbackRecorded,
              ArticleSearchRecorded, EventReceived}
  }

  lemma SimpleKindsCountOnce(e: Event, metric: Metric, dimensions: Dimensions)
    requires Simple(e.kind)
    ensures CountsExactly(e, metric, dimensions)
  {
    OccurrencesOfTwo(MetricsForEvent(e), Tally(metric, dimensions));
    hide Occurrences;
  }

  /** The metrics of an event are those it counts towards, each once. */
  lemma EventCountsOnce(e: Event, metric: Metric, dimensions: Dimensions)
    ensures Occurrences(MetricsForEvent(e), Tally(metric, dimensions)) == if Counts(e, metric, dimensions) then 1 else 0
  {
    hide MetricsForEvent, Counts, Occurrences;
    match e.kind
    case ConversationCreated => ConversationsCountOnce(e, metric, dimensions);
    case ConversationStateSet => StatesCountOnce(e, metric, dimensions);
    case TicketStateSet => StatesCountOnce(e, metric, dimensions);
    case ArticleViewed => ArticlesCountOnce(e, metric, dimensions);
    case ArticleFeedbackRecorded => ArticlesCountOnce(e, metric, dimensions);
    case ArticleSearchRecorded => ArticlesCountOnce(e, metric, dimensions);
    case EventReceived => WidgetEventsCountOnce(e, metric, dimensions);
    case _ => SimpleKindsCountOnce(e, metric, dimensions);
  }

  lemma {:induction false} HistogramCounts(log: seq<Event>, last: nat, metric: Metric, dimensions: Dimensions, day: int)
    ensures Histogram(UpTo(log, last), Bucket(Tally(metric, dimensions), day)) ==
              Counted(log, last, metric, dimensions, day)
  {
    hide MetricsForEvent, Counts, Occurrences;
    if log != [] {
      var n := |log| - 1;
      HistogramCounts(log[..n], last, metric, dimensions, day);
      EventCountsOnce(log[n], metric, dimensions);
      HistogramSnoc(UpTo(log[..n], last), log[n], Bucket(Tally(metric, dimensions), day));
      assert UpTo(log[..n], last) + [] == UpTo(log[..n], last);
    }
  }

  lemma HistogramSnoc(log: seq<Event>, e: Event, b: Bucket)
    ensures Histogram(log + [e], b) == Histogram(log, b) + InEvent(e, b)
  {
    assert (log + [e])[..|log + [e]| - 1] == log;
  }

  /** In every run, each cell of the table holds the number of events of its day, up to
      last_sequence, that meet the condition written out for its metric. */
  lemma CellsCountEvents(steps: seq<Step>, metric: Metric, dimensions: Dimensions, day: int)
    ensures var s := Run(INIT, steps);
            var n, cell := Counted(s.log, s.last, metric, dimensions, day), Bucket(Tally(metric, dimensions), day);
            && (cell in s.table <==> n > 0)
            && (cell in s.table ==> s.table[cell].count == n && s.table[cell].value == n as real)
  {
    hide Run;
    RollupsAreHistogram(steps);
    var s := Run(INIT, steps);
    HistogramCounts(s.log, s.last, metric, dimensions, day);
    assert CountAt(s.table, Bucket(Tally(metric, dimensions), day)) == Counted(s.log, s.last, metric, dimensions, day);
  }

  // ---------------------------------------------------------------- computed_at

  lemma {:induction false} UpsertAllStamps(t: Table, tallies: seq<Tally>, day: int, now: int, b: Bucket)
    ensures var t' := UpsertAll(t, tallies, day, now);
            if b.day == day && b.tally in tallies then b in t' && t'[b].computedAt == now
            else (b in t' <==> b in t) && (b in t ==> t'[b] == t[b])
  {
    if tallies != [] {
      var n := |tallies| - 1;
      UpsertAllStamps(t, tallies[..n], day, now, b);
      assert tallies == tallies[..n] + [tallies[n]];
    }
  }

  lemma {:induction false} OccurrencesAreIn(tallies: seq<Tally>, tally: Tally)
    ensures tally in tallies <==> Occurrences(tallies, tally) > 0
  {
    if tallies != [] {
      OccurrencesAreIn(tallies[1..], tally);
    }
  }

  /** A fold stamps exactly the rows its events count towards, and leaves every other
      row as it was. */
  lemma {:induction false} FoldStamps(t: Table, records: seq<Event>, now: int, b: Bucket)
    ensures var t' := Fold(t, records, now);
            if Histogram(records, b) > 0 then b in t' && t'[b].computedAt == now
            else (b in t' <==> b in t) && (b in t ==> t'[b] == t[b])
  {
    hide MetricsForEvent;
    if records != [] {
      var n := |records| - 1;
      FoldStamps(t, records[..n], now, b);
      UpsertAllStamps(Fold(t, records[..n], now), MetricsForEvent(records[n]), records[n].day, now, b);
      OccurrencesAreIn(MetricsForEvent(records[n]), b.tally);
    }
  }
}
