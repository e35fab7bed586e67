/** Rollups over whole runs: events appended in sequence order while folds begin,
    commit, abort and are retried. */
module RollupRuns {
  import opened Rollups
  import opened Wrappers

  /** `open` holds the records read by the fold that has the workspace's advisory
      lock; nothing it does is visible before it commits. */
  datatype State = State(log: seq<Event>, table: Table, last: nat, open: Option<seq<Event>>)

  datatype Step = Append(event: Event) | Begin | Commit(now: int) | Abort

  const INIT := State([], map[], 0, None)

  /** The sequence counter's row lock makes sequence order commit order. */
  function Next(s: State, step: Step): State {
    match step
    case Append(e) => if e.sequence > LastSequence(0, s.log) then s.(log := s.log + [e]) else s
    case Begin => if s.open.None? then s.(open := Some(After(s.log, s.last))) else s
    case Commit(now) =>
      if s.open.None? then s
      else s.(table := Fold(s.table, s.open.value, now), last := LastSequence(s.last, s.open.value), open := None)
    case Abort => s.(open := None)
  }

  function Run(s: State, steps: seq<Step>): State
    decreases |steps|
  {
    if steps == [] then s else Run(Next(s, steps[0]), steps[1..])
  }

  /** The events a table folded up to `last` stands for. */
  function UpTo(log: seq<Event>, last: nat): seq<Event> {
    if log == [] then []
    else UpTo(log[..|log| - 1], last) + if log[|log| - 1].sequence <= last then [log[|log| - 1]] else []
  }

  ghost predicate Cut(log: seq<Event>, last: nat, m: nat) {
    m <= |log| &&
    (forall i :: 0 <= i < m ==> log[i].sequence <= last) &&
    (forall i :: m <= i < |log| ==> log[i].sequence > last)
  }

  lemma CutSplits(log: seq<Event>, last: nat, m: nat)
    requires Cut(log, last, m)
    ensures UpTo(log, last) == log[..m] && After(log, last) == log[m..]
  {
    CutBefore(log, last, m);
    CutAfter(log, last, m);
  }

  lemma {:induction false} CutBefore(log: seq<Event>, last: nat, m: nat)
    requires Cut(log, last, m)
    ensures UpTo(log, last) == log[..m]
  {
    if log != [] {
      var n := |log| - 1;
      if m <= n {
        CutBefore(log[..n], last, m);
        assert log[..n][..m] == log[..m];
      } else {
        CutBefore(log[..n], last, n);
        assert log[..n][..n] + [log[n]] == log[..m];
      }
    }
  }

  lemma {:induction false} CutAfter(log: seq<Event>, last: nat, m: nat)
    requires Cut(log, last, m)
    ensures After(log, last) == log[m..]
  {
    if log != [] {
      var n := |log| - 1;
      CutAfter(log[..n], last, if m <= n then m else n);
      assert m <= n ==> log[m..] == log[..n][m..] + [log[n]];
    }
  }

  // ------------------------------------------------------------------- totals

  ghost function Total(t: Table): nat {
    if t == map[] then 0
    else var b :| b in t; t[b].count + Total(t - {b})
  }

  lemma {:induction false} TotalPicks(t: Table, b: Bucket)
    requires b in t
    ensures Total(t) == t[b].count + Total(t - {b})
    decreases |t|
  {
    var c :| c in t && Total(t) == t[c].count + Total(t - {c});
    if c != b {
      TotalPicks(t - {c}, b);
      TotalPicks(t - {b}, c);
      assert t - {c} - {b} == t - {b} - {c};
    }
  }

  lemma UpsertAddsOne(t: Table, b: Bucket, now: int)
    ensures Total(Upsert(t, b, now)) == Total(t) + 1
  {
    var u := Upsert(t, b, now);
    TotalPicks(u, b);
    assert u - {b} == t - {b};
    if b in t {
      TotalPicks(t, b);
    } else {
      assert t - {b} == t;
    }
  }

  lemma {:induction false} UpsertAllAdds(t: Table, tallies: seq<Tally>, day: int, now: int)
    ensures Total(UpsertAll(t, tallies, day, now)) == Total(t) + |tallies|
  {
    if tallies != [] {
      var n := |tallies| - 1;
      UpsertAllAdds(t, tallies[..n], day, now);
      UpsertAddsOne(UpsertAll(t, tallies[..n], day, now), Bucket(tallies[n], day), now);
    }
  }

  lemma {:induction false} FoldAddsEmitted(t: Table, records: seq<Event>, now: int)
    ensures Total(Fold(t, records, now)) == Total(t) + Emitted(records)
  {
    if records != [] {
      var n := |records| - 1;
      FoldAddsEmitted(t, records[..n], now);
      UpsertAllAdds(Fold(t, records[..n], now), MetricsForEvent(records[n]), records[n].day, now);
    }
  }

  lemma {:induction false} EmittedConcat(a: seq<Event>, b: seq<Event>)
    ensures Emitted(a + b) == Emitted(a) + Emitted(b)
  {
    if b == [] {
      assert a + b == a;
    } else {
      assert (a + b)[..|a + b| - 1] == a + b[..|b| - 1];
      EmittedConcat(a, b[..|b| - 1]);
    }
  }

  ghost predicate Inv(s: State) {
    && InSequence(s.log)
    && (forall e :: e in s.log ==> e.sequence > 0)
    && exists m: nat, n: nat :: InvAt(s, m, n)
  }

  /** The first m events are folded; an open fold holds those from m up to n. */
  ghost predicate InvAt(s: State, m: nat, n: nat) {
    && m <= n <= |s.log|
    && Cut(s.log, s.last, m)
    && s.last <= LastSequence(0, s.log)
    && Tabulates(s.table, s.log[..m])
    && Total(s.table) == Emitted(s.log[..m])
    && (s.open.Some? ==> s.open.value == s.log[m..n])
  }

  lemma FoldExtendsTable(t: Table, log: seq<Event>, m: nat, n: nat, now: int)
    requires m <= n <= |log| && Tabulates(t, log[..m]) && Total(t) == Emitted(log[..m])
    ensures Tabulates(Fold(t, log[m..n], now), log[..n])
    ensures Total(Fold(t, log[m..n], now)) == Emitted(log[..n])
  {
    FoldAddsEmitted(t, log[m..n], now);
    EmittedConcat(log[..m], log[m..n]);
    assert log[..n] == log[..m] + log[m..n];
    FoldAddsHistogram(t, log[m..n], now);
    forall b: Bucket
      ensures Histogram(log[..n], b) == Histogram(log[..m], b) + Histogram(log[m..n], b)
    {
      HistogramConcat(log[..m], log[m..n], b);
    }
  }

  /** Folding the events from m up to n moves the cut to n. */
  lemma FoldMovesCut(log: seq<Event>, last: nat, m: nat, n: nat)
    requires InSequence(log) && m <= n <= |log| && Cut(log, last, m) && last <= LastSequence(0, log)
    ensures var last' := LastSequence(last, log[m..n]);
            Cut(log, last', n) && last <= last' <= LastSequence(0, log)
  {
    if m < n {
      assert LastSequence(last, log[m..n]) == log[n - 1].sequence;
    }
  }

  /** The state after a commit that folded the events from m up to n into `table`. */
  lemma CommittedState(s: State, m: nat, n: nat, table: Table)
    requires Inv(s) && InvAt(s, m, n) && Tabulates(table, s.log[..n]) && Total(table) == Emitted(s.log[..n])
    ensures var s' := s.(table := table, last := LastSequence(s.last, s.log[m..n]), open := None);
            Inv(s') && InvAt(s', n, n) && s.last <= s'.last
  {
    hide Tabulates, Total, Emitted, Cut, LastSequence, InSequence;
    var s' := s.(table := table, last := LastSequence(s.last, s.log[m..n]), open := None);
    FoldMovesCut(s.log, s.last, m, n);
    assert InvAt(s', n, n);
  }

  lemma CommitKeepsInv(s: State, now: int)
    requires Inv(s) && s.open.Some?
    ensures Inv(Next(s, Commit(now))) && s.last <= Next(s, Commit(now)).last
  {
    var m: nat, n: nat :| InvAt(s, m, n);
    FoldExtendsTable(s.table, s.log, m, n, now);
    CommittedState(s, m, n, Fold(s.table, s.log[m..n], now));
  }

  lemma AppendKeepsCut(log: seq<Event>, e: Event, last: nat, m: nat)
    requires Cut(log, last, m) && last <= LastSequence(0, log) < e.sequence
    ensures Cut(log + [e], last, m)
  {
  }

  lemma AppendKeepsInv(s: State, e: Event)
    requires Inv(s) && e.sequence > LastSequence(0, s.log)
    ensures Inv(Next(s, Append(e)))
  {
    hide Cut, Tabulates, Total, Emitted;
    var m: nat, n: nat :| InvAt(s, m, n);
    var s' := Next(s, Append(e));
    AppendKeepsCut(s.log, e, s.last, m);
    assert s'.log[..m] == s.log[..m] && s'.log[m..n] == s.log[m..n];
    assert InvAt(s', m, n);
  }

  lemma BeginKeepsInv(s: State)
    requires Inv(s) && s.open.None?
    ensures Inv(Next(s, Begin))
  {
    var m: nat, n: nat :| InvAt(s, m, n);
    CutSplits(s.log, s.last, m);
    assert s.log[m..|s.log|] == s.log[m..];
    assert InvAt(Next(s, Begin), m, |s.log|);
  }

  lemma AbortKeepsInv(s: State)
    requires Inv(s)
    ensures Inv(Next(s, Abort))
  {
    var m: nat, n: nat :| InvAt(s, m, n);
    assert InvAt(Next(s, Abort), m, n);
  }

  lemma NextKeepsInv(s: State, step: Step)
    requires Inv(s)
    ensures Inv(Next(s, step)) && s.last <= Next(s, step).last && s.log <= Next(s, step).log
  {
    match step
    case Append(e) => if e.sequence > LastSequence(0, s.log) { AppendKeepsInv(s, e); }
    case Begin => if s.open.None? { BeginKeepsInv(s); }
    case Commit(now) => if s.open.Some? { CommitKeepsInv(s, now); }
    case Abort => AbortKeepsInv(s);
  }

  lemma {:induction false} RunKeepsInv(s: State, steps: seq<Step>)
    requires Inv(s)
    ensures Inv(Run(s, steps)) && s.last <= Run(s, steps).last && s.log <= Run(s, steps).log
    decreases |steps|
  {
    if steps != [] {
      NextKeepsInv(s, steps[0]);
      RunKeepsInv(Next(s, steps[0]), steps[1..]);
    }
  }

  lemma InitInv()
    ensures Inv(INIT)
  {
    assert InvAt(INIT, 0, 0);
  }

  /** In every run the table is the batch histogram of the events up to last_sequence,
      with value = count >= 1 in every row and no row for an empty bucket. */
  lemma RollupsAreHistogram(steps: seq<Step>)
    ensures var s := Run(INIT, steps); Tabulates(s.table, UpTo(s.log, s.last))
  {
    InitInv();
    RunKeepsInv(INIT, steps);
    var s := Run(INIT, steps);
    var m: nat, n: nat :| InvAt(s, m, n);
    CutSplits(s.log, s.last, m);
  }

  /** last_sequence never decreases, through commits, aborts and retries. */
  lemma LastSequenceNeverDecreases(before: seq<Step>, after: seq<Step>)
    ensures Run(INIT, before).last <= Run(Run(INIT, before), after).last
  {
    InitInv();
    RunKeepsInv(INIT, before);
    RunKeepsInv(Run(INIT, before), after);
  }

  /** How the log was cut into folds does not show: runs that have folded the same
      events have the same rows, but for the time they were computed. */
  lemma FoldSplitsDoNotMatter(a: seq<Step>, b: seq<Step>)
    requires Run(INIT, a).log == Run(INIT, b).log && Run(INIT, a).last == Run(INIT, b).last
    ensures var t, u := Run(INIT, a).table, Run(INIT, b).table;
            t.Keys == u.Keys && forall k :: k in t ==> t[k].value == u[k].value && t[k].count == u[k].count
  {
    RollupsAreHistogram(a);
    RollupsAreHistogram(b);
    var t, u := Run(INIT, a).table, Run(INIT, b).table;
    forall k: Bucket
      ensures k in t <==> k in u
      ensures k in t ==> t[k].value == u[k].value && t[k].count == u[k].count
    {
      assert CountAt(t, k) == CountAt(u, k);
    }
  }

  lemma RunTwo(s: State, a: Step, b: Step)
    ensures Run(s, [a, b]) == Next(Next(s, a), b)
  {
    assert [a, b][1..] == [b] && [b][1..] == [];
    assert Run(Next(s, a), [b]) == Run(Next(Next(s, a), b), []);
  }

  /** A begun fold that commits does what RollupStore.FoldWorkspace does; one that
      aborts leaves the table and last_sequence alone. */
  lemma QuietFold(s: State, now: int)
    requires s.open.None?
    ensures Run(s, [Begin, Commit(now)]) ==
              s.(table := Fold(s.table, After(s.log, s.last), now), last := LastSequence(s.last, After(s.log, s.last)))
    ensures Run(s, [Begin, Abort]) == s
  {
    RunTwo(s, Begin, Commit(now));
    RunTwo(s, Begin, Abort);
  }

  lemma QuietFoldOfCut(s: State, m: nat, n: nat, now: int)
    requires InvAt(s, m, n) && s.open.None?
    ensures Tabulates(Run(s, [Begin, Commit(now)]).table, s.log)
  {
    hide Fold, Tabulates, Next, Run, Cut, After, LastSequence, Total, Emitted;
    QuietFold(s, now);
    CutSplits(s.log, s.last, m);
    FoldExtendsTable(s.table, s.log, m, |s.log|, now);
    assert s.log[m..|s.log|] == s.log[m..] && s.log[..|s.log|] == s.log;
  }

  /** After a quiet fold the table stands for the whole log. */
  lemma QuietFoldCatchesUp(steps: seq<Step>, now: int)
    requires Run(INIT, steps).open.None?
    ensures var s := Run(INIT, steps);
            Tabulates(Run(s, [Begin, Commit(now)]).table, s.log)
  {
    hide Run, InvAt, Tabulates;
    InitInv();
    RunKeepsInv(INIT, steps);
    var s := Run(INIT, steps);
    var m: nat, n: nat :| InvAt(s, m, n);
    QuietFoldOfCut(s, m, n, now);
  }

  /** The counts of all rows add up to the metrics emitted by the folded events. */
  lemma TotalIsEmitted(steps: seq<Step>)
    ensures var s := Run(INIT, steps); Total(s.table) == Emitted(UpTo(s.log, s.last))
  {
    InitInv();
    RunKeepsInv(INIT, steps);
    var s := Run(INIT, steps);
    var m: nat, n: nat :| InvAt(s, m, n);
    CutSplits(s.log, s.last, m);
  }

  // --------------------------------------------------- laws between the series

  function WidgetStarted(day: int): Bucket {
    Bucket(Plain(SurfaceConversationsStarted("widget")), day)
  }

  function WidgetCreated(day: int): Bucket {
    Bucket(Tally(ConversationsCreated, Channel("widget")), day)
  }

  lemma OccurrencesOfTwo(tallies: seq<Tally>, t: Tally)
    requires |tallies| <= 2
    ensures Occurrences(tallies, t) == (if |tallies| > 0 && tallies[0] == t then 1 else 0) +
                                       (if |tallies| > 1 && tallies[1] == t then 1 else 0)
  {
    if |tallies| > 0 {
      assert Occurrences(tallies[1..], t) == if |tallies| > 1 && tallies[1] == t then 1 else 0;
    }
  }

  lemma {:induction false} WidgetSeriesAgree(log: seq<Event>, day: int)
    ensures Histogram(log, WidgetStarted(day)) == Histogram(log, WidgetCreated(day))
  {
    if log != [] {
      var e := log[|log| - 1];
      WidgetSeriesAgree(log[..|log| - 1], day);
      OccurrencesOfTwo(MetricsForEvent(e), WidgetStarted(day).tally);
      OccurrencesOfTwo(MetricsForEvent(e), WidgetCreated(day).tally);
    }
  }

  lemma {:induction false} NoResultsAreSearches(log: seq<Event>, dimensions: Dimensions, day: int)
    ensures Histogram(log, Bucket(Tally(SearchNoResults, dimensions), day)) <=
            Histogram(log, Bucket(Tally(Searches, dimensions), day))
  {
    if log != [] {
      var e := log[|log| - 1];
      NoResultsAreSearches(log[..|log| - 1], dimensions, day);
      OccurrencesOfTwo(MetricsForEvent(e), Tally(SearchNoResults, dimensions));
      OccurrencesOfTwo(MetricsForEvent(e), Tally(Searches, dimensions));
    }
  }

  /** In every run and on every day, widget conversations started are conversations
      created with channel widget, and no-result searches never exceed searches of
      the same surface. */
  lemma SeriesLaws(steps: seq<Step>, dimensions: Dimensions, day: int)
    ensures var t := Run(INIT, steps).table;
            && CountAt(t, WidgetStarted(day)) == CountAt(t, WidgetCreated(day))
            && CountAt(t, Bucket(Tally(SearchNoResults, dimensions), day)) <=
                 CountAt(t, Bucket(Tally(Searches, dimensions), day))
  {
    var s := Run(INIT, steps);
    RollupsAreHistogram(steps);
    WidgetSeriesAgree(UpTo(s.log, s.last), day);
    NoResultsAreSearches(UpTo(s.log, s.last), dimensions, day);
  }

  function Happened(log: seq<Event>, kind: Kind, day: int): nat {
    if log == [] then 0
    else Happened(log[..|log| - 1], kind, day) +
         if log[|log| - 1].kind == kind && log[|log| - 1].day == day then 1 else 0
  }

  /** Every message counts as received or sent, every article rating as helpful or not. */
  lemma {:induction false} SplitsAreComplete(log: seq<Event>, day: int)
    ensures Histogram(log, Bucket(Plain(MessagesReceived), day)) + Histogram(log, Bucket(Plain(MessagesSent), day)) ==
              Happened(log, MessageCreated, day)
    ensures Histogram(log, Bucket(Plain(ArticleHelpful), day)) + Histogram(log, Bucket(Plain(ArticleUnhelpful), day)) ==
              Happened(log, ArticleFeedbackRecorded, day)
  {
    if log != [] {
      var metrics := MetricsForEvent(log[|log| - 1]);
      SplitsAreComplete(log[..|log| - 1], day);
      OccurrencesOfTwo(metrics, Plain(MessagesReceived));
      OccurrencesOfTwo(metrics, Plain(MessagesSent));
      OccurrencesOfTwo(metrics, Plain(ArticleHelpful));
      OccurrencesOfTwo(metrics, Plain(ArticleUnhelpful));
    }
  }

  /** One ticket's history: each change starts where the one before it ended. */
  ghost predicate TicketHistory(log: seq<Event>) {
    && (forall i :: 0 <= i < |log| ==> log[i].kind == TicketStateSet)
    && (forall i :: 0 < i < |log| ==> log[i].data.from == log[i - 1].data.to)
  }

  function Times(log: seq<Event>, tally: Tally): nat {
    if log == [] then 0 else Times(log[..|log| - 1], tally) + Occurrences(MetricsForEvent(log[|log| - 1]), tally)
  }

  /** Changes from one closed state to another: they count as resolutions. */
  function Restated(log: seq<Event>): nat {
    if log == [] then 0
    else Restated(log[..|log| - 1]) +
         if ClosedState(log[|log| - 1].data.from) && ClosedState(log[|log| - 1].data.to) then 1 else 0
  }

  function Closed(state: string): nat {
    if ClosedState(state) then 1 else 0
  }

  /** Over a ticket's history reopenings and resolutions balance: what was closed at
      the start or resolved since has been reopened, restated, or is closed now. */
  lemma {:induction false} ReopeningsBalanceResolutions(log: seq<Event>)
    requires TicketHistory(log) && log != []
    ensures Closed(log[0].data.from) + Times(log, Plain(TicketsResolved)) ==
            Closed(log[|log| - 1].data.to) + Times(log, Plain(TicketsReopened)) + Restated(log)
  {
    var n := |log| - 1;
    OccurrencesOfTwo(MetricsForEvent(log[n]), Plain(TicketsResolved));
    OccurrencesOfTwo(MetricsForEvent(log[n]), Plain(TicketsReopened));
    if n > 0 {
      ReopeningsBalanceResolutions(log[..n]);
    }
  }
}
