/** RunScheduledReports: claim due schedules one at a time, mail each, and move its
    next run past the claim. */
module ScheduleClaims {
  import opened Schedules
  import opened Text
  import opened Wrappers

  /** `exportable` says whether the report's definition renders to CSV. */
  datatype Report = Report(zone: string, exportable: bool)

  /** `report` is the row the JOIN finds in saved_reports, if any. */
  datatype Schedule = Schedule(report: Option<Report>, cadence: string, options: Options, recipients: seq<string>,
                               enabled: bool, lastSent: Option<int>, nextRun: Option<int>)

  /** Ids are numbered in their collation order. */
  type Table = map<nat, Schedule>

  /** The dedupe key names the schedule, the claim time in whole seconds, and the recipient. */
  datatype JobKey = JobKey(id: nat, second: int, recipient: string)

  predicate Due(s: Schedule, now: int) {
    s.enabled && s.nextRun.Some? && s.nextRun.value <= now && s.report.Some?
  }

  /** Enabled, with a saved report, and its next run no later than now. */
  predicate Overdue(s: Schedule, now: int) {
    match s.nextRun
    case None => false
    case Some(at) => s.enabled && s.report != None && at <= now
  }

  function DueSet(t: Table, now: int): set<nat> {
    set id | id in t && Due(t[id], now)
  }

  /** ORDER BY next_run_at, id. */
  predicate Before(t: Table, a: nat, b: nat)
    requires a in t && t[a].nextRun.Some? && b in t && t[b].nextRun.Some?
  {
    t[a].nextRun.value < t[b].nextRun.value || (t[a].nextRun.value == t[b].nextRun.value && a < b)
  }

  predicate First(t: Table, now: int, among: set<nat>, id: nat)
    requires among <= DueSet(t, now)
  {
    id in among && forall other :: other in among && other != id ==> Before(t, id, other)
  }

  lemma {:induction false} FirstExists(t: Table, now: int, among: set<nat>)
    requires among <= DueSet(t, now) && among != {}
    ensures exists id :: First(t, now, among, id)
    decreases |among|
  {
    var x :| x in among;
    if among - {x} == {} {
      assert among == {x};
      assert First(t, now, among, x);
    } else {
      FirstExists(t, now, among - {x});
      var y :| First(t, now, among - {x}, y);
      var least := if Before(t, x, y) then x else y;
      forall other | other in among && other != least
        ensures Before(t, least, other)
      {
        assert other == x || other == y || Before(t, y, other);
      }
      assert First(t, now, among, least);
    }
  }

  function ClaimRow(s: Schedule, now: int, next: int): Schedule {
    s.(lastSent := Some(now), nextRun := Some(next))
  }

  function DeliveryZone(s: Schedule): string
    requires s.report.Some?
  {
    if "timezone" in s.options && s.options["timezone"].Words? && !Blank(s.options["timezone"].text)
    then Trim(s.options["timezone"].text) else s.report.value.zone
  }

  /** After the claim: the report window needs a known zone and the CSV must render. */
  predicate Mailable(s: Schedule, zones: Zones)
    requires s.report.Some?
  {
    (Blank(DeliveryZone(s)) || Trim(DeliveryZone(s)) in zones) && s.report.value.exportable
  }

  /** A claimed schedule is mailed exactly if its report renders and the zone the report
      is for, the options' own or else the report's, is known or not given. */
  lemma MailedExactly(s: Schedule, zones: Zones, zone: string)
    requires s.report.Some?
    requires if "timezone" in s.options && s.options["timezone"].Words? && !Blank(s.options["timezone"].text)
             then zone == s.options["timezone"].text else zone == s.report.value.zone
    ensures Mailable(s, zones) <==> s.report.value.exportable && (Blank(zone) || Trim(zone) in zones)
  {
    TrimTrims(zone);
    BlankTrimsAway(zone);
    BlankTrimsAway(Trim(zone));
    hide Trim, Blank;
  }

  predicate Computable(s: Schedule, now: int, zones: Zones) {
    NextRun(now, s.cadence, s.options, zones).Ok?
  }

  // --------------------------------------------------------------- mail jobs

  function Second(t: int): int {
    t / 1_000_000_000
  }

  function JobKeys(id: nat, now: int, recipients: seq<string>): seq<JobKey> {
    seq(|recipients|, i requires 0 <= i < |recipients| => JobKey(id, Second(now), recipients[i]))
  }

  /** The keys asked for by the claims, in order. */
  function Wanted(t: Table, claims: seq<nat>, now: int): seq<JobKey> {
    if claims == [] then []
    else
      var id := claims[|claims| - 1];
      Wanted(t, claims[..|claims| - 1], now) + if id in t then JobKeys(id, now, t[id].recipients) else []
  }

  /** The keys the queue takes: those not already live. */
  function Fresh(keys: seq<JobKey>, live: set<JobKey>): seq<JobKey> {
    if keys == [] then []
    else
      var rest, key := Fresh(keys[..|keys| - 1], live), keys[|keys| - 1];
      if key in live || key in rest then rest else rest + [key]
  }

  function Taken(keys: seq<JobKey>, live: set<JobKey>): set<JobKey> {
    live + set key | key in Fresh(keys, live)
  }

  lemma {:induction false} FreshConcat(a: seq<JobKey>, b: seq<JobKey>, live: set<JobKey>)
    ensures Fresh(a + b, live) == Fresh(a, live) + Fresh(b, Taken(a, live))
    ensures Taken(a + b, live) == Taken(b, Taken(a, live))
  {
    if b == [] {
      assert a + b == a;
    } else {
      assert (a + b)[..|a + b| - 1] == a + b[..|b| - 1];
      FreshConcat(a, b[..|b| - 1], live);
    }
  }

  /** Each key is enqueued at most once, and exactly those asked for and not yet live. */
  lemma {:induction false} FreshIsOnce(keys: seq<JobKey>, live: set<JobKey>)
    ensures forall i, j :: 0 <= i < j < |Fresh(keys, live)| ==> Fresh(keys, live)[i] != Fresh(keys, live)[j]
    ensures forall key :: key in Fresh(keys, live) <==> key in keys && key !in live
  {
    if keys != [] {
      FreshIsOnce(keys[..|keys| - 1], live);
      assert keys == keys[..|keys| - 1] + [keys[|keys| - 1]];
    }
  }

  // ------------------------------------------------------------- the claim loop

  /** What the loop has done to the table after claiming `claims`. */
  ghost predicate ClaimedRows(before: Table, after: Table, claims: seq<nat>, now: int, zones: Zones) {
    && after.Keys == before.Keys
    && (forall id :: id in claims ==>
          id in before && Due(before[id], now) && Computable(before[id], now, zones) &&
          (var next := NextRun(now, before[id].cadence, before[id].options, zones).value;
           after[id] == before[id].(lastSent := Some(now), nextRun := Some(next))) &&
          after[id].nextRun.value > now)
    && (forall id :: id in before && id !in claims ==> after[id] == before[id])
  }

  function Ids(claims: seq<nat>): set<nat> {
    set id | id in claims
  }

  ghost predicate Once(claims: seq<nat>) {
    forall i, j :: 0 <= i < j < |claims| ==> claims[i] != claims[j]
  }

  /** The claims are the due schedules that come first. */
  ghost predicate InOrder(t: Table, claims: seq<nat>, now: int) {
    && (forall id :: id in claims ==> id in DueSet(t, now))
    && (forall a, b :: a in claims && b in DueSet(t, now) && b !in claims ==> Before(t, a, b))
  }

  ghost predicate Healthy(t: Table, id: nat, now: int, zones: Zones)
    requires id in DueSet(t, now)
  {
    Computable(t[id], now, zones) && Mailable(t[id], zones)
  }

  lemma DueAfterClaims(before: Table, after: Table, claims: seq<nat>, now: int, zones: Zones)
    requires ClaimedRows(before, after, claims, now, zones)
    ensures DueSet(after, now) == DueSet(before, now) - Ids(claims)
  {
  }

  lemma ClaimExtends(before: Table, after: Table, claims: seq<nat>, now: int, zones: Zones, id: nat)
    requires ClaimedRows(before, after, claims, now, zones) && Once(claims) && InOrder(before, claims, now)
    requires id in DueSet(after, now) && First(after, now, DueSet(after, now), id)
    requires Computable(after[id], now, zones)
    ensures var next := NextRun(now, after[id].cadence, after[id].options, zones).value;
            var after' := after[id := ClaimRow(after[id], now, next)];
            ClaimedRows(before, after', claims + [id], now, zones)
    ensures Once(claims + [id]) && InOrder(before, claims + [id], now)
    ensures after[id] == before[id]
  {
    hide NextRun;
    DueAfterClaims(before, after, claims, now, zones);
    NextRunIsEarliest(now, after[id].cadence, after[id].options, zones);
    forall b | b in DueSet(before, now) && b !in claims + [id]
      ensures Before(before, id, b)
    {
      assert b in DueSet(after, now) && Before(after, id, b);
    }
  }

  class Scheduler {
    var table: Table
    var live: set<JobKey>   // queued or running mail jobs
    var sent: seq<JobKey>

    /** A duplicate is passed over; any other error of the queue ends the loop with
        `done` recipients dealt with. */
    method EnqueueAll(id: nat, now: int, recipients: seq<string>) returns (ok: bool, done: nat)
      modifies this`live, this`sent
      ensures done <= |recipients| && (ok ==> done == |recipients|)
      ensures sent == old(sent) + Fresh(JobKeys(id, now, recipients)[..done], old(live))
      ensures live == Taken(JobKeys(id, now, recipients)[..done], old(live))
    {
      ghost var keys := JobKeys(id, now, recipients);
      ok, done := true, 0;
      while done < |recipients|
        invariant ok && done <= |recipients|
        invariant sent == old(sent) + Fresh(keys[..done], old(live))
        invariant live == Taken(keys[..done], old(live))
      {
        if * {
          return false, done;
        }
        assert keys[..done + 1][..done] == keys[..done];
        var key := JobKey(id, Second(now), recipients[done]);
        if key !in live {
          live := live + {key};
          sent := sent + [key];
        }
        done := done + 1;
      }
    }

    /** SELECT ... ORDER BY next_run_at, id LIMIT 1 SKIP LOCKED: `locked` are the rows
        other claims hold. */
    method SelectDue(now: int, locked: set<nat>) returns (id: Option<nat>)
      ensures id.None? <==> DueSet(table, now) <= locked
      ensures id.None? <==> forall other :: other in table && Overdue(table[other], now) ==> other in locked
      ensures id.Some? ==> id.value in table && Due(table[id.value], now)
      ensures id.Some? ==> id.value in table && Overdue(table[id.value], now) && id.value !in locked
      ensures id.Some? ==>
                forall other :: other in table && Overdue(table[other], now) && other !in locked ==>
                  table[id.value].nextRun.value < table[other].nextRun.value ||
                  (table[id.value].nextRun.value == table[other].nextRun.value && id.value <= other)
      ensures id.Some? ==> id.value in DueSet(table, now) && First(table, now, DueSet(table, now) - locked, id.value)
    {
      var among := DueSet(table, now) - locked;
      assert forall id :: id in DueSet(table, now) ==> id in among || id in locked;
      if among == {} {
        return None;
      }
      FirstExists(table, now, among);
      var first :| first in among && First(table, now, among, first);
      id := Some(first);
    }

    /** `claims` lists the schedules whose claim was committed, in order; the first
        `processed` of them were mailed, and `mailed` recipients of the one after. Any
        statement, commit or enqueue may fail and end the call with Outage. */
    method RunScheduledReports(now: int, zones: Zones)
      returns (processed: nat, error: Option<Error>, ghost claims: seq<nat>, ghost mailed: nat)
      modifies this
      ensures ClaimedRows(old(table), table, claims, now, zones)
      ensures Once(claims) && InOrder(old(table), claims, now)
      ensures processed <= |claims| <= processed + 1
      ensures sent == old(sent) + Fresh(WantedBy(old(table), claims, processed, mailed, now), old(live))
      ensures error.None? ==> processed == |claims| == |DueSet(old(table), now)|
      ensures error.None? ==> Ids(claims) == DueSet(old(table), now) && DueSet(table, now) == {}
      ensures error.None? ==> AllHealthy(old(table), now, zones)
      ensures AllHealthy(old(table), now, zones) ==> error.None? || error == Some(Outage)
    {
      hide *;
      processed, error, claims, mailed := 0, None, [], 0;
      NothingClaimed(table, now, zones, live);
      assert sent == sent + [];
      while true
        invariant Claiming(old(table), table, claims, now, zones)
        invariant processed == |claims| && mailed == 0
        invariant sent == old(sent) + Fresh(Wanted(old(table), claims, now), old(live))
        invariant live == Taken(Wanted(old(table), claims, now), old(live))
        decreases |DueSet(table, now)|
      {
        ClaimingIsClaimed(old(table), table, claims, now, zones);
        WantedByNone(old(table), claims, now);
        if * { return processed, Some(Outage), claims, 0; }
        var selected := SelectDue(now, {});
        NoneLocked(table, now);
        if selected.None? {
          break;
        }
        var id := selected.value;
        var item := table[id];
        var next := NextRun(now, item.cadence, item.options, zones);
        Selected(old(table), table, claims, now, zones, id);
        if next.Err? {
          return processed, Some(next.error), claims, 0;
        }
        if * { return processed, Some(Outage), claims, 0; }
        ghost var claimed := claims;
        table := table[id := ClaimRow(item, now, next.value)];
        claims := claims + [id];
        WantedByPart(old(table), claimed, id, now, old(live), 0);
        if * { return processed, Some(Outage), claims, 0; }
        if !Mailable(item, zones) {
          return processed, Some(Undeliverable), claims, 0;
        }
        var ok, done := EnqueueAll(id, now, item.recipients);
        WantedByPart(old(table), claimed, id, now, old(live), done);
        if !ok {
          return processed, Some(Outage), claims, done;
        }
        WantedSnoc(old(table), claimed, id, now, old(live));
        processed := processed + 1;
      }
      AllClaimed(old(table), table, claims, now, zones);
    }
  }

  /** The keys asked for: all of the first `processed` claims, `mailed` of the next. */
  function WantedBy(t: Table, claims: seq<nat>, processed: nat, mailed: nat, now: int): seq<JobKey>
    requires processed <= |claims|
  {
    Wanted(t, claims[..processed], now) +
    if processed < |claims| && claims[processed] in t && mailed <= |t[claims[processed]].recipients|
    then JobKeys(claims[processed], now, t[claims[processed]].recipients)[..mailed] else []
  }

  lemma WantedByNone(t: Table, claims: seq<nat>, now: int)
    ensures WantedBy(t, claims, |claims|, 0, now) == Wanted(t, claims, now)
  {
    assert claims[..|claims|] == claims;
  }

  lemma WantedByPart(t: Table, claims: seq<nat>, id: nat, now: int, live: set<JobKey>, mailed: nat)
    requires id in t && mailed <= |t[id].recipients|
    ensures var wanted, keys := Wanted(t, claims, now), JobKeys(id, now, t[id].recipients);
            && |keys| == |t[id].recipients|
            && Fresh(WantedBy(t, claims + [id], |claims|, mailed, now), live) ==
                 Fresh(wanted, live) + Fresh(keys[..mailed], Taken(wanted, live))
            && (mailed == 0 ==> Fresh(WantedBy(t, claims + [id], |claims|, mailed, now), live) == Fresh(wanted, live))
            && (mailed == |keys| ==> keys[..mailed] == keys)
  {
    assert (claims + [id])[..|claims|] == claims;
    FreshConcat(Wanted(t, claims, now), JobKeys(id, now, t[id].recipients)[..mailed], live);
  }

  lemma NoneLocked(t: Table, now: int)
    ensures DueSet(t, now) - {} == DueSet(t, now)
  {
  }

  lemma ClaimingIsClaimed(before: Table, after: Table, claims: seq<nat>, now: int, zones: Zones)
    requires Claiming(before, after, claims, now, zones)
    ensures ClaimedRows(before, after, claims, now, zones) && Once(claims) && InOrder(before, claims, now)
  {
  }

  ghost predicate AllHealthy(t: Table, now: int, zones: Zones) {
    forall id :: id in DueSet(t, now) ==> Healthy(t, id, now, zones)
  }

  /** The loop's invariant: the claims made so far were first in order and mailable. */
  ghost predicate Claiming(before: Table, after: Table, claims: seq<nat>, now: int, zones: Zones) {
    && ClaimedRows(before, after, claims, now, zones)
    && Once(claims) && InOrder(before, claims, now)
    && (forall id :: id in claims ==> Mailable(before[id], zones))
  }

  lemma NothingClaimed(t: Table, now: int, zones: Zones, live: set<JobKey>)
    ensures Claiming(t, t, [], now, zones)
    ensures Wanted(t, [], now) == [] && Fresh([], live) == [] && Taken([], live) == live
  {
  }

  lemma ClaimShrinksDue(t: Table, id: nat, now: int, next: int)
    requires id in DueSet(t, now) && next > now
    ensures DueSet(t[id := ClaimRow(t[id], now, next)], now) == DueSet(t, now) - {id}
    ensures |DueSet(t[id := ClaimRow(t[id], now, next)], now)| < |DueSet(t, now)|
  {
    assert DueSet(t[id := ClaimRow(t[id], now, next)], now) == DueSet(t, now) - {id};
  }

  lemma Selected(before: Table, after: Table, claims: seq<nat>, now: int, zones: Zones, id: nat)
    requires Claiming(before, after, claims, now, zones)
    requires id in DueSet(after, now) && First(after, now, DueSet(after, now), id)
    ensures id in before && after[id] == before[id] && Due(before[id], now) && before[id].report.Some?
    ensures ClaimedRows(before, after, claims, now, zones) && Once(claims) && InOrder(before, claims, now)
    ensures !(Computable(before[id], now, zones) && Mailable(before[id], zones)) ==> !AllHealthy(before, now, zones)
    ensures Computable(before[id], now, zones) <==> NextRun(now, before[id].cadence, before[id].options, zones).Ok?
    ensures Computable(before[id], now, zones) ==>
              var next := NextRun(now, after[id].cadence, after[id].options, zones).value;
              var after' := after[id := ClaimRow(after[id], now, next)];
              && ClaimedRows(before, after', claims + [id], now, zones)
              && Once(claims + [id]) && InOrder(before, claims + [id], now)
              && (Mailable(before[id], zones) ==> Claiming(before, after', claims + [id], now, zones))
              && |DueSet(after', now)| < |DueSet(after, now)|
  {
    hide NextRun, Mailable, InOrder, Once;
    DueAfterClaims(before, after, claims, now, zones);
    assert id in DueSet(before, now);
    if Computable(before[id], now, zones) {
      var next := NextRun(now, after[id].cadence, after[id].options, zones).value;
      var after' := after[id := ClaimRow(after[id], now, next)];
      ClaimExtends(before, after, claims, now, zones, id);
      assert id in claims + [id];
      ClaimShrinksDue(after, id, now, next);
    } else {
      assert !Healthy(before, id, now, zones);
    }
  }

  lemma AllClaimed(before: Table, after: Table, claims: seq<nat>, now: int, zones: Zones)
    requires Claiming(before, after, claims, now, zones) && DueSet(after, now) == {}
    ensures Ids(claims) == DueSet(before, now) && |claims| == |DueSet(before, now)|
    ensures AllHealthy(before, now, zones)
    ensures ClaimedRows(before, after, claims, now, zones) && Once(claims) && InOrder(before, claims, now)
  {
    hide NextRun, Mailable;
    DueAfterClaims(before, after, claims, now, zones);
    OnceCounts(claims);
    var claimed := Ids(claims);
    assert DueSet(before, now) - claimed == {};
    assert claimed - DueSet(before, now) == {};
  }

  lemma WantedSnoc(t: Table, claims: seq<nat>, id: nat, now: int, live: set<JobKey>)
    requires id in t
    ensures var keys, wanted := JobKeys(id, now, t[id].recipients), Wanted(t, claims, now);
            && Fresh(Wanted(t, claims + [id], now), live) == Fresh(wanted, live) + Fresh(keys, Taken(wanted, live))
            && Taken(Wanted(t, claims + [id], now), live) == Taken(keys, Taken(wanted, live))
  {
    assert (claims + [id])[..|claims|] == claims;
    FreshConcat(Wanted(t, claims, now), JobKeys(id, now, t[id].recipients), live);
  }

  lemma {:induction false} OnceCounts(claims: seq<nat>)
    requires Once(claims)
    ensures |Ids(claims)| == |claims|
  {
    if claims != [] {
      var n := |claims| - 1;
      OnceCounts(claims[..n]);
      var rest := Ids(claims[..n]);
      assert claims == claims[..n] + [claims[n]];
      forall i | 0 <= i < n
        ensures claims[..n][i] != claims[n]
      {
      }
      assert Ids(claims) == rest + {claims[n]} && claims[n] !in rest;
    }
  }
}
