/** Any number of schedulers claiming, and users creating, editing and removing, the
    same schedules. */
module ScheduleRuns {
  import opened Calendar
  import opened Schedules
  import opened ScheduleClaims
  import opened Wrappers

  datatype Claim = Claim(id: nat, at: int)

  /** `issued` are the ids ever given to a schedule: ids are drawn fresh. */
  datatype State = State(table: Table, claims: seq<Claim>, issued: set<nat>)

  /** Each step commits on its own; `now` is when the caller read its clock, however
      long before that was. */
  datatype Step =
    | Create(id: nat, now: int, schedule: Schedule)
    | Take(id: nat, now: int)
    | Edit(id: nat, now: int, schedule: Schedule)
    | Remove(id: nat)
    | Rewrite(id: nat, report: Report)   // the saved report behind the schedule

  const INIT := State(map[], [], {})

  function NextOf(schedule: Schedule, now: int, zones: Zones): int
    requires Computable(schedule, now, zones)
  {
    NextRun(now, schedule.cadence, schedule.options, zones).value
  }

  /** The row an INSERT or UPDATE leaves; neither writes last_sent_at. */
  function Stored(schedule: Schedule, lastSent: Option<int>, now: int, zones: Zones): Schedule
    requires Computable(schedule, now, zones)
  {
    schedule.(lastSent := lastSent, nextRun := if schedule.enabled then Some(NextOf(schedule, now, zones)) else None)
  }

  predicate Takes(s: State, id: nat, now: int, zones: Zones) {
    id in s.table && Due(s.table[id], now) && Computable(s.table[id], now, zones)
  }

  predicate Edits(s: State, id: nat, now: int, schedule: Schedule, zones: Zones) {
    id in s.table && Computable(schedule, now, zones)
  }

  function Next(s: State, step: Step, zones: Zones): State {
    match step
    case Create(id, now, schedule) =>
      if id !in s.issued && Computable(schedule, now, zones)
      then s.(table := s.table[id := Stored(schedule, None, now, zones)], issued := s.issued + {id}) else s
    case Take(id, now) =>
      if Takes(s, id, now, zones)
      then s.(table := s.table[id := ClaimRow(s.table[id], now, NextOf(s.table[id], now, zones))],
              claims := s.claims + [Claim(id, now)]) else s
    case Edit(id, now, schedule) =>
      if Edits(s, id, now, schedule, zones)
      then s.(table := s.table[id := Stored(schedule, s.table[id].lastSent, now, zones)]) else s
    case Remove(id) => s.(table := s.table - {id})
    case Rewrite(id, report) =>
      if id in s.table then s.(table := s.table[id := s.table[id].(report := Some(report))]) else s
  }

  function Run(s: State, steps: seq<Step>, zones: Zones): State
    decreases |steps|
  {
    if steps == [] then s else Run(Next(s, steps[0], zones), steps[1..], zones)
  }

  // ------------------------------------------------------------- one schedule

  /** Rewriting the saved report claims nothing and leaves a schedule due exactly as it was. */
  lemma RewriteKeepsDue(s: State, id: nat, report: Report, now: int, zones: Zones)
    requires id in s.table && s.table[id].report.Some?
    ensures var s' := Next(s, Rewrite(id, report), zones);
            && s'.claims == s.claims && s'.table[id].report == Some(report)
            && (Due(s'.table[id], now) <==> Due(s.table[id], now))
            && (Computable(s'.table[id], now, zones) <==> Computable(s.table[id], now, zones))
  {
  }

  function LastClaim(claims: seq<Claim>, id: nat): Option<int> {
    if claims == [] then None
    else if claims[|claims| - 1].id == id then Some(claims[|claims| - 1].at)
    else LastClaim(claims[..|claims| - 1], id)
  }

  ghost predicate Advances(claims: seq<Claim>, id: nat) {
    forall i, j :: 0 <= i < j < |claims| && claims[i].id == id == claims[j].id ==>
      claims[i].at < claims[j].at && Second(claims[i].at) < Second(claims[j].at)
  }

  predicate LiesAhead(lastSent: Option<int>, next: Option<int>) {
    lastSent.Some? && next.Some? ==> Second(lastSent.value) < Second(next.value)
  }

  /** The schedule's claims advance, last_sent_at is the latest, and the next run lies
      in a later second. */
  ghost predicate Orderly(s: State, id: nat) {
    && Advances(s.claims, id)
    && (id in s.table ==>
          id in s.issued && s.table[id].lastSent == LastClaim(s.claims, id) &&
          LiesAhead(s.table[id].lastSent, s.table[id].nextRun))
    && (id !in s.issued ==> LastClaim(s.claims, id) == None)
  }

  /** The next run an edit is about to store lies in a later second than last_sent_at. */
  predicate Safe(s: State, step: Step, zones: Zones) {
    step.Edit? && Edits(s, step.id, step.now, step.schedule, zones) && step.schedule.enabled ==>
      LiesAhead(s.table[step.id].lastSent, Some(NextOf(step.schedule, step.now, zones)))
  }

  /** Every edit of the schedule is safe when it commits. */
  ghost predicate EditsAreSafe(s: State, steps: seq<Step>, id: nat, zones: Zones)
    decreases |steps|
  {
    steps == [] ||
    ((steps[0].id == id ==> Safe(s, steps[0], zones)) && EditsAreSafe(Next(s, steps[0], zones), steps[1..], id, zones))
  }

  lemma {:induction false} LastClaimIsLatest(claims: seq<Claim>, id: nat)
    requires Advances(claims, id)
    ensures forall i :: 0 <= i < |claims| && claims[i].id == id ==>
              var last := LastClaim(claims, id);
              last.Some? && claims[i].at <= last.value && Second(claims[i].at) <= Second(last.value)
    ensures LastClaim(claims, id).Some? ==> Claim(id, LastClaim(claims, id).value) in claims
  {
    hide Second;
    if claims != [] {
      var n := |claims| - 1;
      LastClaimIsLatest(claims[..n], id);
      assert forall i :: 0 <= i < n ==> claims[..n][i] == claims[i];
    }
  }

  lemma WholeSecondAhead(now: int, next: int)
    requires now < next && next % 1_000_000_000 == 0
    ensures Second(now) < Second(next)
  {
  }

  lemma SecondsFollow(a: int, b: int)
    ensures a <= b ==> Second(a) <= Second(b)
    ensures Second(a) < Second(b) ==> a < b
  {
  }

  lemma NextRunAhead(schedule: Schedule, now: int, zones: Zones)
    requires Computable(schedule, now, zones)
    ensures Second(now) < Second(NextOf(schedule, now, zones))
  {
    hide NextRun;
    NextRunIsEarliest(now, schedule.cadence, schedule.options, zones);
    NextRunIsWholeSecond(now, schedule.cadence, schedule.options, zones);
    WholeSecondAhead(now, NextOf(schedule, now, zones));
  }

  lemma TakeKeepsOrder(s: State, id: nat, at: int, zones: Zones)
    requires Orderly(s, id) && Takes(s, id, at, zones)
    ensures Orderly(Next(s, Take(id, at), zones), id)
  {
    hide NextRun, Second;
    var claims := s.claims + [Claim(id, at)];
    assert claims[..|claims| - 1] == s.claims;
    LastClaimIsLatest(s.claims, id);
    NextRunAhead(s.table[id], at, zones);
    SecondsFollow(s.table[id].nextRun.value, at);
    if s.table[id].lastSent.Some? {
      SecondsFollow(s.table[id].lastSent.value, at);
    }
    forall i | 0 <= i < |s.claims| && claims[i].id == id
      ensures claims[i].at < at && Second(claims[i].at) < Second(at)
    {
    }
  }

  lemma NextKeepsOrder(s: State, step: Step, id: nat, zones: Zones)
    requires Orderly(s, id) && (step.id == id ==> Safe(s, step, zones))
    ensures Orderly(Next(s, step, zones), id)
  {
    hide NextRun, Second;
    if step.Take? && Takes(s, step.id, step.now, zones) {
      if step.id == id {
        TakeKeepsOrder(s, id, step.now, zones);
      } else {
        var claims := s.claims + [Claim(step.id, step.now)];
        assert claims[..|claims| - 1] == s.claims;
        assert forall i :: 0 <= i < |claims| && claims[i].id == id ==> i < |s.claims|;
      }
    }
  }

  lemma {:induction false} RunKeepsOrder(s: State, steps: seq<Step>, id: nat, zones: Zones)
    requires Orderly(s, id) && EditsAreSafe(s, steps, id, zones)
    ensures Orderly(Run(s, steps, zones), id)
    decreases |steps|
  {
    hide Next, Safe;
    if steps != [] {
      NextKeepsOrder(s, steps[0], id, zones);
      RunKeepsOrder(Next(s, steps[0], zones), steps[1..], id, zones);
    }
  }

  /** As long as every edit of a schedule stores a next run in a later second than its
      last_sent_at, its claims are made at strictly increasing times and in different
      seconds, so no two of them, by any schedulers, ask for the same job key. */
  lemma ClaimsNeverCollide(steps: seq<Step>, zones: Zones, i: nat, j: nat, a: seq<string>, b: seq<string>)
    requires i < j < |Run(INIT, steps, zones).claims|
    requires EditsAreSafe(INIT, steps, Run(INIT, steps, zones).claims[i].id, zones)
    ensures var claims := Run(INIT, steps, zones).claims;
            && (claims[i].id == claims[j].id ==> claims[i].at < claims[j].at)
            && (forall key :: key in JobKeys(claims[i].id, claims[i].at, a) ==>
                  key !in JobKeys(claims[j].id, claims[j].at, b))
  {
    hide Run, Second;
    RunKeepsOrder(INIT, steps, Run(INIT, steps, zones).claims[i].id, zones);
  }

  lemma {:induction false} NoEditsAreSafe(s: State, steps: seq<Step>, id: nat, zones: Zones)
    requires forall step :: step in steps ==> !(step.Edit? && step.id == id)
    ensures EditsAreSafe(s, steps, id, zones)
    decreases |steps|
  {
    hide Next;
    if steps != [] {
      assert steps[0] in steps;
      NoEditsAreSafe(Next(s, steps[0], zones), steps[1..], id, zones);
    }
  }

  /** Without edits of the schedule nothing more is asked: any schedulers with any
      clocks, creations, removals, and edits of other schedules. */
  lemma ClaimsAloneNeverCollide(steps: seq<Step>, zones: Zones, i: nat, j: nat, a: seq<string>, b: seq<string>)
    requires i < j < |Run(INIT, steps, zones).claims|
    requires forall step :: step in steps ==> !(step.Edit? && step.id == Run(INIT, steps, zones).claims[i].id)
    ensures var claims := Run(INIT, steps, zones).claims;
            && (claims[i].id == claims[j].id ==> claims[i].at < claims[j].at)
            && (forall key :: key in JobKeys(claims[i].id, claims[i].at, a) ==>
                  key !in JobKeys(claims[j].id, claims[j].at, b))
  {
    hide Run;
    NoEditsAreSafe(INIT, steps, Run(INIT, steps, zones).claims[i].id, zones);
    ClaimsNeverCollide(steps, zones, i, j, a, b);
  }

  /** An edit that read its clock no earlier than the schedule's last claim is safe. */
  lemma CurrentEditsAreSafe(s: State, step: Step, zones: Zones)
    requires step.Edit?
    requires step.id in s.table && s.table[step.id].lastSent.Some? ==> s.table[step.id].lastSent.value <= step.now
    ensures Safe(s, step, zones)
  {
    hide NextRun, Second;
    if Edits(s, step.id, step.now, step.schedule, zones) && s.table[step.id].lastSent.Some? {
      NextRunAhead(step.schedule, step.now, zones);
      SecondsFollow(s.table[step.id].lastSent.value, step.now);
    }
  }

  // ------------------------------------------------- one claim per occurrence

  /** The next run computed at `from` has come round by `to`. */
  predicate Passed(plan: Schedule, from: int, to: int, zones: Zones) {
    Computable(plan, from, zones) && from < NextOf(plan, from, zones) <= to
  }

  /** Claims of the schedule from number n on lie a next run apart. */
  ghost predicate Apart(claims: seq<Claim>, n: nat, id: nat, plan: Schedule, zones: Zones) {
    forall i, j :: n <= i < j < |claims| && claims[i].id == id == claims[j].id ==>
      Passed(plan, claims[i].at, claims[j].at, zones)
  }

  /** And all of them before `at`. */
  ghost predicate AllPassed(claims: seq<Claim>, n: nat, id: nat, plan: Schedule, at: int, zones: Zones) {
    forall i :: n <= i < |claims| && claims[i].id == id ==> Passed(plan, claims[i].at, at, zones)
  }

  /** Claims of a schedule with this cadence and these options lie a next run apart, and
      its row waits for the one after the latest. */
  ghost predicate Spaced(s: State, n: nat, id: nat, plan: Schedule, zones: Zones) {
    && id in s.issued
    && Apart(s.claims, n, id, plan, zones)
    && (id in s.table ==>
          && s.table[id].cadence == plan.cadence && s.table[id].options == plan.options
          && (s.table[id].nextRun.Some? ==> AllPassed(s.claims, n, id, plan, s.table[id].nextRun.value, zones)))
  }

  lemma PassedOn(plan: Schedule, from: int, at: int, to: int, zones: Zones)
    requires Passed(plan, from, at, zones) && at <= to
    ensures Passed(plan, from, to, zones)
  {
    hide NextRun;
  }

  lemma NextRunPasses(plan: Schedule, now: int, zones: Zones)
    requires Computable(plan, now, zones)
    ensures Passed(plan, now, NextOf(plan, now, zones), zones)
  {
    hide NextRun;
    NextRunIsEarliest(now, plan.cadence, plan.options, zones);
  }

  lemma ApartSnoc(claims: seq<Claim>, n: nat, id: nat, plan: Schedule, claim: Claim, zones: Zones)
    requires Apart(claims, n, id, plan, zones)
    requires claim.id == id ==> AllPassed(claims, n, id, plan, claim.at, zones)
    ensures Apart(claims + [claim], n, id, plan, zones)
  {
    hide Passed;
  }

  lemma AllPassedSnoc(claims: seq<Claim>, n: nat, id: nat, plan: Schedule, claim: Claim, at: int, to: int, zones: Zones)
    requires AllPassed(claims, n, id, plan, at, zones) && at <= to
    requires claim.id == id ==> Passed(plan, claim.at, to, zones)
    ensures AllPassed(claims + [claim], n, id, plan, to, zones)
  {
    hide Passed;
    forall i | n <= i < |claims + [claim]| && (claims + [claim])[i].id == id
      ensures Passed(plan, (claims + [claim])[i].at, to, zones)
    {
      if i < |claims| {
        PassedOn(plan, claims[i].at, at, to, zones);
      }
    }
  }

  lemma AllPassedOn(claims: seq<Claim>, n: nat, id: nat, plan: Schedule, at: int, to: int, zones: Zones)
    requires AllPassed(claims, n, id, plan, at, zones) && at <= to
    ensures AllPassed(claims, n, id, plan, to, zones)
  {
    hide Passed;
    forall i | n <= i < |claims| && claims[i].id == id
      ensures Passed(plan, claims[i].at, to, zones)
    {
      PassedOn(plan, claims[i].at, at, to, zones);
    }
  }

  lemma TakeKeepsSpacing(s: State, n: nat, id: nat, at: int, plan: Schedule, zones: Zones)
    requires n <= |s.claims| && Spaced(s, n, id, plan, zones) && Takes(s, id, at, zones)
    ensures Spaced(Next(s, Take(id, at), zones), n, id, plan, zones)
  {
    hide NextRun, Apart, AllPassed, Passed;
    var row, next := s.table[id], NextOf(s.table[id], at, zones);
    assert Computable(plan, at, zones) && NextOf(plan, at, zones) == next;
    NextRunPasses(plan, at, zones);
    NextRunFollows(plan, at, zones);
    AllPassedOn(s.claims, n, id, plan, row.nextRun.value, at, zones);
    ApartSnoc(s.claims, n, id, plan, Claim(id, at), zones);
    AllPassedSnoc(s.claims, n, id, plan, Claim(id, at), at, next, zones);
  }

  lemma NextRunFollows(plan: Schedule, now: int, zones: Zones)
    requires Computable(plan, now, zones)
    ensures now < NextOf(plan, now, zones)
  {
    hide NextRun;
    NextRunIsEarliest(now, plan.cadence, plan.options, zones);
  }

  lemma NextKeepsSpacing(s: State, n: nat, step: Step, id: nat, plan: Schedule, zones: Zones)
    requires n <= |s.claims| && Spaced(s, n, id, plan, zones) && !(step.Edit? && step.id == id)
    ensures Spaced(Next(s, step, zones), n, id, plan, zones) && n <= |Next(s, step, zones).claims|
  {
    hide NextRun, Passed, Apart, AllPassed;
    if step.Take? && Takes(s, step.id, step.now, zones) {
      if step.id == id {
        TakeKeepsSpacing(s, n, id, step.now, plan, zones);
      } else {
        var claim := Claim(step.id, step.now);
        ApartSnoc(s.claims, n, id, plan, claim, zones);
        if id in s.table && s.table[id].nextRun.Some? {
          var waiting := s.table[id].nextRun.value;
          AllPassedSnoc(s.claims, n, id, plan, claim, waiting, waiting, zones);
        }
      }
    }
  }

  lemma {:induction false} RunKeepsSpacing(s: State, n: nat, steps: seq<Step>, id: nat, plan: Schedule, zones: Zones)
    requires n <= |s.claims| && Spaced(s, n, id, plan, zones)
    requires forall step :: step in steps ==> !(step.Edit? && step.id == id)
    ensures Spaced(Run(s, steps, zones), n, id, plan, zones)
    decreases |steps|
  {
    hide Next, Spaced;
    if steps != [] {
      assert steps[0] in steps;
      NextKeepsSpacing(s, n, steps[0], id, plan, zones);
      RunKeepsSpacing(Next(s, steps[0], zones), n, steps[1..], id, plan, zones);
    }
  }

  /** No occurrence is mailed twice: between two claims of a schedule not edited
      meanwhile, by any schedulers, lies the next run computed at the earlier one. */
  lemma OccurrencesAreClaimedOnce(s: State, steps: seq<Step>, id: nat, zones: Zones, i: nat, j: nat)
    requires id in s.table && id in s.issued
    requires forall step :: step in steps ==> !(step.Edit? && step.id == id)
    requires var claims := Run(s, steps, zones).claims;
             |s.claims| <= i < j < |claims| && claims[i].id == id == claims[j].id
    ensures var claims, row := Run(s, steps, zones).claims, s.table[id];
            && Computable(row, claims[i].at, zones)
            && claims[i].at < NextOf(row, claims[i].at, zones) <= claims[j].at
  {
    hide Run, NextRun;
    assert Spaced(s, |s.claims|, id, s.table[id], zones);
    RunKeepsSpacing(s, |s.claims|, steps, id, s.table[id], zones);
  }

  // -------------------------------------------------- a call as a run of claims

  function TakesOf(claims: seq<nat>, now: int): seq<Step> {
    seq(|claims|, i requires 0 <= i < |claims| => Take(claims[i], now))
  }

  function ClaimsOf(claims: seq<nat>, now: int): seq<Claim> {
    seq(|claims|, i requires 0 <= i < |claims| => Claim(claims[i], now))
  }

  /** The row of a claim made at `now`; other rows stay. */
  ghost predicate RowsTaken(t: Table, t': Table, claims: seq<nat>, now: int, zones: Zones) {
    && t'.Keys == t.Keys
    && (forall id :: id in claims ==>
          id in t && Computable(t[id], now, zones) && t'[id] == ClaimRow(t[id], now, NextOf(t[id], now, zones)))
    && (forall id :: id in t && id !in claims ==> t'[id] == t[id])
  }

  lemma TakeTakesRow(s: State, id: nat, rest: seq<nat>, now: int, zones: Zones)
    requires Takes(s, id, now, zones) && id !in rest && forall other :: other in rest ==> Takes(s, other, now, zones)
    ensures var s1 := Next(s, Take(id, now), zones);
            && s1.claims == s.claims + [Claim(id, now)] && s1.issued == s.issued
            && RowsTaken(s.table, s1.table, [id], now, zones)
            && forall other :: other in rest ==> Takes(s1, other, now, zones)
  {
    hide NextRun;
  }

  lemma RowsTakenJoin(t: Table, t1: Table, t2: Table, id: nat, rest: seq<nat>, now: int, zones: Zones)
    requires RowsTaken(t, t1, [id], now, zones) && RowsTaken(t1, t2, rest, now, zones) && id !in rest
    ensures RowsTaken(t, t2, [id] + rest, now, zones)
  {
    hide NextRun;
    assert forall other :: other in [id] + rest <==> other == id || other in rest;
  }

  lemma TakesUnfold(claims: seq<nat>, now: int)
    requires claims != [] && Once(claims)
    ensures TakesOf(claims, now)[0] == Take(claims[0], now) && TakesOf(claims, now)[1..] == TakesOf(claims[1..], now)
    ensures ClaimsOf(claims, now) == [Claim(claims[0], now)] + ClaimsOf(claims[1..], now)
    ensures claims == [claims[0]] + claims[1..] && claims[0] !in claims[1..] && Once(claims[1..])
  {
    assert forall i :: 0 <= i < |claims[1..]| ==> claims[1..][i] == claims[i + 1];
  }

  lemma {:induction false} TakesClaimRows(s: State, claims: seq<nat>, now: int, zones: Zones)
    requires Once(claims) && forall id :: id in claims ==> Takes(s, id, now, zones)
    ensures var s' := Run(s, TakesOf(claims, now), zones);
            && s'.claims == s.claims + ClaimsOf(claims, now) && s'.issued == s.issued
            && RowsTaken(s.table, s'.table, claims, now, zones)
    decreases |claims|
  {
    hide Takes, Next, NextOf, Computable, ClaimRow;
    if claims != [] {
      TakesUnfold(claims, now);
      var s1, rest := Next(s, Take(claims[0], now), zones), claims[1..];
      hide TakesOf, ClaimsOf, RowsTaken, Once;
      TakeTakesRow(s, claims[0], rest, now, zones);
      TakesClaimRows(s1, rest, now, zones);
      RowsTakenJoin(s.table, s1.table, Run(s1, TakesOf(rest, now), zones).table, claims[0], rest, now, zones);
    }
  }

  /** What RunScheduledReports does to the table is the run of its claims, one Take
      each: so all that is proved of runs holds of its calls, alone or among others. */
  lemma CallIsTakes(s: State, after: Table, claims: seq<nat>, now: int, zones: Zones)
    requires ClaimedRows(s.table, after, claims, now, zones) && Once(claims)
    ensures Run(s, TakesOf(claims, now), zones) == s.(table := after, claims := s.claims + ClaimsOf(claims, now))
  {
    hide NextRun, Run, Next;
    assert forall id :: id in claims ==> Takes(s, id, now, zones);
    TakesClaimRows(s, claims, now, zones);
    var t := Run(s, TakesOf(claims, now), zones).table;
    assert forall id :: id in t ==> t[id] == after[id];
    assert t == after;
  }

  /** The steps of a call that claims `claims` while others take steps before and after
      each claim. */
  function Interleaved(others: nat -> seq<Step>, claims: seq<nat>, now: int): seq<Step> {
    if claims == [] then others(0)
    else Interleaved(others, claims[..|claims| - 1], now) + [Take(claims[|claims| - 1], now)] + others(|claims|)
  }

  lemma {:induction false} RunConcat(s: State, a: seq<Step>, b: seq<Step>, zones: Zones)
    ensures Run(s, a + b, zones) == Run(Run(s, a, zones), b, zones)
    decreases |a|
  {
    hide Next;
    if a == [] {
      assert a + b == b;
    } else {
      assert (a + b)[1..] == a[1..] + b;
      RunConcat(Next(s, a[0], zones), a[1..], b, zones);
    }
  }

  lemma InterleavedSnoc(s: State, others: nat -> seq<Step>, claims: seq<nat>, id: nat, now: int, zones: Zones)
    ensures var s1 := Next(Run(s, Interleaved(others, claims, now), zones), Take(id, now), zones);
            Run(s, Interleaved(others, claims + [id], now), zones) == Run(s1, others(|claims| + 1), zones)
  {
    hide Next;
    assert (claims + [id])[..|claims|] == claims;
    var sofar, last := Interleaved(others, claims, now), others(|claims| + 1);
    RunConcat(s, sofar + [Take(id, now)], last, zones);
    RunConcat(s, sofar, [Take(id, now)], zones);
    var s0 := Run(s, sofar, zones);
    assert [Take(id, now)][1..] == [];
    assert Run(s0, [Take(id, now)], zones) == Run(Next(s0, Take(id, now), zones), [], zones);
  }

  /** Claim number i commits in the state the others have left by then. */
  ghost predicate ClaimsCommit(s: State, others: nat -> seq<Step>, claims: seq<nat>, now: int, zones: Zones) {
    forall i :: 0 <= i < |claims| ==>
      Takes(Run(s, Interleaved(others, claims[..i], now), zones), claims[i], now, zones)
  }

  lemma ClaimsCommitSnoc(s: State, others: nat -> seq<Step>, claims: seq<nat>, id: nat, now: int, zones: Zones)
    requires ClaimsCommit(s, others, claims, now, zones)
    requires Takes(Run(s, Interleaved(others, claims, now), zones), id, now, zones)
    ensures ClaimsCommit(s, others, claims + [id], now, zones)
  {
    hide Takes, Run, Interleaved;
    assert (claims + [id])[..|claims|] == claims;
    forall i | 0 <= i < |claims|
      ensures (claims + [id])[..i] == claims[..i]
    {
    }
  }

  lemma TakeShrinksDue(s: State, id: nat, now: int, zones: Zones)
    requires Takes(s, id, now, zones)
    ensures |DueSet(Next(s, Take(id, now), zones).table, now)| < |DueSet(s.table, now)|
  {
    hide NextRun;
    NextRunFollows(s.table[id], now, zones);
    ClaimShrinksDue(s.table, id, now, NextOf(s.table[id], now, zones));
  }

  datatype Outcome = Finished | Uncomputable(id: nat) | Interrupted

  /** The claim loop of a scheduler while others create, claim, edit and remove: before
      its query number k they take the steps others(k), none from `quiet` on, and while
      it looks they hold the rows locked(k). It ends; what happened is the run of all
      their steps and its own claims, none of a row held by others; and unless a
      statement fails it finishes exactly when every due row its last query saw is held. */
  method ClaimAmongOthers(s: State, others: nat -> seq<Step>, locked: nat -> set<nat>, ghost quiet: nat, now: int,
                          zones: Zones)
    returns (end: State, outcome: Outcome, claims: seq<nat>)
    requires forall k: nat :: k >= quiet ==> others(k) == []
    ensures end == Run(s, Interleaved(others, claims, now), zones)
    ensures ClaimsCommit(s, others, claims, now, zones)
    ensures forall k :: 0 <= k < |claims| ==> claims[k] !in locked(k)
    ensures outcome.Finished? || outcome.Uncomputable? ==>
              (outcome.Finished? <==> DueSet(end.table, now) <= locked(|claims|))
    ensures outcome.Uncomputable? ==>
              First(end.table, now, DueSet(end.table, now) - locked(|claims|), outcome.id) &&
              !Computable(end.table[outcome.id], now, zones)
  {
    hide Run, Next, Interleaved, ClaimsCommit, NextRun, Computable, Due;
    InterleavedNone(s, others, now, zones);
    end, claims := Run(s, others(0), zones), [];
    while true
      invariant end == Run(s, Interleaved(others, claims, now), zones)
      invariant ClaimsCommit(s, others, claims, now, zones)
      invariant forall k :: 0 <= k < |claims| ==> claims[k] !in locked(k)
      decreases if |claims| < quiet then quiet - |claims| else 0, |DueSet(end.table, now)|
    {
      if * { return end, Interrupted, claims; }
      var among := DueSet(end.table, now) - locked(|claims|);
      assert forall id :: id in DueSet(end.table, now) ==> id in among || id in locked(|claims|);
      if among == {} {
        return end, Finished, claims;
      }
      FirstExists(end.table, now, among);
      var id :| id in among && First(end.table, now, among, id);
      if !Computable(end.table[id], now, zones) {
        return end, Uncomputable(id), claims;
      }
      if * { return end, Interrupted, claims; }
      ClaimsCommitSnoc(s, others, claims, id, now, zones);
      InterleavedSnoc(s, others, claims, id, now, zones);
      TakeShrinksDue(end, id, now, zones);
      var taken := Next(end, Take(id, now), zones);
      RunNone(taken, zones);
      end := Run(taken, others(|claims| + 1), zones);
      claims := claims + [id];
      if * { return end, Interrupted, claims; }
    }
  }

  lemma InterleavedNone(s: State, others: nat -> seq<Step>, now: int, zones: Zones)
    ensures Run(s, Interleaved(others, [], now), zones) == Run(s, others(0), zones)
    ensures ClaimsCommit(s, others, [], now, zones)
  {
  }

  lemma RunNone(s: State, zones: Zones)
    ensures Run(s, [], zones) == s
  {
  }

  /** A claim at `at` would ask for the job keys of an earlier claim. */
  ghost predicate Collides(s: State, id: nat, at: int, zones: Zones) {
    Takes(s, id, at, zones) &&
    exists claim :: claim in s.claims && claim.id == id && Second(claim.at) == Second(at)
  }

  lemma ComputableAnytime(schedule: Schedule, now: int, at: int, zones: Zones)
    requires Computable(schedule, now, zones)
    ensures Computable(schedule, at, zones)
  {
    NextRunFails(now, schedule.cadence, schedule.options, zones);
    NextRunFails(at, schedule.cadence, schedule.options, zones);
    hide NextRun;
  }

  /** The guard the UPDATE lacks, exactly: after an edit some claim can collide if and
      only if the next run it stored does not lie past the second of last_sent_at. */
  lemma EditIsSafeExactly(s: State, id: nat, now: int, schedule: Schedule, zones: Zones)
    requires Orderly(s, id) && Edits(s, id, now, schedule, zones) && schedule.enabled && schedule.report.Some?
    ensures Safe(s, Edit(id, now, schedule), zones) <==>
              forall at :: !Collides(Next(s, Edit(id, now, schedule), zones), id, at, zones)
  {
    hide NextRun, Second;
    var s' := Next(s, Edit(id, now, schedule), zones);
    var next, last := NextOf(schedule, now, zones), s.table[id].lastSent;
    LastClaimIsLatest(s.claims, id);
    if Safe(s, Edit(id, now, schedule), zones) {
      forall at | Takes(s', id, at, zones)
        ensures !Collides(s', id, at, zones)
      {
        SecondsFollow(next, at);
      }
    } else {
      var at := if next < last.value then last.value else next;
      SecondsFollow(last.value, next);
      ComputableAnytime(schedule, now, at, zones);
      ComputableAnytime(s'.table[id], now, at, zones);
      assert Claim(id, last.value) in s'.claims && Second(at) == Second(last.value);
      assert Collides(s', id, at, zones);
    }
  }

  // -------------------------------------------------------------- a lost edit

  function DailyAtNine(recipients: seq<string>): Schedule {
    Schedule(Some(Report("", true)), "daily", map[], recipients, true, None, None)
  }

  const NINE := 32_400_000_000_000

  lemma NineEveryDay(schedule: Schedule, now: int, zones: Zones)
    requires schedule.cadence == "daily" && schedule.options == map[] && 0 <= now < 86_400_000_000_000
    ensures Computable(schedule, now, zones)
    ensures NextOf(schedule, now, zones) == if now < NINE then NINE else NINE + 86_400_000_000_000
  {
    hide DailyRun;
    DailyRunIs(now, NINE);
  }

  /** Claimed a tenth of a second past nine, then edited by someone who read the clock
      just before nine, then claimed again within the same second: the edit put the
      next run back, and both claims ask for the same job keys. */
  lemma StaleEditCollides(recipients: seq<string>, zones: Zones)
    ensures var schedule := DailyAtNine(recipients);
            var steps := [Create(0, 0, schedule), Take(0, NINE + 100_000_000),
                          Edit(0, NINE - 1, schedule), Take(0, NINE + 200_000_000)];
            Run(INIT, steps, zones).claims == [Claim(0, NINE + 100_000_000), Claim(0, NINE + 200_000_000)]
    ensures JobKeys(0, NINE + 100_000_000, recipients) == JobKeys(0, NINE + 200_000_000, recipients)
  {
    hide NextRun;
    assert Second(NINE + 100_000_000) == Second(NINE + 200_000_000) == 32_400;
    var schedule := DailyAtNine(recipients);
    var first, second := Take(0, NINE + 100_000_000), Take(0, NINE + 200_000_000);
    var s1 := Next(INIT, Create(0, 0, schedule), zones);
    NineEveryDay(schedule, 0, zones);
    NineEveryDay(s1.table[0], NINE + 100_000_000, zones);
    var s2 := Next(s1, first, zones);
    NineEveryDay(schedule, NINE - 1, zones);
    var s3 := Next(s2, Edit(0, NINE - 1, schedule), zones);
    NineEveryDay(s3.table[0], NINE + 200_000_000, zones);
    var s4 := Next(s3, second, zones);
    assert s4.claims == [Claim(0, NINE + 100_000_000), Claim(0, NINE + 200_000_000)];
    RunFour(INIT, Create(0, 0, schedule), first, Edit(0, NINE - 1, schedule), second, zones);
  }

  lemma RunFour(s: State, a: Step, b: Step, c: Step, d: Step, zones: Zones)
    ensures Run(s, [a, b, c, d], zones) == Next(Next(Next(Next(s, a, zones), b, zones), c, zones), d, zones)
  {
    hide Next;
    assert [a, b, c, d][1..] == [b, c, d] && [b, c, d][1..] == [c, d] && [c, d][1..] == [d] && [d][1..] == [];
    var s1 := Next(s, a, zones);
    assert Run(s, [a, b, c, d], zones) == Run(s1, [b, c, d], zones);
    var s2 := Next(s1, b, zones);
    assert Run(s1, [b, c, d], zones) == Run(s2, [c, d], zones);
    var s3 := Next(s2, c, zones);
    assert Run(s2, [c, d], zones) == Run(s3, [d], zones);
    assert Run(s3, [d], zones) == Run(Next(s3, d, zones), [], zones);
  }

  /** Within one call, no recipient is asked for twice under the same claim. */
  lemma {:induction false} WantedKeysAreDistinct(t: Table, claims: seq<nat>, now: int)
    requires Once(claims)
    requires forall id :: id in claims && id in t ==>
               forall i, j :: 0 <= i < j < |t[id].recipients| ==> t[id].recipients[i] != t[id].recipients[j]
    ensures forall i, j :: 0 <= i < j < |Wanted(t, claims, now)| ==>
              Wanted(t, claims, now)[i] != Wanted(t, claims, now)[j]
    ensures forall key :: key in Wanted(t, claims, now) ==> key.id in claims
  {
    if claims != [] {
      var n := |claims| - 1;
      assert claims == claims[..n] + [claims[n]];
      forall i | 0 <= i < n
        ensures claims[..n][i] != claims[n]
      {
      }
      WantedKeysAreDistinct(t, claims[..n], now);
    }
  }

  /** A due schedule whose next run cannot be computed keeps every later one waiting. */
  lemma BrokenScheduleBlocks(before: Table, after: Table, claims: seq<nat>, now: int, zones: Zones, id: nat)
    requires ClaimedRows(before, after, claims, now, zones) && InOrder(before, claims, now)
    requires First(before, now, DueSet(before, now), id) && !Computable(before[id], now, zones)
    ensures (forall other :: other !in claims) && after == before
  {
    hide NextRun;
    assert id !in claims;
    forall other
      ensures other !in claims
    {
    }
  }
}
