/** Any number of requests sharing one ledger, interleaved statement by
    statement, with crashes and failing statements between any two of them. */
module IdempotencyProtocol {
  import opened IdempotencyLedger
  import opened Wrappers

  /** Where a request stands. `Lost(owner)` has been refused the INSERT by the row
      `owner` inserted; `Holding` runs its handler under its own claim, `Answered`
      has its handler's answer but has not told the ledger; `Unguarded` runs its
      handler with no claim. */
  datatype Phase =
    | Arrived
    | Lost(owner: nat)
    | Holding
    | Answered(answer: Response)
    | Unguarded
    | Done(verdict: Verdict)
    | Stopped

  datatype Request = Request(key: Key, fingerprint: string, phase: Phase)

  datatype Event =
    | Claimed(key: Key, id: nat)              // row inserted, handler starts under it
    | Orphaned(key: Key, id: nat)             // row inserted but the reply was lost; handler starts
    | Conflicted(key: Key, id: nat, owner: nat)
    | WentAhead(key: Key, id: nat)            // handler starts with no row of its own
    | Finished(key: Key, id: nat, answer: Response) // a claimed handler answered
    | Deleted(key: Key, owner: nat)

  datatype State = State(table: Table, requests: map<nat, Request>, log: seq<Event>)

  /** `applied` says whether a statement that reported an error took effect. */
  datatype Step =
    | Arrive(id: nat, key: Key, fingerprint: string)
    | Insert(id: nat)
    | InsertError(id: nat, applied: bool)
    | Select(id: nat)
    | SelectError(id: nat)
    | Answer(id: nat, response: Response)
    | Settle(id: nat)
    | SettleError(id: nat, applied: bool)
    | Crash(id: nat)

  const INIT := State(map[], map[], [])

  predicate IsError(step: Step) {
    step.InsertError? || step.SelectError? || step.SettleError?
  }

  function Move(s: State, id: nat, phase: Phase): State
    requires id in s.requests
  {
    s.(requests := s.requests[id := s.requests[id].(phase := phase)])
  }

  function Record(s: State, event: Event): State {
    s.(log := s.log + [event])
  }

  function InsertStep(s: State, id: nat): State
    requires id in s.requests
  {
    var q := s.requests[id];
    if q.key in s.table then
      Record(Move(s, id, Lost(s.table[q.key].id)), Conflicted(q.key, id, s.table[q.key].id))
    else
      Record(Move(s, id, Holding), Event.Claimed(q.key, id))
        .(table := InsertRow(s.table, q.key, id, q.fingerprint))
  }

  function InsertErrorStep(s: State, id: nat, applied: bool): State
    requires id in s.requests
  {
    var q := s.requests[id];
    if applied && q.key !in s.table then
      Record(Move(s, id, Unguarded), Orphaned(q.key, id))
        .(table := InsertRow(s.table, q.key, id, q.fingerprint))
    else
      Record(Move(s, id, Unguarded), WentAhead(q.key, id))
  }

  function SelectStep(s: State, id: nat): State
    requires id in s.requests
  {
    var q := s.requests[id];
    var verdict := ReadRow(s.table, q.key, q.fingerprint);
    if verdict.Unavailable? then Record(Move(s, id, Unguarded), WentAhead(q.key, id))
    else Move(s, id, Done(verdict))
  }

  function AnswerStep(s: State, id: nat, response: Response): State
    requires id in s.requests
  {
    var q := s.requests[id];
    if q.phase.Holding? then Record(Move(s, id, Answered(response)), Finished(q.key, id, response))
    else Move(s, id, Stopped)
  }

  function SettleStep(s: State, id: nat, applied: bool): State
    requires id in s.requests && s.requests[id].phase.Answered?
  {
    var q := s.requests[id];
    var s' := Move(s, id, Stopped);
    if !applied then s'
    else
      var table' := SettleRow(s.table, q.key, q.phase.answer);
      if q.key in s.table && q.key !in table' then
        Record(s', Deleted(q.key, s.table[q.key].id)).(table := table')
      else s'.(table := table')
  }

  /** A step whose request is not at the matching point changes nothing. */
  function Next(s: State, step: Step): State {
    if step.Arrive? then
      if step.id in s.requests then s
      else s.(requests := s.requests[step.id := Request(step.key, step.fingerprint, Arrived)])
    else if step.id !in s.requests then s
    else
      var id, phase := step.id, s.requests[step.id].phase;
      match step
      case Insert(_) => if phase.Arrived? then InsertStep(s, id) else s
      case InsertError(_, applied) => if phase.Arrived? then InsertErrorStep(s, id, applied) else s
      case Select(_) => if phase.Lost? then SelectStep(s, id) else s
      case SelectError(_) =>
        if phase.Lost? then Record(Move(s, id, Unguarded), WentAhead(s.requests[id].key, id)) else s
      case Answer(_, response) =>
        if phase.Holding? || phase.Unguarded? then AnswerStep(s, id, response) else s
      case Settle(_) => if phase.Answered? then SettleStep(s, id, true) else s
      case SettleError(_, applied) => if phase.Answered? then SettleStep(s, id, applied) else s
      case Crash(_) => Move(s, id, Stopped)
  }

  function Run(s: State, steps: seq<Step>): State
    decreases |steps|
  {
    if steps == [] then s else Run(Next(s, steps[0]), steps[1..])
  }

  predicate Holds(s: State, id: nat, k: Key) {
    id in s.requests && s.requests[id].key == k &&
    (s.requests[id].phase.Holding? || s.requests[id].phase.Answered?)
  }

  // ---------------------------------------------------------------- invariant

  /** A claim is a pending row the claimant itself inserted. */
  ghost predicate ClaimsOwnRows(s: State) {
    forall id, k :: Holds(s, id, k) ==>
      k in s.table && s.table[k].id == id && s.table[k].response.None?
  }

  /** Every row was inserted by a request that has moved past its INSERT. */
  ghost predicate RowsHaveAuthors(s: State) {
    forall k :: k in s.table ==>
      var id := s.table[k].id;
      id in s.requests && s.requests[id].key == k &&
      !s.requests[id].phase.Arrived? && !s.requests[id].phase.Lost? &&
      s.table[k].fingerprint == s.requests[id].fingerprint
  }

  ghost predicate WinningEvent(s: State, i: nat, k: Key) {
    i < |s.log| && s.log[i].Finished? && s.log[i].key == k && Success(s.log[i].answer)
  }

  /** A claimed run that answered 2xx still owns its row, which no one can delete. */
  ghost predicate WinnersKeepRows(s: State) {
    forall i: nat, k :: WinningEvent(s, i, k) ==>
      k in s.table && s.table[k].id == s.log[i].id &&
      s.log[i].id in s.requests &&
      (s.requests[s.log[i].id].phase == Answered(s.log[i].answer) ||
       s.requests[s.log[i].id].phase.Stopped?)
  }

  ghost predicate OneWinner(s: State) {
    forall i: nat, j: nat, k :: WinningEvent(s, i, k) && WinningEvent(s, j, k) ==> i == j
  }

  ghost predicate AnswersAreLogged(s: State) {
    forall id :: id in s.requests && s.requests[id].phase.Answered? ==>
      Finished(s.requests[id].key, id, s.requests[id].phase.answer) in s.log
  }

  /** A stored response is the storable form of what its own claimed run answered. */
  ghost predicate ResponsesAreEarned(s: State) {
    forall k :: k in s.table && s.table[k].response.Some? ==> exists i: nat :: Earned(s, k, i)
  }

  ghost predicate Earned(s: State, k: Key, i: nat) {
    && WinningEvent(s, i, k) && k in s.table
    && s.log[i].id == s.table[k].id && s.table[k].response == Some(Storable(s.log[i].answer))
  }

  ghost predicate Inv(s: State) {
    && ClaimsOwnRows(s)
    && RowsHaveAuthors(s)
    && WinnersKeepRows(s)
    && OneWinner(s)
    && AnswersAreLogged(s)
    && ResponsesAreEarned(s)
  }

  /** A row changes only by its claimant settling, and appears only by an INSERT. */
  lemma RowChanges(s: State, step: Step, k: Key)
    ensures var s' := Next(s, step);
            k in s.table && (k !in s'.table || s'.table[k] != s.table[k]) ==>
              Holds(s, step.id, k) && s.requests[step.id].phase.Answered? && s'.requests[step.id].phase.Stopped?
    ensures var s' := Next(s, step);
            k !in s.table && k in s'.table ==>
              step.id in s.requests && s.requests[step.id].key == k && s.requests[step.id].phase.Arrived? &&
              s'.table[k] == Row(step.id, s.requests[step.id].fingerprint, None)
  {
  }

  /** The step moves no request but its own, and never changes a key or fingerprint. */
  lemma RequestChanges(s: State, step: Step, id: nat)
    ensures var s' := Next(s, step);
            id in s.requests ==> id in s'.requests && s'.requests[id].key == s.requests[id].key &&
                                 s'.requests[id].fingerprint == s.requests[id].fingerprint
    ensures id != step.id ==> (id in s.requests <==> id in Next(s, step).requests)
    ensures id != step.id && id in s.requests ==> Next(s, step).requests[id] == s.requests[id]
  {
  }

  lemma NextExtendsLog(s: State, step: Step)
    ensures var s' := Next(s, step); s'.log == s.log || (s'.log != [] && s'.log[..|s'.log| - 1] == s.log)
    ensures |Next(s, step).log| <= |s.log| + 1 && s.log <= Next(s, step).log
  {
  }

  lemma NextKeepsClaims(s: State, step: Step)
    requires Inv(s)
    ensures ClaimsOwnRows(Next(s, step))
  {
    var s' := Next(s, step);
    forall id, k | Holds(s', id, k)
      ensures k in s'.table && s'.table[k].id == id && s'.table[k].response.None?
    {
      RequestChanges(s, step, id);
      RowChanges(s, step, k);
      if id != step.id {
        assert Holds(s, id, k);
      } else if s.requests[id].phase.Holding? {
        assert Holds(s, id, k);
      }
    }
  }

  lemma NextKeepsAuthors(s: State, step: Step)
    requires Inv(s)
    ensures RowsHaveAuthors(Next(s, step))
  {
    var s' := Next(s, step);
    forall k | k in s'.table
      ensures var id := s'.table[k].id;
              id in s'.requests && s'.requests[id].key == k &&
              !s'.requests[id].phase.Arrived? && !s'.requests[id].phase.Lost? &&
              s'.table[k].fingerprint == s'.requests[id].fingerprint
    {
      RowChanges(s, step, k);
      RequestChanges(s, step, s'.table[k].id);
    }
  }

  lemma NextKeepsAnswers(s: State, step: Step)
    requires Inv(s)
    ensures AnswersAreLogged(Next(s, step))
  {
    var s' := Next(s, step);
    forall id | id in s'.requests && s'.requests[id].phase.Answered?
      ensures Finished(s'.requests[id].key, id, s'.requests[id].phase.answer) in s'.log
    {
      RequestChanges(s, step, id);
    }
  }

  /** A new 2xx event can only come from a request that held the key's row. */
  lemma NewWinner(s: State, step: Step, i: nat, k: Key)
    requires Inv(s) && WinningEvent(Next(s, step), i, k) && i >= |s.log|
    ensures i == |s.log| && Next(s, step).log[i].id == step.id && Next(s, step).table == s.table
    ensures Holds(s, step.id, k) && s.requests[step.id].phase.Holding?
    ensures Next(s, step).requests[step.id].phase == Answered(Next(s, step).log[i].answer)
    ensures forall j: nat :: !WinningEvent(s, j, k)
  {
    assert Holds(s, step.id, k) && s.table[k].id == step.id;
    forall j: nat
      ensures !WinningEvent(s, j, k)
    {
    }
  }

  lemma NextKeepsWinners(s: State, step: Step)
    requires Inv(s)
    ensures WinnersKeepRows(Next(s, step)) && OneWinner(Next(s, step))
  {
    var s' := Next(s, step);
    NextExtendsLog(s, step);
    forall i: nat, k | WinningEvent(s', i, k)
      ensures k in s'.table && s'.table[k].id == s'.log[i].id
      ensures s'.log[i].id in s'.requests
      ensures s'.requests[s'.log[i].id].phase == Answered(s'.log[i].answer) || s'.requests[s'.log[i].id].phase.Stopped?
    {
      if i < |s.log| {
        assert s.log[i] == s'.log[i] && WinningEvent(s, i, k);
        RowChanges(s, step, k);
        RequestChanges(s, step, s.log[i].id);
      } else {
        NewWinner(s, step, i, k);
      }
    }
    forall i: nat, j: nat, k | WinningEvent(s', i, k) && WinningEvent(s', j, k)
      ensures i == j
    {
      if i >= |s.log| { NewWinner(s, step, i, k); } else { assert s.log[i] == s'.log[i] && WinningEvent(s, i, k); }
      if j >= |s.log| { NewWinner(s, step, j, k); } else { assert s.log[j] == s'.log[j] && WinningEvent(s, j, k); }
    }
  }

  /** Settling with a 2xx answer stores just what that logged answer earned. */
  lemma SettlingEarns(s: State, step: Step, k: Key)
    requires Inv(s)
    requires var s' := Next(s, step);
             k in s'.table && s'.table[k].response.Some? && !(k in s.table && s.table[k] == s'.table[k])
    ensures exists i: nat :: Earned(Next(s, step), k, i)
  {
    var s' := Next(s, step);
    var q := s.requests[step.id];
    assert Holds(s, step.id, k);
    var i: nat :| i < |s.log| && s.log[i] == Finished(q.key, step.id, q.phase.answer);
    assert Earned(s', k, i);
  }

  lemma NextKeepsResponses(s: State, step: Step)
    requires Inv(s)
    ensures ResponsesAreEarned(Next(s, step))
  {
    var s' := Next(s, step);
    forall k | k in s'.table && s'.table[k].response.Some?
      ensures exists i: nat :: Earned(s', k, i)
    {
      if k in s.table && s.table[k] == s'.table[k] {
        var i: nat :| Earned(s, k, i);
        NextExtendsLog(s, step);
        assert Earned(s', k, i);
      } else {
        SettlingEarns(s, step, k);
      }
    }
  }

  lemma NextKeepsInv(s: State, step: Step)
    requires Inv(s)
    ensures Inv(Next(s, step))
  {
    NextKeepsClaims(s, step);
    NextKeepsAuthors(s, step);
    NextKeepsAnswers(s, step);
    NextKeepsWinners(s, step);
    NextKeepsResponses(s, step);
  }

  lemma {:induction false} RunKeepsInv(s: State, steps: seq<Step>)
    requires Inv(s)
    ensures Inv(Run(s, steps))
    decreases |steps|
  {
    if steps != [] {
      NextKeepsInv(s, steps[0]);
      RunKeepsInv(Next(s, steps[0]), steps[1..]);
    }
  }

  // ------------------------------------------------------------ mutual exclusion

  /** Claimed handler runs of one key never overlap, in any run. */
  lemma ClaimedRunsNeverOverlap(steps: seq<Step>, a: nat, b: nat, k: Key)
    requires Holds(Run(INIT, steps), a, k) && Holds(Run(INIT, steps), b, k)
    ensures a == b
    ensures var t := Run(INIT, steps).table; k in t && t[k].id == a && t[k].response.None?
  {
    RunKeepsInv(INIT, steps);
  }

  /** At most one claimed run of a key ever answers 2xx. */
  lemma AtMostOneSuccess(steps: seq<Step>, i: nat, j: nat, k: Key)
    requires var s := Run(INIT, steps); WinningEvent(s, i, k) && WinningEvent(s, j, k)
    ensures i == j
  {
    RunKeepsInv(INIT, steps);
  }

  /** A request's steps reach the row of its own key only. */
  lemma StepsStayOnTheirKey(s: State, step: Step, k: Key)
    requires step.id in s.requests ==> s.requests[step.id].key != k
    ensures k in Next(s, step).table <==> k in s.table
    ensures k in s.table ==> Next(s, step).table[k] == s.table[k]
  {
  }

  // ------------------------------------------------------------- conservation

  predicate Inserts(e: Event, k: Key) {
    (e.Claimed? || e.Orphaned?) && e.key == k
  }

  predicate Starts(e: Event, k: Key) {
    (e.Claimed? || e.Orphaned? || e.WentAhead?) && e.key == k
  }

  function CountInserts(log: seq<Event>, k: Key): nat {
    if log == [] then 0
    else CountInserts(log[..|log| - 1], k) + if Inserts(log[|log| - 1], k) then 1 else 0
  }

  function CountDeletes(log: seq<Event>, k: Key): nat {
    if log == [] then 0
    else CountDeletes(log[..|log| - 1], k) +
         if log[|log| - 1].Deleted? && log[|log| - 1].key == k then 1 else 0
  }

  function CountStarts(log: seq<Event>, k: Key): nat {
    if log == [] then 0
    else CountStarts(log[..|log| - 1], k) + if Starts(log[|log| - 1], k) then 1 else 0
  }

  ghost predicate Balanced(s: State, k: Key) {
    CountInserts(s.log, k) == CountDeletes(s.log, k) + if k in s.table then 1 else 0
  }

  lemma NextKeepsBalance(s: State, step: Step, k: Key)
    requires Balanced(s, k)
    ensures Balanced(Next(s, step), k)
  {
    NextExtendsLog(s, step);
  }

  lemma {:induction false} RowsBalance(s: State, steps: seq<Step>, k: Key)
    requires Balanced(s, k)
    ensures Balanced(Run(s, steps), k)
    decreases |steps|
  {
    hide Next, Balanced;
    if steps != [] {
      NextKeepsBalance(s, steps[0], k);
      RowsBalance(Next(s, steps[0]), steps[1..], k);
    }
  }

  /** Over any run, errors included, rows ever inserted for a key are the rows
      released for it plus the one that may still be there. */
  lemma InsertsAreReleasesPlusPresent(steps: seq<Step>, k: Key)
    ensures var s := Run(INIT, steps);
            CountInserts(s.log, k) == CountDeletes(s.log, k) + if k in s.table then 1 else 0
  {
    RowsBalance(INIT, steps, k);
  }

  // -------------------------------------------------- unguarded runs, without errors

  /** Between request `id` losing to `owner` and the end of `log`, that row was released. */
  ghost predicate ReleasedSince(log: seq<Event>, k: Key, id: nat, owner: nat) {
    exists m: nat, j: nat :: m < j < |log| && log[m] == Conflicted(k, id, owner) && log[j] == Deleted(k, owner)
  }

  /** Whoever lost an INSERT either still faces the same row or saw it released. */
  ghost predicate KnowsWhy(s: State, k: Key, id: nat, owner: nat) {
    Conflicted(k, id, owner) in s.log &&
    ((k in s.table && s.table[k].id == owner) || ReleasedSince(s.log, k, id, owner))
  }

  ghost predicate LosersKnowWhy(s: State) {
    forall id :: id in s.requests && s.requests[id].phase.Lost? ==>
      KnowsWhy(s, s.requests[id].key, id, s.requests[id].phase.owner)
  }

  /** A start of request `id` with no claim of its own. */
  predicate StartsUnclaimed(e: Event, id: nat) {
    (e.WentAhead? || e.Orphaned?) && e.id == id
  }

  /** Every unclaimed start of `id` follows the release of the row it lost to. */
  ghost predicate Excused(log: seq<Event>, id: nat) {
    forall i: nat :: i < |log| && StartsUnclaimed(log[i], id) ==>
      log[i].WentAhead? && exists owner: nat :: ReleasedSince(log[..i], log[i].key, id, owner)
  }

  lemma ReleasedSincePersists(log: seq<Event>, e: Event, k: Key, id: nat, owner: nat)
    requires ReleasedSince(log, k, id, owner)
    ensures ReleasedSince(log + [e], k, id, owner)
  {
    var m: nat, j: nat :| m < j < |log| && log[m] == Conflicted(k, id, owner) && log[j] == Deleted(k, owner);
    assert (log + [e])[m] == log[m] && (log + [e])[j] == log[j];
  }

  /** A row that goes away leaves a Deleted event naming who inserted it. */
  lemma RowsLeaveTraces(s: State, step: Step, k: Key)
    requires k in s.table
    ensures var s' := Next(s, step);
            (k in s'.table && s'.table[k].id == s.table[k].id) || s'.log == s.log + [Deleted(k, s.table[k].id)]
  {
  }

  lemma StillKnowsWhy(s: State, step: Step, k: Key, id: nat, owner: nat)
    requires KnowsWhy(s, k, id, owner)
    ensures KnowsWhy(Next(s, step), k, id, owner)
  {
    var s' := Next(s, step);
    NextExtendsLog(s, step);
    if k in s.table {
      RowsLeaveTraces(s, step, k);
    }
    hide Next;
    var m: nat :| m < |s.log| && s.log[m] == Conflicted(k, id, owner);
    assert s'.log[m] == s.log[m];
    if ReleasedSince(s.log, k, id, owner) && s'.log != s.log {
      assert s'.log == s.log + [s'.log[|s.log|]];
      ReleasedSincePersists(s.log, s'.log[|s.log|], k, id, owner);
    } else if !(k in s'.table && s'.table[k].id == owner) && s'.log != s.log {
      assert s'.log[|s.log|] == Deleted(k, owner);
    }
  }

  lemma NextKeepsLosers(s: State, step: Step)
    requires LosersKnowWhy(s)
    ensures LosersKnowWhy(Next(s, step))
  {
    var s' := Next(s, step);
    forall id | id in s'.requests && s'.requests[id].phase.Lost?
      ensures KnowsWhy(s', s'.requests[id].key, id, s'.requests[id].phase.owner)
    {
      if id in s.requests && s.requests[id].phase.Lost? {
        assert s'.requests[id] == s.requests[id];
        StillKnowsWhy(s, step, s.requests[id].key, id, s.requests[id].phase.owner);
      } else {
        assert s'.log[|s.log|] == Conflicted(s'.requests[id].key, id, s'.requests[id].phase.owner);
      }
    }
  }

  lemma NextKeepsExcuses(s: State, step: Step, id: nat)
    requires LosersKnowWhy(s) && Excused(s.log, id) && (step.id == id ==> !IsError(step))
    ensures Excused(Next(s, step).log, id)
  {
    var s' := Next(s, step);
    NextExtendsLog(s, step);
    forall i: nat | i < |s'.log| && StartsUnclaimed(s'.log[i], id)
      ensures s'.log[i].WentAhead? && exists owner: nat :: ReleasedSince(s'.log[..i], s'.log[i].key, id, owner)
    {
      if i < |s.log| {
        assert s'.log[..i] == s.log[..i] && s'.log[i] == s.log[i];
      } else {
        assert s'.log[..i] == s.log;
        assert ReleasedSince(s.log, s'.log[i].key, id, s.requests[id].phase.owner);
      }
    }
  }

  lemma {:induction false} RunKeepsExcuses(s: State, steps: seq<Step>, id: nat)
    requires LosersKnowWhy(s) && Excused(s.log, id)
    requires forall step :: step in steps && step.id == id ==> !IsError(step)
    ensures Excused(Run(s, steps).log, id)
    decreases |steps|
  {
    hide Next, LosersKnowWhy, Excused;
    if steps != [] {
      assert steps[0] in steps;
      NextKeepsLosers(s, steps[0]);
      NextKeepsExcuses(s, steps[0], id);
      RunKeepsExcuses(Next(s, steps[0]), steps[1..], id);
    }
  }

  /** A request none of whose own statements fails runs its handler without a claim
      only if the row it lost to was released after its INSERT and before its SELECT. */
  lemma UnguardedRunMeansRelease(steps: seq<Step>, i: nat)
    requires var log := Run(INIT, steps).log; i < |log| && (log[i].WentAhead? || log[i].Orphaned?)
    requires forall step :: step in steps && step.id == Run(INIT, steps).log[i].id ==> !IsError(step)
    ensures var log := Run(INIT, steps).log;
            exists m: nat, j: nat, owner: nat ::
              m < j < i && log[m] == Conflicted(log[i].key, log[i].id, owner) && log[j] == Deleted(log[i].key, owner)
  {
    var log := Run(INIT, steps).log;
    RunKeepsExcuses(INIT, steps, log[i].id);
    assert StartsUnclaimed(log[i], log[i].id);
    var owner: nat :| ReleasedSince(log[..i], log[i].key, log[i].id, owner);
    var m: nat, j: nat :| m < j < i && log[..i][m] == Conflicted(log[i].key, log[i].id, owner) &&
                          log[..i][j] == Deleted(log[i].key, owner);
    assert log[m] == log[..i][m] && log[j] == log[..i][j];
  }

  /** Exactly when losing the INSERT leads to an unclaimed run: at its SELECT, every
      row ever inserted for the key has been released. Otherwise the request is
      answered from the row it finds, its own winner's or a later one. */
  lemma SelectRunsUnclaimedExactly(steps: seq<Step>, id: nat)
    requires var s := Run(INIT, steps); id in s.requests && s.requests[id].phase.Lost?
    ensures var s, s' := Run(INIT, steps), Run(INIT, steps + [Select(id)]);
            var q := s.requests[id];
            && id in s'.requests
            && (s'.requests[id].phase.Unguarded? <==> CountInserts(s.log, q.key) == CountDeletes(s.log, q.key))
            && (!s'.requests[id].phase.Unguarded? ==>
                  q.key in s.table && s'.requests[id].phase == Done(ReadRow(s.table, q.key, q.fingerprint)))
  {
    var s := Run(INIT, steps);
    InsertsAreReleasesPlusPresent(steps, s.requests[id].key);
    RunConcat(INIT, steps, [Select(id)]);
    RunOne(s, Select(id), []);
    assert [Select(id)] + [] == [Select(id)];
  }

  lemma {:induction false} NoReleaseMeansOneStart(log: seq<Event>, k: Key)
    requires forall i: nat :: i < |log| && log[i].Deleted? ==> log[i].key != k
    requires forall i: nat :: i < |log| && (log[i].WentAhead? || log[i].Orphaned?) ==> log[i].key != k
    ensures CountDeletes(log, k) == 0 && CountStarts(log, k) == CountInserts(log, k)
  {
    if log != [] {
      NoReleaseMeansOneStart(log[..|log| - 1], k);
    }
  }

  ghost predicate StartsNameRequests(s: State) {
    forall e :: e in s.log && (e.WentAhead? || e.Orphaned?) ==> e.id in s.requests && s.requests[e.id].key == e.key
  }

  lemma {:induction false} RunNamesRequests(s: State, steps: seq<Step>)
    requires StartsNameRequests(s)
    ensures StartsNameRequests(Run(s, steps))
    decreases |steps|
  {
    if steps != [] {
      var s' := Next(s, steps[0]);
      forall e | e in s'.log && (e.WentAhead? || e.Orphaned?)
        ensures e.id in s'.requests && s'.requests[e.id].key == e.key
      {
        RequestChanges(s, steps[0], e.id);
      }
      RunNamesRequests(s', steps[1..]);
    }
  }

  /** If no request for the key meets a failing statement and its row is never released,
      its handler runs at most once, whatever befalls other keys. */
  lemma AtMostOneRun(steps: seq<Step>, k: Key)
    requires var s := Run(INIT, steps);
             forall step :: step in steps && IsError(step) && step.id in s.requests ==> s.requests[step.id].key != k
    requires forall e :: e in Run(INIT, steps).log && e.Deleted? ==> e.key != k
    ensures CountStarts(Run(INIT, steps).log, k) <= 1
  {
    var s := Run(INIT, steps);
    RunNamesRequests(INIT, steps);
    forall i: nat | i < |s.log| && (s.log[i].WentAhead? || s.log[i].Orphaned?)
      ensures s.log[i].key != k
    {
      assert s.log[i] in s.log;
      if s.log[i].key == k {
        UnguardedRunMeansRelease(steps, i);
      }
    }
    NoReleaseMeansOneStart(s.log, k);
    InsertsAreReleasesPlusPresent(steps, k);
  }

  // ------------------------------------------------------------- settled rows

  /** No one holds a claim on the row: it is completed, or its claimant is gone. */
  ghost predicate Settled(s: State, k: Key) {
    k in s.table && forall id :: !Holds(s, id, k)
  }

  /** How far a request that had not read the row when it settled can have come. */
  predicate ReadsOnly(q: Request, row: Row) {
    || q.phase.Arrived?
    || (q.phase.Lost? && q.phase.owner == row.id)
    || q.phase == Done(ReadRow(map[q.key := row], q.key, q.fingerprint))
    || q.phase.Stopped?
  }

  lemma NextKeepsSettled(s: State, step: Step, k: Key)
    requires Inv(s) && Settled(s, k)
    ensures Settled(Next(s, step), k) && Next(s, step).table[k] == s.table[k]
  {
    RowChanges(s, step, k);
    forall id
      ensures !Holds(Next(s, step), id, k)
    {
      RequestChanges(s, step, id);
      assert !Holds(s, id, k);
    }
  }

  /** The step is the request's own INSERT or SELECT, failing. */
  predicate Fails(s: State, step: Step, id: nat) {
    step.id == id && id in s.requests &&
    ((step.InsertError? && s.requests[id].phase.Arrived?) || (step.SelectError? && s.requests[id].phase.Lost?))
  }

  predicate FailsIn(s: State, steps: seq<Step>, id: nat)
    decreases |steps|
  {
    steps != [] && (Fails(s, steps[0], id) || FailsIn(Next(s, steps[0]), steps[1..], id))
  }

  predicate StartsHandler(e: Event, id: nat) {
    (e.Claimed? || e.Orphaned? || e.WentAhead?) && e.id == id
  }

  /** The handler of `id` starts at or after position `from` of the log. */
  ghost predicate StartedSince(log: seq<Event>, from: nat, id: nat) {
    exists i: nat :: from <= i < |log| && StartsHandler(log[i], id)
  }

  lemma FailingStarts(s: State, step: Step, id: nat)
    requires Fails(s, step, id)
    ensures StartedSince(Next(s, step).log, |s.log|, id)
  {
    assert StartsHandler(Next(s, step).log[|s.log|], id);
  }

  /** The one step that starts a handler without failing is an INSERT on a free key, a
      SELECT that finds no row, or an effective INSERT whose reply is lost. */
  lemma NoStart(s: State, step: Step, id: nat)
    requires !Fails(s, step, id) && (step.id == id && id in s.requests ==> s.requests[id].key in s.table)
    ensures !StartedSince(Next(s, step).log, |s.log|, id)
  {
  }

  lemma NextReadsOnly(s: State, step: Step, k: Key, id: nat)
    requires Inv(s) && Settled(s, k) && !Fails(s, step, id)
    requires id in s.requests ==> s.requests[id].key == k && ReadsOnly(s.requests[id], s.table[k])
    requires step.Arrive? && step.id == id ==> step.key == k
    ensures var s' := Next(s, step);
            id in s'.requests ==> s'.requests[id].key == k && ReadsOnly(s'.requests[id], s.table[k])
  {
    RequestChanges(s, step, id);
    assert k in s.table;
    hide Inv, Settled, Holds;
  }

  lemma CompletedIsSettled(s: State, k: Key)
    requires Inv(s) && k in s.table && s.table[k].response.Some?
    ensures Settled(s, k)
  {
  }

  lemma {:induction false} SettledRowsAreFinal(s: State, steps: seq<Step>, k: Key)
    requires Inv(s) && Settled(s, k)
    ensures Settled(Run(s, steps), k) && Run(s, steps).table[k] == s.table[k]
    decreases |steps|
  {
    if steps != [] {
      NextKeepsSettled(s, steps[0], k);
      NextKeepsInv(s, steps[0]);
      SettledRowsAreFinal(Next(s, steps[0]), steps[1..], k);
    }
  }

  lemma {:induction false} RunExtendsLog(s: State, steps: seq<Step>)
    ensures s.log <= Run(s, steps).log
    decreases |steps|
  {
    if steps != [] {
      NextExtendsLog(s, steps[0]);
      hide Next;
      RunExtendsLog(Next(s, steps[0]), steps[1..]);
    }
  }

  lemma StartedSplits(a: seq<Event>, b: seq<Event>, from: nat, id: nat)
    requires from <= |a| && a <= b
    ensures StartedSince(b, from, id) <==> StartedSince(a, from, id) || StartedSince(b, |a|, id)
  {
    if StartedSince(a, from, id) {
      var i: nat :| from <= i < |a| && StartsHandler(a[i], id);
      assert StartsHandler(b[i], id);
    }
    if StartedSince(b, from, id) && !StartedSince(b, |a|, id) {
      var i: nat :| from <= i < |b| && StartsHandler(b[i], id);
      assert StartsHandler(a[i], id);
    }
  }

  lemma {:induction false} SettledRowsAnswerForever(s: State, steps: seq<Step>, k: Key, id: nat)
    requires Inv(s) && Settled(s, k)
    requires id in s.requests ==> s.requests[id].key == k && ReadsOnly(s.requests[id], s.table[k])
    requires forall step :: step in steps && step.Arrive? && step.id == id ==> step.key == k
    ensures var s' := Run(s, steps);
            && (StartedSince(s'.log, |s.log|, id) <==> FailsIn(s, steps, id))
            && (!FailsIn(s, steps, id) && id in s'.requests ==>
                  s'.requests[id].key == k && ReadsOnly(s'.requests[id], s.table[k]))
    decreases |steps|
  {
    if steps != [] {
      assert steps[0] in steps;
      var s1 := Next(s, steps[0]);
      NextKeepsSettled(s, steps[0], k);
      if Fails(s, steps[0], id) {
        FailingStarts(s, steps[0], id);
      } else {
        NoStart(s, steps[0], id);
        NextReadsOnly(s, steps[0], k, id);
      }
      NextKeepsInv(s, steps[0]);
      NextExtendsLog(s, steps[0]);
      RunExtendsLog(s1, steps[1..]);
      hide Next, Inv, Settled, Fails, StartedSince, ReadsOnly;
      StartedSplits(s1.log, Run(s1, steps[1..]).log, |s.log|, id);
      if !Fails(s, steps[0], id) {
        SettledRowsAnswerForever(s1, steps[1..], k, id);
      }
    }
  }

  /** Once a row holds a response it never changes, and a later request for its key runs
      its handler if and only if its own INSERT or SELECT fails: otherwise it either has
      not read the row yet, or was given that response (same body) or refused (another
      body), whatever fails for anyone else. */
  lemma CompletedRowsReplayForever(before: seq<Step>, after: seq<Step>, k: Key, id: nat)
    requires var s := Run(INIT, before); k in s.table && s.table[k].response.Some? && id !in s.requests
    requires forall step :: step in after && step.Arrive? && step.id == id ==> step.key == k
    ensures var s, s' := Run(INIT, before), Run(Run(INIT, before), after);
            k in s'.table && s'.table[k] == s.table[k]
    ensures var s, s' := Run(INIT, before), Run(Run(INIT, before), after);
            StartedSince(s'.log, |s.log|, id) <==> FailsIn(s, after, id)
    ensures var s, s' := Run(INIT, before), Run(Run(INIT, before), after);
            !FailsIn(s, after, id) && id in s'.requests ==>
              match s'.requests[id].phase
              case Arrived => true
              case Lost(owner) => owner == s.table[k].id
              case Done(verdict) =>
                verdict == (if s'.requests[id].fingerprint == s.table[k].fingerprint
                            then Replay(s.table[k].response.value) else Mismatch)
              case Stopped => true
              case _ => false
  {
    var s := Run(INIT, before);
    RunKeepsInv(INIT, before);
    CompletedIsSettled(s, k);
    SettledRowsAreFinal(s, after, k);
    SettledRowsAnswerForever(s, after, k, id);
  }

  /** What is replayed is what the one successful claimed run answered: its status, and
      its body, or null for one that is not JSON. */
  lemma StoredResponseIsTheWinners(steps: seq<Step>, k: Key)
    requires var s := Run(INIT, steps); k in s.table && s.table[k].response.Some?
    ensures var s := Run(INIT, steps);
            exists i: nat :: WinningEvent(s, i, k) && s.log[i].id == s.table[k].id &&
              var answer, stored := s.log[i].answer, s.table[k].response.value;
              && stored.status == answer.status && 200 <= answer.status <= 299
              && stored.body == if answer.body.Json? then answer.body else Json("null")
  {
    RunKeepsInv(INIT, steps);
    var s := Run(INIT, steps);
    var i: nat :| Earned(s, k, i);
  }

  /** The row is neither as it was nor pending. */
  predicate Moved(s: State, k: Key) {
    k !in s.table || s.table[k].response.Some?
  }

  lemma HoldersMove(s: State, id: nat, k: Key)
    requires Inv(s) && Holds(s, id, k)
    ensures exists after :: Moved(Run(s, after), k)
  {
    if s.requests[id].phase.Answered? {
      RunOne(s, Settle(id), []);
      assert [Settle(id)] + [] == [Settle(id)];
      assert Moved(Run(s, [Settle(id)]), k);
    } else {
      var answer := Answer(id, Response(200, NotJson("")));
      var s1 := Next(s, answer);
      RunOne(s, answer, [Settle(id)]);
      RunOne(s1, Settle(id), []);
      assert [Settle(id)] + [] == [Settle(id)];
      assert Moved(Run(s, [answer] + [Settle(id)]), k);
    }
  }

  /** A pending row can still be completed or released in some later run exactly when
      a live request holds it. Without one it is answered "in flight" for ever and never
      claimed again: expires_at is not consulted. */
  lemma StrandedKeysStayInFlight(before: seq<Step>, k: Key)
    requires var s := Run(INIT, before); k in s.table && s.table[k].response.None?
    ensures var s := Run(INIT, before);
            (exists after :: Moved(Run(s, after), k)) <==> exists id :: Holds(s, id, k)
    ensures var s := Run(INIT, before);
            (forall id :: !Holds(s, id, k)) ==>
              forall after :: k in Run(s, after).table && Run(s, after).table[k] == s.table[k] &&
                ReadRow(Run(s, after).table, k, s.table[k].fingerprint) == InFlight
  {
    var s := Run(INIT, before);
    RunKeepsInv(INIT, before);
    if id :| Holds(s, id, k) {
      HoldersMove(s, id, k);
    } else {
      forall after
        ensures k in Run(s, after).table && Run(s, after).table[k] == s.table[k]
      {
        SettledRowsAreFinal(s, after, k);
      }
    }
  }

  /** An INSERT that takes effect although its reply is lost: the handler runs with no
      claim, and the row, held by no one, is answered "in flight" for ever. */
  lemma LostReplyStrandsTheKey(before: seq<Step>, id: nat, after: seq<Step>)
    requires var s := Run(INIT, before);
             id in s.requests && s.requests[id].phase.Arrived? && s.requests[id].key !in s.table
    ensures var s, s1 := Run(INIT, before), Next(Run(INIT, before), InsertError(id, true));
            var k, row := s.requests[id].key, Row(id, s.requests[id].fingerprint, None);
            && s1.requests[id].phase.Unguarded? && s1.table == s.table[k := row]
            && k in Run(s1, after).table && Run(s1, after).table[k] == row
  {
    var s, step := Run(INIT, before), InsertError(id, true);
    RunKeepsInv(INIT, before);
    NextKeepsInv(s, step);
    var s1 := Next(s, step);
    forall other
      ensures !Holds(s1, other, s.requests[id].key)
    {
      RequestChanges(s, step, other);
    }
    SettledRowsAreFinal(s1, after, s.requests[id].key);
  }

  /** A statement that reports an error has had its whole effect or none; a request that
      crashes is gone and its row stays; one that ran unclaimed settles nothing. */
  lemma EndsOfRequests(s: State, id: nat, response: Response)
    requires id in s.requests
    ensures s.requests[id].phase.Answered? ==>
              && Next(s, SettleError(id, true)) == Next(s, Settle(id))
              && Next(s, SettleError(id, false)).table == s.table
              && Next(s, SettleError(id, false)).requests[id].phase.Stopped?
    ensures Next(s, Crash(id)).table == s.table && Next(s, Crash(id)).requests[id].phase.Stopped?
    ensures s.requests[id].phase.Unguarded? ==>
              && Next(s, Answer(id, response)).table == s.table && Next(s, Answer(id, response)).log == s.log
              && Next(s, Answer(id, response)).requests[id].phase.Stopped?
  {
  }

  // ------------------------------------------------ the protocol and the plain call

  function Alone(id: nat, k: Key, fingerprint: string, handler: Response): seq<Step> {
    [Arrive(id, k, fingerprint), Insert(id), Select(id), Answer(id, handler), Settle(id)]
  }

  lemma {:induction false} RunConcat(s: State, a: seq<Step>, b: seq<Step>)
    ensures Run(s, a + b) == Run(Run(s, a), b)
    decreases |a|
  {
    hide Next;
    if a == [] {
      assert a + b == b;
    } else {
      assert (a + b)[1..] == a[1..] + b;
      RunConcat(Next(s, a[0]), a[1..], b);
    }
  }

  lemma RunOne(s: State, a: Step, rest: seq<Step>)
    ensures Run(s, [a] + rest) == Run(Next(s, a), rest)
  {
    assert ([a] + rest)[1..] == rest;
  }

  /** A new request run with no interleaving leaves the ledger as Ledger.Serve does:
      a first 2xx is stored, a first failure leaves no trace, and a repeat changes
      nothing and is answered from the row. */
  lemma AloneIsServe(s: State, id: nat, k: Key, fingerprint: string, handler: Response)
    requires id !in s.requests
    ensures var s' := Run(s, Alone(id, k, fingerprint, handler));
            && id in s'.requests
            && (k !in s.table && Success(handler) ==>
                  s'.table == s.table[k := Row(id, fingerprint, Some(Storable(handler)))])
            && (k !in s.table && !Success(handler) ==> s'.table == s.table)
            && (k in s.table ==>
                  s'.table == s.table && s'.requests[id].phase == Done(ReadRow(s.table, k, fingerprint)))
  {
    var s1 := Next(s, Arrive(id, k, fingerprint));
    var s2 := Next(s1, Insert(id));
    var s3 := Next(s2, Select(id));
    var s4 := Next(s3, Answer(id, handler));
    var s5 := Next(s4, Settle(id));
    RunOne(s, Arrive(id, k, fingerprint), [Insert(id), Select(id), Answer(id, handler), Settle(id)]);
    RunOne(s1, Insert(id), [Select(id), Answer(id, handler), Settle(id)]);
    RunOne(s2, Select(id), [Answer(id, handler), Settle(id)]);
    RunOne(s3, Answer(id, handler), [Settle(id)]);
    RunOne(s4, Settle(id), []);
    if k !in s.table {
      assert s2 == s3 && s4.requests[id].phase == Answered(handler);
      if !Success(handler) {
        assert s5.table == s.table;
      }
    }
  }

  lemma RunThree(s: State, a: Step, b: Step, c: Step, rest: seq<Step>)
    ensures Run(s, [a, b, c] + rest) == Run(Next(Next(Next(s, a), b), c), rest)
  {
    hide Next;
    assert [a, b, c] + rest == [a] + ([b] + ([c] + rest));
    RunOne(s, a, [b] + ([c] + rest));
    RunOne(Next(s, a), b, [c] + rest);
    RunOne(Next(Next(s, a), b), c, rest);
  }

  /** Request 1 loses to request 0, whose handler fails and whose row is released;
      request 2 arrives and inserts once request 1 has looked for the row. */
  function Slipped(k: Key, fingerprint: string, failure: Response): seq<Step> {
    [Arrive(0, k, fingerprint), Insert(0), Arrive(1, k, fingerprint)] +
    ([Insert(1), Answer(0, failure), Settle(0)] +
     ([Select(1), Arrive(2, k, fingerprint), Insert(2)] + []))
  }

  lemma SlippedHalfway(k: Key, fingerprint: string, failure: Response)
    requires !Success(failure)
    ensures var s := Next(Next(Next(INIT, Arrive(0, k, fingerprint)), Insert(0)), Arrive(1, k, fingerprint));
            var s' := Next(Next(Next(s, Insert(1)), Answer(0, failure)), Settle(0));
            k !in s'.table && 2 !in s'.requests &&
            1 in s'.requests && s'.requests[1] == Request(k, fingerprint, Lost(0))
  {
  }

  /** The INSERT and the SELECT are not one claim: when a failed run's release falls
      between them, the request that lost runs its handler unclaimed, next to a later
      one that claims the key, and no statement has failed. */
  lemma ReleaseLetsTwoRun(k: Key, fingerprint: string, failure: Response)
    requires !Success(failure)
    ensures var s := Run(INIT, Slipped(k, fingerprint, failure));
            && 1 in s.requests && s.requests[1] == Request(k, fingerprint, Unguarded)
            && Holds(s, 2, k)
    ensures forall step :: step in Slipped(k, fingerprint, failure) ==> !IsError(step)
  {
    hide Next, Run, Holds, Success;
    var last := [Select(1), Arrive(2, k, fingerprint), Insert(2)];
    var s := Next(Next(Next(INIT, Arrive(0, k, fingerprint)), Insert(0)), Arrive(1, k, fingerprint));
    var s' := Next(Next(Next(s, Insert(1)), Answer(0, failure)), Settle(0));
    SlippedHalfway(k, fingerprint, failure);
    SlippedEnds(s', k, fingerprint);
    RunThree(INIT, Arrive(0, k, fingerprint), Insert(0), Arrive(1, k, fingerprint),
             [Insert(1), Answer(0, failure), Settle(0)] + (last + []));
    RunThree(s, Insert(1), Answer(0, failure), Settle(0), last + []);
    RunThree(s', Select(1), Arrive(2, k, fingerprint), Insert(2), []);
    RunNone(Next(Next(Next(s', Select(1)), Arrive(2, k, fingerprint)), Insert(2)));
  }

  lemma RunNone(s: State)
    ensures Run(s, []) == s
  {
  }

  lemma SlippedEnds(s: State, k: Key, fingerprint: string)
    requires k !in s.table && 1 in s.requests && s.requests[1] == Request(k, fingerprint, Lost(0)) && 2 !in s.requests
    ensures var s' := Next(Next(Next(s, Select(1)), Arrive(2, k, fingerprint)), Insert(2));
            1 in s'.requests && s'.requests[1] == Request(k, fingerprint, Unguarded) && Holds(s', 2, k)
  {
  }

  /** A request answered from a completed row, with nothing in between its steps. */
  lemma RepeatIsReplayed(s: State, id: nat, k: Key, fingerprint: string, handler: Response)
    requires id !in s.requests && k in s.table && s.table[k].fingerprint == fingerprint && s.table[k].response.Some?
    ensures var s' := Run(s, Alone(id, k, fingerprint, handler));
            id in s'.requests && s'.requests[id].phase == Done(Replay(s.table[k].response.value))
  {
    hide Run;
    AloneIsServe(s, id, k, fingerprint, handler);
  }

  /** From any reachable state: a first request for a free key whose handler wrote this
      status last and these bytes, all valid JSON, then anything at all by others, then
      a repeat with the same body. The repeat is given that status and those bytes. */
  lemma RetryGetsTheAnswer(before: seq<Step>, first: nat, between: seq<Step>, retry: nat, k: Key, fingerprint: string,
                           calls: seq<Call>, valid: string -> bool, other: Response)
    requires var s := Run(INIT, before); k !in s.table && first !in s.requests
    requires 200 <= RecordedStatus(calls) <= 299 && valid(RecordedBytes(calls))
    requires var s1 := Run(Run(INIT, before), Alone(first, k, fingerprint, Recorded(calls, valid)));
             retry !in Run(s1, between).requests
    ensures var s1 := Run(Run(INIT, before), Alone(first, k, fingerprint, Recorded(calls, valid)));
            var s2 := Run(Run(s1, between), Alone(retry, k, fingerprint, other));
            && retry in s2.requests
            && s2.requests[retry].phase ==
                 Done(Replay(Response(RecordedStatus(calls), Json(RecordedBytes(calls)))))
  {
    var s, answer := Run(INIT, before), Recorded(calls, valid);
    AloneIsServe(s, first, k, fingerprint, answer);
    var s1 := Run(s, Alone(first, k, fingerprint, answer));
    RunKeepsInv(INIT, before);
    RunKeepsInv(s, Alone(first, k, fingerprint, answer));
    assert s1.table[k] == Row(first, fingerprint, Some(Response(RecordedStatus(calls), Json(RecordedBytes(calls)))));
    hide Run, Inv;
    CompletedIsSettled(s1, k);
    SettledRowsAreFinal(s1, between, k);
    RepeatIsReplayed(Run(s1, between), retry, k, fingerprint, other);
  }
}
