/** Sign-in lockout: the three statements on a user's counter and lock, and what they
    allow when sign-ins overlap. */
module Lockout {
  import opened Wrappers

  datatype Account = Account(failed: nat, lockedUntil: Option<int>)

  const FRESH_ACCOUNT := Account(0, None)

  function ReadLock(a: Account, now: int): Account {
    if a.lockedUntil.Some? && a.lockedUntil.value <= now then Account(0, None) else a
  }

  predicate Locked(a: Account, now: int) {
    a.lockedUntil.Some? && a.lockedUntil.value > now
  }

  function EffectiveLimit(limit: int): nat {
    if limit <= 0 then 5 else limit
  }

  function RecordFailure(a: Account, now: int, limit: int, window: int): Account {
    Account(a.failed + 1, if a.failed + 1 >= EffectiveLimit(limit) then Some(now + window) else a.lockedUntil)
  }

  /** One row of the users table. */
  class AccountRow {
    var account: Account

    constructor ()
      ensures account == FRESH_ACCOUNT
    {
      account := FRESH_ACCOUNT;
    }

    method LockState(now: int) returns (locked: bool)
      modifies this
      ensures locked <==> Locked(old(account), now)
      ensures locked <==> old(account).lockedUntil.Some? && now < old(account).lockedUntil.value
      ensures locked ==> account == old(account)
      ensures !locked && old(account).lockedUntil.Some? ==> account == FRESH_ACCOUNT
      ensures !locked && old(account).lockedUntil.None? ==> account == old(account)
      ensures account == ReadLock(old(account), now)
    {
      if account.lockedUntil.Some? && account.lockedUntil.value <= now {
        account := Account(0, None);
      }
      locked := account.lockedUntil.Some? && account.lockedUntil.value > now;
    }

    method RecordFailedAttempt(now: int, limit: int, window: int)
      modifies this
      ensures account.failed == old(account).failed + 1
      ensures account.lockedUntil ==
                if account.failed >= (if limit <= 0 then 5 else limit) then Some(now + window)
                else old(account).lockedUntil
      ensures account == RecordFailure(old(account), now, limit, window)
    {
      var effective := if limit <= 0 then 5 else limit;
      account := Account(account.failed + 1,
                         if account.failed + 1 >= effective then Some(now + window) else account.lockedUntil);
    }

    method ClearFailedAttempts()
      modifies this
      ensures account == FRESH_ACCOUNT
    {
      account := Account(0, None);
    }
  }

  // --------------------------------------------- the lock mirrors the counter

  datatype Statement = Read(now: int) | Failure(now: int) | Clear

  function Apply(a: Account, s: Statement, limit: int, window: int): Account {
    match s
    case Read(now) => ReadLock(a, now)
    case Failure(now) => RecordFailure(a, now, limit, window)
    case Clear => FRESH_ACCOUNT
  }

  function ApplyAll(a: Account, statements: seq<Statement>, limit: int, window: int): Account
    decreases |statements|
  {
    if statements == [] then a else ApplyAll(Apply(a, statements[0], limit, window), statements[1..], limit, window)
  }

  predicate LockMirrorsCounter(a: Account, limit: int) {
    a.lockedUntil.Some? <==> a.failed >= EffectiveLimit(limit)
  }

  lemma {:induction false} MirrorKept(a: Account, statements: seq<Statement>, limit: int, window: int)
    requires LockMirrorsCounter(a, limit)
    ensures LockMirrorsCounter(ApplyAll(a, statements, limit, window), limit)
    decreases |statements|
  {
    if statements != [] {
      MirrorKept(Apply(a, statements[0], limit, window), statements[1..], limit, window);
    }
  }

  /** With one limit, under every interleaving of the three statements at any times,
      locked_until is set exactly when failed_attempts has reached the limit. */
  lemma LockedExactlyAtLimit(statements: seq<Statement>, limit: int, window: int)
    ensures var a := ApplyAll(FRESH_ACCOUNT, statements, limit, window);
            a.lockedUntil.Some? <==> a.failed >= if limit <= 0 then 5 else limit
  {
    MirrorKept(FRESH_ACCOUNT, statements, limit, window);
  }

  // ------------------------------------------------------ overlapping sign-ins

  /** A sign-in reads the lock, checks the password, and records a failure; these are
      separate statements. `inflight` sign-ins are past the lock; `checks` counts the
      ones let past it, `recorded` the failures written, `lost` those never written
      because the process died or the statement failed. */
  datatype Attempts = Attempts(account: Account, inflight: nat, checks: nat, recorded: nat, lost: nat)

  datatype Step = Enter(now: int) | Fail(now: int) | Lose

  /** `width` bounds how many sign-ins may be past the lock at once. */
  function Next(s: Attempts, step: Step, limit: int, window: int, width: nat): Attempts {
    match step
    case Enter(now) =>
      if s.inflight >= width then s
      else
        var entered := s.(account := ReadLock(s.account, now));
        if Locked(s.account, now) then entered
        else entered.(inflight := s.inflight + 1, checks := s.checks + 1)
    case Fail(now) =>
      if s.inflight == 0 then s
      else s.(account := RecordFailure(s.account, now, limit, window), inflight := s.inflight - 1,
              recorded := s.recorded + 1)
    case Lose =>
      if s.inflight == 0 then s else s.(inflight := s.inflight - 1, lost := s.lost + 1)
  }

  function Run(s: Attempts, steps: seq<Step>, limit: int, window: int, width: nat): Attempts
    decreases |steps|
  {
    if steps == [] then s else Run(Next(s, steps[0], limit, window, width), steps[1..], limit, window, width)
  }

  predicate Within(step: Step, from: int, to: int) {
    step.Lose? || from <= step.now <= to
  }

  /** Inside a span ending at `to`: unlocked, the recorded failures are still counted;
      locked beyond the span, no one else gets in; locked from before it, no one has. */
  predicate SpanInv(s: Attempts, limit: int, width: nat, to: int) {
    && LockMirrorsCounter(s.account, limit)
    && s.inflight <= width
    && s.checks <= EffectiveLimit(limit) + width - 1 + s.lost
    && s.checks <= s.recorded + s.lost + s.inflight
    && (s.account.lockedUntil.None? ==> s.recorded <= s.account.failed)
    && (s.account.lockedUntil.Some? && s.account.lockedUntil.value <= to ==> s.recorded == 0 && s.checks == 0)
  }

  lemma NextKeepsSpan(s: Attempts, step: Step, limit: int, window: int, width: nat, from: int, to: int)
    requires width >= 1 && to - from < window && Within(step, from, to)
    requires SpanInv(s, limit, width, to)
    ensures SpanInv(Next(s, step, limit, window, width), limit, width, to)
  {
  }

  lemma {:induction false} RunKeepsSpan(s: Attempts, steps: seq<Step>, limit: int, window: int, width: nat,
                                                from: int, to: int)
    requires width >= 1 && to - from < window && forall step :: step in steps ==> Within(step, from, to)
    requires SpanInv(s, limit, width, to)
    ensures SpanInv(Run(s, steps, limit, window, width), limit, width, to)
    decreases |steps|
  {
    if steps != [] {
      NextKeepsSpan(s, steps[0], limit, window, width, from, to);
      RunKeepsSpan(Next(s, steps[0], limit, window, width), steps[1..], limit, window, width, from, to);
    }
  }

  /** In any span shorter than the lockout window, from any account the statements can
      produce, at most limit + width - 1 wrong passwords are checked (one more for
      each failure that was never written), where width sign-ins may overlap. */
  lemma ChecksAreBounded(history: seq<Statement>, inflight: nat, steps: seq<Step>,
                         limit: int, window: int, width: nat, from: int, to: int)
    requires width >= 1 && inflight <= width && to - from < window
    requires forall step :: step in steps ==> Within(step, from, to)
    ensures var start := Attempts(ApplyAll(FRESH_ACCOUNT, history, limit, window), inflight, 0, 0, 0);
            var end := Run(start, steps, limit, window, width);
            end.checks <= (if limit <= 0 then 5 else limit) + width - 1 + end.lost
  {
    MirrorKept(FRESH_ACCOUNT, history, limit, window);
    RunKeepsSpan(Attempts(ApplyAll(FRESH_ACCOUNT, history, limit, window), inflight, 0, 0, 0),
                 steps, limit, window, width, from, to);
  }

  /** Run one at a time, with every failure written: at most `limit` checks. */
  lemma OneAtATime(history: seq<Statement>, steps: seq<Step>, limit: int, window: int, from: int, to: int)
    requires to - from < window
    requires forall step :: step in steps ==> Within(step, from, to)
    requires var start := Attempts(ApplyAll(FRESH_ACCOUNT, history, limit, window), 0, 0, 0, 0);
             Run(start, steps, limit, window, 1).lost == 0
    ensures var start := Attempts(ApplyAll(FRESH_ACCOUNT, history, limit, window), 0, 0, 0, 0);
            Run(start, steps, limit, window, 1).checks <= if limit <= 0 then 5 else limit
  {
    ChecksAreBounded(history, 0, steps, limit, window, 1, from, to);
  }

  function Failures(n: nat, now: int): seq<Step> {
    if n == 0 then [] else [Enter(now), Fail(now)] + Failures(n - 1, now)
  }

  function Entries(n: nat, now: int): seq<Step> {
    if n == 0 then [] else [Enter(now)] + Entries(n - 1, now)
  }

  lemma {:induction false} RunConcat(s: Attempts, a: seq<Step>, b: seq<Step>, limit: int, window: int, width: nat)
    ensures Run(s, a + b, limit, window, width) == Run(Run(s, a, limit, window, width), b, limit, window, width)
    decreases |a|
  {
    if a == [] {
      assert a + b == b;
    } else {
      assert (a + b)[1..] == a[1..] + b;
      RunConcat(Next(s, a[0], limit, window, width), a[1..], b, limit, window, width);
    }
  }

  lemma {:induction false} FailuresCount(s: Attempts, n: nat, now: int, limit: int, window: int, width: nat)
    requires width >= 1 && s.inflight == 0 && s.account.lockedUntil.None?
    requires s.account.failed + n < EffectiveLimit(limit)
    ensures Run(s, Failures(n, now), limit, window, width) ==
              Attempts(Account(s.account.failed + n, None), 0, s.checks + n, s.recorded + n, s.lost)
    decreases n
  {
    if n > 0 {
      var pair := [Enter(now), Fail(now)];
      RunConcat(s, pair, Failures(n - 1, now), limit, window, width);
      var entered := Next(s, Enter(now), limit, window, width);
      var failed := Next(entered, Fail(now), limit, window, width);
      assert pair[1..] == [Fail(now)] && [Fail(now)][1..] == [];
      assert Run(entered, [Fail(now)], limit, window, width) == failed;
      FailuresCount(failed, n - 1, now, limit, window, width);
    }
  }

  lemma {:induction false} EntriesCount(s: Attempts, n: nat, now: int, limit: int, window: int, width: nat)
    requires s.inflight + n <= width && s.account.lockedUntil.None?
    ensures Run(s, Entries(n, now), limit, window, width) ==
              s.(inflight := s.inflight + n, checks := s.checks + n)
    decreases n
  {
    if n > 0 {
      assert ([Enter(now)] + Entries(n - 1, now))[1..] == Entries(n - 1, now);
      EntriesCount(Next(s, Enter(now), limit, window, width), n - 1, now, limit, window, width);
    }
  }

  /** The bound is exact: some run within a single instant reaches it. */
  lemma BoundIsReached(limit: int, window: int, width: nat, now: int)
    requires width >= 1
    ensures var start := Attempts(FRESH_ACCOUNT, 0, 0, 0, 0);
            var steps := Failures(EffectiveLimit(limit) - 1, now) + Entries(width, now);
            Run(start, steps, limit, window, width).checks == (if limit <= 0 then 5 else limit) + width - 1
  {
    var start, n := Attempts(FRESH_ACCOUNT, 0, 0, 0, 0), EffectiveLimit(limit) - 1;
    RunConcat(start, Failures(n, now), Entries(width, now), limit, window, width);
    FailuresCount(start, n, now, limit, window, width);
    EntriesCount(Run(start, Failures(n, now), limit, window, width), width, now, limit, window, width);
  }
}
