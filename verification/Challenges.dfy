/** TOTP challenges: between a first factor and a session stands a challenge row that
    is loaded, charged for wrong codes and consumed in separate statements. */
module Challenges {

  const MAX_ATTEMPTS := 5

  // The auth_method column: the first factor of a sign-in.
  const PASSWORD := "password"
  const MAGIC_LINK := "magic_link"
  const OAUTH := "oauth"

  predicate KnownFactor(factor: string) {
    factor == PASSWORD || factor == MAGIC_LINK || factor == OAUTH
  }

  /** CreateSessionWithMethod stores an unknown method as a password sign-in. */
  function SessionFactor(factor: string): string {
    if KnownFactor(factor) then factor else PASSWORD
  }

  datatype Challenge = Challenge(user: string, factor: string, attempts: nat, expiresAt: int, used: bool)

  function Charged(c: Challenge): Challenge { c.(attempts := c.attempts + 1) }

  function Consumed(c: Challenge): Challenge { c.(used := true) }

  datatype Loaded = Found(user: string, attempts: nat, factor: string) | Invalid | Expired

  /** Tokens stand for their hashes. */
  class ChallengeTable {
    var rows: map<string, Challenge>

    constructor ()
      ensures rows == map[]
    {
      rows := map[];
    }

    method Insert(token: string, user: string, factor: string, expiresAt: int) returns (ok: bool)
      modifies this
      ensures ok <==> token !in old(rows)
      ensures rows == if ok then old(rows)[token := Challenge(user, factor, 0, expiresAt, false)] else old(rows)
    {
      ok := token !in rows;
      if ok {
        rows := rows[token := Challenge(user, factor, 0, expiresAt, false)];
      }
    }

    method Load(token: string, now: int) returns (r: Loaded)
      ensures r.Found? <==> token in rows && !rows[token].used && now <= rows[token].expiresAt
      ensures r.Found? ==> r == Found(rows[token].user, rows[token].attempts, rows[token].factor)
      ensures r.Expired? <==> token in rows && !rows[token].used && now > rows[token].expiresAt
    {
      if token !in rows || rows[token].used {
        return Invalid;
      }
      var c := rows[token];
      r := if now > c.expiresAt then Expired else Found(c.user, c.attempts, c.factor);
    }

    method RecordAttempt(token: string)
      modifies this
      ensures rows == if token in old(rows) then old(rows)[token := Charged(old(rows)[token])] else old(rows)
    {
      if token in rows {
        rows := rows[token := rows[token].(attempts := rows[token].attempts + 1)];
      }
    }

    method Consume(token: string)
      modifies this
      ensures rows == if token in old(rows) then old(rows)[token := Consumed(old(rows)[token])] else old(rows)
    {
      if token in rows {
        rows := rows[token := rows[token].(used := true)];
      }
    }
  }

  // ---------------------------------------------------- overlapping verifications

  datatype Session = Session(user: string, factor: string)

  /** One challenge. `loaded` verifications have passed the load and the attempt
      limit; `passed` have consumed the challenge and not yet issued their session;
      `wrong` counts codes found wrong, `lost` those whose attempt was never written. */
  datatype State = State(row: Challenge, loaded: nat, passed: nat, wrong: nat, lost: nat, sessions: seq<Session>)

  datatype Step =
    | Load(now: int)
    | Wrong          // code wrong, attempt recorded
    | WrongLost      // code wrong, attempt not recorded
    | Right          // code or recovery code accepted, challenge consumed
    | Drop           // a verification that fails or dies before either
    | Issue          // session inserted
    | IssueFailed

  /** `width` bounds how many verifications of the challenge may overlap. */
  function Next(s: State, step: Step, width: nat): State {
    match step
    case Load(now) =>
      if s.loaded + s.passed < width && !s.row.used && now <= s.row.expiresAt && s.row.attempts < MAX_ATTEMPTS
      then s.(loaded := s.loaded + 1) else s
    case Wrong =>
      if s.loaded == 0 then s else s.(row := Charged(s.row), loaded := s.loaded - 1, wrong := s.wrong + 1)
    case WrongLost =>
      if s.loaded == 0 then s else s.(loaded := s.loaded - 1, wrong := s.wrong + 1, lost := s.lost + 1)
    case Right =>
      if s.loaded == 0 then s else s.(row := Consumed(s.row), loaded := s.loaded - 1, passed := s.passed + 1)
    case Drop => if s.loaded == 0 then s else s.(loaded := s.loaded - 1)
    case Issue =>
      if s.passed == 0 then s
      else s.(passed := s.passed - 1, sessions := s.sessions + [Session(s.row.user, SessionFactor(s.row.factor))])
    case IssueFailed => if s.passed == 0 then s else s.(passed := s.passed - 1)
  }

  function Run(s: State, steps: seq<Step>, width: nat): State
    decreases |steps|
  {
    if steps == [] then s else Run(Next(s, steps[0], width), steps[1..], width)
  }

  function Issued(user: string, factor: string, expiresAt: int): State {
    State(Challenge(user, factor, 0, expiresAt, false), 0, 0, 0, 0, [])
  }

  ghost predicate Inv(s: State, user: string, factor: string, width: nat) {
    && s.row.user == user && s.row.factor == factor
    && s.wrong == s.row.attempts + s.lost
    && s.row.attempts + s.loaded <= MAX_ATTEMPTS - 1 + width
    && (!s.row.used ==> s.passed == 0 && s.sessions == [] && s.loaded <= width)
    && (s.row.used ==> s.loaded + s.passed + |s.sessions| <= width)
    && (forall i :: 0 <= i < |s.sessions| ==> s.sessions[i] == Session(user, SessionFactor(factor)))
  }

  lemma {:induction false} RunKeepsInv(s: State, steps: seq<Step>, user: string, factor: string, width: nat)
    requires width >= 1 && Inv(s, user, factor, width)
    ensures Inv(Run(s, steps, width), user, factor, width)
    decreases |steps|
  {
    if steps != [] {
      assert Inv(Next(s, steps[0], width), user, factor, width);
      RunKeepsInv(Next(s, steps[0], width), steps[1..], user, factor, width);
    }
  }

  /** With at most `width` overlapping verifications, one challenge checks at most
      width + 4 wrong codes (one more for each attempt that was never written) and
      yields at most `width` sessions, all of the challenged user and carrying the
      method of the first factor that issued it. */
  lemma ChallengeIsBounded(user: string, factor: string, expiresAt: int, steps: seq<Step>, width: nat)
    requires width >= 1
    ensures var s := Run(Issued(user, factor, expiresAt), steps, width);
            && s.wrong <= 4 + width + s.lost
            && |s.sessions| <= width
            && (forall i :: 0 <= i < |s.sessions| ==>
                  s.sessions[i].user == user && (KnownFactor(factor) ==> s.sessions[i].factor == factor))
  {
    RunKeepsInv(Issued(user, factor, expiresAt), steps, user, factor, width);
  }

  /** One verification at a time, every attempt written: at most five wrong codes and
      at most one session, after which nothing more is admitted. */
  lemma OneAtATime(user: string, factor: string, expiresAt: int, steps: seq<Step>)
    requires Run(Issued(user, factor, expiresAt), steps, 1).lost == 0
    ensures var s := Run(Issued(user, factor, expiresAt), steps, 1);
            && s.wrong <= 5
            && |s.sessions| <= 1
            && (s.sessions != [] ==> s.row.used && s.loaded == 0 && s.passed == 0)
  {
    RunKeepsInv(Issued(user, factor, expiresAt), steps, user, factor, 1);
  }

  function Times(n: nat, steps: seq<Step>): seq<Step> {
    if n == 0 then [] else steps + Times(n - 1, steps)
  }

  lemma {:induction false} RunConcat(s: State, a: seq<Step>, b: seq<Step>, width: nat)
    ensures Run(s, a + b, width) == Run(Run(s, a, width), b, width)
    decreases |a|
  {
    if a == [] {
      assert a + b == b;
    } else {
      assert (a + b)[1..] == a[1..] + b;
      RunConcat(Next(s, a[0], width), a[1..], b, width);
    }
  }

  lemma {:induction false} Loads(s: State, n: nat, now: int, width: nat)
    requires s.loaded + s.passed + n <= width && !s.row.used && now <= s.row.expiresAt && s.row.attempts < MAX_ATTEMPTS
    ensures Run(s, Times(n, [Load(now)]), width) == s.(loaded := s.loaded + n)
    decreases n
  {
    if n > 0 {
      assert ([Load(now)] + Times(n - 1, [Load(now)]))[1..] == Times(n - 1, [Load(now)]);
      Loads(Next(s, Load(now), width), n - 1, now, width);
    }
  }

  lemma {:induction false} Passes(s: State, n: nat, width: nat)
    requires n <= s.loaded
    ensures var s' := Run(s, Times(n, [Right, Issue]), width);
            s'.loaded == s.loaded - n && |s'.sessions| == |s.sessions| + n && s'.passed == s.passed
    decreases n
  {
    if n > 0 {
      var pair := [Right, Issue];
      RunConcat(s, pair, Times(n - 1, pair), width);
      var s1 := Next(s, Right, width);
      var s2 := Next(s1, Issue, width);
      assert pair[1..] == [Issue] && [Issue][1..] == [];
      assert Run(s1, [Issue], width) == s2;
      Passes(s2, n - 1, width);
    }
  }

  /** The session bound is exact: `width` verifications that load before any of them
      consumes the challenge can each be given a session. */
  lemma SessionBoundIsReached(user: string, factor: string, expiresAt: int, now: int, width: nat)
    requires width >= 1 && now <= expiresAt
    ensures var steps := Times(width, [Load(now)]) + Times(width, [Right, Issue]);
            |Run(Issued(user, factor, expiresAt), steps, width).sessions| == width
  {
    var start := Issued(user, factor, expiresAt);
    RunConcat(start, Times(width, [Load(now)]), Times(width, [Right, Issue]), width);
    Loads(start, width, now, width);
    Passes(Run(start, Times(width, [Load(now)]), width), width, width);
  }

  lemma {:induction false} WrongCodes(s: State, n: nat, width: nat)
    requires n <= s.loaded
    ensures Run(s, Times(n, [Wrong]), width) ==
              s.(row := s.row.(attempts := s.row.attempts + n), loaded := s.loaded - n, wrong := s.wrong + n)
    decreases n
  {
    if n > 0 {
      assert ([Wrong] + Times(n - 1, [Wrong]))[1..] == Times(n - 1, [Wrong]);
      WrongCodes(Next(s, Wrong, width), n - 1, width);
    }
  }

  lemma {:induction false} Guesses(s: State, n: nat, now: int, width: nat)
    requires width >= 1 && s.loaded == 0 && s.passed == 0 && !s.row.used && now <= s.row.expiresAt
    requires s.row.attempts + n <= MAX_ATTEMPTS
    ensures Run(s, Times(n, [Load(now), Wrong]), width) ==
              s.(row := s.row.(attempts := s.row.attempts + n), wrong := s.wrong + n)
    decreases n
  {
    if n > 0 {
      var pair := [Load(now), Wrong];
      RunConcat(s, pair, Times(n - 1, pair), width);
      var s1 := Next(s, Load(now), width);
      var s2 := Next(s1, Wrong, width);
      assert pair[1..] == [Wrong] && [Wrong][1..] == [];
      assert Run(s1, [Wrong], width) == s2;
      Guesses(s2, n - 1, now, width);
    }
  }

  /** The bound on wrong codes is exact too: four guesses one at a time leave room for
      `width` verifications to load together, and each can check one more. */
  lemma WrongBoundIsReached(user: string, factor: string, expiresAt: int, now: int, width: nat)
    requires width >= 1 && now <= expiresAt
    ensures var steps := Times(MAX_ATTEMPTS - 1, [Load(now), Wrong]) +
                         (Times(width, [Load(now)]) + Times(width, [Wrong]));
            var s := Run(Issued(user, factor, expiresAt), steps, width);
            s.wrong == 4 + width && s.lost == 0
  {
    var start := Issued(user, factor, expiresAt);
    var first := Times(MAX_ATTEMPTS - 1, [Load(now), Wrong]);
    var loads, wrongs := Times(width, [Load(now)]), Times(width, [Wrong]);
    RunConcat(start, first, loads + wrongs, width);
    Guesses(start, MAX_ATTEMPTS - 1, now, width);
    var tried := Run(start, first, width);
    RunConcat(tried, loads, wrongs, width);
    Loads(tried, width, now, width);
    WrongCodes(Run(tried, loads, width), width, width);
  }
}
