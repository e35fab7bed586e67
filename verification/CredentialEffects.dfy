/** What calls of the credential flows do to codes, challenges, accounts and addresses,
    said of the columns, and what that means over runs. */
module CredentialEffects {
  import opened CredentialFlows
  import opened Wrappers
  import Challenges
  import Lockout
  import Sessions
  import SingleUse

  // ------------------------------------------------------------- recovery codes

  predicate UnusedIn(db: Db, user: string, code: string) {
    SingleUse.Code(user, code) in db.codes && !db.codes[SingleUse.Code(user, code)]
  }

  predicate UsedIn(db: Db, user: string, code: string) {
    SingleUse.Code(user, code) in db.codes && db.codes[SingleUse.Code(user, code)]
  }

  function UnusedCodes(db: Db, user: string): set<SingleUse.Code> {
    set code | code in db.codes && code.user == user && !db.codes[code]
  }

  /** The columns of a challenge a verification can answer. */
  predicate Answerable(db: Db, token: string, now: int) {
    && token in db.challenges
    && var row := db.challenges[token];
       !row.used && now <= row.expiresAt && row.attempts < 5 && row.user in db.users && db.users[row.user].secret.Some?
  }

  ghost predicate SameColumns(db: Db, after: Db) {
    after.codes == db.codes && after.challenges == db.challenges
  }

  /** Trusting a device and opening a session touch neither codes nor challenges. */
  lemma EnteringKeepsColumns(c: Config, passed: Db, trust: bool, m: Mint, user: string, factor: string, now: int)
    ensures var trusted := if trust then WithDevice(passed, m, user, now) else passed;
            && SameColumns(passed, trusted) && SameColumns(passed, WithSession(c, trusted, m, user, factor, now))
            && SameColumns(passed, WithoutDevice(trusted, user, m.device))
            && trusted.sessions == passed.sessions
  {
    hide Sessions.Inserted, Challenges.SessionFactor;
  }

  /** The codes and challenges of a verification of an open challenge. */
  lemma VerifyColumns(c: Config, db: Db, token: string, code: string, trust: bool, now: int, m: Mint, r: Result,
                      after: Db)
    requires Verifies(c, db, token, code, trust, now, m, r, after) && Open(db, token, now)
    ensures var row := db.challenges[token];
            var user, secret := row.user, db.users[row.user].secret.value;
            var spent := if !c.totp(secret, code, now) && UnusedIn(db, user, code)
                         then db.codes[SingleUse.Code(user, code) := true] else db.codes;
            var known := c.totp(secret, code, now) || UnusedIn(db, user, code);
            if r.CodeInvalid? then
              !known && after.codes == db.codes &&
              after.challenges == db.challenges[token := row.(attempts := row.attempts + 1)]
            else if r.SignedIn? then
              known && r.user == user && after.codes == spent &&
              after.challenges == db.challenges[token := row.(used := true)]
            else
              (after.codes == db.codes || after.codes == spent) &&
              (after.challenges == db.challenges || after.challenges == db.challenges[token := row.(used := true)])
  {
    hide WithDevice, WithSession, WithoutDevice;
    var row := db.challenges[token];
    var spent := Spent(c, db, row.user, db.users[row.user].secret.value, code, now);
    EnteringKeepsColumns(c, Consumed(spent, token), trust, m, row.user, row.factor, now);
  }

  /** A verification that signs in has found an unused challenge, in time, with fewer
      than five wrong codes, of a user with TOTP on; and a code the authenticator vouches
      for, or else an unused recovery code, which is used from then on. */
  lemma VerifiedSignIn(c: Config, db: Db, token: string, code: string, trust: bool, now: int, m: Mint, user: string,
                       session: string, after: Db)
    requires Happens(c, db, Verify(token, code, trust, now, m), SignedIn(user, session), after)
    ensures Answerable(db, token, now) && db.challenges[token].user == user
    ensures var secret := db.users[user].secret.value;
            if c.totp(secret, code, now) then after.codes == db.codes
            else UnusedIn(db, user, code) && after.codes == db.codes[SingleUse.Code(user, code) := true]
    ensures token in after.challenges && after.challenges[token].used
  {
    VerifyColumns(c, db, token, code, trust, now, m, SignedIn(user, session), after);
    hide WithDevice, WithSession, WithoutDevice, Spent, Accepts;
  }

  /** Up to the session of a verification that signs in, no session is touched. */
  lemma VerifiedEnters(c: Config, db: Db, token: string, code: string, trust: bool, now: int, m: Mint, user: string,
                       session: string, after: Db) returns (trusted: Db)
    requires Happens(c, db, Verify(token, code, trust, now, m), SignedIn(user, session), after)
    ensures session == m.token && session !in db.sessions && token in db.challenges
    ensures user == db.challenges[token].user
    ensures after == WithSession(c, trusted, m, user, db.challenges[token].factor, now)
    ensures trusted.sessions == db.sessions
  {
    hide WithDevice, WithSession, WithoutDevice, Spent, Accepts, Consumed;
    var row := db.challenges[token];
    var spent := Spent(c, db, row.user, db.users[row.user].secret.value, code, now);
    var passed := Consumed(spent, token);
    trusted := if trust then WithDevice(passed, m, row.user, now) else passed;
    SpendingKeepsSessions(c, db, token, row.user, db.users[row.user].secret.value, code, now);
    EnteringKeepsColumns(c, passed, trust, m, row.user, row.factor, now);
  }

  lemma SpendingKeepsSessions(c: Config, db: Db, token: string, user: string, secret: string, code: string, now: int)
    ensures Consumed(Spent(c, db, user, secret, code, now), token).sessions == db.sessions
  {
    hide SingleUse.UnusedOf, SingleUse.UseCode;
  }

  /** The session it opens is the user's, for the configured lifetime, by the factor the
      challenge was issued for. */
  lemma VerifiedSession(c: Config, db: Db, token: string, code: string, trust: bool, now: int, m: Mint, user: string,
                        session: string, after: Db)
    requires Happens(c, db, Verify(token, code, trust, now, m), SignedIn(user, session), after)
    ensures session == m.token && session !in db.sessions && token in db.challenges
    ensures var factor := db.challenges[token].factor;
            var kept := factor == "password" || factor == "magic_link" || factor == "oauth";
            after.sessions == db.sessions[session :=
              Sessions.Session(m.id, user, if kept then factor else "password", now + c.lifetime, now, false)]
  {
    hide Happens, Challenges.SessionFactor;
    var trusted := VerifiedEnters(c, db, token, code, trust, now, m, user, session, after);
    FactorIs(db.challenges[token].factor);
  }

  lemma FactorIs(factor: string)
    ensures Challenges.SessionFactor(factor) ==
              if factor == "password" || factor == "magic_link" || factor == "oauth" then factor else "password"
  {
  }

  /** A wrong code is one neither the authenticator nor the unused codes know; it costs
      an attempt and changes nothing else. */
  lemma WrongCodeCosts(c: Config, db: Db, token: string, code: string, trust: bool, now: int, m: Mint, after: Db)
    requires Happens(c, db, Verify(token, code, trust, now, m), CodeInvalid, after)
    ensures token in db.challenges
    ensures var row := db.challenges[token];
            && !row.used && now <= row.expiresAt && row.attempts < 5
            && row.user in db.users && db.users[row.user].secret.Some?
            && !c.totp(db.users[row.user].secret.value, code, now) && !UnusedIn(db, row.user, code)
            && after == db.(challenges := db.challenges[token := row.(attempts := row.attempts + 1)])
  {
  }

  /** Why a verification is refused before its code is looked at. */
  lemma RefusalsAre(c: Config, db: Db, token: string, code: string, trust: bool, now: int, m: Mint, r: Result,
                    after: Db)
    requires Happens(c, db, Verify(token, code, trust, now, m), r, after) && !r.Failed?
    ensures r.TokenInvalid? <==> token !in db.challenges || db.challenges[token].used
    ensures !r.TokenInvalid? ==>
              var row := db.challenges[token];
              var intime := now <= row.expiresAt;
              && (r.TokenExpired? <==> !intime)
              && (r.AccountLocked? <==> intime && row.attempts >= 5)
              && (r.NotEnabled? <==> intime && row.attempts < 5 && db.users[row.user].secret.None?)
              && (intime && row.attempts < 5 ==> row.user in db.users)
    ensures r.TokenInvalid? || r.TokenExpired? || r.AccountLocked? || r.NotEnabled? ==> after == db
  {
    hide Accepts, Spent, WithSession, WithDevice, WithoutDevice;
  }

  lemma VerifyChangesCodes(c: Config, db: Db, token: string, code: string, trust: bool, now: int, m: Mint, r: Result,
                           after: Db)
    requires Verifies(c, db, token, code, trust, now, m, r, after)
    ensures || after.codes == db.codes
            || (token in db.challenges && UnusedIn(db, db.challenges[token].user, code) &&
                  after.codes == db.codes[SingleUse.Code(db.challenges[token].user, code) := true])
  {
    if Open(db, token, now) {
      VerifyColumns(c, db, token, code, trust, now, m, r, after);
    }
    hide WithDevice, WithSession, WithoutDevice, Spent, Accepts, Charged, Consumed;
  }

  lemma FinishKeepsCodes(c: Config, db: Db, user: string, factor: string, device: string, now: int, m: Mint, r: Result,
                         after: Db)
    requires Finishes(c, db, user, factor, device, now, m, r, after)
    ensures after.codes == db.codes
    ensures forall token :: token in db.challenges ==>
              token in after.challenges && after.challenges[token] == db.challenges[token]
  {
    hide Sessions.Inserted, Challenges.SessionFactor, Admitted;
  }

  ghost predicate KeepsBoth(db: Db, after: Db) {
    && after.codes == db.codes
    && forall token :: token in db.challenges ==>
         token in after.challenges && after.challenges[token] == db.challenges[token]
  }

  lemma SignInKeepsBoth(c: Config, db: Db, user: string, password: string, device: string, now: int, m: Mint, r: Result,
                        after: Db)
    requires user in db.users && SignsIn(c, db, user, password, device, now, m, r, after)
    ensures KeepsBoth(db, after)
  {
    hide Finishes, Lockout.ReadLock, Lockout.RecordFailure;
    var cleared := WithAccount(db, user, Lockout.FRESH_ACCOUNT);
    if Finishes(c, cleared, user, Challenges.PASSWORD, device, now, m, r, after) {
      FinishKeepsCodes(c, cleared, user, Challenges.PASSWORD, device, now, m, r, after);
    }
  }

  lemma LinkKeepsBoth(c: Config, db: Db, token: string, device: string, now: int, m: Mint, r: Result, after: Db)
    requires RedeemsLink(c, db, token, device, now, m, r, after)
    ensures KeepsBoth(db, after)
  {
    hide Finishes, SingleUse.Present, SingleUse.Burn, Emails;
    var k := SingleUse.TokenKey(SingleUse.MagicLink, token);
    var outcome := SingleUse.Present(db.tokens, k, now, Emails(db));
    if outcome.Redeemed? {
      var verified := WithVerified(Burnt(db, k), outcome.user);
      if Finishes(c, verified, outcome.user, Challenges.MAGIC_LINK, device, now, m, r, after) {
        FinishKeepsCodes(c, verified, outcome.user, Challenges.MAGIC_LINK, device, now, m, r, after);
      }
    }
  }

  lemma ResetKeepsBoth(db: Db, token: string, password: string, now: int, r: Result, after: Db)
    requires Resets(db, token, password, now, r, after)
    ensures KeepsBoth(db, after)
  {
    hide SingleUse.Present, SingleUse.Burn, Emails, Sessions.RevokedAll;
  }

  /** Calls other than verifications leave codes and existing challenges alone, but for
      the user whose TOTP is set up anew or removed. */
  lemma OthersKeep(c: Config, db: Db, call: Call, r: Result, after: Db)
    requires Happens(c, db, call, r, after) && !call.Verify?
    ensures !call.SetSecret? ==> after.codes == db.codes
    ensures forall token :: token in db.challenges ==>
              token in after.challenges && after.challenges[token] == db.challenges[token]
  {
    hide SignsIn, RedeemsLink, Finishes, Verifies, Resets;
    hide SingleUse.Present, SingleUse.Burn, Emails, SingleUse.Enrolled;
    hide Sessions.Next, Sessions.RevokedAll, Sessions.Inserted, Challenges.SessionFactor;
    match call
    case SignIn(found, password, device, now, m) =>
      if found.Some? && found.value in db.users {
        SignInKeepsBoth(c, db, found.value, password, device, now, m, r, after);
      }
    case RedeemLink(token, device, now, m) => LinkKeepsBoth(c, db, token, device, now, m, r, after);
    case OAuth(user, device, now, m) => FinishKeepsCodes(c, db, user, Challenges.OAUTH, device, now, m, r, after);
    case Reset(token, password, now) => ResetKeepsBoth(db, token, password, now, r, after);
    case _ =>
  }

  lemma SetSecretKeepsOthers(c: Config, db: Db, call: Call, r: Result, after: Db, user: string)
    requires Happens(c, db, call, r, after) && call.SetSecret? && call.user != user
    ensures forall code: SingleUse.Code :: code.user == user ==>
              (code in after.codes <==> code in db.codes) && (code in db.codes ==> after.codes[code] == db.codes[code])
  {
  }

  /** A verification redeems a recovery code of this user. */
  predicate Redeems(db: Db, call: Call, after: Db, user: string) {
    call.Verify? && UnusedIn(db, user, call.code) && UsedIn(after, user, call.code)
  }

  /** A user's codes are the same in both. */
  ghost predicate SameCodes(db: Db, after: Db, user: string) {
    forall code: SingleUse.Code :: code.user == user ==>
      (code in after.codes <==> code in db.codes) && (code in db.codes ==> after.codes[code] == db.codes[code])
  }

  lemma CodesOfUser(c: Config, db: Db, call: Call, r: Result, after: Db, user: string)
    requires Happens(c, db, call, r, after) && !(call.SetSecret? && call.user == user)
    ensures || SameCodes(db, after, user)
            || (call.Verify? && UnusedIn(db, user, call.code) &&
                  after.codes == db.codes[SingleUse.Code(user, call.code) := true])
  {
    if call.Verify? {
      VerifyChangesCodes(c, db, call.token, call.code, call.trust, call.now, call.mint, r, after);
      hide Happens;
    } else if call.SetSecret? {
      SetSecretKeepsOthers(c, db, call, r, after, user);
      hide Happens;
    } else {
      OthersKeep(c, db, call, r, after);
      hide Happens;
    }
  }

  lemma StepBalances(c: Config, db: Db, call: Call, r: Result, after: Db, user: string)
    requires Happens(c, db, call, r, after) && !(call.SetSecret? && call.user == user)
    ensures |UnusedCodes(db, user)| == |UnusedCodes(after, user)| + if Redeems(db, call, after, user) then 1 else 0
    ensures forall code :: UsedIn(db, user, code) ==> UsedIn(after, user, code)
  {
    CodesOfUser(c, db, call, r, after, user);
    hide Happens;
    if SameCodes(db, after, user) {
      SameUnused(db, after, user);
    } else {
      UsingOne(db, after, user, call.code);
    }
    hide UnusedCodes, SameCodes;
  }

  lemma SameUnused(db: Db, after: Db, user: string)
    requires SameCodes(db, after, user)
    ensures UnusedCodes(after, user) == UnusedCodes(db, user)
    ensures forall code :: UnusedIn(after, user, code) <==> UnusedIn(db, user, code)
    ensures forall code :: UsedIn(after, user, code) <==> UsedIn(db, user, code)
  {
  }

  lemma UsingOne(db: Db, after: Db, user: string, code: string)
    requires UnusedIn(db, user, code) && after.codes == db.codes[SingleUse.Code(user, code) := true]
    ensures |UnusedCodes(after, user)| == |UnusedCodes(db, user)| - 1
    ensures UsedIn(after, user, code)
    ensures forall other :: UsedIn(db, user, other) ==> UsedIn(after, user, other)
  {
    assert UnusedCodes(after, user) == UnusedCodes(db, user) - {SingleUse.Code(user, code)};
  }

  /** The verification signs this user in on a code its authenticator refuses. */
  predicate AcceptsCode(c: Config, db: Db, e: Event, user: string) {
    e.call.Verify? && e.result.SignedIn? && e.result.user == user &&
    user in db.users && db.users[user].secret.Some? && !c.totp(db.users[user].secret.value, e.call.code, e.call.now)
  }

  /** It spends a code of this user's and then fails. */
  predicate WastesCode(db: Db, e: Event, user: string) {
    e.result.Failed? && Redeems(db, e.call, e.after, user)
  }

  function Accepted(c: Config, db: Db, events: seq<Event>, user: string): nat
    decreases |events|
  {
    if events == [] then 0
    else (if AcceptsCode(c, db, events[0], user) then 1 else 0) + Accepted(c, events[0].after, events[1..], user)
  }

  function Wasted(db: Db, events: seq<Event>, user: string): nat
    decreases |events|
  {
    if events == [] then 0
    else (if WastesCode(db, events[0], user) then 1 else 0) + Wasted(events[0].after, events[1..], user)
  }

  lemma RedemptionsAre(c: Config, db: Db, e: Event, user: string)
    requires Happens(c, db, e.call, e.result, e.after)
    ensures Redeems(db, e.call, e.after, user) <==> AcceptsCode(c, db, e, user) || WastesCode(db, e, user)
    ensures !(AcceptsCode(c, db, e, user) && WastesCode(db, e, user))
  {
    if e.call.Verify? && e.result.SignedIn? {
      VerifiedSignIn(c, db, e.call.token, e.call.code, e.call.trust, e.call.now, e.call.mint, e.result.user,
                     e.result.session, e.after);
    }
    hide WithSession, WithDevice, WithoutDevice;
  }

  predicate SetsSecret(call: Call, user: string) {
    call.SetSecret? && call.user == user
  }

  /** Over any run in which the user's TOTP is not set up anew or removed, recovery codes
      accepted, codes spent by verifications that then failed, and codes still unused add
      up to the codes unused at the start. */
  lemma {:induction false} AcceptedAndUnusedAddUp(c: Config, db: Db, events: seq<Event>, user: string)
    requires Run(c, db, events) && forall e :: e in events ==> !SetsSecret(e.call, user)
    ensures Accepted(c, db, events, user) + Wasted(db, events, user) + |UnusedCodes(End(db, events), user)| ==
              |UnusedCodes(db, user)|
    decreases |events|
  {
    hide Happens, UnusedCodes, AcceptsCode, WastesCode, Redeems;
    if events != [] {
      var e := events[0];
      assert e in events;
      StepBalances(c, db, e.call, e.result, e.after, user);
      RedemptionsAre(c, db, e, user);
      AcceptedAndUnusedAddUp(c, e.after, events[1..], user);
      assert End(e.after, events[1..]) == End(db, events);
    }
  }

  lemma {:induction false} UsedCodesStay(c: Config, db: Db, events: seq<Event>, user: string, code: string)
    requires Run(c, db, events) && forall e :: e in events ==> !SetsSecret(e.call, user)
    requires UsedIn(db, user, code)
    ensures UsedIn(End(db, events), user, code)
    decreases |events|
  {
    hide Happens, UsedIn;
    if events != [] {
      var e := events[0];
      assert e in events;
      StepBalances(c, db, e.call, e.result, e.after, user);
      UsedCodesStay(c, e.after, events[1..], user, code);
      assert End(e.after, events[1..]) == End(db, events);
    }
  }

  /** A recovery code that signed someone in never does so again, until its user's TOTP
      is set up anew: after any later run only the authenticator can still accept it. */
  lemma CodeEntersOnce(c: Config, db: Db, first: Event, events: seq<Event>, last: Event, user: string)
    requires Happens(c, db, first.call, first.result, first.after) && AcceptsCode(c, db, first, user)
    requires Run(c, first.after, events) && forall e :: e in events ==> !SetsSecret(e.call, user)
    requires var later := End(first.after, events); Happens(c, later, last.call, last.result, last.after)
    requires last.call.Verify? && last.call.code == first.call.code
    ensures !AcceptsCode(c, End(first.after, events), last, user)
  {
    var later := End(first.after, events);
    RedemptionsAre(c, db, first, user);
    UsedCodesStay(c, first.after, events, user, first.call.code);
    RedemptionsAre(c, later, last, user);
  }

  // ----------------------------------------------------------------- challenges

  lemma VerifySteps(c: Config, db: Db, asked: string, code: string, trust: bool, now: int, m: Mint, r: Result,
                    after: Db, token: string)
    requires Verifies(c, db, asked, code, trust, now, m, r, after) && token in db.challenges
    ensures token in after.challenges
    ensures var row, row' := db.challenges[token], after.challenges[token];
            if asked != token then row' == row
            else if r.CodeInvalid? then row' == row.(attempts := row.attempts + 1) && row.attempts < 5
            else if r.SignedIn? then row' == row.(used := true) && !row.used
            else row' == row || row' == row.(used := true)
  {
    if Open(db, asked, now) {
      VerifyColumns(c, db, asked, code, trust, now, m, r, after);
    }
    hide WithDevice, WithSession, WithoutDevice, Spent, Accepts, Charged, Consumed;
  }

  /** What one call does to a challenge that exists. */
  lemma ChallengeSteps(c: Config, db: Db, call: Call, r: Result, after: Db, token: string)
    requires Happens(c, db, call, r, after) && token in db.challenges
    ensures token in after.challenges
    ensures var row, row' := db.challenges[token], after.challenges[token];
            && row'.user == row.user && row'.factor == row.factor && row'.expiresAt == row.expiresAt
            && (row.used ==> row'.used)
            && if call.Verify? && call.token == token && r.CodeInvalid?
               then row'.attempts == row.attempts + 1 && row.attempts < 5
               else row'.attempts == row.attempts
    ensures call.Verify? && call.token == token && r.SignedIn? ==>
              !db.challenges[token].used && after.challenges[token].used
  {
    if call.Verify? {
      VerifySteps(c, db, call.token, call.code, call.trust, call.now, call.mint, r, after, token);
      hide Happens;
    } else {
      OthersKeep(c, db, call, r, after);
      hide Happens;
    }
  }

  predicate Answers(e: Event, token: string) {
    e.call.Verify? && e.call.token == token
  }

  function WrongCodes(events: seq<Event>, token: string): nat {
    if events == [] then 0
    else (if Answers(events[0], token) && events[0].result.CodeInvalid? then 1 else 0) + WrongCodes(events[1..], token)
  }

  function SignIns(events: seq<Event>, token: string): nat {
    if events == [] then 0
    else (if Answers(events[0], token) && events[0].result.SignedIn? then 1 else 0) + SignIns(events[1..], token)
  }

  /** In every run of flows one challenge is answered with a wrong code at most as often
      as five leaves room for, each time counted, and signs someone in at most once. */
  lemma {:induction false} ChallengeIsSpent(c: Config, db: Db, events: seq<Event>, token: string)
    requires Run(c, db, events) && token in db.challenges
    ensures var row, end := db.challenges[token], End(db, events);
            && token in end.challenges
            && end.challenges[token].attempts == row.attempts + WrongCodes(events, token)
            && (row.attempts <= 5 ==> row.attempts + WrongCodes(events, token) <= 5)
            && (row.used ==> end.challenges[token].used)
            && SignIns(events, token) <= (if row.used then 0 else 1)
            && (SignIns(events, token) == 1 ==> end.challenges[token].used)
    decreases |events|
  {
    hide Happens;
    if events != [] {
      var e := events[0];
      ChallengeSteps(c, db, e.call, e.result, e.after, token);
      ChallengeIsSpent(c, e.after, events[1..], token);
      assert End(e.after, events[1..]) == End(db, events);
    }
  }

  // ------------------------------------------------------------------- sign-ins

  predicate Trusted(db: Db, user: string, device: string, now: int) {
    && device != "" && device in db.devices
    && db.devices[device].user == user && !db.devices[device].revoked && now < db.devices[device].expiresAt
  }

  predicate InForce(a: Lockout.Account, now: int) {
    a.lockedUntil.Some? && now < a.lockedUntil.value
  }

  /** A locked account is refused whatever the password, and nothing changes. */
  lemma LockedIsRefused(c: Config, db: Db, user: string, password: string, device: string, now: int, m: Mint, r: Result,
                        after: Db)
    requires Happens(c, db, SignIn(Some(user), password, device, now, m), r, after)
    requires user in db.users && InForce(db.users[user].account, now)
    ensures after == db && (r.AccountLocked? || r.Failed?)
  {
  }

  /** A wrong password counts one failure, from nothing if a lock has just passed, locks
      for the window from the limit on (five if none is set), and changes nothing else. */
  lemma WrongPasswordCounts(c: Config, db: Db, user: string, password: string, device: string, now: int, m: Mint,
                            r: Result, after: Db)
    requires Happens(c, db, SignIn(Some(user), password, device, now, m), r, after)
    requires user in db.users && !InForce(db.users[user].account, now) && db.users[user].password != password
    ensures r.InvalidCredentials? || r.Failed?
    ensures r.InvalidCredentials? ==>
              var a, limit := db.users[user].account, if c.limit <= 0 then 5 else c.limit;
              var failed := (if a.lockedUntil.Some? then 0 else a.failed) + 1;
              after == db.(users := db.users[user := db.users[user].(account := Lockout.Account(failed,
                             if failed >= limit then Some(now + c.window) else None))])
  {
  }

  /** A right password on an account not locked gives a session exactly when TOTP is off
      or the device is trusted, and a challenge exactly otherwise; both carry "password",
      the challenge for five minutes, and the failures are forgotten. */
  lemma RightPasswordEnters(c: Config, db: Db, user: string, device: string, now: int, m: Mint)
    requires user in db.users && !InForce(db.users[user].account, now)
    requires m.token !in db.sessions && m.token !in db.challenges
    ensures var call := SignIn(Some(user), db.users[user].password, device, now, m);
            && ((exists after :: Happens(c, db, call, SignedIn(user, m.token), after)) <==>
                  db.users[user].secret.None? || Trusted(db, user, device, now))
            && ((exists after :: Happens(c, db, call, Challenged(user, m.token), after)) <==>
                  db.users[user].secret.Some? && !Trusted(db, user, device, now))
            && (forall after :: Happens(c, db, call, SignedIn(user, m.token), after) ==>
                  after.users[user].account == Lockout.Account(0, None) &&
                  after.sessions == db.sessions[m.token :=
                    Sessions.Session(m.id, user, "password", now + c.lifetime, now, false)])
            && (forall after :: Happens(c, db, call, Challenged(user, m.token), after) ==>
                  after.users[user].account == Lockout.Account(0, None) && after.sessions == db.sessions &&
                  after.challenges == db.challenges[m.token :=
                    Challenges.Challenge(user, "password", 0, now + 300, false)])
  {
    var call := SignIn(Some(user), db.users[user].password, device, now, m);
    var cleared := db.(users := db.users[user := db.users[user].(account := Lockout.Account(0, None))]);
    var entered := WithSession(c, cleared, m, user, "password", now);
    var challenged := WithChallenge(cleared, m, user, "password", now);
    assert Admitted(cleared, user, device, now) <==> db.users[user].secret.None? || Trusted(db, user, device, now);
    if Admitted(cleared, user, device, now) {
      assert Happens(c, db, call, SignedIn(user, m.token), entered);
    } else {
      assert Happens(c, db, call, Challenged(user, m.token), challenged);
    }
  }

  /** A device trusted in the course of a verification is trusted for thirty days. */
  lemma TrustLastsThirtyDays(c: Config, db: Db, token: string, code: string, now: int, m: Mint, user: string,
                             session: string, after: Db)
    requires Happens(c, db, Verify(token, code, true, now, m), SignedIn(user, session), after)
    requires m.device !in db.devices
    ensures after.devices == db.devices[m.device := Device(user, now + 30 * 24 * 3600, false)]
  {
  }

  /** Only a live device of the user is untrusted; the others keep their rows, and from
      then on a sign-in from it draws a challenge. */
  lemma UntrustedDevicesAreChallenged(c: Config, db: Db, user: string, device: string, after: Db, password: string,
                                      now: int, m: Mint, r: Result, later: Db)
    requires Happens(c, db, Untrust(user, device), Done(user), after)
    ensures device in db.devices && db.devices[device].user == user && !db.devices[device].revoked
    ensures after == db.(devices := db.devices[device := db.devices[device].(revoked := true)])
    ensures (user in db.users && db.users[user].secret.Some?
             && Happens(c, after, SignIn(Some(user), password, device, now, m), r, later)) ==> !r.SignedIn?
  {
  }

  // ------------------------------------------------------ passwords and addresses

  /** Passwords under twelve bytes are refused by every way of setting one, before any
      token is spent. */
  lemma ShortPasswordsAreRefused(c: Config, db: Db, token: string, user: string, keep: string, password: string,
                                 now: int, r: Result, after: Db)
    requires |password| < 12
    ensures Happens(c, db, Reset(token, password, now), r, after) ==> r.WeakPassword? && after == db
    ensures Happens(c, db, AdminReset(user, password), r, after) ==> r.WeakPassword? && after == db
    ensures user in db.users && Happens(c, db, Change(user, db.users[user].password, password, keep), r, after) ==>
              (r.WeakPassword? || r.Failed?) && after == db
  {
  }

  /** A confirmed address is marked verified, its token is spent, and nothing else of the
      user changes. */
  lemma ConfirmationVerifies(c: Config, db: Db, token: string, now: int, user: string, after: Db)
    requires Happens(c, db, ConfirmEmail(token, now), Done(user), after)
    ensures user in db.users && after.users == db.users[user := db.users[user].(verified := true)]
    ensures var k := SingleUse.TokenKey(SingleUse.Verification, token);
            && k in db.tokens && !db.tokens[k].used && now <= db.tokens[k].expiresAt && db.tokens[k].user == user
            && after.tokens == db.tokens[k := db.tokens[k].(used := true)]
  {
  }

  /** A confirmation or a magic link that does not match an unused row is invalid; a late
      one is expired and spent; a link for another address is invalid and spent. */
  lemma TokenRefusalsAre(c: Config, db: Db, kind: SingleUse.Kind, call: Call, r: Result, after: Db)
    requires Happens(c, db, call, r, after) && !r.Failed?
    requires (kind.Reset? && call.Reset? && |call.password| >= 12) || (kind.Verification? && call.ConfirmEmail?)
             || (kind.MagicLink? && call.RedeemLink?)
    ensures var k := SingleUse.TokenKey(kind, call.token);
            var found := k in db.tokens && !db.tokens[k].used && (kind.MagicLink? ==> db.tokens[k].user in db.users);
            var stale := kind.MagicLink? && found && db.users[db.tokens[k].user].email != db.tokens[k].email;
            && (r.TokenInvalid? <==> !found || (call.now <= db.tokens[k].expiresAt && stale))
            && (r.TokenExpired? <==> found && call.now > db.tokens[k].expiresAt)
            && (!found ==> after == db)
            && (found && (r.TokenInvalid? || r.TokenExpired?) ==>
                  after == db.(tokens := db.tokens[k := db.tokens[k].(used := true)]))
  {
  }

  /** A redeemed magic link marks the address verified, and is for the current one. */
  lemma LinkVerifies(c: Config, db: Db, token: string, device: string, now: int, m: Mint, r: Result, after: Db)
    requires Happens(c, db, RedeemLink(token, device, now, m), r, after) && (r.SignedIn? || r.Challenged?)
    ensures r.user in db.users && after.users == db.users[r.user := db.users[r.user].(verified := true)]
    ensures var k := SingleUse.TokenKey(SingleUse.MagicLink, token);
            && k in db.tokens && !db.tokens[k].used && now <= db.tokens[k].expiresAt && db.tokens[k].user == r.user
            && db.tokens[k].email == db.users[r.user].email
            && after.tokens == db.tokens[k := db.tokens[k].(used := true)]
    ensures r.SignedIn? ==> after.sessions[r.session].factor == "magic_link"
    ensures r.Challenged? ==>
              after.challenges[r.challenge] == Challenges.Challenge(r.user, "magic_link", 0, now + 300, false)
  {
  }
}
