/** What a reset, an administrator's reset, a password change and deprovisioning leave in
    the columns, and which password signs a user in afterwards. */
module PasswordChanges {
  import opened CredentialFlows
  import opened Wrappers
  import Challenges
  import Lockout
  import Sessions
  import SingleUse

  /** The user's sessions are revoked except a kept one; nobody else's change. */
  ghost predicate SessionsClosed(t: Sessions.Table, after: Sessions.Table, user: string, keepToken: string) {
    && (forall token :: token in after <==> token in t)
    && (forall token :: token in t ==>
          var kept := t[token].user != user || (keepToken != "" && token == keepToken);
          after[token] == t[token].(revoked := if kept then t[token].revoked else true))
  }

  ghost predicate DevicesDropped(t: map<string, Device>, after: map<string, Device>, user: string) {
    && (forall device :: device in after <==> device in t)
    && (forall device :: device in t ==>
          after[device] == t[device].(revoked := if t[device].user == user then true else t[device].revoked))
  }

  ghost predicate SessionsEnded(db: Db, after: Db, user: string, keepToken: string) {
    && SessionsClosed(db.sessions, after.sessions, user, keepToken)
    && DevicesDropped(db.devices, after.devices, user)
    && after.codes == db.codes && after.challenges == db.challenges
  }

  /** The new password, a clear lock, the token used, sessions and devices ended. */
  lemma ResetTakesEffect(c: Config, db: Db, token: string, password: string, now: int, user: string, after: Db)
    requires Happens(c, db, Reset(token, password, now), Done(user), after)
    ensures user in db.users && after.users ==
              db.users[user := db.users[user].(password := password, account := Lockout.Account(0, None))]
    ensures var k := SingleUse.TokenKey(SingleUse.Reset, token);
            && k in db.tokens && !db.tokens[k].used && now <= db.tokens[k].expiresAt && db.tokens[k].user == user
            && after.tokens == db.tokens[k := db.tokens[k].(used := true)]
    ensures SessionsEnded(db, after, user, "")
  {
  }

  lemma AdminResetTakesEffect(c: Config, db: Db, user: string, password: string, after: Db)
    requires Happens(c, db, AdminReset(user, password), Done(user), after)
    ensures user in db.users && after.users ==
              db.users[user := db.users[user].(password := password, account := Lockout.Account(0, None))]
    ensures after.tokens == db.tokens && SessionsEnded(db, after, user, "")
  {
  }

  /** A change keeps the lock as it is, and the kept token's session. */
  lemma ChangeTakesEffect(c: Config, db: Db, user: string, current: string, password: string, keepToken: string,
                          after: Db)
    requires Happens(c, db, Change(user, current, password, keepToken), Done(user), after)
    ensures user in db.users && db.users[user].password == current
    ensures after.users == db.users[user := db.users[user].(password := password)]
    ensures after.tokens == db.tokens && SessionsEnded(db, after, user, keepToken)
  {
  }

  lemma RevocationTakesEffect(c: Config, db: Db, user: string, after: Db)
    requires Happens(c, db, RevokeAll(user), Done(user), after)
    ensures after.users == db.users && after.tokens == db.tokens && SessionsEnded(db, after, user, "")
  {
  }

  // ------------------------------------------------------ passwords over whole runs

  /** The call is one that sets this user's password, should it get that far. */
  predicate SetsPassword(db: Db, call: Call, user: string) {
    match call
    case Reset(token, _, _) =>
      var k := SingleUse.TokenKey(SingleUse.Reset, token);
      k in db.tokens && db.tokens[k].user == user
    case AdminReset(who, _) => who == user
    case Change(who, _, _, _) => who == user
    case _ => false
  }

  ghost predicate NeverSet(db: Db, events: seq<Event>, user: string)
    decreases |events|
  {
    events == [] || (!SetsPassword(db, events[0].call, user) && NeverSet(events[0].after, events[1..], user))
  }

  ghost predicate KeepsPassword(db: Db, after: Db, user: string) {
    user in db.users ==> user in after.users && after.users[user].password == db.users[user].password
  }

  lemma ResetKeepsPassword(db: Db, token: string, password: string, now: int, r: Result, after: Db, user: string)
    requires Resets(db, token, password, now, r, after) && !SetsPassword(db, Reset(token, password, now), user)
    ensures KeepsPassword(db, after, user)
  {
    hide SingleUse.Burn, Emails, Sessions.RevokedAll;
  }

  lemma FinishKeepsPassword(c: Config, db: Db, who: string, factor: string, device: string, now: int, m: Mint,
                            r: Result, after: Db, user: string)
    requires Finishes(c, db, who, factor, device, now, m, r, after)
    ensures KeepsPassword(db, after, user)
  {
    hide Admitted, Sessions.Inserted;
  }

  lemma SignInKeepsPassword(c: Config, db: Db, call: Call, r: Result, after: Db, user: string)
    requires call.SignIn? && Happens(c, db, call, r, after)
    ensures KeepsPassword(db, after, user)
  {
    hide Finishes, Lockout.RecordFailure, Lockout.ReadLock;
    if call.found.Some? && call.found.value in db.users {
      var who := call.found.value;
      var cleared := WithAccount(db, who, Lockout.FRESH_ACCOUNT);
      assert KeepsPassword(db, cleared, user);
      if Resumes(c, db, who, call.device, call.now, call.mint, r, after) {
        FinishKeepsPassword(c, cleared, who, Challenges.PASSWORD, call.device, call.now, call.mint, r, after, user);
      }
    }
  }

  lemma LinkKeepsPassword(c: Config, db: Db, call: Call, r: Result, after: Db, user: string)
    requires call.RedeemLink? && Happens(c, db, call, r, after)
    ensures KeepsPassword(db, after, user)
  {
    hide Finishes, Emails, SingleUse.Burn;
    var k := SingleUse.TokenKey(SingleUse.MagicLink, call.token);
    var outcome := SingleUse.Present(db.tokens, k, call.now, Emails(db));
    if outcome.Redeemed? {
      var verified := WithVerified(Burnt(db, k), outcome.user);
      assert KeepsPassword(db, verified, user);
      if Finishes(c, verified, outcome.user, Challenges.MAGIC_LINK, call.device, call.now, call.mint, r, after) {
        FinishKeepsPassword(c, verified, outcome.user, Challenges.MAGIC_LINK, call.device, call.now, call.mint, r,
                            after, user);
      }
    }
  }

  lemma SpendingKeepsUsers(c: Config, db: Db, token: string, user: string, secret: string, code: string, now: int)
    ensures Spent(c, db, user, secret, code, now).users == db.users
    ensures Charged(db, token).users == db.users && Consumed(db, token).users == db.users
  {
    hide SingleUse.UnusedOf, SingleUse.UseCode;
  }

  lemma EnteringKeepsUsers(c: Config, passed: Db, trust: bool, m: Mint, user: string, factor: string, now: int)
    ensures var trusted := if trust then WithDevice(passed, m, user, now) else passed;
            && trusted.users == passed.users
            && WithSession(c, trusted, m, user, factor, now).users == passed.users
            && WithoutDevice(trusted, user, m.device).users == passed.users
  {
    hide Sessions.Inserted;
  }

  lemma VerifyKeepsUsers(c: Config, db: Db, call: Call, r: Result, after: Db)
    requires call.Verify? && Happens(c, db, call, r, after)
    ensures after.users == db.users
  {
    hide Accepts, Spent, Charged, Consumed, WithDevice, WithSession, WithoutDevice, Refusal;
    if Open(db, call.token, call.now) {
      var row := db.challenges[call.token];
      var secret := db.users[row.user].secret.value;
      var spent := Spent(c, db, row.user, secret, call.code, call.now);
      SpendingKeepsUsers(c, db, call.token, row.user, secret, call.code, call.now);
      SpendingKeepsUsers(c, spent, call.token, row.user, secret, call.code, call.now);
      EnteringKeepsUsers(c, Consumed(spent, call.token), call.trust, call.mint, row.user, row.factor, call.now);
    }
  }

  /** Every other call but a reset leaves alone the passwords it is not asked to set. */
  lemma OthersKeepPassword(c: Config, db: Db, call: Call, r: Result, after: Db, user: string)
    requires Happens(c, db, call, r, after) && !SetsPassword(db, call, user)
    requires !call.Reset? && !call.SignIn? && !call.RedeemLink? && !call.Verify? && !call.OAuth?
    ensures KeepsPassword(db, after, user)
  {
    hide SingleUse.Burn, SingleUse.Enrolled, SignsIn, Verifies, RedeemsLink, Resets, Finishes, Sessions.RevokedAll,
         Sessions.Next;
  }

  lemma StepKeepsPassword(c: Config, db: Db, call: Call, r: Result, after: Db, user: string)
    requires Happens(c, db, call, r, after) && !SetsPassword(db, call, user)
    ensures KeepsPassword(db, after, user)
  {
    hide SetsPassword, Resets, Finishes, SignsIn, Verifies, RedeemsLink;
    match call
    case Reset(token, password, now) => ResetKeepsPassword(db, token, password, now, r, after, user);
    case SignIn(_, _, _, _, _) => SignInKeepsPassword(c, db, call, r, after, user);
    case RedeemLink(_, _, _, _) => LinkKeepsPassword(c, db, call, r, after, user);
    case Verify(_, _, _, _, _) => VerifyKeepsUsers(c, db, call, r, after);
    case OAuth(who, device, now, m) =>
      FinishKeepsPassword(c, db, who, Challenges.OAUTH, device, now, m, r, after, user);
    case _ => OthersKeepPassword(c, db, call, r, after, user);
  }

  lemma {:induction false} PasswordStays(c: Config, db: Db, events: seq<Event>, user: string)
    requires Run(c, db, events) && NeverSet(db, events, user)
    ensures KeepsPassword(db, End(db, events), user)
    decreases |events|
  {
    hide Happens, SetsPassword;
    if events != [] {
      var e := events[0];
      StepKeepsPassword(c, db, e.call, e.result, e.after, user);
      PasswordStays(c, e.after, events[1..], user);
      assert End(e.after, events[1..]) == End(db, events);
    }
  }

  /** After a completed reset, administrator's reset or change, until the password is set
      again, the new password is never called wrong and every other one never gets past
      the first factor, whatever happens in between. */
  lemma NewPasswordDecides(c: Config, db: Db, first: Event, events: seq<Event>, user: string, attempt: string,
                           device: string, now: int, m: Mint, r: Result, after: Db)
    requires Happens(c, db, first.call, first.result, first.after) && first.result == Done(user)
    requires first.call.Reset? || first.call.AdminReset? || first.call.Change?
    requires Run(c, first.after, events) && NeverSet(first.after, events, user)
    requires Happens(c, End(first.after, events), SignIn(Some(user), attempt, device, now, m), r, after)
    ensures attempt == first.call.password ==> !r.InvalidCredentials?
    ensures attempt != first.call.password ==> !r.SignedIn? && !r.Challenged?
  {
    match first.call {
      case Reset(token, password, at) => ResetTakesEffect(c, db, token, password, at, user, first.after);
      case AdminReset(who, password) => AdminResetTakesEffect(c, db, user, password, first.after);
      case Change(who, current, password, keepToken) =>
        ChangeTakesEffect(c, db, user, current, password, keepToken, first.after);
    }
    PasswordStays(c, first.after, events, user);
    SignInDecides(c, End(first.after, events), user, attempt, device, now, m, r, after);
  }

  lemma SignInDecides(c: Config, db: Db, user: string, attempt: string, device: string, now: int, m: Mint, r: Result,
                      after: Db)
    requires Happens(c, db, SignIn(Some(user), attempt, device, now, m), r, after) && user in db.users
    ensures attempt == db.users[user].password ==> !r.InvalidCredentials?
    ensures attempt != db.users[user].password ==> !r.SignedIn? && !r.Challenged?
  {
  }
}
