/** internal/auth/flows.go: the sign-in, verification and reset flows over the tables
    of the credential store. Flows run one at a time; any statement of one may fail and
    end it there. `Happens` says what each flow may answer and leave behind. */
module CredentialFlows {
  import opened Wrappers
  import Challenges
  import Lockout
  import Sessions
  import SingleUse
  import Text

  const MIN_PASSWORD_LENGTH := 12
  const CHALLENGE_LIFETIME := 5 * 60
  const DEVICE_LIFETIME := 30 * 24 * 3600

  /** Passwords and tokens stand for their hashes; passwords are byte strings. */
  datatype User = User(email: string, password: string, verified: bool, account: Lockout.Account,
                       secret: Option<string>)

  datatype Device = Device(user: string, expiresAt: int, revoked: bool)

  datatype Db = Db(users: map<string, User>, tokens: SingleUse.Tokens, codes: SingleUse.Codes,
                   challenges: map<string, Challenges.Challenge>, sessions: Sessions.Table,
                   devices: map<string, Device>)

  /** `totp` is the authenticator's check of a code against a secret at a time. */
  datatype Config = Config(limit: int, window: int, lifetime: int, totp: (string, string, int) -> bool)

  /** The identifiers and tokens a flow draws, should it need them. */
  datatype Mint = Mint(id: string, token: string, device: string)

  datatype Result =
    | SignedIn(user: string, session: string)
    | Challenged(user: string, challenge: string)
    | Done(user: string)
    | InvalidCredentials | AccountLocked | TokenInvalid | TokenExpired | NotEnabled
    | CodeInvalid | WeakPassword | PasswordMismatch
    | Failed

  // ------------------------------------------------------------ statement effects

  function Emails(db: Db): map<string, string> {
    map user | user in db.users :: db.users[user].email
  }

  function WithAccount(db: Db, user: string, account: Lockout.Account): Db {
    if user in db.users then db.(users := db.users[user := db.users[user].(account := account)]) else db
  }

  function WithPassword(db: Db, user: string, password: string): Db {
    if user in db.users then db.(users := db.users[user := db.users[user].(password := password)]) else db
  }

  function WithVerified(db: Db, user: string): Db {
    if user in db.users then db.(users := db.users[user := db.users[user].(verified := true)]) else db
  }

  function WithSession(c: Config, db: Db, m: Mint, user: string, factor: string, now: int): Db {
    db.(sessions := Sessions.Inserted(db.sessions, m.token,
          Sessions.Session(m.id, user, Challenges.SessionFactor(factor), now + c.lifetime, now, false)))
  }

  function WithChallenge(db: Db, m: Mint, user: string, factor: string, now: int): Db {
    if m.token in db.challenges then db
    else
      var row := Challenges.Challenge(user, factor, 0, now + CHALLENGE_LIFETIME, false);
      db.(challenges := db.challenges[m.token := row])
  }

  function WithDevice(db: Db, m: Mint, user: string, now: int): Db {
    if m.device in db.devices then db
    else db.(devices := db.devices[m.device := Device(user, now + DEVICE_LIFETIME, false)])
  }

  function WithoutDevice(db: Db, user: string, device: string): Db {
    if device in db.devices && db.devices[device].user == user
    then db.(devices := db.devices[device := db.devices[device].(revoked := true)]) else db
  }

  function WithoutDevices(db: Db, user: string): Db {
    db.(devices := map device | device in db.devices ::
          if db.devices[device].user == user then db.devices[device].(revoked := true) else db.devices[device])
  }

  function WithoutSessions(db: Db, user: string, keep: Option<string>): Db {
    db.(sessions := Sessions.RevokedAll(db.sessions, user, keep))
  }

  function Burnt(db: Db, k: SingleUse.TokenKey): Db {
    db.(tokens := SingleUse.Burn(db.tokens, k, Emails(db)))
  }

  function Charged(db: Db, token: string): Db {
    if token !in db.challenges then db
    else db.(challenges := db.challenges[token := Challenges.Charged(db.challenges[token])])
  }

  function Consumed(db: Db, token: string): Db {
    if token !in db.challenges then db
    else db.(challenges := db.challenges[token := Challenges.Consumed(db.challenges[token])])
  }

  predicate DeviceValid(db: Db, user: string, device: string, now: int) {
    device != "" && device in db.devices &&
    var d := db.devices[device]; d.user == user && !d.revoked && d.expiresAt > now
  }

  /** The user needs no second factor here: none is enabled, or the device is trusted. */
  predicate Admitted(db: Db, user: string, device: string, now: int) {
    user in db.users && (db.users[user].secret.None? || DeviceValid(db, user, device, now))
  }

  // ------------------------------------------------------------------- the flows

  datatype Call =
    | SignIn(found: Option<string>, password: string, device: string, now: int, mint: Mint)
    | RedeemLink(token: string, device: string, now: int, mint: Mint)
    | OAuth(user: string, device: string, now: int, mint: Mint)
    | Verify(token: string, code: string, trust: bool, now: int, mint: Mint)
    | Reset(token: string, password: string, now: int)
    | AdminReset(user: string, password: string)
    | ConfirmEmail(token: string, now: int)
    | Change(user: string, current: string, password: string, keepToken: string)
    | RevokeAll(user: string)
    | Enter(user: string, now: int, mint: Mint)   // CreateSession: signup, accepted invitation, completed reset
    | Untrust(user: string, device: string)
    | Statement(step: Sessions.Step)
    | Issue(key: SingleUse.TokenKey, user: string, email: string, expiresAt: int)
    | SetSecret(user: string, secret: Option<string>, hashes: seq<string>)
    | Register(user: string, row: User)

  /** What follows a first factor: exactly one of a session and a challenge. */
  predicate Finishes(c: Config, db: Db, user: string, factor: string, device: string, now: int, m: Mint, r: Result,
                     after: Db) {
    match r
    case SignedIn(who, token) =>
      && who == user && token == m.token && token !in db.sessions
      && Admitted(db, user, device, now) && after == WithSession(c, db, m, user, factor, now)
    case Challenged(who, token) =>
      && who == user && token == m.token && token !in db.challenges && user in db.users
      && !Admitted(db, user, device, now) && after == WithChallenge(db, m, user, factor, now)
    case Failed =>
      after == db || (Admitted(db, user, device, now) && after == WithSession(c, db, m, user, factor, now))
    case _ => false
  }

  /** What is left of a sign-in once the password it read has matched: the lock is
      cleared and the sign-in finished. The stored password is not looked at again. */
  predicate Resumes(c: Config, db: Db, user: string, device: string, now: int, m: Mint, r: Result, after: Db) {
    Finishes(c, WithAccount(db, user, Lockout.FRESH_ACCOUNT), user, Challenges.PASSWORD, device, now, m, r, after)
  }

  predicate SignsIn(c: Config, db: Db, user: string, password: string, device: string, now: int, m: Mint, r: Result,
                    after: Db)
    requires user in db.users
  {
    var account := db.users[user].account;
    var read := WithAccount(db, user, Lockout.ReadLock(account, now));
    if r.Failed? && after == db then true
    else if Lockout.Locked(account, now) then r.AccountLocked? && after == db
    else if db.users[user].password != password then
      || (r.Failed? && after == read)
      || (r.InvalidCredentials? && after == WithAccount(db, user,
            Lockout.RecordFailure(Lockout.ReadLock(account, now), now, c.limit, c.window)))
    else
      || (r.Failed? && after == read)
      || Resumes(c, db, user, device, now, m, r, after)
  }

  predicate RedeemsLink(c: Config, db: Db, token: string, device: string, now: int, m: Mint, r: Result, after: Db) {
    var k := SingleUse.TokenKey(SingleUse.MagicLink, token);
    if r.Failed? && after == db then true
    else match SingleUse.Present(db.tokens, k, now, Emails(db))
      case Invalid => r.TokenInvalid? && after == Burnt(db, k)
      case Expired => r.TokenExpired? && after == Burnt(db, k)
      case Redeemed(user) =>
        || (r.Failed? && after == Burnt(db, k))
        || Finishes(c, WithVerified(Burnt(db, k), user), user, Challenges.MAGIC_LINK, device, now, m, r, after)
  }

  predicate Accepts(c: Config, db: Db, user: string, secret: string, code: string, now: int) {
    c.totp(secret, code, now) || SingleUse.Code(user, code) in SingleUse.UnusedOf(db.codes, user)
  }

  /** A code the authenticator does not vouch for may still be an unused recovery code. */
  function Spent(c: Config, db: Db, user: string, secret: string, code: string, now: int): Db {
    if !c.totp(secret, code, now) && SingleUse.Code(user, code) in SingleUse.UnusedOf(db.codes, user)
    then db.(codes := SingleUse.UseCode(db.codes, SingleUse.Code(user, code))) else db
  }

  /** The challenge is unused, in time, under the attempt limit, and its user has TOTP. */
  predicate Open(db: Db, token: string, now: int) {
    && token in db.challenges
    && var row := db.challenges[token];
       !row.used && now <= row.expiresAt && row.attempts < Challenges.MAX_ATTEMPTS &&
       row.user in db.users && db.users[row.user].secret.Some?
  }

  function Refusal(db: Db, token: string, now: int): Result {
    if token !in db.challenges || db.challenges[token].used then TokenInvalid
    else if now > db.challenges[token].expiresAt then TokenExpired
    else if db.challenges[token].attempts >= Challenges.MAX_ATTEMPTS then AccountLocked
    else if db.challenges[token].user in db.users then NotEnabled
    else Failed
  }

  predicate Verifies(c: Config, db: Db, token: string, code: string, trust: bool, now: int, m: Mint, r: Result,
                     after: Db) {
    if r.Failed? && after == db then true
    else if !Open(db, token, now) then r == Refusal(db, token, now) && after == db
    else
      var row := db.challenges[token];
      var secret := db.users[row.user].secret.value;
      if !Accepts(c, db, row.user, secret, code, now) then r.CodeInvalid? && after == Charged(db, token)
      else
        var spent := Spent(c, db, row.user, secret, code, now);
        var passed := Consumed(spent, token);
        var trusted := if trust then WithDevice(passed, m, row.user, now) else passed;
        var entered := WithSession(c, trusted, m, row.user, row.factor, now);
        || (r == SignedIn(row.user, m.token) && m.token !in db.sessions && after == entered)
        || (r.Failed? && (after == spent || after == passed || after == trusted || after == entered ||
              after == WithoutDevice(trusted, row.user, m.device)))
  }

  /** Password, sessions, devices, lock: in that order, as far as the flow gets. */
  predicate Resets(db: Db, token: string, password: string, now: int, r: Result, after: Db) {
    var k := SingleUse.TokenKey(SingleUse.Reset, token);
    if |password| < MIN_PASSWORD_LENGTH then r.WeakPassword? && after == db
    else if r.Failed? && after == db then true
    else match SingleUse.Present(db.tokens, k, now, Emails(db))
      case Invalid => r.TokenInvalid? && after == Burnt(db, k)
      case Expired => r.TokenExpired? && after == Burnt(db, k)
      case Redeemed(user) =>
        var changed := WithPassword(Burnt(db, k), user, password);
        var closed := WithoutSessions(changed, user, None);
        var dropped := WithoutDevices(closed, user);
        var cleared := WithAccount(dropped, user, Lockout.FRESH_ACCOUNT);
        || (r == Done(user) && user in db.users && after == cleared)
        || (r.Failed? && (after == Burnt(db, k) || after == changed || after == closed || after == dropped ||
              after == cleared))
  }

  /** ResetPasswordForAdmin: the same statements from a trusted workflow, with no token. */
  predicate AdminResets(db: Db, user: string, password: string, r: Result, after: Db) {
    if |password| < MIN_PASSWORD_LENGTH then r.WeakPassword? && after == db
    else
      var changed := WithPassword(db, user, password);
      var closed := WithoutSessions(changed, user, None);
      var dropped := WithoutDevices(closed, user);
      var cleared := WithAccount(dropped, user, Lockout.FRESH_ACCOUNT);
      || (r == Done(user) && user in db.users && after == cleared)
      || (r.Failed? && (after == db || (user in db.users &&
            (after == changed || after == closed || after == dropped || after == cleared))))
  }

  /** VerifyEmail: the token is spent before the address is marked. */
  predicate Confirms(db: Db, token: string, now: int, r: Result, after: Db) {
    var k := SingleUse.TokenKey(SingleUse.Verification, token);
    if r.Failed? && after == db then true
    else match SingleUse.Present(db.tokens, k, now, Emails(db))
      case Invalid => r.TokenInvalid? && after == Burnt(db, k)
      case Expired => r.TokenExpired? && after == Burnt(db, k)
      case Redeemed(user) =>
        || (r == Done(user) && user in db.users && after == WithVerified(Burnt(db, k), user))
        || (r.Failed? && (after == Burnt(db, k) || after == WithVerified(Burnt(db, k), user)))
  }

  predicate Changes(db: Db, user: string, current: string, password: string, keepToken: string, r: Result, after: Db) {
    if r.Failed? && after == db then true
    else
      && user in db.users
      && if db.users[user].password != current then r.PasswordMismatch? && after == db
         else if |password| < MIN_PASSWORD_LENGTH then r.WeakPassword? && after == db
         else
           var changed := WithPassword(db, user, password);
           var closed := WithoutSessions(changed, user, Sessions.OptionalHash(keepToken));
           || (r == Done(user) && after == WithoutDevices(closed, user))
           || (r.Failed? && (after == changed || after == closed))
  }

  predicate Revokes(db: Db, user: string, r: Result, after: Db) {
    var closed := WithoutSessions(db, user, None);
    || (r == Done(user) && after == WithoutDevices(closed, user))
    || (r.Failed? && (after == db || after == closed))
  }

  /** CreateSession asks for no factor: whoever calls it gets a password session. */
  predicate Enters(c: Config, db: Db, user: string, now: int, m: Mint, r: Result, after: Db) {
    || (r.Failed? && after == db)
    || (r == SignedIn(user, m.token) && user in db.users && m.token !in db.sessions &&
          after == WithSession(c, db, m, user, Challenges.PASSWORD, now))
  }

  ghost predicate Happens(c: Config, db: Db, call: Call, r: Result, after: Db) {
    match call
    case SignIn(found, password, device, now, m) =>
      if found.None? then (r.InvalidCredentials? || r.Failed?) && after == db
      else if found.value !in db.users then r.Failed? && after == db
      else SignsIn(c, db, found.value, password, device, now, m, r, after)
    case RedeemLink(token, device, now, m) => RedeemsLink(c, db, token, device, now, m, r, after)
    case OAuth(user, device, now, m) => Finishes(c, db, user, Challenges.OAUTH, device, now, m, r, after)
    case Verify(token, code, trust, now, m) => Verifies(c, db, token, code, trust, now, m, r, after)
    case Reset(token, password, now) => Resets(db, token, password, now, r, after)
    case AdminReset(user, password) => AdminResets(db, user, password, r, after)
    case ConfirmEmail(token, now) => Confirms(db, token, now, r, after)
    case Change(user, current, password, keepToken) => Changes(db, user, current, password, keepToken, r, after)
    case RevokeAll(user) => Revokes(db, user, r, after)
    case Enter(user, now, m) => Enters(c, db, user, now, m, r, after)
    case Untrust(user, device) =>
      || (r.Failed? && after == db)
      || (r == Done(user) && device in db.devices && db.devices[device].user == user && !db.devices[device].revoked
          && after == WithoutDevice(db, user, device))
    case Statement(step) => !step.Insert? && after == db.(sessions := Sessions.Next(db.sessions, step))
    case Issue(k, user, email, expiresAt) =>
      after == if k in db.tokens then db
               else db.(tokens := db.tokens[k := SingleUse.Token(user, email, expiresAt, false)])
    case SetSecret(user, secret, hashes) =>
      || after == db
      || (user in db.users && Text.Distinct(hashes) &&
            after == db.(users := db.users[user := db.users[user].(secret := secret)],
                         codes := SingleUse.Enrolled(db.codes, user, hashes)))
    case Register(user, row) => after == if user in db.users then db else db.(users := db.users[user := row])
  }

  class CredentialStore {
    var db: Db
    const config: Config

    constructor (config: Config)
      ensures this.config == config
      ensures db == Db(map[], map[], map[], map[], map[], map[])
    {
      this.config := config;
      db := Db(map[], map[], map[], map[], map[], map[]);
    }

    /** CreateSessionWithMethod; a token already taken is refused by the unique index. */
    method CreateSession(m: Mint, user: string, factor: string, now: int) returns (ok: bool)
      modifies this`db
      ensures ok ==> m.token !in old(db).sessions && db == WithSession(config, old(db), m, user, factor, now)
      ensures !ok ==> db == old(db)
    {
      ok := *;
      ok := ok && m.token !in db.sessions;
      if ok {
        db := WithSession(config, db, m, user, factor, now);
      }
    }

    method FinishUserSignIn(user: string, factor: string, device: string, now: int, m: Mint) returns (r: Result)
      modifies this`db
      ensures Finishes(config, old(db), user, factor, device, now, m, r, db)
    {
      if * { return Failed; }
      if user !in db.users { return Failed; }
      if db.users[user].secret.Some? && !DeviceValid(db, user, device, now) {
        if * { return Failed; }
        if m.token in db.challenges { return Failed; }
        db := WithChallenge(db, m, user, factor, now);
        return Challenged(user, m.token);
      }
      var ok := CreateSession(m, user, factor, now);
      if !ok { return Failed; }
      if * { return Failed; }
      r := SignedIn(user, m.token);
    }

    method SignInWithTrustedDevice(found: Option<string>, password: string, device: string, now: int, m: Mint)
      returns (r: Result)
      modifies this`db
      ensures Happens(config, old(db), SignIn(found, password, device, now, m), r, db)
    {
      if * { return Failed; }
      if found.None? {
        return InvalidCredentials;
      }
      var user := found.value;
      if * { return Failed; }
      if user !in db.users { return Failed; }
      var account := Lockout.ReadLock(db.users[user].account, now);
      db := WithAccount(db, user, account);
      if Lockout.Locked(account, now) {
        assert db == old(db);
        return AccountLocked;
      }
      if db.users[user].password != password {
        if * { return Failed; }
        db := WithAccount(db, user, Lockout.RecordFailure(account, now, config.limit, config.window));
        assert db == WithAccount(old(db), user, Lockout.RecordFailure(account, now, config.limit, config.window));
        return InvalidCredentials;
      }
      if * { return Failed; }
      db := WithAccount(db, user, Lockout.FRESH_ACCOUNT);
      assert db == WithAccount(old(db), user, Lockout.FRESH_ACCOUNT);
      r := FinishUserSignIn(user, Challenges.PASSWORD, device, now, m);
    }

    method RedeemMagicLink(token: string, device: string, now: int, m: Mint) returns (r: Result)
      modifies this`db
      ensures Happens(config, old(db), RedeemLink(token, device, now, m), r, db)
    {
      var k := SingleUse.TokenKey(SingleUse.MagicLink, token);
      if * { return Failed; }
      var outcome := SingleUse.Present(db.tokens, k, now, Emails(db));
      db := Burnt(db, k);
      match outcome {
        case Invalid => return TokenInvalid;
        case Expired => return TokenExpired;
        case Redeemed(user) =>
          if * { return Failed; }
          db := WithVerified(db, user);
          r := FinishUserSignIn(user, Challenges.MAGIC_LINK, device, now, m);
      }
    }

    method VerifyTOTPChallenge(token: string, code: string, trust: bool, now: int, m: Mint) returns (r: Result)
      modifies this`db
      ensures Happens(config, old(db), Verify(token, code, trust, now, m), r, db)
    {
      if * { return Failed; }
      if token !in db.challenges || db.challenges[token].used {
        return TokenInvalid;
      }
      var row := db.challenges[token];
      if now > row.expiresAt {
        return TokenExpired;
      }
      if row.attempts >= Challenges.MAX_ATTEMPTS {
        return AccountLocked;
      }
      if row.user !in db.users { return Failed; }
      if db.users[row.user].secret.None? {
        return NotEnabled;
      }
      var secret := db.users[row.user].secret.value;
      var ok := config.totp(secret, code, now);
      if !ok {
        if * { return Failed; }
        ok := SingleUse.Code(row.user, code) in SingleUse.UnusedOf(db.codes, row.user);
        if ok {
          db := db.(codes := SingleUse.UseCode(db.codes, SingleUse.Code(row.user, code)));
        }
      }
      assert db == Spent(config, old(db), row.user, secret, code, now);
      if !ok {
        if * { return Failed; }
        db := Charged(db, token);
        return CodeInvalid;
      }
      if * { return Failed; }
      db := Consumed(db, token);
      if * { return Failed; }
      if trust {
        if * { return Failed; }
        if m.device in db.devices { return Failed; }
        db := WithDevice(db, m, row.user, now);
      }
      var created := CreateSession(m, row.user, row.factor, now);
      if !created {
        if trust {
          if * { return Failed; }
          db := WithoutDevice(db, row.user, m.device);
        }
        return Failed;
      }
      if * { return Failed; }
      r := SignedIn(row.user, m.token);
    }

    method ResetPassword(token: string, password: string, now: int) returns (r: Result)
      modifies this`db
      ensures Happens(config, old(db), Reset(token, password, now), r, db)
    {
      var k := SingleUse.TokenKey(SingleUse.Reset, token);
      if |password| < MIN_PASSWORD_LENGTH {
        return WeakPassword;
      }
      if * { return Failed; }
      var outcome := SingleUse.Present(db.tokens, k, now, Emails(db));
      db := Burnt(db, k);
      match outcome {
        case Invalid => return TokenInvalid;
        case Expired => return TokenExpired;
        case Redeemed(user) =>
          if * { return Failed; }
          db := WithPassword(db, user, password);
          if * { return Failed; }
          db := WithoutSessions(db, user, None);
          if * { return Failed; }
          db := WithoutDevices(db, user);
          if * { return Failed; }
          db := WithAccount(db, user, Lockout.FRESH_ACCOUNT);
          if * { return Failed; }
          if user !in db.users { return Failed; }
          r := Done(user);
      }
    }

    method ResetPasswordForAdmin(user: string, password: string) returns (r: Result)
      modifies this`db
      ensures Happens(config, old(db), AdminReset(user, password), r, db)
    {
      if |password| < MIN_PASSWORD_LENGTH {
        return WeakPassword;
      }
      if user !in db.users { return Failed; }
      if * { return Failed; }
      db := WithPassword(db, user, password);
      if * { return Failed; }
      db := WithoutSessions(db, user, None);
      if * { return Failed; }
      db := WithoutDevices(db, user);
      if * { return Failed; }
      db := WithAccount(db, user, Lockout.FRESH_ACCOUNT);
      if * { return Failed; }
      r := Done(user);
    }

    method VerifyEmail(token: string, now: int) returns (r: Result)
      modifies this`db
      ensures Happens(config, old(db), ConfirmEmail(token, now), r, db)
    {
      if * { return Failed; }
      var k := SingleUse.TokenKey(SingleUse.Verification, token);
      var outcome := SingleUse.Present(db.tokens, k, now, Emails(db));
      db := Burnt(db, k);
      match outcome {
        case Invalid => return TokenInvalid;
        case Expired => return TokenExpired;
        case Redeemed(user) =>
          if * { return Failed; }
          db := WithVerified(db, user);
          if user !in db.users { return Failed; }
          if * { return Failed; }
          r := Done(user);
      }
    }

    /** issueSession, as the handlers of signup, invitations and resets call it. */
    method IssueSession(user: string, now: int, m: Mint) returns (r: Result)
      modifies this`db
      ensures Happens(config, old(db), Enter(user, now, m), r, db)
    {
      if user !in db.users { return Failed; }
      var ok := CreateSession(m, user, Challenges.PASSWORD, now);
      r := if ok then SignedIn(user, m.token) else Failed;
    }

    /** The reset endpoint signs its caller in straight away. */
    method HandleResetPassword(token: string, password: string, at: int, now: int, m: Mint)
      returns (reset: Result, entered: Result, ghost between: Db)
      modifies this`db
      ensures Happens(config, old(db), Reset(token, password, at), reset, between)
      ensures reset.Done? ==> Happens(config, between, Enter(reset.user, now, m), entered, db)
      ensures !reset.Done? ==> entered == reset && db == between
    {
      reset := ResetPassword(token, password, at);
      between := db;
      if !reset.Done? {
        return reset, reset, between;
      }
      entered := IssueSession(reset.user, now, m);
    }

    method ChangePassword(user: string, current: string, password: string, keepToken: string) returns (r: Result)
      modifies this`db
      ensures Happens(config, old(db), Change(user, current, password, keepToken), r, db)
    {
      if * { return Failed; }
      if user !in db.users { return Failed; }
      if db.users[user].password != current {
        return PasswordMismatch;
      }
      if |password| < MIN_PASSWORD_LENGTH {
        return WeakPassword;
      }
      if * { return Failed; }
      db := WithPassword(db, user, password);
      if * { return Failed; }
      db := WithoutSessions(db, user, Sessions.OptionalHash(keepToken));
      if * { return Failed; }
      db := WithoutDevices(db, user);
      r := Done(user);
    }

    method RevokeAllCredentials(user: string) returns (r: Result)
      modifies this`db
      ensures Happens(config, old(db), RevokeAll(user), r, db)
    {
      if * { return Failed; }
      db := WithoutSessions(db, user, None);
      if * { return Failed; }
      db := WithoutDevices(db, user);
      r := Done(user);
    }
  }

  // ------------------------------------------------------------------------ runs

  datatype Event = Event(call: Call, result: Result, after: Db)

  ghost predicate Run(c: Config, db: Db, events: seq<Event>)
    decreases |events|
  {
    events == [] ||
    (Happens(c, db, events[0].call, events[0].result, events[0].after) && Run(c, events[0].after, events[1..]))
  }

  function End(db: Db, events: seq<Event>): Db {
    if events == [] then db else events[|events| - 1].after
  }

  // ------------------------------------------- every session has been paid for

  predicate Mine(session: Sessions.Session, user: string, factor: string) {
    session.user == user && session.factor == factor
  }

  predicate Awaited(row: Challenges.Challenge, user: string, factor: string) {
    !row.used && row.user == user && Challenges.SessionFactor(row.factor) == factor
  }

  function OfUser(t: Sessions.Table, user: string, factor: string): set<string> {
    set token | token in t && Mine(t[token], user, factor)
  }

  function Pending(t: map<string, Challenges.Challenge>, user: string, factor: string): set<string> {
    set token | token in t && Awaited(t[token], user, factor)
  }

  /** The call presents the user's first factor and gets past the lock. */
  predicate Presents(db: Db, call: Call, user: string, factor: string) {
    match call
    case SignIn(found, password, _, now, _) =>
      && found == Some(user) && factor == Challenges.PASSWORD
      && user in db.users && !Lockout.Locked(db.users[user].account, now) && db.users[user].password == password
    case RedeemLink(token, _, now, _) =>
      && factor == Challenges.MAGIC_LINK
      && var k := SingleUse.TokenKey(SingleUse.MagicLink, token);
         SingleUse.Present(db.tokens, k, now, Emails(db)) == SingleUse.Redeemed(user)
    case OAuth(who, _, _, _) => who == user && factor == Challenges.OAUTH
    case _ => false
  }

  /** The call completes a sign-in: a first factor with none other needed, or an
      accepted code for an open challenge. */
  predicate Completes(c: Config, db: Db, call: Call, user: string, factor: string) {
    match call
    case SignIn(_, _, device, now, _) => Presents(db, call, user, factor) && Admitted(db, user, device, now)
    case RedeemLink(_, device, now, _) => Presents(db, call, user, factor) && Admitted(db, user, device, now)
    case OAuth(_, device, now, _) => Presents(db, call, user, factor) && Admitted(db, user, device, now)
    case Verify(token, code, _, now, _) =>
      && Open(db, token, now) && db.challenges[token].user == user
      && Challenges.SessionFactor(db.challenges[token].factor) == factor
      && Accepts(c, db, user, db.users[user].secret.value, code, now)
    case _ => false
  }

  function Presented(db: Db, events: seq<Event>, user: string, factor: string): nat
    decreases |events|
  {
    if events == [] then 0
    else (if Presents(db, events[0].call, user, factor) then 1 else 0) +
         Presented(events[0].after, events[1..], user, factor)
  }

  function Completed(c: Config, db: Db, events: seq<Event>, user: string, factor: string): nat
    decreases |events|
  {
    if events == [] then 0
    else (if Completes(c, db, events[0].call, user, factor) then 1 else 0) +
         Completed(c, events[0].after, events[1..], user, factor)
  }

  /** The call opens a session directly, with no factor asked for. */
  predicate EntersAs(call: Call, user: string, factor: string) {
    call.Enter? && call.user == user && factor == Challenges.PASSWORD
  }

  function Entered(events: seq<Event>, user: string, factor: string): nat {
    if events == [] then 0
    else (if EntersAs(events[0].call, user, factor) then 1 else 0) + Entered(events[1..], user, factor)
  }

  /** `after` has the sessions and pending challenges of `db`, and up to one more of each. */
  ghost predicate Gains(db: Db, after: Db, user: string, factor: string, sessions: nat, pending: int) {
    && |OfUser(after.sessions, user, factor)| <= |OfUser(db.sessions, user, factor)| + sessions
    && |Pending(after.challenges, user, factor)| <= |Pending(db.challenges, user, factor)| + pending
  }

  lemma SameGains(db: Db, after: Db, user: string, factor: string)
    requires forall t :: t in after.sessions <==> t in db.sessions
    requires forall t :: t in db.sessions ==>
               after.sessions[t].user == db.sessions[t].user && after.sessions[t].factor == db.sessions[t].factor
    requires after.challenges == db.challenges
    ensures Gains(db, after, user, factor, 0, 0)
  {
    assert OfUser(after.sessions, user, factor) == OfUser(db.sessions, user, factor);
    assert Pending(after.challenges, user, factor) == Pending(db.challenges, user, factor);
  }

  lemma SessionsGrow(t: Sessions.Table, after: Sessions.Table, token: string, row: Sessions.Session, user: string,
                     factor: string)
    requires token !in t && after == t[token := row]
    ensures |OfUser(after, user, factor)| <= |OfUser(t, user, factor)| + if Mine(row, user, factor) then 1 else 0
  {
    hide Mine;
    if Mine(row, user, factor) {
      assert OfUser(after, user, factor) == OfUser(t, user, factor) + {token};
    } else {
      assert OfUser(after, user, factor) == OfUser(t, user, factor);
    }
  }

  lemma InsertGains(db: Db, token: string, session: Sessions.Session, user: string, factor: string)
    ensures Gains(db, db.(sessions := Sessions.Inserted(db.sessions, token, session)), user, factor,
                  if Mine(session, user, factor) then 1 else 0, 0)
  {
    hide OfUser;
    if token !in db.sessions {
      var after := Sessions.Inserted(db.sessions, token, session);
      SessionsGrow(db.sessions, after, token, session.(revoked := false), user, factor);
    }
  }

  lemma SessionGains(c: Config, db: Db, m: Mint, who: string, how: string, now: int, user: string, factor: string)
    ensures Gains(db, WithSession(c, db, m, who, how, now), user, factor,
                  if who == user && Challenges.SessionFactor(how) == factor then 1 else 0, 0)
  {
    hide Gains, Challenges.SessionFactor, Sessions.Inserted;
    var session := Sessions.Session(m.id, who, Challenges.SessionFactor(how), now + c.lifetime, now, false);
    InsertGains(db, m.token, session, user, factor);
  }

  lemma PendingGrow(t: map<string, Challenges.Challenge>, token: string, row: Challenges.Challenge, user: string,
                    factor: string)
    requires token !in t
    ensures |Pending(t[token := row], user, factor)| <=
              |Pending(t, user, factor)| + if Awaited(row, user, factor) then 1 else 0
  {
    hide Awaited;
    var after := t[token := row];
    if Awaited(row, user, factor) {
      assert Pending(after, user, factor) == Pending(t, user, factor) + {token};
    } else {
      assert Pending(after, user, factor) == Pending(t, user, factor);
    }
  }

  lemma ChallengeGains(db: Db, m: Mint, who: string, how: string, now: int, user: string, factor: string)
    ensures Gains(db, WithChallenge(db, m, who, how, now), user, factor, 0,
                  if who == user && Challenges.SessionFactor(how) == factor then 1 else 0)
  {
    hide Challenges.SessionFactor, Pending, OfUser;
    if m.token !in db.challenges {
      var row := WithChallenge(db, m, who, how, now).challenges[m.token];
      PendingGrow(db.challenges, m.token, row, user, factor);
    }
  }

  lemma ConsumeGains(db: Db, token: string, user: string, factor: string)
    requires token in db.challenges
    ensures Gains(db, Consumed(db, token), user, factor, 0,
                  if Awaited(db.challenges[token], user, factor) then -1 else 0)
  {
    var after := Consumed(db, token);
    assert OfUser(after.sessions, user, factor) == OfUser(db.sessions, user, factor);
    assert Pending(after.challenges, user, factor) == Pending(db.challenges, user, factor) - {token};
  }

  lemma ChargeGains(db: Db, token: string, user: string, factor: string)
    ensures Gains(db, Charged(db, token), user, factor, 0, 0)
  {
    var after := Charged(db, token);
    assert OfUser(after.sessions, user, factor) == OfUser(db.sessions, user, factor);
    assert Pending(after.challenges, user, factor) == Pending(db.challenges, user, factor);
  }

  lemma FinishGains(c: Config, db: Db, who: string, how: string, device: string, now: int, m: Mint, r: Result,
                    after: Db,
                    user: string, factor: string)
    requires Finishes(c, db, who, how, device, now, m, r, after)
    ensures var mine := who == user && Challenges.SessionFactor(how) == factor;
            var enters := mine && Admitted(db, user, device, now);
            Gains(db, after, user, factor, if enters then 1 else 0, if mine && !enters then 1 else 0)
  {
    hide OfUser, Pending, WithSession, WithChallenge, Challenges.SessionFactor;
    SameGains(db, db, user, factor);
    SessionGains(c, db, m, who, how, now, user, factor);
    ChallengeGains(db, m, who, how, now, user, factor);
  }

  lemma SignInGains(c: Config, db: Db, who: string, password: string, device: string, now: int, m: Mint, r: Result,
                    after: Db,
                    user: string, factor: string)
    requires who in db.users && SignsIn(c, db, who, password, device, now, m, r, after)
    ensures var call := SignIn(Some(who), password, device, now, m);
            var mine, enters := Presents(db, call, user, factor), Completes(c, db, call, user, factor);
            Gains(db, after, user, factor, if enters then 1 else 0, if mine && !enters then 1 else 0)
  {
    hide OfUser, Pending, WithSession, WithChallenge, Lockout.ReadLock, Lockout.RecordFailure;
    var cleared := WithAccount(db, who, Lockout.FRESH_ACCOUNT);
    if Finishes(c, cleared, who, Challenges.PASSWORD, device, now, m, r, after) {
      FinishGains(c, cleared, who, Challenges.PASSWORD, device, now, m, r, after, user, factor);
    }
  }

  lemma LinkGains(c: Config, db: Db, token: string, device: string, now: int, m: Mint, r: Result, after: Db,
                  user: string, factor: string)
    requires RedeemsLink(c, db, token, device, now, m, r, after)
    ensures var call := RedeemLink(token, device, now, m);
            var mine, enters := Presents(db, call, user, factor), Completes(c, db, call, user, factor);
            Gains(db, after, user, factor, if enters then 1 else 0, if mine && !enters then 1 else 0)
  {
    hide OfUser, Pending, WithSession, WithChallenge, SingleUse.Present, SingleUse.Burn, Emails;
    var k := SingleUse.TokenKey(SingleUse.MagicLink, token);
    var outcome := SingleUse.Present(db.tokens, k, now, Emails(db));
    if outcome.Redeemed? {
      var verified := WithVerified(Burnt(db, k), outcome.user);
      if Finishes(c, verified, outcome.user, Challenges.MAGIC_LINK, device, now, m, r, after) {
        FinishGains(c, verified, outcome.user, Challenges.MAGIC_LINK, device, now, m, r, after, user, factor);
      }
    }
  }

  /** Consuming a challenge and opening its session, as far as that gets. */
  lemma EnterGains(c: Config, db: Db, spent: Db, token: string, trust: bool, m: Mint, now: int, user: string,
                   factor: string)
    requires token in db.challenges && !db.challenges[token].used
    requires spent.challenges == db.challenges && spent.sessions == db.sessions
    ensures var row := db.challenges[token];
            var mine := row.user == user && Challenges.SessionFactor(row.factor) == factor;
            var passed := Consumed(spent, token);
            var trusted := if trust then WithDevice(passed, m, row.user, now) else passed;
            && Gains(db, passed, user, factor, 0, 0)
            && Gains(db, trusted, user, factor, 0, 0)
            && Gains(db, WithoutDevice(trusted, row.user, m.device), user, factor, 0, 0)
            && Gains(db, WithSession(c, trusted, m, row.user, row.factor, now), user, factor,
                     if mine then 1 else 0, if mine then -1 else 0)
  {
    hide OfUser, Pending, WithSession, Challenges.SessionFactor;
    var row := db.challenges[token];
    var passed := Consumed(spent, token);
    var trusted := if trust then WithDevice(passed, m, row.user, now) else passed;
    ConsumeGains(spent, token, user, factor);
    SessionGains(c, trusted, m, row.user, row.factor, now, user, factor);
  }

  lemma VerifyGains(c: Config, db: Db, token: string, code: string, trust: bool, now: int, m: Mint, r: Result,
                    after: Db,
                    user: string, factor: string)
    requires Verifies(c, db, token, code, trust, now, m, r, after)
    ensures |OfUser(after.sessions, user, factor)| <= |OfUser(db.sessions, user, factor)| +
              if Completes(c, db, Verify(token, code, trust, now, m), user, factor) then 1 else 0
    ensures |OfUser(after.sessions, user, factor)| + |Pending(after.challenges, user, factor)| <=
              |OfUser(db.sessions, user, factor)| + |Pending(db.challenges, user, factor)|
  {
    hide OfUser, Pending, WithSession, WithDevice, WithoutDevice, Charged, Consumed, Accepts, Challenges.SessionFactor;
    if Open(db, token, now) {
      var row := db.challenges[token];
      var spent := Spent(c, db, row.user, db.users[row.user].secret.value, code, now);
      EnterGains(c, db, spent, token, trust, m, now, user, factor);
      ChargeGains(db, token, user, factor);
    }
  }

  lemma StatementGains(db: Db, step: Sessions.Step, user: string, factor: string)
    requires !step.Insert?
    ensures Gains(db, db.(sessions := Sessions.Next(db.sessions, step)), user, factor, 0, 0)
  {
    SameGains(db, db.(sessions := Sessions.Next(db.sessions, step)), user, factor);
  }

  lemma ClosingGains(db: Db, who: string, keep: Option<string>, user: string, factor: string)
    ensures Gains(db, WithoutSessions(db, who, keep), user, factor, 0, 0)
  {
    SameGains(db, WithoutSessions(db, who, keep), user, factor);
  }

  lemma ChangeGains(db: Db, who: string, current: string, password: string, keepToken: string, r: Result, after: Db,
                    user: string, factor: string)
    requires Changes(db, who, current, password, keepToken, r, after)
    ensures Gains(db, after, user, factor, 0, 0)
  {
    hide OfUser, Pending, WithoutSessions;
    ClosingGains(WithPassword(db, who, password), who, Sessions.OptionalHash(keepToken), user, factor);
  }

  lemma AdminResetGains(db: Db, who: string, password: string, r: Result, after: Db, user: string, factor: string)
    requires AdminResets(db, who, password, r, after)
    ensures Gains(db, after, user, factor, 0, 0)
  {
    hide OfUser, Pending, WithoutSessions;
    ClosingGains(WithPassword(db, who, password), who, None, user, factor);
  }

  predicate SignsAnyoneIn(call: Call) {
    call.SignIn? || call.RedeemLink? || call.OAuth? || call.Verify?
  }

  /** Calls that are no part of a sign-in open a session only by direct entry. */
  lemma OtherGains(c: Config, db: Db, call: Call, r: Result, after: Db, user: string, factor: string)
    requires Happens(c, db, call, r, after) && !SignsAnyoneIn(call)
    ensures Gains(db, after, user, factor, if EntersAs(call, user, factor) then 1 else 0, 0)
  {
    hide OfUser, Pending, WithSession, Resets, AdminResets, Changes, SignsIn, RedeemsLink, Finishes, Verifies;
    match call
    case Reset(token, password, now) => ResetGains(db, token, password, now, r, after, user, factor);
    case AdminReset(who, password) => AdminResetGains(db, who, password, r, after, user, factor);
    case ConfirmEmail(_, _) =>
    case Change(who, current, password, keepToken) =>
      ChangeGains(db, who, current, password, keepToken, r, after, user, factor);
    case RevokeAll(who) => ClosingGains(db, who, None, user, factor);
    case Enter(who, now, m) => SessionGains(c, db, m, who, Challenges.PASSWORD, now, user, factor);
    case Untrust(_, _) =>
    case Statement(step) => StatementGains(db, step, user, factor);
    case Issue(_, _, _, _) =>
    case SetSecret(_, _, _) =>
    case Register(_, _) =>
  }

  /** One call adds at most the session it completed a sign-in for or entered directly,
      and at most one session or challenge for the first factor it presented. */
  lemma StepIsPaidFor(c: Config, db: Db, call: Call, r: Result, after: Db, user: string, factor: string)
    requires Happens(c, db, call, r, after)
    ensures |OfUser(after.sessions, user, factor)| <=
              |OfUser(db.sessions, user, factor)| +
              if Completes(c, db, call, user, factor) || EntersAs(call, user, factor) then 1 else 0
    ensures |OfUser(after.sessions, user, factor)| + |Pending(after.challenges, user, factor)| <=
              |OfUser(db.sessions, user, factor)| + |Pending(db.challenges, user, factor)| +
              if Presents(db, call, user, factor) || EntersAs(call, user, factor) then 1 else 0
  {
    hide OfUser, Pending, SignsIn, RedeemsLink, Finishes, Verifies, Accepts, Admitted, Open;
    hide Resets, AdminResets, Confirms, Changes, Revokes, Enters, SingleUse.Present;
    match call
    case SignIn(found, password, device, now, m) =>
      if found.Some? && found.value in db.users {
        SignInGains(c, db, found.value, password, device, now, m, r, after, user, factor);
      }
    case RedeemLink(token, device, now, m) => LinkGains(c, db, token, device, now, m, r, after, user, factor);
    case OAuth(who, device, now, m) => OAuthGains(c, db, who, device, now, m, r, after, user, factor);
    case Verify(token, code, trust, now, m) => VerifyGains(c, db, token, code, trust, now, m, r, after, user, factor);
    case _ => OtherGains(c, db, call, r, after, user, factor);
  }

  lemma OAuthGains(c: Config, db: Db, who: string, device: string, now: int, m: Mint, r: Result, after: Db,
                   user: string, factor: string)
    requires Finishes(c, db, who, Challenges.OAUTH, device, now, m, r, after)
    ensures var call := OAuth(who, device, now, m);
            var mine, enters := Presents(db, call, user, factor), Completes(c, db, call, user, factor);
            Gains(db, after, user, factor, if enters then 1 else 0, if mine && !enters then 1 else 0)
  {
    hide OfUser, Pending;
    FinishGains(c, db, who, Challenges.OAUTH, device, now, m, r, after, user, factor);
  }

  lemma ResetGains(db: Db, token: string, password: string, now: int, r: Result, after: Db, user: string,
                   factor: string)
    requires Resets(db, token, password, now, r, after)
    ensures Gains(db, after, user, factor, 0, 0)
  {
    hide OfUser, Pending, WithoutSessions, SingleUse.Present, SingleUse.Burn, Emails;
    var k := SingleUse.TokenKey(SingleUse.Reset, token);
    var outcome := SingleUse.Present(db.tokens, k, now, Emails(db));
    if outcome.Redeemed? {
      ClosingGains(WithPassword(Burnt(db, k), outcome.user, password), outcome.user, None, user, factor);
    }
  }

  /** In every run, the sessions a user has by a factor are no more than the sign-ins
      completed with it and the direct entries. And a first factor is worth one session
      or one pending challenge, not both. */
  lemma {:induction false} SessionsArePaidFor(c: Config, db: Db, events: seq<Event>, user: string, factor: string)
    requires Run(c, db, events)
    ensures var after := End(db, events);
            && |OfUser(after.sessions, user, factor)| <=
                 |OfUser(db.sessions, user, factor)| + Completed(c, db, events, user, factor) +
                 Entered(events, user, factor)
            && |OfUser(after.sessions, user, factor)| + |Pending(after.challenges, user, factor)| <=
                 |OfUser(db.sessions, user, factor)| + |Pending(db.challenges, user, factor)| +
                 Presented(db, events, user, factor) + Entered(events, user, factor)
    decreases |events|
  {
    hide OfUser, Pending, Happens, Presents, Completes, EntersAs;
    if events != [] {
      var e := events[0];
      StepIsPaidFor(c, db, e.call, e.result, e.after, user, factor);
      SessionsArePaidFor(c, e.after, events[1..], user, factor);
      assert End(e.after, events[1..]) == End(db, events);
    }
  }

  /** The user, if registered, has TOTP on and no device that is trusted at any time. */
  ghost predicate NeedsCode(db: Db, user: string) {
    user in db.users ==> db.users[user].secret.Some? && forall device, now :: !DeviceValid(db, user, device, now)
  }

  ghost predicate AlwaysNeedsCode(db: Db, events: seq<Event>, user: string)
    decreases |events|
  {
    events == [] || (NeedsCode(db, user) && AlwaysNeedsCode(events[0].after, events[1..], user))
  }

  function CodesAccepted(c: Config, db: Db, events: seq<Event>, user: string, factor: string): nat
    decreases |events|
  {
    if events == [] then 0
    else (if events[0].call.Verify? && Completes(c, db, events[0].call, user, factor) then 1 else 0) +
         CodesAccepted(c, events[0].after, events[1..], user, factor)
  }

  /** While a user needs a code, first factors alone open nothing: every new session
      stands for a code that was accepted for an open challenge, or for a direct entry. */
  lemma {:induction false} SecondFactorHolds(c: Config, db: Db, events: seq<Event>, user: string, factor: string)
    requires Run(c, db, events) && AlwaysNeedsCode(db, events, user)
    ensures |OfUser(End(db, events).sessions, user, factor)| <=
              |OfUser(db.sessions, user, factor)| + CodesAccepted(c, db, events, user, factor) +
              Entered(events, user, factor)
    decreases |events|
  {
    hide OfUser, Pending, Happens, Presents, Accepts, EntersAs;
    if events != [] {
      var e := events[0];
      StepIsPaidFor(c, db, e.call, e.result, e.after, user, factor);
      assert Completes(c, db, e.call, user, factor) ==> e.call.Verify?;
      SecondFactorHolds(c, e.after, events[1..], user, factor);
      assert End(e.after, events[1..]) == End(db, events);
    }
  }

  /** The guard direct entries lack: such a session is one that finishing a sign-in
      would have given exactly when the user has no TOTP; otherwise a code was due. */
  lemma EntryIsSignInExactly(c: Config, db: Db, user: string, now: int, m: Mint, after: Db)
    requires Happens(c, db, Enter(user, now, m), SignedIn(user, m.token), after)
    ensures Finishes(c, db, user, Challenges.PASSWORD, "", now, m, SignedIn(user, m.token), after) <==>
              db.users[user].secret.None?
    ensures Admitted(db, user, "", now) <==> db.users[user].secret.None?
  {
    hide WithSession;
  }

  /** A user with TOTP on and no trusted device resets the password from an emailed
      token and is signed in: a run with no code accepted, one more session of the user,
      and that session resolves for its whole lifetime. */
  lemma ResetEntersWithoutCode(c: Config, db: Db, token: string, password: string, at: int, user: string, now: int,
                               m: Mint) returns (events: seq<Event>)
    requires NeedsCode(db, user) && user in db.users && |password| >= MIN_PASSWORD_LENGTH
    requires SingleUse.Present(db.tokens, SingleUse.TokenKey(SingleUse.Reset, token), at, Emails(db)) ==
               SingleUse.Redeemed(user)
    requires m.token !in db.sessions
    ensures |events| == 2 && Run(c, db, events) && AlwaysNeedsCode(db, events, user)
    ensures events[0].call == Reset(token, password, at) && events[0].result == Done(user)
    ensures events[1].call == Enter(user, now, m) && events[1].result == SignedIn(user, m.token)
    ensures CodesAccepted(c, db, events, user, Challenges.PASSWORD) == 0
    ensures OfUser(End(db, events).sessions, user, Challenges.PASSWORD) ==
              OfUser(db.sessions, user, Challenges.PASSWORD) + {m.token}
    ensures forall t :: Sessions.Resolves(End(db, events).sessions, m.token, t) <==> t < now + c.lifetime
  {
    var k := SingleUse.TokenKey(SingleUse.Reset, token);
    var closed := WithoutSessions(WithPassword(Burnt(db, k), user, password), user, None);
    var reset := WithAccount(WithoutDevices(closed, user), user, Lockout.FRESH_ACCOUNT);
    var after := WithSession(c, reset, m, user, Challenges.PASSWORD, now);
    var first := Event(Reset(token, password, at), Done(user), reset);
    var second := Event(Enter(user, now, m), SignedIn(user, m.token), after);
    events := [first, second];
    ResetHappens(c, db, token, password, at, user, reset);
    assert Happens(c, reset, second.call, second.result, after);
    forall device, t
      ensures !DeviceValid(reset, user, device, t)
    {
      ResetDropsDevices(c, db, token, password, at, user, reset, device, t);
    }
    assert NeedsCode(reset, user);
    assert OfUser(after.sessions, user, Challenges.PASSWORD) ==
           OfUser(db.sessions, user, Challenges.PASSWORD) + {m.token};
    hide Happens, NeedsCode, OfUser;
    assert events[1..] == [second] && [second][1..] == [];
    assert Run(c, after, []) && Run(c, reset, [second]);
    assert AlwaysNeedsCode(after, [], user) && AlwaysNeedsCode(reset, [second], user);
    assert CodesAccepted(c, reset, [second], user, Challenges.PASSWORD) == 0;
  }

  lemma ResetHappens(c: Config, db: Db, token: string, password: string, at: int, user: string, reset: Db)
    requires user in db.users && |password| >= MIN_PASSWORD_LENGTH
    requires SingleUse.Present(db.tokens, SingleUse.TokenKey(SingleUse.Reset, token), at, Emails(db)) ==
               SingleUse.Redeemed(user)
    requires var k := SingleUse.TokenKey(SingleUse.Reset, token);
             var closed := WithoutSessions(WithPassword(Burnt(db, k), user, password), user, None);
             reset == WithAccount(WithoutDevices(closed, user), user, Lockout.FRESH_ACCOUNT)
    ensures Happens(c, db, Reset(token, password, at), Done(user), reset)
    ensures user in reset.users && reset.users[user].secret == db.users[user].secret
    ensures forall session :: session in reset.sessions <==> session in db.sessions
    ensures forall session :: session in db.sessions ==>
              reset.sessions[session].user == db.sessions[session].user &&
              reset.sessions[session].factor == db.sessions[session].factor
  {
    hide SingleUse.Present, SingleUse.Burn, Emails;
  }

  // -------------------------------------------------------- what stays revoked

  ghost predicate KeepsSessions(t: Sessions.Table, after: Sessions.Table) {
    forall token :: token in t ==>
      token in after && after[token].user == t[token].user && after[token].factor == t[token].factor &&
      (t[token].revoked ==> after[token].revoked)
  }

  ghost predicate KeepsDevices(t: map<string, Device>, after: map<string, Device>) {
    forall device :: device in t ==>
      device in after && after[device].user == t[device].user && (t[device].revoked ==> after[device].revoked)
  }

  ghost predicate KeepsTokens(t: SingleUse.Tokens, after: SingleUse.Tokens) {
    forall k :: k in t ==> k in after && (t[k].used ==> after[k].used)
  }

  ghost predicate Keeps(db: Db, after: Db) {
    && KeepsSessions(db.sessions, after.sessions)
    && KeepsDevices(db.devices, after.devices)
    && KeepsTokens(db.tokens, after.tokens)
  }

  lemma SameKeeps(db: Db, after: Db)
    requires after.sessions == db.sessions && after.devices == db.devices && after.tokens == db.tokens
    ensures Keeps(db, after)
  {
  }

  lemma KeepsOn(a: Db, b: Db, c: Db)
    requires Keeps(a, b) && Keeps(b, c)
    ensures Keeps(a, c)
  {
  }

  lemma SessionKeeps(c: Config, db: Db, m: Mint, user: string, factor: string, now: int)
    ensures Keeps(db, WithSession(c, db, m, user, factor, now))
  {
    hide Challenges.SessionFactor;
  }

  lemma BurnKeeps(db: Db, k: SingleUse.TokenKey)
    ensures Keeps(db, Burnt(db, k))
  {
    hide Emails;
  }

  lemma TrustKeeps(db: Db, m: Mint, user: string, now: int)
    ensures Keeps(db, WithDevice(db, m, user, now))
  {
    SameKeeps(db, db);
  }

  lemma UntrustKeeps(db: Db, user: string, device: string)
    ensures Keeps(db, WithoutDevice(db, user, device))
  {
    SameKeeps(db, db);
  }

  lemma ClosingKeeps(db: Db, user: string, keep: Option<string>)
    ensures Keeps(db, WithoutSessions(db, user, keep))
    ensures Keeps(db, WithoutDevices(WithoutSessions(db, user, keep), user))
  {
  }

  lemma StatementKeeps(db: Db, step: Sessions.Step)
    ensures Keeps(db, db.(sessions := Sessions.Next(db.sessions, step)))
  {
  }

  lemma FinishKeeps(c: Config, start: Db, db: Db, user: string, factor: string, device: string, now: int, m: Mint,
                    r: Result, after: Db)
    requires Keeps(start, db) && Finishes(c, db, user, factor, device, now, m, r, after)
    ensures Keeps(start, after)
  {
    hide Keeps, Admitted, WithSession;
    SameKeeps(db, db);
    SessionKeeps(c, db, m, user, factor, now);
    SameKeeps(db, WithChallenge(db, m, user, factor, now));
    KeepsOn(start, db, after);
  }

  lemma VerifyKeeps(c: Config, db: Db, token: string, code: string, trust: bool, now: int, m: Mint, r: Result,
                    after: Db)
    requires Verifies(c, db, token, code, trust, now, m, r, after)
    ensures Keeps(db, after)
  {
    hide Keeps, Accepts, WithSession, WithDevice, WithoutDevice;
    SameKeeps(db, db);
    SameKeeps(db, Charged(db, token));
    if Open(db, token, now) {
      var row := db.challenges[token];
      var spent := Spent(c, db, row.user, db.users[row.user].secret.value, code, now);
      SameKeeps(db, spent);
      SameKeeps(db, Consumed(spent, token));
      EnterKeeps(c, db, Consumed(spent, token), trust, m, row.user, row.factor, now);
    }
  }

  lemma EnterKeeps(c: Config, db: Db, passed: Db, trust: bool, m: Mint, user: string, factor: string, now: int)
    requires Keeps(db, passed)
    ensures var trusted := if trust then WithDevice(passed, m, user, now) else passed;
            && Keeps(db, trusted)
            && Keeps(db, WithSession(c, trusted, m, user, factor, now))
            && Keeps(db, WithoutDevice(trusted, user, m.device))
  {
    hide Keeps, WithSession, WithDevice, WithoutDevice;
    var trusted := if trust then WithDevice(passed, m, user, now) else passed;
    TrustKeeps(passed, m, user, now);
    SameKeeps(passed, passed);
    KeepsOn(db, passed, trusted);
    UntrustKeeps(trusted, user, m.device);
    KeepsOn(db, trusted, WithoutDevice(trusted, user, m.device));
    SessionKeeps(c, trusted, m, user, factor, now);
    KeepsOn(db, trusted, WithSession(c, trusted, m, user, factor, now));
  }

  /** Closing a user's sessions, then devices, then clearing the lock, as far as that gets. */
  lemma ClosedKeeps(db: Db, changed: Db, user: string)
    requires Keeps(db, changed)
    ensures var closed := WithoutSessions(changed, user, None);
            var dropped := WithoutDevices(closed, user);
            Keeps(db, closed) && Keeps(db, dropped) && Keeps(db, WithAccount(dropped, user, Lockout.FRESH_ACCOUNT))
  {
    hide Keeps, WithoutSessions, WithoutDevices;
    var closed := WithoutSessions(changed, user, None);
    var dropped := WithoutDevices(closed, user);
    ClosingKeeps(changed, user, None);
    KeepsOn(db, changed, closed);
    KeepsOn(db, changed, dropped);
    SameKeeps(dropped, WithAccount(dropped, user, Lockout.FRESH_ACCOUNT));
    KeepsOn(db, dropped, WithAccount(dropped, user, Lockout.FRESH_ACCOUNT));
  }

  lemma ResetKeeps(db: Db, token: string, password: string, now: int, r: Result, after: Db)
    requires Resets(db, token, password, now, r, after)
    ensures Keeps(db, after)
  {
    hide Keeps, SingleUse.Present, SingleUse.Burn, Emails, WithoutSessions, WithoutDevices, WithAccount;
    var k := SingleUse.TokenKey(SingleUse.Reset, token);
    var outcome := SingleUse.Present(db.tokens, k, now, Emails(db));
    var burnt := Burnt(db, k);
    BurnKeeps(db, k);
    SameKeeps(db, db);
    if outcome.Redeemed? {
      var changed := WithPassword(burnt, outcome.user, password);
      SameKeeps(burnt, changed);
      KeepsOn(db, burnt, changed);
      ClosedKeeps(db, changed, outcome.user);
    }
  }

  lemma AdminResetKeeps(db: Db, user: string, password: string, r: Result, after: Db)
    requires AdminResets(db, user, password, r, after)
    ensures Keeps(db, after)
  {
    hide Keeps, WithoutSessions, WithoutDevices, WithAccount;
    SameKeeps(db, db);
    SameKeeps(db, WithPassword(db, user, password));
    ClosedKeeps(db, WithPassword(db, user, password), user);
  }

  lemma ConfirmKeeps(db: Db, token: string, now: int, r: Result, after: Db)
    requires Confirms(db, token, now, r, after)
    ensures Keeps(db, after)
  {
    hide Keeps, SingleUse.Present, SingleUse.Burn, Emails;
    var k := SingleUse.TokenKey(SingleUse.Verification, token);
    var outcome := SingleUse.Present(db.tokens, k, now, Emails(db));
    SameKeeps(db, db);
    BurnKeeps(db, k);
    if outcome.Redeemed? {
      SameKeeps(Burnt(db, k), WithVerified(Burnt(db, k), outcome.user));
      KeepsOn(db, Burnt(db, k), WithVerified(Burnt(db, k), outcome.user));
    }
  }

  lemma ChangeKeeps(db: Db, user: string, current: string, password: string, keepToken: string, r: Result, after: Db)
    requires Changes(db, user, current, password, keepToken, r, after)
    ensures Keeps(db, after)
  {
    hide Keeps, Sessions.RevokedAll;
    SameKeeps(db, db);
    var changed := WithPassword(db, user, password);
    SameKeeps(db, changed);
    ClosingKeeps(changed, user, Sessions.OptionalHash(keepToken));
    var closed := WithoutSessions(changed, user, Sessions.OptionalHash(keepToken));
    KeepsOn(db, changed, closed);
    KeepsOn(db, changed, WithoutDevices(closed, user));
  }

  lemma SignInKeeps(c: Config, db: Db, user: string, password: string, device: string, now: int, m: Mint, r: Result,
                    after: Db)
    requires user in db.users && SignsIn(c, db, user, password, device, now, m, r, after)
    ensures Keeps(db, after)
  {
    hide Keeps, Finishes, Lockout.ReadLock, Lockout.RecordFailure;
    var cleared := WithAccount(db, user, Lockout.FRESH_ACCOUNT);
    SameKeeps(db, cleared);
    if Finishes(c, cleared, user, Challenges.PASSWORD, device, now, m, r, after) {
      FinishKeeps(c, db, cleared, user, Challenges.PASSWORD, device, now, m, r, after);
    } else {
      SameKeeps(db, after);
    }
  }

  lemma LinkKeeps(c: Config, db: Db, token: string, device: string, now: int, m: Mint, r: Result, after: Db)
    requires RedeemsLink(c, db, token, device, now, m, r, after)
    ensures Keeps(db, after)
  {
    hide Keeps, Finishes, SingleUse.Present, SingleUse.Burn, Emails;
    var k := SingleUse.TokenKey(SingleUse.MagicLink, token);
    var outcome := SingleUse.Present(db.tokens, k, now, Emails(db));
    SameKeeps(db, db);
    BurnKeeps(db, k);
    if outcome.Redeemed? {
      var verified := WithVerified(Burnt(db, k), outcome.user);
      SameKeeps(Burnt(db, k), verified);
      KeepsOn(db, Burnt(db, k), verified);
      if Finishes(c, verified, outcome.user, Challenges.MAGIC_LINK, device, now, m, r, after) {
        FinishKeeps(c, db, verified, outcome.user, Challenges.MAGIC_LINK, device, now, m, r, after);
      }
    }
  }

  lemma StepKeeps(c: Config, db: Db, call: Call, r: Result, after: Db)
    requires Happens(c, db, call, r, after)
    ensures Keeps(db, after)
  {
    hide Keeps, SignsIn, RedeemsLink, Finishes, Verifies, Resets, AdminResets, Confirms, Changes;
    hide WithSession, WithoutSessions, WithoutDevices, WithoutDevice, Sessions.Next, SingleUse.Enrolled;
    SameKeeps(db, db);
    match call
    case SignIn(found, password, device, now, m) =>
      if found.Some? && found.value in db.users {
        SignInKeeps(c, db, found.value, password, device, now, m, r, after);
      }
    case RedeemLink(token, device, now, m) => LinkKeeps(c, db, token, device, now, m, r, after);
    case OAuth(user, device, now, m) => FinishKeeps(c, db, db, user, Challenges.OAUTH, device, now, m, r, after);
    case Verify(token, code, trust, now, m) => VerifyKeeps(c, db, token, code, trust, now, m, r, after);
    case Reset(token, password, now) => ResetKeeps(db, token, password, now, r, after);
    case AdminReset(user, password) => AdminResetKeeps(db, user, password, r, after);
    case ConfirmEmail(token, now) => ConfirmKeeps(db, token, now, r, after);
    case Untrust(user, device) => UntrustKeeps(db, user, device);
    case Change(user, current, password, keepToken) => ChangeKeeps(db, user, current, password, keepToken, r, after);
    case RevokeAll(user) => ClosingKeeps(db, user, None);
    case Enter(user, now, m) => SessionKeeps(c, db, m, user, Challenges.PASSWORD, now);
    case Statement(step) => StatementKeeps(db, step);
    case Issue(k, _, _, _) => assert KeepsTokens(db.tokens, after.tokens); IssueKeeps(db, after, k);
    case SetSecret(_, _, _) => SameKeeps(db, after);
    case Register(_, _) => SameKeeps(db, after);
  }

  lemma IssueKeeps(db: Db, after: Db, k: SingleUse.TokenKey)
    requires after.sessions == db.sessions && after.devices == db.devices
    requires k in db.tokens ==> after == db
    requires k !in db.tokens ==> k in after.tokens && after.tokens == db.tokens[k := after.tokens[k]]
    ensures Keeps(db, after)
  {
  }

  lemma {:induction false} RunKeeps(c: Config, db: Db, events: seq<Event>)
    requires Run(c, db, events)
    ensures Keeps(db, End(db, events))
    decreases |events|
  {
    hide Happens;
    if events != [] {
      var e := events[0];
      StepKeeps(c, db, e.call, e.result, e.after);
      RunKeeps(c, e.after, events[1..]);
      assert End(e.after, events[1..]) == End(db, events);
    }
  }

  /** A completed reset is permanent: the user's earlier sessions and trusted devices
      never work again, the token is spent, and the account starts afresh with the new
      password, whatever flows follow. */
  lemma ResetIsPermanent(c: Config, db: Db, token: string, password: string, at: int, user: string, after: Db,
                         events: seq<Event>)
    requires Happens(c, db, Reset(token, password, at), Done(user), after) && Run(c, after, events)
    ensures var later := End(after, events);
            && (forall session, now :: session in db.sessions && db.sessions[session].user == user ==>
                  !Sessions.Resolves(later.sessions, session, now))
            && (forall device, now :: device in db.devices && db.devices[device].user == user ==>
                  !DeviceValid(later, user, device, now))
            && (forall now, emails ::
                  SingleUse.Present(later.tokens, SingleUse.TokenKey(SingleUse.Reset, token), now, emails).Invalid?)
    ensures |password| >= MIN_PASSWORD_LENGTH && user in after.users
    ensures after.users[user].password == password && after.users[user].account == Lockout.FRESH_ACCOUNT
  {
    RunKeeps(c, after, events);
  }

  /** What a completed reset leaves standing: TOTP, recovery codes, every challenge, and
      all that belongs to others. A challenge issued on the old password stays open
      exactly as it was, and a right code still turns it into a session. */
  lemma ResetLeavesStanding(c: Config, db: Db, token: string, password: string, at: int, user: string, after: Db,
                            challenge: string, code: string, now: int, m: Mint)
    requires Happens(c, db, Reset(token, password, at), Done(user), after)
    ensures after.challenges == db.challenges && after.codes == db.codes
    ensures Open(after, challenge, now) <==> Open(db, challenge, now)
    ensures Open(after, challenge, now) && m.token !in after.sessions &&
            Accepts(c, db, db.challenges[challenge].user,
                    db.users[db.challenges[challenge].user].secret.value, code, now) ==>
              exists later :: Happens(c, after, Verify(challenge, code, false, now, m),
                                      SignedIn(db.challenges[challenge].user, m.token), later)
    ensures forall other :: other in db.users && other != user ==>
              other in after.users && after.users[other] == db.users[other]
    ensures user in db.users && after.users[user].secret == db.users[user].secret
    ensures forall session :: session in db.sessions && db.sessions[session].user != user ==>
              session in after.sessions && after.sessions[session] == db.sessions[session]
  {
    hide SingleUse.Burn, Emails;
    if Open(after, challenge, now) {
      var who := db.challenges[challenge].user;
      var secret := db.users[who].secret.value;
      if m.token !in after.sessions && Accepts(c, db, who, secret, code, now) {
        StandingChallengeEnters(c, after, challenge, code, now, m);
      }
    }
  }

  lemma StandingChallengeEnters(c: Config, db: Db, token: string, code: string, now: int, m: Mint)
    requires Open(db, token, now) && m.token !in db.sessions
    requires Accepts(c, db, db.challenges[token].user, db.users[db.challenges[token].user].secret.value, code, now)
    ensures exists later :: Happens(c, db, Verify(token, code, false, now, m),
                                    SignedIn(db.challenges[token].user, m.token), later)
  {
    var row := db.challenges[token];
    var spent := Spent(c, db, row.user, db.users[row.user].secret.value, code, now);
    var later := WithSession(c, Consumed(spent, token), m, row.user, row.factor, now);
    assert Happens(c, db, Verify(token, code, false, now, m), SignedIn(row.user, m.token), later);
  }

  /** A sign-in that matched the password before anything else happened and goes on in
      `db`, where none of the user's devices is trusted: it opens a session exactly when
      the user has no TOTP, and otherwise draws a challenge. */
  lemma StaleSignInResumes(c: Config, db: Db, user: string, device: string, now: int, m: Mint)
    requires user in db.users && !DeviceValid(db, user, device, now)
    requires m.token !in db.sessions && m.token !in db.challenges
    ensures (exists later :: Resumes(c, db, user, device, now, m, SignedIn(user, m.token), later)) <==>
              db.users[user].secret.None?
    ensures (exists later :: Resumes(c, db, user, device, now, m, Challenged(user, m.token), later)) <==>
              db.users[user].secret.Some?
    ensures forall later, t :: Resumes(c, db, user, device, now, m, SignedIn(user, m.token), later) ==>
              (Sessions.Resolves(later.sessions, m.token, t) <==> t < now + c.lifetime)
  {
    var cleared := WithAccount(db, user, Lockout.FRESH_ACCOUNT);
    assert Admitted(cleared, user, device, now) <==> db.users[user].secret.None?;
    var entered := WithSession(c, cleared, m, user, Challenges.PASSWORD, now);
    var challenged := WithChallenge(cleared, m, user, Challenges.PASSWORD, now);
    if db.users[user].secret.None? {
      assert Resumes(c, db, user, device, now, m, SignedIn(user, m.token), entered);
    } else {
      assert Resumes(c, db, user, device, now, m, Challenged(user, m.token), challenged);
    }
  }

  /** Calls that end a user's sessions and trusted devices. */
  predicate Closes(call: Call, user: string) {
    call.Reset? || ((call.AdminReset? || call.Change? || call.RevokeAll?) && call.user == user)
  }

  /** What a reset, a password change or deprovisioning does not reach: a sign-in that
      matched the old password before it and goes on after it. It still opens a session
      exactly when the user has no TOTP: trusted devices, at least, are gone. */
  lemma StaleSignInSurvives(c: Config, db: Db, call: Call, user: string, after: Db, device: string, now: int, m: Mint)
    requires Closes(call, user) && Happens(c, db, call, Done(user), after) && user in db.users
    requires m.token !in after.sessions && m.token !in after.challenges
    ensures user in after.users
    ensures (exists later :: Resumes(c, after, user, device, now, m, SignedIn(user, m.token), later)) <==>
              after.users[user].secret.None?
    ensures (exists later :: Resumes(c, after, user, device, now, m, Challenged(user, m.token), later)) <==>
              after.users[user].secret.Some?
    ensures forall later, t :: Resumes(c, after, user, device, now, m, SignedIn(user, m.token), later) ==>
              (Sessions.Resolves(later.sessions, m.token, t) <==> t < now + c.lifetime)
  {
    if call.Reset? {
      ResetDropsDevices(c, db, call.token, call.password, call.now, user, after, device, now);
    } else {
      ClosingDropsDevices(c, db, call, user, after, device, now);
    }
    StaleSignInResumes(c, after, user, device, now, m);
  }

  lemma ClosingDropsDevices(c: Config, db: Db, call: Call, user: string, after: Db, device: string, now: int)
    requires Closes(call, user) && !call.Reset? && Happens(c, db, call, Done(user), after) && user in db.users
    ensures user in after.users && !DeviceValid(after, user, device, now)
  {
    hide Sessions.RevokedAll;
  }

  lemma ResetDropsDevices(c: Config, db: Db, token: string, password: string, at: int, user: string, after: Db,
                          device: string, now: int)
    requires Happens(c, db, Reset(token, password, at), Done(user), after)
    ensures user in after.users && !DeviceValid(after, user, device, now)
  {
    hide SingleUse.Present, SingleUse.Burn, Emails, Sessions.RevokedAll;
  }

  /** After a completed change the user's only earlier session that can still resolve
      is the kept token's, exactly as before; an empty token spares none. */
  lemma ChangeSparesOne(c: Config, db: Db, user: string, current: string, password: string, keepToken: string,
                        after: Db,
                        events: seq<Event>)
    requires Happens(c, db, Change(user, current, password, keepToken), Done(user), after) && Run(c, after, events)
    ensures var later := End(after, events);
            forall session, now :: session in db.sessions && db.sessions[session].user == user ==>
              Sessions.Resolves(later.sessions, session, now) ==> keepToken != "" && session == keepToken
    ensures forall session, now :: session in db.sessions ==>
              (Sessions.Resolves(after.sessions, session, now) <==>
                 Sessions.Resolves(db.sessions, session, now) &&
                 (db.sessions[session].user != user || (keepToken != "" && session == keepToken)))
    ensures user in db.users && db.users[user].password == current && after.users[user].password == password
  {
    RunKeeps(c, after, events);
  }

  /** Deprovisioning and an administrator's reset leave no earlier session and no trusted
      device working, whatever flows follow. */
  lemma RevocationIsPermanent(c: Config, db: Db, call: Call, user: string, after: Db, events: seq<Event>)
    requires (call.RevokeAll? || call.AdminReset?) && call.user == user
    requires Happens(c, db, call, Done(user), after) && Run(c, after, events)
    ensures var later := End(after, events);
            && (forall session, now :: session in db.sessions && db.sessions[session].user == user ==>
                  !Sessions.Resolves(later.sessions, session, now))
            && (forall device, now :: device in db.devices && db.devices[device].user == user ==>
                  !DeviceValid(later, user, device, now))
  {
    RunKeeps(c, after, events);
  }
}
