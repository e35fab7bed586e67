/** The user_sessions table: insertion, lookup that bumps last_seen_at, and the three
    revocations. Tokens stand for their hashes. */
module Sessions {
  import opened Wrappers

  datatype Session = Session(id: string, user: string, factor: string, expiresAt: int, lastSeen: int, revoked: bool)

  type Table = map<string, Session>

  /** optionalHash: an empty token spares no session. */
  function OptionalHash(token: string): Option<string> {
    if token == "" then None else Some(token)
  }

  predicate Resolves(t: Table, token: string, now: int) {
    token in t && !t[token].revoked && t[token].expiresAt > now
  }

  function Inserted(t: Table, token: string, session: Session): Table {
    if token in t then t else t[token := session.(revoked := false)]
  }

  function Touched(t: Table, token: string, now: int): Table {
    if Resolves(t, token, now) then t[token := t[token].(lastSeen := now)] else t
  }

  function RevokedOne(t: Table, token: string): Table {
    if token in t then t[token := t[token].(revoked := true)] else t
  }

  predicate HasId(s: Session, user: string, id: string) {
    s.id == id && s.user == user && !s.revoked
  }

  function RevokedById(t: Table, user: string, id: string): Table {
    map token | token in t :: if HasId(t[token], user, id) then t[token].(revoked := true) else t[token]
  }

  predicate Spared(t: Table, token: string, user: string, keep: Option<string>)
    requires token in t
  {
    t[token].user != user || t[token].revoked || keep == Some(token)
  }

  function RevokedAll(t: Table, user: string, keep: Option<string>): Table {
    map token | token in t :: if Spared(t, token, user, keep) then t[token] else t[token].(revoked := true)
  }

  class SessionStore {
    var sessions: Table

    constructor ()
      ensures sessions == map[]
    {
      sessions := map[];
    }

    method InsertSession(token: string, session: Session) returns (ok: bool)
      modifies this
      ensures ok <==> token !in old(sessions)
      ensures sessions == Inserted(old(sessions), token, session)
      ensures ok ==> token in sessions && sessions[token] == session.(revoked := false)
    {
      ok := token !in sessions;
      if ok {
        sessions := sessions[token := session.(revoked := false)];
      }
    }

    method SessionUser(token: string, now: int) returns (user: Option<string>)
      modifies this
      ensures user.Some? <==> Resolves(old(sessions), token, now)
      ensures user.Some? <==>
                token in old(sessions) && !old(sessions)[token].revoked && now < old(sessions)[token].expiresAt
      ensures sessions == Touched(old(sessions), token, now)
      ensures user.Some? ==> token in sessions && user.value == sessions[token].user && sessions[token].lastSeen == now
    {
      if token !in sessions || sessions[token].revoked || sessions[token].expiresAt <= now {
        return None;
      }
      user := Some(sessions[token].user);
      sessions := sessions[token := sessions[token].(lastSeen := now)];
    }

    method RevokeSession(token: string)
      modifies this
      ensures sessions == RevokedOne(old(sessions), token)
      ensures forall now :: !Resolves(sessions, token, now)
    {
      if token in sessions {
        sessions := sessions[token := sessions[token].(revoked := true)];
      }
    }

    method RevokeSessionById(user: string, id: string) returns (found: bool)
      modifies this
      ensures found <==> exists token :: token in old(sessions) && HasId(old(sessions)[token], user, id)
      ensures sessions == RevokedById(old(sessions), user, id)
    {
      found := exists token :: token in sessions && HasId(sessions[token], user, id);
      sessions := map token | token in sessions ::
                    if HasId(sessions[token], user, id) then sessions[token].(revoked := true) else sessions[token];
    }

    method RevokeAllSessions(user: string, keep: Option<string>)
      modifies this
      ensures sessions == RevokedAll(old(sessions), user, keep)
      ensures forall token, now :: Resolves(sessions, token, now) <==>
                Resolves(old(sessions), token, now) && (old(sessions)[token].user != user || keep == Some(token))
    {
      sessions := map token | token in sessions ::
                    if sessions[token].user != user || sessions[token].revoked || keep == Some(token)
                    then sessions[token] else sessions[token].(revoked := true);
    }
  }

  // ---------------------------------------------------------------------- runs

  datatype Step =
    | Insert(token: string, session: Session)
    | Lookup(token: string, now: int)
    | Revoke(token: string)
    | RevokeId(user: string, id: string)
    | RevokeAll(user: string, keep: Option<string>)

  function Next(t: Table, step: Step): Table {
    match step
    case Insert(token, session) => Inserted(t, token, session)
    case Lookup(token, now) => Touched(t, token, now)
    case Revoke(token) => RevokedOne(t, token)
    case RevokeId(user, id) => RevokedById(t, user, id)
    case RevokeAll(user, keep) => RevokedAll(t, user, keep)
  }

  function Run(t: Table, steps: seq<Step>): Table
    decreases |steps|
  {
    if steps == [] then t else Run(Next(t, steps[0]), steps[1..])
  }

  lemma {:induction false} RevokedForever(t: Table, steps: seq<Step>, token: string)
    requires token in t && t[token].revoked
    ensures var t' := Run(t, steps); token in t' && t'[token].revoked
    decreases |steps|
  {
    if steps != [] {
      RevokedForever(Next(t, steps[0]), steps[1..], token);
    }
  }

  lemma {:induction false} OwnersNeverChange(t: Table, steps: seq<Step>, token: string)
    requires token in t
    ensures var t' := Run(t, steps);
            token in t' && t'[token].user == t[token].user && t'[token].factor == t[token].factor &&
            t'[token].expiresAt == t[token].expiresAt
    decreases |steps|
  {
    if steps != [] {
      OwnersNeverChange(Next(t, steps[0]), steps[1..], token);
    }
  }

  /** A session opened for a user, whatever happened to it in between, no longer
      resolves once the user's sessions are revoked without sparing it, and no later
      insertion, lookup or revocation brings it back. */
  lemma RevocationIsPermanent(t: Table, meanwhile: seq<Step>, user: string, keep: Option<string>, after: seq<Step>,
                              token: string, now: int)
    requires token in t && t[token].user == user && keep != Some(token)
    ensures !Resolves(Run(Next(Run(t, meanwhile), RevokeAll(user, keep)), after), token, now)
  {
    OwnersNeverChange(t, meanwhile, token);
    RevokedForever(Next(Run(t, meanwhile), RevokeAll(user, keep)), after, token);
  }

  /** Nor does any run let a session outlive the expiry it was opened with. */
  lemma SessionsExpire(t: Table, steps: seq<Step>, token: string, now: int)
    requires token in t && t[token].expiresAt <= now
    ensures !Resolves(Run(t, steps), token, now)
  {
    OwnersNeverChange(t, steps, token);
  }

  /** With no token to spare, none of the user's sessions survives; with one, it alone
      does, exactly as it was; other users' sessions are untouched. */
  lemma RevocationIsExact(t: Table, user: string, keepToken: string, token: string, now: int)
    requires token in t
    ensures var t' := Next(t, RevokeAll(user, OptionalHash(keepToken)));
            Resolves(t', token, now) <==>
              Resolves(t, token, now) && (t[token].user != user || (keepToken != "" && token == keepToken))
    ensures var t' := Next(t, RevokeAll(user, OptionalHash(keepToken)));
            t[token].user != user ==> t'[token] == t[token]
  {
  }

  /** Revoking by id ends the session of that id if it is the caller's own, and no other;
      logging out ends the one session behind the token. */
  lemma OneRevocationIsExact(t: Table, user: string, id: string, token: string, other: string, now: int)
    requires other in t
    ensures Resolves(Next(t, RevokeId(user, id)), other, now) <==>
              Resolves(t, other, now) && !(t[other].id == id && t[other].user == user)
    ensures Resolves(Next(t, Revoke(token)), other, now) <==> Resolves(t, other, now) && other != token
  {
  }

  predicate Revokes(t: Table, step: Step, token: string)
    requires token in t
  {
    match step
    case Insert(_, _) => false
    case Lookup(_, _) => false
    case Revoke(other) => other == token
    case RevokeId(user, id) => t[token].user == user && t[token].id == id
    case RevokeAll(user, keep) => t[token].user == user && keep != Some(token)
  }

  /** And nothing else ends a session early: it resolves until it expires or some step
      names its token, its id, or its user without sparing it. */
  lemma {:induction false} SessionsEndOnlyByRevocation(t: Table, steps: seq<Step>, token: string, now: int)
    requires token in t && !t[token].revoked && now < t[token].expiresAt
    requires forall step :: step in steps ==> !Revokes(t, step, token)
    ensures Resolves(Run(t, steps), token, now)
    decreases |steps|
  {
    if steps != [] {
      var t' := Next(t, steps[0]);
      assert steps[0] in steps;
      assert token in t' && !t'[token].revoked && t'[token].user == t[token].user && t'[token].id == t[token].id;
      forall step | step in steps[1..]
        ensures !Revokes(t', step, token)
      {
        assert step in steps && !Revokes(t, step, token);
      }
      SessionsEndOnlyByRevocation(t', steps[1..], token, now);
    }
  }
}
