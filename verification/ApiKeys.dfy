/** internal/apikey/service.go: workspace API keys, their rotation and revocation. */
module ApiKeys {
  import opened Text
  import opened Wrappers

  const PREFIX := "hc_live_"

  /** `token` stands for its hash. `root` is the key at the head of the rotation
      lineage; it is history the table itself does not store. */
  datatype Key = Key(workspace: string, name: string, token: string, scopes: seq<string>, expiresAt: Option<int>,
                     createdBy: Option<string>, revokedAt: Option<int>, lastUsed: Option<int>, root: string)

  type Table = map<string, Key>

  predicate Live(t: Table, id: string) {
    id in t && t[id].revokedAt.None?
  }

  /** coalesce(revoked_at, now()). */
  function Revoked(key: Key, now: int): Key {
    if key.revokedAt.None? then key.(revokedAt := Some(now)) else key
  }

  predicate Taken(t: Table, id: string, token: string) {
    id in t || exists other :: other in t && t[other].token == token
  }

  predicate Owns(t: Table, workspace: string, id: string) {
    id in t && t[id].workspace == workspace
  }

  // ------------------------------------------------------------------ statements

  function NewKey(workspace: string, member: string, name: string, scopes: seq<string>, expiresAt: Option<int>,
                  token: string, root: string): Key {
    Key(workspace, name, token, Unique(scopes), expiresAt, Some(member), None, None, root)
  }

  function RevokedOne(t: Table, workspace: string, id: string, now: int): Table {
    if Owns(t, workspace, id) then t[id := Revoked(t[id], now)] else t
  }

  predicate Issued(key: Key, workspace: string, member: string) {
    key.workspace == workspace && key.createdBy == Some(member)
  }

  /** `unseen` are keys inserted by transactions still open when the UPDATE took its
      snapshot: it does not see them, though they may commit before it does. */
  function RevokedMember(t: Table, workspace: string, member: string, unseen: set<string>, now: int): Table {
    map id | id in t ::
      if Issued(t[id], workspace, member) && id !in unseen then Revoked(t[id], now) else t[id]
  }

  function Touched(t: Table, id: string, now: int): Table {
    if id in t then t[id := t[id].(lastUsed := Some(now))] else t
  }

  /** What a rotation asks for: a blank name, no scopes or no expiry keeps the old one. */
  datatype Request = Request(name: string, scopes: seq<string>, expiresAt: Option<int>)

  function Replacement(prior: Key, member: string, r: Request, token: string): Key {
    NewKey(prior.workspace, member,
           if Trim(r.name) == "" then prior.name else Trim(r.name),
           if r.scopes == [] then prior.scopes else r.scopes,
           if r.expiresAt.None? then prior.expiresAt else r.expiresAt,
           token, prior.root)
  }

  function Rotated(t: Table, workspace: string, member: string, id: string, r: Request,
                   newId: string, token: string, now: int): Table
    requires id in t
  {
    RevokedOne(t[newId := Replacement(t[id], member, r, token)], workspace, id, now)
  }

  /** What each operation's transaction does to the table when it commits. */
  datatype Step =
    | Create(workspace: string, member: string, name: string, scopes: seq<string>, expiresAt: Option<int>,
             id: string, token: string)
    | Rotate(workspace: string, member: string, id: string, request: Request, newId: string, token: string, now: int)
    | Revoke(workspace: string, id: string, now: int)
    | RevokeMember(workspace: string, member: string, unseen: set<string>, now: int)
    | Touch(id: string, now: int)   // last_used_at, in a statement of its own

  predicate Rotates(t: Table, step: Step)
    requires step.Rotate?
  {
    Owns(t, step.workspace, step.id) && Live(t, step.id) && !Taken(t, step.newId, step.token)
  }

  function Next(t: Table, step: Step): Table {
    match step
    case Create(workspace, member, name, scopes, expiresAt, id, token) =>
      if Trim(name) == "" || Taken(t, id, token) then t
      else t[id := NewKey(workspace, member, Trim(name), scopes, expiresAt, token, id)]
    case Rotate(workspace, member, id, request, newId, token, now) =>
      if Rotates(t, step) then Rotated(t, workspace, member, id, request, newId, token, now) else t
    case Revoke(workspace, id, now) => RevokedOne(t, workspace, id, now)
    case RevokeMember(workspace, member, unseen, now) => RevokedMember(t, workspace, member, unseen, now)
    case Touch(id, now) => Touched(t, id, now)
  }

  datatype Outcome = Created(id: string, token: string) | InvalidName | NotFound | KeyRevoked | Failed

  datatype Principal = Principal(id: string, workspace: string, createdBy: Option<string>, scopes: seq<string>)

  predicate Authenticates(t: Table, id: string, raw: string, now: int) {
    && PREFIX <= Trim(raw)
    && Live(t, id) && t[id].token == Trim(raw)
    && (t[id].expiresAt.Some? ==> t[id].expiresAt.value > now)
  }

  /** key_hash is UNIQUE. */
  ghost predicate TokensDiffer(t: Table) {
    forall a, b :: a in t && b in t && a != b ==> t[a].token != t[b].token
  }

  /** A replacement is a live key of the same workspace and lineage. A blank name, an
      empty list of scopes or no expiry asks for the old key's. */
  ghost predicate Inherits(prior: Key, key: Key, request: Request) {
    && key.workspace == prior.workspace && key.root == prior.root && key.revokedAt.None? && key.lastUsed.None?
    && key.name == (if Blank(request.name) then prior.name else Trim(request.name))
    && (request.expiresAt.Some? ==> key.expiresAt == request.expiresAt)
    && (request.expiresAt.None? ==> key.expiresAt == prior.expiresAt)
    && (|request.scopes| > 0 ==> forall x :: x in key.scopes <==> x != "" && TrimsTo(request.scopes, x))
    && (|request.scopes| == 0 ==> forall x :: x in key.scopes <==> x != "" && TrimsTo(prior.scopes, x))
  }

  class KeyStore {
    var keys: Table

    constructor ()
      ensures keys == map[] && TokensDiffer(keys)
    {
      keys := map[];
    }

    /** `id` and `token` are freshly drawn; a collision is refused. `stored` records
        whether the row was written: reading it back may still fail. */
    method Create(workspace: string, member: string, name: string, scopes: seq<string>, expiresAt: Option<int>,
                  id: string, token: string) returns (r: Outcome, ghost stored: bool)
      requires TokensDiffer(keys)
      modifies this
      ensures TokensDiffer(keys)
      ensures r.InvalidName? <==> Trim(name) == ""
      ensures r.Created? ==> stored && r == Created(id, token)
      ensures stored ==> !Taken(old(keys), id, token)
      ensures stored ==> keys == Next(old(keys), Step.Create(workspace, member, name, scopes, expiresAt, id, token))
      ensures stored ==>
                && id !in old(keys) && keys.Keys == old(keys).Keys + {id}
                && (forall other :: other in old(keys) ==> keys[other] == old(keys)[other])
                && keys[id].workspace == workspace && keys[id].name == Trim(name) && keys[id].token == token
                && keys[id].expiresAt == expiresAt && keys[id].createdBy == Some(member)
                && keys[id].revokedAt.None? && keys[id].lastUsed.None?
                && (forall x :: x in keys[id].scopes <==> x != "" && TrimsTo(scopes, x))
      ensures !stored ==> keys == old(keys)
      ensures r.Created? || r.InvalidName? || r.Failed?
    {
      stored := false;
      var trimmed := Trim(name);
      if trimmed == "" {
        return InvalidName, false;
      }
      if Taken(keys, id, token) { return Failed, false; }
      if * { return Failed, false; }
      var unique := UniqueStrings(scopes);
      keys := keys[id := Key(workspace, trimmed, token, unique, expiresAt, Some(member), None, None, id)];
      stored := true;
      if * { return Failed, true; }
      r := Created(id, token);
    }

    /** One transaction: select for update, insert, revoke; a failure of either write
        leaves the table as it was. */
    method Rotate(workspace: string, member: string, id: string, request: Request,
                  newId: string, token: string, now: int)
      returns (r: Outcome, ghost committed: bool)
      requires TokensDiffer(keys)
      modifies this
      ensures TokensDiffer(keys)
      ensures !committed ==> keys == old(keys)
      ensures var step := Step.Rotate(workspace, member, id, request, newId, token, now);
              committed ==> Rotates(old(keys), step) && keys == Next(old(keys), step)
      ensures r.Created? ==> committed && r == Created(newId, token)
      ensures r.NotFound? ==> !Owns(old(keys), workspace, id)
      ensures r.KeyRevoked? ==> Owns(old(keys), workspace, id) && !Live(old(keys), id)
      ensures r.Created? || r.NotFound? || r.KeyRevoked? || r.Failed?
    {
      hide Trim, Unique, FirstOccurrences, Cleaned;
      committed := false;
      var saved := keys;
      if * { return Failed, false; }
      if id !in keys || keys[id].workspace != workspace {
        return NotFound, false;
      }
      var prior := keys[id];
      if prior.revokedAt.Some? {
        return KeyRevoked, false;
      }
      var name := if Trim(request.name) == "" then prior.name else Trim(request.name);
      var scopes := if request.scopes == [] then prior.scopes else request.scopes;
      var expiresAt := if request.expiresAt.None? then prior.expiresAt else request.expiresAt;
      if Taken(keys, newId, token) { return Failed, false; }
      if * { return Failed, false; }
      var unique := UniqueStrings(scopes);
      keys := keys[newId := Key(workspace, name, token, unique, expiresAt, Some(member), None, None, prior.root)];
      if * {
        keys := saved;
        return Failed, false;
      }
      keys := keys[id := keys[id].(revokedAt := Some(now))];
      if * {
        keys := saved;
        return Failed, false;
      }
      committed := true;
      if * { return Failed, true; }
      r := Created(newId, token);
    }

    method Revoke(workspace: string, id: string, now: int) returns (found: bool)
      modifies this
      ensures found <==> Owns(old(keys), workspace, id)
      ensures keys == Next(old(keys), Step.Revoke(workspace, id, now))
      ensures found ==>
                keys[id].revokedAt == if old(keys)[id].revokedAt.None? then Some(now) else old(keys)[id].revokedAt
    {
      found := id in keys && keys[id].workspace == workspace;
      if found && keys[id].revokedAt.None? {
        keys := keys[id := keys[id].(revokedAt := Some(now))];
      }
    }

    method RevokeAllForMember(workspace: string, member: string, unseen: set<string>, now: int)
      modifies this
      ensures keys == Next(old(keys), Step.RevokeMember(workspace, member, unseen, now))
      ensures forall id :: Live(keys, id) <==>
                Live(old(keys), id) && (!Issued(old(keys)[id], workspace, member) || id in unseen)
      ensures forall id :: id in keys <==> id in old(keys)
      ensures forall id :: id in old(keys) ==>
                var key := old(keys)[id];
                var struck := key.workspace == workspace && key.createdBy == Some(member) && key.revokedAt.None? &&
                              id !in unseen;
                keys[id] == if struck then key.(revokedAt := Some(now)) else key
    {
      keys := map id | id in keys ::
                if Issued(keys[id], workspace, member) && keys[id].revokedAt.None? && id !in unseen
                then keys[id].(revokedAt := Some(now)) else keys[id];
    }

    /** Usage is recorded once every check has passed; if either statement fails, so
        does the call. */
    method Authenticate(raw: string, now: int) returns (principal: Option<Principal>, failed: bool)
      requires TokensDiffer(keys)
      modifies this
      ensures TokensDiffer(keys)
      ensures principal.Some? ==>
                && Authenticates(old(keys), principal.value.id, raw, now)
                && var key := old(keys)[principal.value.id];
                   principal.value == Principal(principal.value.id, key.workspace, key.createdBy, Unique(key.scopes))
      ensures principal.Some? ==>
                var key := old(keys)[principal.value.id];
                && "hc_live_" <= Trim(raw) && key.token == Trim(raw) && key.revokedAt.None?
                && (key.expiresAt.Some? ==> now < key.expiresAt.value)
      ensures principal.None? && !failed && "hc_live_" <= Trim(raw) ==>
                forall id :: id in keys && keys[id].token == Trim(raw) ==>
                  keys[id].revokedAt.Some? || (keys[id].expiresAt.Some? && keys[id].expiresAt.value <= now)
      ensures principal.Some? ==> !failed && keys == Next(old(keys), Step.Touch(principal.value.id, now))
      ensures principal.None? ==> keys == old(keys)
      ensures principal.None? && !failed ==> forall id :: !Authenticates(keys, id, raw, now)
    {
      hide Unique, Trim;
      var token := Trim(raw);
      if !(PREFIX <= token) {
        return None, false;
      }
      if * { return None, true; }
      if id :| id in keys && keys[id].token == token && keys[id].revokedAt.None? &&
               (keys[id].expiresAt.None? || keys[id].expiresAt.value > now)
      {
        var key := keys[id];
        var scopes := UniqueStrings(key.scopes);
        if * { return None, true; }
        keys := keys[id := key.(lastUsed := Some(now))];
        return Some(Principal(id, key.workspace, key.createdBy, scopes)), false;
      }
      return None, false;
    }
  }

  // ------------------------------------------------------------------------ runs

  function Run(t: Table, steps: seq<Step>): Table
    decreases |steps|
  {
    if steps == [] then t else Run(Next(t, steps[0]), steps[1..])
  }

  ghost predicate OneLivePerLineage(t: Table) {
    forall a, b :: Live(t, a) && Live(t, b) && t[a].root == t[b].root ==> a == b
  }

  ghost predicate Rooted(t: Table) {
    forall id {:trigger t[id].root} :: id in t ==> t[id].root in t
  }

  ghost predicate LineageHasOneWorkspace(t: Table) {
    forall a, b :: a in t && b in t && t[a].root == t[b].root ==> t[a].workspace == t[b].workspace
  }

  ghost predicate ScopesAreClean(t: Table) {
    forall id :: id in t ==> Unique(t[id].scopes) == t[id].scopes
  }

  ghost predicate Inv(t: Table) {
    TokensDiffer(t) && OneLivePerLineage(t) && LineageHasOneWorkspace(t) && Rooted(t) && ScopesAreClean(t)
  }

  lemma AddKeepsTokens(t: Table, id: string, key: Key)
    requires TokensDiffer(t) && !Taken(t, id, key.token)
    ensures TokensDiffer(t[id := key])
  {
  }

  lemma AddKeepsRooted(t: Table, id: string, key: Key)
    requires Rooted(t) && (key.root == id || key.root in t)
    ensures Rooted(t[id := key])
  {
  }

  lemma AddKeepsWorkspace(t: Table, id: string, key: Key, prior: string)
    requires LineageHasOneWorkspace(t) && Rooted(t) && id !in t
    requires key.root == id || (prior in t && t[prior].root == key.root && t[prior].workspace == key.workspace)
    ensures LineageHasOneWorkspace(t[id := key])
  {
  }

  lemma AddKeepsScopes(t: Table, id: string, key: Key, scopes: seq<string>)
    requires ScopesAreClean(t) && key.scopes == Unique(scopes)
    ensures ScopesAreClean(t[id := key])
  {
    hide Unique;
    UniqueIsIdempotent(scopes);
  }

  lemma CreateKeepsLineages(t: Table, id: string, key: Key)
    requires OneLivePerLineage(t) && Rooted(t) && id !in t && key.root == id
    ensures OneLivePerLineage(t[id := key])
  {
  }

  predicate SameUpToRevocation(key: Key, key': Key) {
    key' == key.(revokedAt := key'.revokedAt, lastUsed := key'.lastUsed) &&
    (key.revokedAt.Some? ==> key'.revokedAt.Some?)
  }

  /** t' is t with some more keys revoked or used. */
  ghost predicate Tightens(t: Table, t': Table) {
    (forall id :: id in t' <==> id in t) &&
    forall id :: id in t ==> SameUpToRevocation(t[id], t'[id])
  }

  lemma TighteningKeepsIdentity(t: Table, t': Table)
    requires Tightens(t, t')
    ensures TokensDiffer(t) ==> TokensDiffer(t')
    ensures Rooted(t) ==> Rooted(t')
  {
    assert forall id :: id in t ==> t'[id].token == t[id].token && t'[id].root == t[id].root;
    hide Tightens;
  }

  lemma TighteningKeepsScopes(t: Table, t': Table)
    requires Tightens(t, t') && ScopesAreClean(t)
    ensures ScopesAreClean(t')
  {
    hide Unique;
  }

  lemma TighteningKeepsLineages(t: Table, t': Table)
    requires Tightens(t, t')
    ensures LineageHasOneWorkspace(t) ==> LineageHasOneWorkspace(t')
    ensures OneLivePerLineage(t) ==> OneLivePerLineage(t')
  {
  }

  lemma TighteningKeepsInv(t: Table, t': Table)
    requires Inv(t) && Tightens(t, t')
    ensures Inv(t')
  {
    hide TokensDiffer, Rooted, ScopesAreClean, OneLivePerLineage, LineageHasOneWorkspace;
    TighteningKeepsIdentity(t, t');
    TighteningKeepsScopes(t, t');
    TighteningKeepsLineages(t, t');
  }

  /** Between the insert and the revocation two keys of the lineage are live; after it
      the new one has taken the old one's place. */
  ghost predicate Replaces(t: Table, t': Table, prior: string, id: string) {
    && Live(t, prior) && id in t' && t'[id].root == t[prior].root
    && forall other :: Live(t', other) && other != id ==>
         Live(t, other) && other != prior && t'[other].root == t[other].root
  }

  lemma RotateReplaces(t: Table, step: Step)
    requires step.Rotate? && Rotates(t, step)
    ensures Replaces(t, Next(t, step), step.id, step.newId)
  {
    hide Unique, Trim;
  }

  lemma ReplacingKeepsLineages(t: Table, t': Table, prior: string, id: string)
    requires OneLivePerLineage(t) && Replaces(t, t', prior, id)
    ensures OneLivePerLineage(t')
  {
    hide Live;
  }

  lemma RotatedTightens(t: Table, step: Step)
    requires step.Rotate? && Rotates(t, step)
    ensures Tightens(t[step.newId := Replacement(t[step.id], step.member, step.request, step.token)], Next(t, step))
  {
    hide Replacement, Taken;
  }

  lemma RotateKeepsInv(t: Table, step: Step)
    requires Inv(t) && step.Rotate? && Rotates(t, step)
    ensures Inv(Next(t, step))
  {
    var prior := t[step.id];
    var key := Replacement(prior, step.member, step.request, step.token);
    var both := t[step.newId := key];
    assert prior.root in t;
    hide Next, Replaces, Replacement, Taken, Tightens, Unique, Trim;
    hide TokensDiffer, Rooted, ScopesAreClean, OneLivePerLineage, LineageHasOneWorkspace;
    AddKeepsTokens(t, step.newId, key);
    AddKeepsRooted(t, step.newId, key);
    AddKeepsWorkspace(t, step.newId, key, step.id);
    AddKeepsScopes(t, step.newId, key, if step.request.scopes == [] then prior.scopes else step.request.scopes);
    RotatedTightens(t, step);
    TighteningKeepsIdentity(both, Next(t, step));
    TighteningKeepsScopes(both, Next(t, step));
    TighteningKeepsLineages(both, Next(t, step));
    RotateReplaces(t, step);
    ReplacingKeepsLineages(t, Next(t, step), step.id, step.newId);
  }

  lemma NextKeepsInv(t: Table, step: Step)
    requires Inv(t)
    ensures Inv(Next(t, step))
  {
    hide Unique, Trim, TokensDiffer, Rooted, ScopesAreClean, OneLivePerLineage, LineageHasOneWorkspace;
    match step
    case Create(workspace, member, name, scopes, expiresAt, id, token) =>
      var key := NewKey(workspace, member, Trim(name), scopes, expiresAt, token, id);
      if Next(t, step) != t {
        AddKeepsTokens(t, id, key);
        AddKeepsRooted(t, id, key);
        AddKeepsWorkspace(t, id, key, id);
        AddKeepsScopes(t, id, key, scopes);
        CreateKeepsLineages(t, id, key);
      }
    case Rotate(_, _, _, _, _, _, _) => if Rotates(t, step) { RotateKeepsInv(t, step); }
    case Revoke(_, _, _) => TighteningKeepsInv(t, Next(t, step));
    case RevokeMember(_, _, _, _) => TighteningKeepsInv(t, Next(t, step));
    case Touch(_, _) => TighteningKeepsInv(t, Next(t, step));
  }

  lemma {:induction false} RunKeepsInv(t: Table, steps: seq<Step>)
    requires Inv(t)
    ensures Inv(Run(t, steps))
    decreases |steps|
  {
    hide Inv, Next;
    if steps != [] {
      NextKeepsInv(t, steps[0]);
      RunKeepsInv(Next(t, steps[0]), steps[1..]);
    }
  }

  lemma EmptyInv()
    ensures Inv(map[])
  {
  }

  /** In every run, whatever mix of creations, rotations and revocations commits, a
      rotation lineage has at most one unrevoked key, all its keys belong to one
      workspace, and no two keys answer to one token. */
  lemma LineagesHaveOneLiveKey(steps: seq<Step>, a: string, b: string)
    requires var t := Run(map[], steps); a in t && b in t && a != b
    ensures var t := Run(map[], steps);
            && (t[a].root == t[b].root ==> !(Live(t, a) && Live(t, b)) && t[a].workspace == t[b].workspace)
            && t[a].token != t[b].token
  {
    EmptyInv();
    hide Run, Unique, ScopesAreClean;
    RunKeepsInv(map[], steps);
  }

  /** So what Authenticate grants is exactly the scopes stored with the key. */
  lemma GrantedScopesAreStored(steps: seq<Step>, id: string)
    requires id in Run(map[], steps)
    ensures var t := Run(map[], steps); Unique(t[id].scopes) == t[id].scopes
  {
    hide Unique;
    RunKeepsInv(map[], steps);
  }

  function LiveKeys(t: Table): set<string> {
    set id | id in t && Live(t, id)
  }

  /** A rotation that commits trades one live key for another of the same lineage and
      workspace, so the number of live keys stays the same; one that does not commit
      changes nothing. */
  lemma RotateKeepsLiveCount(t: Table, step: Step)
    requires step.Rotate?
    ensures var t' := Next(t, step);
            && |LiveKeys(t')| == |LiveKeys(t)|
            && (!Rotates(t, step) ==> t' == t)
            && (Rotates(t, step) ==>
                  && LiveKeys(t') == LiveKeys(t) - {step.id} + {step.newId}
                  && t'[step.newId].root == t[step.id].root && t'[step.newId].workspace == t[step.id].workspace)
  {
    hide Unique, Trim;
    if Rotates(t, step) {
      assert LiveKeys(Next(t, step)) == LiveKeys(t) - {step.id} + {step.newId};
    }
  }

  /** What a rotation that commits leaves: the old key revoked now, one new key that is
      the member's, answers to the new token and inherits what was not asked for, and
      every other key as it was. */
  lemma RotationCarriesOver(t: Table, step: Step)
    requires step.Rotate? && Rotates(t, step)
    ensures var t' := Next(t, step);
            && step.id in t && step.newId !in t && t'.Keys == t.Keys + {step.newId}
            && t'[step.id] == t[step.id].(revokedAt := Some(step.now))
            && (forall other :: other in t && other != step.id ==> t'[other] == t[other])
            && Inherits(t[step.id], t'[step.newId], step.request)
            && t'[step.newId].token == step.token && t'[step.newId].createdBy == Some(step.member)
  {
    BlankTrimsAway(step.request.name);
    UniqueHolds(step.request.scopes);
    UniqueHolds(t[step.id].scopes);
    hide Trim, Unique, Blank, TrimsTo;
    assert step.newId !in t;
    hide Taken;
  }

  /** A revoked key never authenticates again, and keeps its first revocation time. */
  lemma {:induction false} RevokedForever(t: Table, steps: seq<Step>, id: string)
    requires id in t && !Live(t, id)
    ensures var t' := Run(t, steps);
            && id in t' && t'[id].revokedAt == t[id].revokedAt
            && forall raw, now :: !Authenticates(t', id, raw, now)
    decreases |steps|
  {
    hide Trim, Unique;
    if steps != [] {
      RevokedForever(Next(t, steps[0]), steps[1..], id);
    }
  }

  /** After the member's keys are revoked one of them still authenticates, at some time
      with some token, exactly if it was live, had not expired by then, and its insertion
      was not seen. */
  lemma MemberKeySurvivesExactly(t: Table, workspace: string, member: string, unseen: set<string>, now: int,
                                 id: string, raw: string, at: int)
    requires id in t && Issued(t[id], workspace, member)
    ensures var t' := Next(t, RevokeMember(workspace, member, unseen, now));
            Authenticates(t', id, raw, at) <==> Authenticates(t, id, raw, at) && id in unseen
  {
    hide Trim;
  }

  /** A rotation that is open while the UPDATE takes its snapshot and commits first: the
      old key is revoked, but the replacement the member made is not. */
  lemma RotationOutrunsRevocation(t: Table, step: Step, now: int)
    requires step.Rotate? && Rotates(t, step)
    ensures var t' := Next(Next(t, step), RevokeMember(step.workspace, step.member, {step.newId}, now));
            Live(t', step.newId) && Issued(t'[step.newId], step.workspace, step.member) && !Live(t', step.id)
    ensures var t' := Next(Next(t, step), RevokeMember(step.workspace, step.member, {}, now));
            !Live(t', step.newId)
  {
    hide Trim, Unique;
  }
}
