/** Credentials that work once: emailed tokens and TOTP recovery codes. */
module SingleUse {
  import opened Text
  import opened Wrappers

  /** Each kind has a table of its own. Tokens stand for their hashes. */
  datatype Kind = Verification | Reset | MagicLink

  datatype TokenKey = TokenKey(kind: Kind, token: string)

  datatype Token = Token(user: string, email: string, expiresAt: int, used: bool)

  type Tokens = map<TokenKey, Token>

  datatype Outcome = Redeemed(user: string) | Invalid | Expired

  /** The outcome of presenting a token: the UPDATE matches only an unused row, and
      the expiry and address checks come after it. `emails` are the users' current
      addresses; the magic-link UPDATE joins the user's row. */
  function Present(t: Tokens, k: TokenKey, now: int, emails: map<string, string>): Outcome {
    if k !in t || t[k].used || (k.kind.MagicLink? && t[k].user !in emails) then Invalid
    else if now > t[k].expiresAt then Expired
    else if k.kind.MagicLink? && emails[t[k].user] != t[k].email then Invalid
    else Redeemed(t[k].user)
  }

  function Burn(t: Tokens, k: TokenKey, emails: map<string, string>): Tokens {
    if k !in t || (k.kind.MagicLink? && t[k].user !in emails) then t else t[k := t[k].(used := true)]
  }

  class TokenStore {
    var tokens: Tokens
    var verified: set<string>   // users whose address is verified

    constructor ()
      ensures tokens == map[] && verified == {}
    {
      tokens, verified := map[], {};
    }

    method Issue(k: TokenKey, user: string, email: string, expiresAt: int) returns (ok: bool)
      modifies this`tokens
      ensures ok <==> k !in old(tokens)
      ensures tokens == if ok then old(tokens)[k := Token(user, email, expiresAt, false)] else old(tokens)
    {
      ok := k !in tokens;
      if ok {
        tokens := tokens[k := Token(user, email, expiresAt, false)];
      }
    }

    /** consumeVerificationToken, consumeResetToken and consumeMagicLink. `outage` fails
        the statement that follows a redeemed verification token; the token is spent. */
    method Consume(k: TokenKey, now: int, emails: map<string, string>, outage: bool) returns (r: Outcome, failed: bool)
      modifies this
      ensures r == Present(old(tokens), k, now, emails)
      ensures tokens == Burn(old(tokens), k, emails)
      ensures failed <==> outage && k.kind.Verification? && r.Redeemed?
      ensures verified == old(verified) + if k.kind.Verification? && r.Redeemed? && !failed then {r.user} else {}
      ensures !r.Invalid? ==> k in tokens && tokens[k].used && !old(tokens)[k].used
      ensures r.Redeemed? ==> now <= tokens[k].expiresAt && r.user == tokens[k].user
      ensures r.Redeemed? && k.kind.MagicLink? ==> r.user in emails && emails[r.user] == tokens[k].email
      ensures r.Expired? ==> now > tokens[k].expiresAt
      ensures forall other :: other != k ==> (other in tokens <==> other in old(tokens))
      ensures forall other :: other in tokens && other != k ==> tokens[other] == old(tokens)[other]
    {
      failed := false;
      if k !in tokens || tokens[k].used || (k.kind.MagicLink? && tokens[k].user !in emails) {
        if k in tokens && tokens[k].used {
          assert tokens[k].(used := true) == tokens[k];
          assert tokens[k := tokens[k]] == tokens;
        }
        return Invalid, false;
      }
      tokens := tokens[k := tokens[k].(used := true)];
      var t := tokens[k];
      if now > t.expiresAt {
        return Expired, false;
      }
      if k.kind.MagicLink? && emails[t.user] != t.email {
        return Invalid, false;
      }
      if k.kind.Verification? {
        if outage {
          return Redeemed(t.user), true;
        }
        verified := verified + {t.user};
      }
      r := Redeemed(t.user);
    }
  }

  // --------------------------------------------------------- runs over tokens

  datatype Presentation = Presentation(key: TokenKey, outcome: Outcome)

  datatype State = State(tokens: Tokens, log: seq<Presentation>)

  datatype Step =
    | IssueToken(key: TokenKey, user: string, email: string, expiresAt: int)
    | PresentToken(key: TokenKey, now: int, emails: map<string, string>)

  const INIT := State(map[], [])

  function Next(s: State, step: Step): State {
    match step
    case IssueToken(k, user, email, expiresAt) =>
      if k in s.tokens then s else s.(tokens := s.tokens[k := Token(user, email, expiresAt, false)])
    case PresentToken(k, now, emails) =>
      State(Burn(s.tokens, k, emails), s.log + [Presentation(k, Present(s.tokens, k, now, emails))])
  }

  function Run(s: State, steps: seq<Step>): State
    decreases |steps|
  {
    if steps == [] then s else Run(Next(s, steps[0]), steps[1..])
  }

  /** Whatever was not refused as invalid has been spent, and came to nothing since. */
  ghost predicate SpentOnce(s: State) {
    && (forall i :: 0 <= i < |s.log| && !s.log[i].outcome.Invalid? ==>
          s.log[i].key in s.tokens && s.tokens[s.log[i].key].used)
    && (forall i, j :: 0 <= i < j < |s.log| && s.log[i].key == s.log[j].key && !s.log[i].outcome.Invalid? ==>
          s.log[j].outcome.Invalid?)
  }

  lemma {:induction false} RunKeepsSpent(s: State, steps: seq<Step>)
    requires SpentOnce(s)
    ensures SpentOnce(Run(s, steps))
    decreases |steps|
  {
    if steps != [] {
      assert SpentOnce(Next(s, steps[0]));
      RunKeepsSpent(Next(s, steps[0]), steps[1..]);
    }
  }

  /** Under any interleaving a token is redeemed at most once; presenting it expired
      spends it too, and every later presentation is refused as invalid. */
  lemma RedeemedAtMostOnce(steps: seq<Step>, i: nat, j: nat)
    requires var log := Run(INIT, steps).log; i < j < |log| && log[i].key == log[j].key
    ensures var log := Run(INIT, steps).log; !log[i].outcome.Invalid? ==> log[j].outcome.Invalid?
  {
    RunKeepsSpent(INIT, steps);
  }

  lemma {:induction false} UsedStaysUsed(s: State, steps: seq<Step>, k: TokenKey)
    requires k in s.tokens && s.tokens[k].used
    ensures var s' := Run(s, steps); k in s'.tokens && s'.tokens[k].used
    ensures forall i :: |s.log| <= i < |Run(s, steps).log| && Run(s, steps).log[i].key == k ==>
                          Run(s, steps).log[i].outcome.Invalid?
    ensures s.log <= Run(s, steps).log
    decreases |steps|
  {
    if steps != [] {
      UsedStaysUsed(Next(s, steps[0]), steps[1..], k);
    }
  }

  /** An unused token (for a magic link, of a current address) redeems when presented in time and never
      again; presented late it is gone as well. */
  lemma FirstPresentationDecides(s: State, k: TokenKey, now: int, emails: map<string, string>, later: seq<Step>)
    requires k in s.tokens && !s.tokens[k].used
    requires k.kind.MagicLink? ==> s.tokens[k].user in emails && emails[s.tokens[k].user] == s.tokens[k].email
    ensures var s' := Next(s, PresentToken(k, now, emails));
            && s'.log[|s.log|].outcome == (if now <= s.tokens[k].expiresAt then Redeemed(s.tokens[k].user) else Expired)
            && forall i :: |s'.log| <= i < |Run(s', later).log| && Run(s', later).log[i].key == k ==>
                 Run(s', later).log[i].outcome.Invalid?
  {
    UsedStaysUsed(Next(s, PresentToken(k, now, emails)), later, k);
  }

  // ------------------------------------------------------------- recovery codes

  datatype Code = Code(user: string, hash: string)

  /** Whether each stored code has been used. */
  type Codes = map<Code, bool>

  function Without(c: Codes, user: string): Codes {
    map code | code in c && code.user != user :: c[code]
  }

  function Enrolled(c: Codes, user: string, hashes: seq<string>): Codes {
    Without(c, user) + map code | code in FreshCodes(user, hashes) :: false
  }

  function FreshCodes(user: string, hashes: seq<string>): set<Code> {
    set hash | hash in hashes :: Code(user, hash)
  }

  function UseCode(c: Codes, code: Code): Codes {
    if code in c then c[code := true] else c
  }

  function UnusedOf(c: Codes, user: string): set<Code> {
    set code | code in c && code.user == user && !c[code]
  }

  class RecoveryCodes {
    var codes: Codes
    var secrets: map<string, string>

    constructor ()
      ensures codes == map[] && secrets == map[]
    {
      codes, secrets := map[], map[];
    }

    /** One transaction: the secret, the deletion and every insert, or nothing. The
        unique index on (user, hash) refuses a repeated hash; `outage` fails any other
        statement or the commit. */
    method EnableTOTP(user: string, secret: string, hashes: seq<string>, outage: bool) returns (ok: bool)
      modifies this
      ensures ok <==> Distinct(hashes) && !outage
      ensures ok ==> secrets == old(secrets)[user := secret] && codes == Enrolled(old(codes), user, hashes)
      ensures !ok ==> secrets == old(secrets) && codes == old(codes)
    {
      hide Enrolled, Without, FreshCodes, Distinct;
      EnrolledNone(codes, user);
      assert hashes[..0] == [];
      var next := Without(codes, user);
      for i := 0 to |hashes|
        invariant next == Enrolled(codes, user, hashes[..i]) && Distinct(hashes[..i])
        invariant codes == old(codes) && secrets == old(secrets)
      {
        EnrolledSnoc(codes, user, hashes[..i], hashes[i]);
        DistinctSnoc(hashes, i);
        if Code(user, hashes[i]) in next {
          return false;
        }
        next := next[Code(user, hashes[i]) := false];
      }
      assert hashes[..|hashes|] == hashes;
      if outage {
        return false;
      }
      codes := next;
      secrets := secrets[user := secret];
      ok := true;
    }

    method DisableTOTP(user: string)
      modifies this
      ensures codes == Without(old(codes), user) && secrets == old(secrets) - {user}
    {
      codes := Without(codes, user);
      secrets := secrets - {user};
    }

    method ConsumeRecoveryCode(user: string, hash: string) returns (used: bool)
      modifies this`codes
      ensures used <==> Code(user, hash) in UnusedOf(old(codes), user)
      ensures codes == if used then UseCode(old(codes), Code(user, hash)) else old(codes)
    {
      var code := Code(user, hash);
      used := code in codes && !codes[code];
      if used {
        codes := codes[code := true];
      }
    }

    method CountUnused(user: string) returns (n: nat)
      ensures n == |UnusedOf(codes, user)|
    {
      n := |UnusedOf(codes, user)|;
    }
  }

  lemma FreshSnoc(user: string, hashes: seq<string>, hash: string)
    ensures FreshCodes(user, hashes + [hash]) == FreshCodes(user, hashes) + {Code(user, hash)}
    ensures Code(user, hash) in FreshCodes(user, hashes) <==> hash in hashes
  {
    forall h
      ensures h in hashes + [hash] <==> h in hashes || h == hash
    {
    }
  }

  lemma EnrolledSnoc(c: Codes, user: string, hashes: seq<string>, hash: string)
    ensures Enrolled(c, user, hashes + [hash]) == Enrolled(c, user, hashes)[Code(user, hash) := false]
    ensures Code(user, hash) in Enrolled(c, user, hashes) <==> hash in hashes
  {
    FreshSnoc(user, hashes, hash);
    hide FreshCodes;
  }

  lemma DistinctSnoc(hashes: seq<string>, i: nat)
    requires i < |hashes|
    ensures hashes[..i + 1] == hashes[..i] + [hashes[i]]
    ensures Distinct(hashes[..i]) && hashes[i] !in hashes[..i] ==> Distinct(hashes[..i + 1])
    ensures hashes[i] in hashes[..i] ==> !Distinct(hashes)
  {
  }

  lemma EnrolledNone(c: Codes, user: string)
    ensures Enrolled(c, user, []) == Without(c, user) && Distinct([])
  {
  }

  datatype CodeStep =
    | Enable(user: string, hashes: seq<string>)
    | Disable(user: string)
    | Use(user: string, hash: string)

  /** `redeemed` counts the successful redemptions of one user. */
  datatype CodeState = CodeState(codes: Codes, redeemed: nat)

  ghost function NextCode(s: CodeState, step: CodeStep, user: string): CodeState {
    match step
    case Enable(u, hashes) => if Distinct(hashes) then s.(codes := Enrolled(s.codes, u, hashes)) else s
    case Disable(u) => s.(codes := Without(s.codes, u))
    case Use(u, hash) =>
      if Code(u, hash) in UnusedOf(s.codes, u) then
        CodeState(UseCode(s.codes, Code(u, hash)), s.redeemed + if u == user then 1 else 0)
      else s
  }

  ghost function RunCodes(s: CodeState, steps: seq<CodeStep>, user: string): CodeState
    decreases |steps|
  {
    if steps == [] then s else RunCodes(NextCode(s, steps[0], user), steps[1..], user)
  }

  lemma NextKeepsCodes(s: CodeState, step: CodeStep, user: string)
    requires step.Use? || step.user != user
    ensures var s' := NextCode(s, step, user);
            s'.redeemed + |UnusedOf(s'.codes, user)| == s.redeemed + |UnusedOf(s.codes, user)|
  {
    var s' := NextCode(s, step, user);
    if step.Use? && step.user == user && Code(user, step.hash) in UnusedOf(s.codes, user) {
      assert UnusedOf(s'.codes, user) == UnusedOf(s.codes, user) - {Code(user, step.hash)};
    } else {
      assert UnusedOf(s'.codes, user) == UnusedOf(s.codes, user);
    }
  }

  lemma {:induction false} RunKeepsCodes(s: CodeState, steps: seq<CodeStep>, user: string)
    requires forall step :: step in steps ==> step.Use? || step.user != user
    ensures var s' := RunCodes(s, steps, user);
            s'.redeemed + |UnusedOf(s'.codes, user)| == s.redeemed + |UnusedOf(s.codes, user)|
    decreases |steps|
  {
    if steps != [] {
      NextKeepsCodes(s, steps[0], user);
      RunKeepsCodes(NextCode(s, steps[0], user), steps[1..], user);
    }
  }

  lemma {:induction false} FreshCount(user: string, hashes: seq<string>)
    requires Distinct(hashes)
    ensures |FreshCodes(user, hashes)| == |hashes|
  {
    if hashes != [] {
      var n := |hashes| - 1;
      FreshCount(user, hashes[..n]);
      assert hashes == hashes[..n] + [hashes[n]];
      assert FreshCodes(user, hashes) == FreshCodes(user, hashes[..n]) + {Code(user, hashes[n])};
      assert Code(user, hashes[n]) !in FreshCodes(user, hashes[..n]);
    }
  }

  /** From an enrolment with distinct hashes on, as long as the user neither enrols
      again nor disables TOTP, successful redemptions plus unused codes stay equal to
      the number stored, whatever else happens in between. */
  lemma CodesAreConserved(codes: Codes, user: string, hashes: seq<string>, steps: seq<CodeStep>)
    requires Distinct(hashes)
    requires forall step :: step in steps ==> step.Use? || step.user != user
    ensures var s := RunCodes(CodeState(Enrolled(codes, user, hashes), 0), steps, user);
            s.redeemed + |UnusedOf(s.codes, user)| == |hashes|
  {
    var start := CodeState(Enrolled(codes, user, hashes), 0);
    RunKeepsCodes(start, steps, user);
    assert UnusedOf(start.codes, user) == FreshCodes(user, hashes);
    FreshCount(user, hashes);
  }

  /** A code that was accepted is never accepted again. */
  lemma {:induction false} UsedCodeStaysUsed(s: CodeState, steps: seq<CodeStep>, user: string, hash: string)
    requires Code(user, hash) in s.codes && s.codes[Code(user, hash)]
    requires forall step :: step in steps ==> step.Use? || step.user != user
    ensures var s' := RunCodes(s, steps, user);
            Code(user, hash) in s'.codes && Code(user, hash) !in UnusedOf(s'.codes, user)
    decreases |steps|
  {
    if steps != [] {
      var s' := NextCode(s, steps[0], user);
      assert Code(user, hash) in s'.codes && s'.codes[Code(user, hash)];
      UsedCodeStaysUsed(s', steps[1..], user, hash);
    }
  }
}
