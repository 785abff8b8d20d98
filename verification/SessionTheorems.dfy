/** What the tokens a call answers are good for, over every later run. */
module SessionTheorems {
  import opened Common
  import opened AuthModel
  import opened AuthInvariants
  import opened AuthSteps
  import opened AuthTheorems
  import opened SessionChains
  import AccessTokens
  import Accounts = AccountStore
  import Tokens = RefreshTokenStore

  // ---- The pair a call answers ---------------------------------------------------------------------

  function TokensIn(response: Response): Option<AuthTokens> {
    match response
    case Session(_, tokens) => Some(tokens)
    case Rotated(tokens) => Some(tokens)
    case _ => None
  }

  /** Whose tokens they are: the account of the session, or the one that owns the token presented. */
  function TokenHolder(s: State, call: Call, response: Response): Option<string> {
    if response.Session? then Some(response.account.id)
    else if call.Refresh? && Tokens.Find(s.tokens, Sha256(call.token)).Some? then
      Some(Tokens.Find(s.tokens, Sha256(call.token)).value.accountId)
    else None
  }

  /** The row of the refresh token answered. */
  function RowOf(tokens: AuthTokens, holder: string, cfg: Config, env: Env): Tokens.RefreshTokenRecord {
    Tokens.RefreshTokenRecord(env.tokenId, holder, Sha256(tokens.refreshToken), env.now + cfg.refreshTtlMs, None, None, env.now)
  }

  lemma OpeningAnswers(cfg: Config, s: State, call: Call, env: Env)
    requires SessionOwner(s, call, env).Some?
    ensures var response := Step(cfg, s, call, env).1;
            response.Session? && response.account.id == SessionOwner(s, call, env).value
            && response.tokens == NewTokens(cfg, response.account.id, env)
  {
    hide NormalizeEmail, BuildAccountIssuerDid, Accounts.Update, Accounts.Lookup, LinkGoogle, CreateFromGoogle;
    if call.LoginWithGoogle? {
      var s0 := Begin(s, env);
      var found := Accounts.Lookup(s.accounts, Accounts.ByEmail(NormalizeEmail(call.email)));
      if found.Some? {
        LinkGoogleFrame(cfg, s0, found.value, call.googleId, env);
      } else {
        CreateFromGoogleFrame(cfg, s0, NormalizeEmail(call.email), call, env);
      }
    }
  }

  lemma OthersAnswerNoSession(cfg: Config, s: State, call: Call, env: Env)
    requires SessionOwner(s, call, env).None?
    ensures !Step(cfg, s, call, env).1.Session?
  {
    hide NormalizeEmail, BuildAccountIssuerDid, Accounts.Update, SessionOwner;
    match call
    case Register(_, _, _, _) => RefusalOpensNothing(cfg, s, call, env);
    case Login(_, _) => RefusalOpensNothing(cfg, s, call, env);
    case LoginWithGoogle(_, _, _) => RefusalOpensNothing(cfg, s, call, env);
    case _ =>
  }

  /** Every refresh token answered, by an opening call or by a rotation, is the key of a new live row: of the holder,
      expiring after the configured time. The access token beside it is the holder's too. */
  lemma AnsweredTokenIsStored(cfg: Config, s: State, call: Call, env: Env)
    requires Inv(cfg, s) && Fresh(s, env) && TokensIn(Step(cfg, s, call, env).1).Some?
    ensures var (s', response) := Step(cfg, s, call, env);
            var (tokens, holder) := (TokensIn(response).value, TokenHolder(s, call, response));
            && holder.Some?
            && Tokens.Find(s.tokens, Sha256(tokens.refreshToken)) == None
            && Tokens.Find(s'.tokens, Sha256(tokens.refreshToken)) == Some(RowOf(tokens, holder.value, cfg, env))
            && tokens.accessToken == AccessTokens.ClaimsFor(holder.value, cfg.accessTtlSeconds, ["account"], env.now, env.jti)
            && tokens.expiresIn == cfg.accessTtlSeconds
  {
    hide Step, TokenInv, AccountInv, IssuerInv, SessionOwner;
    var (s', response) := Step(cfg, s, call, env);
    if SessionOwner(s, call, env).Some? {
      OpeningAnswers(cfg, s, call, env);
      SessionOpens(cfg, s, call, env);
      LastRowIsFound(cfg, s, s', response.account.id, env);
    } else {
      OthersAnswerNoSession(cfg, s, call, env);
      RotationAnswers(cfg, s, call, env);
      LastRowIsFound(cfg, s, s', TokenHolder(s, call, response).value, env);
    }
  }

  lemma RotationAnswers(cfg: Config, s: State, call: Call, env: Env)
    requires TokenInv(s) && Fresh(s, env) && Step(cfg, s, call, env).1.Rotated?
    ensures call.Refresh? && Tokens.Find(s.tokens, Sha256(call.token)).Some?
    ensures var (s', response, holder) := (Step(cfg, s, call, env).0, Step(cfg, s, call, env).1, TokenHolder(s, call, Step(cfg, s, call, env).1));
            && holder.Some? && response.tokens == NewTokens(cfg, holder.value, env)
            && |s'.tokens| == |s.tokens| + 1 && s'.tokens[|s.tokens|] == NewRefreshToken(cfg, holder.value, env)
            && forall i :: 0 <= i < |s.tokens| ==> s'.tokens[i].tokenHash == s.tokens[i].tokenHash
  {
    hide NormalizeEmail, BuildAccountIssuerDid, Accounts.Update, Accounts.Lookup, StepRegister, StepLogin, StepGoogle, TokenInv, Allowed;
    if call.Register? || call.Login? || call.LoginWithGoogle? {
      OpeningNeverRotates(cfg, s, call, env);
    }
    if call.Refresh? {
      StepTokens(cfg, s, call, env);
      assert EffectOf(cfg, s, call, env).Rotate?;
    }
  }

  lemma OpeningNeverRotates(cfg: Config, s: State, call: Call, env: Env)
    requires call.Register? || call.Login? || call.LoginWithGoogle?
    ensures !Step(cfg, s, call, env).1.Rotated?
  {
    hide Step, SessionOwner;
    if SessionOwner(s, call, env).Some? {
      OpeningAnswers(cfg, s, call, env);
    } else {
      RefusalOpensNothing(cfg, s, call, env);
    }
  }

  lemma LastRowIsFound(cfg: Config, s: State, s': State, holder: string, env: Env)
    requires TokenInv(s) && Fresh(s, env) && |s'.tokens| == |s.tokens| + 1
    requires s'.tokens[|s.tokens|] == NewRefreshToken(cfg, holder, env)
    requires forall i :: 0 <= i < |s.tokens| ==> s'.tokens[i].tokenHash == s.tokens[i].tokenHash
    ensures var hash := Sha256(NewTokens(cfg, holder, env).refreshToken);
            Tokens.Find(s.tokens, hash) == None && Tokens.Find(s'.tokens, hash) == Some(s'.tokens[|s.tokens|])
    ensures s'.tokens[|s.tokens|] == RowOf(NewTokens(cfg, holder, env), holder, cfg, env)
  {
    assert forall i :: 0 <= i < |s.tokens| ==> s.tokens[i].tokenHash != Sha256(env.refreshToken);
  }

  // ---- The life of a refresh token ----------------------------------------------------------------------

  /** The call uses the token up: it rotates it, logs it out, or burns all tokens of its account. */
  predicate Kills(cfg: Config, s: State, call: Call, env: Env, token: string, holder: string) {
    match call
    case Refresh(presented) =>
      (match Step(cfg, s, call, env).1
       case Rotated(_) => presented == token
       case Failed(RefreshTokenReuseDetected) => TokenHolder(s, call, Failed(RefreshTokenReuseDetected)) == Some(holder)
       case _ => false)
    case Logout(presented) => presented == token
    case _ => false
  }

  predicate Killed(cfg: Config, s: State, run: seq<Input>, token: string, holder: string)
    decreases |run|
  {
    run != [] &&
    (Kills(cfg, s, run[0].call, run[0].env, token, holder) ||
     Killed(cfg, Step(cfg, s, run[0].call, run[0].env).0, run[1..], token, holder))
  }

  /** Row `i` keys the token, belongs to the holder and expires then. */
  predicate Keys(s: State, i: nat, token: string, holder: string, expiresAt: int) {
    && i < |s.tokens| && s.tokens[i].tokenHash == Sha256(token)
    && s.tokens[i].accountId == holder && s.tokens[i].expiresAt == expiresAt
  }

  lemma StepOnRow(cfg: Config, s: State, call: Call, env: Env, i: nat, token: string, holder: string, expiresAt: int)
    requires TokenInv(s) && Fresh(s, env) && Keys(s, i, token, holder, expiresAt)
    ensures var s' := Step(cfg, s, call, env).0;
            && Keys(s', i, token, holder, expiresAt)
            && (Live(s'.tokens[i]) <==> Live(s.tokens[i]) && !Kills(cfg, s, call, env, token, holder))
  {
    hide Step, TokenInv, SessionOwner;
    var e := EffectOf(cfg, s, call, env);
    StepTokens(cfg, s, call, env);
    EffectSettles(s.tokens, e);
    assert Settles(s.tokens[i], Apply(s.tokens, e)[i]);
    match call
    case Refresh(_) => RefreshOnRow(cfg, s, call, env, i, token, holder, expiresAt);
    case Logout(_) => HashIsOnRow(s, i, token, call.token);
    case _ => assert e.Nothing? || e.Open?;
  }

  lemma HashIsOnRow(s: State, i: nat, token: string, presented: string)
    requires TokenInv(s) && i < |s.tokens| && s.tokens[i].tokenHash == Sha256(token)
    ensures presented == token <==> Tokens.IndexOfHash(s.tokens, Sha256(presented)) == i
  {
    hide HasSuccessor, HasAccount;
  }

  lemma RefreshOnRow(cfg: Config, s: State, call: Call, env: Env, i: nat, token: string, holder: string, expiresAt: int)
    requires call.Refresh? && TokenInv(s) && Fresh(s, env) && Keys(s, i, token, holder, expiresAt)
    requires Allowed(s.tokens, EffectOf(cfg, s, call, env))
    ensures Live(Apply(s.tokens, EffectOf(cfg, s, call, env))[i])
       <==> Live(s.tokens[i]) && !Kills(cfg, s, call, env, token, holder)
  {
    HashIsOnRow(s, i, token, call.token);
    hide TokenInv, Allowed;
  }

  lemma {:induction false} RunOnRow(cfg: Config, s: State, run: seq<Input>, i: nat, token: string, holder: string, expiresAt: int)
    requires Inv(cfg, s) && Feasible(cfg, s, run) && Keys(s, i, token, holder, expiresAt) && Live(s.tokens[i])
    ensures var s' := Run(cfg, s, run);
            Keys(s', i, token, holder, expiresAt) && (Live(s'.tokens[i]) <==> !Killed(cfg, s, run, token, holder))
    decreases |run|
  {
    hide AccountInv, IssuerInv, TokenInv, Step, Kills;
    if run != [] {
      var s1 := Step(cfg, s, run[0].call, run[0].env).0;
      StepOnRow(cfg, s, run[0].call, run[0].env, i, token, holder, expiresAt);
      InvKept(cfg, s, run[0].call, run[0].env);
      if Live(s1.tokens[i]) {
        RunOnRow(cfg, s1, run[1..], i, token, holder, expiresAt);
      } else {
        TokensAreWriteOnce(cfg, s1, run[1..]);
        var s' := Run(cfg, s1, run[1..]);
        assert Settles(s1.tokens[i], s'.tokens[i]);
      }
    }
  }

  lemma RefreshOfRow(cfg: Config, s: State, env: Env, i: nat, token: string, holder: string, expiresAt: int)
    requires TokenInv(s) && Keys(s, i, token, holder, expiresAt)
    ensures Step(cfg, s, Refresh(token), env).1
         == if !Live(s.tokens[i]) then Failed(RefreshTokenReuseDetected)
            else if expiresAt <= env.now then Failed(RefreshTokenExpired)
            else Rotated(NewTokens(cfg, holder, env))
  {
    hide HasSuccessor, HasAccount;
    assert Tokens.IndexOfHash(s.tokens, Sha256(token)) == i;
  }

  /** The round trip of a refresh token, whatever is called meanwhile: presented later it is reuse exactly if it was
      rotated, logged out or burnt; else it has expired exactly from `refreshTtlMs` after it was issued; else it is
      exchanged for a new pair of its holder. */
  lemma RefreshTokenLives(cfg: Config, s: State, call: Call, env: Env, later: seq<Input>, env': Env)
    requires Inv(cfg, s) && Fresh(s, env) && TokensIn(Step(cfg, s, call, env).1).Some?
    requires Feasible(cfg, Step(cfg, s, call, env).0, later)
    ensures var (s1, response) := Step(cfg, s, call, env);
            var (token, holder) := (TokensIn(response).value.refreshToken, TokenHolder(s, call, response));
            && holder.Some?
            && Step(cfg, Run(cfg, s1, later), Refresh(token), env').1
               == if Killed(cfg, s1, later, token, holder.value) then Failed(RefreshTokenReuseDetected)
                  else if env.now + cfg.refreshTtlMs <= env'.now then Failed(RefreshTokenExpired)
                  else Rotated(NewTokens(cfg, holder.value, env'))
  {
    hide AccountInv, IssuerInv, TokenInv, Step, Killed, Feasible;
    var (s1, response) := Step(cfg, s, call, env);
    AnsweredTokenIsStored(cfg, s, call, env);
    InvKept(cfg, s, call, env);
    var token, holder := TokensIn(response).value.refreshToken, TokenHolder(s, call, response).value;
    var i := Tokens.IndexOfHash(s1.tokens, Sha256(token));
    RunOnRow(cfg, s1, later, i, token, holder, env.now + cfg.refreshTtlMs);
    InvAlways(cfg, s1, later);
    RefreshOfRow(cfg, Run(cfg, s1, later), env', i, token, holder, env.now + cfg.refreshTtlMs);
  }

  /** The trail names the row that was presented: rotated, or presented again; nothing else is logged of a refresh. */
  lemma RefreshIsLogged(cfg: Config, s: State, token: string, env: Env)
    ensures var (s', response) := Step(cfg, s, Refresh(token), env);
            match response
            case Rotated(_) =>
              exists i :: 0 <= i < |s.tokens| && s.tokens[i].tokenHash == Sha256(token) && Live(s.tokens[i])
                && s'.audit == s.audit + [TokenRotated(s.tokens[i].accountId, s.tokens[i].id)]
            case Failed(RefreshTokenReuseDetected) =>
              exists i :: 0 <= i < |s.tokens| && s.tokens[i].tokenHash == Sha256(token) && !Live(s.tokens[i])
                && s'.audit == s.audit + [ReuseDetected(s.tokens[i].accountId, s.tokens[i].id)]
            case _ => s'.audit == s.audit
  {
    var at := Tokens.IndexOfHash(s.tokens, Sha256(token));
    hide Tokens.RevokeAllForAccount, Tokens.Revoke;
    if at < |s.tokens| {
      assert s.tokens[at].tokenHash == Sha256(token);
    }
  }
}
