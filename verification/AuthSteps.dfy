/** What one AuthService call does to the refresh tokens and the audit trail. */
module AuthSteps {
  import opened Common
  import opened AuthModel
  import opened AuthInvariants
  import opened SessionChains
  import Accounts = AccountStore
  import Tokens = RefreshTokenStore
  import Keys = IssuerKeyStore

  // ---- What a session-opening call leaves behind -------------------------------------

  /** The account a session-opening call ends up with: found, or about to be created. */
  function SessionOwner(s: State, call: Call, env: Env): Option<string> {
    match call
    case Register(email, _, _, _) =>
      if Accounts.Lookup(s.accounts, Accounts.ByEmail(NormalizeEmail(email))).Some? then None else Some(env.accountId)
    case Login(email, password) =>
      (match Accounts.Lookup(s.accounts, Accounts.ByEmail(NormalizeEmail(email)))
       case None => None
       case Some(a) => if a.passwordHash.Some? && PasswordMatches(a.passwordHash.value, password) then Some(a.id) else None)
    case LoginWithGoogle(googleId, email, emailVerified) =>
      (match Accounts.Lookup(s.accounts, Accounts.ByGoogleId(googleId))
       case Some(a) => Some(a.id)
       case None =>
         match Accounts.Lookup(s.accounts, Accounts.ByEmail(NormalizeEmail(email)))
         case Some(a) => if emailVerified then Some(a.id) else None
         case None => Some(env.accountId))
    case _ => None
  }

  /** The audit trail's account of opening one session. */
  predicate OpeningTrail(events: seq<AuditEvent>, owner: string) {
    || events == [AccountRegistered(owner, Password)]
    || events == [LoginSucceeded(owner, Password)]
    || events == [LoginSucceeded(owner, Google)]
    || events == [GoogleLinked(owner), LoginSucceeded(owner, Google)]
    || events == [AccountRegistered(owner, Google), LoginSucceeded(owner, Google)]
  }

  ghost predicate Opens(cfg: Config, s: State, call: Call, env: Env, owner: string) {
    var (s', response) := Step(cfg, s, call, env);
    && response.Session? && response.account.id == owner
    && s'.tokens == s.tokens + [NewRefreshToken(cfg, owner, env)]
    && |s.audit| <= |s'.audit| && s'.audit[..|s.audit|] == s.audit && OpeningTrail(s'.audit[|s.audit|..], owner)
  }

  lemma RegisterOpens(cfg: Config, s: State, call: Call, env: Env)
    requires call.Register? && SessionOwner(s, call, env).Some?
    ensures Opens(cfg, s, call, env, env.accountId)
  {
    hide NormalizeEmail, BuildAccountIssuerDid, Accounts.Update, Accounts.Lookup;
  }

  lemma LoginOpens(cfg: Config, s: State, call: Call, env: Env)
    requires call.Login? && SessionOwner(s, call, env).Some?
    ensures Opens(cfg, s, call, env, SessionOwner(s, call, env).value)
  {
    hide NormalizeEmail, BuildAccountIssuerDid, Accounts.Update, Accounts.Lookup;
  }

  lemma LinkGoogleFrame(cfg: Config, s: State, found: Accounts.AccountRecord, googleId: string, env: Env)
    ensures var (s1, a) := LinkGoogle(cfg, s, found, googleId, env);
            a.id == found.id && s1 == s.(accounts := s1.accounts, audit := s.audit + [GoogleLinked(found.id)])
  {
  }

  lemma CreateFromGoogleFrame(cfg: Config, s: State, email: string, call: Call, env: Env)
    requires call.LoginWithGoogle?
    ensures var (s1, a) := CreateFromGoogle(cfg, s, email, call, env);
            && a.id == env.accountId
            && s1 == s.(accounts := s1.accounts, dids := s1.dids, keys := s1.keys, audit := s.audit + [AccountRegistered(env.accountId, Google)])
  {
    hide BuildAccountIssuerDid, Accounts.Update;
  }

  lemma GoogleOpens(cfg: Config, s: State, call: Call, env: Env)
    requires call.LoginWithGoogle? && SessionOwner(s, call, env).Some?
    ensures Opens(cfg, s, call, env, SessionOwner(s, call, env).value)
  {
    hide NormalizeEmail, Accounts.Lookup, LinkGoogle, CreateFromGoogle;
    var s0 := Begin(s, env);
    var found := Accounts.Lookup(s.accounts, Accounts.ByEmail(NormalizeEmail(call.email)));
    if found.Some? {
      LinkGoogleFrame(cfg, s0, found.value, call.googleId, env);
    } else {
      CreateFromGoogleFrame(cfg, s0, NormalizeEmail(call.email), call, env);
    }
  }

  /** A call that finds no owner opens nothing; only the audit trail may grow. */
  lemma RefusalOpensNothing(cfg: Config, s: State, call: Call, env: Env)
    requires call.Register? || call.Login? || call.LoginWithGoogle?
    requires SessionOwner(s, call, env).None?
    ensures var (s', response) := Step(cfg, s, call, env);
            && response.Failed? && !Creates(s, call)
            && s' == Begin(s, env).(audit := s'.audit)
            && (s'.audit == s.audit || exists a :: s'.audit == s.audit + [LoginFailed(a)])
  {
    hide NormalizeEmail, BuildAccountIssuerDid, Accounts.Update, Accounts.Lookup;
    hide FinishGoogleLogin, LinkGoogle, CreateFromGoogle, CreateAccount, IssueSession, SendVerificationEmail;
    match call {
      case Register(_, _, _, _) =>
      case Login(_, _) =>
      case LoginWithGoogle(_, _, _) =>
    }
  }

  // ---- One step on the tokens -------------------------------------------------------

  function EffectOf(cfg: Config, s: State, call: Call, env: Env): Effect {
    match call
    case Refresh(token) =>
      var at := Tokens.IndexOfHash(s.tokens, Sha256(token));
      if at == |s.tokens| then Nothing
      else if !Live(s.tokens[at]) then Burn(s.tokens[at].accountId, env.now)
      else if s.tokens[at].expiresAt <= env.now then Nothing
      else Rotate(at, NewRefreshToken(cfg, s.tokens[at].accountId, env), env.now)
    case Logout(token) =>
      var at := Tokens.IndexOfHash(s.tokens, Sha256(token));
      if at < |s.tokens| && Live(s.tokens[at]) then Close(at, env.now) else Nothing
    case _ =>
      match SessionOwner(s, call, env)
      case Some(owner) => Open(NewRefreshToken(cfg, owner, env))
      case None => Nothing
  }

  lemma FreshTokenIsNewcomer(cfg: Config, s: State, accountId: string, env: Env)
    requires TokenInv(s) && Fresh(s, env)
    ensures Newcomer(s.tokens, NewRefreshToken(cfg, accountId, env))
  {
  }

  lemma RefreshTokens(cfg: Config, s: State, call: Call, env: Env)
    requires call.Refresh? && TokenInv(s) && Fresh(s, env)
    ensures var e := EffectOf(cfg, s, call, env);
            Allowed(s.tokens, e) && Step(cfg, s, call, env).0.tokens == Apply(s.tokens, e)
  {
    var at := Tokens.IndexOfHash(s.tokens, Sha256(call.token));
    if at < |s.tokens| {
      FreshTokenIsNewcomer(cfg, s, s.tokens[at].accountId, env);
      var record := NewRefreshToken(cfg, s.tokens[at].accountId, env);
      EffectKeepsKeys(s.tokens, Open(record));
      RevokeTouchesOneRow(s.tokens + [record], at, env.now, Some(record.id));
    }
  }

  lemma LogoutTokens(cfg: Config, s: State, call: Call, env: Env)
    requires call.Logout? && TokenInv(s)
    ensures var e := EffectOf(cfg, s, call, env);
            Allowed(s.tokens, e) && Step(cfg, s, call, env).0.tokens == Apply(s.tokens, e)
  {
    var at := Tokens.IndexOfHash(s.tokens, Sha256(call.token));
    if at < |s.tokens| {
      RevokeTouchesOneRow(s.tokens, at, env.now, None);
    }
  }

  lemma SessionOpens(cfg: Config, s: State, call: Call, env: Env)
    requires SessionOwner(s, call, env).Some?
    ensures Opens(cfg, s, call, env, SessionOwner(s, call, env).value)
  {
    hide Opens;
    match call
    case Register(_, _, _, _) => RegisterOpens(cfg, s, call, env);
    case Login(_, _) => LoginOpens(cfg, s, call, env);
    case LoginWithGoogle(_, _, _) => GoogleOpens(cfg, s, call, env);
  }

  /** Every call changes the tokens in one of the ways `SessionChains` allows. */
  lemma StepTokens(cfg: Config, s: State, call: Call, env: Env)
    requires TokenInv(s) && Fresh(s, env)
    ensures var e := EffectOf(cfg, s, call, env);
            Allowed(s.tokens, e) && Step(cfg, s, call, env).0.tokens == Apply(s.tokens, e)
  {
    match call
    case Refresh(_) => RefreshTokens(cfg, s, call, env);
    case Logout(_) => LogoutTokens(cfg, s, call, env);
    case VerifyEmail(_) =>
    case ResendVerificationEmail(_) =>
    case _ =>
      hide StepRegister, StepLogin, StepGoogle, SessionOwner;
      if SessionOwner(s, call, env).Some? {
        SessionOpens(cfg, s, call, env);
        FreshTokenIsNewcomer(cfg, s, SessionOwner(s, call, env).value, env);
      } else {
        RefusalOpensNothing(cfg, s, call, env);
      }
  }
}
