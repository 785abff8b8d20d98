/** What each AuthService call does, as one atomic step on the stored rows.
    Ids, tokens, salts and keys come from the environment; so does the clock. */
module AuthModel {
  import opened Common
  import Text
  import Accounts = AccountStore
  import Tokens = RefreshTokenStore
  import Keys = IssuerKeyStore

  datatype Config = Config(
    didDomain: string,
    accessTtlSeconds: int,
    refreshTtlMs: int,
    verificationTtlMs: int,
    hasEmailSender: bool)

  /** Everything one call may draw from the runtime. */
  datatype Env = Env(
    now: int,
    accountId: string,
    tokenId: string,
    refreshToken: string,
    verificationToken: string,
    salt: string,
    keyId: string,
    publicKey: string,
    encryptedPrivateKey: string,
    jti: string)

  datatype Call =
    | Register(email: string, password: string, companyName: Option<string>, fieldOfOperation: Option<string>)
    | Login(email: string, password: string)
    | LoginWithGoogle(googleId: string, email: string, emailVerified: bool)
    | Refresh(token: string)
    | Logout(token: string)
    | VerifyEmail(token: string)
    | ResendVerificationEmail(email: string)

  datatype AuthError =
    | AccountAlreadyExists
    | InvalidCredentials
    | AccountHasNoPassword
    | AccountNotFound
    | RefreshTokenInvalid
    | RefreshTokenReuseDetected
    | RefreshTokenExpired
    | EmailVerificationTokenInvalid
    | EmailVerificationTokenExpired

  datatype AccessClaims = AccessClaims(accountId: string, scope: seq<string>, iat: int, exp: int, jti: string)

  datatype AuthTokens = AuthTokens(accessToken: AccessClaims, refreshToken: string, expiresIn: int)

  datatype AccountSummary = AccountSummary(
    id: string,
    email: string,
    issuerDid: Option<string>,
    hasPassword: bool,
    hasGoogle: bool,
    emailVerified: bool,
    companyName: Option<string>,
    fieldOfOperation: Option<string>)

  datatype Response =
    | Failed(error: AuthError)
    | Session(account: AccountSummary, tokens: AuthTokens)
    | Rotated(tokens: AuthTokens)
    | Verified(account: AccountSummary)
    | Done

  datatype LoginMethod = Password | Google

  datatype AuditEvent =
    | AccountRegistered(accountId: string, via: LoginMethod)
    | LoginFailed(account: Option<string>)
    | LoginSucceeded(accountId: string, via: LoginMethod)
    | GoogleLinked(accountId: string)
    | ReuseDetected(accountId: string, refreshTokenId: string)
    | TokenRotated(accountId: string, previousTokenId: string)
    | LoggedOut(accountId: string)

  datatype DidRecord = DidRecord(id: string, publicKey: string)

  datatype Email = Email(to: string, token: string)

  /** `used` remembers every id and token the environment has handed out. */
  datatype State = State(
    accounts: Accounts.Rows,
    dids: seq<DidRecord>,
    keys: Keys.Rows,
    tokens: Tokens.Rows,
    outbox: seq<Email>,
    audit: seq<AuditEvent>,
    clock: int,
    used: set<string>)

  const INITIAL := State([], [], [], [], [], [], 0, {})

  function NormalizeEmail(email: string): string {
    Text.Lower(Text.Trim(email))
  }

  function BuildAccountIssuerDid(didDomain: string, accountId: string): string {
    "did:web:" + didDomain + ":accounts:" + accountId
  }

  function ToSummary(a: Accounts.AccountRecord): AccountSummary {
    AccountSummary(a.id, a.email, a.issuerDid, a.passwordHash.Some?, a.googleId.Some?, a.emailVerifiedAt.Some?,
                   a.companyName, a.fieldOfOperation)
  }

  /** Nothing the environment hands out was ever handed out before, and time does not run backwards. */
  predicate Fresh(s: State, env: Env) {
    && s.clock <= env.now
    && env.accountId !in s.used
    && env.tokenId !in s.used
    && env.refreshToken !in s.used
    && env.verificationToken !in s.used
    && env.keyId !in s.used
  }

  function Begin(s: State, env: Env): State {
    s.(clock := env.now,
       used := s.used + {env.accountId, env.tokenId, env.refreshToken, env.verificationToken, env.keyId})
  }

  function Log(s: State, event: AuditEvent): State {
    s.(audit := s.audit + [event])
  }

  function Patch(s: State, id: string, patch: Accounts.AccountPatch, env: Env): State {
    s.(accounts := Accounts.Update(s.accounts, id, patch, env.now))
  }

  /** A DID record first, then the key row, for the account just created. */
  function Provision(cfg: Config, s: State, accountId: string, env: Env): State {
    var did := BuildAccountIssuerDid(cfg.didDomain, accountId);
    s.(dids := s.dids + [DidRecord(did, env.publicKey)],
       keys := s.keys + [Keys.IssuerKeyRow(env.keyId, accountId, did, env.encryptedPrivateKey, env.now)])
  }

  function SendVerificationEmail(cfg: Config, s: State, accountId: string, email: string, env: Env): State {
    if !cfg.hasEmailSender then s
    else
      var s1 := Patch(s, accountId,
                      Accounts.SetEmailVerificationToken(Sha256(env.verificationToken), env.now + cfg.verificationTtlMs), env);
      s1.(outbox := s1.outbox + [Email(email, env.verificationToken)])
  }

  function NewRefreshToken(cfg: Config, accountId: string, env: Env): Tokens.RefreshTokenRecord {
    Tokens.Issued(env.tokenId, accountId, Sha256(env.refreshToken), env.now + cfg.refreshTtlMs, env.now)
  }

  function NewTokens(cfg: Config, accountId: string, env: Env): AuthTokens {
    var iat := env.now / 1000;
    AuthTokens(AccessClaims(accountId, ["account"], iat, iat + cfg.accessTtlSeconds, env.jti),
               env.refreshToken, cfg.accessTtlSeconds)
  }

  /** Creates the token first; a token being replaced is then revoked and linked to it. */
  function IssueSession(cfg: Config, s: State, accountId: string, replacing: Option<string>, env: Env): State {
    var tokens := s.tokens + [NewRefreshToken(cfg, accountId, env)];
    s.(tokens := match replacing
       case None => tokens
       case Some(id) => Tokens.Revoke(tokens, id, env.now, Some(env.tokenId)))
  }

  function CreateAccount(cfg: Config, s: State, data: Accounts.AccountCreateData, env: Env): (State, Accounts.AccountRecord) {
    var created := Accounts.Created(env.accountId, data, env.now);
    var s1 := Provision(cfg, s.(accounts := s.accounts + [created]), env.accountId, env);
    var setDid := Accounts.SetIssuerDid(BuildAccountIssuerDid(cfg.didDomain, env.accountId));
    (Patch(s1, env.accountId, setDid, env), Accounts.Patched(created, setDid, env.now))
  }

  function StepRegister(cfg: Config, s: State, call: Call, env: Env): (State, Response)
    requires call.Register?
  {
    var email := NormalizeEmail(call.email);
    if Accounts.Lookup(s.accounts, Accounts.ByEmail(email)).Some? then (s, Failed(AccountAlreadyExists))
    else
      var data := Accounts.AccountCreateData(email, Some(Argon2id(call.password, env.salt)), None,
                                             call.companyName, call.fieldOfOperation);
      var (s1, account) := CreateAccount(cfg, s, data, env);
      var s2 := Log(s1, AccountRegistered(account.id, Password));
      var s3 := SendVerificationEmail(cfg, s2, account.id, account.email, env);
      (IssueSession(cfg, s3, account.id, None, env), Session(ToSummary(account), NewTokens(cfg, account.id, env)))
  }

  function StepLogin(cfg: Config, s: State, call: Call, env: Env): (State, Response)
    requires call.Login?
  {
    match Accounts.Lookup(s.accounts, Accounts.ByEmail(NormalizeEmail(call.email)))
    case None => (Log(s, LoginFailed(None)), Failed(InvalidCredentials))
    case Some(account) =>
      if account.passwordHash.None? then (s, Failed(AccountHasNoPassword))
      else if !PasswordMatches(account.passwordHash.value, call.password) then
        (Log(s, LoginFailed(Some(account.id))), Failed(InvalidCredentials))
      else
        (IssueSession(cfg, Log(s, LoginSucceeded(account.id, Password)), account.id, None, env),
         Session(ToSummary(account), NewTokens(cfg, account.id, env)))
  }

  function FinishGoogleLogin(cfg: Config, s: State, account: Accounts.AccountRecord, env: Env): (State, Response) {
    (IssueSession(cfg, Log(s, LoginSucceeded(account.id, Google)), account.id, None, env),
     Session(ToSummary(account), NewTokens(cfg, account.id, env)))
  }

  function LinkGoogle(cfg: Config, s: State, found: Accounts.AccountRecord, googleId: string, env: Env): (State, Accounts.AccountRecord) {
    var link := Accounts.LinkGoogleId(googleId);
    var linked := Accounts.Patched(found, link, env.now);
    var s1 := Patch(s, found.id, link, env);
    var verify := Accounts.MarkEmailVerified(env.now);
    if linked.emailVerifiedAt.Some? then (Log(s1, GoogleLinked(found.id)), linked)
    else (Log(Patch(s1, found.id, verify, env), GoogleLinked(found.id)), Accounts.Patched(linked, verify, env.now))
  }

  function CreateFromGoogle(cfg: Config, s: State, email: string, call: Call, env: Env): (State, Accounts.AccountRecord)
    requires call.LoginWithGoogle?
  {
    var data := Accounts.AccountCreateData(email, None, Some(call.googleId), None, None);
    var (s1, created) := CreateAccount(cfg, s, data, env);
    var verify := Accounts.MarkEmailVerified(env.now);
    if call.emailVerified then
      (Log(Patch(s1, created.id, verify, env), AccountRegistered(created.id, Google)), Accounts.Patched(created, verify, env.now))
    else
      (Log(s1, AccountRegistered(created.id, Google)), created)
  }

  function StepGoogle(cfg: Config, s: State, call: Call, env: Env): (State, Response)
    requires call.LoginWithGoogle?
  {
    match Accounts.Lookup(s.accounts, Accounts.ByGoogleId(call.googleId))
    case Some(account) => FinishGoogleLogin(cfg, s, account, env)
    case None =>
      var email := NormalizeEmail(call.email);
      match Accounts.Lookup(s.accounts, Accounts.ByEmail(email))
      case Some(found) =>
        if !call.emailVerified then (s, Failed(AccountNotFound))
        else
          var (s1, account) := LinkGoogle(cfg, s, found, call.googleId, env);
          FinishGoogleLogin(cfg, s1, account, env)
      case None =>
        var (s1, account) := CreateFromGoogle(cfg, s, email, call, env);
        FinishGoogleLogin(cfg, s1, account, env)
  }

  function StepRefresh(cfg: Config, s: State, call: Call, env: Env): (State, Response)
    requires call.Refresh?
  {
    match Tokens.Find(s.tokens, Sha256(call.token))
    case None => (s, Failed(RefreshTokenInvalid))
    case Some(record) =>
      if record.revokedAt.Some? then
        (Log(s.(tokens := Tokens.RevokeAllForAccount(s.tokens, record.accountId, env.now)),
             ReuseDetected(record.accountId, record.id)),
         Failed(RefreshTokenReuseDetected))
      else if record.expiresAt <= env.now then (s, Failed(RefreshTokenExpired))
      else
        (Log(IssueSession(cfg, s, record.accountId, Some(record.id), env), TokenRotated(record.accountId, record.id)),
         Rotated(NewTokens(cfg, record.accountId, env)))
  }

  function StepLogout(s: State, call: Call, env: Env): (State, Response)
    requires call.Logout?
  {
    match Tokens.Find(s.tokens, Sha256(call.token))
    case None => (s, Done)
    case Some(record) =>
      if record.revokedAt.Some? then (s, Done)
      else (Log(s.(tokens := Tokens.Revoke(s.tokens, record.id, env.now, None)), LoggedOut(record.accountId)), Done)
  }

  function StepVerifyEmail(s: State, call: Call, env: Env): (State, Response)
    requires call.VerifyEmail?
  {
    match Accounts.Lookup(s.accounts, Accounts.ByVerificationHash(Sha256(call.token)))
    case None => (s, Failed(EmailVerificationTokenInvalid))
    case Some(account) =>
      if account.emailVerificationExpiresAt.None? || account.emailVerificationExpiresAt.value <= env.now then
        (s, Failed(EmailVerificationTokenExpired))
      else
        var verify := Accounts.MarkEmailVerified(env.now);
        (Patch(s, account.id, verify, env), Verified(ToSummary(Accounts.Patched(account, verify, env.now))))
  }

  function StepResend(cfg: Config, s: State, call: Call, env: Env): (State, Response)
    requires call.ResendVerificationEmail?
  {
    match Accounts.Lookup(s.accounts, Accounts.ByEmail(NormalizeEmail(call.email)))
    case None => (s, Done)
    case Some(account) =>
      if account.emailVerifiedAt.Some? then (s, Done)
      else (SendVerificationEmail(cfg, s, account.id, account.email, env), Done)
  }

  function Dispatch(cfg: Config, s: State, call: Call, env: Env): (State, Response) {
    match call
    case Register(_, _, _, _) => StepRegister(cfg, s, call, env)
    case Login(_, _) => StepLogin(cfg, s, call, env)
    case LoginWithGoogle(_, _, _) => StepGoogle(cfg, s, call, env)
    case Refresh(_) => StepRefresh(cfg, s, call, env)
    case Logout(_) => StepLogout(s, call, env)
    case VerifyEmail(_) => StepVerifyEmail(s, call, env)
    case ResendVerificationEmail(_) => StepResend(cfg, s, call, env)
  }

  function Step(cfg: Config, s: State, call: Call, env: Env): (State, Response) {
    Dispatch(cfg, Begin(s, env), call, env)
  }

  // ---- Runs ---------------------------------------------------------------------

  datatype Input = Input(call: Call, env: Env)

  predicate Feasible(cfg: Config, s: State, run: seq<Input>)
    decreases |run|
  {
    run == [] ||
    (Fresh(s, run[0].env) && Feasible(cfg, Step(cfg, s, run[0].call, run[0].env).0, run[1..]))
  }

  function Run(cfg: Config, s: State, run: seq<Input>): State
    decreases |run|
  {
    if run == [] then s else Run(cfg, Step(cfg, s, run[0].call, run[0].env).0, run[1..])
  }

  function Responses(cfg: Config, s: State, run: seq<Input>): seq<Response>
    decreases |run|
  {
    if run == [] then []
    else
      var (s', response) := Step(cfg, s, run[0].call, run[0].env);
      [response] + Responses(cfg, s', run[1..])
  }
}
