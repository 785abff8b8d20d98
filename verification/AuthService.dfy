/** The service itself, over repositories backed by either storage driver. Every public call is
    proved equal to one `AuthModel` step on the stored rows, whichever driver stores them. */
module AuthService {
  import opened Common
  import opened AuthModel
  import Inv = AuthInvariants
  import Runs = AuthTheorems
  import Steps = AuthSteps
  import Chains = SessionChains
  import Accounts = AccountStore
  import Tokens = RefreshTokenStore
  import Keys = IssuerKeyStore

  class AuthService {
    const cfg: Config
    const accountRepository: Accounts.AccountRepository
    const issuerKeyRepository: Keys.IssuerKeyRepository
    const refreshTokenRepository: Tokens.RefreshTokenRepository
    var dids: seq<DidRecord>
    var outbox: seq<Email>
    var audit: seq<AuditEvent>
    ghost var clock: int
    ghost var used: set<string>

    ghost function Footprint(): set<object?> {
      {this, accountRepository.memory, accountRepository.sqlite, issuerKeyRepository.memory, issuerKeyRepository.sqlite,
       refreshTokenRepository.memory, refreshTokenRepository.sqlite}
    }

    ghost function Rows(): State
      reads Footprint()
    {
      State(accountRepository.Rows(), dids, issuerKeyRepository.Rows(), refreshTokenRepository.Rows(), outbox, audit, clock, used)
    }

    ghost predicate Stored()
      reads Footprint()
    {
      accountRepository.Valid() && issuerKeyRepository.Valid() && refreshTokenRepository.Valid()
    }

    ghost predicate Valid()
      reads Footprint()
    {
      Stored() && Inv.Inv(cfg, Rows())
    }

    constructor (cfg: Config, useSqlite: bool)
      ensures Valid() && Rows() == INITIAL && this.cfg == cfg
      ensures fresh(Footprint() - {null})
      ensures useSqlite <==> accountRepository.sqlite != null
    {
      this.cfg := cfg;
      accountRepository := new Accounts.AccountRepository(useSqlite);
      issuerKeyRepository := new Keys.IssuerKeyRepository(useSqlite);
      refreshTokenRepository := new Tokens.RefreshTokenRepository(useSqlite);
      dids, outbox, audit, clock, used := [], [], [], 0, {};
    }

    /** The environment's fresh values and the current time are now spent. */
    ghost method Start(env: Env)
      requires Stored()
      modifies this
      ensures Stored() && Rows() == Begin(old(Rows()), env)
    {
      clock := env.now;
      used := used + {env.accountId, env.tokenId, env.refreshToken, env.verificationToken, env.keyId};
    }

    method LogEvent(event: AuditEvent)
      requires Stored()
      modifies this
      ensures Stored() && Rows() == Log(old(Rows()), event)
    {
      audit := audit + [event];
    }

    /** Creates the new token, then revokes the replaced one and links it to its successor. */
    method OpenSession(accountId: string, replacing: Option<string>, env: Env) returns (tokens: AuthTokens)
      requires Stored()
      requires !Tokens.HasId(refreshTokenRepository.Rows(), env.tokenId)
      requires !Tokens.HasHash(refreshTokenRepository.Rows(), Sha256(env.refreshToken))
      modifies Footprint()
      ensures Stored() && Rows() == IssueSession(cfg, old(Rows()), accountId, replacing, env)
      ensures tokens == NewTokens(cfg, accountId, env)
    {
      hide Tokens.HasId, Tokens.HasHash, Tokens.Put, Tokens.Revoke;
      var created := refreshTokenRepository.Create(env.tokenId, accountId, Sha256(env.refreshToken), env.now + cfg.refreshTtlMs, env.now);
      if replacing.Some? {
        refreshTokenRepository.RevokeById(replacing.value, Some(created.value.id), env.now);
      }
      var iat := env.now / 1000;
      var access := AccessClaims(accountId, ["account"], iat, iat + cfg.accessTtlSeconds, env.jti);
      tokens := AuthTokens(access, env.refreshToken, cfg.accessTtlSeconds);
    }

    /** Precondition of the table's UNIQUE columns, which only the service's own checks provide. */
    method UpdateAccount(id: string, patch: Accounts.AccountPatch, env: Env) returns (account: Accounts.AccountRecord)
      requires Stored() && PatchSafe(accountRepository.Rows(), id, patch, env.now)
      modifies Footprint()
      ensures Stored() && Rows() == Patch(old(Rows()), id, patch, env)
      ensures Accounts.NoClash(accountRepository.Rows())
      ensures account == Accounts.Patched(Accounts.Lookup(old(accountRepository.Rows()), Accounts.ById(id)).value, patch, env.now)
      ensures Accounts.Lookup(accountRepository.Rows(), Accounts.ById(id)) == Some(account)
    {
      hide Accounts.Clash, Accounts.Patched, Accounts.Lookup, Accounts.Update, Accounts.NoClash;
      PatchKeepsApart(accountRepository.Rows(), id, patch, env.now);
      var r := accountRepository.ApplyUpdate(id, patch, env.now);
      account := r.value;
    }

    /** A DID record, then a key row: nothing is stored for this account or DID yet. */
    method ProvisionIssuerDid(accountId: string, env: Env) returns (did: string)
      requires Stored() && accountId == env.accountId
      requires !Keys.Clashes(issuerKeyRepository.Rows(), NewKey(cfg, env))
      modifies Footprint()
      ensures Stored() && Rows() == Provision(cfg, old(Rows()), accountId, env)
      ensures did == BuildAccountIssuerDid(cfg.didDomain, accountId)
    {
      hide BuildAccountIssuerDid, Keys.Clashes;
      did := BuildAccountIssuerDid(cfg.didDomain, accountId);
      dids := dids + [DidRecord(did, env.publicKey)];
      var stored := issuerKeyRepository.Create(Keys.IssuerKeyRow(env.keyId, accountId, did, env.encryptedPrivateKey, env.now));
    }

    /** The account row, its issuer DID, then the DID on the account. */
    method AddAccount(data: Accounts.AccountCreateData, env: Env) returns (account: Accounts.AccountRecord)
      requires Stored()
      requires Newcomer(cfg, accountRepository.Rows(), data, env)
      requires !Keys.Clashes(issuerKeyRepository.Rows(), NewKey(cfg, env))
      modifies Footprint()
      ensures Stored() && (Rows(), account) == CreateAccount(cfg, old(Rows()), data, env)
      ensures Accounts.NoClash(accountRepository.Rows())
      ensures Accounts.Lookup(accountRepository.Rows(), Accounts.ById(env.accountId)) == Some(account)
    {
      hide Accounts.Clash, Accounts.NoClash, BuildAccountIssuerDid, Accounts.Lookup, Accounts.Update, Keys.Clashes, PatchSafe;
      ghost var before := accountRepository.Rows();
      var created := accountRepository.Create(env.accountId, data, env.now);
      var did := ProvisionIssuerDid(env.accountId, env);
      LastRowById(before, created.value);
      account := UpdateAccount(env.accountId, Accounts.SetIssuerDid(did), env);
    }

    /** Stores a hashed, expiring token and mails it; nothing without a configured sender. */
    method MailVerification(accountId: string, email: string, env: Env)
      requires Stored() && Accounts.NoClash(accountRepository.Rows())
      requires Accounts.Lookup(accountRepository.Rows(), Accounts.ById(accountId)).Some?
      modifies Footprint()
      ensures Stored() && Rows() == SendVerificationEmail(cfg, old(Rows()), accountId, email, env)
    {
      hide Accounts.Clash, Accounts.NoClash, Accounts.Lookup, Accounts.Update;
      if !cfg.hasEmailSender {
        return;
      }
      var patch := Accounts.SetEmailVerificationToken(Sha256(env.verificationToken), env.now + cfg.verificationTtlMs);
      NeutralPatchIsSafe(accountRepository.Rows(), accountId, patch, env.now);
      var _ := UpdateAccount(accountId, patch, env);
      outbox := outbox + [Email(email, env.verificationToken)];
    }

    // ---- Public calls ------------------------------------------------------------------

    method Find(key: Accounts.AccountKey) returns (r: Option<Accounts.AccountRecord>)
      requires Stored() && Accounts.AtMostOne(accountRepository.Rows(), key)
      ensures r == Accounts.Lookup(accountRepository.Rows(), key)
    {
      r := accountRepository.FindBy(key);
      Accounts.SelectionIsLookup(accountRepository.Rows(), key, r);
    }

    method RegisterAccount(emailInput: string, password: string, companyName: Option<string>, fieldOfOperation: Option<string>, env: Env)
      returns (r: Response)
      requires Valid() && Fresh(Rows(), env)
      modifies Footprint()
      ensures Stored() && (Rows(), r) == Step(cfg, old(Rows()), Register(emailInput, password, companyName, fieldOfOperation), env)
    {
      hide NormalizeEmail, Accounts.Lookup, CreateAccount, Inv.Inv, Inv.AccountInv, Newcomer, Fresh;
      ghost var s := Rows();
      Start(env);
      var email := NormalizeEmail(emailInput);
      UniqueLookups(cfg, s);
      var existing := Find(Accounts.ByEmail(email));
      if existing.Some? {
        return Failed(AccountAlreadyExists);
      }
      var data := Accounts.AccountCreateData(email, Some(Argon2id(password, env.salt)), None, companyName, fieldOfOperation);
      NewcomerReady(cfg, s, data, env);
      CreationFrame(cfg, Begin(s, env), data, env);
      var account := AddAccount(data, env);
      LogEvent(AccountRegistered(account.id, Password));
      MailVerification(account.id, account.email, env);
      NewTokenReady(cfg, s, env);
      var tokens := OpenSession(account.id, None, env);
      r := Session(ToSummary(account), tokens);
    }

    method LoginAccount(emailInput: string, password: string, env: Env) returns (r: Response)
      requires Valid() && Fresh(Rows(), env)
      modifies Footprint()
      ensures Stored() && (Rows(), r) == Step(cfg, old(Rows()), Login(emailInput, password), env)
    {
      hide NormalizeEmail, Accounts.Lookup, Inv.Inv, Fresh;
      ghost var s := Rows();
      Start(env);
      UniqueLookups(cfg, s);
      var found := Find(Accounts.ByEmail(NormalizeEmail(emailInput)));
      if found.None? {
        LogEvent(LoginFailed(None));
        return Failed(InvalidCredentials);
      }
      var account := found.value;
      if account.passwordHash.None? {
        return Failed(AccountHasNoPassword);
      }
      if !PasswordMatches(account.passwordHash.value, password) {
        LogEvent(LoginFailed(Some(account.id)));
        return Failed(InvalidCredentials);
      }
      LogEvent(LoginSucceeded(account.id, Password));
      NewTokenReady(cfg, s, env);
      var tokens := OpenSession(account.id, None, env);
      r := Session(ToSummary(account), tokens);
    }

    method RefreshSession(refreshToken: string, env: Env) returns (r: Response)
      requires Valid() && Fresh(Rows(), env)
      modifies Footprint()
      ensures Stored() && (Rows(), r) == Step(cfg, old(Rows()), Refresh(refreshToken), env)
    {
      hide Inv.Inv, Fresh, Tokens.Revoke, Tokens.RevokeAllForAccount, Tokens.Find;
      ghost var s := Rows();
      Start(env);
      var found := refreshTokenRepository.FindByTokenHash(Sha256(refreshToken));
      if found.None? {
        return Failed(RefreshTokenInvalid);
      }
      var record := found.value;
      if record.revokedAt.Some? {
        refreshTokenRepository.RevokeEveryForAccount(record.accountId, env.now);
        LogEvent(ReuseDetected(record.accountId, record.id));
        return Failed(RefreshTokenReuseDetected);
      }
      if record.expiresAt <= env.now {
        return Failed(RefreshTokenExpired);
      }
      NewTokenReady(cfg, s, env);
      var tokens := OpenSession(record.accountId, Some(record.id), env);
      LogEvent(TokenRotated(record.accountId, record.id));
      r := Rotated(tokens);
    }

    method LogoutSession(refreshToken: string, env: Env) returns (r: Response)
      requires Valid() && Fresh(Rows(), env)
      modifies Footprint()
      ensures Stored() && (Rows(), r) == Step(cfg, old(Rows()), Logout(refreshToken), env)
    {
      hide Inv.Inv, Fresh, Tokens.Revoke, Tokens.Find;
      Start(env);
      var found := refreshTokenRepository.FindByTokenHash(Sha256(refreshToken));
      r := Done;
      if found.None? || found.value.revokedAt.Some? {
        return;
      }
      refreshTokenRepository.RevokeById(found.value.id, None, env.now);
      LogEvent(LoggedOut(found.value.accountId));
    }

    method VerifyAccountEmail(token: string, env: Env) returns (r: Response)
      requires Valid() && Fresh(Rows(), env)
      modifies Footprint()
      ensures Stored() && (Rows(), r) == Step(cfg, old(Rows()), VerifyEmail(token), env)
    {
      hide Inv.Inv, Fresh, Accounts.Lookup, Accounts.Update, Accounts.NoClash, PatchSafe;
      ghost var s := Rows();
      Start(env);
      UniqueLookups(cfg, s);
      var found := Find(Accounts.ByVerificationHash(Sha256(token)));
      if found.None? {
        return Failed(EmailVerificationTokenInvalid);
      }
      var account := found.value;
      if account.emailVerificationExpiresAt.None? || account.emailVerificationExpiresAt.value <= env.now {
        return Failed(EmailVerificationTokenExpired);
      }
      FoundById(s.accounts, Accounts.ByVerificationHash(Sha256(token)));
      NeutralPatchIsSafe(s.accounts, account.id, Accounts.MarkEmailVerified(env.now), env.now);
      var verified := UpdateAccount(account.id, Accounts.MarkEmailVerified(env.now), env);
      r := Verified(ToSummary(verified));
    }

    method ResendVerification(email: string, env: Env) returns (r: Response)
      requires Valid() && Fresh(Rows(), env)
      modifies Footprint()
      ensures Stored() && (Rows(), r) == Step(cfg, old(Rows()), ResendVerificationEmail(email), env)
    {
      hide Inv.Inv, Fresh, NormalizeEmail, Accounts.Lookup, Accounts.Update, Accounts.NoClash;
      ghost var s := Rows();
      Start(env);
      UniqueLookups(cfg, s);
      var key := Accounts.ByEmail(NormalizeEmail(email));
      var found := Find(key);
      r := Done;
      if found.None? || found.value.emailVerifiedAt.Some? {
        return;
      }
      FoundById(s.accounts, key);
      MailVerification(found.value.id, found.value.email, env);
    }

    method FinishGoogle(account: Accounts.AccountRecord, env: Env) returns (r: Response)
      requires Stored()
      requires !Tokens.HasId(refreshTokenRepository.Rows(), env.tokenId)
      requires !Tokens.HasHash(refreshTokenRepository.Rows(), Sha256(env.refreshToken))
      modifies Footprint()
      ensures Stored() && (Rows(), r) == FinishGoogleLogin(cfg, old(Rows()), account, env)
    {
      LogEvent(LoginSucceeded(account.id, Google));
      var tokens := OpenSession(account.id, None, env);
      r := Session(ToSummary(account), tokens);
    }

    /** Links the Google id, and marks the email verified if it was not. */
    method LinkGoogleAccount(found: Accounts.AccountRecord, googleId: string, env: Env) returns (account: Accounts.AccountRecord)
      requires Stored()
      requires Accounts.Lookup(accountRepository.Rows(), Accounts.ById(found.id)) == Some(found)
      requires PatchSafe(accountRepository.Rows(), found.id, Accounts.LinkGoogleId(googleId), env.now)
      modifies Footprint()
      ensures Stored() && (Rows(), account) == LinkGoogle(cfg, old(Rows()), found, googleId, env)
    {
      hide Accounts.Lookup, Accounts.Update, Accounts.NoClash, PatchSafe;
      account := UpdateAccount(found.id, Accounts.LinkGoogleId(googleId), env);
      if account.emailVerifiedAt.None? {
        NeutralPatchIsSafe(accountRepository.Rows(), found.id, Accounts.MarkEmailVerified(env.now), env.now);
        account := UpdateAccount(found.id, Accounts.MarkEmailVerified(env.now), env);
      }
      LogEvent(GoogleLinked(found.id));
    }

    method CreateGoogleAccount(email: string, googleId: string, emailInput: string, emailVerified: bool, env: Env)
      returns (account: Accounts.AccountRecord)
      requires Stored()
      requires Newcomer(cfg, accountRepository.Rows(), Accounts.AccountCreateData(email, None, Some(googleId), None, None), env)
      requires !Keys.Clashes(issuerKeyRepository.Rows(), NewKey(cfg, env))
      modifies Footprint()
      ensures Stored()
      ensures (Rows(), account) == CreateFromGoogle(cfg, old(Rows()), email, LoginWithGoogle(googleId, emailInput, emailVerified), env)
    {
      hide Accounts.Lookup, Accounts.Update, Accounts.NoClash, PatchSafe, Newcomer, CreateAccount, Keys.Clashes;
      var data := Accounts.AccountCreateData(email, None, Some(googleId), None, None);
      CreationFrame(cfg, Rows(), data, env);
      account := AddAccount(data, env);
      if emailVerified {
        NeutralPatchIsSafe(accountRepository.Rows(), account.id, Accounts.MarkEmailVerified(env.now), env.now);
        account := UpdateAccount(account.id, Accounts.MarkEmailVerified(env.now), env);
      }
      LogEvent(AccountRegistered(env.accountId, Google));
    }

    method LoginGoogle(googleId: string, emailInput: string, emailVerified: bool, env: Env) returns (r: Response)
      requires Valid() && Fresh(Rows(), env)
      modifies Footprint()
      ensures Stored() && (Rows(), r) == Step(cfg, old(Rows()), LoginWithGoogle(googleId, emailInput, emailVerified), env)
    {
      hide Inv.Inv, Fresh, NormalizeEmail, Accounts.Lookup, LinkGoogle, CreateFromGoogle, FinishGoogleLogin, PatchSafe, Newcomer;
      ghost var s := Rows();
      Start(env);
      UniqueLookups(cfg, s);
      NewTokenReady(cfg, s, env);
      var byGoogle := Find(Accounts.ByGoogleId(googleId));
      if byGoogle.Some? {
        r := FinishGoogle(byGoogle.value, env);
        return;
      }
      var email := NormalizeEmail(emailInput);
      var byEmail := Find(Accounts.ByEmail(email));
      var account: Accounts.AccountRecord;
      if byEmail.Some? {
        if !emailVerified {
          return Failed(AccountNotFound);
        }
        FoundById(s.accounts, Accounts.ByEmail(email));
        LinkIsSafe(s.accounts, byEmail.value.id, googleId, env.now);
        Steps.LinkGoogleFrame(cfg, Begin(s, env), byEmail.value, googleId, env);
        account := LinkGoogleAccount(byEmail.value, googleId, env);
      } else {
        NewcomerReady(cfg, s, Accounts.AccountCreateData(email, None, Some(googleId), None, None), env);
        Steps.CreateFromGoogleFrame(cfg, Begin(s, env), email, LoginWithGoogle(googleId, emailInput, emailVerified), env);
        account := CreateGoogleAccount(email, googleId, emailInput, emailVerified, env);
      }
      r := FinishGoogle(account, env);
    }

    /** Any call is one step of the model, and the invariant survives it. */
    method Perform(call: Call, env: Env) returns (r: Response)
      requires Valid() && Fresh(Rows(), env)
      modifies Footprint()
      ensures Valid() && (Rows(), r) == Step(cfg, old(Rows()), call, env)
    {
      hide Inv.Inv, Fresh, Step;
      Runs.InvKept(cfg, Rows(), call, env);
      match call
      case Register(email, password, companyName, fieldOfOperation) =>
        r := RegisterAccount(email, password, companyName, fieldOfOperation, env);
      case Login(email, password) => r := LoginAccount(email, password, env);
      case LoginWithGoogle(googleId, email, emailVerified) => r := LoginGoogle(googleId, email, emailVerified, env);
      case Refresh(token) => r := RefreshSession(token, env);
      case Logout(token) => r := LogoutSession(token, env);
      case VerifyEmail(token) => r := VerifyAccountEmail(token, env);
      case ResendVerificationEmail(email) => r := ResendVerification(email, env);
    }
  }

  // ---- Why the drivers cannot disagree ---------------------------------------------------

  /** The row exists and its patched version clashes with no other row. */
  predicate PatchSafe(rows: Accounts.Rows, id: string, patch: Accounts.AccountPatch, now: int) {
    && Accounts.NoClash(rows)
    && Accounts.Lookup(rows, Accounts.ById(id)).Some?
    && forall i :: 0 <= i < |rows| && rows[i].id != id ==>
         !Accounts.Clash(rows[i], Accounts.Patched(Accounts.Lookup(rows, Accounts.ById(id)).value, patch, now))
  }

  /** A record that can be added, and then given its issuer DID, without clashing with any row. */
  predicate Newcomer(cfg: Config, rows: Accounts.Rows, data: Accounts.AccountCreateData, env: Env) {
    var created := Accounts.Created(env.accountId, data, env.now);
    && Accounts.NoClash(rows + [created])
    && (forall i :: 0 <= i < |rows| ==> !Accounts.Clash(rows[i], created))
    && PatchSafe(rows + [created], env.accountId, Accounts.SetIssuerDid(BuildAccountIssuerDid(cfg.didDomain, env.accountId)), env.now)
  }

  lemma PatchKeepsApart(rows: Accounts.Rows, id: string, patch: Accounts.AccountPatch, now: int)
    requires PatchSafe(rows, id, patch, now)
    ensures Accounts.NoClash(Accounts.Update(rows, id, patch, now))
    ensures Accounts.Lookup(Accounts.Update(rows, id, patch, now), Accounts.ById(id))
         == Some(Accounts.Patched(Accounts.Lookup(rows, Accounts.ById(id)).value, patch, now))
  {
    hide Accounts.Clash;
    var at := Accounts.IndexOf(rows, Accounts.ById(id));
    var rows' := Accounts.Update(rows, id, patch, now);
    Accounts.NoClashKeepsIdsApart(rows);
    assert rows' == rows[at := Accounts.Patched(rows[at], patch, now)];
    forall i, j | 0 <= i < j < |rows'| ensures !Accounts.Clash(rows'[i], rows'[j]) {
      assert !Accounts.Clash(rows[i], rows[j]);
      if i == at {
        ClashIsSymmetric(rows'[i], rows'[j]);
      }
    }
    Accounts.NoClashKeepsIdsApart(rows');
    assert Accounts.Matches(rows'[at], Accounts.ById(id));
  }

  lemma ClashIsSymmetric(a: Accounts.AccountRecord, b: Accounts.AccountRecord)
    ensures Accounts.Clash(a, b) <==> Accounts.Clash(b, a)
  {
  }

  /** A patch that leaves the unique columns alone. */
  lemma NeutralPatchIsSafe(rows: Accounts.Rows, id: string, patch: Accounts.AccountPatch, now: int)
    requires Accounts.NoClash(rows) && Accounts.Lookup(rows, Accounts.ById(id)).Some?
    requires patch.googleId.Absent? && patch.issuerDid.Absent?
    ensures PatchSafe(rows, id, patch, now)
  {
    var at := Accounts.IndexOf(rows, Accounts.ById(id));
    forall i | 0 <= i < |rows| && rows[i].id != id ensures !Accounts.Clash(rows[i], Accounts.Patched(rows[at], patch, now)) {
      assert if i < at then !Accounts.Clash(rows[i], rows[at]) else !Accounts.Clash(rows[at], rows[i]);
    }
  }

  lemma LastRowById(rows: Accounts.Rows, a: Accounts.AccountRecord)
    requires Accounts.NoClash(rows + [a])
    ensures Accounts.Lookup(rows + [a], Accounts.ById(a.id)) == Some(a)
  {
    Accounts.NoClashKeepsIdsApart(rows + [a]);
    var at := Accounts.IndexOf(rows + [a], Accounts.ById(a.id));
    assert (rows + [a])[|rows|] == a;
  }

  function NewKey(cfg: Config, env: Env): Keys.IssuerKeyRow {
    Keys.IssuerKeyRow(env.keyId, env.accountId, BuildAccountIssuerDid(cfg.didDomain, env.accountId), env.encryptedPrivateKey, env.now)
  }

  lemma UniqueLookups(cfg: Config, s: State)
    requires Inv.Inv(cfg, s)
    ensures Accounts.NoClash(s.accounts)
    ensures forall key: Accounts.AccountKey :: Accounts.AtMostOne(s.accounts, key)
  {
    hide Accounts.Clash, Inv.GoodAccount, Inv.IssuerInv, Inv.TokenInv;
    Inv.NoClashMeansUnique(s.accounts);
  }

  lemma FoundById(rows: Accounts.Rows, key: Accounts.AccountKey)
    requires Accounts.NoClash(rows) && Accounts.Lookup(rows, key).Some?
    ensures Accounts.Lookup(rows, Accounts.ById(Accounts.Lookup(rows, key).value.id)) == Accounts.Lookup(rows, key)
  {
    Accounts.NoClashKeepsIdsApart(rows);
    var at := Accounts.IndexOf(rows, key);
    var at' := Accounts.IndexOf(rows, Accounts.ById(rows[at].id));
    assert Accounts.Matches(rows[at], Accounts.ById(rows[at].id));
  }

  lemma NewTokenReady(cfg: Config, s: State, env: Env)
    requires Inv.Inv(cfg, s) && Fresh(s, env)
    ensures !Tokens.HasId(s.tokens, env.tokenId) && !Tokens.HasHash(s.tokens, Sha256(env.refreshToken))
  {
    Steps.FreshTokenIsNewcomer(cfg, s, env.accountId, env);
  }

  lemma CreationFrame(cfg: Config, s: State, data: Accounts.AccountCreateData, env: Env)
    ensures CreateAccount(cfg, s, data, env).0.tokens == s.tokens
    ensures CreateAccount(cfg, s, data, env).1.id == env.accountId
  {
  }

  /** Linking a Google id that no account holds. */
  lemma LinkIsSafe(rows: Accounts.Rows, id: string, googleId: string, now: int)
    requires Accounts.NoClash(rows) && Accounts.Lookup(rows, Accounts.ById(id)).Some?
    requires Accounts.Lookup(rows, Accounts.ByGoogleId(googleId)).None?
    ensures PatchSafe(rows, id, Accounts.LinkGoogleId(googleId), now)
  {
    var at := Accounts.IndexOf(rows, Accounts.ById(id));
    forall i | 0 <= i < |rows| && rows[i].id != id
      ensures !Accounts.Clash(rows[i], Accounts.Patched(rows[at], Accounts.LinkGoogleId(googleId), now))
    {
      assert !Accounts.Matches(rows[i], Accounts.ByGoogleId(googleId));
      assert if i < at then !Accounts.Clash(rows[i], rows[at]) else !Accounts.Clash(rows[at], rows[i]);
    }
  }

  /** What the service has checked before creating an account is what the tables would enforce. */
  lemma NewcomerReady(cfg: Config, s: State, data: Accounts.AccountCreateData, env: Env)
    requires Inv.Inv(cfg, s) && Fresh(s, env)
    requires Accounts.Lookup(s.accounts, Accounts.ByEmail(data.email)).None?
    requires data.googleId.Some? ==> Accounts.Lookup(s.accounts, Accounts.ByGoogleId(data.googleId.value)).None?
    ensures Newcomer(cfg, s.accounts, data, env)
    ensures !Keys.Clashes(s.keys, NewKey(cfg, env))
  {
    hide NormalizeEmail, BuildAccountIssuerDid;
    var created := Accounts.Created(env.accountId, data, env.now);
    var did := BuildAccountIssuerDid(cfg.didDomain, env.accountId);
    var setDid := Accounts.SetIssuerDid(did);
    Inv.NewcomerClashesWithNone(cfg, s, created);
    Inv.NewcomerClashesWithNone(cfg, s, Accounts.Patched(created, setDid, env.now));
    LastRowById(s.accounts, created);
    forall i | 0 <= i < |s.keys| ensures !Keys.Clash(s.keys[i], NewKey(cfg, env)) {
      assert Inv.GoodAccount(cfg, s.accounts[i], s.used);
      Inv.DidsApart(cfg.didDomain, s.accounts[i].id, env.accountId);
    }
  }

  // ---- Two services, two drivers, one behaviour ---------------------------------------------

  predicate Apart(a: set<object?>, b: set<object?>) {
    forall o :: o in a && o in b ==> o == null
  }

  /** The same call on two services that hold the same rows. */
  method PerformOnBoth(memory: AuthService, sqlite: AuthService, input: Input) returns (r: Response, r': Response)
    requires memory.Valid() && sqlite.Valid() && memory.cfg == sqlite.cfg && memory.Rows() == sqlite.Rows()
    requires Apart(memory.Footprint(), sqlite.Footprint())
    requires Fresh(memory.Rows(), input.env)
    modifies memory.Footprint(), sqlite.Footprint()
    ensures memory.Valid() && sqlite.Valid() && memory.Rows() == sqlite.Rows() && r == r'
    ensures (memory.Rows(), r) == Step(memory.cfg, old(memory.Rows()), input.call, input.env)
  {
    hide Step, Inv.Inv, Fresh;
    r := memory.Perform(input.call, input.env);
    r' := sqlite.Perform(input.call, input.env);
  }

  method NewPair(cfg: Config) returns (memory: AuthService, sqlite: AuthService)
    ensures memory.Valid() && sqlite.Valid() && memory.cfg == sqlite.cfg == cfg
    ensures memory.Rows() == sqlite.Rows() == INITIAL
    ensures Apart(memory.Footprint(), sqlite.Footprint())
    ensures fresh(memory.Footprint() - {null}) && fresh(sqlite.Footprint() - {null})
    ensures memory.accountRepository.sqlite == null && sqlite.accountRepository.sqlite != null
  {
    hide Inv.Inv;
    memory := new AuthService(cfg, false);
    sqlite := new AuthService(cfg, true);
  }

  /** Run for run, a service on the map-and-scan drivers and one on the constrained tables give
      the same answers, namely the model's; no UNIQUE constraint ever fires. */
  method RunOnBothDrivers(cfg: Config, run: seq<Input>) returns (onMemory: seq<Response>, onSqlite: seq<Response>)
    requires Feasible(cfg, INITIAL, run)
    ensures onMemory == onSqlite == Responses(cfg, INITIAL, run)
  {
    hide Step, Inv.Inv, Fresh, AuthService.Rows, AuthService.Valid, AuthService.Footprint;
    var memory, sqlite := NewPair(cfg);
    onMemory, onSqlite := [], [];
    for i := 0 to |run|
      invariant memory.Valid() && sqlite.Valid() && memory.cfg == sqlite.cfg == cfg
      invariant Apart(memory.Footprint(), sqlite.Footprint())
      invariant fresh(memory.Footprint() - {null}) && fresh(sqlite.Footprint() - {null})
      invariant memory.Rows() == sqlite.Rows() && Feasible(cfg, memory.Rows(), run[i..])
      invariant onMemory == onSqlite
      invariant onMemory + Responses(cfg, memory.Rows(), run[i..]) == Responses(cfg, INITIAL, run)
    {
      ghost var before := memory.Rows();
      assert run[i..][0] == run[i] && run[i..][1..] == run[i + 1..];
      var r, r' := PerformOnBoth(memory, sqlite, run[i]);
      assert onMemory + Responses(cfg, before, run[i..]) == (onMemory + [r]) + Responses(cfg, memory.Rows(), run[i + 1..]);
      onMemory, onSqlite := onMemory + [r], onSqlite + [r'];
    }
  }
}
