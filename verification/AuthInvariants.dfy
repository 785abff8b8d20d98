/** The invariant every AuthService step keeps, and what one step does to each table. */
module AuthInvariants {
  import opened Common
  import opened AuthModel
  import opened SessionChains
  import Text
  import Accounts = AccountStore
  import Tokens = RefreshTokenStore
  import Keys = IssuerKeyStore

  // ---- Invariant ------------------------------------------------------------------

  predicate GoodAccount(cfg: Config, a: Accounts.AccountRecord, used: set<string>) {
    && a.id in used
    && NormalizeEmail(a.email) == a.email
    && (a.passwordHash.Some? || a.googleId.Some?)
    && a.issuerDid == Some(BuildAccountIssuerDid(cfg.didDomain, a.id))
    && (a.emailVerifiedAt.Some? ==> a.emailVerificationTokenHash.None?)
    && (a.emailVerificationTokenHash.Some? ==> a.emailVerificationTokenHash.value.preimage in used)
    && (a.emailVerificationTokenHash.Some? <==> a.emailVerificationExpiresAt.Some?)
  }

  predicate PendingApart(accounts: Accounts.Rows) {
    forall i, j :: 0 <= i < j < |accounts| && accounts[i].emailVerificationTokenHash.Some? ==>
      accounts[i].emailVerificationTokenHash != accounts[j].emailVerificationTokenHash
  }

  predicate AccountInv(cfg: Config, s: State) {
    && Accounts.NoClash(s.accounts)
    && PendingApart(s.accounts)
    && (forall i :: 0 <= i < |s.accounts| ==> GoodAccount(cfg, s.accounts[i], s.used))
  }

  /** The i-th account has the i-th DID record and the i-th key row behind it, and there are no others. */
  predicate IssuerInv(cfg: Config, s: State) {
    && |s.dids| == |s.keys| == |s.accounts|
    && (forall i :: 0 <= i < |s.accounts| ==>
          && s.dids[i].id == BuildAccountIssuerDid(cfg.didDomain, s.accounts[i].id)
          && s.keys[i].accountId == s.accounts[i].id
          && s.keys[i].did == s.dids[i].id
          && s.keys[i].id in s.used)
  }

  predicate HasAccount(accounts: Accounts.Rows, id: string) {
    exists i :: 0 <= i < |accounts| && accounts[i].id == id
  }

  ghost predicate TokenInv(s: State) {
    && ChainInv(s.tokens)
    && (forall i :: 0 <= i < |s.tokens| ==>
          && s.tokens[i].id in s.used
          && s.tokens[i].tokenHash.preimage in s.used
          && s.tokens[i].createdAt <= s.clock
          && HasAccount(s.accounts, s.tokens[i].accountId))
  }

  ghost predicate Inv(cfg: Config, s: State) {
    AccountInv(cfg, s) && IssuerInv(cfg, s) && TokenInv(s)
  }

  // ---- Accounts: what one step does -------------------------------------------------

  datatype AccountEffect =
    | Same
    | Added(account: Accounts.AccountRecord)
    | Changed(at: nat, account: Accounts.AccountRecord)

  /** Whether the call creates an account. */
  predicate Creates(s: State, call: Call) {
    match call
    case Register(email, _, _, _) => Accounts.Lookup(s.accounts, Accounts.ByEmail(NormalizeEmail(email))).None?
    case LoginWithGoogle(googleId, email, _) =>
      && Accounts.Lookup(s.accounts, Accounts.ByGoogleId(googleId)).None?
      && Accounts.Lookup(s.accounts, Accounts.ByEmail(NormalizeEmail(email))).None?
    case _ => false
  }

  /** The later version of an account: identity fixed, issuer DID and verification never undone. */
  predicate Evolves(a: Accounts.AccountRecord, a': Accounts.AccountRecord) {
    && a'.id == a.id && a'.email == a.email && a'.passwordHash == a.passwordHash && a'.createdAt == a.createdAt
    && a'.companyName == a.companyName && a'.fieldOfOperation == a.fieldOfOperation
    && a'.issuerDid == a.issuerDid
    && (a.googleId.Some? ==> a'.googleId.Some?)
    && (a.emailVerifiedAt.Some? ==> a'.emailVerifiedAt == a.emailVerifiedAt)
  }

  /** A pending token is the one already there or the one emailed in this very step. */
  predicate PendingFrom(before: Option<Digest>, after: Option<Digest>, env: Env) {
    after.None? || after == before || after == Some(Sha256(env.verificationToken))
  }

  predicate AllowedOn(cfg: Config, s: State, e: AccountEffect, env: Env) {
    match e
    case Same => true
    case Added(a) =>
      && a.id == env.accountId
      && GoodAccount(cfg, a, Begin(s, env).used)
      && PendingFrom(None, a.emailVerificationTokenHash, env)
      && (forall i :: 0 <= i < |s.accounts| ==> !Accounts.Clash(s.accounts[i], a))
    case Changed(at, a) =>
      && at < |s.accounts|
      && Evolves(s.accounts[at], a)
      && GoodAccount(cfg, a, Begin(s, env).used)
      && PendingFrom(s.accounts[at].emailVerificationTokenHash, a.emailVerificationTokenHash, env)
      && (forall i :: 0 <= i < |s.accounts| && i != at ==> !Accounts.Clash(s.accounts[i], a))
  }

  function ApplyOn(accounts: Accounts.Rows, e: AccountEffect): Accounts.Rows
    requires e.Changed? ==> e.at < |accounts|
  {
    match e
    case Same => accounts
    case Added(a) => accounts + [a]
    case Changed(at, a) => accounts[at := a]
  }

  lemma NoClashMeansUnique(accounts: Accounts.Rows)
    requires Accounts.NoClash(accounts)
    ensures Accounts.UniqueIds(accounts)
    ensures forall key: Accounts.AccountKey :: !key.ByVerificationHash? ==> Accounts.AtMostOne(accounts, key)
    ensures PendingApart(accounts) ==> forall key: Accounts.AccountKey :: Accounts.AtMostOne(accounts, key)
  {
    forall i, j | 0 <= i < j < |accounts| ensures accounts[i].id != accounts[j].id {
      assert !Accounts.Clash(accounts[i], accounts[j]);
    }
    forall key: Accounts.AccountKey | !key.ByVerificationHash? ensures Accounts.AtMostOne(accounts, key) {
      forall i, j | 0 <= i < j < |accounts| ensures !(Accounts.Matches(accounts[i], key) && Accounts.Matches(accounts[j], key)) {
        assert !Accounts.Clash(accounts[i], accounts[j]);
      }
    }
  }

  lemma PatchTouchesOneRow(accounts: Accounts.Rows, at: nat, patch: Accounts.AccountPatch, now: int)
    requires Accounts.UniqueIds(accounts) && at < |accounts|
    ensures Accounts.Update(accounts, accounts[at].id, patch, now) == accounts[at := Accounts.Patched(accounts[at], patch, now)]
  {
  }

  lemma PatchTouchesLastRow(accounts: Accounts.Rows, a: Accounts.AccountRecord, patch: Accounts.AccountPatch, now: int)
    requires forall i :: 0 <= i < |accounts| ==> accounts[i].id != a.id
    ensures Accounts.Update(accounts + [a], a.id, patch, now) == accounts + [Accounts.Patched(a, patch, now)]
  {
  }

  /** Different accounts get different DIDs. */
  lemma DidsApart(didDomain: string, id: string, id': string)
    ensures BuildAccountIssuerDid(didDomain, id) == BuildAccountIssuerDid(didDomain, id') ==> id == id'
  {
    var prefix := "did:web:" + didDomain + ":accounts:";
    assert BuildAccountIssuerDid(didDomain, id)[|prefix|..] == id;
    assert BuildAccountIssuerDid(didDomain, id')[|prefix|..] == id';
  }

  lemma NormalizedTwice(email: string)
    ensures NormalizeEmail(NormalizeEmail(email)) == NormalizeEmail(email)
  {
    Text.TrimIsTrimmed(email);
    Text.LowerKeepsTrimmed(Text.Trim(email));
    Text.TrimIsTrimmed(NormalizeEmail(email));
  }

  /** A record with a fresh id, an email nobody has and a Google id nobody has clashes with no account. */
  lemma NewcomerClashesWithNone(cfg: Config, s: State, a: Accounts.AccountRecord)
    requires AccountInv(cfg, s) && a.id !in s.used
    requires Accounts.Lookup(s.accounts, Accounts.ByEmail(a.email)).None?
    requires a.googleId.Some? ==> Accounts.Lookup(s.accounts, Accounts.ByGoogleId(a.googleId.value)).None?
    requires a.issuerDid.Some? ==> a.issuerDid == Some(BuildAccountIssuerDid(cfg.didDomain, a.id))
    ensures forall i :: 0 <= i < |s.accounts| ==> !Accounts.Clash(s.accounts[i], a)
  {
    hide NormalizeEmail, BuildAccountIssuerDid;
    forall i | 0 <= i < |s.accounts| ensures !Accounts.Clash(s.accounts[i], a) {
      assert GoodAccount(cfg, s.accounts[i], s.used);
      DidsApart(cfg.didDomain, s.accounts[i].id, a.id);
      assert !Accounts.Matches(s.accounts[i], Accounts.ByEmail(a.email));
      if a.googleId.Some? {
        assert !Accounts.Matches(s.accounts[i], Accounts.ByGoogleId(a.googleId.value));
      }
    }
  }

  lemma CreateAccountAppends(cfg: Config, s: State, data: Accounts.AccountCreateData, env: Env)
    requires forall i :: 0 <= i < |s.accounts| ==> s.accounts[i].id != env.accountId
    ensures var (s1, a) := CreateAccount(cfg, s, data, env);
            && s1.accounts == s.accounts + [a]
            && a == Accounts.Created(env.accountId, data, env.now).(issuerDid := Some(BuildAccountIssuerDid(cfg.didDomain, env.accountId)))
            && s1 == s.(accounts := s1.accounts, dids := s1.dids, keys := s1.keys)
            && s1.dids == s.dids + [DidRecord(a.issuerDid.value, env.publicKey)]
            && s1.keys == s.keys + [Keys.IssuerKeyRow(env.keyId, a.id, a.issuerDid.value, env.encryptedPrivateKey, env.now)]
  {
    PatchTouchesLastRow(s.accounts, Accounts.Created(env.accountId, data, env.now),
                        Accounts.SetIssuerDid(BuildAccountIssuerDid(cfg.didDomain, env.accountId)), env.now);
  }

  lemma FreshIdIsNew(cfg: Config, s: State, env: Env)
    requires AccountInv(cfg, s) && Fresh(s, env)
    ensures forall i :: 0 <= i < |s.accounts| ==> s.accounts[i].id != env.accountId
  {
    hide NormalizeEmail, BuildAccountIssuerDid;
    forall i | 0 <= i < |s.accounts| ensures s.accounts[i].id != env.accountId {
      assert GoodAccount(cfg, s.accounts[i], s.used);
    }
  }

  lemma RegisterEffect(cfg: Config, s: State, call: Call, env: Env) returns (e: AccountEffect)
    requires call.Register? && AccountInv(cfg, s) && Fresh(s, env)
    ensures AllowedOn(cfg, s, e, env) && Step(cfg, s, call, env).0.accounts == ApplyOn(s.accounts, e)
    ensures !e.Changed? && (e.Added? <==> Creates(s, call))
  {
    hide NormalizeEmail, BuildAccountIssuerDid;
    var s0 := Begin(s, env);
    var email := NormalizeEmail(call.email);
    if Accounts.Lookup(s.accounts, Accounts.ByEmail(email)).Some? {
      return Same;
    }
    var data := Accounts.AccountCreateData(email, Some(Argon2id(call.password, env.salt)), None, call.companyName, call.fieldOfOperation);
    FreshIdIsNew(cfg, s, env);
    CreateAccountAppends(cfg, s0, data, env);
    var a := CreateAccount(cfg, s0, data, env).1;
    var pending := Accounts.SetEmailVerificationToken(Sha256(env.verificationToken), env.now + cfg.verificationTtlMs);
    PatchTouchesLastRow(s.accounts, a, pending, env.now);
    var final := if cfg.hasEmailSender then Accounts.Patched(a, pending, env.now) else a;
    NormalizedTwice(call.email);
    NewcomerClashesWithNone(cfg, s, final);
    e := Added(final);
  }

  /** Linking a Google id nobody holds, with or without marking the email verified. */
  lemma LinkEffect(cfg: Config, s: State, at: nat, googleId: string, env: Env) returns (e: AccountEffect)
    requires AccountInv(cfg, s) && Fresh(s, env) && at < |s.accounts|
    requires Accounts.Lookup(s.accounts, Accounts.ByGoogleId(googleId)).None?
    ensures var (s1, a) := LinkGoogle(cfg, Begin(s, env), s.accounts[at], googleId, env);
            e == Changed(at, a) && AllowedOn(cfg, s, e, env) && s1.accounts == ApplyOn(s.accounts, e)
  {
    hide NormalizeEmail, BuildAccountIssuerDid;
    var found := s.accounts[at];
    NoClashMeansUnique(s.accounts);
    var link := Accounts.LinkGoogleId(googleId);
    var linked := Accounts.Patched(found, link, env.now);
    PatchTouchesOneRow(s.accounts, at, link, env.now);
    PatchTouchesOneRow(s.accounts[at := linked], at, Accounts.MarkEmailVerified(env.now), env.now);
    assert GoodAccount(cfg, found, s.used);
    var a := LinkGoogle(cfg, Begin(s, env), found, googleId, env).1;
    forall i | 0 <= i < |s.accounts| && i != at ensures !Accounts.Clash(s.accounts[i], a) {
      assert !Accounts.Matches(s.accounts[i], Accounts.ByGoogleId(googleId));
      assert if i < at then !Accounts.Clash(s.accounts[i], found) else !Accounts.Clash(found, s.accounts[i]);
    }
    e := Changed(at, a);
  }

  lemma GoogleEffect(cfg: Config, s: State, call: Call, env: Env) returns (e: AccountEffect)
    requires call.LoginWithGoogle? && AccountInv(cfg, s) && Fresh(s, env)
    ensures AllowedOn(cfg, s, e, env) && Step(cfg, s, call, env).0.accounts == ApplyOn(s.accounts, e)
    ensures e.Added? <==> Creates(s, call)
    ensures e.Changed? <==>
              && Accounts.Lookup(s.accounts, Accounts.ByGoogleId(call.googleId)).None? && call.emailVerified
              && Accounts.Lookup(s.accounts, Accounts.ByEmail(NormalizeEmail(call.email))).Some?
    ensures e.Changed? ==> e.account.googleId == Some(call.googleId) && s.accounts[e.at].email == NormalizeEmail(call.email)
    ensures e.Changed? ==> e.account.emailVerifiedAt.Some?
  {
    hide NormalizeEmail, BuildAccountIssuerDid;
    var s0 := Begin(s, env);
    var email := NormalizeEmail(call.email);
    if Accounts.Lookup(s.accounts, Accounts.ByGoogleId(call.googleId)).Some? {
      return Same;
    }
    var at := Accounts.IndexOf(s.accounts, Accounts.ByEmail(email));
    if at < |s.accounts| {
      if !call.emailVerified {
        return Same;
      }
      e := LinkEffect(cfg, s, at, call.googleId, env);
    } else {
      var data := Accounts.AccountCreateData(email, None, Some(call.googleId), None, None);
      FreshIdIsNew(cfg, s, env);
      CreateAccountAppends(cfg, s0, data, env);
      var created := CreateAccount(cfg, s0, data, env).1;
      PatchTouchesLastRow(s.accounts, created, Accounts.MarkEmailVerified(env.now), env.now);
      NormalizedTwice(call.email);
      var a := CreateFromGoogle(cfg, s0, email, call, env).1;
      NewcomerClashesWithNone(cfg, s, a);
      e := Added(a);
    }
  }

  /** Setting or clearing the verification fields of one account. */
  lemma VerificationEffect(cfg: Config, s: State, at: nat, patch: Accounts.AccountPatch, env: Env) returns (e: AccountEffect)
    requires AccountInv(cfg, s) && at < |s.accounts|
    requires s.accounts[at].emailVerifiedAt.None?
    requires || patch == Accounts.MarkEmailVerified(env.now)
             || patch == Accounts.SetEmailVerificationToken(Sha256(env.verificationToken), env.now + cfg.verificationTtlMs)
    ensures e == Changed(at, Accounts.Patched(s.accounts[at], patch, env.now))
    ensures AllowedOn(cfg, s, e, env)
    ensures Accounts.Update(s.accounts, s.accounts[at].id, patch, env.now) == ApplyOn(s.accounts, e)
  {
    hide NormalizeEmail, BuildAccountIssuerDid;
    NoClashMeansUnique(s.accounts);
    PatchTouchesOneRow(s.accounts, at, patch, env.now);
    assert GoodAccount(cfg, s.accounts[at], s.used);
    var a := Accounts.Patched(s.accounts[at], patch, env.now);
    forall i | 0 <= i < |s.accounts| && i != at ensures !Accounts.Clash(s.accounts[i], a) {
      assert if i < at then !Accounts.Clash(s.accounts[i], s.accounts[at]) else !Accounts.Clash(s.accounts[at], s.accounts[i]);
    }
    e := Changed(at, a);
  }

  lemma VerifyStepEffect(cfg: Config, s: State, call: Call, env: Env) returns (e: AccountEffect)
    requires call.VerifyEmail? && AccountInv(cfg, s)
    ensures !e.Added? && AllowedOn(cfg, s, e, env) && Step(cfg, s, call, env).0.accounts == ApplyOn(s.accounts, e)
  {
    hide NormalizeEmail, BuildAccountIssuerDid, Accounts.Clash;
    var at := Accounts.IndexOf(s.accounts, Accounts.ByVerificationHash(Sha256(call.token)));
    if at < |s.accounts| && s.accounts[at].emailVerificationExpiresAt.Some? && env.now < s.accounts[at].emailVerificationExpiresAt.value {
      assert GoodAccount(cfg, s.accounts[at], s.used);
      e := VerificationEffect(cfg, s, at, Accounts.MarkEmailVerified(env.now), env);
    } else {
      e := Same;
    }
  }

  lemma ResendStepEffect(cfg: Config, s: State, call: Call, env: Env) returns (e: AccountEffect)
    requires call.ResendVerificationEmail? && AccountInv(cfg, s)
    ensures !e.Added? && AllowedOn(cfg, s, e, env) && Step(cfg, s, call, env).0.accounts == ApplyOn(s.accounts, e)
  {
    hide NormalizeEmail, BuildAccountIssuerDid, Accounts.Clash, GoodAccount;
    var at := Accounts.IndexOf(s.accounts, Accounts.ByEmail(NormalizeEmail(call.email)));
    if at < |s.accounts| && s.accounts[at].emailVerifiedAt.None? && cfg.hasEmailSender {
      e := VerificationEffect(cfg, s, at,
             Accounts.SetEmailVerificationToken(Sha256(env.verificationToken), env.now + cfg.verificationTtlMs), env);
    } else {
      e := Same;
    }
  }

  lemma StepAccounts(cfg: Config, s: State, call: Call, env: Env) returns (e: AccountEffect)
    requires AccountInv(cfg, s) && Fresh(s, env)
    ensures AllowedOn(cfg, s, e, env) && Step(cfg, s, call, env).0.accounts == ApplyOn(s.accounts, e)
    ensures e.Added? <==> Creates(s, call)
  {
    hide NormalizeEmail, BuildAccountIssuerDid;
    match call
    case Register(_, _, _, _) => e := RegisterEffect(cfg, s, call, env);
    case LoginWithGoogle(_, _, _) => e := GoogleEffect(cfg, s, call, env);
    case VerifyEmail(_) => e := VerifyStepEffect(cfg, s, call, env);
    case ResendVerificationEmail(_) => e := ResendStepEffect(cfg, s, call, env);
    case Login(_, _) => e := Same;
    case Refresh(_) => e := Same;
    case Logout(_) => e := Same;
  }

  lemma AccountEffectKeepsInv(cfg: Config, s: State, e: AccountEffect, env: Env)
    requires AccountInv(cfg, s) && Fresh(s, env) && AllowedOn(cfg, s, e, env)
    ensures AccountInv(cfg, Begin(s, env).(accounts := ApplyOn(s.accounts, e)))
  {
    hide NormalizeEmail, BuildAccountIssuerDid;
    var accounts' := ApplyOn(s.accounts, e);
    forall i, j | 0 <= i < j < |accounts'| ensures !Accounts.Clash(accounts'[i], accounts'[j]) {
      if j < |s.accounts| {
        assert !Accounts.Clash(s.accounts[i], s.accounts[j]);
      }
    }
    forall i | 0 <= i < |s.accounts| ensures s.accounts[i].emailVerificationTokenHash != Some(Sha256(env.verificationToken)) {
      assert GoodAccount(cfg, s.accounts[i], s.used);
    }
    forall i | 0 <= i < |accounts'| ensures GoodAccount(cfg, accounts'[i], Begin(s, env).used) {
      if i < |s.accounts| {
        assert GoodAccount(cfg, s.accounts[i], s.used);
      }
    }
  }
}
