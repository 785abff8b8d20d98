/** What holds of the accounts, their issuer DIDs and their emailed tokens in every run. */
module AccountTheorems {
  import opened Common
  import opened AuthModel
  import opened AuthInvariants
  import opened AuthTheorems
  import Accounts = AccountStore
  import Keys = IssuerKeyStore

  // ---- Accounts and issuers ------------------------------------------------------------

  /** In every run: emails are normalised and, like Google ids and issuer DIDs, unique; every account
      can sign in somehow, has exactly one DID record and one key row behind its issuer DID, and is not
      both verified and awaiting verification. */
  lemma AccountsInEveryRun(cfg: Config, run: seq<Input>, i: nat, j: nat)
    requires Feasible(cfg, INITIAL, run)
    requires i < |Run(cfg, INITIAL, run).accounts| && j < |Run(cfg, INITIAL, run).accounts|
    ensures var s := Run(cfg, INITIAL, run);
            var a, b := s.accounts[i], s.accounts[j];
            && NormalizeEmail(a.email) == a.email
            && (a.passwordHash.Some? || a.googleId.Some?)
            && (i != j ==>
                  && a.email != b.email && a.id != b.id && a.issuerDid != b.issuerDid
                  && (a.googleId.Some? ==> a.googleId != b.googleId))
            && (a.emailVerifiedAt.Some? ==> a.emailVerificationTokenHash.None? && a.emailVerificationExpiresAt.None?)
            && |s.dids| == |s.accounts| == |s.keys|
            && a.issuerDid == Some(BuildAccountIssuerDid(cfg.didDomain, a.id))
            && (Some(s.dids[j].id) == a.issuerDid <==> i == j)
            && (s.keys[j].accountId == a.id <==> i == j)
            && (Some(s.keys[j].did) == a.issuerDid <==> i == j)
  {
    hide Feasible, Run, NormalizeEmail, BuildAccountIssuerDid;
    InvAlways(cfg, INITIAL, run);
    var s := Run(cfg, INITIAL, run);
    assert GoodAccount(cfg, s.accounts[i], s.used) && GoodAccount(cfg, s.accounts[j], s.used);
    DidsApart(cfg.didDomain, s.accounts[i].id, s.accounts[j].id);
    if i < j {
      assert !Accounts.Clash(s.accounts[i], s.accounts[j]);
    } else if j < i {
      assert !Accounts.Clash(s.accounts[j], s.accounts[i]);
    }
  }

  predicate AllEvolve(accounts: Accounts.Rows, accounts': Accounts.Rows) {
    |accounts| <= |accounts'| && forall i :: 0 <= i < |accounts| ==> Evolves(accounts[i], accounts'[i])
  }

  lemma EffectEvolves(cfg: Config, s: State, e: AccountEffect, env: Env)
    requires AllowedOn(cfg, s, e, env)
    ensures AllEvolve(s.accounts, ApplyOn(s.accounts, e))
  {
    hide GoodAccount, Accounts.Clash;
  }

  lemma EvolveTwice(accounts: Accounts.Rows, accounts': Accounts.Rows, accounts'': Accounts.Rows)
    requires AllEvolve(accounts, accounts') && AllEvolve(accounts', accounts'')
    ensures AllEvolve(accounts, accounts'')
  {
    forall i | 0 <= i < |accounts| ensures Evolves(accounts[i], accounts''[i]) {
      assert Evolves(accounts[i], accounts'[i]) && Evolves(accounts'[i], accounts''[i]);
    }
  }

  /** Whatever is called later, no account disappears or changes identity, its issuer DID is never
      set again, and its verification is never lost. */
  lemma {:induction false} AccountsOnlyEvolve(cfg: Config, s: State, run: seq<Input>)
    requires Inv(cfg, s) && Feasible(cfg, s, run)
    ensures AllEvolve(s.accounts, Run(cfg, s, run).accounts)
    decreases |run|
  {
    hide AccountInv, IssuerInv, TokenInv, Step, AllEvolve, AllowedOn, Creates;
    if run != [] {
      var s' := Step(cfg, s, run[0].call, run[0].env).0;
      var e := StepAccounts(cfg, s, run[0].call, run[0].env);
      EffectEvolves(cfg, s, e, run[0].env);
      InvKept(cfg, s, run[0].call, run[0].env);
      AccountsOnlyEvolve(cfg, s', run[1..]);
      EvolveTwice(s.accounts, s'.accounts, Run(cfg, s, run).accounts);
    } else {
      AllEvolveSelf(s.accounts);
    }
  }

  lemma AllEvolveSelf(accounts: Accounts.Rows)
    ensures AllEvolve(accounts, accounts)
  {
  }

  // ---- When a Google id is overwritten ---------------------------------------------------------

  /** A Google login with a verified email links by that email, whatever Google id the account has. */
  predicate Relinks(s: State, call: Call, email: string) {
    && call.LoginWithGoogle? && call.emailVerified && NormalizeEmail(call.email) == email
    && Accounts.Lookup(s.accounts, Accounts.ByGoogleId(call.googleId)).None?
  }

  lemma GoogleIdAfterLogin(cfg: Config, s: State, call: Call, env: Env, i: nat)
    requires AccountInv(cfg, s) && Fresh(s, env) && i < |s.accounts| && call.LoginWithGoogle?
    ensures var s' := Step(cfg, s, call, env).0;
            && |s'.accounts| >= |s.accounts|
            && s'.accounts[i].googleId
               == if Relinks(s, call, s.accounts[i].email) then Some(call.googleId) else s.accounts[i].googleId
  {
    hide NormalizeEmail, BuildAccountIssuerDid, Step, GoodAccount, Accounts.Clash, Creates;
    var e := GoogleEffect(cfg, s, call, env);
    if Relinks(s, call, s.accounts[i].email) {
      assert Accounts.Matches(s.accounts[i], Accounts.ByEmail(NormalizeEmail(call.email)));
    }
    if e.Changed? {
      EmailsApart(s.accounts, e.at, i);
    }
  }

  lemma EmailsApart(accounts: Accounts.Rows, i: nat, j: nat)
    requires Accounts.NoClash(accounts) && i < |accounts| && j < |accounts|
    ensures accounts[i].email == accounts[j].email <==> i == j
  {
    assert i < j ==> !Accounts.Clash(accounts[i], accounts[j]);
    assert j < i ==> !Accounts.Clash(accounts[j], accounts[i]);
  }

  lemma GoogleIdAfterOthers(cfg: Config, s: State, call: Call, env: Env, i: nat)
    requires i < |s.accounts| && !call.LoginWithGoogle?
    ensures var s' := Step(cfg, s, call, env).0;
            |s'.accounts| >= |s.accounts| && s'.accounts[i].googleId == s.accounts[i].googleId && s'.accounts[i].email == s.accounts[i].email
  {
    hide NormalizeEmail, BuildAccountIssuerDid, Accounts.Clash, GoodAccount, Accounts.Lookup;
  }

  /** The Google id of an account that has one changes exactly in a Google login with a verified email that is the
      account's, under a Google id no account has. */
  lemma GoogleIdChangesIff(cfg: Config, s: State, call: Call, env: Env, i: nat)
    requires AccountInv(cfg, s) && Fresh(s, env) && i < |s.accounts| && s.accounts[i].googleId.Some?
    ensures var s' := Step(cfg, s, call, env).0;
            && |s'.accounts| >= |s.accounts|
            && (s'.accounts[i].googleId != s.accounts[i].googleId <==> Relinks(s, call, s.accounts[i].email))
  {
    hide NormalizeEmail, Step, AccountInv;
    if call.LoginWithGoogle? {
      GoogleIdAfterLogin(cfg, s, call, env, i);
      NobodyHasIt(s, call, i);
    } else {
      GoogleIdAfterOthers(cfg, s, call, env, i);
    }
  }

  lemma NobodyHasIt(s: State, call: Call, i: nat)
    requires i < |s.accounts| && call.LoginWithGoogle?
    ensures Relinks(s, call, s.accounts[i].email) ==> s.accounts[i].googleId != Some(call.googleId)
  {
    hide NormalizeEmail;
    if Relinks(s, call, s.accounts[i].email) {
      assert !Accounts.Matches(s.accounts[i], Accounts.ByGoogleId(call.googleId));
    }
  }

  /** No call of the run relinks the account with this email. */
  predicate NeverRelinked(cfg: Config, s: State, run: seq<Input>, email: string)
    decreases |run|
  {
    run == [] || (!Relinks(s, run[0].call, email) && NeverRelinked(cfg, Step(cfg, s, run[0].call, run[0].env).0, run[1..], email))
  }

  /** The account has this Google id now and after every call of the run. */
  predicate KeepsGoogleId(cfg: Config, s: State, run: seq<Input>, i: nat, googleId: Option<string>)
    decreases |run|
  {
    && i < |s.accounts| && s.accounts[i].googleId == googleId
    && (run != [] ==> KeepsGoogleId(cfg, Step(cfg, s, run[0].call, run[0].env).0, run[1..], i, googleId))
  }

  /** Over every run an account's Google id stays what it is exactly if no call relinks the account. */
  lemma {:induction false} GoogleIdStaysIff(cfg: Config, s: State, run: seq<Input>, i: nat)
    requires Inv(cfg, s) && Feasible(cfg, s, run) && i < |s.accounts| && s.accounts[i].googleId.Some?
    ensures KeepsGoogleId(cfg, s, run, i, s.accounts[i].googleId) <==> NeverRelinked(cfg, s, run, s.accounts[i].email)
    decreases |run|
  {
    hide AccountInv, IssuerInv, TokenInv, Step, AllowedOn, Creates, Relinks, Evolves;
    if run != [] {
      var (call, env) := (run[0].call, run[0].env);
      var s' := Step(cfg, s, call, env).0;
      GoogleIdChangesIff(cfg, s, call, env, i);
      InvKept(cfg, s, call, env);
      EmailsStay(cfg, s, call, env, i);
      if s'.accounts[i].googleId == s.accounts[i].googleId {
        GoogleIdStaysIff(cfg, s', run[1..], i);
      } else {
        assert !KeepsGoogleId(cfg, s', run[1..], i, s.accounts[i].googleId);
      }
    }
  }

  lemma EmailsStay(cfg: Config, s: State, call: Call, env: Env, i: nat)
    requires AccountInv(cfg, s) && Fresh(s, env) && i < |s.accounts|
    ensures var s' := Step(cfg, s, call, env).0;
            |s'.accounts| >= |s.accounts| && s'.accounts[i].email == s.accounts[i].email
  {
    hide AccountInv, Step, Creates, GoodAccount, Accounts.Clash;
    var e := StepAccounts(cfg, s, call, env);
  }

  /** Two Google logins with one verified email: the second id replaces the first. */
  lemma SecondGoogleLoginReplacesTheId(cfg: Config, email: string, first: string, second: string, env: Env, env': Env)
    requires first != second && Feasible(cfg, INITIAL, TwoLogins(email, first, second, env, env'))
    ensures var s := Run(cfg, INITIAL, TwoLogins(email, first, second, env, env')[..1]);
            |s.accounts| == 1 && s.accounts[0].googleId == Some(first)
    ensures var s' := Run(cfg, INITIAL, TwoLogins(email, first, second, env, env'));
            |s'.accounts| >= 1 && s'.accounts[0].googleId == Some(second)
  {
    hide NormalizeEmail, Step, Inv;
    var run := TwoLogins(email, first, second, env, env');
    var s1 := Step(cfg, INITIAL, run[0].call, env).0;
    FirstLogin(cfg, email, first, env);
    InvAfterFirst(cfg, run[0].call, env);
    var s2 := Step(cfg, s1, run[1].call, env').0;
    assert run[..1][1..] == [] && run[1..] == [run[1]] && [run[1]][1..] == [];
    assert Run(cfg, s2, []) == s2 && Run(cfg, s1, [run[1]]) == Run(cfg, s2, []);
    GoogleIdAfterLogin(cfg, s1, run[1].call, env', 0);
    assert s1.accounts == [s1.accounts[0]];
    assert Relinks(s1, run[1].call, s1.accounts[0].email) by { OnlyTheFirstHasAnId(s1, second); }
  }

  lemma InvAfterFirst(cfg: Config, call: Call, env: Env)
    requires Fresh(INITIAL, env)
    ensures AccountInv(cfg, Step(cfg, INITIAL, call, env).0)
  {
    hide Step;
    assert Inv(cfg, INITIAL);
    InvKept(cfg, INITIAL, call, env);
  }

  lemma OnlyTheFirstHasAnId(s: State, googleId: string)
    requires |s.accounts| == 1 && s.accounts[0].googleId != Some(googleId)
    ensures Accounts.Lookup(s.accounts, Accounts.ByGoogleId(googleId)).None?
  {
  }

  function TwoLogins(email: string, first: string, second: string, env: Env, env': Env): seq<Input> {
    [Input(LoginWithGoogle(first, email, true), env), Input(LoginWithGoogle(second, email, true), env')]
  }

  lemma FirstLogin(cfg: Config, email: string, googleId: string, env: Env)
    requires Fresh(INITIAL, env)
    ensures var s := Step(cfg, INITIAL, LoginWithGoogle(googleId, email, true), env).0;
            |s.accounts| == 1 && s.accounts[0].googleId == Some(googleId) && s.accounts[0].email == NormalizeEmail(email)
  {
    hide NormalizeEmail, BuildAccountIssuerDid;
    var data := Accounts.AccountCreateData(NormalizeEmail(email), None, Some(googleId), None, None);
    CreateAccountAppends(cfg, Begin(INITIAL, env), data, env);
    var created := CreateAccount(cfg, Begin(INITIAL, env), data, env).1;
    PatchTouchesLastRow([], created, Accounts.MarkEmailVerified(env.now), env.now);
  }

  // ---- Emailed tokens ------------------------------------------------------------------

  /** Handed out before, and pending nowhere now. */
  predicate Spent(s: State, token: string) {
    token in s.used && forall i :: 0 <= i < |s.accounts| ==> s.accounts[i].emailVerificationTokenHash != Some(Sha256(token))
  }

  lemma StepKeepsSpent(cfg: Config, s: State, call: Call, env: Env, token: string)
    requires AccountInv(cfg, s) && Fresh(s, env) && Spent(s, token)
    ensures Spent(Step(cfg, s, call, env).0, token)
  {
    hide AccountInv, Step, GoodAccount, Accounts.Clash, Evolves, Creates;
    var e := StepAccounts(cfg, s, call, env);
    StepClock(cfg, s, call, env);
    var accounts' := Step(cfg, s, call, env).0.accounts;
    forall i | 0 <= i < |accounts'| ensures accounts'[i].emailVerificationTokenHash != Some(Sha256(token)) {
    }
  }

  lemma {:induction false} SpentForever(cfg: Config, s: State, run: seq<Input>, token: string)
    requires Inv(cfg, s) && Feasible(cfg, s, run) && Spent(s, token)
    ensures Spent(Run(cfg, s, run), token)
    decreases |run|
  {
    hide AccountInv, IssuerInv, TokenInv, Step, Spent;
    if run != [] {
      InvKept(cfg, s, run[0].call, run[0].env);
      StepKeepsSpent(cfg, s, run[0].call, run[0].env, token);
      SpentForever(cfg, Step(cfg, s, run[0].call, run[0].env).0, run[1..], token);
    }
  }

  lemma SpentTokenIsInvalid(cfg: Config, s: State, token: string, env: Env)
    requires Spent(s, token)
    ensures Step(cfg, s, VerifyEmail(token), env) == (Begin(s, env), Failed(EmailVerificationTokenInvalid))
  {
  }

  lemma VerifyingSpends(cfg: Config, s: State, token: string, env: Env)
    requires AccountInv(cfg, s) && Fresh(s, env)
    requires Step(cfg, s, VerifyEmail(token), env).1.Verified?
    ensures Spent(Step(cfg, s, VerifyEmail(token), env).0, token)
  {
    hide NormalizeEmail, BuildAccountIssuerDid, Accounts.Clash;
    NoClashMeansUnique(s.accounts);
    var key := Accounts.ByVerificationHash(Sha256(token));
    var at := Accounts.IndexOf(s.accounts, key);
    assert GoodAccount(cfg, s.accounts[at], s.used);
    PatchTouchesOneRow(s.accounts, at, Accounts.MarkEmailVerified(env.now), env.now);
    forall i | 0 <= i < |s.accounts| && i != at ensures !Accounts.Matches(s.accounts[i], key) {
      assert Accounts.Matches(s.accounts[at], key) && Accounts.AtMostOne(s.accounts, key);
    }
  }

  /** An emailed token verifies at most one call: after one success, every later attempt fails as invalid. */
  lemma TokenVerifiesAtMostOnce(cfg: Config, s: State, token: string, env: Env, later: seq<Input>, env': Env)
    requires Inv(cfg, s) && Fresh(s, env)
    requires Step(cfg, s, VerifyEmail(token), env).1.Verified?
    requires Feasible(cfg, Step(cfg, s, VerifyEmail(token), env).0, later)
    ensures var s' := Run(cfg, Step(cfg, s, VerifyEmail(token), env).0, later);
            Step(cfg, s', VerifyEmail(token), env').1 == Failed(EmailVerificationTokenInvalid)
  {
    hide AccountInv, IssuerInv, TokenInv, Step, Spent, Feasible;
    var s1 := Step(cfg, s, VerifyEmail(token), env).0;
    VerifyingSpends(cfg, s, token, env);
    InvKept(cfg, s, VerifyEmail(token), env);
    SpentForever(cfg, s1, later, token);
    SpentTokenIsInvalid(cfg, Run(cfg, s1, later), token, env');
  }

  lemma ResendingSpends(cfg: Config, s: State, at: nat, token: string, env: Env)
    requires AccountInv(cfg, s) && Fresh(s, env) && at < |s.accounts| && cfg.hasEmailSender
    requires s.accounts[at].emailVerificationTokenHash == Some(Sha256(token))
    ensures Spent(Step(cfg, s, ResendVerificationEmail(s.accounts[at].email), env).0, token)
  {
    hide NormalizeEmail, BuildAccountIssuerDid, Accounts.Clash;
    NoClashMeansUnique(s.accounts);
    assert GoodAccount(cfg, s.accounts[at], s.used);
    var byEmail := Accounts.ByEmail(s.accounts[at].email);
    var found := Accounts.IndexOf(s.accounts, byEmail);
    assert found == at by {
      assert Accounts.Matches(s.accounts[at], byEmail) && Accounts.AtMostOne(s.accounts, byEmail);
    }
    var patch := Accounts.SetEmailVerificationToken(Sha256(env.verificationToken), env.now + cfg.verificationTtlMs);
    PatchTouchesOneRow(s.accounts, at, patch, env.now);
    var byHash := Accounts.ByVerificationHash(Sha256(token));
    forall i | 0 <= i < |s.accounts| && i != at ensures !Accounts.Matches(s.accounts[i], byHash) {
      assert Accounts.Matches(s.accounts[at], byHash) && Accounts.AtMostOne(s.accounts, byHash);
    }
  }

  /** Once a new email has been sent for the account, the token of the old one never succeeds. */
  lemma TokenDiesOnResend(cfg: Config, s: State, at: nat, token: string, env: Env, later: seq<Input>, env': Env)
    requires Inv(cfg, s) && Fresh(s, env) && at < |s.accounts| && cfg.hasEmailSender
    requires s.accounts[at].emailVerificationTokenHash == Some(Sha256(token))
    requires Feasible(cfg, Step(cfg, s, ResendVerificationEmail(s.accounts[at].email), env).0, later)
    ensures var s' := Run(cfg, Step(cfg, s, ResendVerificationEmail(s.accounts[at].email), env).0, later);
            Step(cfg, s', VerifyEmail(token), env').1 == Failed(EmailVerificationTokenInvalid)
  {
    hide AccountInv, IssuerInv, TokenInv, Step, Spent, Feasible;
    var call := ResendVerificationEmail(s.accounts[at].email);
    var s1 := Step(cfg, s, call, env).0;
    ResendingSpends(cfg, s, at, token, env);
    InvKept(cfg, s, call, env);
    SpentForever(cfg, s1, later, token);
    SpentTokenIsInvalid(cfg, Run(cfg, s1, later), token, env');
  }

  // ---- The mailbox -----------------------------------------------------------------------

  predicate MailInv(s: State) {
    forall i :: 0 <= i < |s.accounts| && s.accounts[i].emailVerificationTokenHash.Some? ==>
      Email(s.accounts[i].email, s.accounts[i].emailVerificationTokenHash.value.preimage) in s.outbox
  }

  lemma StepMails(cfg: Config, s: State, call: Call, env: Env)
    ensures s.outbox <= Step(cfg, s, call, env).0.outbox
  {
    hide NormalizeEmail, BuildAccountIssuerDid, Accounts.Lookup, Accounts.Update;
  }

  lemma FreshTokenIsNotPending(cfg: Config, s: State, env: Env)
    requires AccountInv(cfg, s) && Fresh(s, env)
    ensures forall k :: 0 <= k < |s.accounts| ==> s.accounts[k].emailVerificationTokenHash != Some(Sha256(env.verificationToken))
  {
    hide BuildAccountIssuerDid, Accounts.Clash;
    forall k | 0 <= k < |s.accounts| ensures s.accounts[k].emailVerificationTokenHash != Some(Sha256(env.verificationToken)) {
      assert GoodAccount(cfg, s.accounts[k], s.used);
    }
  }

  ghost predicate MailsWhatItLeavesPending(cfg: Config, s: State, call: Call, env: Env) {
    var s' := Step(cfg, s, call, env).0;
    forall i :: 0 <= i < |s'.accounts| && s'.accounts[i].emailVerificationTokenHash == Some(Sha256(env.verificationToken)) ==>
      Email(s'.accounts[i].email, env.verificationToken) in s'.outbox
  }

  lemma RegisterMails(cfg: Config, s: State, call: Call, env: Env)
    requires AccountInv(cfg, s) && Fresh(s, env) && call.Register?
    ensures MailsWhatItLeavesPending(cfg, s, call, env)
  {
    hide NormalizeEmail, BuildAccountIssuerDid, Accounts.Clash, GoodAccount;
    NoClashMeansUnique(s.accounts);
    FreshTokenIsNotPending(cfg, s, env);
    var e := StepAccounts(cfg, s, call, env);
    FreshIdIsNew(cfg, s, env);
    var data := Accounts.AccountCreateData(NormalizeEmail(call.email), Some(Argon2id(call.password, env.salt)), None,
                                           call.companyName, call.fieldOfOperation);
    CreateAccountAppends(cfg, Begin(s, env), data, env);
  }

  lemma ResendMails(cfg: Config, s: State, call: Call, env: Env)
    requires AccountInv(cfg, s) && Fresh(s, env) && call.ResendVerificationEmail?
    ensures MailsWhatItLeavesPending(cfg, s, call, env)
  {
    hide NormalizeEmail, BuildAccountIssuerDid, Accounts.Clash, GoodAccount;
    NoClashMeansUnique(s.accounts);
    FreshTokenIsNotPending(cfg, s, env);
    var at := Accounts.IndexOf(s.accounts, Accounts.ByEmail(NormalizeEmail(call.email)));
    if at < |s.accounts| {
      PatchTouchesOneRow(s.accounts, at,
        Accounts.SetEmailVerificationToken(Sha256(env.verificationToken), env.now + cfg.verificationTtlMs), env.now);
    }
  }

  lemma OthersLeaveNoneOfItPending(cfg: Config, s: State, call: Call, env: Env)
    requires AccountInv(cfg, s) && Fresh(s, env) && !call.Register? && !call.ResendVerificationEmail?
    ensures MailsWhatItLeavesPending(cfg, s, call, env)
  {
    hide NormalizeEmail, BuildAccountIssuerDid, Accounts.Clash, GoodAccount, Accounts.Lookup;
    FreshTokenIsNotPending(cfg, s, env);
  }

  /** A step that leaves this step's token pending for an account has mailed it to that account. */
  lemma FreshTokenIsMailed(cfg: Config, s: State, call: Call, env: Env)
    requires AccountInv(cfg, s) && Fresh(s, env)
    ensures MailsWhatItLeavesPending(cfg, s, call, env)
  {
    hide AccountInv, MailsWhatItLeavesPending;
    if call.Register? {
      RegisterMails(cfg, s, call, env);
    } else if call.ResendVerificationEmail? {
      ResendMails(cfg, s, call, env);
    } else {
      OthersLeaveNoneOfItPending(cfg, s, call, env);
    }
  }

  lemma StepKeepsMail(cfg: Config, s: State, call: Call, env: Env)
    requires AccountInv(cfg, s) && Fresh(s, env) && MailInv(s)
    ensures MailInv(Step(cfg, s, call, env).0)
  {
    hide AccountInv, Step, GoodAccount, Accounts.Clash, Creates;
    var s' := Step(cfg, s, call, env).0;
    var e := StepAccounts(cfg, s, call, env);
    StepMails(cfg, s, call, env);
    FreshTokenIsMailed(cfg, s, call, env);
    forall i: nat | i < |s'.accounts| && s'.accounts[i].emailVerificationTokenHash.Some?
      ensures Email(s'.accounts[i].email, s'.accounts[i].emailVerificationTokenHash.value.preimage) in s'.outbox
    {
      if s'.accounts[i].emailVerificationTokenHash != Some(Sha256(env.verificationToken)) {
        assert i < |s.accounts|;
      }
    }
  }

  lemma {:induction false} MailAlways(cfg: Config, s: State, run: seq<Input>)
    requires Inv(cfg, s) && Feasible(cfg, s, run) && MailInv(s)
    ensures MailInv(Run(cfg, s, run))
    decreases |run|
  {
    hide AccountInv, IssuerInv, TokenInv, Step, MailInv;
    if run != [] {
      InvKept(cfg, s, run[0].call, run[0].env);
      StepKeepsMail(cfg, s, run[0].call, run[0].env);
      MailAlways(cfg, Step(cfg, s, run[0].call, run[0].env).0, run[1..]);
    }
  }

  /** In every run, a token that verifies an account was mailed to that account's own address. */
  lemma VerificationProvesTheMailbox(cfg: Config, run: seq<Input>, token: string, env: Env)
    requires Feasible(cfg, INITIAL, run)
    requires Step(cfg, Run(cfg, INITIAL, run), VerifyEmail(token), env).1.Verified?
    ensures Email(Step(cfg, Run(cfg, INITIAL, run), VerifyEmail(token), env).1.account.email, token)
         in Run(cfg, INITIAL, run).outbox
  {
    hide Feasible, Run;
    MailAlways(cfg, INITIAL, run);
  }
}
