/** The life of an emailed verification token: from the call that mails it to the attempt to use it. */
module MailedTokens {
  import opened Common
  import opened AuthModel
  import opened AuthInvariants
  import opened AuthTheorems
  import opened AccountTheorems
  import Accounts = AccountStore
  import Tokens = RefreshTokenStore

  /** Account `i` awaits the token until then. */
  predicate Awaits(s: State, i: nat, token: string, expiresAt: int) {
    && i < |s.accounts|
    && s.accounts[i].emailVerificationTokenHash == Some(Sha256(token))
    && s.accounts[i].emailVerificationExpiresAt == Some(expiresAt)
  }

  // ---- Mailing ---------------------------------------------------------------------------------------

  /** The account the call mails a token to, by its place after the call. */
  function MailedTo(cfg: Config, s: State, call: Call): Option<nat> {
    match call
    case Register(_, _, _, _) => if cfg.hasEmailSender && Creates(s, call) then Some(|s.accounts|) else None
    case ResendVerificationEmail(email) =>
      var at := Accounts.IndexOf(s.accounts, Accounts.ByEmail(NormalizeEmail(email)));
      if cfg.hasEmailSender && at < |s.accounts| && s.accounts[at].emailVerifiedAt.None? then Some(at) else None
    case _ => None
  }

  /** A call mails exactly one token to that account, which then awaits it for the configured time, or mails nothing. */
  lemma MailsWhatIsAwaited(cfg: Config, s: State, call: Call, env: Env)
    requires AccountInv(cfg, s) && Fresh(s, env)
    ensures var s' := Step(cfg, s, call, env).0;
            match MailedTo(cfg, s, call)
            case None => s'.outbox == s.outbox
            case Some(i) =>
              && Awaits(s', i, env.verificationToken, env.now + cfg.verificationTtlMs)
              && s'.outbox == s.outbox + [Email(s'.accounts[i].email, env.verificationToken)]
              && s'.accounts[i].email == NormalizeEmail(call.email)
  {
    match call
    case Register(_, _, _, _) => RegisterAwaits(cfg, s, call, env);
    case ResendVerificationEmail(_) => ResendAwaits(cfg, s, call, env);
    case _ => OthersMailNothing(cfg, s, call, env);
  }

  lemma OthersMailNothing(cfg: Config, s: State, call: Call, env: Env)
    requires !call.Register? && !call.ResendVerificationEmail?
    ensures Step(cfg, s, call, env).0.outbox == s.outbox
  {
    hide NormalizeEmail, BuildAccountIssuerDid, Accounts.Lookup, Accounts.Update;
  }

  lemma RegisterAwaits(cfg: Config, s: State, call: Call, env: Env)
    requires AccountInv(cfg, s) && Fresh(s, env) && call.Register?
    ensures var (s', to) := (Step(cfg, s, call, env).0, MailedTo(cfg, s, call));
            if to.None? then s'.outbox == s.outbox
            else
              && Awaits(s', to.value, env.verificationToken, env.now + cfg.verificationTtlMs)
              && s'.outbox == s.outbox + [Email(s'.accounts[to.value].email, env.verificationToken)]
              && s'.accounts[to.value].email == NormalizeEmail(call.email)
  {
    hide NormalizeEmail, BuildAccountIssuerDid, Accounts.Clash, GoodAccount;
    if Creates(s, call) {
      FreshIdIsNew(cfg, s, env);
      var data := Accounts.AccountCreateData(NormalizeEmail(call.email), Some(Argon2id(call.password, env.salt)), None,
                                             call.companyName, call.fieldOfOperation);
      CreateAccountAppends(cfg, Begin(s, env), data, env);
      var a := CreateAccount(cfg, Begin(s, env), data, env).1;
      PatchTouchesLastRow(s.accounts, a,
        Accounts.SetEmailVerificationToken(Sha256(env.verificationToken), env.now + cfg.verificationTtlMs), env.now);
    }
  }

  lemma ResendAwaits(cfg: Config, s: State, call: Call, env: Env)
    requires AccountInv(cfg, s) && Fresh(s, env) && call.ResendVerificationEmail?
    ensures var (s', to) := (Step(cfg, s, call, env).0, MailedTo(cfg, s, call));
            if to.None? then s'.outbox == s.outbox && s'.accounts == s.accounts
            else
              && Awaits(s', to.value, env.verificationToken, env.now + cfg.verificationTtlMs)
              && s'.outbox == s.outbox + [Email(s'.accounts[to.value].email, env.verificationToken)]
              && s'.accounts[to.value].email == NormalizeEmail(call.email)
              && |s'.accounts| == |s.accounts|
              && forall j :: 0 <= j < |s.accounts| && j != to.value ==> s'.accounts[j] == s.accounts[j]
  {
    hide NormalizeEmail, BuildAccountIssuerDid, Accounts.Clash, GoodAccount;
    NoClashMeansUnique(s.accounts);
    var at := Accounts.IndexOf(s.accounts, Accounts.ByEmail(NormalizeEmail(call.email)));
    if at < |s.accounts| {
      PatchTouchesOneRow(s.accounts, at,
        Accounts.SetEmailVerificationToken(Sha256(env.verificationToken), env.now + cfg.verificationTtlMs), env.now);
    }
  }

  // ---- Waiting ------------------------------------------------------------------------------------------

  /** The call ends the wait of the account with this email: another token is mailed to it, the token verifies it, or
      a Google login does. */
  predicate EndsWait(cfg: Config, s: State, call: Call, env: Env, email: string, token: string) {
    match call
    case ResendVerificationEmail(asked) => cfg.hasEmailSender && NormalizeEmail(asked) == email
    case VerifyEmail(presented) => presented == token && Step(cfg, s, call, env).1.Verified?
    case LoginWithGoogle(_, _, _) => Relinks(s, call, email)
    case _ => false
  }

  predicate WaitEnds(cfg: Config, s: State, run: seq<Input>, email: string, token: string)
    decreases |run|
  {
    run != [] &&
    (EndsWait(cfg, s, run[0].call, run[0].env, email, token) ||
     WaitEnds(cfg, Step(cfg, s, run[0].call, run[0].env).0, run[1..], email, token))
  }

  /** The account is where it was, under its email, and the token is awaited as before, or by nobody any more. */
  ghost predicate WaitsOr(s: State, s': State, i: nat, token: string, expiresAt: int, ended: bool) {
    && i < |s.accounts| <= |s'.accounts| && s'.accounts[i].email == s.accounts[i].email && s'.accounts[i].id == s.accounts[i].id
    && (if ended then Spent(s', token) else Awaits(s', i, token, expiresAt))
  }

  lemma OnlyOneAwaits(cfg: Config, s: State, i: nat, token: string, expiresAt: int)
    requires AccountInv(cfg, s) && Awaits(s, i, token, expiresAt)
    ensures token in s.used && s.accounts[i].emailVerifiedAt.None?
    ensures forall j :: 0 <= j < |s.accounts| && j != i ==> s.accounts[j].emailVerificationTokenHash != Some(Sha256(token))
    ensures Accounts.IndexOf(s.accounts, Accounts.ByVerificationHash(Sha256(token))) == i
  {
    hide NormalizeEmail, BuildAccountIssuerDid, Accounts.Clash;
    assert GoodAccount(cfg, s.accounts[i], s.used);
  }

  /** Presented while awaited: it verifies exactly before the time is up; from then on it has expired, and nothing changes. */
  lemma AwaitedTokenVerifiesIff(cfg: Config, s: State, env: Env, i: nat, token: string, expiresAt: int)
    requires AccountInv(cfg, s) && Awaits(s, i, token, expiresAt)
    ensures var (s', response) := Step(cfg, s, VerifyEmail(token), env);
            if env.now < expiresAt then
              && response.Verified? && response.account.id == s.accounts[i].id && response.account.emailVerified
              && s'.accounts == s.accounts[i := s.accounts[i].(emailVerifiedAt := Some(env.now), emailVerificationTokenHash := None,
                                                              emailVerificationExpiresAt := None, updatedAt := env.now)]
            else response == Failed(EmailVerificationTokenExpired) && s'.accounts == s.accounts
  {
    hide NormalizeEmail, BuildAccountIssuerDid, Accounts.Clash, GoodAccount;
    OnlyOneAwaits(cfg, s, i, token, expiresAt);
    NoClashMeansUnique(s.accounts);
    PatchTouchesOneRow(s.accounts, i, Accounts.MarkEmailVerified(env.now), env.now);
  }

  lemma VerifyWaits(cfg: Config, s: State, call: Call, env: Env, i: nat, token: string, expiresAt: int)
    requires call.VerifyEmail? && AccountInv(cfg, s) && Fresh(s, env) && Awaits(s, i, token, expiresAt)
    ensures WaitsOr(s, Step(cfg, s, call, env).0, i, token, expiresAt, EndsWait(cfg, s, call, env, s.accounts[i].email, token))
  {
    hide NormalizeEmail, BuildAccountIssuerDid, Accounts.Clash, GoodAccount;
    OnlyOneAwaits(cfg, s, i, token, expiresAt);
    StepClock(cfg, s, call, env);
    var at := Accounts.IndexOf(s.accounts, Accounts.ByVerificationHash(Sha256(call.token)));
    if at < |s.accounts| && at != i {
      NoClashMeansUnique(s.accounts);
      PatchTouchesOneRow(s.accounts, at, Accounts.MarkEmailVerified(env.now), env.now);
    } else if at == i {
      AwaitedTokenVerifiesIff(cfg, s, env, i, token, expiresAt);
    }
  }

  lemma ResendWaits(cfg: Config, s: State, call: Call, env: Env, i: nat, token: string, expiresAt: int)
    requires call.ResendVerificationEmail? && AccountInv(cfg, s) && Fresh(s, env) && Awaits(s, i, token, expiresAt)
    ensures WaitsOr(s, Step(cfg, s, call, env).0, i, token, expiresAt, EndsWait(cfg, s, call, env, s.accounts[i].email, token))
  {
    hide NormalizeEmail, BuildAccountIssuerDid, Accounts.Clash, GoodAccount, Step;
    OnlyOneAwaits(cfg, s, i, token, expiresAt);
    StepClock(cfg, s, call, env);
    ResendAwaits(cfg, s, call, env);
    var at := Accounts.IndexOf(s.accounts, Accounts.ByEmail(NormalizeEmail(call.email)));
    FreshTokenIsNot(cfg, s, env, token, i, expiresAt);
    assert Accounts.Matches(s.accounts[i], Accounts.ByEmail(s.accounts[i].email));
    if at < |s.accounts| {
      EmailsApart(s.accounts, at, i);
    }
    StepKeepsIdentity(cfg, s, call, env, i);
  }

  lemma StepKeepsIdentity(cfg: Config, s: State, call: Call, env: Env, i: nat)
    requires AccountInv(cfg, s) && Fresh(s, env) && i < |s.accounts|
    ensures var s' := Step(cfg, s, call, env).0;
            |s.accounts| <= |s'.accounts| && s'.accounts[i].email == s.accounts[i].email && s'.accounts[i].id == s.accounts[i].id
  {
    hide AccountInv, Step, GoodAccount, Accounts.Clash, Creates;
    var e := StepAccounts(cfg, s, call, env);
  }

  lemma GoogleWaits(cfg: Config, s: State, call: Call, env: Env, i: nat, token: string, expiresAt: int)
    requires call.LoginWithGoogle? && AccountInv(cfg, s) && Fresh(s, env) && Awaits(s, i, token, expiresAt)
    ensures WaitsOr(s, Step(cfg, s, call, env).0, i, token, expiresAt, EndsWait(cfg, s, call, env, s.accounts[i].email, token))
  {
    hide NormalizeEmail, BuildAccountIssuerDid, Accounts.Clash, Step, Creates;
    OnlyOneAwaits(cfg, s, i, token, expiresAt);
    StepClock(cfg, s, call, env);
    var e := GoogleEffect(cfg, s, call, env);
    FreshTokenIsNot(cfg, s, env, token, i, expiresAt);
    if Relinks(s, call, s.accounts[i].email) {
      assert Accounts.Matches(s.accounts[i], Accounts.ByEmail(NormalizeEmail(call.email)));
    }
    if e.Changed? {
      EmailsApart(s.accounts, e.at, i);
    }
  }

  lemma FreshTokenIsNot(cfg: Config, s: State, env: Env, token: string, i: nat, expiresAt: int)
    requires AccountInv(cfg, s) && Fresh(s, env) && Awaits(s, i, token, expiresAt)
    ensures token != env.verificationToken
  {
    OnlyOneAwaits(cfg, s, i, token, expiresAt);
  }

  lemma OthersWait(cfg: Config, s: State, call: Call, env: Env, i: nat, token: string, expiresAt: int)
    requires call.Register? || call.Login? || call.Refresh? || call.Logout?
    requires AccountInv(cfg, s) && Fresh(s, env) && Awaits(s, i, token, expiresAt)
    ensures WaitsOr(s, Step(cfg, s, call, env).0, i, token, expiresAt, false)
  {
    hide NormalizeEmail, BuildAccountIssuerDid, Accounts.Clash, GoodAccount, AllowedOn, Creates;
    if call.Register? {
      hide Step;
      var e := RegisterEffect(cfg, s, call, env);
    } else {
      SignInKeepsAccounts(cfg, s, call, env);
    }
  }

  lemma SignInKeepsAccounts(cfg: Config, s: State, call: Call, env: Env)
    requires call.Login? || call.Refresh? || call.Logout?
    ensures Step(cfg, s, call, env).0.accounts == s.accounts
  {
    hide NormalizeEmail, Accounts.Lookup, Tokens.Find;
  }

  lemma StepWaits(cfg: Config, s: State, call: Call, env: Env, i: nat, token: string, expiresAt: int)
    requires AccountInv(cfg, s) && Fresh(s, env) && Awaits(s, i, token, expiresAt)
    ensures WaitsOr(s, Step(cfg, s, call, env).0, i, token, expiresAt, EndsWait(cfg, s, call, env, s.accounts[i].email, token))
  {
    hide AccountInv, Step, WaitsOr, Relinks, NormalizeEmail;
    match call
    case VerifyEmail(_) => VerifyWaits(cfg, s, call, env, i, token, expiresAt);
    case ResendVerificationEmail(_) => ResendWaits(cfg, s, call, env, i, token, expiresAt);
    case LoginWithGoogle(_, _, _) => GoogleWaits(cfg, s, call, env, i, token, expiresAt);
    case _ => OthersWait(cfg, s, call, env, i, token, expiresAt);
  }

  lemma {:induction false} RunWaits(cfg: Config, s: State, run: seq<Input>, i: nat, token: string, expiresAt: int)
    requires Inv(cfg, s) && Feasible(cfg, s, run) && Awaits(s, i, token, expiresAt)
    ensures WaitsOr(s, Run(cfg, s, run), i, token, expiresAt, WaitEnds(cfg, s, run, s.accounts[i].email, token))
    decreases |run|
  {
    hide AccountInv, IssuerInv, TokenInv, Step, Spent, EndsWait;
    if run != [] {
      var s1 := Step(cfg, s, run[0].call, run[0].env).0;
      StepWaits(cfg, s, run[0].call, run[0].env, i, token, expiresAt);
      InvKept(cfg, s, run[0].call, run[0].env);
      if EndsWait(cfg, s, run[0].call, run[0].env, s.accounts[i].email, token) {
        SpentForever(cfg, s1, run[1..], token);
        RunKeepsIdentity(cfg, s, run, i);
      } else {
        RunWaits(cfg, s1, run[1..], i, token, expiresAt);
      }
    }
  }

  lemma {:induction false} RunKeepsIdentity(cfg: Config, s: State, run: seq<Input>, i: nat)
    requires Inv(cfg, s) && Feasible(cfg, s, run) && i < |s.accounts|
    ensures var s' := Run(cfg, s, run);
            |s.accounts| <= |s'.accounts| && s'.accounts[i].email == s.accounts[i].email && s'.accounts[i].id == s.accounts[i].id
    decreases |run|
  {
    hide AccountInv, IssuerInv, TokenInv, Step;
    if run != [] {
      StepKeepsIdentity(cfg, s, run[0].call, run[0].env, i);
      InvKept(cfg, s, run[0].call, run[0].env);
      RunKeepsIdentity(cfg, Step(cfg, s, run[0].call, run[0].env).0, run[1..], i);
    }
  }

  /** Presented after the wait, ended or not. */
  ghost predicate AttemptGives(cfg: Config, s: State, s': State, i: nat, token: string, expiresAt: int, ended: bool, env: Env) {
    var (s'', response) := Step(cfg, s', VerifyEmail(token), env);
    && i < |s.accounts| <= |s'.accounts| == |s''.accounts|
    && if ended then response == Failed(EmailVerificationTokenInvalid) && s''.accounts == s'.accounts
       else if expiresAt <= env.now then response == Failed(EmailVerificationTokenExpired) && s''.accounts == s'.accounts
       else
         && response.Verified? && response.account.id == s.accounts[i].id && response.account.emailVerified
         && s''.accounts[i].emailVerifiedAt == Some(env.now)
         && s''.accounts == s'.accounts[i := s''.accounts[i]]
  }

  lemma AttemptAfterWait(cfg: Config, s: State, s': State, i: nat, token: string, expiresAt: int, ended: bool, env: Env)
    requires AccountInv(cfg, s') && WaitsOr(s, s', i, token, expiresAt, ended)
    ensures AttemptGives(cfg, s, s', i, token, expiresAt, ended, env)
  {
    hide AccountInv, Step, Spent;
    if ended {
      SpentTokenIsInvalid(cfg, s', token, env);
    } else {
      AwaitedTokenVerifiesIff(cfg, s', env, i, token, expiresAt);
    }
  }

  /** From the mailing call, whatever is called meanwhile: the mailed token is invalid exactly if the wait was ended;
      otherwise it verifies the very account it was mailed to before `verificationTtlMs` have passed, and has expired,
      leaving the accounts alone, from then on. */
  lemma MailedTokenLives(cfg: Config, s: State, call: Call, env: Env, later: seq<Input>, env': Env)
    requires Inv(cfg, s) && Fresh(s, env) && MailedTo(cfg, s, call).Some?
    requires Feasible(cfg, Step(cfg, s, call, env).0, later)
    ensures var (s1, token) := (Step(cfg, s, call, env).0, env.verificationToken);
            AttemptGives(cfg, s1, Run(cfg, s1, later), MailedTo(cfg, s, call).value, token, env.now + cfg.verificationTtlMs,
                         WaitEnds(cfg, s1, later, NormalizeEmail(call.email), token), env')
  {
    hide AccountInv, IssuerInv, TokenInv, Step, Spent, Feasible, WaitEnds, MailedTo, NormalizeEmail, WaitsOr, AttemptGives;
    var s1, token := Step(cfg, s, call, env).0, env.verificationToken;
    MailsWhatIsAwaited(cfg, s, call, env);
    InvKept(cfg, s, call, env);
    var i, expiresAt := MailedTo(cfg, s, call).value, env.now + cfg.verificationTtlMs;
    RunWaits(cfg, s1, later, i, token, expiresAt);
    InvAlways(cfg, s1, later);
    AttemptAfterWait(cfg, s1, Run(cfg, s1, later), i, token, expiresAt, WaitEnds(cfg, s1, later, s1.accounts[i].email, token), env');
  }
}
