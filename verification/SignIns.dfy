/** Who can sign in, and how: what registering and Google logins promise to every later sign-in. */
module SignIns {
  import opened Common
  import opened AuthModel
  import opened AuthInvariants
  import opened AuthTheorems
  import opened AccountTheorems
  import Accounts = AccountStore
  import Text

  // ---- Accounts that were created -------------------------------------------------------------------

  predicate IsNamed(a: Accounts.AccountRecord, id: string, email: string, companyName: Option<string>, fieldOfOperation: Option<string>) {
    a.id == id && a.email == email && a.companyName == companyName && a.fieldOfOperation == fieldOfOperation
  }

  /** Registering adds one account, unverified, that has this password and no Google id, and answers what it is. */
  lemma RegisterCreates(cfg: Config, s: State, call: Call, env: Env)
    requires AccountInv(cfg, s) && Fresh(s, env) && call.Register? && Creates(s, call)
    ensures var (s', response) := Step(cfg, s, call, env);
            && |s'.accounts| == |s.accounts| + 1 && s'.accounts[..|s.accounts|] == s.accounts
            && var a := s'.accounts[|s.accounts|];
            && IsNamed(a, env.accountId, NormalizeEmail(call.email), call.companyName, call.fieldOfOperation)
            && a.passwordHash == Some(Argon2id(call.password, env.salt)) && a.googleId.None? && a.emailVerifiedAt.None?
            && response.Session?
            && response.account == AccountSummary(env.accountId, NormalizeEmail(call.email),
                                                  Some(BuildAccountIssuerDid(cfg.didDomain, env.accountId)), true, false, false,
                                                  call.companyName, call.fieldOfOperation)
  {
    hide NormalizeEmail, BuildAccountIssuerDid, Accounts.Clash, GoodAccount;
    FreshIdIsNew(cfg, s, env);
    var data := Accounts.AccountCreateData(NormalizeEmail(call.email), Some(Argon2id(call.password, env.salt)), None,
                                           call.companyName, call.fieldOfOperation);
    CreateAccountAppends(cfg, Begin(s, env), data, env);
    var a := CreateAccount(cfg, Begin(s, env), data, env).1;
    PatchTouchesLastRow(s.accounts, a,
      Accounts.SetEmailVerificationToken(Sha256(env.verificationToken), env.now + cfg.verificationTtlMs), env.now);
  }

  /** A first Google login adds one account that has this Google id and no password, verified if Google says so. */
  lemma GoogleCreates(cfg: Config, s: State, call: Call, env: Env)
    requires AccountInv(cfg, s) && Fresh(s, env) && call.LoginWithGoogle? && Creates(s, call)
    ensures var (s', response) := Step(cfg, s, call, env);
            && |s'.accounts| == |s.accounts| + 1 && s'.accounts[..|s.accounts|] == s.accounts
            && var a := s'.accounts[|s.accounts|];
            && IsNamed(a, env.accountId, NormalizeEmail(call.email), None, None)
            && a.passwordHash.None? && a.googleId == Some(call.googleId)
            && (a.emailVerifiedAt.Some? <==> call.emailVerified)
            && response.Session?
            && response.account == AccountSummary(env.accountId, NormalizeEmail(call.email),
                                                  Some(BuildAccountIssuerDid(cfg.didDomain, env.accountId)), false, true,
                                                  call.emailVerified, None, None)
  {
    hide NormalizeEmail, BuildAccountIssuerDid, Accounts.Clash, GoodAccount;
    FreshIdIsNew(cfg, s, env);
    var data := Accounts.AccountCreateData(NormalizeEmail(call.email), None, Some(call.googleId), None, None);
    CreateAccountAppends(cfg, Begin(s, env), data, env);
    var created := CreateAccount(cfg, Begin(s, env), data, env).1;
    PatchTouchesLastRow(s.accounts, created, Accounts.MarkEmailVerified(env.now), env.now);
  }

  lemma EmailIsFound(cfg: Config, s: State, i: nat)
    requires AccountInv(cfg, s) && i < |s.accounts|
    ensures Accounts.Lookup(s.accounts, Accounts.ByEmail(s.accounts[i].email)) == Some(s.accounts[i])
  {
    hide NormalizeEmail, GoodAccount, Accounts.Clash;
    var at := Accounts.IndexOf(s.accounts, Accounts.ByEmail(s.accounts[i].email));
    assert Accounts.Matches(s.accounts[i], Accounts.ByEmail(s.accounts[i].email));
    EmailsApart(s.accounts, at, i);
  }

  // ---- Signing in later ------------------------------------------------------------------------------------

  /** After registering, whatever is called meanwhile: a login with the same email, however written, opens a session of
      that account exactly with the password it was registered with, and is refused as invalid otherwise; registering
      the email again is refused and creates nothing. */
  lemma RegisteredPasswordLogsIn(cfg: Config, s: State, call: Call, env: Env, later: seq<Input>, login: Call, again: Call, env': Env)
    requires Inv(cfg, s) && Fresh(s, env) && call.Register? && Creates(s, call)
    requires Feasible(cfg, Step(cfg, s, call, env).0, later)
    requires login.Login? && NormalizeEmail(login.email) == NormalizeEmail(call.email)
    requires again.Register? && NormalizeEmail(again.email) == NormalizeEmail(call.email)
    ensures var s2 := Run(cfg, Step(cfg, s, call, env).0, later);
            && (var response := Step(cfg, s2, login, env').1;
                if login.password == call.password then response.Session? && response.account.id == env.accountId
                else response == Failed(InvalidCredentials))
            && Step(cfg, s2, again, env') == (Begin(s2, env'), Failed(AccountAlreadyExists))
  {
    hide AccountInv, IssuerInv, TokenInv, Step, Feasible, NormalizeEmail, Creates, Begin;
    var s1, i := Step(cfg, s, call, env).0, |s.accounts|;
    RegisterCreates(cfg, s, call, env);
    InvKept(cfg, s, call, env);
    AccountsOnlyEvolve(cfg, s1, later);
    InvAlways(cfg, s1, later);
    var s2 := Run(cfg, s1, later);
    assert Evolves(s1.accounts[i], s2.accounts[i]);
    EmailIsFound(cfg, s2, i);
    KnownLogin(cfg, s2, login, env', i);
    TakenEmail(cfg, s2, again, env', i);
  }

  lemma KnownLogin(cfg: Config, s: State, login: Call, env: Env, i: nat)
    requires i < |s.accounts| && login.Login? && NormalizeEmail(login.email) == s.accounts[i].email
    requires Accounts.Lookup(s.accounts, Accounts.ByEmail(s.accounts[i].email)) == Some(s.accounts[i])
    ensures var response := Step(cfg, s, login, env).1;
            match s.accounts[i].passwordHash
            case None => response == Failed(AccountHasNoPassword)
            case Some(hash) =>
              if hash.password == login.password then response.Session? && response.account.id == s.accounts[i].id
              else response == Failed(InvalidCredentials)
  {
    hide NormalizeEmail, Accounts.Lookup;
  }

  lemma TakenEmail(cfg: Config, s: State, again: Call, env: Env, i: nat)
    requires i < |s.accounts| && again.Register? && NormalizeEmail(again.email) == s.accounts[i].email
    requires Accounts.Lookup(s.accounts, Accounts.ByEmail(s.accounts[i].email)).Some?
    ensures Step(cfg, s, again, env) == (Begin(s, env), Failed(AccountAlreadyExists))
  {
    hide NormalizeEmail, Accounts.Lookup;
  }

  /** An account that a Google login created never takes a password. */
  lemma GoogleAccountHasNoPassword(cfg: Config, s: State, call: Call, env: Env, later: seq<Input>, login: Call, env': Env)
    requires Inv(cfg, s) && Fresh(s, env) && call.LoginWithGoogle? && Creates(s, call)
    requires Feasible(cfg, Step(cfg, s, call, env).0, later)
    requires login.Login? && NormalizeEmail(login.email) == NormalizeEmail(call.email)
    ensures Step(cfg, Run(cfg, Step(cfg, s, call, env).0, later), login, env').1 == Failed(AccountHasNoPassword)
  {
    hide AccountInv, IssuerInv, TokenInv, Step, Feasible, NormalizeEmail, Creates;
    var s1, i := Step(cfg, s, call, env).0, |s.accounts|;
    GoogleCreates(cfg, s, call, env);
    InvKept(cfg, s, call, env);
    AccountsOnlyEvolve(cfg, s1, later);
    InvAlways(cfg, s1, later);
    var s2 := Run(cfg, s1, later);
    assert Evolves(s1.accounts[i], s2.accounts[i]);
    EmailIsFound(cfg, s2, i);
    KnownLogin(cfg, s2, login, env', i);
  }

  /** An email nobody registered signs nobody in. */
  lemma UnknownEmailIsRefused(cfg: Config, s: State, login: Call, env: Env)
    requires login.Login? && forall i :: 0 <= i < |s.accounts| ==> s.accounts[i].email != NormalizeEmail(login.email)
    ensures Step(cfg, s, login, env).1 == Failed(InvalidCredentials)
  {
    hide NormalizeEmail;
  }

  /** A failed login is logged: of the account whose password was wrong, or of nobody where the email is unknown. */
  lemma FailedLoginIsLogged(cfg: Config, s: State, login: Call, env: Env)
    requires AccountInv(cfg, s) && login.Login?
    ensures var (s', response) := Step(cfg, s, login, env);
            && ((forall i :: 0 <= i < |s.accounts| ==> s.accounts[i].email != NormalizeEmail(login.email)) ==>
                  s'.audit == s.audit + [LoginFailed(None)])
            && forall i :: 0 <= i < |s.accounts| && s.accounts[i].email == NormalizeEmail(login.email) ==>
                 s'.audit == s.audit + match response
                                       case Session(_, _) => [LoginSucceeded(s.accounts[i].id, Password)]
                                       case Failed(InvalidCredentials) => [LoginFailed(Some(s.accounts[i].id))]
                                       case _ => []
  {
    hide NormalizeEmail, AccountInv;
    if i :| 0 <= i < |s.accounts| && s.accounts[i].email == NormalizeEmail(login.email) {
      EmailIsFound(cfg, s, i);
      forall j | 0 <= j < |s.accounts| && s.accounts[j].email == NormalizeEmail(login.email) ensures s.accounts[j] == s.accounts[i] {
        EmailIsFound(cfg, s, j);
      }
    }
  }

  // ---- Google ------------------------------------------------------------------------------------------------

  /** What a Google login comes to: the account that has the Google id; else the account of the email, which is linked,
      if Google has verified it; else a new account. */
  lemma GoogleSignsInIff(cfg: Config, s: State, call: Call, env: Env, i: nat)
    requires AccountInv(cfg, s) && Fresh(s, env) && call.LoginWithGoogle? && i < |s.accounts|
    ensures var response := Step(cfg, s, call, env).1;
            && (s.accounts[i].googleId == Some(call.googleId) ==> response.Session? && response.account.id == s.accounts[i].id)
            && ((forall j :: 0 <= j < |s.accounts| ==> s.accounts[j].googleId != Some(call.googleId))
                && s.accounts[i].email == NormalizeEmail(call.email) ==>
                  if call.emailVerified then
                    response.Session? && response.account.id == s.accounts[i].id && response.account.hasGoogle && response.account.emailVerified
                  else response == Failed(AccountNotFound))
  {
    hide NormalizeEmail, BuildAccountIssuerDid, Accounts.Clash, GoodAccount, Accounts.Update;
    var at := Accounts.IndexOf(s.accounts, Accounts.ByGoogleId(call.googleId));
    EmailIsFound(cfg, s, i);
    if s.accounts[i].googleId == Some(call.googleId) {
      assert Accounts.Matches(s.accounts[i], Accounts.ByGoogleId(call.googleId));
      GoogleIdsApart(s.accounts, at, i);
    }
  }

  lemma GoogleIdsApart(accounts: Accounts.Rows, i: nat, j: nat)
    requires Accounts.NoClash(accounts) && i < |accounts| && j < |accounts|
    requires accounts[i].googleId.Some? && accounts[i].googleId == accounts[j].googleId
    ensures i == j
  {
  }

  /** Once a Google login has opened a session, every later one with that Google id, under whatever email, opens a
      session of the same account, as long as no other Google login relinks it. */
  lemma GoogleIdSignsInAgain(cfg: Config, s: State, run: seq<Input>, i: nat, call: Call, env: Env)
    requires Inv(cfg, s) && Feasible(cfg, s, run) && i < |s.accounts| && Fresh(Run(cfg, s, run), env)
    requires call.LoginWithGoogle? && s.accounts[i].googleId == Some(call.googleId)
    requires NeverRelinked(cfg, s, run, s.accounts[i].email)
    ensures var response := Step(cfg, Run(cfg, s, run), call, env).1;
            response.Session? && response.account.id == s.accounts[i].id
  {
    hide AccountInv, IssuerInv, TokenInv, Step, Feasible, NormalizeEmail, NeverRelinked, KeepsGoogleId;
    GoogleIdStaysIff(cfg, s, run, i);
    KeptAtTheEnd(cfg, s, run, i, s.accounts[i].googleId);
    AccountsOnlyEvolve(cfg, s, run);
    InvAlways(cfg, s, run);
    assert Evolves(s.accounts[i], Run(cfg, s, run).accounts[i]);
    GoogleSignsInIff(cfg, Run(cfg, s, run), call, env, i);
  }

  lemma {:induction false} KeptAtTheEnd(cfg: Config, s: State, run: seq<Input>, i: nat, googleId: Option<string>)
    requires KeepsGoogleId(cfg, s, run, i, googleId)
    ensures i < |Run(cfg, s, run).accounts| && Run(cfg, s, run).accounts[i].googleId == googleId
    decreases |run|
  {
    hide Step;
    if run != [] {
      KeptAtTheEnd(cfg, Step(cfg, s, run[0].call, run[0].env).0, run[1..], i, googleId);
    }
  }

  // ---- How an email may be written ------------------------------------------------------------------------------

  /** White space around an email and the case of its letters do not matter. */
  lemma EmailHoweverWritten(email: string, other: string, before: string, after: string)
    requires Text.Lower(email) == Text.Lower(other) && Text.Trimmed(email) && Text.AllSpace(before) && Text.AllSpace(after)
    ensures NormalizeEmail(before + other + after) == NormalizeEmail(email) == Text.Lower(email)
  {
    hide Text.IsSpace;
    TrimmedAlike(email, other);
    BlanksAreTrimmed(before, other, after);
    Text.TrimIsTrimmed(email);
  }

  lemma TrimmedAlike(email: string, other: string)
    requires Text.Lower(email) == Text.Lower(other) && Text.Trimmed(email)
    ensures Text.Trimmed(other)
  {
    assert |email| == |other|;
    if other != "" {
      assert Text.Lower(email)[0] == Text.Lower(other)[0];
      assert Text.Lower(email)[|email| - 1] == Text.Lower(other)[|email| - 1];
    }
  }

  lemma BlanksAreTrimmed(before: string, s: string, after: string)
    requires Text.AllSpace(before) && Text.AllSpace(after) && Text.Trimmed(s)
    ensures Text.Trim(before + s + after) == s
  {
    hide Text.IsSpace, Text.AllSpace, Text.TrimStart, Text.TrimEnd;
    Text.TrimStartOfSpace(before);
    Text.TrimEndOfSpace(after);
    if s == "" {
      BlanksAreBlank(before, after);
      assert before + s + after == before + after;
      Text.TrimStartOfSpace(before + after);
      NothingIsTrimmed();
    } else {
      assert before + s + after == before + (s + after);
      assert (s + after)[0] == s[0];
      Text.TrimStartStopsAt(before, s + after);
      assert "" + (s + after) == s + after;
      Text.TrimEndStopsAt(s, after);
      assert s + "" == s;
    }
  }

  lemma BlanksAreBlank(before: string, after: string)
    requires Text.AllSpace(before) && Text.AllSpace(after)
    ensures Text.AllSpace(before + after)
  {
    hide Text.IsSpace;
  }

  lemma NothingIsTrimmed()
    ensures Text.TrimEnd("") == ""
  {
  }
}
