/** What holds in every run of AuthService calls. */
module AuthTheorems {
  import opened Common
  import opened AuthModel
  import opened AuthInvariants
  import opened AuthSteps
  import opened SessionChains
  import Accounts = AccountStore
  import Tokens = RefreshTokenStore
  import Keys = IssuerKeyStore

  // ---- The invariant is kept ---------------------------------------------------------

  /** A DID record and a key row appear exactly when an account does. */
  lemma StepIssuers(cfg: Config, s: State, call: Call, env: Env)
    requires AccountInv(cfg, s) && Fresh(s, env)
    ensures var s' := Step(cfg, s, call, env).0;
            if Creates(s, call) then
              var did := BuildAccountIssuerDid(cfg.didDomain, env.accountId);
              && s'.dids == s.dids + [DidRecord(did, env.publicKey)]
              && s'.keys == s.keys + [Keys.IssuerKeyRow(env.keyId, env.accountId, did, env.encryptedPrivateKey, env.now)]
            else s'.dids == s.dids && s'.keys == s.keys
  {
    hide NormalizeEmail, BuildAccountIssuerDid, Accounts.Lookup, Accounts.Update, Tokens.Find, Tokens.Revoke;
  }

  lemma IssuersKept(cfg: Config, s: State, call: Call, env: Env)
    requires AccountInv(cfg, s) && IssuerInv(cfg, s) && Fresh(s, env)
    ensures IssuerInv(cfg, Step(cfg, s, call, env).0)
  {
    hide BuildAccountIssuerDid, Creates, GoodAccount, Dispatch;
    var e := StepAccounts(cfg, s, call, env);
    StepIssuers(cfg, s, call, env);
    StepClock(cfg, s, call, env);
  }

  lemma StepClock(cfg: Config, s: State, call: Call, env: Env)
    ensures Step(cfg, s, call, env).0.clock == env.now && Step(cfg, s, call, env).0.used == Begin(s, env).used
  {
    hide NormalizeEmail, BuildAccountIssuerDid, Accounts.Lookup, Accounts.Update, Tokens.Find, Tokens.Revoke;
  }

  /** The accounts of one step are still there, at the same place, after it. */
  lemma AccountsStay(cfg: Config, s: State, e: AccountEffect, env: Env, id: string)
    requires AllowedOn(cfg, s, e, env) && HasAccount(s.accounts, id)
    ensures HasAccount(ApplyOn(s.accounts, e), id)
  {
    hide GoodAccount;
    var i :| 0 <= i < |s.accounts| && s.accounts[i].id == id;
    assert ApplyOn(s.accounts, e)[i].id == id;
  }

  /** A session is only opened for an account that is in the table when the call ends. */
  lemma OwnerHasAccount(cfg: Config, s: State, call: Call, env: Env, e: AccountEffect)
    requires AllowedOn(cfg, s, e, env) && (e.Added? <==> Creates(s, call))
    requires SessionOwner(s, call, env).Some?
    ensures HasAccount(ApplyOn(s.accounts, e), SessionOwner(s, call, env).value)
  {
    hide GoodAccount, NormalizeEmail;
    if e.Added? {
      assert ApplyOn(s.accounts, e)[|s.accounts|].id == env.accountId;
    } else {
      var key := if call.LoginWithGoogle? && Accounts.Lookup(s.accounts, Accounts.ByGoogleId(call.googleId)).Some?
                 then Accounts.ByGoogleId(call.googleId)
                 else Accounts.ByEmail(NormalizeEmail(call.email));
      assert s.accounts[Accounts.IndexOf(s.accounts, key)].id == SessionOwner(s, call, env).value;
      AccountsStay(cfg, s, e, env, SessionOwner(s, call, env).value);
    }
  }

  lemma TokensKept(cfg: Config, s: State, call: Call, env: Env)
    requires Inv(cfg, s) && Fresh(s, env)
    ensures TokenInv(Step(cfg, s, call, env).0)
  {
    hide BuildAccountIssuerDid, NormalizeEmail, GoodAccount, AllowedOn, Creates, Dispatch, SessionOwner, HasSuccessor, Newcomer;
    hide Tokens.UniqueIds, Tokens.UniqueHashes, IssuerInv, ApplyOn;
    var s' := Step(cfg, s, call, env).0;
    var e := StepAccounts(cfg, s, call, env);
    var effect := EffectOf(cfg, s, call, env);
    StepTokens(cfg, s, call, env);
    StepClock(cfg, s, call, env);
    EffectKeepsChains(s.tokens, effect);
    EffectKeepsKeys(s.tokens, effect);
    forall i | 0 <= i < |s'.tokens|
      ensures s'.tokens[i].id in s'.used && s'.tokens[i].tokenHash.preimage in s'.used
      ensures s'.tokens[i].createdAt <= s'.clock && HasAccount(s'.accounts, s'.tokens[i].accountId)
    {
      if i < |s.tokens| {
        EffectSettles(s.tokens, effect);
        assert Settles(s.tokens[i], s'.tokens[i]);
        AccountsStay(cfg, s, e, env, s.tokens[i].accountId);
      } else if effect.Rotate? {
        assert HasAccount(s.accounts, s.tokens[effect.at].accountId);
        AccountsStay(cfg, s, e, env, s.tokens[effect.at].accountId);
      } else {
        OwnerHasAccount(cfg, s, call, env, e);
      }
    }
  }

  lemma InvKept(cfg: Config, s: State, call: Call, env: Env)
    requires Inv(cfg, s) && Fresh(s, env)
    ensures Inv(cfg, Step(cfg, s, call, env).0)
  {
    hide GoodAccount, Dispatch, Creates, ChainInv;
    IssuersKept(cfg, s, call, env);
    TokensKept(cfg, s, call, env);
    var e := StepAccounts(cfg, s, call, env);
    AccountEffectKeepsInv(cfg, s, e, env);
    StepClock(cfg, s, call, env);
  }

  lemma {:induction false} InvAlways(cfg: Config, s: State, run: seq<Input>)
    requires Inv(cfg, s) && Feasible(cfg, s, run)
    ensures Inv(cfg, Run(cfg, s, run))
    decreases |run|
  {
    hide Inv, Step;
    if run != [] {
      InvKept(cfg, s, run[0].call, run[0].env);
      InvAlways(cfg, Step(cfg, s, run[0].call, run[0].env).0, run[1..]);
    }
  }

  // ---- Sessions ----------------------------------------------------------------------

  /** In every run the links form disjoint, acyclic chains: a link leads to a later row of the
      same account, no row has two predecessors, a row with a successor is revoked, and of the
      rows of one chain at most one, its tip, is live. */
  lemma ChainsInEveryRun(cfg: Config, run: seq<Input>, i: nat, j: nat)
    requires Feasible(cfg, INITIAL, run)
    requires i < |Run(cfg, INITIAL, run).tokens| && j < |Run(cfg, INITIAL, run).tokens|
    ensures var rows := Run(cfg, INITIAL, run).tokens;
            && ChainInv(rows)
            && (Links(rows, i, j) ==>
                  && i < j && !Live(rows[i])
                  && rows[i].accountId == rows[j].accountId && rows[i].createdAt <= rows[j].createdAt
                  && Root(rows, i) == Root(rows, j)
                  && forall k: nat :: k < |rows| && Links(rows, k, j) ==> k == i)
            && (rows[i].replacedByTokenId.Some? ==> exists k: nat :: k < |rows| && Links(rows, i, k))
            && (Live(rows[i]) ==> Tip(rows, i) == i)
            && (Live(rows[i]) && Live(rows[j]) && Root(rows, i) == Root(rows, j) ==> i == j)
  {
    hide Feasible, Run;
    InvAlways(cfg, INITIAL, run);
    var rows := Run(cfg, INITIAL, run).tokens;
    if Links(rows, i, j) {
      LinksLeadForward(rows, i, j);
      LinkedRowsShareRoot(rows, i, j);
    }
    if rows[i].replacedByTokenId.Some? {
      var k := Successor(rows, i);
    }
    if Live(rows[i]) {
      OneLiveRowPerChain(rows, i, j);
    }
  }

  lemma ExtendsTwice(rows: Tokens.Rows, rows': Tokens.Rows, rows'': Tokens.Rows)
    requires Extends(rows, rows') && Extends(rows', rows'')
    ensures Extends(rows, rows'')
  {
    forall i | 0 <= i < |rows| ensures Settles(rows[i], rows''[i]) {
      assert Settles(rows[i], rows'[i]) && Settles(rows'[i], rows''[i]);
    }
  }

  /** Whatever is called later, a row keeps its identity and, once revoked, never changes again:
      `revokedAt` and `replacedByTokenId` are each written at most once although `revoke` overwrites. */
  lemma {:induction false} TokensAreWriteOnce(cfg: Config, s: State, run: seq<Input>)
    requires Inv(cfg, s) && Feasible(cfg, s, run)
    ensures Extends(s.tokens, Run(cfg, s, run).tokens)
    decreases |run|
  {
    hide AccountInv, IssuerInv, TokenInv, Step;
    if run != [] {
      var s' := Step(cfg, s, run[0].call, run[0].env).0;
      StepTokens(cfg, s, run[0].call, run[0].env);
      EffectSettles(s.tokens, EffectOf(cfg, s, run[0].call, run[0].env));
      InvKept(cfg, s, run[0].call, run[0].env);
      TokensAreWriteOnce(cfg, s', run[1..]);
      ExtendsTwice(s.tokens, s'.tokens, Run(cfg, s, run).tokens);
    }
  }

  /** Presenting a revoked token: the call fails as reuse, the account is left with no live token,
      no other account's token changes, and nothing else in the service changes but the trail. */
  lemma ReuseBurnsTheAccount(cfg: Config, s: State, token: string, env: Env)
    requires Inv(cfg, s) && Fresh(s, env)
    requires Tokens.Find(s.tokens, Sha256(token)).Some? && !Live(Tokens.Find(s.tokens, Sha256(token)).value)
    ensures var owner := Tokens.Find(s.tokens, Sha256(token)).value.accountId;
            var (s', response) := Step(cfg, s, Refresh(token), env);
            && response == Failed(RefreshTokenReuseDetected)
            && LiveCount(s'.tokens, owner) == 0
            && |s'.tokens| == |s.tokens|
            && (forall i :: 0 <= i < |s.tokens| && s.tokens[i].accountId != owner ==> s'.tokens[i] == s.tokens[i])
            && s' == Begin(s, env).(tokens := s'.tokens, audit := s'.audit)
  {
    hide Inv, Fresh, LiveCount;
    var owner := Tokens.Find(s.tokens, Sha256(token)).value.accountId;
    BurnCount(s.tokens, owner, env.now, owner);
  }

  // ---- Conservation ------------------------------------------------------------------

  /** Live sessions of an account, read off the audit trail: openings less logouts since the last burn. */
  function Balance(audit: seq<AuditEvent>, accountId: string): int {
    if audit == [] then 0
    else Post(Balance(audit[..|audit| - 1], accountId), audit[|audit| - 1], accountId)
  }

  function Post(balance: int, event: AuditEvent, accountId: string): int {
    match event
    case AccountRegistered(a, Password) => if a == accountId then balance + 1 else balance
    case LoginSucceeded(a, _) => if a == accountId then balance + 1 else balance
    case LoggedOut(a) => if a == accountId then balance - 1 else balance
    case ReuseDetected(a, _) => if a == accountId then 0 else balance
    case _ => balance
  }

  lemma BalanceAppends(audit: seq<AuditEvent>, event: AuditEvent, accountId: string)
    ensures Balance(audit + [event], accountId) == Post(Balance(audit, accountId), event, accountId)
  {
    assert (audit + [event])[..|audit|] == audit;
  }

  lemma OpeningAddsOne(audit: seq<AuditEvent>, events: seq<AuditEvent>, owner: string, accountId: string)
    requires OpeningTrail(events, owner)
    ensures Balance(audit + events, accountId) == Balance(audit, accountId) + (if owner == accountId then 1 else 0)
  {
    if |events| == 1 {
      BalanceAppends(audit, events[0], accountId);
      assert audit + events == audit + [events[0]];
    } else {
      BalanceAppends(audit, events[0], accountId);
      BalanceAppends(audit + [events[0]], events[1], accountId);
      assert audit + events == audit + [events[0]] + [events[1]];
    }
  }

  lemma RefreshBalance(cfg: Config, s: State, call: Call, env: Env, accountId: string)
    requires call.Refresh? && Allowed(s.tokens, EffectOf(cfg, s, call, env))
    ensures Balance(Step(cfg, s, call, env).0.audit, accountId)
         == if EffectOf(cfg, s, call, env) == Burn(accountId, env.now) then 0 else Balance(s.audit, accountId)
  {
    hide Allowed, Balance;
    var at := Tokens.IndexOfHash(s.tokens, Sha256(call.token));
    if at < |s.tokens| {
      var row := s.tokens[at];
      BalanceAppends(s.audit, ReuseDetected(row.accountId, row.id), accountId);
      BalanceAppends(s.audit, TokenRotated(row.accountId, row.id), accountId);
    }
  }

  lemma LogoutBalance(cfg: Config, s: State, call: Call, env: Env, accountId: string)
    requires call.Logout? && Allowed(s.tokens, EffectOf(cfg, s, call, env))
    ensures Balance(Step(cfg, s, call, env).0.audit, accountId)
         == Balance(s.audit, accountId) + Delta(s.tokens, EffectOf(cfg, s, call, env), accountId)
  {
    hide Balance;
    var at := Tokens.IndexOfHash(s.tokens, Sha256(call.token));
    if at < |s.tokens| {
      BalanceAppends(s.audit, LoggedOut(s.tokens[at].accountId), accountId);
    }
  }

  lemma OpeningBalance(cfg: Config, s: State, call: Call, env: Env, accountId: string)
    requires call.Register? || call.Login? || call.LoginWithGoogle?
    ensures Balance(Step(cfg, s, call, env).0.audit, accountId)
         == Balance(s.audit, accountId) + (if SessionOwner(s, call, env) == Some(accountId) then 1 else 0)
  {
    hide Balance, SessionOwner, Step;
    var s' := Step(cfg, s, call, env).0;
    if SessionOwner(s, call, env).Some? {
      SessionOpens(cfg, s, call, env);
      assert s'.audit == s.audit + s'.audit[|s.audit|..];
      OpeningAddsOne(s.audit, s'.audit[|s.audit|..], SessionOwner(s, call, env).value, accountId);
    } else {
      RefusalOpensNothing(cfg, s, call, env);
      if s'.audit != s.audit {
        BalanceAppends(s.audit, s'.audit[|s.audit|], accountId);
      }
    }
  }

  lemma StepBalance(cfg: Config, s: State, call: Call, env: Env, accountId: string)
    requires TokenInv(s) && Fresh(s, env)
    requires LiveCount(s.tokens, accountId) == Balance(s.audit, accountId)
    ensures var s' := Step(cfg, s, call, env).0;
            LiveCount(s'.tokens, accountId) == Balance(s'.audit, accountId)
  {
    hide Balance, LiveCount, SessionOwner, TokenInv, Allowed, Apply, StepRegister, StepLogin, StepGoogle, StepRefresh, StepLogout;
    var effect := EffectOf(cfg, s, call, env);
    StepTokens(cfg, s, call, env);
    EffectCount(s.tokens, effect, accountId);
    match call
    case Refresh(_) => RefreshBalance(cfg, s, call, env, accountId);
    case Logout(_) => LogoutBalance(cfg, s, call, env, accountId);
    case VerifyEmail(_) =>
    case ResendVerificationEmail(_) =>
    case _ => OpeningBalance(cfg, s, call, env, accountId);
  }

  /** In every run an account's live tokens are the sessions opened less the logouts that took
      effect since its last reuse burn; rotation changes neither. */
  lemma {:induction false} SessionsBalance(cfg: Config, s: State, run: seq<Input>, accountId: string)
    requires Inv(cfg, s) && Feasible(cfg, s, run)
    requires LiveCount(s.tokens, accountId) == Balance(s.audit, accountId)
    ensures var s' := Run(cfg, s, run);
            LiveCount(s'.tokens, accountId) == Balance(s'.audit, accountId)
    decreases |run|
  {
    hide AccountInv, IssuerInv, TokenInv, Step, LiveCount, Balance;
    if run != [] {
      InvKept(cfg, s, run[0].call, run[0].env);
      StepBalance(cfg, s, run[0].call, run[0].env, accountId);
      SessionsBalance(cfg, Step(cfg, s, run[0].call, run[0].env).0, run[1..], accountId);
    }
  }
}
