/** Ownership is decided by history: whoever made the first claim, through a token and a challenge. */
module OwnershipTheorems {
  import opened Common
  import opened AccountLinks
  import opened Lists
  import opened OwnershipModel
  import AccessTokens
  import Accounts = AccountStore
  import AuthModel
  import Quota

  // ---- From a session to a caller ---------------------------------------------------------------

  /** The bearer token a session was opened with makes its holder that account, while the token lives
      and the account's email is verified. */
  lemma SessionBearerIsItsAccount(
      deps: Deps, cfg: AuthModel.Config, s: AuthModel.State, call: AuthModel.Call, env: AuthModel.Env,
      accounts: Accounts.Rows, log: seq<AuditRecord>, now: int, requireAuth: bool)
    requires AccessTokens.JsonRoundTrips(deps.runtime)
    requires AuthModel.Step(cfg, s, call, env).1.Session? && AuthModel.Step(cfg, s, call, env).1.account.id != ""
    ensures var session := AuthModel.Step(cfg, s, call, env).1;
            var bearer := BEARER + AccessTokens.Seal(deps.runtime, deps.accessSecret, session.tokens.accessToken);
            ResolveAccountOrAdmin(deps, Headers(None, Some(bearer)), accounts, log, now, requireAuth, None)
            == if AccessTokens.Seconds(now) >= AccessTokens.Seconds(env.now) + cfg.accessTtlSeconds then
                 Err(BadToken(AccessTokens.AccessTokenExpired))
               else if !IsVerified(accounts, session.account.id) then Err(EmailNotVerified)
               else Ok(Some(session.account.id))
  {
    hide AuthModel.Step, AccessTokens.VerifyAccessToken, IsVerified, AccessTokens.Seal;
    var session := AuthModel.Step(cfg, s, call, env).1;
    AccessTokens.SessionCarriesItsAccount(cfg, s, call, env);
    AccessTokens.IssuedTokenLivesUntilExp(deps.runtime, deps.accessSecret, session.account.id, cfg.accessTtlSeconds, ["account"],
                                          env.now, env.jti, now);
    var token := AccessTokens.Seal(deps.runtime, deps.accessSecret, session.tokens.accessToken);
    AccessTokens.SealedIsNotEmpty(deps.runtime, deps.accessSecret, session.tokens.accessToken);
    assert (BEARER + token)[|BEARER|..] == token;
  }

  // ---- Claims, read off the history -----------------------------------------------------------

  /** Who claims something at each request of a run, if anyone. */
  type Claims = nat -> Option<string>

  /** The account of the first claim among requests `0..n`. */
  ghost function First(claims: Claims, n: nat): Option<string> {
    if n == 0 then None
    else if First(claims, n - 1).Some? then First(claims, n - 1)
    else claims(n - 1)
  }

  ghost predicate IsFirst(claims: Claims, n: nat, i: nat, a: string) {
    i < n && claims(i) == Some(a) && forall j :: 0 <= j < i ==> claims(j).None?
  }

  lemma {:induction false} FirstIsTheFirst(claims: Claims, n: nat)
    ensures First(claims, n).None? <==> forall i :: 0 <= i < n ==> claims(i).None?
    ensures forall a :: First(claims, n) == Some(a) <==> exists i: nat :: IsFirst(claims, n, i, a)
  {
    if n > 0 {
      FirstIsTheFirst(claims, n - 1);
      forall a ensures First(claims, n) == Some(a) <==> exists i: nat :: IsFirst(claims, n, i, a) {
        if i: nat :| IsFirst(claims, n, i, a) {
          assert i < n - 1 ==> IsFirst(claims, n - 1, i, a);
        }
        if First(claims, n - 1) == Some(a) {
          var i :| IsFirst(claims, n - 1, i, a);
          assert IsFirst(claims, n, i, a);
        } else if First(claims, n) == Some(a) {
          assert IsFirst(claims, n, n - 1, a);
        }
      }
    }
  }

  /** The account whose bearer call request `i` is, if the guard lets it through. */
  ghost function Caller(deps: Deps, run: seq<Input>, i: nat): Option<string> {
    if i < |run| && (run[i].request.GenerateToken? || run[i].request.IssueVc?) then
      match Guard(deps, After(deps, run, i), run[i])
      case Ok(accountId) => accountId
      case Err(_) => None
    else None
  }

  /** An account claims the enrollment tokens generated for it. */
  ghost function Mints(deps: Deps, run: seq<Input>, token: string): Claims {
    (i: nat) => if i < |run| && run[i].request.GenerateToken? && run[i].request.token == Some(token) then Caller(deps, run, i) else None
  }

  ghost function TokenOwner(deps: Deps, run: seq<Input>, n: nat, token: string): Option<string> {
    First(Mints(deps, run, token), n)
  }

  /** The owner of an enrollment token claims the challenges it is answered with. */
  ghost function Onboards(deps: Deps, run: seq<Input>, challengeId: string): Claims {
    (i: nat) => if i < |run| && run[i].request.Onboard? && run[i].request.challengeId == Some(challengeId)
         then TokenOwner(deps, run, i, run[i].request.enrollmentToken) else None
  }

  ghost function ChallengeOwner(deps: Deps, run: seq<Input>, n: nat, challengeId: string): Option<string> {
    First(Onboards(deps, run, challengeId), n)
  }

  /** A credential is claimed by its issuing bearer, by the owner of the token it was enrolled with,
      or by the owner of the challenge it was onboarded with. */
  ghost function Receives(deps: Deps, run: seq<Input>, vcId: string): Claims {
    (i: nat) =>
      if i >= |run| then None
      else
        match run[i].request
        case IssueVc(_, made) => if made == Some(vcId) then Caller(deps, run, i) else None
        case Enroll(token, made) => if made == Some(vcId) then TokenOwner(deps, run, i, token) else None
        case VerifyOnboarding(challengeId, made) => if made == Some(vcId) then ChallengeOwner(deps, run, i, challengeId) else None
        case _ => None
  }

  // ---- The tables say the same ------------------------------------------------------------------

  lemma TokenStep(deps: Deps, run: seq<Input>, n: nat, token: string)
    requires n < |run|
    ensures var (was, claim) := (OwnerOf(After(deps, run, n).tokens, Sha256(token)), Mints(deps, run, token)(n));
            OwnerOf(After(deps, run, n + 1).tokens, Sha256(token)) == if was.Some? then was else claim
  {
    hide ResolveAccountOrAdmin;
  }

  lemma ChallengeStep(deps: Deps, run: seq<Input>, n: nat, challengeId: string)
    requires n < |run|
    requires run[n].request.Onboard? ==>
               OwnerOf(After(deps, run, n).tokens, Sha256(run[n].request.enrollmentToken))
               == TokenOwner(deps, run, n, run[n].request.enrollmentToken)
    ensures var (was, claim) := (OwnerOf(After(deps, run, n).challenges, challengeId), Onboards(deps, run, challengeId)(n));
            OwnerOf(After(deps, run, n + 1).challenges, challengeId) == if was.Some? then was else claim
  {
    hide ResolveAccountOrAdmin, First, TokenOwner;
  }

  lemma CredentialStep(deps: Deps, run: seq<Input>, n: nat, vcId: string)
    requires n < |run|
    requires match run[n].request
             case Enroll(token, _) => OwnerOf(After(deps, run, n).tokens, Sha256(token)) == TokenOwner(deps, run, n, token)
             case VerifyOnboarding(challengeId, _) =>
               OwnerOf(After(deps, run, n).challenges, challengeId) == ChallengeOwner(deps, run, n, challengeId)
             case _ => true
    ensures var (was, claim) := (OwnerOf(After(deps, run, n).credentials, vcId), Receives(deps, run, vcId)(n));
            OwnerOf(After(deps, run, n + 1).credentials, vcId) == if was.Some? then was else claim
  {
    hide ResolveAccountOrAdmin, First, TokenOwner, ChallengeOwner;
  }

  lemma FirstStep(claims: Claims, n: nat)
    ensures First(claims, 0) == None
    ensures First(claims, n + 1) == if First(claims, n).Some? then First(claims, n) else claims(n)
  {
  }

  lemma NobodyOwnsAtFirst(deps: Deps, run: seq<Input>)
    ensures After(deps, run, 0) == INITIAL
  {
  }

  lemma {:induction false} TokensFollowHistory(deps: Deps, run: seq<Input>, n: nat, token: string)
    requires n <= |run|
    ensures OwnerOf(After(deps, run, n).tokens, Sha256(token)) == TokenOwner(deps, run, n, token)
  {
    hide After, First, Mints;
    NobodyOwnsAtFirst(deps, run);
    FirstStep(Mints(deps, run, token), if n > 0 then n - 1 else 0);
    if n > 0 {
      TokensFollowHistory(deps, run, n - 1, token);
      TokenStep(deps, run, n - 1, token);
    }
  }

  lemma {:induction false} ChallengesFollowHistory(deps: Deps, run: seq<Input>, n: nat, challengeId: string)
    requires n <= |run|
    ensures OwnerOf(After(deps, run, n).challenges, challengeId) == ChallengeOwner(deps, run, n, challengeId)
  {
    hide After, First, Onboards, TokenOwner;
    NobodyOwnsAtFirst(deps, run);
    FirstStep(Onboards(deps, run, challengeId), if n > 0 then n - 1 else 0);
    if n > 0 {
      ChallengesFollowHistory(deps, run, n - 1, challengeId);
      if run[n - 1].request.Onboard? {
        TokensFollowHistory(deps, run, n - 1, run[n - 1].request.enrollmentToken);
      }
      ChallengeStep(deps, run, n - 1, challengeId);
    }
  }

  lemma {:induction false} CredentialsFollowHistory(deps: Deps, run: seq<Input>, n: nat, vcId: string)
    requires n <= |run|
    ensures OwnerOf(After(deps, run, n).credentials, vcId) == First(Receives(deps, run, vcId), n)
  {
    hide After, First, Receives, TokenOwner, ChallengeOwner;
    NobodyOwnsAtFirst(deps, run);
    FirstStep(Receives(deps, run, vcId), if n > 0 then n - 1 else 0);
    if n > 0 {
      CredentialsFollowHistory(deps, run, n - 1, vcId);
      match run[n - 1].request {
        case Enroll(token, _) => TokensFollowHistory(deps, run, n - 1, token);
        case VerifyOnboarding(challengeId, _) => ChallengesFollowHistory(deps, run, n - 1, challengeId);
        case _ =>
      }
      CredentialStep(deps, run, n - 1, vcId);
    }
  }

  /** A credential belongs to exactly the account of the first claim on it, over every run. */
  lemma CredentialBelongsToFirstClaim(deps: Deps, run: seq<Input>, n: nat, vcId: string, a: string)
    requires n <= |run|
    ensures OwnerOf(After(deps, run, n).credentials, vcId) == Some(a)
       <==> exists i: nat :: IsFirst(Receives(deps, run, vcId), n, i, a)
  {
    CredentialsFollowHistory(deps, run, n, vcId);
    FirstIsTheFirst(Receives(deps, run, vcId), n);
  }

  ghost predicate MintedFor(deps: Deps, run: seq<Input>, i: nat, token: string, a: string) {
    && i < |run| && run[i].request.GenerateToken? && run[i].request.token == Some(token)
    && Caller(deps, run, i) == Some(a)
  }

  ghost predicate OnboardedFor(deps: Deps, run: seq<Input>, i: nat, challengeId: string, a: string) {
    && i < |run| && run[i].request.Onboard? && run[i].request.challengeId == Some(challengeId)
    && exists j: nat :: j < i && MintedFor(deps, run, j, run[i].request.enrollmentToken, a)
  }

  /** The three ways a credential can have come to an account. */
  ghost predicate MadeFor(deps: Deps, run: seq<Input>, i: nat, vcId: string, a: string) {
    && i < |run|
    && match run[i].request
       case IssueVc(_, made) => made == Some(vcId) && Caller(deps, run, i) == Some(a)
       case Enroll(token, made) => made == Some(vcId) && exists j: nat :: j < i && MintedFor(deps, run, j, token, a)
       case VerifyOnboarding(challengeId, made) =>
         made == Some(vcId) && exists j: nat :: j < i && OnboardedFor(deps, run, j, challengeId, a)
       case _ => false
  }

  lemma TokenProvenance(deps: Deps, run: seq<Input>, n: nat, token: string, a: string)
    requires n <= |run| && TokenOwner(deps, run, n, token) == Some(a)
    ensures exists j: nat :: j < n && MintedFor(deps, run, j, token, a)
  {
    FirstIsTheFirst(Mints(deps, run, token), n);
    var j: nat :| IsFirst(Mints(deps, run, token), n, j, a);
    assert MintedFor(deps, run, j, token, a);
  }

  lemma ChallengeProvenance(deps: Deps, run: seq<Input>, n: nat, challengeId: string, a: string)
    requires n <= |run| && ChallengeOwner(deps, run, n, challengeId) == Some(a)
    ensures exists j: nat :: j < n && OnboardedFor(deps, run, j, challengeId, a)
  {
    FirstIsTheFirst(Onboards(deps, run, challengeId), n);
    var j: nat :| IsFirst(Onboards(deps, run, challengeId), n, j, a);
    TokenProvenance(deps, run, j, run[j].request.enrollmentToken, a);
    assert OnboardedFor(deps, run, j, challengeId, a);
  }

  /** Every credential linked to an account was issued by its bearer call, or came from an enrollment
      token generated by its bearer call, directly or through the token's challenge. */
  lemma CredentialProvenance(deps: Deps, run: seq<Input>, n: nat, vcId: string, a: string)
    requires n <= |run| && OwnerOf(After(deps, run, n).credentials, vcId) == Some(a)
    ensures exists i: nat :: i < n && MadeFor(deps, run, i, vcId, a)
  {
    CredentialBelongsToFirstClaim(deps, run, n, vcId, a);
    var i: nat :| IsFirst(Receives(deps, run, vcId), n, i, a);
    match run[i].request {
      case Enroll(token, _) => TokenProvenance(deps, run, i, token, a);
      case VerifyOnboarding(challengeId, _) => ChallengeProvenance(deps, run, i, challengeId, a);
      case _ =>
    }
    assert MadeFor(deps, run, i, vcId, a);
  }

  ghost predicate Kept<K>(owners: Owners<K>, later: Owners<K>) {
    forall k :: k in owners ==> k in later && later[k] == owners[k]
  }

  lemma StepKeepsOwners(deps: Deps, s: State, input: Input)
    ensures var s' := Next(deps, s, input);
            Kept(s.tokens, s'.tokens) && Kept(s.challenges, s'.challenges) && Kept(s.credentials, s'.credentials)
  {
    hide ResolveAccountOrAdmin;
  }

  /** Once an account owns a token, a challenge or a credential, it always will. */
  lemma {:induction false} OwnersNeverChange(deps: Deps, run: seq<Input>, m: nat, n: nat)
    requires m <= n <= |run|
    ensures var (s, s') := (After(deps, run, m), After(deps, run, n));
            Kept(s.tokens, s'.tokens) && Kept(s.challenges, s'.challenges) && Kept(s.credentials, s'.credentials)
  {
    hide Next;
    if m < n {
      OwnersNeverChange(deps, run, m, n - 1);
      StepKeepsOwners(deps, After(deps, run, n - 1), run[n - 1]);
    }
  }

  // ---- What an account sees ----------------------------------------------------------------------

  /** An account's listing is, in order, exactly the listed credentials that belong to it. */
  lemma ScopedListing(deps: Deps, run: seq<Input>, n: nat, a: string, listed: seq<string>) returns (at: seq<nat>)
    requires n <= |run|
    ensures var owned := (vcId: string) => First(Receives(deps, run, vcId), n) == Some(a);
            IsPicked(listed, ScopedVcs(After(deps, run, n), Some(a), listed), owned, at)
  {
    var s := After(deps, run, n);
    at := FilterPicks(listed, vcId => OwnerOf(s.credentials, vcId) == Some(a));
    forall vcId ensures OwnerOf(s.credentials, vcId) == First(Receives(deps, run, vcId), n) {
      CredentialsFollowHistory(deps, run, n, vcId);
    }
  }

  /** Why a record is the account's, by history alone. */
  ghost predicate AttributableByHistory(deps: Deps, run: seq<Input>, n: nat, r: AuditRecord, a: string) {
    || r.accountId == Some(a)
    || (r.vcId.Some? && r.vcId.value != "" && First(Receives(deps, run, r.vcId.value), n) == Some(a))
    || (r.tokenIdHash.Some? && TokenOwner(deps, run, n, r.tokenIdHash.value.preimage) == Some(a))
  }

  /** An account's audit view is, in order, exactly the listed records attributable to it. */
  lemma ScopedAuditView(deps: Deps, run: seq<Input>, n: nat, a: string, records: seq<AuditRecord>) returns (at: seq<nat>)
    requires n <= |run|
    ensures var mine := (r: AuditRecord) => AttributableByHistory(deps, run, n, r, a);
            IsPicked(records, ScopedLog(After(deps, run, n), Some(a), records), mine, at)
  {
    hide After;
    var s := After(deps, run, n);
    at := FilterPicks(records, r => Attributable(s, r, a));
    forall r ensures Attributable(s, r, a) == AttributableByHistory(deps, run, n, r, a) {
      if r.vcId.Some? {
        CredentialsFollowHistory(deps, run, n, r.vcId.value);
      }
      if r.tokenIdHash.Some? {
        TokensFollowHistory(deps, run, n, r.tokenIdHash.value.preimage);
      }
    }
  }

  /** A bearer may revoke exactly the credentials that came to its account first. */
  lemma RevocableIffFirstClaimed(deps: Deps, run: seq<Input>, n: nat, a: string, vcId: string)
    requires n <= |run|
    ensures MayRevoke(After(deps, run, n), Some(a), vcId) <==> exists i: nat :: IsFirst(Receives(deps, run, vcId), n, i, a)
  {
    CredentialBelongsToFirstClaim(deps, run, n, vcId, a);
  }

  /** Ids the core service hands out: no token and no credential twice. */
  ghost predicate FreshIds(run: seq<Input>, n: nat)
    requires n <= |run|
  {
    forall i, j :: 0 <= i < j < n ==>
      && (MadeToken(run[i].request).Some? ==> MadeToken(run[i].request) != MadeToken(run[j].request))
      && (MadeVc(run[i].request).Some? ==> MadeVc(run[i].request) != MadeVc(run[j].request))
  }

  function MadeToken(request: Request): Option<Digest> {
    if request.GenerateToken? && request.token.Some? then Some(Sha256(request.token.value)) else None
  }

  function MadeVc(request: Request): Option<string> {
    match request
    case IssueVc(_, vcId) => vcId
    case Enroll(_, vcId) => vcId
    case VerifyOnboarding(_, vcId) => vcId
    case _ => None
  }

  /** The other writers of the log do not write quota events. */
  predicate LogsNoQuotaEvent(request: Request) {
    request.LogEvent? ==> !Quota.IsQuotaEvent(request.record.eventType)
  }

  ghost predicate Regular(run: seq<Input>, n: nat)
    requires n <= |run|
  {
    && FreshIds(run, n)
    && (forall i :: 0 <= i < n ==> LogsNoQuotaEvent(run[i].request))
  }

  /** The row names one account, which owns the token or the credential the row names. */
  predicate Consistent(s: State, r: AuditRecord) {
    && r.accountId.Some?
    && if r.eventType == Quota.VC_ISSUED
       then r.tokenIdHash.None? && r.vcId.Some? && OwnerOf(s.credentials, r.vcId.value) == r.accountId
       else r.vcId.None? && r.tokenIdHash.Some? && OwnerOf(s.tokens, r.tokenIdHash.value) == r.accountId
  }

  ghost predicate LogConsistent(s: State) {
    forall i :: 0 <= i < |s.log| && Quota.IsQuotaEvent(s.log[i].eventType) ==> Consistent(s, s.log[i])
  }

  ghost predicate TokenMade(run: seq<Input>, n: nat, hash: Digest) {
    exists i :: 0 <= i < n <= |run| && MadeToken(run[i].request) == Some(hash)
  }

  ghost predicate VcMade(run: seq<Input>, n: nat, vcId: string) {
    exists i :: 0 <= i < n <= |run| && MadeVc(run[i].request) == Some(vcId)
  }

  /** Every owned token and credential was handed out in the run. */
  ghost predicate OwnedWereMade(s: State, run: seq<Input>, n: nat) {
    (forall h :: h in s.tokens ==> TokenMade(run, n, h)) && (forall v :: v in s.credentials ==> VcMade(run, n, v))
  }

  lemma MadeStaysMade(run: seq<Input>, n: nat)
    requires n < |run|
    ensures forall h :: TokenMade(run, n, h) ==> TokenMade(run, n + 1, h)
    ensures forall v :: VcMade(run, n, v) ==> VcMade(run, n + 1, v)
    ensures MadeToken(run[n].request).Some? ==> TokenMade(run, n + 1, MadeToken(run[n].request).value)
    ensures MadeVc(run[n].request).Some? ==> VcMade(run, n + 1, MadeVc(run[n].request).value)
  {
    forall h | TokenMade(run, n, h) ensures TokenMade(run, n + 1, h) {
      var i :| 0 <= i < n <= |run| && MadeToken(run[i].request) == Some(h);
    }
    forall v | VcMade(run, n, v) ensures VcMade(run, n + 1, v) {
      var i :| 0 <= i < n <= |run| && MadeVc(run[i].request) == Some(v);
    }
  }

  /** A step adds at most the id it was answered with. */
  lemma StepAddsItsOwn(deps: Deps, s: State, input: Input)
    ensures var s' := Next(deps, s, input);
            && (forall h :: h in s'.tokens ==> h in s.tokens || MadeToken(input.request) == Some(h))
            && (forall v :: v in s'.credentials ==> v in s.credentials || MadeVc(input.request) == Some(v))
  {
    hide ResolveAccountOrAdmin;
  }

  lemma {:induction false} OwnedIdsWereMade(deps: Deps, run: seq<Input>, n: nat)
    requires n <= |run|
    ensures OwnedWereMade(After(deps, run, n), run, n)
  {
    hide Next, TokenMade, VcMade;
    if n > 0 {
      OwnedIdsWereMade(deps, run, n - 1);
      StepAddsItsOwn(deps, After(deps, run, n - 1), run[n - 1]);
      MadeStaysMade(run, n - 1);
    }
  }

  /** A step that owns only new ids logs a row the tables agree with. */
  lemma StepKeepsLogConsistent(deps: Deps, s: State, input: Input)
    requires LogConsistent(s) && LogsNoQuotaEvent(input.request)
    requires MadeToken(input.request).Some? ==> MadeToken(input.request).value !in s.tokens
    requires MadeVc(input.request).Some? ==> MadeVc(input.request).value !in s.credentials
    ensures LogConsistent(Next(deps, s, input))
  {
    hide ResolveAccountOrAdmin;
    StepKeepsOwners(deps, s, input);
    var s' := Next(deps, s, input);
    forall i | 0 <= i < |s'.log| && Quota.IsQuotaEvent(s'.log[i].eventType) ensures Consistent(s', s'.log[i]) {
      if i < |s.log| {
        assert s'.log[i] == s.log[i] && Consistent(s, s.log[i]);
      }
    }
  }

  lemma {:induction false} LogStaysConsistent(deps: Deps, run: seq<Input>, n: nat)
    requires n <= |run| && Regular(run, n)
    ensures LogConsistent(After(deps, run, n))
  {
    hide Next, LogConsistent;
    if n == 0 {
      assert LogConsistent(INITIAL) by { LogStartsConsistent(); }
    } else {
      LogStaysConsistent(deps, run, n - 1);
      OwnedIdsWereMade(deps, run, n - 1);
      StepKeepsLogConsistent(deps, After(deps, run, n - 1), run[n - 1]);
    }
  }

  lemma LogStartsConsistent()
    ensures LogConsistent(INITIAL)
  {
  }

  /** With fresh ids, an account sees its own quota events and nobody else's. */
  lemma QuotaEventsAreSeenByTheirAccount(deps: Deps, run: seq<Input>, n: nat, k: nat, a: string)
    requires n <= |run| && Regular(run, n)
    requires k < |After(deps, run, n).log| && Quota.IsQuotaEvent(After(deps, run, n).log[k].eventType)
    ensures var s := After(deps, run, n);
            Attributable(s, s.log[k], a) <==> s.log[k].accountId == Some(a)
  {
    LogStaysConsistent(deps, run, n);
  }

  // ---- Daily quotas on these routes ----------------------------------------------------------------

  /** Requests come one at a time on a clock that does not run back, and the listings the guard reads are complete. */
  ghost predicate Orderly(deps: Deps, run: seq<Input>, n: nat)
    requires n <= |run|
  {
    forall i :: 0 <= i < n ==>
      var s, input := After(deps, run, i), run[i];
      && s.clock <= input.now
      && LogsNoQuotaEvent(input.request)
      && (input.request.LogEvent? ==> input.request.record.at == input.now)
      && (forall eventType :: Quota.IsQuotaEvent(eventType) ==>
            |Quota.Matching(QuotaRows(s.log), eventType, input.now - Quota.ONE_DAY_MS)| <= Quota.LIST_LIMIT)
  }

  ghost function QuotaState(s: State): Quota.State {
    Quota.State(QuotaRows(s.log), [], s.clock)
  }

  lemma QuotaRowsGrow(log: seq<AuditRecord>, r: AuditRecord)
    ensures QuotaRows(log + [r]) == QuotaRows(log) + [Quota.Row(r.eventType, r.accountId, r.at)]
  {
  }

  lemma WaitingKeepsBound(q: Quota.Quotas, t: Quota.Ticket, s: Quota.State, now: int)
    requires Quota.Bounded(q, 1, t, s) && s.pending == [] && s.clock <= now
    ensures Quota.Bounded(q, 1, t, s.(clock := now))
  {
    forall from ensures Quota.Load(t, s.(clock := now), from) <= Quota.QuotaFor(q, t.eventType) {
      assert Quota.Load(t, s, from) <= Quota.QuotaFor(q, t.eventType);
    }
  }

  /** An admitted request is a check followed by a record. */
  lemma AdmittedKeepsBound(q: Quota.Quotas, t: Quota.Ticket, s: Quota.State, done: Quota.Ticket, now: int)
    requires Quota.QuotaFor(q, t.eventType) > 0 && Quota.Bounded(q, 1, t, s)
    requires s.pending == [] && s.clock <= now && Quota.IsQuotaEvent(done.eventType)
    requires !Quota.Refused(Quota.QuotaFor(q, done.eventType), s.log, done.eventType, done.accountId, now)
    requires |Quota.Matching(s.log, done.eventType, now - Quota.ONE_DAY_MS)| <= Quota.LIST_LIMIT
    ensures Quota.Bounded(q, 1, t, Quota.State(s.log + [Quota.Row(done.eventType, Some(done.accountId), now)], [], now))
  {
    hide Quota.Bounded, Quota.Refused, Quota.Matching, Quota.QuotaFor;
    var check, record := Quota.Check(done.eventType, done.accountId, now), Quota.Record(0, now);
    var s1 := Quota.Next(q, s, check);
    assert s1.pending == [done];
    Quota.StepKeepsBound(q, 1, t, s, check);
    assert s1.pending[..0] + s1.pending[1..] == [];
    Quota.StepKeepsBound(q, 1, t, s1, record);
  }

  /** What a step does to the log and the clock: nothing, or one event of an admitted caller, or another row. */
  lemma StepOnLog(deps: Deps, s: State, input: Input)
    ensures var s' := Next(deps, s, input);
            && s'.clock == input.now
            && match input.request
               case LogEvent(r) => s'.log == s.log + [r]
               case _ =>
                 || s'.log == s.log
                 || exists r :: s'.log == s.log + [r] && r.accountId.Some? && r.at == input.now && Quota.IsQuotaEvent(r.eventType)
                             && !Quota.Refused(Quota.QuotaFor(deps.quotas, r.eventType), QuotaRows(s.log), r.eventType,
                                               r.accountId.value, input.now)
  {
    hide Quota.Refused, QuotaRows, Quota.QuotaFor;
    var s' := Next(deps, s, input);
    if s'.log != s.log {
      assert s'.log == s.log + [s'.log[|s.log|]];
    }
  }

  lemma StepKeepsQuota(deps: Deps, run: seq<Input>, i: nat, t: Quota.Ticket)
    requires i < |run| && Orderly(deps, run, i + 1) && Quota.QuotaFor(deps.quotas, t.eventType) > 0
    requires Quota.Bounded(deps.quotas, 1, t, QuotaState(After(deps, run, i)))
    ensures Quota.Bounded(deps.quotas, 1, t, QuotaState(After(deps, run, i + 1)))
  {
    hide Quota.Bounded, Quota.Refused, Quota.Matching, Quota.QuotaFor, QuotaRows, Next;
    var s, s', input := After(deps, run, i), After(deps, run, i + 1), run[i];
    StepOnLog(deps, s, input);
    if s'.log == s.log {
      WaitingKeepsBound(deps.quotas, t, QuotaState(s), input.now);
    } else {
      var r :| s'.log == s.log + [r] && (input.request.LogEvent? ==> r == input.request.record)
             && (!input.request.LogEvent? ==>
                   && r.accountId.Some? && r.at == input.now && Quota.IsQuotaEvent(r.eventType)
                   && !Quota.Refused(Quota.QuotaFor(deps.quotas, r.eventType), QuotaRows(s.log), r.eventType,
                                     r.accountId.value, input.now));
      QuotaRowsGrow(s.log, r);
      if input.request.LogEvent? {
        Quota.StepKeepsBound(deps.quotas, 1, t, QuotaState(s), Quota.LogOther(Quota.Row(r.eventType, r.accountId, r.at)));
      } else {
        AdmittedKeepsBound(deps.quotas, t, QuotaState(s), Quota.Ticket(r.eventType, r.accountId.value), input.now);
      }
    }
  }

  lemma {:induction false} RoutesStayBounded(deps: Deps, run: seq<Input>, n: nat, t: Quota.Ticket)
    requires n <= |run| && Orderly(deps, run, n) && Quota.QuotaFor(deps.quotas, t.eventType) > 0
    ensures Quota.Bounded(deps.quotas, 1, t, QuotaState(After(deps, run, n)))
  {
    hide Quota.Bounded, Quota.QuotaFor, Next;
    if n == 0 {
      assert QuotaRows(INITIAL.log) == [];
      Quota.EmptyLogIsBounded(deps.quotas, 1, t, 0);
    } else {
      RoutesStayBounded(deps, run, n - 1, t);
      StepKeepsQuota(deps, run, n - 1, t);
    }
  }

  /** Over every run of these routes, each 24h window, wherever it starts, holds at most the daily quota
      of the account's events. */
  lemma RoutesKeepTheQuota(deps: Deps, run: seq<Input>, n: nat, eventType: string, a: string, from: int)
    requires n <= |run| && Orderly(deps, run, n) && Quota.QuotaFor(deps.quotas, eventType) > 0
    ensures Quota.WindowCount(QuotaRows(After(deps, run, n).log), eventType, a, from, from + Quota.ONE_DAY_MS)
         <= Quota.QuotaFor(deps.quotas, eventType)
  {
    hide Quota.WindowCount, Quota.QuotaFor, After, QuotaRows;
    var t := Quota.Ticket(eventType, a);
    RoutesStayBounded(deps, run, n, t);
    assert Quota.Load(t, QuotaState(After(deps, run, n)), from) <= Quota.QuotaFor(deps.quotas, eventType);
  }
}
