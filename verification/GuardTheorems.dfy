/** Who gets past the guard, read off the headers; and what that means for each route. */
module GuardTheorems {
  import opened Common
  import opened OwnershipModel
  import AccessTokens
  import Accounts = AccountStore
  import Quota

  /** The admin header carries the configured key, which is not empty. */
  ghost predicate BearsKey(deps: Deps, h: Headers) {
    exists key :: key != "" && deps.adminApiKey == Some(key) && h.adminApiKey == Some(key)
  }

  /** The authorization header is "Bearer " and this token. */
  ghost predicate Bears(h: Headers, token: string) {
    token != "" && h.authorization == Some("Bearer " + token)
  }

  ghost predicate WithoutCredentials(deps: Deps, h: Headers) {
    !BearsKey(deps, h) && forall token :: !Bears(h, token)
  }

  /** There is such an account, and its email is verified. */
  ghost predicate HasVerified(accounts: Accounts.Rows, accountId: string) {
    exists i :: 0 <= i < |accounts| && accounts[i].id == accountId && accounts[i].emailVerifiedAt.Some?
  }

  lemma BearerTokenIs(h: Headers)
    ensures match BearerToken(h)
            case Some(token) => Bears(h, token) && forall other :: Bears(h, other) ==> other == token
            case None => forall token :: !Bears(h, token)
  {
    forall token | Bears(h, token) ensures BearerToken(h) == Some(token) {
      assert ("Bearer " + token)[|BEARER|..] == token;
    }
    if BearerToken(h).Some? {
      assert h.authorization.value == "Bearer " + BearerToken(h).value;
    }
  }

  lemma AdminIff(deps: Deps, h: Headers)
    ensures IsAdmin(deps, h) <==> BearsKey(deps, h)
  {
  }

  lemma VerifiedIff(accounts: Accounts.Rows, accountId: string)
    requires Accounts.UniqueIds(accounts)
    ensures IsVerified(accounts, accountId) <==> HasVerified(accounts, accountId)
  {
    var at := Accounts.IndexOf(accounts, Accounts.ById(accountId));
    if i :| 0 <= i < |accounts| && accounts[i].id == accountId && accounts[i].emailVerifiedAt.Some? {
      assert Accounts.Matches(accounts[i], Accounts.ById(accountId));
      assert i == at;
    }
  }

  /** The admin key passes everywhere, as nobody's account, whatever else the request carries. */
  lemma AdminKeyPasses(
      deps: Deps, h: Headers, accounts: Accounts.Rows, log: seq<AuditRecord>, now: int, requireAuth: bool, eventType: Option<string>)
    requires BearsKey(deps, h)
    ensures ResolveAccountOrAdmin(deps, h, accounts, log, now, requireAuth, eventType) == Ok(None)
  {
  }

  /** Without the key and without a bearer token a request is denied where authentication is required, and goes on as
      nobody's where it is not. A key that is not configured, or configured empty, is no key. */
  lemma NobodyPassesIff(
      deps: Deps, h: Headers, accounts: Accounts.Rows, log: seq<AuditRecord>, now: int, requireAuth: bool, eventType: Option<string>)
    requires WithoutCredentials(deps, h)
    ensures ResolveAccountOrAdmin(deps, h, accounts, log, now, requireAuth, eventType)
         == if requireAuth then Err(AdminAuthRequired) else Ok(None)
  {
    BearerTokenIs(h);
    AdminIff(deps, h);
  }

  /** A bearer, without the key, passes exactly with a token that verifies, for an account whose email is verified, under
      the route's quota if it has one; and then as that account. */
  lemma BearerPassesIff(
      deps: Deps, h: Headers, token: string, accounts: Accounts.Rows, log: seq<AuditRecord>, now: int, requireAuth: bool,
      eventType: Option<string>)
    requires !BearsKey(deps, h) && Bears(h, token) && Accounts.UniqueIds(accounts)
    ensures ResolveAccountOrAdmin(deps, h, accounts, log, now, requireAuth, eventType)
         == match AccessTokens.VerifyAccessToken(deps.runtime, deps.accessSecret, token, now)
            case Err(e) => Err(BadToken(e))
            case Ok(claims) =>
              if !HasVerified(accounts, claims.accountId) then Err(EmailNotVerified)
              else if eventType.Some? && Quota.Refused(Quota.QuotaFor(deps.quotas, eventType.value), QuotaRows(log),
                                                       eventType.value, claims.accountId, now) then Err(AccountQuotaExceeded)
              else if claims.accountId == "" then Ok(None) else Ok(Some(claims.accountId))
  {
    hide AccessTokens.VerifyAccessToken, IsVerified, HasVerified, Quota.Refused, Quota.QuotaFor;
    BearerTokenIs(h);
    AdminIff(deps, h);
    match AccessTokens.VerifyAccessToken(deps.runtime, deps.accessSecret, token, now) {
      case Err(_) =>
      case Ok(claims) => VerifiedIff(accounts, claims.accountId);
    }
  }

  /** Where authentication is required nobody acts for everybody but the bearer of the key, or of a token for an account
      without a name. */
  lemma WhoActsForEverybody(deps: Deps, h: Headers, accounts: Accounts.Rows, log: seq<AuditRecord>, now: int, eventType: Option<string>)
    requires ResolveAccountOrAdmin(deps, h, accounts, log, now, true, eventType) == Ok(None)
    ensures BearsKey(deps, h)
            || exists token :: Bears(h, token) &&
                 match AccessTokens.VerifyAccessToken(deps.runtime, deps.accessSecret, token, now)
                 case Err(_) => false
                 case Ok(claims) => claims.accountId == ""
  {
    hide AccessTokens.VerifyAccessToken, IsVerified, Quota.Refused, Quota.QuotaFor;
    BearerTokenIs(h);
  }

  // ---- The routes -------------------------------------------------------------------------------------

  /** Without credentials issuing, listing, the audit view and revoking are all denied; issuing changes nothing. */
  lemma NobodyIsDenied(deps: Deps, s: State, input: Input, h: Headers, accounts: Accounts.Rows, now: int)
    requires WithoutCredentials(deps, h)
    ensures input.request.IssueVc? && input.request.headers == h ==> Step(deps, s, input) == (s, Denied(AdminAuthRequired))
    ensures Reader(deps, s, h, accounts, now) == Err(AdminAuthRequired)
  {
    hide ResolveAccountOrAdmin, WithoutCredentials;
    NobodyPassesIff(deps, h, accounts, s.log, now, true, None);
    NobodyPassesIff(deps, h, input.accounts, s.log, input.now, true, Some(Quota.VC_ISSUED));
  }

  /** The enrollment-token route is open: without credentials a token is made, but it is nobody's. */
  lemma NobodyMakesTokens(deps: Deps, s: State, input: Input)
    requires input.request.GenerateToken? && WithoutCredentials(deps, input.request.headers)
    ensures Step(deps, s, input) == (s, if input.request.token.Some? then Created else Failed)
  {
    hide ResolveAccountOrAdmin, WithoutCredentials;
    NobodyPassesIff(deps, input.request.headers, input.accounts, s.log, input.now, false, Some(Quota.ENROLLMENT_TOKEN_GENERATED));
  }

  /** The bearer of the key reads everything, may revoke anything, and issues what then is nobody's. */
  lemma AdminDoesEverything(deps: Deps, s: State, input: Input, h: Headers, accounts: Accounts.Rows, now: int, listed: seq<string>, records: seq<AuditRecord>, vcId: string)
    requires BearsKey(deps, h)
    ensures Reader(deps, s, h, accounts, now) == Ok(None)
    ensures ScopedVcs(s, None, listed) == listed && ScopedLog(s, None, records) == records && MayRevoke(s, None, vcId)
    ensures (input.request.IssueVc? && input.request.headers == h ==>
               Step(deps, s, input) == (s, if input.request.vcId.Some? then Created else Failed))
    ensures (input.request.GenerateToken? && input.request.headers == h ==>
               Step(deps, s, input) == (s, if input.request.token.Some? then Created else Failed))
  {
  }

  /** Issuing and making tokens are metered each by its own quota: a bearer that passes otherwise is refused exactly if the
      quota is set and the trailing day holds that many of the account's events of that kind. */
  lemma RoutesAreMetered(deps: Deps, s: State, input: Input, token: string, claims: AccessTokens.Claims)
    requires input.request.IssueVc? || input.request.GenerateToken?
    requires !BearsKey(deps, input.request.headers) && Bears(input.request.headers, token)
    requires AccessTokens.VerifyAccessToken(deps.runtime, deps.accessSecret, token, input.now) == Ok(claims)
    requires Accounts.UniqueIds(input.accounts) && HasVerified(input.accounts, claims.accountId)
    requires Quota.NotAfter(QuotaRows(s.log), input.now)
    requires |Quota.Matching(QuotaRows(s.log), Quota.VC_ISSUED, input.now - Quota.ONE_DAY_MS)| <= Quota.LIST_LIMIT
    requires |Quota.Matching(QuotaRows(s.log), Quota.ENROLLMENT_TOKEN_GENERATED, input.now - Quota.ONE_DAY_MS)| <= Quota.LIST_LIMIT
    ensures var (quota, eventType) := if input.request.IssueVc? then (deps.quotas.vcIssuance, "ACCOUNT_VC_ISSUED")
                                      else (deps.quotas.enrollmentTokens, "ACCOUNT_ENROLLMENT_TOKEN_GENERATED");
            Step(deps, s, input) == (s, Denied(AccountQuotaExceeded))
            <==> quota > 0 && Quota.WindowCount(QuotaRows(s.log), eventType, claims.accountId, input.now - 24 * 60 * 60 * 1000, input.now) >= quota
  {
    hide AccessTokens.VerifyAccessToken, HasVerified, BearsKey, Bears, ResolveAccountOrAdmin, QuotaRows, Quota.Matching, Quota.WindowCount;
    var event := if input.request.IssueVc? then Quota.VC_ISSUED else Quota.ENROLLMENT_TOKEN_GENERATED;
    BearerPassesIff(deps, input.request.headers, token, input.accounts, s.log, input.now, input.request.IssueVc?, Some(event));
    var quota := Quota.QuotaFor(deps.quotas, event);
    if quota > 0 {
      Quota.RefusedIffTrailingDayIsFull(quota, QuotaRows(s.log), event, claims.accountId, input.now);
    }
  }
}
