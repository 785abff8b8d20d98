/** Which account a hosted call acts for, and what the token, onboarding and credential routes
    write to the ownership tables and the audit log. */
module OwnershipModel {
  import opened Common
  import opened AccountLinks
  import opened Lists
  import Accounts = AccountStore
  import AccessTokens
  import Quota

  // ---- The guard ---------------------------------------------------------------------------

  datatype Deps = Deps(
    runtime: AccessTokens.Runtime,
    accessSecret: string,
    adminApiKey: Option<string>,
    quotas: Quota.Quotas)

  datatype Headers = Headers(adminApiKey: Option<string>, authorization: Option<string>)

  datatype GuardError = AdminAuthRequired | EmailNotVerified | AccountQuotaExceeded | BadToken(error: AccessTokens.TokenError)

  /** An audit row, as far as ownership and quotas read it. */
  datatype AuditRecord = AuditRecord(
    eventType: string,
    accountId: Option<string>,
    vcId: Option<string>,
    tokenIdHash: Option<Digest>,
    at: int)

  const BEARER := "Bearer "

  /** The token after "Bearer "; an empty one is none. */
  function BearerToken(h: Headers): Option<string> {
    match h.authorization
    case Some(value) =>
      if BEARER < value then Some(value[|BEARER|..]) else None
    case None => None
  }

  function QuotaRows(log: seq<AuditRecord>): seq<Quota.Row> {
    seq(|log|, i requires 0 <= i < |log| => Quota.Row(log[i].eventType, log[i].accountId, log[i].at))
  }

  predicate IsAdmin(deps: Deps, h: Headers) {
    deps.adminApiKey.Some? && deps.adminApiKey.value != "" && h.adminApiKey == deps.adminApiKey
  }

  predicate IsVerified(accounts: Accounts.Rows, accountId: string) {
    var account := Accounts.Lookup(accounts, Accounts.ById(accountId));
    account.Some? && account.value.emailVerifiedAt.Some?
  }

  /** The admin key wins and names no account; then a bearer token, verified and under its quota
      (if the route counts an event); then nobody, where the route allows it. */
  function ResolveAccountOrAdmin(
      deps: Deps, h: Headers, accounts: Accounts.Rows, log: seq<AuditRecord>, now: int,
      requireAuth: bool, eventType: Option<string>): Result<Option<string>, GuardError>
  {
    if IsAdmin(deps, h) then Ok(None)
    else
      match BearerToken(h)
      case Some(token) =>
        (match AccessTokens.VerifyAccessToken(deps.runtime, deps.accessSecret, token, now)
         case Err(e) => Err(BadToken(e))
         case Ok(claims) =>
           if !IsVerified(accounts, claims.accountId) then Err(EmailNotVerified)
           else if eventType.Some? && Quota.Refused(Quota.QuotaFor(deps.quotas, eventType.value), QuotaRows(log),
                                                    eventType.value, claims.accountId, now)
           then Err(AccountQuotaExceeded)
           else Ok(if claims.accountId == "" then None else Some(claims.accountId)))
      case None => if requireAuth then Err(AdminAuthRequired) else Ok(None)
  }

  // ---- The routes --------------------------------------------------------------------------

  /** A write request and what the core service answered: the new id, or nothing if it threw. */
  datatype Request =
    | GenerateToken(headers: Headers, token: Option<string>)
    | Enroll(bootstrapToken: string, vcId: Option<string>)
    | Onboard(enrollmentToken: string, challengeId: Option<string>)
    | VerifyOnboarding(challenge: string, vcId: Option<string>)
    | IssueVc(headers: Headers, vcId: Option<string>)
    | LogEvent(record: AuditRecord)

  /** The clock and the account table at the moment of the request. */
  datatype Input = Input(request: Request, accounts: Accounts.Rows, now: int)

  datatype State = State(
    tokens: Owners<Digest>,
    challenges: Owners<string>,
    credentials: Owners<string>,
    log: seq<AuditRecord>,
    clock: int)

  const INITIAL := State(map[], map[], map[], [], 0)

  datatype Response = Denied(error: GuardError) | Failed | Created

  function TokenGenerated(accountId: string, hash: Digest, now: int): AuditRecord {
    AuditRecord(Quota.ENROLLMENT_TOKEN_GENERATED, Some(accountId), None, Some(hash), now)
  }

  function VcIssued(accountId: string, vcId: string, now: int): AuditRecord {
    AuditRecord(Quota.VC_ISSUED, Some(accountId), Some(vcId), None, now)
  }

  function Guard(deps: Deps, s: State, input: Input): Result<Option<string>, GuardError>
    requires input.request.GenerateToken? || input.request.IssueVc?
  {
    var event := if input.request.IssueVc? then Quota.VC_ISSUED else Quota.ENROLLMENT_TOKEN_GENERATED;
    ResolveAccountOrAdmin(deps, input.request.headers, input.accounts, s.log, input.now, input.request.IssueVc?, Some(event))
  }

  function GenerateTokenStep(deps: Deps, s: State, input: Input): (State, Response)
    requires input.request.GenerateToken?
  {
    match Guard(deps, s, input)
    case Err(e) => (s, Denied(e))
    case Ok(accountId) =>
      if input.request.token.None? then (s, Failed)
      else if accountId.None? then (s, Created)
      else
        var hash := Sha256(input.request.token.value);
        (s.(tokens := Linked(s.tokens, hash, accountId.value),
            log := s.log + [TokenGenerated(accountId.value, hash, input.now)]),
         Created)
  }

  function IssueVcStep(deps: Deps, s: State, input: Input): (State, Response)
    requires input.request.IssueVc?
  {
    match Guard(deps, s, input)
    case Err(e) => (s, Denied(e))
    case Ok(accountId) =>
      if input.request.vcId.None? then (s, Failed)
      else if accountId.None? then (s, Created)
      else
        var vcId := input.request.vcId.value;
        (s.(credentials := Linked(s.credentials, vcId, accountId.value),
            log := s.log + [VcIssued(accountId.value, vcId, input.now)]),
         Created)
  }

  /** The owner, if any, of what was presented becomes the owner of what was made. */
  function PassOn<K, L>(from: Owners<K>, presented: K, to: Owners<L>, made: L): Owners<L> {
    if presented in from then Linked(to, made, from[presented]) else to
  }

  function Step(deps: Deps, s: State, input: Input): (State, Response) {
    match input.request
    case GenerateToken(_, _) => GenerateTokenStep(deps, s, input)
    case IssueVc(_, _) => IssueVcStep(deps, s, input)
    case Enroll(token, vcId) =>
      if vcId.None? then (s, Failed)
      else (s.(credentials := PassOn(s.tokens, Sha256(token), s.credentials, vcId.value)), Created)
    case Onboard(token, challengeId) =>
      if challengeId.None? then (s, Failed)
      else (s.(challenges := PassOn(s.tokens, Sha256(token), s.challenges, challengeId.value)), Created)
    case VerifyOnboarding(challengeId, vcId) =>
      if vcId.None? then (s, Failed)
      else (s.(credentials := PassOn(s.challenges, challengeId, s.credentials, vcId.value)), Created)
    case LogEvent(record) => (s.(log := s.log + [record]), Created)
  }

  function Next(deps: Deps, s: State, input: Input): State {
    Step(deps, s, input).0.(clock := input.now)
  }

  /** The state after the first `n` requests of a run. */
  function After(deps: Deps, run: seq<Input>, n: nat): State
    requires n <= |run|
  {
    if n == 0 then INITIAL else Next(deps, After(deps, run, n - 1), run[n - 1])
  }

  // ---- The reading routes ---------------------------------------------------------------------

  /** Whom a listing or a revocation acts for. */
  function Reader(deps: Deps, s: State, h: Headers, accounts: Accounts.Rows, now: int): Result<Option<string>, GuardError> {
    ResolveAccountOrAdmin(deps, h, accounts, s.log, now, true, None)
  }

  /** Everyone but a bearer of an account revokes anything; that bearer only what is linked to it. */
  predicate MayRevoke(s: State, caller: Option<string>, vcId: string) {
    caller.None? || OwnerOf(s.credentials, vcId) == caller
  }

  /** Why a record is the account's: it says so, or its credential or its token belongs to it. */
  predicate Attributable(s: State, record: AuditRecord, accountId: string) {
    || record.accountId == Some(accountId)
    || (record.vcId.Some? && record.vcId.value != "" && OwnerOf(s.credentials, record.vcId.value) == Some(accountId))
    || (record.tokenIdHash.Some? && OwnerOf(s.tokens, record.tokenIdHash.value) == Some(accountId))
  }

  function ScopedVcs(s: State, caller: Option<string>, listed: seq<string>): seq<string> {
    if caller.None? then listed else Filter(listed, vcId => OwnerOf(s.credentials, vcId) == caller)
  }

  function ScopedLog(s: State, caller: Option<string>, records: seq<AuditRecord>): seq<AuditRecord> {
    if caller.None? then records else Filter(records, r => Attributable(s, r, caller.value))
  }
}
