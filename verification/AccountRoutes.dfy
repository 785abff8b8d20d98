/** The hosted token, onboarding, credential and audit-log routes, over the three ownership tables. */
module AccountRoutes {
  import opened Common
  import opened AccountLinks
  import opened Lists
  import opened OwnershipModel
  import opened GuardTheorems
  import Accounts = AccountStore
  import AccessTokens
  import AuthModel
  import Quota

  class AccountRoutes {
    const deps: Deps
    const tokenLinks: AccountLinkRepository<Digest>
    const challengeLinks: AccountLinkRepository<string>
    const vcLinks: AccountLinkRepository<string>
    var log: seq<AuditRecord>

    ghost predicate Valid()
      reads this, tokenLinks, challengeLinks, vcLinks
    {
      && challengeLinks != vcLinks
      && tokenLinks.Valid() && challengeLinks.Valid() && vcLinks.Valid()
    }

    ghost function Contents(clock: int): State
      reads this, tokenLinks, challengeLinks, vcLinks
    {
      State(tokenLinks.owners, challengeLinks.owners, vcLinks.owners, log, clock)
    }

    constructor (deps: Deps, useSqlite: bool)
      ensures Valid() && Contents(0) == INITIAL && this.deps == deps
      ensures fresh(tokenLinks) && fresh(challengeLinks) && fresh(vcLinks)
    {
      this.deps := deps;
      tokenLinks := new AccountLinkRepository(useSqlite);
      challengeLinks := new AccountLinkRepository(useSqlite);
      vcLinks := new AccountLinkRepository(useSqlite);
      log := [];
    }

    /** POST /enrollment-tokens */
    method GenerateEnrollmentToken(input: Input) returns (r: Response)
      requires Valid() && input.request.GenerateToken?
      modifies this, tokenLinks
      ensures Valid()
      ensures (Contents(input.now), r) == Step(deps, old(Contents(input.now)), input)
      ensures WithoutCredentials(deps, input.request.headers) ==>
                r == (if input.request.token.Some? then Created else Failed) && Contents(input.now) == old(Contents(input.now))
    {
      hide ResolveAccountOrAdmin, WithoutCredentials, BearsKey;
      if WithoutCredentials(deps, input.request.headers) {
        NobodyMakesTokens(deps, Contents(input.now), input);
      }
      var resolved := ResolveAccountOrAdmin(deps, input.request.headers, input.accounts, log, input.now, false,
                                            Some(Quota.ENROLLMENT_TOKEN_GENERATED));
      if resolved.Err? {
        return Denied(resolved.error);
      }
      if input.request.token.None? {
        return Failed;
      }
      if resolved.value.Some? {
        var hash := Sha256(input.request.token.value);
        tokenLinks.Link(hash, resolved.value.value);
        log := log + [TokenGenerated(resolved.value.value, hash, input.now)];
      }
      r := Created;
    }

    /** POST /enroll */
    method Enroll(input: Input) returns (r: Response)
      requires Valid() && input.request.Enroll?
      modifies vcLinks
      ensures Valid()
      ensures (Contents(input.now), r) == Step(deps, old(Contents(input.now)), input)
    {
      var accountId := tokenLinks.GetAccountId(Sha256(input.request.bootstrapToken));
      if input.request.vcId.None? {
        return Failed;
      }
      if accountId.Some? {
        vcLinks.Link(input.request.vcId.value, accountId.value);
      }
      r := Created;
    }

    /** POST /onboard */
    method Onboard(input: Input) returns (r: Response)
      requires Valid() && input.request.Onboard?
      modifies challengeLinks
      ensures Valid()
      ensures (Contents(input.now), r) == Step(deps, old(Contents(input.now)), input)
    {
      var accountId := tokenLinks.GetAccountId(Sha256(input.request.enrollmentToken));
      if input.request.challengeId.None? {
        return Failed;
      }
      if accountId.Some? {
        challengeLinks.Link(input.request.challengeId.value, accountId.value);
      }
      r := Created;
    }

    /** POST /onboard/verify */
    method VerifyOnboarding(input: Input) returns (r: Response)
      requires Valid() && input.request.VerifyOnboarding?
      modifies vcLinks
      ensures Valid()
      ensures (Contents(input.now), r) == Step(deps, old(Contents(input.now)), input)
    {
      var accountId := challengeLinks.GetAccountId(input.request.challenge);
      if input.request.vcId.None? {
        return Failed;
      }
      if accountId.Some? {
        vcLinks.Link(input.request.vcId.value, accountId.value);
      }
      r := Created;
    }

    /** POST /vcs */
    method IssueVc(input: Input) returns (r: Response)
      requires Valid() && input.request.IssueVc?
      modifies this, vcLinks
      ensures Valid()
      ensures (Contents(input.now), r) == Step(deps, old(Contents(input.now)), input)
      ensures WithoutCredentials(deps, input.request.headers) ==>
                r == Denied(AdminAuthRequired) && Contents(input.now) == old(Contents(input.now))
    {
      hide ResolveAccountOrAdmin, WithoutCredentials, BearsKey;
      if WithoutCredentials(deps, input.request.headers) {
        NobodyPassesIff(deps, input.request.headers, input.accounts, log, input.now, true, Some(Quota.VC_ISSUED));
      }
      var resolved := ResolveAccountOrAdmin(deps, input.request.headers, input.accounts, log, input.now, true,
                                            Some(Quota.VC_ISSUED));
      if resolved.Err? {
        return Denied(resolved.error);
      }
      if input.request.vcId.None? {
        return Failed;
      }
      if resolved.value.Some? {
        vcLinks.Link(input.request.vcId.value, resolved.value.value);
        log := log + [VcIssued(resolved.value.value, input.request.vcId.value, input.now)];
      }
      r := Created;
    }

    /** POST /audit-log/events, and whatever else the services log. */
    method LogEvent(input: Input) returns (r: Response)
      requires Valid() && input.request.LogEvent?
      modifies this
      ensures Valid()
      ensures (Contents(input.now), r) == Step(deps, old(Contents(input.now)), input)
    {
      log := log + [input.request.record];
      r := Created;
    }

    /** GET /vcs, on what the core service listed. */
    method ListVcs(h: Headers, accounts: Accounts.Rows, now: int, listed: seq<string>) returns (r: Result<seq<string>, GuardError>)
      requires Valid()
      ensures match Reader(deps, Contents(now), h, accounts, now)
              case Err(e) => r == Err(e)
              case Ok(caller) => r == Ok(ScopedVcs(Contents(now), caller, listed))
      ensures WithoutCredentials(deps, h) ==> r == Err(AdminAuthRequired)
      ensures BearsKey(deps, h) ==> r == Ok(listed)
    {
      hide ResolveAccountOrAdmin, WithoutCredentials, BearsKey;
      if BearsKey(deps, h) {
        AdminKeyPasses(deps, h, accounts, log, now, true, None);
      }
      if WithoutCredentials(deps, h) {
        NobodyPassesIff(deps, h, accounts, log, now, true, None);
      }
      var resolved := ResolveAccountOrAdmin(deps, h, accounts, log, now, true, None);
      if resolved.Err? {
        return Err(resolved.error);
      }
      if resolved.value.None? {
        return Ok(listed);
      }
      var owned := vcLinks.ListKeysForAccount(resolved.value.value);
      var caller := resolved.value;
      ghost var s := Contents(now);
      var scoped: seq<string> := [];
      for i := 0 to |listed|
        invariant scoped == Filter(listed[..i], vcId => OwnerOf(s.credentials, vcId) == caller)
      {
        assert listed[..i + 1][..i] == listed[..i];
        if listed[i] in owned {
          scoped := scoped + [listed[i]];
        }
      }
      assert listed[..|listed|] == listed;
      r := Ok(scoped);
    }

    /** The check before POST /vcs/:vcId/revoke: a stranger's credential is not found. */
    method AuthorizeRevoke(h: Headers, accounts: Accounts.Rows, now: int, vcId: string) returns (r: Result<bool, GuardError>)
      requires Valid()
      ensures match Reader(deps, Contents(now), h, accounts, now)
              case Err(e) => r == Err(e)
              case Ok(caller) => r == Ok(MayRevoke(Contents(now), caller, vcId))
      ensures WithoutCredentials(deps, h) ==> r == Err(AdminAuthRequired)
      ensures BearsKey(deps, h) ==> r == Ok(true)
    {
      hide ResolveAccountOrAdmin, WithoutCredentials, BearsKey;
      if BearsKey(deps, h) {
        AdminKeyPasses(deps, h, accounts, log, now, true, None);
      }
      if WithoutCredentials(deps, h) {
        NobodyPassesIff(deps, h, accounts, log, now, true, None);
      }
      var resolved := ResolveAccountOrAdmin(deps, h, accounts, log, now, true, None);
      if resolved.Err? {
        return Err(resolved.error);
      }
      if resolved.value.Some? {
        var owner := vcLinks.GetAccountId(vcId);
        return Ok(owner == resolved.value);
      }
      r := Ok(true);
    }

    method IsAttributable(record: AuditRecord, accountId: string) returns (r: bool)
      requires Valid()
      ensures r == Attributable(Contents(0), record, accountId)
    {
      if record.accountId == Some(accountId) {
        return true;
      }
      if record.vcId.Some? && record.vcId.value != "" {
        var owner := vcLinks.GetAccountId(record.vcId.value);
        if owner == Some(accountId) {
          return true;
        }
      }
      if record.tokenIdHash.Some? {
        var owner := tokenLinks.GetAccountId(record.tokenIdHash.value);
        if owner == Some(accountId) {
          return true;
        }
      }
      r := false;
    }

    /** GET /audit-log, on what the log listed. */
    method ListAuditLog(h: Headers, accounts: Accounts.Rows, now: int, records: seq<AuditRecord>)
      returns (r: Result<seq<AuditRecord>, GuardError>)
      requires Valid()
      ensures match Reader(deps, Contents(now), h, accounts, now)
              case Err(e) => r == Err(e)
              case Ok(caller) => r == Ok(ScopedLog(Contents(now), caller, records))
      ensures WithoutCredentials(deps, h) ==> r == Err(AdminAuthRequired)
      ensures BearsKey(deps, h) ==> r == Ok(records)
    {
      hide ResolveAccountOrAdmin, WithoutCredentials, BearsKey;
      if BearsKey(deps, h) {
        AdminKeyPasses(deps, h, accounts, log, now, true, None);
      }
      if WithoutCredentials(deps, h) {
        NobodyPassesIff(deps, h, accounts, log, now, true, None);
      }
      var resolved := ResolveAccountOrAdmin(deps, h, accounts, log, now, true, None);
      if resolved.Err? {
        return Err(resolved.error);
      }
      if resolved.value.None? {
        return Ok(records);
      }
      var accountId := resolved.value.value;
      ghost var s := Contents(now);
      var scoped: seq<AuditRecord> := [];
      for i := 0 to |records|
        invariant scoped == Filter(records[..i], record => Attributable(s, record, accountId))
      {
        assert records[..i + 1][..i] == records[..i];
        var mine := IsAttributable(records[i], accountId);
        if mine {
          scoped := scoped + [records[i]];
        }
      }
      assert records[..|records|] == records;
      r := Ok(scoped);
    }
  }
}
