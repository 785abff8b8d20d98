# Helix: verified models of sessions, ownership, consent and codecs

This project models the logic of the Helix hosted instance and of its demo agents and service providers, and proves
what that logic keeps. Check it with `dafny verify dfyconfig.toml`.

Each part has a definition of what the code does (functions on values), the code's own form where it changes state
step by step (classes and methods, each proved equal to that definition), and theorems about the definition over
every input or every run.

**Accounts and sessions.** `AuthModel` gives each call of the authentication service (register, password and Google
login, refresh, logout, email verification, resend) as one atomic step on rows of accounts, DID records, issuer keys
and refresh tokens. Ids, token strings, salts and keys come from the environment and are never handed out twice; the
clock does not run back. `RefreshTokenStore`, `AccountStore` and `IssuerKeyStore` hold the two storage drivers of each
table, the map that scans and the table with unique columns, and the repository over them. `AuthService` is the
service itself over the repositories. `SessionChains`, `AuthInvariants`, `AuthSteps`, `AuthTheorems` and
`AccountTheorems` prove what every run keeps, `SessionTheorems`, `MailedTokens` and `SignIns` what the tokens, mails
and passwords handed out are good for over every later run; `AuthService.RunOnBothDrivers` that the drivers cannot be told apart.

**Quotas and ownership.** `Quota` has the check that reads the audit log and the record that lands on it later, as
separate steps. `AccountLinks`, `OwnershipModel` and `AccountRoutes` have the first-writer-wins tables, the guard and
the hosted routes that carry an account from an enrollment token to a challenge to a credential. `OwnershipTheorems`
reads ownership off the history of requests and shows that the tables say the same; `GuardTheorems` reads off the
headers who gets past the guard.

**Tokens and codecs.** `Base64Url`, `AccessTokens` (compact JWS, section 3.1 of RFC 7515; base64url, section 5 of
RFC 4648), `StatusList` (W3C Bitstring Status List v1.0, sections 3.3 and 3.4) and `EnvFile` (the setup script's
`.env` reader and writer).

**The travel agent.** `Calendar` is the Gregorian arithmetic of ECMAScript dates, `DatePhrases` the date phrases the
agent understands and the provider's booking window, `DateTexts` these phrases word by word, `MessageReading`
everything else it reads out of a message, `TripSlots` the slots, the questions and the request. `TripAnswers` and
`TripSuggestions` prove what a message does to the trip and that the answers offered with each question lead to a
search, `TripDirections` that the search is the trip the words described, `TripIntents` which messages search at all.

**Consent.** `ConsentGate` is a service provider, its handlers cut at each await so that calls and accepts interleave
freely; `ServiceProvider` is the same with its counters and store as fields; `ConsentTheorems` proves what the audit
trail, the counters and the store say in every interleaving, `GrantIndices` which schedules keep status-list indices
apart. `ConsentCall` is the agent's call, prompt and retry, and such a call served by the gate amid others.

**The concierge.** `Personas` (slugs and free ids); `Chat` and `ChatTheorems` (which history a turn belongs to, and
turns one after another); `ChatTurns`, `ChatSchedules` and `ChatStores` (turns cut at their two awaits, that overlap on
shared histories, and exactly what this breaks); `ScopeCatalogue` (the catalogue of the consent page and what a signed
grant needs).

Hashes are symbolic constructors, hence injective. HMAC, JSON and gzip are parameters; where a theorem needs that
decoding undoes encoding, it says so. The verification of a presentation is an input of the gate; the theorems about
standing grants state what they take from it (`ConsentCall.Honours`).

## Where the code and its promises part

- A Google login with a verified email overwrites the Google id that email's account had, exactly when no account has
  the new one (`AccountTheorems.GoogleIdChangesIff`, over runs `AccountTheorems.GoogleIdStaysIff`;
  `AccountTheorems.SecondGoogleLoginReplacesTheId` is such a login).
- A full listing of 100,000 rows undercounts, and a quota of 0 is no quota (`Quota.RefusedIff`).
- A date with an explicit year rolls one year only, so an older year is not searchable
  (`DatePhrases.YearfulDateIsSearchableIff`).
- Naming the destination again, alone, never answers the question where to fly from (`TripAnswers.OriginIsAnsweredIff`),
  so in a trip to Thiruvananthapuram the one origin offered is asked for again forever
  (`TripSuggestions.TappingHomeNeverEnds`); every other offered answer fills its slot
  (`TripSuggestions.SuggestionFillsIff`).
- A date's year is read as a nightly budget too, so the budget is never asked for after a date
  (`TripAnswers.DateSettlesTheBudgetIff`).
- Python reads and writes a status list at negative indices, counted from its end; the TypeScript reader refuses them
  (`StatusList.ReadersAgreeIff`).
- The `.env` writer replaces the first line of a key, the reader takes the last (`EnvFile.DefinedTwiceIsNoLens`); and a
  carriage return inside a line is a line start to the writer only (`EnvFile.LoneReturnIsNoLens`). When a write reads
  back as it should, for any file, is in `EnvFile.UpsertIsALensIff`.
- A grant whose write to disk fails is answered with an error and not counted, yet stays in the store
  (`ConsentTheorems.CountersAgree`).
- Overlapping accepts read the same status list and can store grants with one index
  (`ConsentTheorems.OverlappingAcceptsCanShareAnIndex`); a schedule rules that out exactly if each grant is recorded
  against a list that knows all grants stored before (`GrantIndices.IndicesStayApartIff`).
- A new grant can displace a standing one in the wallet's choice: a call prompts again exactly when the chosen grant
  does not cover its scope (`ConsentCall.StandingGrantSufficesIff`), also with a covering grant in the wallet
  (`ConsentCall.CoveringGrantCanStillPrompt`).
- A chat turn that throws leaves its unfinished messages in a stored history (`ChatTheorems.StoredKeepsShapesIff`).
- Chat turns that overlap share the stored array. A message pushed between another turn's tool call and its result
  separates them for good (`ChatSchedules.OverlappingVisitsBreakAStoredHistory`), and nothing else does
  (`ChatSchedules.PairedIffNothingIntrudes`). Of two overlapping first turns the later to return drops what the other
  stored (`ChatStores.OverlappingFirstTurnsDropAHistory`, exactly when: `ChatStores.StoredHistoryDroppedIff`).
- The catalogue lists `accept-terms` twice when a curated entry or a tool names it
  (`ScopeCatalogue.CatalogueIsTheUnion`).

## Model

| member | source | states |
|---|---|---|
| AuthTheorems.ChainsInEveryRun | src/services/auth/auth.service.ts:230-271 | over every run of calls, links lead to a later row of the same account, no row has two predecessors, a row with a successor is revoked, and a chain has at most one live row, its tip |
| SessionChains.OneLiveRowPerChain | src/services/auth/auth.service.ts:310-322 | a live row is the tip of its chain and the only live row in it |
| SessionChains.LinkedRowsShareRoot | src/services/auth/auth.service.ts:310-322 | a row has at most one predecessor, so linked rows share one root and chains never merge |
| SessionChains.RootLeadsToSameTip | src/services/auth/auth.service.ts:310-322 | from the root of a chain the links lead to the tip of every row in it |
| SessionChains.LinksLeadForward | src/services/auth/auth.service.ts:310-322 | a link leads to the one later row of the same account that bears its id |
| SessionChains.EffectKeepsChains | src/services/auth/auth.service.ts:237-253 | opening, rotating, closing and burning each keep the chain invariant |
| SessionChains.EffectKeepsLinks | src/services/auth/auth.service.ts:315-318 | the only link a step adds runs from the rotated row to the new last row |
| SessionChains.EffectKeepsKeys | src/repositories/drivers/refresh-token.drivers.ts:222-261 | no step changes the id, account or order of a row, and each adds at most one row |
| SessionChains.RevokeTouchesOneRow | src/repositories/drivers/refresh-token.drivers.ts:244-252 | revoking by id changes exactly the one row that bears it |
| AuthSteps.StepTokens | src/services/auth/auth.service.ts:230-271 | whatever the call, its effect on the token rows is one of the effects the chains allow, guarded as they require |
| AuthSteps.SessionOpens | src/services/auth/auth.service.ts:98-228 | a call that finds an owner opens exactly one session for it and logs it; one that finds none opens nothing |
| AuthSteps.RefusalOpensNothing | src/services/auth/auth.service.ts:98-228 | a sign-in that fails changes nothing but possibly the audit trail |
| AuthTheorems.TokensAreWriteOnce | src/repositories/drivers/refresh-token.drivers.ts:244-261 | over every run `revokedAt` and `replacedByTokenId` are each written at most once, although `revoke` overwrites |
| SessionChains.EffectSettles | src/repositories/drivers/refresh-token.drivers.ts:244-261 | one step never changes a row that is already revoked |
| AuthTheorems.ReuseBurnsTheAccount | src/services/auth/auth.service.ts:237-247 | presenting a revoked token fails, leaves its account with no live token and changes no other account and nothing else but the audit trail |
| AuthTheorems.SessionsBalance | src/services/auth/auth.service.ts:237-271 | over every run an account has as many live tokens as sessions opened less effective logouts since its last burn; rotation conserves the number |
| AuthTheorems.StepBalance | src/services/auth/auth.service.ts:230-271 | one call moves the live count and the audited balance alike |
| SessionChains.EffectCount | src/services/auth/auth.service.ts:253-266 | rotation keeps the live count, opening adds one, closing takes one, a burn leaves none |
| SessionTheorems.AnsweredTokenIsStored | src/services/auth/auth.service.ts:310-322 | every refresh token answered is the key of a new live row of its holder that expires after the configured days; the access token beside it carries the holder, the scope and the lifetime |
| SessionTheorems.RefreshTokenLives | src/services/auth/auth.service.ts:230-260 | whatever is called meanwhile, presenting it later is reuse exactly if it was rotated, logged out or burnt, else expired exactly from its expiry on, else rotated into a new pair of its holder |
| SessionTheorems.StepOnRow | src/services/auth/auth.service.ts:230-271 | a call takes a token's row out of use exactly if it rotates it, logs it out or burns its account |
| SessionTheorems.RefreshIsLogged | src/services/auth/auth.service.ts:237-260 | the trail names the account and the row that was presented |
| AuthTheorems.InvKept | src/services/auth/auth.service.ts:98-322 | every call keeps the whole invariant on accounts, DIDs, keys and tokens |
| AuthTheorems.InvAlways | src/services/auth/auth.service.ts:98-322 | the invariant holds after every run of calls |
| AccountTheorems.AccountsInEveryRun | src/services/auth/auth.service.ts:98-228 | over every run emails are normalised and unique, Google ids and DIDs are unique, every account has a password or a Google id, exactly one DID record and one key row stand behind its DID, and a verified account has no pending token |
| AccountTheorems.AccountsOnlyEvolve | src/repositories/account.repository.ts:76-104 | over every run no account disappears, changes identity or loses its Google id, its DID is never set again and its verification is never lost |
| AccountTheorems.GoogleIdChangesIff | src/services/auth/auth.service.ts:173-188 | the Google id an account has changes exactly in a Google login with its email, verified, under a Google id no account has |
| AccountTheorems.GoogleIdStaysIff | src/repositories/account.repository.ts:76-79 | over a whole run an account keeps its Google id exactly if no such login occurs in it |
| AccountTheorems.SecondGoogleLoginReplacesTheId | src/services/auth/auth.service.ts:173-188 | two Google logins with one verified email: the second id replaces the first |
| AccountTheorems.EmailsStay | src/repositories/account.repository.ts:76-104 | no call changes the email of an account |
| AuthInvariants.StepAccounts | src/services/auth/auth.service.ts:98-307 | each call adds one sound account, changes one in an allowed way, or leaves the accounts alone |
| AuthInvariants.AccountEffectKeepsInv | src/services/auth/auth.service.ts:98-307 | such an effect keeps the account invariant |
| AuthInvariants.GoogleEffect | src/services/auth/auth.service.ts:173-218 | a Google login finds, links or creates an account without breaking uniqueness |
| AuthInvariants.VerificationEffect | src/repositories/account.repository.ts:86-104 | setting or clearing the verification fields touches exactly one unverified account |
| AuthInvariants.DidsApart | src/services/auth/provision-issuer-did.ts:25-27 | different account ids give different issuer DIDs |
| AuthInvariants.NormalizedTwice | src/services/auth/auth.service.ts:325-327 | normalising an email is idempotent |
| AuthTheorems.StepIssuers | src/services/auth/provision-issuer-did.ts:29-62 | a DID record and a key row are added exactly when an account is created |
| AccountTheorems.TokenVerifiesAtMostOnce | src/services/auth/auth.service.ts:278-289 | an emailed token succeeds at most once over every run; later attempts fail as invalid |
| AccountTheorems.TokenDiesOnResend | src/services/auth/auth.service.ts:291-307 | after a resend the earlier token never succeeds again |
| AccountTheorems.VerificationProvesTheMailbox | src/services/auth/auth.service.ts:278-307 | over every run a token that verifies an account was mailed to that account's own address |
| AccountTheorems.FreshTokenIsMailed | src/services/auth/auth.service.ts:300-307 | a token left pending by a call was mailed, in that call, to the account it is pending for |
| AccountTheorems.SpentForever | src/services/auth/auth.service.ts:278-289 | a token that is out of use stays out of use |
| MailedTokens.MailsWhatIsAwaited | src/services/auth/auth.service.ts:300-307 | a call mails one token to the account it then makes await it for the configured hours, or mails nothing |
| MailedTokens.AwaitedTokenVerifiesIff | src/services/auth/auth.service.ts:278-289 | an awaited token verifies exactly its account exactly before its time is up; from then on it has expired and the accounts stay |
| MailedTokens.StepWaits | src/services/auth/auth.service.ts:278-307 | a call ends the wait exactly if it mails the account another token, verifies it by this one or by a Google login |
| MailedTokens.MailedTokenLives | src/services/auth/auth.service.ts:278-307 | from mailing to use, whatever is called meanwhile: invalid exactly if the wait was ended, else verified before, expired after the configured hours |
| SignIns.RegisterCreates | src/services/auth/auth.service.ts:98-133 | registering adds one unverified account with that password and answers what it is |
| SignIns.GoogleCreates | src/services/auth/auth.service.ts:191-226 | a first Google login adds one account without a password, verified as Google says, and answers what it is |
| SignIns.RegisteredPasswordLogsIn | src/services/auth/auth.service.ts:98-168 | over every later run a login with the email, however written, opens a session of that account exactly with the password it was registered with, and registering the email again is refused |
| SignIns.GoogleAccountHasNoPassword | src/services/auth/auth.service.ts:146-148 | over every later run an account made by a Google login takes no password |
| SignIns.UnknownEmailIsRefused | src/services/auth/auth.service.ts:138-145 | an email nobody registered signs nobody in |
| SignIns.FailedLoginIsLogged | src/services/auth/auth.service.ts:138-165 | a login is logged as what it came to, of the account of the email or of nobody |
| SignIns.GoogleSignsInIff | src/services/auth/auth.service.ts:170-190 | a Google login opens a session of the account with that Google id, else links the account of the email if Google has verified it, else is refused |
| SignIns.GoogleIdSignsInAgain | src/services/auth/auth.service.ts:170-228 | over every later run without a relinking login the Google id opens sessions of the same account, under whatever email |
| SignIns.EmailHoweverWritten | src/services/auth/auth.service.ts:325-327 | white space around an email and the case of its letters do not matter |
| RefreshTokenStore.InMemoryRefreshTokenStorageDriver.Create | src/repositories/drivers/refresh-token.drivers.ts:222-238 | the map holds the rows with the new one put under its hash |
| RefreshTokenStore.InMemoryRefreshTokenStorageDriver.FindByTokenHash | src/repositories/drivers/refresh-token.drivers.ts:240-242 | answers the row of that hash, or nothing |
| RefreshTokenStore.InMemoryRefreshTokenStorageDriver.RevokeById | src/repositories/drivers/refresh-token.drivers.ts:244-252 | the scan rewrites exactly the rows of the id, whatever they held |
| RefreshTokenStore.InMemoryRefreshTokenStorageDriver.RevokeEveryForAccount | src/repositories/drivers/refresh-token.drivers.ts:254-261 | the scan revokes exactly the live rows of the account |
| RefreshTokenStore.SqliteRefreshTokenStorageDriver.Create | src/repositories/drivers/refresh-token.drivers.ts:164-192 | inserts unless the id or the hash is taken |
| RefreshTokenStore.SqliteRefreshTokenStorageDriver.FindByTokenHash | src/repositories/drivers/refresh-token.drivers.ts:194-199 | answers the row of that hash, or nothing |
| RefreshTokenStore.SqliteRefreshTokenStorageDriver.RevokeById | src/repositories/drivers/refresh-token.drivers.ts:201-208 | the UPDATE gives the same rows as the map |
| RefreshTokenStore.SqliteRefreshTokenStorageDriver.RevokeEveryForAccount | src/repositories/drivers/refresh-token.drivers.ts:210-216 | the UPDATE gives the same rows as the map |
| RefreshTokenStore.RefreshTokenRepository.Create | src/repositories/refresh-token.repository.ts:53-59 | the drivers differ only where an id or a hash is already taken |
| RefreshTokenStore.RefreshTokenRepository.RevokeById | src/repositories/refresh-token.repository.ts:66-69 | both drivers give the same rows |
| RefreshTokenStore.RefreshTokenRepository.RevokeEveryForAccount | src/repositories/refresh-token.repository.ts:71-73 | both drivers give the same rows |
| RefreshTokenStore.RewriteIndexes | src/repositories/drivers/refresh-token.drivers.ts:244-261 | rewriting every value of the map is rewriting every row, as long as the hashes stay |
| AccountStore.InMemoryAccountStorageDriver.Create | src/repositories/drivers/account.drivers.ts:315-334 | puts the record under its id |
| AccountStore.InMemoryAccountStorageDriver.FindBy | src/repositories/drivers/account.drivers.ts:336-359 | the scan answers some matching row, or nothing if there is none |
| AccountStore.InMemoryAccountStorageDriver.ApplyUpdate | src/repositories/drivers/account.drivers.ts:361-368 | spreads the patch over the row of the id, with no uniqueness check |
| AccountStore.SqliteAccountStorageDriver.Create | src/repositories/drivers/account.drivers.ts:219-255 | inserts unless a unique column clashes |
| AccountStore.SqliteAccountStorageDriver.FindBy | src/repositories/drivers/account.drivers.ts:257-283 | answers some matching row, or nothing if there is none |
| AccountStore.SqliteAccountStorageDriver.SetClauses | src/repositories/drivers/account.drivers.ts:285-309 | the field-by-field UPDATE leaves the same row as spreading the patch |
| AccountStore.SqliteAccountStorageDriver.ApplyUpdate | src/repositories/drivers/account.drivers.ts:285-309 | updates the row, or refuses on a clash and leaves the table alone |
| AccountStore.SelectionIsLookup | src/repositories/drivers/account.drivers.ts:340-359 | where at most one row can match, any matching row is the one a lookup gives |
| AccountStore.AccountRepository.Create | src/repositories/account.repository.ts:53-61 | the drivers differ only on a clash of unique columns |
| AccountStore.AccountRepository.ApplyUpdate | src/repositories/account.repository.ts:76-104 | the drivers differ only on a clash of unique columns |
| IssuerKeyStore.InMemoryIssuerKeyStorageDriver.Create | src/repositories/drivers/issuer-key.drivers.ts:153-157 | puts the row under its account |
| IssuerKeyStore.SqliteIssuerKeyStorageDriver.Create | src/repositories/drivers/issuer-key.drivers.ts:122-140 | inserts unless the id, the account or the DID is taken |
| IssuerKeyStore.IssuerKeyRepository.Create | src/repositories/issuer-key.repository.ts:53-55 | the drivers differ only where the id, the account or the DID is taken |
| AuthService.AuthService.RegisterAccount | src/services/auth/auth.service.ts:98-133 | does the step the model gives, on either driver |
| AuthService.AuthService.LoginAccount | src/services/auth/auth.service.ts:135-168 | does the step the model gives, on either driver |
| AuthService.AuthService.LoginGoogle | src/services/auth/auth.service.ts:170-228 | does the step the model gives, on either driver |
| AuthService.AuthService.RefreshSession | src/services/auth/auth.service.ts:230-260 | does the step the model gives, on either driver |
| AuthService.AuthService.LogoutSession | src/services/auth/auth.service.ts:262-271 | does the step the model gives, on either driver |
| AuthService.AuthService.VerifyAccountEmail | src/services/auth/auth.service.ts:278-289 | does the step the model gives, on either driver |
| AuthService.AuthService.ResendVerification | src/services/auth/auth.service.ts:291-297 | does the step the model gives, on either driver |
| AuthService.AuthService.OpenSession | src/services/auth/auth.service.ts:310-322 | creates the token before it revokes and links the replaced one |
| AuthService.AuthService.MailVerification | src/services/auth/auth.service.ts:300-307 | stores a hashed, expiring token and mails the raw one, or does nothing without a sender |
| AuthService.AuthService.ProvisionIssuerDid | src/services/auth/provision-issuer-did.ts:29-62 | adds the DID record and then the key row |
| AuthService.AuthService.LinkGoogleAccount | src/services/auth/auth.service.ts:186-188 | links the Google id and verifies the email if it was not |
| AuthService.AuthService.CreateGoogleAccount | src/services/auth/auth.service.ts:195-216 | creates the account with its DID, verified if Google says so |
| AuthService.AuthService.Perform | src/services/auth/auth.service.ts:98-322 | any call is one step of the model and keeps the invariant |
| AuthService.NewcomerReady | src/services/auth/auth.service.ts:98-112 | what the service checked before creating is what the unique columns would enforce |
| AuthService.LinkIsSafe | src/services/auth/auth.service.ts:173-186 | linking a Google id nobody holds clashes with no row |
| AuthService.PerformOnBoth | src/repositories/drivers/account.drivers.ts:210-368 | the same call on a map-backed and a table-backed service answers alike and leaves equal rows |
| AuthService.RunOnBothDrivers | src/repositories/drivers/account.drivers.ts:210-368 | run for run the two give the same responses, the model's; no unique constraint ever fires |
| Quota.RefusedIff | src/services/auth/quota.ts:46-60 | for any log, refused exactly when the trailing day's events, less those a full listing cut off, reach the quota |
| Quota.RefusedIffTrailingDayIsFull | src/services/auth/quota.ts:46-60 | with a complete listing, refused exactly when the trailing day holds the quota |
| Quota.MatchingCountsTheWindow | src/services/auth/quota.ts:50-51 | counting the listed rows is counting the window |
| Quota.WindowsAreBounded | src/routes/vc/index.ts:116-136 | with at most K requests between check and record, every 24h window holds at most quota + K - 1 events of the account |
| Quota.StepKeepsBound | src/routes/vc/index.ts:116-136 | a check, a record, a failure or another row keeps every window within the bound |
| Quota.BoundIsAttained | src/routes/vc/index.ts:116-136 | for every quota and every K some run fills one day to that bound, so it cannot be lowered |
| Base64Url.DecodeOfEncode | src/services/auth/tokens.ts:32-38 | decoding gives back what was encoded, for every byte string |
| Base64Url.EncodedInAlphabet | src/services/auth/tokens.ts:32-34 | only letters, digits, - and _ occur: no dot and no padding |
| Base64Url.EncodedLength | examples/e2e-consent-demo-py/sp_shared/status_list.py:24-25 | four characters for three bytes, two or three for what is left over |
| Base64Url.PadAndDecodeOfEncode | examples/e2e-consent-demo-py/sp_shared/status_list.py:24-30 | Python puts back exactly the padding it stripped and decodes to the same bytes |
| Base64Url.DecodersAgree | examples/e2e-consent-demo-py/sp_shared/status_list.py:28-30 | on every text of digits the Python and Node decoders agree, except that Python refuses the lengths no encoder makes |
| Base64Url.EncodeIsInjective | src/services/auth/tokens.ts:32-34 | different bytes have different texts |
| Base64Url.DigitIsListed | examples/e2e-consent-demo-py/sp_shared/status_list.py:24-25 | the digits are those of the table of the standard |
| Base64Url.QuantumIsTheNumber | examples/e2e-consent-demo-py/sp_shared/status_list.py:24-25 | three bytes and their four digits are one number, most significant first |
| Text.SplitOfJoin | src/services/auth/tokens.ts:63-67 | splitting at dots gives back pieces that hold none |
| Text.JoinOfSplit | scripts/setup-hedera.ts:19 | splitting loses nothing and leaves no separator inside a piece |
| AccessTokens.SealedParts | src/services/auth/tokens.ts:55-59 | an issued token splits into exactly header, body and signature |
| AccessTokens.IssuedTokenLivesUntilExp | src/services/auth/tokens.ts:41-89 | for every account, scope, secret and ttl: the very claims issued before exp, expired from exp on |
| AccessTokens.OtherSecretAcceptsIff | src/services/auth/tokens.ts:62-76 | another secret refuses the token exactly unless it gives its text the same code |
| AccessTokens.AcceptedTokenIsSigned | src/services/auth/tokens.ts:62-76 | whatever verifies is two dot-free parts followed by their own code |
| AccessTokens.SessionCarriesItsAccount | src/services/auth/auth.service.ts:320-321 | the access token of an opened session carries that account, scope and lifetime |
| AccountLinks.AccountLinkRepository.Link | src/repositories/account-links.repository.ts:48-67 | the first link of a key stays, in the map and in the table |
| AccountLinks.AccountLinkRepository.GetAccountId | src/repositories/account-links.repository.ts:69-86 | answers the owner, or nothing |
| AccountLinks.AccountLinkRepository.ListKeysForAccount | src/repositories/account-links.repository.ts:88-104 | exactly the keys whose owner is the account |
| OwnershipTheorems.SessionBearerIsItsAccount | src/services/auth/account-or-admin-guard.ts:63-104 | the bearer token a session was opened with makes its holder that account while it lives and the email is verified |
| GuardTheorems.AdminKeyPasses | src/services/auth/account-or-admin-guard.ts:71-74 | the configured, non-empty key passes everywhere as nobody's account |
| GuardTheorems.NobodyPassesIff | src/services/auth/account-or-admin-guard.ts:99-103 | with neither the key nor a bearer token a request is denied exactly where authentication is required, and is nobody's elsewhere |
| GuardTheorems.BearerPassesIff | src/services/auth/account-or-admin-guard.ts:76-97 | a bearer passes exactly with a token that verifies, for a verified account, under the route's quota, and then as that account |
| GuardTheorems.WhoActsForEverybody | src/services/auth/account-or-admin-guard.ts:63-104 | where authentication is required only the bearer of the key, or of a token for an account without a name, acts for everybody |
| GuardTheorems.NobodyIsDenied | src/routes/vc/index.ts:73-171 | without credentials issuing, listing, the audit view and revoking are denied, and issuing changes nothing |
| GuardTheorems.NobodyMakesTokens | src/routes/agent/index.ts:40-84 | the enrollment-token route is open: what is made without credentials is nobody's |
| GuardTheorems.AdminDoesEverything | src/routes/vc/index.ts:73-171 | the bearer of the key sees and may revoke everything; what it makes is nobody's |
| GuardTheorems.RoutesAreMetered | src/services/auth/account-or-admin-guard.ts:86-94 | each of the two metered routes refuses a bearer exactly if its own quota is set and used up in the trailing day |
| OwnershipTheorems.TokensFollowHistory | src/routes/agent/index.ts:40-84 | an enrollment token belongs to the account of the first accepted bearer call that generated it |
| OwnershipTheorems.ChallengesFollowHistory | src/routes/agent/index.ts:110-127 | a challenge belongs to the owner of the token of the first onboarding answered with it |
| OwnershipTheorems.CredentialsFollowHistory | src/routes/agent/index.ts:86-146 | a credential belongs to whoever claimed it first by issuing, enrolling or verifying |
| OwnershipTheorems.CredentialBelongsToFirstClaim | src/routes/vc/index.ts:127-136 | a credential belongs to an account exactly if the first claim on it, read off the history, is that account's |
| OwnershipTheorems.CredentialProvenance | src/routes/agent/index.ts:67-139 | every credential of an account was issued by its bearer call or came from a token its bearer call generated, directly or through a challenge |
| OwnershipTheorems.OwnersNeverChange | src/repositories/account-links.repository.ts:48-67 | once owned, a token, challenge or credential keeps its owner over every later request |
| OwnershipTheorems.ScopedListing | src/routes/vc/index.ts:102-106 | an account's list is, in order, exactly the listed credentials it claimed first |
| OwnershipTheorems.ScopedAuditView | src/routes/audit-log/index.ts:390-410 | an account's view is, in order, exactly the records attributable to it |
| OwnershipTheorems.RevocableIffFirstClaimed | src/routes/vc/index.ts:157-174 | a bearer may revoke exactly the credentials its account claimed first |
| OwnershipTheorems.QuotaEventsAreSeenByTheirAccount | src/routes/audit-log/index.ts:390-410 | with fresh ids an account sees its own quota events and nobody else's |
| OwnershipTheorems.RoutesKeepTheQuota | src/services/auth/account-or-admin-guard.ts:79-97 | over every run of the routes every 24h window holds at most the daily quota of each account |
| Lists.FilterPicks | src/routes/audit-log/index.ts:409 | a filtered list is the passing elements at increasing positions |
| AccountRoutes.AccountRoutes.GenerateEnrollmentToken | src/routes/agent/index.ts:40-84 | does the step of the model; without credentials it makes a token that is nobody's |
| AccountRoutes.AccountRoutes.Enroll | src/routes/agent/index.ts:86-108 | does the step of the model |
| AccountRoutes.AccountRoutes.Onboard | src/routes/agent/index.ts:110-127 | does the step of the model |
| AccountRoutes.AccountRoutes.VerifyOnboarding | src/routes/agent/index.ts:129-146 | does the step of the model |
| AccountRoutes.AccountRoutes.IssueVc | src/routes/vc/index.ts:110-138 | does the step of the model; without credentials it is denied and changes nothing |
| AccountRoutes.AccountRoutes.ListVcs | src/routes/vc/index.ts:73-107 | the bearer of the admin key sees the list, a bearer the part that is its own, nobody else anything |
| AccountRoutes.AccountRoutes.AuthorizeRevoke | src/routes/vc/index.ts:157-171 | the bearer of the admin key may revoke anything, a bearer what it owns, nobody else anything |
| AccountRoutes.AccountRoutes.ListAuditLog | src/routes/audit-log/index.ts:373-410 | the bearer of the admin key sees the records, a bearer those attributable to it, nobody else anything |
| Calendar.PartsMakeTheDay | examples/e2e-consent-demo/agent/conversation.ts:100-102 | taking a day apart and putting it together gives the same day |
| Calendar.DateHasItsParts | examples/e2e-consent-demo/agent/conversation.ts:100-102 | a date of the Gregorian calendar is taken apart into exactly its year, month and date |
| Calendar.AddingDays | examples/e2e-consent-demo/agent/conversation.ts:111-121 | `setUTCDate(getUTCDate() + n)` moves on by n days over month and year ends |
| Calendar.OverflowStaysInYear | examples/e2e-consent-demo/agent/conversation.ts:136 | a day past the end of its month stays in its year |
| Calendar.SameDateNextYear | examples/e2e-consent-demo/agent/conversation.ts:138-140 | `setUTCFullYear(year + 1)` lands 365 or 366 days on, in the next year, unless the day exceeds its month |
| DatePhrases.ExtractDateInPlace | examples/e2e-consent-demo/agent/conversation.ts:105-145 | the step-by-step extraction gives the day the phrase names |
| DatePhrases.PrintedDayParses | examples/e2e-consent-demo/sp-shared/app.ts:848-855 | a printed day of a four-digit year reads back as that day |
| DatePhrases.YearlessPhraseIsNear | examples/e2e-consent-demo/agent/conversation.ts:110-143 | every phrase without an ISO date or year names a day from today to a year ahead |
| DatePhrases.YearlessDateIsSearchableIff | examples/e2e-consent-demo/sp-shared/app.ts:848-855 | whatever the message, a date read without an ISO date or year is one the provider searches that day, exactly if it is printed with a four-digit year |
| DatePhrases.NextWeekdayIsTheNextOne | examples/e2e-consent-demo/agent/conversation.ts:115-122 | "next friday" is the first such weekday after today, 1 to 7 days ahead |
| DatePhrases.MonthDayIsTheNextOne | examples/e2e-consent-demo/agent/conversation.ts:132-141 | a month day that exists every year is its first occurrence from today on |
| DatePhrases.YearfulDateIsSearchableIff | examples/e2e-consent-demo/agent/conversation.ts:135-140 | with a year in the message the date is searchable exactly under a condition on that year, because the roll is a single year |
| DateTexts.ExplicitDateIsRead | examples/e2e-consent-demo/agent/conversation.ts:106-107 | the first explicit date of a message is read as it stands, whatever else is said |
| DateTexts.TomorrowIsTheNextDay | examples/e2e-consent-demo/agent/conversation.ts:110-114 | "tomorrow" anywhere in a message without an explicit date is the day after today |
| DateTexts.NextWeekdayIsRead | examples/e2e-consent-demo/agent/conversation.ts:115-122 | "next" and a weekday's name is the first day after today that is whole weeks from a known such day |
| DateTexts.DayThenMonthIsRead | examples/e2e-consent-demo/agent/conversation.ts:125-143 | "15 Aug", "1st August 2027" in any case is that day of that month, and that year |
| DateTexts.MonthThenDayIsRead | examples/e2e-consent-demo/agent/conversation.ts:126-143 | "Aug 15", "August 1st 2027" in any case is that day of that month, and that year |
| DateTexts.SpelledDayIsTheNextOne | examples/e2e-consent-demo/agent/conversation.ts:132-142 | without a year it is the first such day from today on |
| DateTexts.SpelledYearIsKept | examples/e2e-consent-demo/agent/conversation.ts:135-142 | with a year it is that very day unless it has passed |
| DateTexts.PrintedDayIs | examples/e2e-consent-demo/agent/conversation.ts:100-102 | a printed day is its year, its month counted from 1 and its date |
| MessageReading.FirstCityAfterByScan | examples/e2e-consent-demo/agent/conversation.ts:69-86 | the scan over phrases and words gives the first city after the preposition |
| TripSlots.ExtractSlotsInOrder | examples/e2e-consent-demo/agent/conversation.ts:189-233 | field by field what the message says goes into the profile as the model says |
| TripSlots.ExtractionNeverEmptiesASlot | examples/e2e-consent-demo/agent/conversation.ts:189-233 | no message empties a filled slot |
| TripSlots.QuestionIsForAMissingSlot | examples/e2e-consent-demo/agent/conversation.ts:236-311 | what is asked is the first needed slot that is missing; nothing is asked exactly when all the search needs is there |
| TripSlots.AnswerMakesProgress | examples/e2e-consent-demo/agent/server.ts:212-261 | an answer that fills the slot asked for strictly lowers the missing count, and no message raises it |
| TripSlots.QuestionsEnd | examples/e2e-consent-demo/agent/server.ts:222-299 | as many responsive messages as slots are missing always reach a search |
| TripSlots.AtMostFiveQuestions | examples/e2e-consent-demo/agent/server.ts:222-299 | five responsive replies always reach a search |
| TripSlots.TripPlanner.Plan | examples/e2e-consent-demo/agent/server.ts:202-299 | one request reads its message, updates the profile of its token and asks or searches as the model says |
| TripAnswers.ReturnDateLandsOnTheReturnLeg | examples/e2e-consent-demo/agent/conversation.ts:215-221 | a date in any answer on the return leg that mentions no hotel sets the return date and leaves the departure date |
| TripAnswers.OriginIsAnsweredIff | examples/e2e-consent-demo/agent/conversation.ts:197-213 | any message answers the origin question exactly if it says "from" a city, or gives a lone city that is neither the destination nor a correction; otherwise the question stands |
| TripAnswers.OneWordReads | examples/e2e-consent-demo/agent/conversation.ts:43-96 | a one-word message in any case is a lone city exactly if it is one of the names, and never a direction |
| TripAnswers.CityNameAnswers | examples/e2e-consent-demo/agent/conversation.ts:201-213 | a city's name fills the destination when none is known, and the origin exactly if it is not the destination |
| TripAnswers.OneWordTells | examples/e2e-consent-demo/agent/conversation.ts:147-183 | what a one-word message says of travellers, airline and budget, and whether it means a hotel or the way back |
| TripAnswers.DateReads | examples/e2e-consent-demo/agent/conversation.ts:105-183 | all that is read out of a date given alone: the date, and its year as a nightly budget |
| TripAnswers.DateSettlesTheBudgetIff | examples/e2e-consent-demo/agent/conversation.ts:171-183 | a date from the year 1000 on settles the hotel budget, so that it is never asked for |
| TripSuggestions.PartyReads | examples/e2e-consent-demo/agent/conversation.ts:147-161 | any digit with "travellers" is read as that many |
| TripSuggestions.ThousandsAreBudget | examples/e2e-consent-demo/agent/conversation.ts:171-183 | an amount in thousands after words that are no budget words is read as that amount |
| TripSuggestions.OfferedDayIsADateIff | examples/e2e-consent-demo/agent/conversation.ts:251-317 | an offered day is a date exactly if its year has four digits, and is then read as itself on any day |
| TripSuggestions.SuggestionFillsIff | examples/e2e-consent-demo/agent/conversation.ts:236-311 | every offered answer given back fills the slot it was offered for, except exactly Thiruvananthapuram as the origin of a trip to it |
| TripSuggestions.TapsAreResponsive | examples/e2e-consent-demo/agent/conversation.ts:236-311 | any sequence of offered answers is responsive, unless the trip goes to the one city offered as origin |
| TripSuggestions.TappingReachesASearch | examples/e2e-consent-demo/agent/server.ts:202-299 | request by request, tapping offered answers as often as slots are missing ends in a search on the same leg |
| TripSuggestions.TappingHomeNeverEnds | examples/e2e-consent-demo/agent/conversation.ts:244-250 | in a trip to that city the offered origin is asked for again however often it is tapped |
| TripDirections.FromToIsRead | examples/e2e-consent-demo/agent/conversation.ts:69-96 | a message whose first "from" names one city and whose first "to" another is read as that origin and destination |
| TripDirections.RouteIsRead | examples/e2e-consent-demo/agent/conversation.ts:88-96 | "from X to Y" is read so for any names of two cities |
| TripDirections.WishIsRead | examples/e2e-consent-demo/agent/conversation.ts:57-67 | "I want to fly from X to Y" is read so too: the "to" of the verb is passed over |
| TripDirections.SearchIsForTheTrip | examples/e2e-consent-demo/agent/server.ts:266-299 | every search asks for the trip the request leaves: out from origin to destination on the departure date, back the other way on the return date, or a hotel at the destination within the budget, for the party |
| TripDirections.TappedSearchIsForTheTrip | examples/e2e-consent-demo/agent/server.ts:202-299 | so does the search that ends any sequence of tapped answers |
| TripDirections.TapKeepsRoute | examples/e2e-consent-demo/agent/conversation.ts:236-273 | once both ends are known no answer offered on the way out changes either |
| TripDirections.SaidRouteIsTaken | examples/e2e-consent-demo/agent/server.ts:202-299 | a message that says from X to Y is searched at once that way if nothing is missing, else the next question is asked |
| TripDirections.SaidRouteIsSearched | examples/e2e-consent-demo/agent/server.ts:202-299 | from there, tapping what is offered ends in the search from X to Y on the date the trip then has |
| TripIntents.NoOfferWithoutADigit | examples/e2e-consent-demo/agent/conversation.ts:389-396 | without a digit no offer is named and nothing is confirmed |
| TripIntents.NamedFlightIsBooked | examples/e2e-consent-demo/agent/conversation.ts:380-396 | a booking word and a flight number go to booking, whatever is missing and whatever was asked |
| TripIntents.BookHa733IsBooked | examples/e2e-consent-demo/agent/conversation.ts:380-388 | "Yes, book flight HA733" never searches again |
| TripIntents.BookReturnStartsGathering | examples/e2e-consent-demo/agent/conversation.ts:380-388 | "Book my return flight" starts gathering for the way back |
| TripIntents.PlanATripAsksWhereTo | examples/e2e-consent-demo/agent/conversation.ts:343-350 | "Plan a trip" asks where to, although it names no flight |
| StatusList.SetBitsChangesOneIndex | examples/e2e-consent-demo-py/sp_shared/status_list.py:39-49 | refused exactly out of reach; otherwise the bit has its value, every other bit and the length stay |
| StatusList.GetBitsReadsThePlace | examples/e2e-consent-demo-py/sp_shared/status_list.py:52-57 | reading gives the bit of the place the index stands for |
| StatusList.ReadIsTheBit | examples/revocation-check.ts:25 | shift and mask read the bit counted from the most significant one |
| StatusList.WithBitChangesOneBit | examples/e2e-consent-demo-py/sp_shared/status_list.py:45-48 | or with the mask sets, and with its complement clears, that bit alone |
| StatusList.ReadersAgreeIff | examples/revocation-check.ts:18-26 | TypeScript and Python read alike exactly unless the index is one Python counts from the end |
| StatusList.ListReadersAgreeIff | examples/revocation-check.ts:18-26 | on every encoded text the two readers agree exactly off that range, unreadable lists included |
| StatusList.WrittenBitReadsBack | examples/e2e-consent-demo-py/sp_shared/status_list.py:39-57 | through both codecs a written bit reads back in both languages and every other index reads as before |
| StatusList.NewListIsAllZero | examples/e2e-consent-demo-py/sp_shared/status_list.py:33-36 | a new list has ceil(n/8) bytes, reads zero everywhere and refuses indices past its end |
| StatusList.SameBits | examples/e2e-consent-demo-py/sp_shared/status_list.py:39-49 | a bit string is its length and its revoked indices |
| StatusList.RevokeAllRevokesThem | examples/e2e-consent-demo-py/sp_shared/status_list.py:39-49 | revoking a list of indices revokes exactly these beside the earlier ones |
| StatusList.RevocationOrderIsIrrelevant | examples/e2e-consent-demo-py/sp_shared/status_list.py:39-49 | the same revocations in any order give the same list |
| StatusList.SetBitInPlace | examples/e2e-consent-demo-py/sp_shared/status_list.py:41-48 | the write to the byte array gives the list of the model, or leaves it alone when refused |
| StatusList.SetBitByCopy | examples/e2e-consent-demo-py/sp_shared/status_list.py:39-49 | decoding, writing and encoding give the text of the model |
| EnvFile.ParseEnv | scripts/setup-hedera.ts:17-27 | the loop builds the map of the model |
| EnvFile.UpsertIsByLine | scripts/setup-hedera.ts:29-37 | for every file, replacing in the text or adding at its end is replacing from the match in one line, or adding one line |
| EnvFile.FindLineIsTheFirst | scripts/setup-hedera.ts:31-33 | the multi-line pattern finds the first place after a terminator, of whatever kind, that begins with the key, and nothing only if there is none |
| EnvFile.WholeLineIff | scripts/setup-hedera.ts:20-34 | a written body reads back as key and value exactly if nothing but white space is left around it in its line |
| EnvFile.UpsertGives | scripts/setup-hedera.ts:17-37 | what every key reads as after a write, for every file |
| EnvFile.WrittenLineReadsBack | scripts/setup-hedera.ts:20-24 | a written line parses to its key and value |
| EnvFile.QuotedValueReads | scripts/setup-hedera.ts:24 | a value in quotes reads as what stands between them, whatever that is |
| EnvFile.CommentDefinesNothing | scripts/setup-hedera.ts:20-21 | blank lines and comments, indented or not, define nothing whatever they hold |
| EnvFile.UpsertIsALensIff | scripts/setup-hedera.ts:17-37 | for every file, parsing after a write is the old parse with that key changed exactly when no line bears the key or the one matched is a whole line and the last to define it, or the value was there and the changed line reads on as before |
| EnvFile.DefinedOnceIsALens | scripts/setup-hedera.ts:17-37 | a key defined at most once is written where it counts exactly if the pattern matches a whole line or nothing |
| EnvFile.DefinedTwiceIsNoLens | scripts/setup-hedera.ts:31-34 | defined twice, the first line changes and the second still rules |
| EnvFile.LoneReturnIsNoLens | scripts/setup-hedera.ts:19-33 | a carriage return inside a line sends the write into the value of another key: an instance of the condition failing |
| EnvFile.UpsertIsIdempotent | scripts/setup-hedera.ts:29-37 | in every file, writing the same value twice is writing it once |
| EnvFile.EnsureKey | scripts/setup-hedera.ts:47-55 | a missing or empty key is generated once; map and file stay in step exactly as the lens says |
| ConsentTheorems.FiveTraces | examples/e2e-consent-demo/sp-shared/app.ts:316-554 | in every interleaving a scoped call has logged one of five traces, or its presentation alone while it waits; an open call has logged itself |
| ConsentTheorems.InvocationIsAuthorized | examples/e2e-consent-demo/sp-shared/app.ts:379-552 | a scoped invocation is preceded by that call's presentation, verification and grant, for a scope the verification gave |
| ConsentTheorems.CountersAgree | examples/e2e-consent-demo/sp-shared/app.ts:233-289 | denials are counted one for one, issued grants are the logged ones, and the store holds these, those still being written and those whose write failed |
| ConsentTheorems.RunKeepsBalance | examples/e2e-consent-demo/sp-shared/app.ts:347-522 | every step of every handler keeps counters, audit trail and store in balance |
| ConsentTheorems.CallsAreTraced | examples/e2e-consent-demo/sp-shared/app.ts:293-554 | every step of every handler keeps each call's trace in line with its progress |
| ConsentTheorems.RefusalsNameTheLack | examples/e2e-consent-demo/sp-shared/app.ts:330-530 | in every interleaving a call is refused for no presentation, no grant of this provider or an insufficient scope exactly when that is lacking, and runs only with both |
| ConsentTheorems.NoGrantOnAnIncompleteSelection | examples/e2e-consent-demo/sp-shared/app.ts:186-200 | in every interleaving a selection without agent, user or durability is rejected at once, and nothing is resolved or signed for it |
| ConsentTheorems.GrantIsAskedForIff | examples/e2e-consent-demo/sp-shared/app.ts:207-240 | a grant is asked for exactly when the catalogue came back and every required option is selected |
| ConsentTheorems.GrantsHaveTheirOwnIndex | examples/e2e-consent-demo/sp-shared/app.ts:236-262 | without overlapping accepts no two stored grants share a status-list index; an instance of the condition below |
| ConsentTheorems.OverlappingAcceptsCanShareAnIndex | examples/e2e-consent-demo/sp-shared/app.ts:236-262 | two overlapping accepts can store grants with one index |
| GrantIndices.IndicesStayApartIff | examples/e2e-consent-demo/sp-shared/app.ts:236-262 | for every schedule: no choice of free indices makes two stored grants share one, exactly if each grant is recorded against a list that knows every grant stored before |
| GrantIndices.Collide | examples/e2e-consent-demo/sp-shared/app.ts:236-262 | every other schedule has free indices that give two stored grants the same one |
| GrantIndices.OneAtATimeKnows | examples/e2e-consent-demo/sp-shared/app.ts:236-262 | signing one grant at a time is such a schedule |
| ConsentTheorems.ResumeDecides | examples/e2e-consent-demo/sp-shared/app.ts:395-553 | whatever happened meanwhile, a call is answered by its own tool, presentation and verification |
| ConsentTheorems.ReceiveDecides | examples/e2e-consent-demo/sp-shared/app.ts:316-372 | a call answered before its await needed no verification |
| ConsentTheorems.CallOutlastsOthers | examples/e2e-consent-demo/sp-shared/app.ts:316-395 | whatever other handlers do in any number of steps, a call waiting for its verification stays as it is |
| ServiceProvider.ServiceProvider.ReceiveToolCall | examples/e2e-consent-demo/sp-shared/app.ts:316-393 | does the step of the model up to the await |
| ServiceProvider.ServiceProvider.ResumeToolCall | examples/e2e-consent-demo/sp-shared/app.ts:397-553 | does the rest of the step |
| ServiceProvider.ServiceProvider.ResumeWithCatalogue | examples/e2e-consent-demo/sp-shared/app.ts:207-248 | collects the missing required scopes and asks for the grant only if there are none |
| ServiceProvider.ServiceProvider.ResumeWithGrant | examples/e2e-consent-demo/sp-shared/app.ts:236-262 | records grant and list, or fails |
| ServiceProvider.ServiceProvider.ResumeAfterFlush | examples/e2e-consent-demo/sp-shared/app.ts:264-288 | counts and logs the grant only after the write |
| ServiceProvider.SpStore.RecordGrant | examples/e2e-consent-demo/sp-shared/store.ts:56-60 | pushes the grant and replaces the list |
| ConsentCall.AgentWallet.Call | examples/e2e-consent-demo/agent/consentAwareCall.ts:130-197 | posts, prompts and stores as the model says |
| ConsentCall.OnePromptTwoPosts | examples/e2e-consent-demo/agent/consentAwareCall.ts:130-197 | at most two posts and one prompt; prompts exactly on CONSENT_REQUIRED; the wallet grows exactly by a prompted grant |
| ConsentCall.ResultIsTheLastAnswer | examples/e2e-consent-demo/agent/consentAwareCall.ts:80-197 | the call comes to what its last post was answered, or to a declined prompt, or to a missing credential; what each post carries |
| ConsentCall.OkOnlyIfGranted | examples/e2e-consent-demo/agent/consentAwareCall.ts:144-197 | ok on a scoped tool only if the last presentation verified for the scope and held this provider's grant |
| ConsentCall.StandingGrantSufficesIff | examples/e2e-consent-demo/agent/consentAwareCall.ts:134-146 | with a valid selected grant, one post and no prompt exactly when it covers the tool's scope |
| ConsentCall.FirstConsentCovers | examples/e2e-consent-demo/agent/consentAwareCall.ts:160-196 | after the first consent the retry succeeds and the wallet is covered |
| ConsentCall.CoveredNeverPromptsAgain | examples/e2e-consent-demo/agent/consentAwareCall.ts:134-146 | once covered, after any errands every call for that scope succeeds on one post without a prompt |
| ConsentCall.NarrowGrantCanBeChosen | examples/e2e-consent-demo/agent/consentAwareCall.ts:71-90 | one matching grant in force that does not cover the scope is enough: some way of choosing makes the call prompt |
| ConsentCall.CoveringGrantCanStillPrompt | examples/e2e-consent-demo/agent/consentAwareCall.ts:134-160 | whatever the way of choosing, with a grant for each of two scopes one of the two calls prompts, although the wallet holds a grant that covers it |
| ConsentCall.ServiceDecides | examples/e2e-consent-demo/sp-shared/app.ts:316-553 | a post served amid any other steps is answered by its own tool, presentation and verification, and its own steps move the consent counter once exactly if the answer is CONSENT_REQUIRED |
| ConsentCall.CoveredCallLeavesTheCounter | examples/e2e-consent-demo/sp-shared/app.ts:316-553 | once covered, after any errands and amid any other steps at the provider, a call succeeds on one post without a prompt and moves the consent counter not at all |
| ConsentCall.CounterMovesIffConsentRequired | examples/e2e-consent-demo/sp-shared/app.ts:461-522 | the consent counter moves exactly when the answer is CONSENT_REQUIRED |
| Personas.SlugIsAPersonaId | examples/e2e-travel-concierge-hosted/agent/server.ts:142-149 | for every name and every lower-casing the slug matches the route's pattern |
| Personas.SlugIsItsWords | examples/e2e-travel-concierge-hosted/agent/server.ts:142-149 | a slug is the words of the lower-cased name, all its letters and digits in order, with single dashes between |
| Personas.UniqueIdIsTakenIff | examples/e2e-travel-concierge-hosted/agent/server.ts:151-158 | a generated id is taken exactly when all 999 candidates and the time-stamped one are |
| Personas.GeneratedIdIsAccepted | examples/e2e-travel-concierge-hosted/agent/server.ts:166-180 | the generated path never answers 400, and with fewer than 999 personas never 409 |
| Personas.CandidatesAreDistinct | examples/e2e-travel-concierge-hosted/agent/server.ts:151-156 | the 999 candidates are distinct |
| Personas.DecimalReadsBack | examples/e2e-travel-concierge-hosted/agent/server.ts:154 | printed numbers read back, so they differ when the numbers do |
| Personas.PersonaRegistry.UniquePersonaId | examples/e2e-travel-concierge-hosted/agent/server.ts:151-158 | the loop gives the id of the model |
| Personas.PersonaRegistry.OnboardAgent | examples/e2e-travel-concierge-hosted/agent/server.ts:160-196 | answers the route's errors in order and registers the persona exactly on success, under the id it names if it names one |
| Personas.PersonaRegistry.AddPersona | examples/e2e-travel-concierge-hosted/personas/store.ts:54-60 | keeps every other entry of the manifest |
| Personas.PersonaRegistry.UpdatePersona | examples/e2e-travel-concierge-hosted/personas/store.ts:62-72 | changes exactly the entry of the manifest, or fails |
| Chat.KeyIsInjective | examples/e2e-travel-concierge-hosted/agent/chat/runChatTurn.ts:39 | different conversations or validated personas never share a key, whatever the conversation id holds |
| Chat.Conversations.RunChatTurn | examples/e2e-travel-concierge-hosted/agent/chat/runChatTurn.ts:38-79 | a turn that nothing overlaps stores and answers as the model says, other histories untouched, thrown turns included |
| Chat.Conversations.Exchange | examples/e2e-travel-concierge-hosted/agent/chat/runChatTurn.ts:45-78 | the bounded loop, uninterrupted, pushes the rounds of the model |
| ChatTheorems.TurnKeepsShapeIff | examples/e2e-travel-concierge-hosted/agent/chat/runChatTurn.ts:38-79 | a turn that nothing overlaps leaves a well-formed history well formed exactly when it returns |
| ChatTheorems.TurnSaysWhatHappened | examples/e2e-travel-concierge-hosted/agent/chat/runChatTurn.ts:38-79 | a turn pushes the message and then only what the model answered and what the tools made of its calls; its reply is the last text, or the apology after four calls |
| ChatTheorems.StoredKeepsShapesIff | examples/e2e-travel-concierge-hosted/agent/chat/runChatTurn.ts:40-50 | turn after turn the histories stay well formed unless one throws on a stored one; a throw in a new conversation leaves no trace |
| ChatTheorems.WellFormedIsPaired | examples/e2e-travel-concierge-hosted/agent/chat/runChatTurn.ts:45-75 | calls and results come in adjacent pairs of one id, at most four after a user message |
| ChatTheorems.ReturningVisitsKeepHistoriesPaired | examples/e2e-travel-concierge-hosted/agent/chat/runChatTurn.ts:38-79 | over any visits one after another that return, every stored history is paired |
| ChatTurns.ChatServer.StartTurn | examples/e2e-travel-concierge-hosted/agent/chat/runChatTurn.ts:38-46 | does the step of the model up to the first await |
| ChatTurns.ChatServer.ResumeTurn | examples/e2e-travel-concierge-hosted/agent/chat/runChatTurn.ts:46-66 | goes on with what the model answered up to the next await, as the model says |
| ChatTurns.ChatServer.FinishCall | examples/e2e-travel-concierge-hosted/agent/chat/runChatTurn.ts:66-78 | goes on with what the tool returned up to the next await, as the model says |
| ChatTurns.StepKeepsValid | examples/e2e-travel-concierge-hosted/agent/chat/runChatTurn.ts:38-79 | every step keeps the arrays of turns and map in place and each turn within its rounds |
| ChatSchedules.PairedIffNothingIntrudes | examples/e2e-travel-concierge-hosted/agent/chat/runChatTurn.ts:38-79 | for every schedule of overlapping turns an array is paired exactly if nothing was pushed to it between another turn's call and its result, and no call is left without one |
| ChatSchedules.StoredHistoriesPairedIff | examples/e2e-travel-concierge-hosted/agent/chat/runChatTurn.ts:54-75 | when every turn has returned, the stored histories are paired exactly if no such push hit one of them |
| ChatSchedules.OverlappingVisitsBreakAStoredHistory | examples/e2e-travel-concierge-hosted/agent/chat/runChatTurn.ts:41-66 | two visits that overlap at a tool call both return and leave a stored history unpaired |
| ChatStores.RunKeepsApart | examples/e2e-travel-concierge-hosted/agent/chat/runChatTurn.ts:39-50 | however turns overlap, two keys never share an array |
| ChatStores.StoredHistoryDroppedIff | examples/e2e-travel-concierge-hosted/agent/chat/runChatTurn.ts:40-50 | for every schedule a stored history gives way to another exactly if two turns of its key that held different arrays return |
| ChatStores.OverlappingFirstTurnsDropAHistory | examples/e2e-travel-concierge-hosted/agent/chat/runChatTurn.ts:40-50 | two overlapping first turns: what the first said is no longer stored |
| ChatStores.AtMostFourCallsAMessage | examples/e2e-travel-concierge-hosted/agent/chat/runChatTurn.ts:45-75 | however turns overlap, no history holds more than four calls for each user message |
| ChatStores.DriveRounds | examples/e2e-travel-concierge-hosted/agent/chat/runChatTurn.ts:45-78 | a turn that nothing overlaps, step by step, comes to the rounds of the model |
| ChatStores.TurnAlone | examples/e2e-travel-concierge-hosted/agent/chat/runChatTurn.ts:38-79 | a whole turn that nothing overlaps stores and replies as the model of one turn says |
| ChatStores.VisitsOneByOne | examples/e2e-travel-concierge-hosted/agent/chat/runChatTurn.ts:38-79 | visits one after another are a run of the overlapping machine and leave the same histories |
| ScopeCatalogue.CatalogueIsTheUnion | examples/e2e-consent-demo-py/sp_shared/resolve_scopes.py:37-90 | the named scopes once each in first-seen order with the curated required flag, then the terms; each once exactly if nobody named the terms |
| ScopeCatalogue.ToolsNeverRequire | examples/e2e-consent-demo-py/sp_shared/resolve_scopes.py:61-75 | no tool changes what is required |
| ScopeCatalogue.CatalogueSays | examples/e2e-consent-demo-py/sp_shared/resolve_scopes.py:60-81 | an option is called what was said last of its scope, by entries and then tools, or else the words of the scope; its description is what was said last |
| ScopeCatalogue.UnreachableIsNoTools | examples/e2e-consent-demo-py/sp_shared/resolve_scopes.py:52-59 | an unreachable tool server gives the catalogue of no tools |
| ScopeCatalogue.SignedIffRequiredAreSelected | examples/e2e-consent-demo-py/sp_shared/app.py:125-159 | a grant is asked for exactly if the selection has the terms and every curated required scope, whatever the tools say |
| ScopeCatalogue.ResolveByLoops | examples/e2e-consent-demo-py/sp_shared/resolve_scopes.py:43-90 | the two loops over the dict give the catalogue of the model |
| Text.ReplaceRunsReplaces | examples/e2e-travel-concierge-hosted/agent/server.ts:143-146 | after the replacement nothing of the kind is left but marks, and no two in a row |
| ScopeCatalogue.HumanizedIsWords | examples/e2e-consent-demo-py/sp_shared/resolve_scopes.py:20-21 | a made-up label is words apart by single blanks |
| ScopeCatalogue.HumanizedIsItsWords | examples/e2e-consent-demo-py/sp_shared/resolve_scopes.py:20-21 | it is the words of the scope in order |
| Text.ReplaceRunsKeepsWords | examples/e2e-travel-concierge-hosted/agent/server.ts:143-146 | replacing runs of what lies between words changes no word |
| Text.WordsAreJoined | examples/e2e-travel-concierge-hosted/agent/server.ts:143-146 | a text with single marks between its words is its words joined |

## Left out

- The Postgres drivers' SQL text; they have the unique columns of the SQLite ones.
- Cryptography and compression themselves (argon2, SHA-256, HMAC, Ed25519, AES-GCM key custody, gzip).
- JSON and UTF-8 encoding; strings are sequences of characters, and lower-casing covers ASCII letters.
- Overlapping calls of the authentication service and storage failures between its writes; each call is one step.
- Records that the in-memory drivers return are values here; that a caller could change a stored row through them is
  not captured.
- Payload details of audit events, beyond the fields that quotas, ownership and traces read.
- The order in which a repository lists the keys of an account; its callers only build a set of them.
- The self-hosted configuration without accounts, where issuing and listing need the admin key.
- Filters and limits of the credential and audit listings; what the core service listed is an input.
- AccountRoutes.AccountRoutes.AuthorizeRevoke: covers the decision before the revocation, not the revocation itself.
- The wording of questions and recaps; amounts too large for a double.
- What the handler does after a departure date that is no date, such as 2026-99-99: it fails on the way home; the model
  offers no answer there.
- DatePhrases.YearlessDateIsSearchableIff: not on a clock in the years 0 to 99, which `Date.UTC` takes for 1900 to 1999.
- DatePhrases.YearlessPhraseIsNear: the same years, for a day of a month.
- DatePhrases.MonthDayIsTheNextOne: the same years.
- DatePhrases.YearfulDateIsSearchableIff: the same years.
- Base64Url.DecodersAgree: for texts of digits only; Python's decoder drops foreign characters where this model refuses
  them.
- StatusList.ListReadersAgreeIff: the same texts.
- StatusList.WrittenBitReadsBack: for indices from 0 on; what negative ones do is in the lemmas on bits.
- EnvFile.UpsertIsALensIff: any file, but not values with a line feed, a dollar sign, outer white space or outer
  quotes, nor keys that mean something else in a pattern or in a JavaScript object.
- EnvFile.UpsertIsIdempotent: any file, but not values with a line terminator or a dollar sign.
- How a grant's status-list index is chosen; the model only takes that it is free in the list it was chosen with.
- ConsentCall.CoveredNeverPromptsAgain: takes credentials in force to stay in force; revocation and expiry change the
  set the verifier honours.
- Selections whose scopes are not a list, which the accept route also rejects.
- What tools return, and the bookings they make.
- Two processes writing one persona manifest; a write merges into what is on disk.
- Personas.PersonaRegistry.OnboardAgent: one step; that onboardings overlap between the check, the enrollment and the
  write is not modelled.
- Requests of the ownership routes that overlap between reading an owner and linking; each request is one step.
- `Quota.List` takes it that a full listing holds the newest rows; the core service decides that.
- Personas.GeneratedIdIsAccepted: says nothing about the free id with 999 or more personas; UniqueIdIsTakenIff does.
- The language model, its prompts, and the fallback of the planner; replies are inputs.
- Catalogue entries that are not objects, and labels that are neither text nor null.
- HTTP plumbing, cookies, pages and browser code, seeders and verification scripts.
- `did:web` resolution of account DIDs: account ids hold ':' and are split by it.
