# Credbound, modelled and proved in Dafny

Credbound is an authentication and authorization library: accounts with passwords and second
factors, server-side sessions, an OAuth authorization server, workspace roles, directory
provisioning and a tamper-evident audit log. This project models its stateful protocols and
its closed algorithms and proves, for every input and every run, what they are for.

`dafny verify dfyconfig.toml` checks the whole project.

## What is modelled

**OAuth grants, codes and tokens.** `OAuthRecords` holds the records and the store's value,
`OAuthSpec` what each store operation does to it, and `OAuthStore` the in-memory store
itself: maps updated in place with loops, a snapshot before and a rollback after a failed
hook, each method proved against its specification. `OAuthProtocol` is the interleaved
system: every exchange, refresh, revocation and bearer check is a sequence of separate store
accesses with a program counter between them, and any other call, consent or administrative
operation may run in between. A run is a sequence of events; a state is reachable if a run
leads to it from the empty store. `OAuthInvariant` and `OAuthPreservation` hold the inductive
invariant (one grant has one code, hence at most one refresh family; identifiers held by
calls in flight are in no record yet; each family is one chain), `OAuthTheorems` the
consequences over whole runs, `OAuthEffects` what each disablement and revocation reaches,
record by record, and that it is final, `OAuthSolo` what a call does undisturbed,
`OAuthLifetimes` what the codes and tokens handed out are good for and for how long, and
`OAuthRace` that the one race a revocation can lose does occur. `OAuthIndex` and `OAuthRegistry` show that every
lookup index is an exact inverse of its record map, also while client metadata is refetched,
`OAuthRegistrations` what bounds dynamic registration, and `OAuthDisablement` what enables a
disabled client again.

**Passwords and sessions.** `SignIn` is AuthenticatePassword, one store access at a time and
as the method with its retry loop, against a store that may hold anything at each access.
`PasswordSessions` interleaves any number of sign-ins, rehashes, changes, resets, second
factors and session creations. Hashing is abstract: a hash encodes one password, and a
fingerprint is any function of the hash. Where a theorem needs fingerprints to differ, the
alternative is two hashes that the system actually stored and that share one. `Lockout` is
the throttle behind every guessing surface, and `SessionIdle` the sliding idle window.

**Roles.** `RoleCatalog` is the meaning of a configuration: what inheritance reaches.
`RoleCompiler` is the memoised depth-first compiler with its visiting set, `RoleBuilder` the
whole build and what every accepted catalog guarantees. Maps are iterated in any order, so
each result holds for every order.

**Audit chain.** `AuditEncoding` is the length-prefixed text an event is hashed as,
`AuditChain` appending, verification from a checkpoint, and what a head vouches for. The hash
function is any function with 32-byte results; nothing assumes it injective.

**Smaller algorithms.** `Uuid` and `Ids` (UUIDv7 generation under any clock), `Base64Url` and
`Tokens` (printers and parsers), `ScimRoles` (directory roles and their incremental
recomputation), `Replay` (the pruned replay cache).

Where the code does less than one might expect of it, the model keeps the code and the exact
condition is proved:

- The stores start a new failure window after an expired lockout (memory/store.go:537-567), so
  the wrong guesses answered by time t are at most N(1 + (t - tN)/D) and not N + (t - tN)/D.
  `Lockout.CountingBoundIff` says when the smaller bound holds.
- Whether a directory role is found can depend on the order in which the groups are listed
  (scim.go:744-763). `ScimRoles.EveryListingSucceedsIff` and `ScimRoles.NoListingSucceedsIff`
  say when it does not.
- The replay cache reads its clock before it takes its lock
  (oauthclientadapter/replay.go:33-34), and joins its key with a NUL. `Replay.ClockOrderIff` and
  `Replay.SharedKeyIff` say when it still answers as the full history would.
- A session validation that read the session before a revocation can succeed after it
  (session.go:185-190); `SessionIdle.FinishAfterRevocationIff` says which.
- An exchange that has read its grant can commit after the grant is revoked
  (memory/oauth.go:687-701). `OAuthTheorems.IssuesAfterRevocationIff` says which event does it,
  `OAuthTheorems.RevokedGrantIssuesIff` which continuations have one, and
  `OAuthTheorems.RevokedGrantIssuesAtMostOnce` how much that is.
- A metadata document that is fetched again is stored as an enabled client, also when an
  administrator has disabled it (oauth.go:902-928). `OAuthDisablement.EnabledAgainIff` says
  which events enable a client; registered clients stay disabled
  (`OAuthDisablement.DisabledUntilEnabled`).
- A session's stamp is written without comparing it with the stored one
  (memory/store.go:1651), so a stalled validation moves it back;
  `SessionIdle.LagInFlightIff`.
- Enabling a client again is not counted against the limit of open registration
  (memory/oauth.go:368-396); `OAuthRegistrations.LimitExceededIff`.
- Verification reads the audit stream and the head one after the other (audit.go:94-107);
  `AuditChain.HonestLogVerifiesIff`.
- The report of a verification is not always a checkpoint for the next one (audit.go:85-87);
  `AuditChain.ReportIsCheckpointIff`.

Texts are sequences of characters standing for bytes. Times are unbounded integers in
nanoseconds, and counters are unbounded unless a width is stated.

## Model

| member | source | states |
|---|---|---|
| `OAuthRecords.ClientKeyInjective` | memory/oauth.go:910-912 | the composite client key determines issuer and client_id, for any client_id, also one holding a NUL |
| `OAuthStore.RevokeOneMore` | memory/oauth.go:641-661 | revoking one more grant after a set of them is revoking the larger set: earlier stamps are kept |
| `OAuthStore.Store.constructor` | memory/store.go:141-180 | a new store is the empty state |
| `OAuthStore.Store.Restore` | memory/store.go:2967-2992 | every map is back at the snapshot |
| `OAuthStore.Store.Finish` | memory/store.go:3016-3028 | a failing hook undoes the whole mutation; otherwise the mutated state stays |
| `OAuthStore.Store.RevokeGrantLocked` | memory/oauth.go:641-661 | the grant, its access tokens and its refresh tokens are stamped, already revoked tokens keep their stamp, a missing grant changes nothing |
| `OAuthStore.Store.RevokeGrantsOfIssuer` | memory/oauth.go:75-82 | the walk over the grants revokes exactly the issuer's |
| `OAuthStore.Store.RevokeGrantsOfResource` | memory/oauth.go:191-197 | the walk over the grants revokes exactly the resource's |
| `OAuthStore.Store.RevokeGrantsOfClient` | memory/oauth.go:388-394 | the walk over the grants revokes exactly the client's |
| `OAuthStore.Store.SetIssuerDisabled` | memory/oauth.go:56-84 | the store's state and answer are those specified: disabling cascades to grants and tokens, enabling restores none |
| `OAuthStore.Store.SetResourceDisabled` | memory/oauth.go:171-199 | the same for a protected resource |
| `OAuthStore.Store.SetClientDisabled` | memory/oauth.go:368-396 | the same for a client |
| `OAuthStore.Store.CountActiveDcr` | memory/oauth.go:273-278 | the loop counts the enabled dynamically registered clients of the issuer |
| `OAuthStore.Store.MayCreateClient` | memory/oauth.go:268-301 | the checks answer in the specified order; `OAuthRegistrations.BudgetIsKept` and `OAuthRegistrations.LimitExceededIff` say what the budget and the limit among them guarantee |
| `OAuthStore.Store.CreateClient` | memory/oauth.go:262-312 | a registration stores the client under its key and spends one use of the initial token, or changes nothing; what that keeps over runs is in `OAuthRegistrations` |
| `OAuthRegistrations.EventSpends` | memory/oauth.go:288-309 | each event spends exactly the registrations it commits against an initial access token |
| `OAuthRegistrations.BudgetIsKept` | memory/oauth.go:288-309 | over every run a token's count is what it was plus the registrations made with it, and these never exceed what was left of its budget |
| `OAuthRegistrations.ReachableWithinBudget` | oauth.go:305-325 | in every reachable state no initial access token has registered beyond its budget |
| `OAuthRegistrations.RegistrationNeeds` | memory/oauth.go:288-300 | a registration with an initial token needs one of its issuer that is neither revoked, expired nor spent, and stores the client |
| `OAuthRegistrations.RevocationEndsRegistration` | memory/oauth.go:527-546 | once an initial token is revoked, no continuation registers a client with it |
| `OAuthRegistrations.LimitExceededIff` | memory/oauth.go:272-282 | while an issuer is open and within its limit, an event takes it beyond the limit exactly if it enables a disabled dynamic client again at the limit, or lowers the limit |
| `OAuthRegistrations.LimitIsKept` | memory/oauth.go:272-282 | so over every run without such an event the active dynamic clients stay within the limit |
| `OAuthStore.Store.CreateGrantAndCode` | memory/oauth.go:549-578 | a grant and its only code are stored together or not at all |
| `OAuthStore.Store.RevokeGrant` | memory/oauth.go:596-611 | the cascade over one grant, with not-found and rollback |
| `OAuthStore.Store.ConsumeCode` | memory/oauth.go:681-715 | the code is spent and its tokens stored in one step, or the store refuses unchanged |
| `OAuthStore.Store.RotateRefresh` | memory/oauth.go:811-845 | the presented token is retired and its successor pair stored in one step, or the store refuses unchanged |
| `OAuthStore.Store.RevokeAccess` | memory/oauth.go:848-867 | an access token is stamped once |
| `OAuthStore.Store.CollectFamilyGrants` | memory/oauth.go:879-884 | the loop collects exactly the grants the family descends from |
| `OAuthStore.Store.RevokeFamily` | memory/oauth.go:873-905 | every token of the family and every access token of its grants is stamped |
| `OAuthStore.Store.RevokeUserCredentialsLocked` | memory/store.go:3176-3204 | one user's grants and tokens, in one workspace or in all, are stamped |
| `OAuthInvariant.InitialInv` | memory/store.go:141-180 | the empty system satisfies the invariant |
| `OAuthPreservation.ExchangeStepKeepsInv` | oauth_tokens.go:22-89 | a committing exchange keeps the invariant |
| `OAuthPreservation.RotationStepKeepsInv` | oauth_tokens.go:199-270 | a committing rotation keeps the invariant, with scopes only shrinking along the chain |
| `OAuthPreservation.ReadStepKeepsInv` | oauth_tokens.go:609-658 | every read of a call keeps the invariant |
| `OAuthPreservation.RefetchStepKeepsInv` | oauth.go:878-931 | storing a refetched client record leaves the vault and the invariant as they were |
| `OAuthPreservation.ApplyKeepsInv` | oauth_tokens.go:22-320 | every event of the system keeps the invariant |
| `OAuthPreservation.RunKeepsInv` | oauth_tokens.go:22-320 | so does every run |
| `OAuthPreservation.ReachableInv` | memory/oauth.go:549-905 | every reachable state satisfies it: one code and at most one family a grant, exact chains, unstored identifiers in flight |
| `OAuthTheorems.RevokedGrantStaysRevoked` | memory/oauth.go:641-661 | no later event revives a revoked grant, not even re-enabling its client, resource or issuer |
| `OAuthTheorems.NothingPassesUnderRevokedGrant` | oauth_tokens.go:609-658 | no exchange, refresh or bearer check that had not yet read the grant gets past that read |
| `OAuthTheorems.RevokedGrantNeverRotates` | memory/oauth.go:811-845 | no rotation commits under a revoked grant, whatever was in flight |
| `OAuthTheorems.RevokedGrantIssuesAtMostOnce` | memory/oauth.go:681-715 | after the revocation at most one exchange commits, and none if the code was redeemed |
| `OAuthTheorems.IssuesAfterRevocationIff` | memory/oauth.go:687-701 | once a grant is revoked, an event issues under it exactly if it commits an exchange that had read the grant before and that the store accepts, and a refresh token exactly if that exchange drafted one |
| `OAuthTheorems.RacersShrink` | oauth_tokens.go:615-620 | once a grant is revoked no exchange joins those that had read it |
| `OAuthTheorems.OnlyRacersIssue` | oauth_tokens.go:51-89 | over every continuation the tokens issued under a revoked grant are exactly those of the exchanges in flight at the start that had read it and were issued |
| `OAuthTheorems.RevokedGrantIssuesIff` | oauth_tokens.go:51-89 | a continuation issues under a revoked grant exactly if such an exchange is issued in it; with none in flight, none does |
| `OAuthRace.RacingExchangeCommits` | memory/oauth.go:687-701 | from every reachable state in which an exchange would succeed with its client's record at hand, there is a schedule in which the grant is revoked after the exchange's last check and the exchange still commits |
| `OAuthRace.BoundIsReached` | oauth_tokens.go:22-89 | from the empty store, for any consent: the grant is revoked with the exchange in flight, and its commit stores one unrevoked access token, so the bound above is reached |
| `OAuthTheorems.RevokedGrantIsDead` | oauth_tokens.go:354-387 | all of it together, from every reachable state and over every continuation: the grant stays revoked, no call passes its validation, no rotation commits, and what is issued is exactly what the racing exchanges commit, at most one |
| `OAuthEffects.DisablingClientRevokes` | memory/oauth.go:368-396 | a committed disablement of a stored client revokes, at that time, exactly its grants and the unrevoked tokens under them, and changes no other record but the client's flag |
| `OAuthEffects.DisablingResourceRevokes` | memory/oauth.go:171-199 | the same for a protected resource and the grants for it |
| `OAuthEffects.DisablingIssuerRevokes` | memory/oauth.go:56-84 | the same for an issuer and the grants it gave |
| `OAuthEffects.EnablingRestoresNothing` | memory/oauth.go:375-388 | enabling again clears the flag and leaves every grant and token as it is |
| `OAuthEffects.DisablingIsFinal` | memory/oauth.go:388-394 | so from every reachable state a disablement kills each of those grants and its tokens over every continuation, enabling again included |
| `OAuthEffects.GrantRevocationIsFinal` | memory/oauth.go:596-611 | the same for a grant that is revoked itself |
| `OAuthEffects.RevokingUserRevokes` | memory/store.go:3176-3204 | a credential revocation revokes exactly the user's grants and tokens, in the workspace named or, if none is, in all |
| `OAuthEffects.UserRevocationIsFinal` | memory/store.go:3176-3204 | so every such grant and token is dead over every continuation |
| `OAuthEffects.RevokingStepRevokes` | memory/oauth.go:848-905 | the committed step of a call revokes exactly the family and the access tokens of its grants, the grant of a replayed code, or the one access token |
| `OAuthEffects.RevokedTokenStaysRevoked` | memory/oauth.go:641-661 | no event clears the revocation of an access or refresh token |
| `OAuthEffects.RevokedTokenIsRefused` | oauth_tokens.go:354-387 | once an access token is revoked, no bearer check that had not read it before accepts it, over every continuation |
| `OAuthEffects.AccessRevocationIsFinal` | oauth_tokens.go:276-316 | so an access token revoked at the token endpoint is refused to every bearer check that begins after that |
| `OAuthEffects.StoredIsFound` | memory/oauth.go:15-170 | an issuer, a resource or a client-credentials token is created exactly if its identifier and key are free and what it refers to is stored, and is then found by its key; an update is found under the URL it keeps |
| `OAuthEffects.FailedCommitHasNoEffect` | memory/store.go:3016-3028 | no administrative operation has an effect if its commit fails |
| `OAuthTheorems.LaterCallsFail` | oauth_tokens.go:609-658 | a call that starts after the revocation issues nothing under the grant and accepts no token of it |
| `OAuthTheorems.RevokeFamilyKills` | memory/oauth.go:873-905 | the store's family revocation revokes its tokens and every access token of its grant |
| `OAuthTheorems.FamilyRevocationIsFinal` | oauth_tokens.go:725-744 | a call that revokes a family, once its step commits, leaves the family dead over every continuation |
| `OAuthTheorems.RevokedFamilyStaysDead` | oauth_tokens.go:705-744 | a revoked family stays revoked, never grows, and its grant never has an unrevoked access token again |
| `OAuthTheorems.RevokedFamilyIsDead` | memory/oauth.go:873-905 | the same from every reachable state |
| `OAuthTheorems.CodeConsumedAtMostOnce` | memory/oauth.go:681-715 | over any run a code is consumed at most once, and a consumed code never changes |
| `OAuthTheorems.FamilyIsOneChain` | memory/oauth.go:811-845 | each refresh family of a reachable state is one chain through its replacements, inside one grant, with exactly one unused token at its end and scopes that only shrink within the consented ones |
| `OAuthSolo.ValidationSolo` | oauth_tokens.go:609-658 | undisturbed, the three validating reads succeed exactly for an active grant and leave the store alone |
| `OAuthSolo.ExchangeSolo` | oauth_tokens.go:51-89 | with a code presented, an undisturbed exchange issues exactly when its grant is active and code, scopes and bearers are ready, and then writes exactly the spent code and the tokens |
| `OAuthSolo.RefreshSolo` | oauth_tokens.go:229-270 | the same for a presented refresh token, whose successors carry the narrowed scopes in the same family |
| `OAuthSolo.ExchangeFromStart` | oauth_tokens.go:22-89 | from its start, an undisturbed exchange ends within nine steps; it issues exactly when its issuer is enabled, its client resolves, from the store or from a refetched document the store takes, and is enabled and proven, the code is the client's, unused, unexpired and bound to redirect and verifier, and the grant behind it is active; otherwise a replayed code revokes its grant, and nothing else changes in the vault |
| `OAuthSolo.RefreshFromStart` | oauth_tokens.go:199-270 | the same for a refresh, within ten steps; a failing one revokes the family exactly if the token was used or revoked or its rotation met a conflict |
| `OAuthSolo.AuthenticateSolo` | oauth_tokens.go:354-387 | a bearer check accepts exactly a live token of an active grant that matches its resource, user, workspace and scopes, and writes nothing |
| `OAuthLifetimes.ExchangedTokenLives` | oauth_tokens.go:660-676 | the access token of an exchange is accepted by bearer checks until the exchange's time plus the issuer's lifetime, exactly while the grant may be used and permitted, and it is for that grant, client, user, resource and scopes |
| `OAuthLifetimes.ExchangedTokenWorks` | oauth_tokens.go:354-387 | with the client as stored and the permissions held, exactly in that time |
| `OAuthLifetimes.ReachableExchangeLives` | oauth_tokens.go:22-89 | the same from every reachable state, where records sit under their identifiers |
| `OAuthLifetimes.RotatedTokenLives` | oauth_tokens.go:229-270 | the same for the access token of a refresh, which carries the scopes asked for |
| `OAuthLifetimes.ReachableRotationLives` | oauth_tokens.go:199-270 | the same from every reachable state, for a stored refresh token |
| `OAuthLifetimes.ExchangedRefreshLives` | oauth_tokens.go:678-701 | the refresh token of an exchange rotates until the exchange's time plus the issuer's refresh lifetime, exactly for its client and while the grant may be used |
| `OAuthLifetimes.RotatedRefreshLives` | oauth_tokens.go:678-701 | so does the successor a refresh issues |
| `OAuthLifetimes.ReuseRevokesFamily` | oauth_tokens.go:216-219 | a refresh token presented again after its rotation is refused, and its family, the successor included, and the access tokens of its grant are revoked |
| `OAuthLifetimes.ReplayRevokesGrant` | oauth_tokens.go:41-47 | a code presented again after its exchange is refused, and its grant and every token issued for it are revoked |
| `OAuthLifetimes.ConsentedCodeLives` | memory/oauth.go:549-578 | a consented code is exchanged until its lifetime is over, exactly by its client and while what was consented to is in place, for that user, resource and scopes |
| `OAuthLifetimes.AccessRevocationFromStart` | oauth_tokens.go:276-311 | an undisturbed revocation of an access token revokes exactly the presented token of that client, answers the same for a foreign or unknown one and then changes nothing |
| `OAuthLifetimes.RefreshRevocationFromStart` | oauth_tokens.go:312-320 | the same for a refresh token, whose whole family is revoked |
| `OAuthLifetimes.RotationEndsUse` | memory/oauth.go:342-366 | rotating a client's credentials replaces exactly what is given, and a new key set ends the use of every grant given for the old one |
| `OAuthLifetimes.RefetchEndsUse` | oauth.go:902-921 | a refetched client is what its document says, under the identity asked for, and a changed document ends the use of every grant given for another |
| `OAuthIndex.LookupIsSearch` | memory/oauth.go:719-730 | on an exact index, a lookup is a linear search over the records; `OAuthRegistry` concludes it for each lookup in every reachable state |
| `OAuthIndex.InsertKeepsExactIff` | memory/oauth.go:694-713 | inserting under an unused key keeps the index exact if and only if the identifier is new |
| `OAuthIndex.UpsertKeepsExactIff` | memory/oauth.go:325-335 | an upsert keeps it exact if and only if the replaced record bears the same key |
| `OAuthIndex.CreateClientIndexed` | memory/oauth.go:283-311 | a registration keeps every configuration index exact |
| `OAuthIndex.UpsertClientIndexedIff` | memory/oauth.go:316-336 | the store does not look at the client_id a metadata upsert replaces: a committed upsert keeps the indexes exact if and only if it is kept |
| `OAuthIndex.AddAccessIndexed` | memory/oauth.go:694-708 | the store checks only the prefix: storing an access token keeps the index exact if and only if its identifier is new |
| `OAuthIndex.AddRefreshIndexed` | memory/oauth.go:827-843 | the same for a refresh token |
| `OAuthRegistry.RefetchedIdentity` | oauth.go:878-931 | right after its read, a refetch holds the identity of the record it found, or a new identifier |
| `OAuthRegistry.RefetchKeepsRegistry` | oauth.go:919-931 | its write, any number of events later, keeps the indexes exact and every record under its own identifier |
| `OAuthRegistry.ApplyKeepsRegistry` | memory/oauth.go:15-905 | so does every event, with client and client-token identifiers drawn from those minted |
| `OAuthRegistry.ReachableIndexed` | memory/oauth.go:15-905 | in every reachable state each of the eight indexes is an exact inverse of its record map |
| `OAuthRegistry.ClientLookupIsSearch` | memory/oauth.go:413-424 | a client_id resolves to a record exactly if that is the record stored for the issuer and client_id |
| `OAuthRegistry.IssuerLookupIsSearch` | memory/oauth.go:101-112 | an issuer is found by URL exactly if it is the stored one with that URL |
| `OAuthRegistry.PrefixLookupsAreSearches` | memory/oauth.go:665-807 | codes, access tokens and refresh tokens are found by prefix exactly if they are the stored ones with it |
| `OAuthRegistry.ConfigLookupsAreSearches` | memory/oauth.go:143-545 | so are resources by URI, and initial and client-credentials tokens by prefix |
| `OAuthRegistry.ClientKeepsIdentity` | oauth.go:878-931 | from every reachable state on, a client record keeps its issuer and client_id whatever registrations and refetches interleave |
| `OAuthDisablement.ApplyKeepsDisablement` | oauth.go:878-931 | every event keeps what refetches in flight rely on: an enabled document record, over a document record, of a stored issuer |
| `OAuthDisablement.RefetchIsTaken` | memory/oauth.go:316-336 | a refetch of a stored client is refused only by its commit |
| `OAuthDisablement.EnabledAgainIff` | oauth.go:902-928 | an event enables a disabled client exactly if an administrator does, or if it commits a refetch of that client, which may have read it before or after it was disabled |
| `OAuthDisablement.DisabledUntilEnabled` | memory/oauth.go:368-396 | a disabled client that was registered, not taken from a document, stays disabled over every run in which no administrator enables it |
| `OAuthDisablement.StaleDocumentEnables` | oauth.go:884-931 | from every reachable state, resolving a disabled client whose document is stale, at an enabled issuer, enables it |
| `SignIn.StepKeepsPassword` | auth.go:237-269 | whatever a sign-in writes encodes the password already stored: a replaced one is never brought back |
| `SignIn.CompletionIsCurrent` | auth.go:275-335 | a sign-in completes only when the stored hash verifies the given password, and fingerprints exactly that hash |
| `SignIn.AttemptsBounded` | auth.go:306-324 | at most three finalization attempts, from any point of the call |
| `SignIn.DriveIsCurrent` | auth.go:237-335 | against any store changes, a completed sign-in has an access at which the stored hash verified the password and was the one fingerprinted |
| `SignIn.SecondFactorDecides` | auth.go:270-282 | for every store, a sign-in ends, and one that completes leaves a second factor pending exactly if one was active when it looked |
| `SignIn.WrongPasswordIsRejected` | auth.go:217-235 | a wrong password, an account without one, a locked or disabled one is rejected at the first access |
| `SignIn.UndisturbedCompletes` | auth.go:171-335 | with nothing interfering, the stored password signs in: against the renewed hash after a rehash, and pending exactly if a second factor is active |
| `SignIn.SettledFinalizes` | auth.go:300-324 | a rehash by someone else costs a retry: once the stored hash settles on one of the password with an attempt to spare, the sign-in completes against it |
| `SignIn.AuthenticatePassword` | auth.go:171-335 | the method is the step-by-step protocol, completes only for an admitted account with the right password and against a current hash, pending exactly if a second factor is active, commits exactly the guarded rehash, of the password it replaces, and makes at most three attempts |
| `SignIn.VerifyAndRehash` | auth.go:181-269 | the verification and the compare-and-set rehash, as the first two accesses |
| `SignIn.Complete` | auth.go:270-335 | the pending and the finalizing branch, as the remaining accesses |
| `SignIn.Finalize` | auth.go:306-324 | the retry loop is the protocol's, attempt by attempt |
| `PasswordSessions.StepCallKeepsInv` | memory/store.go:456-476 | a sign-in step keeps every live session current, and every stored password the same |
| `PasswordSessions.ReplaceKeepsInv` | memory/store.go:434-450 | a change or a reset stores the new hash and, closing the user's sessions, keeps every live session current |
| `PasswordSessions.MintingKeepsInv` | memory/store.go:1590-1614 | the fingerprint guard mints only under the current password, or two stored hashes share a fingerprint |
| `PasswordSessions.NotInstalledNotCurrent` | auth.go:237-269 | a password a user does not have comes back only by an event that installs it |
| `PasswordSessions.ApplyKeepsInv` | ports.go:54-78 | every event keeps it |
| `PasswordSessions.LiveSessionsAreCurrent` | session.go:82-93 | in every reachable state each live session minted with a fingerprint, also one carried through TOTP or handed out with a new account, was minted under the password that is current |
| `PasswordSessions.ReplacedPasswordIsLockedOut` | reset.go:101-178 | from a state in which a user does not have a password, as long as no event installs it, it never has a live session, whatever is in flight |
| `PasswordSessions.ReplacementInstalls` | memory/store.go:434-450 | a change of a known user's password, and a reset, store exactly the new hash, close exactly that user's sessions, and touch no other user |
| `PasswordSessions.ReplacementLocksOut` | reset.go:101-178 | from every reachable state, after a change or a reset to another password and until an event installs the old one, the old one has no live session, no sign-in under way with it completes, and every sign-in begun with it is rejected |
| `PasswordSessions.NeverCompletes` | auth.go:275-335 | a sign-in under way with a password its user does not have never completes |
| `PasswordSessions.ReplacementSignsIn` | memory/store.go:434-450 | after a change or a reset the new password signs in and its session is minted live |
| `PasswordSessions.OtherEventsEffect` | memory/store.go:1659-1700 | a sign-out closes exactly that session or that user's sessions, an account gets its password unless it has one, a second factor completes a copy of its sign-in |
| `PasswordSessions.MintsExactlyWhileStored` | memory/store.go:1590-1614 | a finished sign-in can mint a session exactly while the hash it finished against is stored, and the session is live and of that user and hash |
| `PasswordSessions.OnlyReplacementChangesPasswords` | auth.go:489-495 | the password a user has changes exactly by an explicit change or reset to another one |
| `Lockout.WindowedStep` | memory/store.go:537-567 | each call keeps the count of full windows and the failures in the current one |
| `Lockout.WrongGuessesBounded` | auth.go:720-761 | with threshold N and lockout D, at most N(1 + (t - tN)/D) wrong guesses are answered by time t, whatever succeeds in between while a second factor is pending |
| `Lockout.CountingStoreBounded` | ports.go:80-83 | a store that never restarts its counter answers at most N + (t - tN)/D |
| `Lockout.BoundIsReached` | memory/store.go:537-567 | the restarting bound is reached after any number of lockouts |
| `Lockout.CountingBoundIff` | memory/store.go:537-567 | a restarting store meets the N + (t - tN)/D bound on every run if and only if N is one |
| `Lockout.CompletionClears` | memory/store.go:476-492 | a reset, or a completed sign-in of an account that is not locked, gives a fresh window: exactly the wrong guess that fills the threshold locks again |
| `Lockout.LockoutHolds` | auth.go:217-227 | a locked account stays as it is, right secrets included, until the lockout runs out or the password is reset |
| `Lockout.OthersChangeNothing` | auth.go:720-761 | a wrong link and a right secret that does not complete a sign-in neither count nor clear |
| `Lockout.Record.RecordLoginFailure` | memory/store.go:537-567 | the record in place is the specified throttle |
| `Lockout.Record.Serve` | auth.go:217-235 | one call on any surface changes the throttle and answers as specified: locked, counted, cleared or left alone |
| `RoleCompiler.StackCloses` | workspace_roles.go:83-85 | meeting a role on the visiting stack is a cycle of the graph |
| `RoleCompiler.GatheredAll` | workspace_roles.go:90-109 | a role merged with all its parents is exactly what inheritance reaches, with exactly the permissions of those roles |
| `RoleCompiler.MemoGrows` | workspace_roles.go:110-112 | adding a finished role keeps the memo complete and acyclic |
| `RoleCompiler.CompleteIsSound` | workspace_roles.go:114-118 | once every role is compiled there is no cycle and no undefined role |
| `RoleCompiler.Compiler.Compile` | workspace_roles.go:71-113 | the recursion ends, fails only on a cycle or an undefined role, and compiles the role to its closure |
| `RoleCompiler.Compiler.GatherParents` | workspace_roles.go:90-109 | the loop over the parents merges exactly what they compile to |
| `RoleCompiler.Compiler.CompileAll` | workspace_roles.go:114-118 | compiling all roles, in any order, succeeds exactly on acyclic graphs that define every inherited role |
| `RoleBuilder.GatherDefinitions` | workspace_roles.go:24-50 | the parts of each role are merged, with `member` given to every other role, exactly when all names are valid |
| `RoleBuilder.CollectPermissions` | workspace_roles.go:52-63 | all permissions are collected exactly when each is well formed |
| `RoleBuilder.BuildRoleCatalog` | workspace_roles.go:23-120 | the build succeeds exactly on accepted configurations, and yields the catalog they determine |
| `RoleBuilder.CatalogIsUnique` | workspace_roles.go:71-119 | the configuration alone determines the catalog, whatever the iteration order |
| `RoleBuilder.EveryRoleIncludesMember` | workspace_roles.go:144-151 | every role includes `member` and its access permission |
| `RoleBuilder.AdminAllowsEverything` | workspace_roles.go:153-160 | the administrator is allowed exactly the registered permissions, which are those of any role |
| `RoleBuilder.ExtensionKeepsPermissions` | workspace_roles.go:23-120 | extending an accepted configuration never removes a role or a permission from a role |
| `RoleCatalog.ValidNamesIff` | workspace_roles.go:9-10 | role and permission names are a lower-case letter and up to 63 or 127 letters, digits, dots, underscores and hyphens |
| `RoleBuilder.CatalogRolesIff` | workspace_roles.go:24-50 | the roles of a catalog are `member`, `admin` and those configured |
| `RoleBuilder.IncludesIff` | workspace_roles.go:144-151 | a role includes itself and what the roles include that the configuration says it inherits, and `member` |
| `RoleBuilder.AllowsIff` | workspace_roles.go:153-160 | a role is allowed exactly what the configuration says of a role it includes or what that is born with; an administrator, what is said of any |
| `AuditEncoding.FrameInjective` | audit.go:26-31 | one length-prefixed field can be read off a text in one way only |
| `AuditEncoding.FieldsInjective` | audit.go:32-49 | the thirteen hashed fields determine the event, with its time down to the microsecond, in numbers |
| `AuditEncoding.MessageInjective` | audit.go:20-60 | the hashed text determines the predecessor and all thirteen fields |
| `AuditEncoding.ReadMessageOf` | audit.go:20-60 | a message is read back, each of the thirteen fields from its place, as the event it was made of, its time down to the microsecond |
| `AuditEncoding.PlainReadersInvert` | audit.go:32-60 | reading decimal numbers and canonical identifiers, absent ones included, undoes their hashed forms |
| `AuditEncoding.GenesisIsZero` | audit.go:13-14 | the hash before the first event is 32 zero bytes |
| `AuditChain.FollowSplits` | audit.go:94-106 | following a chain splits at any prefix |
| `AuditChain.LinkedLogsAgree` | audit.go:94-112 | two logs from one position to one head agree event by event, or clash at one place |
| `AuditChain.HeadDeterminesLog` | audit.go:79-115 | two logs that verify from one checkpoint to one head agree in every hashed field, or two different messages with one hash are found in them |
| `AuditChain.VerifyAuditChainFrom` | audit.go:79-115 | verification succeeds exactly when the stream leads from the checkpoint to the head, reports a broken stream as compromised at the first event that does not extend its predecessor, and a head mismatch only for an unbroken one |
| `AuditChain.CheckpointSplits` | audit.go:85-112 | verifying a log is verifying a prefix and then the rest from the report on it, whenever that report is a checkpoint |
| `AuditChain.ReportIsCheckpointIff` | audit.go:79-87 | the report of a verification is a checkpoint again exactly if it started from a positive checkpoint or read an event |
| `AuditChain.EmptyReportIsNoCheckpoint` | audit.go:85-87 | the report on an empty chain verifies but is refused as a checkpoint |
| `AuditChain.StreamIsSuffix` | memory/store.go:3075-3098 | the events streamed after a sequence number are the rest of the chain |
| `AuditChain.Log.Append` | memory/store.go:3046-3062 | appending in place is as specified and keeps the log chained; an unchained event leaves the chain as it was |
| `AuditChain.LogKeepsEverything` | memory/store.go:3046-3062 | the log keeps what it holds and takes every event as given, in order, filling in only an absent actor kind |
| `AuditChain.BuiltLogIsChained` | memory/store.go:3046-3062 | every log built by appending leads from the start to its head |
| `AuditChain.AppendedLogVerifies` | memory/store.go:3046-3098 | so it verifies, from the start and from every checkpoint inside it |
| `AuditChain.HonestLogVerifiesIff` | audit.go:94-112 | the stream and the head are read one after the other: an honest log verifies exactly if no event was chained in between |
| `Uuid.HexRoundTrip` | uuid.go:42-54 | decoding hexadecimal returns the bytes that were encoded |
| `Uuid.HexEncodeAt` | uuid.go:30-41 | each byte is two lower-case digits, the higher half first |
| `Uuid.ParseText` | uuid.go:42-54 | parsing the canonical text returns the identifier |
| `Uuid.TextInjective` | uuid.go:30-41 | the canonical text names one identifier |
| `Ids.LayoutOrder` | internal.go:55-64 | identifiers are ordered as byte strings as their counters are, whatever the random bytes |
| `Ids.LayoutIsV7` | uuid.go:70-72 | every identifier passes the version 7 check and none is zero |
| `Ids.IssuedIncrease` | internal.go:37-65 | for any clock, also backward, and any randomness, the identifiers issued are strictly increasing and valid while the milliseconds fit in 48 bits |
| `Ids.IssuedDistinct` | internal.go:37-65 | none is issued twice and none is the zero UUID |
| `Ids.DriftBounded` | internal.go:42-51 | 4096 ms + seq never exceeds 4096 max(0, latest clock) plus the number of calls |
| `Ids.LayoutReadsBack` | internal.go:55-64 | milliseconds, sequence number and the 62 random bits can be read off an identifier |
| `Ids.IssuedTracksClock` | internal.go:42-51 | every call whose random source answers issues an identifier that tells at least that call's clock reading |
| `Ids.Generator.NewID` | internal.go:37-65 | the generator in place is the counter step and the layout; the counter moves also when randomness fails |
| `Ids.Generator.FillTimestamp` | internal.go:56-60 | the byte loop writes the low 48 bits big-endian and nothing else |
| `Base64Url.RoundTrip` | oauth.go:1034-1045 | decoding returns the bytes that were encoded, for any length |
| `Base64Url.AlphabetIff` | oauth.go:1034-1045 | a character has a value exactly if it is in the table of section 5 of RFC 4648, and the value is its place |
| `Base64Url.GroupIsNumber` | oauth.go:1034-1045 | each group of sextets is the number its bytes are, highest first |
| `Base64Url.SecretDecodesIff` | oauth.go:1063-1065 | 43 characters decode to 32 bytes exactly when all are symbols, line breaks included |
| `Tokens.ValidTokenMarker` | pat.go:22-32 | a marker is valid exactly if it is 1 to 16 lower-case letters and digits |
| `Tokens.SplitIff` | email.go:356-356 | splitting into three parts undoes joining if and only if the first two hold no underscore |
| `Tokens.SecretTokenAcceptedIff` | email.go:355-369 | a UUID-shaped token is accepted exactly in the printed spelling of its identifier, with any 43-symbol secret |
| `Tokens.BearerAcceptedIff` | oauth.go:1051-1067 | a prefix-shaped token is accepted exactly as marker, twelve hexadecimal digits and a secret |
| `Tokens.SecretTokenRoundTrip` | session.go:50-58 | printing then parsing returns the identifier, also when the secret's text holds underscores |
| `Tokens.BearerRoundTrip` | oauth.go:1034-1045 | the same for bearers, personal access tokens and SCIM tokens |
| `Tokens.ShapesAreDisjoint` | scim.go:893-905 | no text is accepted by both shapes, under any markers |
| `ScimRoles.ScimRoleForUser` | scim.go:744-763 | the nested loops select as specified |
| `ScimRoles.AppliesIff` | scim.go:746-753 | a mapping applies exactly if it is configured for a group that is listed, not deleted, and has the user as a member |
| `ScimRoles.RoleIsTop` | scim.go:744-763 | a returned role is the one shared by all applicable mappings of the highest priority, the default exactly if none applies |
| `ScimRoles.AmbiguousIff` | scim.go:754-758 | one listing is refused exactly when, somewhere along it, the best priority met so far is claimed for two roles |
| `ScimRoles.OrdersAgree` | scim.go:744-763 | any two listings of the same groups that both yield a role yield the same |
| `ScimRoles.OrderCanDecide` | scim.go:754-758 | a tie listed before a better mapping is refused, listed after it is not |
| `ScimRoles.ValidateConfiguration` | scim.go:844-870 | a configuration is accepted exactly if its trimmed external identifiers are well formed and mapped once, and its roles known, with `member` for an absent default role |
| `ScimRoles.EveryListingSucceedsIff` | scim.go:744-763 | every listing of the groups yields a role if and only if no two applicable mappings claim one priority for two roles |
| `ScimRoles.NoListingSucceedsIff` | scim.go:744-763 | no listing does if and only if the highest priority is claimed for two roles |
| `ScimRoles.ChangeGroups` | scim.go:703-716 | the loop replaces, drops or adds the one group |
| `ScimRoles.ChangedIff` | scim.go:703-716 | with every group listed once, a change takes the old version out, puts the new one in unless it was deleted, and keeps every other |
| `ScimRoles.DeletedGroupHasNoSay` | scim.go:747-749 | a deleted group, or one without the user, has no say wherever it is listed |
| `ScimRoles.OutsidersKeepRole` | scim.go:698-742 | a change leaves the result of every user outside the old and new members as it was |
| `ScimRoles.MembershipsForGroupChange` | scim.go:698-742 | the affected members are recomputed under the changed listing, and the change is refused exactly if one is ambiguous or not managed by the configuration |
| `ScimRoles.IncrementalIsComplete` | scim.go:698-742 | recomputing only the affected members keeps every held role up to date |
| `SessionIdle.LagIsBounded` | session.go:179-205 | for validations one after the other, the stamp lags the last use by less than the touch interval |
| `SessionIdle.NextUse` | session.go:147-207 | after any run, a use within the idle timeout less the touch interval succeeds, and one at the timeout or at the expiry never does |
| `SessionIdle.ActiveSessionSurvives` | config.go:383-388 | a session kept in use never idles out before it expires |
| `SessionIdle.MarginIsTight` | session.go:162-190 | one tick beyond that margin a use can be refused |
| `SessionIdle.UndisturbedIsValidate` | session.go:121-207 | undisturbed, reading and then stamping is the validation the lemmas above speak of |
| `SessionIdle.FinishSucceedsIff` | session.go:147-205 | a validation succeeds exactly if the session it read was live, unexpired and not idle, its user is enabled, and the stamp is recent or the session is still live and the new stamp commits; only then is it stamped |
| `SessionIdle.DisabledUserIsRefused` | session.go:169-178 | the session of a disabled user is refused |
| `SessionIdle.FinishAfterRevocationIff` | session.go:147-205 | once the session is revoked, a validation that had read it before succeeds exactly if it stays read-only, within the touch interval; one that reads it later never does |
| `SessionIdle.RevocationIsFinal` | memory/store.go:1659-1681 | over every continuation a revoked session stays revoked and unstamped, and no call is accepted but those that had read it before |
| `SessionIdle.SignedOutIsRefused` | session.go:217-262 | after a sign-out every call that starts later is refused |
| `SessionIdle.WritingLeavesNoRace` | memory/store.go:1634-1655 | with every validation writing, also every call that had not answered by then |
| `SessionIdle.LagInFlightIff` | memory/store.go:1634-1655 | with validations in flight the stamp never moves back and lags the latest use by less than the touch interval, on every run with given clock readings, if and only if they finish in the order of these readings |
| `SessionIdle.Record.FinishValidation` | session.go:147-207 | the checks on the copy that was read and the stamp on the record as it is now, in place, are as specified |
| `Replay.KeyInjective` | oauthclientadapter/replay.go:41-41 | the composite key determines the pair when client identifiers hold no NUL |
| `Replay.MemoryReplayStore.Record` | oauthclientadapter/replay.go:29-47 | pruning and inserting in place are as specified |
| `Replay.StepRefines` | oauthclientadapter/replay.go:36-46 | for any readings and identifiers, the pruned map holds exactly the successful calls that no later reading has passed |
| `Replay.RefusedIffBlocked` | oauthclientadapter/replay.go:29-47 | so a call is refused exactly if such a call with its key is still valid |
| `Replay.UseSucceedsIff` | oauthclientadapter/replay.go:29-47 | for NUL-free identifiers, a use succeeds exactly when every earlier successful use of its pair that is still valid was followed by a call that read a time at or after that expiry |
| `Replay.UseIffFresh` | oauthclientadapter/replay.go:29-47 | with readings in order, a use succeeds exactly when no earlier successful use of the pair is still valid |
| `Replay.OvertakenUsePasses` | oauthclientadapter/replay.go:33-40 | for any readings out of order from the second on, there is a run in which a still valid use passes again |
| `Replay.ClockOrderIff` | oauthclientadapter/replay.go:33-40 | exactly the readings in order make every run answer as the full history would |
| `Replay.SharedKeyIff` | oauthclientadapter/replay.go:41-44 | under a steady clock, exactly the sets of pairs with distinct keys make every run answer as the full history would |
| `Replay.NulSharesKey` | oauthclientadapter/replay.go:41-41 | a NUL in an identifier makes two pairs share a key |
| `Replay.OncePerWindow` | oauthclientadapter/replay.go:26-47 | after a success its pair is refused until some call reads a time at or after the expiry, for any readings and identifiers |
| `Replay.EachPairOncePerWindow` | oauthclientadapter/replay.go:26-47 | so with readings in order each pair succeeds at most once per validity window |

## Left out

- Cryptographic primitives (hashing, HMAC, encryption, signatures): abstract functions, or not modelled.
- The store operations that only insert, replace or stamp one record (issuers, resources, initial and client-credentials tokens, credential rotation, metadata upserts): they are specified on values and part of every run, without a method in the store class.
- The mutex: a store method is one atomic step, so the lock itself is not modelled; the store class keeps the configuration maps in one record field.
- Client proof of possession, the fetch of a metadata document and its validation, permission, account and workspace checks of the token endpoint: an outcome supplied to each step, any outcome at any step.
- Authorization requests beyond resolving their client: a consent event carries any issuer, client, resource and scopes, so the theorems hold for more consents than the code admits.
- Client-credentials tokens at the token endpoint and introspection: the store records are modelled, the calls are not.
- The OIDC UserInfo endpoint (oauth_tokens.go:436-482): another reader of access tokens that re-checks the grant's revocation, with fewer checks than the bearer check that is modelled.
- Personal access tokens beyond their spelling, SSO, passkeys, invitations, domains and email flows: easy members beside the ones modelled.
- Lockout.WrongGuessesBounded: calls on one account are serialized, as concurrent guesses can each pass the lock check before one is recorded.
- Replayed TOTP steps: they neither count as a failure nor clear the throttle, so they are no event of the lockout model.
- PasswordSessions.LiveSessionsAreCurrent: speaks of sessions minted with a fingerprint; those from SSO, passkeys, email or an earlier session carry none.
- The order of a role's inherited list: definitions are sets, and parents are walked in any order.
- 64-bit overflow of audit sequence numbers, counters and times.
- URL, email and display-name validation, listings and pagination, HTTP mapping, events and observers, the PostgreSQL store.
