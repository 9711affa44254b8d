# Proofs about the ResourceSpace broker

The broker stands between Canva and a ResourceSpace server. It is an OAuth
authorization server with an SSO handoff, a signed-URL server for assets, a
paged search endpoint, and a connection racer for fetching images. This project
models those parts in Dafny and proves what their design relies on.
`dafny verify dfyconfig.toml` checks everything.

## The token store

`TokenStore` gives the five buckets and every transaction over them as a
function of the loaded store and of each clock reading the transaction makes,
so that the clock may advance in the middle of one. `AuthService` (and
`AssetGrants.AssetService`) are the same operations as the source writes them,
as classes that load, mutate and save; each method is proved to do what its
transaction function says. What the service promises is then proved about runs:

- `TokenRuns` is the transition system. A store transaction is one step; a code
  exchange is two steps and an SSO callback an unlocked look followed by one, so
  both are threads that carry data from step to step. Steps interleave freely.
  Ledgers that no transaction reads remember which token came from which code
  and what was answered.
- `HandoffRuns`, `HandoffCaps`, `RefreshChains`, `RefreshAnswers`, `Provenance`,
  `Revocation` and `RevokedReplays` prove what every reachable state, or every continuation of a
  run, satisfies. `TokenEffects` says what one transaction may change.
- `CodeLifetimes`, `AccessLifetimes`, `RefreshLifetimes`, `SingleRevocation` and
  `HandoffLifetimes` follow one code, token or handoff from the step that makes it and
  say exactly which answer it gets at any later step, success included, with its
  lifetime in the configured seconds. `SealedAtRest` says what the file never holds.
- `LazyExpiry` compares whole runs with and without background pruning.
- `JsonStore` justifies taking a transaction as one step: it models the lock,
  the strict load, the temporary file and the rename as smaller steps, with
  crashes and errors between any two of them. `FieldCrypto` is the sealing of
  sensitive fields.

Together these state parts of sections 4.1.2, 6 and 10.4 of RFC 6749, section
4.6 of RFC 7636 and section 2 of RFC 7009 for this store.

## The other parts

`FindPaging`, `LiveListing` and `LivePaging` cover the search endpoint and its live source,
`Base64Url`, `Json`, `Decimals` and `Continuation` its opaque cursor,
`S256Challenge` the check of section 4.2 of RFC 7636 on the encoding of
sections 3.2, 3.5 and 5 of RFC 4648, `RateLimiter` and `RateWindows` the fixed-window limiter,
`AssetGrants` the signed URLs, and `ConnectionRace` the staggered connection
attempts (compare section 5 of RFC 8305).

## What is assumed

- The clock is positive and does not go back, within a transaction or between
  two; an unlocked look may use a later reading than the run has reached.
- Random names are non-empty and do not repeat. SHA-256, HMAC and Fernet are
  parameters; of Fernet only that decryption undoes encryption is used, of
  SHA-256 only that it yields 32 bytes, of HMAC nothing (a forged URL is turned
  into a collision) except, where a URL is to verify, that its output is not empty.
- `json.loads` of a dumped store gives back the object of its buckets.
- For results about several pages, that the upstream is stable while a client pages.

## Where the code and a simple account of it differ

- A grant URL still verifies when the last reading equals the expiry: the last
  check is `<`, the prune `<=`. `VerifiesExactly` has the exact condition.
- A handoff can go from active straight to invalid, when nobody looked between
  its expiry and the end of its retention.
- At the instant a handoff expires it can be completed but is not counted by the cap.
- An inspection classifies a snapshot, and reads the clock after taking it. It can
  call a handoff active that another callback has completed in the meantime, and it
  can call a handoff expired that a transaction with an earlier reading then still
  completes, so that a later look says replayed. `StatusOnlyMovesForward` says that
  this is the only way back, and exactly when it happens.
- Revoking an already rotated refresh token stamps it anew, so a replay may be
  answered from the cache for another grace period. It still mints nothing, and after
  a bulk revocation the answer holds no token that works.
- The sweep of the rate limiter is visible to a request that read the clock
  before the end of its window but took the lock after a request of another key
  that read at or past it, and to no other: `SweepIsUnobservableExactly`. Such a
  request also breaks the sliding bound, and so can a key's own readings that are
  earlier than the window they are served by.
- The live listing counts as scanned the rows that are objects only. After a row that
  is not, a client may be shown assets twice, or, when a page holds nothing else, lose
  all later ones: `LiveListingIsCompleteExactly` says when nothing goes wrong.
- The length of a bare list is taken for the total, so that a client gets one page
  of assets from an upstream that answers so.
- A preview reply may hold several usable records for one ref; the last one counts.
- A reported total below the number of rows loses rows for some page sizes and
  not for others; `CompleteExactlyIfNothingKeptIsPastTheTotal` says when nothing is lost.
- With the null cipher a key or email that happens to start with the sealed
  prefix is stored but can never be opened.
- A store file that is not UTF-8 makes even the lenient read raise.

## Model

| member | source | states |
|---|---|---|
| `LazyExpiry.BackgroundPruningIsUnobservable` | src/resourcespace_platform/services/auth_service.py:239-243 | two runs that differ only in where, when and how often background pruning happens give every caller of a store transaction or of the statistics the same answers, also when the statistics read the clock ahead of later transactions |
| `LazyExpiry.StrippedRunAnswersAlike` | src/resourcespace_platform/services/auth_service.py:146-181 | a run started from one store and the same run without its prunes started from an indistinguishable store answer alike, step by step |
| `LazyExpiry.OperationCannotTell` | src/resourcespace_platform/services/auth_service.py:146-181 | an operation answers two stores that prune to the same store alike, and leaves them pruning to the same store |
| `LazyExpiry.PruneAbsorbs` | src/resourcespace_platform/services/auth_service.py:146-181 | pruning at one instant and again later is pruning at the later instant, in all five buckets |
| `LazyExpiry.InspectionNoticesOnlyTombstonesDropped` | src/resourcespace_platform/services/auth_service.py:426-430 | the one reader that does not prune notices an earlier prune if and only if that prune dropped the record it asks for |
| `TokenRuns.NamesIssuedInRun` | src/resourcespace_platform/services/auth_service.py:45-46 | in every reachable state each stored or remembered name was drawn earlier, so a fresh draw collides with nothing |
| `HandoffRuns.HandoffIsValidatedAtMostOnce` | src/resourcespace_platform/services/auth_service.py:432-493 | in every interleaving a handoff is answered valid at most once, and from then on is reported replayed at every instant before its retention ends, also when the nested prune drops the record being completed |
| `HandoffRuns.StatusOnlyMovesForward` | src/resourcespace_platform/services/auth_service.py:414-493 | of two observations of a handoff in a run the second has moved backwards if and only if the first read the clock past the expiry while no callback had been answered, and one was answered before the second; the only such move is from expired to replayed, behind a reading that lay ahead of a transaction |
| `HandoffRuns.LookAheadSeesExpiredThenReplayed` | src/resourcespace_platform/services/auth_service.py:422-430 | a run in which that happens: two looks that both read 2000, one before and one after a completion at 2, say expired and then replayed |
| `HandoffRuns.InspectionTellsTheHistory` | src/resourcespace_platform/services/auth_service.py:414-430 | in every reachable state an inspection of a filed handoff says replayed if it was answered before, otherwise expired or active by the filed expiry, and invalid only once its retention is over; a handoff never filed is invalid |
| `HandoffRuns.HandoffMintsAtMostOneCode` | src/resourcespace_platform/routes/oauth.py:511-632 | concurrent callbacks for one handoff mint at most one authorization code between them |
| `Provenance.StoredSsoCodeIsBoundAsFiled` | src/resourcespace_platform/services/auth_service.py:453-469 | every stored code has an origin, and a stored code that came of a handoff is bound to the client, redirect, scope, challenge and method the handoff was filed with; no other code, stored or spent, came of it |
| `Provenance.SsoTokensTraceToTheirHandoff` | src/resourcespace_platform/services/auth_service.py:453-608 | a stored token whose code came of a handoff has its filed client and scope, and the code was redeemed by that client at the filed redirect with a verifier hashing to the filed challenge |
| `HandoffRuns.CallbackRedirectsWhereItsCodeIsBound` | src/resourcespace_platform/routes/oauth.py:553-632 | the redirect and client a callback read in its unlocked look are those its code is bound to, however much later the completing transaction runs |
| `HandoffRuns.ValidConsumes` | src/resourcespace_platform/services/auth_service.py:445-471 | a valid answer needs a stored, unused, unexpired handoff and leaves it used or already purged; every other record stays or is purged when due |
| `HandoffCaps.InitiationIsRefusedExactlyAtCapacity` | src/resourcespace_platform/services/auth_service.py:362-410 | an initiation is refused if and only if the store it found, tombstones included, holds as many outstanding handoffs of the source or of all sources as allowed; a refusal changes nothing and an accepted handoff is active until its expiry |
| `HandoffCaps.CapsHoldInRun` | src/resourcespace_platform/services/auth_service.py:25-38 | at every instant of every run at most 2000 handoffs are unused and unexpired, at most the per-source limit for any initiator, and that limit lies between 10 and 200 |
| `HandoffCaps.PerSourceLimitFollowsTheIngressRate` | src/resourcespace_platform/services/auth_service.py:28-33 | between its bounds the per-source limit is the number of requests the ingress limit lets one source make, on average, in one pending lifetime: not more, and less than one short of it |
| `HandoffCaps.BeginKeepsCaps` | src/resourcespace_platform/services/auth_service.py:366-412 | an initiation keeps both caps although it reads the clock once to prune and again to count |
| `HandoffCaps.CompletableButUncountedOnlyAtExpiry` | src/resourcespace_platform/services/auth_service.py:36-38 | an unused handoff can still be completed but is not counted by the cap exactly when the reading equals its expiry |
| `RefreshChains.RefreshTokensOfACodeFormOneChain` | src/resourcespace_platform/services/auth_service.py:518-608 | in every interleaving a code is redeemed at most once, its refresh tokens form one chain of parent and child without repetition, and the only stored one that may be unrevoked is the last |
| `RefreshChains.PresentedCodeIsBurned` | src/resourcespace_platform/services/auth_service.py:529-553 | once a configured client has presented a code, whatever the answer, no later exchange in the run gets a session for it |
| `RefreshChains.PairStaysChained` | src/resourcespace_platform/services/auth_service.py:125-135 | adding a fresh refresh token at the end of its code's chain keeps every chain |
| `RefreshChains.RotationStaysChained` | src/resourcespace_platform/services/auth_service.py:594-603 | rotating the live end of a chain retires it and makes its child the live end |
| `TokenEffects.StampBindsTheClient` | src/resourcespace_platform/services/auth_service.py:63-76 | stamping binds a session to the client and its integration if it has one, touches nothing else, and the last stamp wins |
| `TokenEffects.RotationMintsOnePair` | src/resourcespace_platform/services/auth_service.py:572-603 | a refresh of a stored, unrevoked token of the same client that opens revokes it, caches the answer and adds exactly one pair with its client, scope and session |
| `TokenEffects.OtherRefreshMintsNothing` | src/resourcespace_platform/services/auth_service.py:572-592 | any other refresh mints nothing, and a successful answer is the one cached on the stored token |
| `TokenEffects.MintAddsOnePair` | src/resourcespace_platform/services/auth_service.py:93-143 | the second half of an exchange adds exactly one pair, unrevoked, with the client, scope and sealed session it was given, and keeps every other record |
| `TokenEffects.OthersKeepRefresh` | src/resourcespace_platform/services/auth_service.py:624-654 | no other operation adds a refresh token, un-revokes one, changes its client, scope, session, expiry or cached answer, or drops one before it is due |
| `RefreshAnswers.RefreshMintsOnceAndAnswersAlike` | src/resourcespace_platform/services/auth_service.py:564-608 | in every interleaving a refresh token mints at most one pair and all successful answers to it are the same response |
| `RefreshAnswers.ReplayWithinGraceReturnsTheCachedResponse` | src/resourcespace_platform/services/auth_service.py:586-592 | a replay by the same client within the grace of the rotation, or of a later revocation of the stored record, and before the record's expiry returns the cached response; pruning never turns it into a not-found |
| `Provenance.TokensCarryTheirCode` | src/resourcespace_platform/services/auth_service.py:529-608 | every stored token, after any number of rotations, has the client and scope of the code it descends from and opens to its session whenever neither of the sensitive values of that session looked sealed; the code was redeemed by its own client, at its own redirect, with a verifier hashing to its challenge |
| `Provenance.ReadReturnsTheCodesSession` | src/resourcespace_platform/services/auth_service.py:610-622 | what a bearer is told is the client, scope, user and tenant of the code, and each of the upstream key and email that did not look sealed |
| `Provenance.NullCipherOpensExactlyCleanSessions` | src/resourcespace_platform/services/auth_service.py:199-237 | without an encryption key a sealed session opens if and only if neither its key nor its email starts with the sealed prefix |
| `FieldCrypto.OpenUndoesSeal` | src/resourcespace_platform/services/field_crypto.py:34-51 | opening undoes sealing for every value that does not look sealed, under either cipher and any randomness; what is stored in between is `SealEncryptsExactly` |
| `FieldCrypto.NullCipherRoundTripsExactlyUnsealed` | src/resourcespace_platform/services/field_crypto.py:22-31 | under the null cipher the round trip holds if and only if the value does not start with the prefix |
| `FieldCrypto.SealIsIdempotent` | src/resourcespace_platform/services/field_crypto.py:38-42 | sealing a sealed value changes nothing, although encryption is randomised |
| `CodeLifetimes.CodeIsAnsweredExactly` | src/resourcespace_platform/services/auth_service.py:529-562 | a code minted in a run and first presented later is redeemed, for the scope, user, tenant, key and email it was minted with, if and only if it is younger than `authCodeTtlSeconds` since its mint reading, client and redirect are its own, verifier and challenge are there, the method is S256, the verifier hashes to the challenge and the session opens; each refusal is the first of these that fails |
| `CodeLifetimes.ExpiredCodeIsNotFound` | src/resourcespace_platform/services/auth_service.py:154-156 | once as old as `authCodeTtlSeconds` a code is not found by any exchange of a configured client, whatever was presented before |
| `CodeLifetimes.RedeemedCodeGetsTokens` | src/resourcespace_platform/services/auth_service.py:556-562 | the second transaction of an exchange that redeemed a code answers with the pair it draws, the redeemed scope and `tokenTtlSeconds`, however much happens between the two |
| `AccessLifetimes.AccessIsReadExactly` | src/resourcespace_platform/services/auth_service.py:610-622 | an access token of either kind of mint, neither revoked itself nor by a revocation of its user, reads as its code's client, scope and session if and only if it is younger than `tokenTtlSeconds`, and as nothing otherwise |
| `AccessLifetimes.ExpiredTokenReadsAsNothing` | src/resourcespace_platform/services/auth_service.py:158-160 | once as old as `tokenTtlSeconds` an access token reads as nothing |
| `RefreshLifetimes.RefreshIsAnsweredExactly` | src/resourcespace_platform/services/auth_service.py:564-608 | a refresh token not yet rotated or revoked is rotated into the pair drawn, with its code's scope, if and only if its own client presents it and it is younger than `refreshTtlSeconds`; otherwise it is not found, or the client is invalid |
| `RefreshLifetimes.ExpiredRefreshIsNeverAnswered` | src/resourcespace_platform/services/auth_service.py:162-169 | once as old as `refreshTtlSeconds` a refresh token, rotated or not, is answered with no tokens |
| `RefreshLifetimes.RotatedRefreshIsAnsweredExactly` | src/resourcespace_platform/services/auth_service.py:586-592 | a rotated refresh token not revoked since is answered with the very response of its rotation if and only if its own client asks no later than the grace after it and before the token expires |
| `SingleRevocation.RevocationAnswersExactly` | src/resourcespace_platform/services/auth_service.py:624-636 | a revocation answers true if and only if the token is a stored access token that is live or a stored refresh token that is not due; every other token record is unchanged, or pruned when due |
| `SingleRevocation.RevokedTokenIsDeadForGood` | src/resourcespace_platform/services/auth_service.py:624-636 | after a revocation that answered true the token reads as nothing and is the source of no further pair in every continuation of the run |
| `HandoffLifetimes.HandoffIsFiledAsAsked` | src/resourcespace_platform/services/auth_service.py:362-410 | a handoff is remembered, and stored while it is stored, with the request it was begun with, the pending lifetime counted from the request and the retention after that |
| `HandoffLifetimes.CallbackIsAnsweredExactly` | src/resourcespace_platform/services/auth_service.py:432-493 | a completing transaction is answered by the age of its handoff and whether it was answered valid before, and by nothing else: valid, with the code drawn, up to and including the instant of expiry, then expired, then invalid; replayed if it was |
| `HandoffLifetimes.LookStartsACallbackExactly` | src/resourcespace_platform/routes/oauth.py:511-540 | the look of a callback starts it, holding the record as asked for, if and only if the handoff is stored, not used and not read as expired |
| `SealedAtRest.StoredSessionsAreSealed` | src/resourcespace_platform/services/auth_service.py:199-207 | with an encryption key, in every reachable state the upstream key and the email of each stored code, access and refresh session are empty or start with the sealed prefix |
| `FieldCrypto.SealEncryptsExactly` | src/resourcespace_platform/services/field_crypto.py:38-42 | with a key a value that does not look sealed is stored as `enc:v1:` and its encryption, any other as it is; without a key nothing is changed |
| `FieldCrypto.OpenIsExact` | src/resourcespace_platform/services/field_crypto.py:26-51 | a stored value opens to itself without the prefix; with it, to the decryption of what follows, or to nothing under the null cipher |
| `Revocation.RevokedAccessIsNeverReadAgain` | src/resourcespace_platform/services/auth_service.py:638-654 | an access token of the user stored when a bulk revocation commits reads as nothing at every later step of the run |
| `Revocation.RevokedRefreshNeverMintsAgain` | src/resourcespace_platform/services/auth_service.py:646-649 | a refresh token of the user stored when a bulk revocation commits is never again the source of a pair |
| `RevokedReplays.RevokedReplayAnswersDeadTokens` | src/resourcespace_platform/services/auth_service.py:586-592 | a replay of such a token may still be answered from the cache, but both tokens of the answer are revoked or gone, and stay so |
| `Revocation.RevokedGrantIsNeverFoundAgain` | src/resourcespace_platform/services/auth_service.py:650-652 | an asset grant of the user stored when a bulk revocation commits is never found again |
| `Revocation.DeadInContinuation` | src/resourcespace_platform/services/auth_service.py:158-173 | a revoked access token, a revoked refresh token and a zeroed grant stay so in every continuation of a run |
| `AssetGrants.MessageIsInjective` | src/resourcespace_platform/services/asset_service.py:253-259 | the signed text determines the grant id and the expiry, although ids may contain colons |
| `AssetGrants.SignatureBindsIdAndExpiry` | src/resourcespace_platform/services/asset_service.py:355-364 | if a URL with another id or expiry verifies under an issued signature, two different messages have the same authentication code |
| `AssetGrants.VerifiesExactly` | src/resourcespace_platform/services/asset_service.py:344-374 | a correctly signed URL of a stored grant verifies if and only if the transaction reads the clock before the expiry and the last reading is not after it, and is expired otherwise |
| `AssetGrants.VerifiesAtTheExpiryItself` | src/resourcespace_platform/services/asset_service.py:370-374 | a reading equal to the expiry passes the last check, so being before it at every reading is sufficient but not necessary |
| `AssetGrants.GrantIsFoundExactlyUntilExpiry` | src/resourcespace_platform/services/asset_service.py:283-310 | a grant issued in a run holds the user, tenant and source it was issued for and the lifetime of a signed URL, and is found so by a later lookup if and only if that lookup prunes before its expiry, absent a bulk revocation of its user |
| `AssetGrants.IssuedUrlVerifiesExactlyUntilExpiry` | src/resourcespace_platform/services/asset_service.py:344-374 | the URL issued in a run verifies in any later state if and only if the transaction reads before the issued expiry and the last reading is not after it, absent a bulk revocation of its user |
| `AssetGrants.RevokedUrlNeverVerifies` | src/resourcespace_platform/services/asset_service.py:366-374 | after a bulk revocation no URL, whatever its expiry and signature, verifies a grant of that user stored at the time |
| `AssetGrants.AssetService.IssueGrant` | src/resourcespace_platform/services/asset_service.py:283-310 | the store afterwards and the answer are those of the grant transaction, and the signature is over the filed id and expiry |
| `AssetGrants.AssetService.CheckUrl` | src/resourcespace_platform/services/asset_service.py:344-374 | verdict and store are those of the verification function, in each of its refusals |
| `AuthService.LoadedState.PruneExpired` | src/resourcespace_platform/services/auth_service.py:146-181 | the deletion loops leave exactly what the prune function leaves; that each record is kept for its lifetime and no longer is stated by the results named after the lifetimes |
| `AuthService.LoadedState.MintAuthorizationCode` | src/resourcespace_platform/services/auth_service.py:245-274 | prunes once more and files one sealed code record |
| `AuthService.AuthService.PruneNow` | src/resourcespace_platform/services/auth_service.py:239-243 | the saved store is the pruned one |
| `AuthService.AuthService.BeginAuthorizationFromSession` | src/resourcespace_platform/services/auth_service.py:314-344 | store and answer are those of the authorization transaction |
| `AuthService.AuthService.BeginSsoAuthorizationFlow` | src/resourcespace_platform/services/auth_service.py:346-412 | store and answer are those of the capped initiation; a refusal saves nothing |
| `AuthService.AuthService.CompleteSso` | src/resourcespace_platform/services/auth_service.py:432-473 | store and answer are those of the completing transaction, with the record possibly detached by the nested prune |
| `AuthService.AuthService.ConsumePendingSsoState` | src/resourcespace_platform/services/auth_service.py:475-493 | the older inline classification does what the shared one does |
| `AuthService.AuthService.ConsumeAuthorizationCode` | src/resourcespace_platform/services/auth_service.py:529-555 | store and answer are those of the consuming transaction, whose answer `CodeIsAnsweredExactly` determines |
| `AuthService.AuthService.CreateTokenPair` | src/resourcespace_platform/services/auth_service.py:495-516 | store and answer are those of the minting transaction |
| `AuthService.AuthService.RefreshTokenPair` | src/resourcespace_platform/services/auth_service.py:564-608 | store and answer are those of the refresh transaction, in its rotating, replaying and failing branches |
| `AuthService.AuthService.ReadToken` | src/resourcespace_platform/services/auth_service.py:610-622 | store and answer are those of the reading transaction, whose answer `AccessIsReadExactly` determines |
| `AuthService.AuthService.RevokeOneToken` | src/resourcespace_platform/services/auth_service.py:624-636 | store and answer are those of the revoking transaction, whose effect the two results of `SingleRevocation` determine |
| `AuthService.AuthService.RevokeTokensForUser` | src/resourcespace_platform/services/auth_service.py:638-654 | the three loops mark exactly the records of that user and tenant |
| `LazyExpiry.StatisticsCountWhatIsStillFound` | src/resourcespace_platform/services/auth_service.py:675-683 | the statistics count the codes an exchange at that reading would not call missing, the access tokens neither expired nor revoked, the refresh tokens neither expired nor past their grace, and the grants a lookup would answer |
| `AuthService.AuthService.Statistics` | src/resourcespace_platform/services/auth_service.py:675-683 | counts what a prune would leave, and saves nothing |
| `JsonStore.FileIsTheFoldOfCommittedUpdates` | src/resourcespace_platform/services/json_store.py:111-127 | however threads interleave, updaters raise, saves fail and the process crashes, at every point between two steps the file parses to the committed updaters applied in lock order to the initial state |
| `JsonStore.CorruptFileIsNeverOverwritten` | src/resourcespace_platform/services/json_store.py:98-127 | a file that exists and does not load strictly is left untouched by every run of updates and reads |
| `JsonStore.LoadsExactlyWellFormedFiles` | src/resourcespace_platform/services/json_store.py:76-109 | a strict load succeeds exactly on readable JSON objects whose known buckets are objects; a lenient one fails only on undecodable bytes, is empty on what is no object, and keeps each well-formed bucket |
| `JsonStore.StepKeepsSound` | src/resourcespace_platform/services/json_store.py:122-127 | one step keeps the file equal to the current state, the lock holder working on it, and the temporary file a prefix of what is being written; only the rename moves the state |
| `JsonStore.FiveBucketsAreKept` | src/resourcespace_platform/services/json_store.py:16-22 | a saved state with exactly the five buckets loads back unchanged |
| `JsonStore.MergeStore` | src/resourcespace_platform/services/json_store.py:76-96 | the merge loop yields the known buckets, or raises in strict mode exactly on a malformed document |
| `JsonStore.Store.Load` | src/resourcespace_platform/services/json_store.py:98-109 | creates a missing file only, and answers as the load function says |
| `JsonStore.Store.Save` | src/resourcespace_platform/services/json_store.py:111-116 | every write is a step of the state machine, and the file changes if and only if the rename is reached |
| `JsonStore.Store.Update` | src/resourcespace_platform/services/json_store.py:122-127 | an update is one run of the state machine; it answers saved if and only if its updater is committed, and otherwise leaves the file as it was |
| `RateLimiter.SweepIsUnobservableExactly` | src/resourcespace_platform/services/rate_limiter.py:27-39 | a key is served as by a private limiter that never forgets, at every point of a run and however often its last request is repeated, if and only if none of its requests reads before the end of its window after another key has read at or past it |
| `RateLimiter.SweepIsUnobservable` | src/resourcespace_platform/services/rate_limiter.py:28-39 | under that condition, which readings in lock order meet, all verdicts of a run for a key are those of its private limiter |
| `RateWindows.VerdictsFollowTheWindows` | src/resourcespace_platform/services/rate_limiter.py:31-39 | a private limiter allows the first `max(1, max_requests)` requests of each window and refuses the others with what is left of it, where a window lasts from the reading of its first request, in whatever order the readings come |
| `RateWindows.RetryTimeIsWhenTheKeyIsServedAgain` | src/resourcespace_platform/services/rate_limiter.py:35-39 | the shared limiter refuses a key, with what is left of its retry time, until exactly that time is over, and allows its first request from then on |
| `RateLimiter.SweepChangesAVerdictExactly` | src/resourcespace_platform/services/rate_limiter.py:28-39 | a request of another key changes the next verdict of this one if and only if it reads at or past the end of the window of this key, this key reads before it, and the window is full |
| `RateLimiter.ALateReadingBreaksTheBound` | src/resourcespace_platform/services/rate_limiter.py:27-31 | because the clock is read before the lock, a request that reads early and locks late is admitted twice within a window of capacity one, although its own readings are in order |
| `RateLimiter.OwnDisorderBreaksTheBound` | src/resourcespace_platform/services/rate_limiter.py:33-39 | a key alone, whose own late readings are served by a window that started after them, exceeds the bound as well |
| `RateLimiter.DisorderInsideAWindowIsBounded` | src/resourcespace_platform/services/rate_limiter.py:33-39 | readings out of order inside one window meet the condition of the bound |
| `RateLimiter.SharedSlidingBound` | src/resourcespace_platform/services/rate_limiter.py:26-39 | if no request of a key reads behind a sweep and none that is admitted reads before the start of the window that serves it, the key is admitted at most 2*max(1, max_requests)-1 times in any half-open interval as long as the window, whatever other keys do |
| `RateLimiter.InOrderIsBounded` | src/resourcespace_platform/services/rate_limiter.py:26-39 | readings in lock order meet both conditions for every key, and so the bound |
| `RateLimiter.SlidingBound` | src/resourcespace_platform/services/rate_limiter.py:33-39 | the same bound for a private limiter started with any bucket, when no admitted request reads before its window |
| `RateLimiter.SlidingBoundIsAttained` | src/resourcespace_platform/services/rate_limiter.py:33-39 | the bound is reached, so it cannot be lowered |
| `RateLimiter.Limiter.Consume` | src/resourcespace_platform/services/rate_limiter.py:26-39 | the sweeping loop and the counter leave the buckets and give the verdict of the limiter function |
| `ConnectionRace.RacePinnedConnection` | src/resourcespace_platform/services/asset_service.py:70-149 | the first batch with an HTTP reply or an unexpected error settles the race; its lowest acceptable address wins; an unexpected error is raised only without a winner; every other stream ever opened is closed exactly once and the winner not at all |
| `ConnectionRace.RacePinnedFetch` | src/resourcespace_platform/services/asset_service.py:152-196 | after the fetch every stream ever opened has been closed exactly once, a body is returned exactly when it arrived whole and within the cap, and an error is raised exactly when the race raised it or one broke the read off |
| `ConnectionRace.ReadBody` | src/resourcespace_platform/services/asset_service.py:171-194 | the body is the join of all chunks, returned if and only if neither the declared nor the received length passes the cap and no error comes; an error other than an HTTP one is raised if and only if it comes first, and everything else is nothing |
| `ConnectionRace.ProcessBatch` | src/resourcespace_platform/services/asset_service.py:115-140 | collects exactly the acceptable attempts of a batch, whether one was rejected, and an unexpected error if there is one |
| `ConnectionRace.WinnerIsDetermined` | src/resourcespace_platform/services/asset_service.py:106-140 | the settling batch, the winner and whether an error is raised do not depend on the order in which a batch is walked |
| `ConnectionRace.AcceptedBatchWinsUnlessSettledBefore` | src/resourcespace_platform/services/asset_service.py:106-140 | once a batch holds an acceptable reply, only an earlier settling batch can keep the race from choosing its lowest one |
| `FindPaging.FollowingReturnsEverything` | src/resourcespace_platform/routes/content.py:155-224 | following continuations from the first page ends and returns every container once in order, then every kept asset once in order, for any limits of at least one, when the total is not below the rows |
| `FindPaging.CompleteExactlyIfNothingKeptIsPastTheTotal` | src/resourcespace_platform/routes/content.py:209-213 | every client gets everything if and only if no row past the reported total (or past the first row, without containers) would have been kept |
| `FindPaging.EachPageMakesProgress` | src/resourcespace_platform/routes/content.py:55-60 | each further page leaves strictly less to scan, also over pages that keep nothing and totals that overstate the rows |
| `FindPaging.FollowTakesAPrefix` | src/resourcespace_platform/routes/content.py:167-220 | from any cursor handed out, the rest of the pages returns the remaining containers and the kept rows of a prefix that reaches the reported total |
| `FindPaging.PageIsWithinTheLimit` | src/resourcespace_platform/routes/content.py:167-208 | no page holds more resources than were asked for |
| `FindPaging.FixturePageIsAWindow` | src/resourcespace_platform/routes/content.py:167-224 | over the fixture listing a page is the window of the whole listing that starts at its cursor and is as long as asked for, and a cursor is handed out, at the end of the window, exactly when something follows |
| `FindPaging.FindResources` | src/resourcespace_platform/routes/content.py:167-224 | the handler, step by step and over any asset listing, returns the page and cursor of the paging function |
| `FindPaging.FindOverBackend` | src/resourcespace_platform/routes/content.py:177-211 | over a listing that answers as a backend would, with the total taken from the page or from a probe, the endpoint is the one the paging results are about |
| `FindPaging.FollowingTheFixtureReturnsEverything` | src/resourcespace_platform/services/resourcespace/_fixture_backend.py:137-155 | over the fixture listing every client sees every container once in order and then every visible asset once in order |
| `LiveListing.LivePageIsTheFilteredListing` | src/resourcespace_platform/services/resourcespace/_live_backend.py:464-495 | whatever the two replies hold, a page has in listing order exactly the supported listed refs for which the second reply holds a supported record with a thumbnail, each as its last such record has it, and reports every listed object as scanned; it fails only if a reply is no search result |
| `LiveListing.LiveListingIsAPagedSource` | src/resourcespace_platform/services/resourcespace/_live_backend.py:427-495 | over a stable upstream a page of the live listing is that of a paged source if and only if every row of it is an object |
| `LivePaging.LiveListingIsCompleteExactly` | src/resourcespace_platform/services/resourcespace/_live_backend.py:427-495 | over a stable upstream every client gets every container and then every row with a usable preview, once and in order, if and only if no such row comes after the first row that is no object or past the reported total (past the first row, without containers) |
| `LivePaging.FollowTakesTheSafeRows` | src/resourcespace_platform/routes/content.py:155-224 | from any cursor handed out, under that condition, the rest of the pages returns the remaining containers and the kept rows up to there, whatever the limits |
| `LivePaging.ANonObjectRowShowsAnAssetTwice` | src/resourcespace_platform/services/resourcespace/_live_backend.py:306 | a row that is no object is skipped without being counted, so that the next page may start early and show an asset again |
| `LivePaging.ANonObjectRowLosesTheRest` | src/resourcespace_platform/routes/content.py:55-60 | a page of such rows alone counts nothing, the cursor jumps to the total, and every later asset is lost |
| `LivePaging.BareListEndsThePaging` | src/resourcespace_platform/services/resourcespace/_live_backend.py:301-306 | when a slice is answered as a bare list, whose own length is taken for the total, a page with room for assets is the last if and only if no row of it was an object or the rows outnumber the objects by no more than the offset |
| `LivePaging.FollowingBareListsReturnsOnePage` | src/resourcespace_platform/services/resourcespace/_live_backend.py:301-306 | following an upstream of bare lists of objects returns all containers and then one page of assets, that of the first request with room for any |
| `Base64Url.DecodeUndoesEncode` | src/resourcespace_platform/http_utils.py:74-86 | decoding undoes encoding for byte strings of every length |
| `Base64Url.EncodeShape` | src/resourcespace_platform/http_utils.py:76 | an encoding is unpadded, in the URL alphabet, and of the length its bytes need |
| `Base64Url.ThreeBytesAreOneNumber` | src/resourcespace_platform/http_utils.py:76 | three bytes become the four digits of the number they write in base 256 |
| `Base64Url.EncodeAfterDecode` | src/resourcespace_platform/http_utils.py:83-84 | every string of the alphabet of a possible length decodes, and encoding the result gives it back with its unused bits cleared |
| `S256Challenge.AcceptsExactlyEncodedDigests` | src/resourcespace_platform/routes/oauth.py:60-70 | a challenge is accepted if and only if it encodes some 32-byte string |
| `S256Challenge.AcceptsExactlyZeroPadBits` | src/resourcespace_platform/routes/oauth.py:57-70 | among the strings of the right shape the accepted ones are those whose two unused bits are zero |
| `S256Challenge.ChallengeStandsForOneDigest` | src/resourcespace_platform/routes/oauth.py:73-75 | every challenge the service computes is accepted, and two verifiers meet one challenge if and only if their digests are equal |
| `Json.QuotedStringReads` | src/resourcespace_platform/http_utils.py:74-84 | reading a quoted string gives the string back, escapes and surrogate pairs included, and leaves what follows |
| `Json.QuoteIsPrefixFree` | src/resourcespace_platform/http_utils.py:97-113 | two quoted strings with something after them are equal texts only if strings and rest are equal |
| `Json.MemberReads` | src/resourcespace_platform/http_utils.py:74-84 | a written member followed by a comma or a closing brace is read as that member and nothing more |
| `Continuation.DecodeUndoesEncodeContinuation` | src/resourcespace_platform/http_utils.py:74-94 | decoding undoes encoding for every scope key, whatever text it quotes, and every pair of offsets |
| `Continuation.ScopeKeyIsInjective` | src/resourcespace_platform/http_utils.py:97-113 | requests that differ in container, query, sort or types have different scope keys |
| `Continuation.CursorIsBoundToItsRequest` | src/resourcespace_platform/routes/content.py:142-153 | a cursor produced for one request is accepted with another if and only if container, query, sort and types agree |
| `Decimals.IntTextIsInjective` | src/resourcespace_platform/services/asset_service.py:256 | decimal texts of different integers differ |

## Left out

- HTTP routing, CORS headers, the HTML template, logging, metrics, scripts and deployment files: no state to reason about.
- Configuration parsing: settings are parameters, with a positive rate window and non-negative durations.
- The network, DNS, TLS, address validation, Pillow and the ResourceSpace API: replies are parameters.
- URL, IDNA and IP classification, trusted proxies, upload and export redirects, the Canva request signature, filename and XML escaping.
- The insides of SHA-256, HMAC, Fernet, `json` and of random generation; token-name collisions.
- File permissions, apart from an error that a save may raise, and the first creation of the store file, which the source writes directly and not atomically.
- JsonStore.FileIsTheFoldOfCommittedUpdates: takes the rename as atomic and durable, and a file that exists at the start.
- The lenient integer parsing of the `expires` parameter: the parsed integer is an input next to its text. Equality of that text with the issued one is not required to verify, in the code or here.
- Cursors that a client forges with negative offsets, negative limits, offsets as text or fractions, nested values, or non-ASCII bytes; lone surrogates in strings.
- AssetGrants.SignatureBindsIdAndExpiry: states a collision of the authentication code, not that there is none, because HMAC is a parameter.
- The constant-time comparison raises on non-ASCII text; the model has a verdict for it and not the resulting server error.
- The per-source limit is computed in floating point by the source and with integer division here.
- HandoffRuns.HandoffIsValidatedAtMostOnce: covers handoffs filed during the run; a store file edited by hand is not considered.
- RateLimiter.SharedSlidingBound: two conditions that suffice, each shown to be needed by an input, but no exact condition for the bound: a single reading before its window need not break it.
- Sessions have the fields the store reads (user id, email, tenant, upstream key, broker metadata); display names and other profile fields are not carried.
- The parameters `rotate_refresh_token` and `existing_refresh_token`, which no caller sets.
- Provenance.ReadReturnsTheCodesSession: claims the upstream key and the email only where they did not start with the sealed prefix when the session was made; one that did is opened without having been sealed.
- AccessLifetimes.AccessIsReadExactly: claims the reading only where neither key nor email started with the sealed prefix when the session was made; `Provenance.NullCipherOpensExactlyCleanSessions` says what happens otherwise without a key.
- RefreshLifetimes.RefreshIsAnsweredExactly: the same restriction; such a session may answer that it is gone.
- Revocation.RevokedRefreshNeverMintsAgain: outstanding codes and exchanges in flight are outside the revocation, in the code as in the claim.
- Cancellation of the enclosing request during a race, errors while closing a stream, and the `content-type` the fetch returns beside the body.
- The time budget of a live search and the reachability probe over several tenants.
- ConnectionRace.ReadBody: a body of no chunks is returned even if the cap is negative, as in the source.
- The scope check, rate limit and error mapping of the find handler around the paging body.
