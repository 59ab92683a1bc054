# OneIssuer authority model

OneIssuer is an OpenID Connect provider. Its hard part is one shared state machine over users,
clients, consent grants, authorization codes, refresh families, refresh generations, access rows,
browser sessions and logout transactions. About two dozen PostgreSQL transactions change that
state, and each relies on facts that other transactions maintain. This project models that machine
in Dafny, with the code around it that decides whether its promises hold for a caller: the
transaction wrapper, the row locks, introspection, the relying party's session store, the rate
limiter and keyset pagination.

`dafny verify dfyconfig.toml` checks everything.

## How it is built

- `Schema` holds the rows as values and one database value `Db`. `TokenPolicy`, `Tokens`,
  `Authorization`, `Accounts`, `Sessions`, `Logouts`, `Revocation` and `Cleanup` give every transaction
  as a function from the state it locks to the state it commits, error paths included.
- `Invariants` states what every reachable database satisfies (`Inv`) and what a step may change
  (`Stable`). `WithdrawalProofs`, `IssueProofs`, `TokenProofs`, `SessionProofs` and `CleanupProofs` prove
  both for each transaction; `Machine` puts the transactions together and proves both for every run.
- `Guarantees`, `Progress`, `Finality`, `Reuse`, `RoundTrips`, `Bindings`, `BindingFinality`, `Administrators`,
  `LogoutGuarantees` and `Introspection` draw the consequences a user of the provider relies on. `LostFamily` is
  one concrete run from the empty database.
- `ExchangeExact`, `RefreshExact`, `ConsentExact`, `RevocationExact`, `WithdrawalExact`, `SessionExact`, `LogoutExact` and
  `CleanupExact` state each transaction row by row, without the functions that define it: when it succeeds, every
  row it writes, every field of its answer and that nothing else changes; and what follows over runs.
- `Store` is the source's object: a method per transaction, statement by statement on a private copy
  that is installed on commit, proved equal to the atomic step. `Interleaving` and `RevocationInterleaving` remove
  the assumption that nothing runs between the reads of a refresh or a token revocation. `Transactions` is the retry wrapper, `LockOrder`
  the row locks.
- `RelyingParty` and `MemorySessions` are the example client's session store; `Protocol` composes it with
  the server over an unreliable network, and `BrowserSessions` adds what the store's checks mean for whole plays.
- `RateLimiter`, `WindowBounds`, `Limiter` and `LimiterExact` stand on their own, as do the lists: `Cursor` and `GrantCursor` are the two cursor
  texts, on `Base64`, `Calendar` and `Rfc3339`, and `Paging` follows them page by page. `Scopes` and `ScopeClaims`
  are the scope lists and their text.

## What is assumed

- SHA-256 is injective; a digest is its preimage, domain prefix included. The signature check and JSON
  decoding of a compact access token are a parameter of the introspection functions. Decoding the JSON of a grant
  cursor is a parameter too, taken to give back what encoding wrote.
- Random draws are parameters. A draw that collides with anything ever stored aborts the insert, as the
  primary keys and unique indexes make it; identifiers of deleted rows do not come back.
- Times are whole nanoseconds, and the clock of a run never goes back. In the protocol the relying party
  reads a clock of its own, which may do anything.
- A committed transaction is atomic, a row lock excludes every other transaction, and foreign keys act as
  the migrations declare them.

## Where a promise needs a condition

- Revoking the other sessions spares the caller's own binding exactly when no other unrevoked session shares
  it (`Bindings.RevokeOthersAndOwnBinding`). A still-unrevoked caller is safe. A caller whose session the same
  user's login has replaced is not: while the new session is unrevoked it closes its own binding
  (`BindingFinality.ReplacedSessionEndsFamilies`), and `LostFamily.LiveFamilyIsLost` is a run in which a live
  family is lost that way.
- Evicting idle rate-limit entries is unobservable exactly when the burst is at most ten times the
  per-minute rate. The configuration admits bursts up to 1000 at one request per minute
  (`RateLimiter.UnobservableExactly`).
- In every window a key is allowed at most burst + rate * elapsed requests exactly under the same condition
  (`WindowBounds.BoundHoldsPerMinute`): with a larger burst, a key that drains its burst is evicted after ten idle
  minutes and drains a full one again (`Limiter.TwentyTwoPass`). What always holds is the bound with the steeper of
  the rate and one burst per ten minutes and a nanosecond (`WindowBounds.WindowBoundAlways`).
- Administrative lists: at page size 100 the clamp removes the look-ahead row, so the list is complete exactly
  when the table has at most 100 rows. Below 100 it is complete exactly when every row that ends a page is from
  2000 on and has a non-nil id (`Paging.AdminPagesVisitAllExactly`, `Paging.LastOf101`).
- The grant list is complete exactly when every grant that ends a page has a cursor that is read back: a non-zero
  time in a four-digit year, a valid client id and a text of at most 1024 bytes
  (`Paging.GrantPagesVisitAllExactly`). Grants of registered clients in such years have one. A row that cannot be
  encoded ends the list without an error (`Paging.GrantListEndsSilently`).
- An access token's expiry claim is in whole seconds. Without clock skew the token is refused during the last
  fraction of a second before its stored expiry (`Introspection.MintedClaimsVerify`).
- A refresh token at generation 9223372036854775807 is reported active and cannot be rotated
  (`Introspection.RefreshIntrospectionExact`).

## Model

| member | source | states |
|---|---|---|
| `Machine.RunKeeps` | internal/storage/postgres/token.go:22-776 | Over every run of any transactions in any order, the invariant holds at the end, the clock has not gone back, and rows have changed only in the permitted ways (latched revocation and consumption, immutable identity fields, growing grant versions, no identifier reused) |
| `Machine.ReachableIsGood` | internal/storage/postgres/token.go:22-776 | Every state reachable from the empty database satisfies the whole invariant |
| `Machine.StepKeeps` | internal/storage/postgres/token.go:22-776 | Each single transaction, cleanup included, keeps the invariant and stability |
| `Guarantees.LiveFamilies` | internal/storage/postgres/token.go:67-145 | In every reachable state an unrevoked family has an active user, an active client holding openid and offline_access, and an unrevoked grant covering the family's scopes |
| `Guarantees.CascadesAreComplete` | internal/storage/postgres/token.go:284-304 | In every reachable state an access row agrees with its family on user, client, grant, binding and scopes, and once the family is revoked, however that came about, the row is revoked or expired |
| `Guarantees.ChainsAreUnbroken` | internal/storage/postgres/token.go:260-346 | Until its absolute deadline a family's stored generations are numbered 0..n without gap or repetition and exactly the last is unconsumed, whatever cleanup did |
| `Guarantees.CodesAreFenced` | internal/storage/postgres/authorization.go:229-289 | A code never runs ahead of its grant's version; while level with it the grant is unrevoked and covers the code's scopes; no other code shares its authorization transaction |
| `ConsentExact.IssuedExactly` | internal/storage/postgres/authorization.go:23-121 | A code is issued exactly for an open, unchanged, timely request of an active user to an active client that admits it, with consent given now or standing, under unused keys; otherwise nothing changes |
| `ConsentExact.ConsentRecorded` | internal/storage/postgres/authorization.go:229-289 | The grant after an issue: the request when there was none or it was revoked, the old scopes and the request when consent is given again, and the very same row when it is not, which then was unrevoked and covered the request |
| `ConsentExact.IssueWrites` | internal/storage/postgres/authorization.go:57-86 | The whole code row and the consumed transaction; nothing else but the grant |
| `ConsentExact.DeniedExactly` | internal/storage/postgres/authorization.go:123-165 | When a denial succeeds and the row it leaves |
| `ConsentExact.ConsentIsWhatWasGiven` | internal/storage/postgres/authorization.go:229-289 | Over every run from the empty database a grant's standing scopes are exactly those its user consented to since it was last revoked |
| `Guarantees.CodesDescendOnce` | internal/storage/postgres/token.go:107-162 | At most one family and one access row name a code, and none before the code is consumed |
| `Guarantees.RotatedOnce` | internal/storage/postgres/token.go:323-336 | After a rotation no refresh of the same token ever rotates again, in any run, by any caller |
| `Guarantees.ExchangedOnce` | internal/storage/postgres/token.go:46-58 | After a code exchange no exchange of the same code ever issues again, in any run |
| `Guarantees.IssuedOnce` | internal/storage/postgres/authorization.go:30-86 | After an authorization transaction has yielded a code it never yields another, in any run |
| `Guarantees.HonestRefreshRotates` | internal/storage/postgres/token.go:222-358 | A client authenticated in an earlier state of the run that presents the unconsumed, unexpired generation of its own unrevoked family obtains a rotation, whatever happened in between |
| `Progress.Rotates` | internal/storage/postgres/token.go:222-358 | No user, client, grant, mint or validator check can refuse a refresh of the current generation of one's own live family. Without a scope parameter the response carries exactly the scopes that family, grant and client have in common; with one it is refused exactly when it lacks openid or exceeds them. Only the largest generation number is refused otherwise |
| `Progress.RotatedWasPresentable` | internal/storage/postgres/token.go:256-308 | Conversely, whatever rotated was the unconsumed, unexpired generation of an unrevoked family of the caller |
| `ExchangeExact.IssuedRequired` | internal/storage/postgres/token.go:46-105 | Whatever is exchanged, in any state and with any draws: the stored code is unconsumed and unexpired, client and redirect URI are the code's, the verifier is well formed and its SHA-256 is the challenge, and user, client and grant at the code's version stand and cover its scopes |
| `ExchangeExact.ExchangedExactly` | internal/storage/postgres/token.go:26-190 | In a reachable state that condition is also sufficient; a consumed code is answered as replayed and everything else as an invalid grant, and only an exchange changes anything |
| `ExchangeExact.ExchangeWrites` | internal/storage/postgres/token.go:107-190 | The whole state after an exchange: the code consumed, the access row, and for offline access a family until now plus the absolute lifetime with generation 0 until now plus the rolling one; nothing else |
| `ExchangeExact.ExchangeAnswers` | internal/token/token.go:256-332 | Every claim of the access token, its lifetime in seconds, the scopes and the refresh token of the response |
| `RefreshExact.RefreshedExactly` | internal/storage/postgres/token.go:195-368 | The answer to every refresh request in a reachable state: rotated, which scope error, reuse or invalid grant; only rotation and reuse change anything |
| `RefreshExact.RotationWrites` | internal/storage/postgres/token.go:320-358 | The whole state after a rotation: the presented generation consumed, its successor with the next number expiring at the earlier of now plus the rolling lifetime and the family's deadline, and the new access row; nothing else |
| `RefreshExact.RotationAnswers` | internal/token/token.go:336-388 | Every claim of the new access token, its lifetime in seconds, the scopes and the new refresh token of the response |
| `RefreshExact.ReuseWrites` | internal/storage/postgres/token.go:284-304 | Detected reuse revokes the family and exactly its live access rows; nothing else |
| `RefreshExact.UsableExactlyUntilExpiry` | internal/storage/postgres/token.go:240-358 | Over every run that keeps the family and does not present the token, an unconsumed generation rotates at the end exactly if its stored expiry is still ahead |
| `RefreshExact.RotatedTokenLives` | internal/token/refresh.go:190-201 | Hence the refresh token of a rotation rotates in turn at every instant before the earlier of rotation plus the rolling lifetime and the family's deadline, and at none after |
| `RefreshExact.ExchangedTokenLives` | internal/token/refresh.go:174-188 | The same for the refresh token of an exchange, until exchange plus the rolling lifetime |
| `Finality.GrantRevocationIsFinal` | internal/storage/postgres/consent.go:57-141 | After a grant is revoked, no code, family or access row issued under it is accepted at the end of any run, even if consent is given again |
| `Finality.UserDisablingIsFinal` | internal/storage/postgres/admin.go:146-174 | After a user is disabled, no family or access row the user had is accepted at the end of any run, even if the user is re-enabled |
| `Finality.ClientWithdrawalIsFinal` | internal/storage/postgres/client.go:119-162 | The same for a disabled client, and for the families and family-bound access rows of a client that loses offline_access |
| `WithdrawalExact.RevokeGrantExact` | internal/storage/postgres/consent.go:57-141 | The grant row after revocation, and exactly the families and live access rows of that grant end |
| `WithdrawalExact.UpdateClientExact` | internal/storage/postgres/client.go:95-165 | The stored row carries the requested status, redirect URIs and scopes; disabling ends all the client's authority, losing offline_access the offline part, anything else nothing |
| `WithdrawalExact.UpdateUserExact` | internal/storage/postgres/admin.go:103-209 | The stored row carries the requested status and role unless the only active administrator would go; disabling ends all the user's authority, revoking sessions ends them and what is recorded under their bindings, and nothing else ends |
| `WithdrawalExact.RevokeSessionExact` | internal/storage/postgres/session.go:69-93 | One unrevoked session of the owner ends, with exactly the families and live access rows under its binding |
| `WithdrawalExact.RevokeOthersExact` | internal/storage/postgres/session.go:96-130 | Exactly the other unrevoked sessions end, with what is recorded under the bindings they have |
| `WithdrawalExact.RevokeAllExact` | internal/storage/postgres/admin.go:212-245 | The same for all sessions of an existing user |
| `BindingFinality.ClosedBindingsAreFinal` | internal/storage/postgres/session.go:171-209 | Whichever transaction closes a binding (one session revoked by id or cookie, the others, all sessions of a user, a user update, login or registration over another account, a confirmed logout), no family or access row recorded under it is accepted at the end of any run |
| `BindingFinality.ClosingStepCloses` | internal/storage/postgres/session.go:161-209 | Each of these transactions leaves no unrevoked family and no live access row under the binding, under conditions on the state before it |
| `BindingFinality.SessionsEndWithTheirBinding` | internal/storage/postgres/authn.go:202-251 | Conversely no transaction at all revokes a session without closing its binding, except a same-user login, which hands the binding on |
| `BindingFinality.ReplacedSessionLosesBinding` | internal/storage/postgres/authn.go:202-251 | After a same-user login another unrevoked session, the new one, is on the binding of the replaced session |
| `BindingFinality.ReplacedSessionEndsFamilies` | internal/storage/postgres/session.go:96-130 | The unsafe caller: after a same-user login and any further run, the replaced session, revoking the others while the new session is unrevoked, closes its own binding, and everything recorded there is refused in every run |
| `LostFamily.LiveFamilyIsLost` | internal/storage/postgres/session.go:96-130 | A run from the empty database: a family is live after its user has logged in again, and is revoked when the replaced session revokes the others |
| `Reuse.ReuseExact` | internal/storage/postgres/token.go:222-304 | In a state satisfying the invariant the reuse branch fires exactly for a consumed generation of the caller's own family while that family is unrevoked and before its deadline; no user, client or grant check can stand in the way |
| `Reuse.ReuseIsFatal` | internal/storage/postgres/token.go:284-304 | Presenting such a generation ends its family: it never mints again and none of its access rows is accepted, in any run |
| `Reuse.ReplayEndsFamily` | internal/storage/postgres/token.go:240-358 | After a rotation, presenting the same token again at any later time and whatever happened meanwhile leaves nothing of the family: no run from there rotates it or accepts one of its access tokens |
| `Reuse.GenerationPersists` | queries/token.sql:114-136 | No cleanup removes a generation before its family's absolute deadline, so a spent token stays recognizable until then |
| `Finality.DeadForever` | internal/storage/postgres/token.go:371-432 | A revoked family, a dead access row and an outdated code stay so, and no refresh, UserInfo call or exchange of them succeeds, at the end of every run |
| `Finality.DeadlinesHold` | internal/token/token.go:528-543 | In every reachable state an accepted access token of a family and a rotated refresh token are before the family's absolute deadline, which is at most 365 days after the exchange |
| `RoundTrips.IssuedCodeExchanges` | internal/storage/postgres/token.go:26-190 | A freshly issued code redeemed by its client with the right redirect URI and verifier is exchanged, for exactly the requested scopes, with a refresh token exactly for offline_access |
| `RoundTrips.ExchangedAccessAccepted` | internal/token/token.go:256-332 | The access token of an exchange is accepted by UserInfo at once, for the code's user and scopes |
| `RoundTrips.RotatedAccessAccepted` | internal/token/token.go:336-388 | The access token of a rotation is accepted by UserInfo at once, for the family's user and the granted scopes |
| `RoundTrips.ExchangedRefreshUsable` | internal/storage/postgres/token.go:107-145 | The refresh token of an exchange names a generation its client can present |
| `RoundTrips.RotatedRefreshUsable` | internal/storage/postgres/token.go:320-358 | The refresh token of a rotation can be presented next, so a chain goes on until its deadline |
| `RoundTrips.RevokedRefreshIsFinal` | internal/storage/postgres/token.go:689-776 | Revoking any generation of one's own live family ends the family and its access rows at the end of every run |
| `RoundTrips.RevokedAccessIsFinal` | internal/storage/postgres/token.go:608-687 | Revoking a usable access token ends it at the end of every run |
| `RevocationExact.ForeignRevocationIsVoid` | internal/storage/postgres/token.go:583-776 | A revocation request naming only tokens of other clients, or made with false credentials, changes nothing, in any state |
| `RevocationExact.RevokeAccessExact` | internal/storage/postgres/token.go:608-687 | In a reachable state the caller's access token is revoked, its row alone, exactly when it is live, within the client's scopes and before its family's deadline |
| `RevocationExact.RevokeRefreshExact` | internal/storage/postgres/token.go:689-776 | Any generation of the caller, consumed or not, ends its family and exactly the live access rows of that family, when the family is unrevoked and before its deadline; otherwise nothing changes |
| `RevocationExact.WithdrawableWhileAccepted` | internal/storage/postgres/token.go:608-687 | The client of a verified access token can withdraw it exactly while UserInfo accepts it, and afterwards UserInfo does not |
| `Administrators.AdministratorRemains` | internal/storage/postgres/admin.go:110-131 | Once an administrator is active, no run leaves the provider without an active administrator |
| `Bindings.OneOpenSessionPerBinding` | internal/storage/postgres/authn.go:202-248 | In every reachable state a binding belongs to one user and has at most one unrevoked session |
| `Bindings.RevokeOthersAndOwnBinding` | internal/storage/postgres/session.go:96-130 | Revoking the others leaves every row of the caller's binding untouched when no other unrevoked session shares it, and closes the binding when one does |
| `Bindings.UnrevokedSessionKeepsItsBinding` | internal/storage/postgres/session.go:96-130 | A still-unrevoked session never closes its own binding that way |
| `Bindings.ReloginKeepsFamilies` | internal/storage/postgres/authn.go:202-251 | Same-user login moves the binding to the new session, revokes the old session and changes no family or access row |
| `Bindings.AccountSwitchClosesOldBinding` | internal/storage/postgres/authn.go:202-251 | Login as another user closes exactly the old binding and starts on a binding no session ever had |
| `SessionExact.LoginExact` | internal/storage/postgres/authn.go:168-269 | A login succeeds exactly for an active user and a storable session; without a live session in the browser it stores one row on a binding of its own |
| `SessionExact.ReturningLoginExact` | internal/storage/postgres/authn.go:202-251 | With a live session of the same user the new row takes its binding and that session ends alone; with another user's, that session is closed and the binding is new |
| `SessionExact.RegisterExact` | internal/storage/postgres/authn.go:76-165 | A registration succeeds exactly for unused keys, an active first version and a storable session, and stores both rows; otherwise nothing changes |
| `SessionExact.ReturningRegisterExact` | internal/storage/postgres/authn.go:76-165 | A live session in the browser is closed by a registration |
| `SessionExact.TouchExact` | queries/session.sql:69-76 | The idle deadline of a live session moves, to the absolute deadline at most, and nothing else |
| `LogoutGuarantees.LogoutMovesForward` | internal/storage/postgres/logout.go:34-243 | Over any run a transaction moves only from pre_confirm to bound to one terminal stage, its bound user, session and binding never change, and a terminal row is frozen |
| `LogoutGuarantees.ReachableWithinLimits` | internal/storage/postgres/logout.go:69-103 | In every reachable state no session has more than MaxActive live bound transactions and no row counts more than MaxAttempts wrong proofs |
| `LogoutGuarantees.GuessesAreBounded` | internal/storage/postgres/logout.go:155-163 | However a run goes on, one logout transaction is never answered with more wrong-proof outcomes than the attempts it had left |
| `LogoutGuarantees.OnlyLatestProofCompletes` | internal/storage/postgres/logout.go:80-163 | After a bind hands out a proof, no other proof completes the transaction in any run until a bind hands out another one; refused binds change nothing |
| `LogoutGuarantees.ConfirmClosesBinding` | internal/storage/postgres/logout.go:181-209 | Confirming revokes the session, closes its binding completely and leaves every other binding untouched |
| `LogoutExact.BindExact` | internal/storage/postgres/logout.go:34-114 | Which of bound, proof rotated, at capacity and not found is answered, on the rows, and the one row written |
| `LogoutExact.CompleteExact` | internal/storage/postgres/logout.go:117-243 | Which answer is given, on the rows: a wrong proof only counts, a cancellation only retires the row and ends nothing, a confirmation retires it and closes the session |
| `Introspection.AccessIntrospectionExact` | internal/token/lifecycle.go:133-162 | For the owning confidential client an access token is active exactly when UserInfo accepts it at that instant, and every field of the answer is the token's own claim |
| `Introspection.RefreshIntrospectionExact` | internal/token/lifecycle.go:164-195 | An unscoped refresh rotates a refresh token exactly when introspection calls it active, barring the largest generation number, and grants exactly the reported scope; client, subject, issue and expiry time are those of the stored rows |
| `Introspection.HintIrrelevant` | internal/token/lifecycle.go:105-131 | The type hint never changes the answer |
| `Introspection.GrammarsDisjoint` | internal/token/lifecycle.go:29-37 | No text is both a verifiable access token and a well-formed refresh token |
| `Introspection.LiveAccessAccepted` | internal/token/token.go:504-552 | In a reachable state the verified token of an unrevoked, unexpired row is accepted exactly when the client still holds its scopes and the family's absolute deadline is ahead; no other check can refuse it |
| `Introspection.AcceptedRequires` | internal/token/token.go:429-552 | Whatever token UserInfo accepts, in any state: every claim is that of a stored row, inside its window, and row, user, client, grant and family all stand; the answer names that user and those scopes |
| `Introspection.OnlyOwnersAreAnswered` | internal/token/lifecycle.go:105-195 | Introspection answers only an active confidential client, only about tokens of its own, and calls a refresh token active only if it is unspent and everything behind it stands |
| `Introspection.MintedClaimsVerify` | internal/token/token.go:491-501 | Minted claims pass verification from issue until the clock passes the whole-second expiry claim by more than the configured skew, and not after |
| `Interleaving.RefreshIsAtomic` | internal/storage/postgres/token.go:195-368 | With unlocked candidate reads, arbitrary transactions in between and locked re-reads, a refresh answers and writes exactly what one atomic refresh would in the state where it decides; it writes only in the state where all its rows are locked |
| `RevocationInterleaving.RevocationIsAtomic` | internal/storage/postgres/token.go:583-776 | The same for RevokeToken: whatever commits between its unlocked candidate read and its locks, it leaves exactly what one atomic revocation of the row it found would in the state where it decides, and writes only where all its rows are locked |
| `RevocationInterleaving.PresentedRevocationIsAtomic` | internal/token/lifecycle.go:76-100 | Whatever text a client presents, its lookup carries at most one digest, and so the call refines one atomic RevokeToken |
| `Transactions.Wrapper.InTx` | internal/storage/postgres/domain_helpers.go:24-61 | The loop with its resets leaves the database, the captured variables and the error that the wrapper's definition gives, each attempt having an operation, a begin and a commit result of its own |
| `Transactions.OutputsOfTheCommittedAttempt` | internal/storage/postgres/domain_helpers.go:24-61 | However the two attempts behave, what the caller keeps is the output of the single committed attempt, run from reset variables, or the reset value; at most one attempt becomes durable, also when a commit goes unacknowledged |
| `Transactions.LastAttemptDecides` | internal/storage/postgres/domain_helpers.go:24-61 | Only a retryable operation error of the first attempt is retried; then which error the caller gets, what it keeps and what is durable, for each way the last attempt ends: no begin, an operation error passed on, a commit acknowledged, lost or unacknowledged |
| `Transactions.RefreshTokensOnlyIfStored` | internal/storage/postgres/token.go:214-221 | With fresh draws and a fault of its own in each attempt, a refresh response leaves the process only if the committed attempt minted it, and the digests of its access and refresh token are both stored |
| `Transactions.ExchangeTokensOnlyIfStored` | internal/storage/postgres/token.go:30-37 | The same for the response to an authorization code |
| `Transactions.RetryKeepsOnlyTheSecond` | internal/storage/postgres/token.go:214-221 | When a retryable fault strikes after the first attempt has set its response and the retry rotates with other draws on the same rows, the caller gets the second response and the database holds the second rotation only |
| `Transactions.LoginReturnsStoredBinding` | internal/storage/postgres/authn.go:186-269 | A successful login returns the binding of the session it stored; a binding inherited by a rolled-back attempt does not leak into the retry |
| `LockOrder.NoDeadlock` | internal/storage/postgres/token.go:222-280 | In every reachable configuration of concurrent issue, denial, exchange, refresh, token revocation, grant revocation and client update the wait-for graph has no cycle |
| `LockOrder.SomeoneCanMove` | internal/storage/postgres/token.go:222-280 | As long as any of these transactions is open, one of them can take its next lock or finish |
| `LockOrder.ProgramsAreDisciplined` | internal/storage/postgres/token.go:192-194 | Every operation locks transaction or code, user, client and grant in that order, and token rows only under the row of the client that owns them |
| `LockOrder.NoWaitForTokens` | internal/storage/postgres/client.go:121-143 | Nobody ever waits for a family, generation or access row |
| `Protocol.NeverPresentsTwice` | examples/oidc-client/server.go:206-265 | In every play of relying party, server, unreliable network and concurrent browsers, the relying party sends no refresh token twice |
| `Protocol.ReuseNeverFires` | internal/storage/postgres/token.go:284-304 | Hence no request of the relying party that the server receives is ever treated as reuse |
| `Protocol.ConsumersOwn` | internal/storage/postgres/token.go:240-327 | A generation becomes consumed only by a refresh with the credentials of the client that owns its family, whatever the transaction |
| `Protocol.MoveSound` | examples/oidc-client/server.go:568-610 | Every move of either party keeps the protocol invariant: waiting tokens are distinct and unpresented, requests under way are unprocessed, consumption is accounted for |
| `BrowserSessions.StaleAttemptRefused` | examples/oidc-client/server.go:159-187 | In every play, a sign-in attempt the session is not waiting for stores no login, until the session starts that very attempt again |
| `BrowserSessions.WhatReplacesAnAttempt` | examples/oidc-client/server.go:139-201 | Starting another attempt, completing this one and giving it up each make it such an attempt |
| `BrowserSessions.StaleLogoutRefused` | examples/oidc-client/server.go:289-301 | In every play, a logout return with a state the session did not last ask with never ends the session, until it asks with that state |
| `BrowserSessions.ForeignCsrfSendsNothing` | examples/oidc-client/server.go:206-227 | Without the session's own csrf value no refresh request leaves the relying party |
| `RateLimiter.UnobservableExactly` | internal/httpserver/auth_rate_limit.go:116-190 | Over all runs with room in the table, eviction gives the same decisions as never evicting if and only if the burst is at most ten times the per-minute rate |
| `RateLimiter.EvictionUnobservable` | internal/httpserver/auth_rate_limit.go:135-190 | The forward half, from any pair of agreeing tables |
| `RateLimiter.EvictionObservable` | internal/httpserver/auth_rate_limit.go:135-172 | For every larger burst, a concrete run on which the decisions differ |
| `WindowBounds.BoundHoldsPerMinute` | internal/httpserver/auth_rate_limit.go:135-190 | For the rates the configuration admits: in every window of every run each key is allowed at most burst + rate * elapsed requests if and only if the burst is at most ten times the per-minute rate |
| `WindowBounds.BoundHoldsExactly` | internal/httpserver/auth_rate_limit.go:135-190 | For any policy: that bound holds if and only if the burst is earned back in the ten minutes and a nanosecond after which an idle entry can be evicted |
| `WindowBounds.WindowBoundAlways` | internal/httpserver/auth_rate_limit.go:135-190 | Without any condition, also when the table is full: at most burst + max(rate, burst / (TTL + 1 ns)) * elapsed requests |
| `WindowBounds.WindowBound` | internal/httpserver/auth_rate_limit.go:135-190 | The general bound, from any table: a key's potential, which is at most the burst, and what any rate earns that is at least the policy's and earns the burst before an idle entry can be evicted |
| `RateLimiter.TableNeverExceeds` | internal/httpserver/auth_rate_limit.go:95-99 | A table never exceeds 4096 entries |
| `Limiter.SameAnswers` | internal/httpserver/auth_rate_limit.go:77-114 | With a burst of at most ten times the per-minute rate and room in the table for every new address, the address limiter behind the global bucket still answers as one that never evicts |
| `Limiter.GlobalBound` | internal/httpserver/auth_rate_limit.go:88-111 | In any window at most globalBurst + rate * elapsed requests pass in all |
| `Limiter.AddressBoundHoldsExactly` | internal/httpserver/auth_rate_limit.go:77-114 | Behind a global bucket with room for two bursts, in every window of every run at most burst + rate * elapsed requests of each address pass if and only if the burst is earned back before an idle entry can be evicted |
| `Limiter.AddressBoundIfEarned` | internal/httpserver/auth_rate_limit.go:77-114 | That condition suffices behind any global bucket |
| `Limiter.AddressBoundAlways` | internal/httpserver/auth_rate_limit.go:77-114 | Without any condition at most burst + max(rate, burst / (TTL + 1 ns)) * elapsed requests of one address pass |
| `Limiter.AddressBound` | internal/httpserver/auth_rate_limit.go:77-114 | The general bound by an address's potential and a rate that earns the burst before an idle entry can be evicted |
| `Limiter.TwentyTwoPass` | internal/httpserver/auth_rate_limit.go:77-129 | The default global policy, one request per minute and burst 11: a run in which 22 requests of one address pass where burst and rate allow fewer than 22 |
| `Limiter.GlobalPaysExactly` | internal/httpserver/auth_rate_limit.go:88-114 | The global bucket loses exactly one token for a request that passes and none for one that does not |
| `LimiterExact.AllowedExactly` | internal/httpserver/auth_rate_limit.go:77-114 | A request passes exactly when the global bucket holds a token, the address has room in the table and its own bucket holds a token |
| `LimiterExact.ChargeExact` | internal/httpserver/auth_rate_limit.go:95-111 | What a charge leaves in the table: the key's bucket pays for what passes, and when the next sweep is due |
| `LimiterExact.ChargeSparesOthers` | internal/httpserver/auth_rate_limit.go:95-129 | Every other key keeps its bucket as it is, unless a new key's arrival sweeps it away after ten idle minutes |
| `LimiterExact.GlobalRefusesOnlyWhenSpent` | internal/httpserver/auth_rate_limit.go:88-111 | Over every run the global bucket is empty only after at least its content less one has passed |
| `LimiterExact.FloodSparesOthers` | internal/httpserver/auth_rate_limit.go:103-108 | However many requests one address sends, it takes from the global bucket no more than it was allowed, so another address still passes while the global burst covers that |
| `LimiterExact.DefaultsSpareOthers` | internal/httpserver/auth_rate_limit.go:52-75 | With the default settings a burst of any size from one address leaves room for another |
| `Limiter.AuthenticationRateLimiter.constructor` | internal/httpserver/auth_rate_limit.go:52-75 | Each non-positive setting takes its default (20 and 10 per address, 50 and 100 globally); the global bucket is full, both tables are empty and the first sweeps are due after one interval |
| `Limiter.AuthenticationRateLimiter.Allow` | internal/httpserver/auth_rate_limit.go:77-114 | The method leaves the state and gives the decision of the limiter's definition, keeps the invariant, and takes from the global bucket exactly one token if the request passes and none otherwise |
| `Limiter.AuthenticationRateLimiter.AllowClient` | internal/httpserver/auth_rate_limit.go:135-159 | The same for authenticated clients; the nil client always passes |
| `Limiter.AuthenticationRateLimiter.SweepLocked` | internal/httpserver/auth_rate_limit.go:116-129 | The sweep deletes exactly the entries not charged for the TTL, at most once per interval |
| `Limiter.AuthenticationRateLimiter.SweepAuthenticatedLocked` | internal/httpserver/auth_rate_limit.go:162-173 | The same for the table of authenticated clients |
| `Cursor.DecodeExact` | internal/pagination/cursor.go:34-58 | Decoding accepts exactly the encodings of positions from the year 2000 on with a non-nil id, and returns those positions |
| `Cursor.Encode` | internal/pagination/cursor.go:24-30 | Filling the buffer gives version byte, big-endian two's-complement nanoseconds and id, in base64 |
| `GrantCursor.RoundTripExactly` | internal/consent/consent.go:132-163 | Decoding an encoded grant cursor gives the position back exactly when its year has four digits and the text is at most 1024 bytes, and refuses it otherwise |
| `GrantCursor.RegisteredRoundTrip` | internal/consent/consent.go:132-171 | For a registered client's id and any non-zero time in the years 0 to 9999 the cursor is non-empty and is read back |
| `GrantCursor.EmptyExactly` | internal/consent/consent.go:132-138 | The empty text is written exactly for a zero time or an invalid client id |
| `GrantCursor.DecodeSound` | internal/consent/consent.go:141-163 | Whatever text is accepted names a position that has a cursor of its own, in a four-digit year |
| `GrantCursor.UnmarshalIsFaithful` | internal/consent/consent.go:149-153 | The JSON a cursor is written as determines its time and client id, so there is a decoder that gives back what encoding wrote |
| `Rfc3339.ParseFormat` | internal/consent/consent.go:158-162 | Reading the RFC 3339 text of an instant, with its trimmed fraction, gives the instant back exactly when its year has four digits |
| `Calendar.InstantExact` | internal/consent/consent.go:136-136 | Every instant has exactly one valid Gregorian date and time of day, and every valid one is exactly one instant |
| `Paging.FollowExactly` | internal/consent/consent.go:93-112 | For any list and cursor text that is read back or refused: following the texts with one look-ahead row shows the rest of the list once, in order, and ends, if and only if every row that ends a page is named by its text |
| `Paging.GrantPagesVisitAllExactly` | internal/consent/consent.go:93-112 | For every limit from 1 to 100, following the cursor texts shows every grant exactly once and in order if and only if every grant that ends a page has a cursor that is read back |
| `Paging.GrantPagesVisitAll` | internal/consent/consent.go:93-112 | Grants of registered clients last changed in the years 0 to 9999 are all shown |
| `Paging.GrantListEndsSilently` | internal/consent/consent.go:132-135 | A grant with a zero time or an invalid client id at the end of a page ends the list without an error, whatever follows |
| `Paging.AdminPagesVisitAllExactly` | internal/storage/postgres/admin.go:343-347 | For administrative lists, following the cursor texts shows every row if and only if, below limit 100, every row that ends a page is from 2000 on with a non-nil id, and at limit 100, the table has at most 100 rows |
| `Paging.LastOf101` | internal/storage/postgres/admin.go:343-347 | A list of 101 acceptable rows whose last row is never shown at limit 100 and is shown at limit 99 |
| `Base64.DecodeExact` | internal/token/refresh.go:161-170 | The strict decoder accepts exactly the encodings of byte strings, up to the line breaks it skips |
| `Base64.RoundTrip` | internal/token/refresh.go:141-152 | Decoding an encoding gives the bytes back |
| `ScopeClaims.ParseExact` | internal/token/token.go:598-608 | The scope claim parser accepts exactly the canonical rendering of a scope set containing openid |
| `Scopes.CanonicalScopes` | internal/consent/consent.go:227-248 | The result is the sorted list of the requested scopes, or an error exactly for unsupported, repeated or openid-less input |
| `Scopes.Union` | internal/consent/consent.go:250-264 | The sorted list of the scopes in either list |
| `Scopes.Intersection` | internal/consent/consent.go:266-279 | The sorted list of the scopes in both lists |
| `Scopes.Difference` | internal/consent/consent.go:281-293 | The sorted list of the scopes in the first list only |
| `Scopes.SortedSet` | internal/consent/consent.go:325-333 | The sorted list of a set, which is unique |
| `Scopes.LessIsRank` | internal/consent/consent.go:325-333 | The order used for scopes is the byte order of their names |
| `TokenPolicy.GrammarExact` | internal/token/refresh.go:161-170 | The presented-token grammar accepts exactly what the generator can produce |
| `TokenPolicy.MintedIsValid` | internal/storage/postgres/token.go:508-526 | Whatever mint produces under a valid configuration passes the storage validator |
| `TokenPolicy.RefreshMintedIsValid` | internal/storage/postgres/token.go:528-538 | Whatever mintRefresh produces passes the storage validator, exactly unless the generation number is the largest |
| `TokenPolicy.RefreshDeadlines` | internal/token/refresh.go:174-188 | Refused exactly for a zero issue time or invalid lifetimes; otherwise the deadlines are issue plus rolling and issue plus absolute, within 30 and 365 days, and the first is never after the second |
| `TokenPolicy.ReplacementExpiry` | internal/token/refresh.go:190-201 | Refused exactly for a zero time, an issue at or after the absolute deadline, or a rolling lifetime outside one hour to 30 days; otherwise the earlier of issue plus rolling and the absolute deadline |
| `TokenPolicy.SelectScopes` | internal/token/refresh.go:213-230 | An invalid grant exactly when family, grant and client no longer share openid and offline_access; an invalid scope only for a request without openid or beyond what they share; otherwise exactly the request, or all they share |
| `Progress.DomainsDisjoint` | internal/token/refresh.go:154-159 | Digests of refresh tokens and of token identifiers never coincide |
| `Store.Store.ExchangeAuthorizationCode` | internal/storage/postgres/token.go:26-190 | Statement by statement, with rollback on every failure, the method is one atomic exchange and keeps the invariant; what it exchanges was due: code, client, redirect URI, verifier, accounts and grant, on the rows |
| `Store.Store.ExchangeRefreshToken` | internal/storage/postgres/token.go:195-368 | The same for refresh: rotation, reuse detection and every refusal; after a rotation the successor is stored, to expire at the earlier of now plus the rolling lifetime and the family's deadline |
| `Store.Store.RevokeToken` | internal/storage/postgres/token.go:583-776 | The same for client-requested revocation of an access row or of a family, its reads taken as one moment; `RevocationInterleaving` removes that |
| `Store.Store.IssueAuthorizationCode` | internal/storage/postgres/authorization.go:23-121 | The same for code issue; the grant is exactly what was consented to, recorded, reactivated, expanded or left alone |
| `Store.Store.DenyAuthorization` | internal/storage/postgres/authorization.go:123-165 | The same for denial |
| `Store.Store.RevokeCurrentUserGrant` | internal/storage/postgres/consent.go:57-141 | The same for grant revocation with its cascade; the answer is the revoked grant, also when it was revoked before, or nothing exactly when user, client or grant is missing |
| `Store.Store.UpdateClient` | internal/storage/postgres/client.go:95-165 | The same for client updates and the cascade each needs; missing client, missing openid and version conflict are each answered exactly then |
| `Store.Store.UpdateManagedUser` | internal/storage/postgres/admin.go:103-209 | The same for user updates: missing user, last administrator and version conflict are each answered exactly then, otherwise the stored row after cascade and session loop |
| `Store.Store.RevokeAllManagedUserSessions` | internal/storage/postgres/admin.go:212-245 | The same for closing all sessions of a user; the count is exactly their number, and a missing user has none |
| `Store.Store.RevokeUserSession` | internal/storage/postgres/session.go:69-93 | The same for one session, with and without the owner check; it answers whether there was such an unrevoked session, and then it is revoked |
| `Store.Store.RevokeSessionByHash` | internal/storage/postgres/session.go:133-159 | The same for the session a cookie names; it answers whether there was one to revoke |
| `Store.Store.RevokeOtherUserSessions` | internal/storage/postgres/session.go:96-130 | The same for closing the other sessions; the count is exactly their number |
| `Store.Store.CommitLogin` | internal/storage/postgres/authn.go:168-269 | The same for login rotation and account switching |
| `Store.Store.CommitRegistration` | internal/storage/postgres/authn.go:76-165 | The same for registration; it succeeds exactly when the keys are new, the user row is an active first version and the session lies ahead |
| `Store.Store.BindLogoutTransaction` | internal/storage/postgres/logout.go:34-114 | The same for binding a logout transaction or rotating its proof |
| `Store.Store.CompleteLogoutTransaction` | internal/storage/postgres/logout.go:117-243 | The same for confirming or canceling it |
| `Store.Store.CleanupProtocolArtifacts` | internal/storage/postgres/token.go:436-469 | The batch loop ends; exactly the codes and access rows retired at the cutoff are gone, families and access rows that stay are as they were but for references, all other tables are untouched, and the total counts what went |
| `Store.Store.CleanupRefreshArtifacts` | internal/storage/postgres/token.go:475-506 | The batch loop ends with exactly the generations gone that were retired at the cutoff and named by no access row, and exactly the retired families gone that nothing then referred to; nothing else changed, and the total counts what went |
| `Store.RevokeBindings` | internal/storage/postgres/session.go:171-209 | The deduplicating loop revokes exactly what is recorded under the listed non-nil bindings |
| `Store.CollectBindings` | internal/storage/postgres/session.go:103-109 | The first loop gathers exactly the bindings of the listed sessions but the current one |
| `Store.RevokeListed` | internal/storage/postgres/session.go:113-122 | The second loop revokes exactly the listed sessions but the current one and counts them |
| `WithdrawalProofs.CascadeKeeps` | internal/storage/postgres/session.go:171-209 | A cascade by user, client, grant, bindings or family keeps the invariant |
| `WithdrawalProofs.CascadeEmpties` | queries/token.sql:165-272 | A cascade leaves no unrevoked family and no live access row that its selector names |
| `WithdrawalProofs.SelectorCoversAccesses` | queries/token.sql:165-272 | A selector that names a family names every access row of that family |
| `WithdrawalProofs.UpdateClientKeeps` | internal/storage/postgres/client.go:95-165 | A client update with its cascade keeps the invariant: no live family outlives its client's status or offline scope |
| `WithdrawalProofs.RevokeGrantKeeps` | internal/storage/postgres/consent.go:57-141 | Grant revocation keeps the invariant, version fencing included |
| `WithdrawalProofs.RevokedGrantIsEmpty` | internal/storage/postgres/consent.go:87-118 | Nothing lives on a revoked grant, so reactivating it revives nothing |
| `IssueProofs.ConsentKeeps` | internal/storage/postgres/authorization.go:229-289 | Creating, reactivating, reusing or expanding a grant keeps the invariant, and the resulting grant is unrevoked and covers the request |
| `IssueProofs.IssueKeeps` | internal/storage/postgres/authorization.go:23-121 | Code issue keeps the invariant |
| `TokenProofs.ExchangeKeeps` | internal/storage/postgres/token.go:26-190 | Code exchange keeps the invariant |
| `TokenProofs.RefreshKeeps` | internal/storage/postgres/token.go:195-368 | Refresh keeps the invariant |
| `TokenProofs.UnconsumedIsHighest` | internal/storage/postgres/token.go:320-336 | An unconsumed generation is above all others of its family, which are consumed |
| `TokenProofs.RevocationsKeep` | internal/storage/postgres/token.go:583-776 | Client-requested revocation keeps the invariant |
| `SessionProofs.LoginKeeps` | internal/storage/postgres/authn.go:168-269 | Login keeps the invariant, one unrevoked session per binding included |
| `SessionProofs.UpdateUserKeeps` | internal/storage/postgres/admin.go:103-209 | A user update with its cascades keeps the invariant |
| `SessionProofs.CompleteKeeps` | internal/storage/postgres/logout.go:117-243 | Completing a logout keeps the invariant |
| `CleanupProofs.DeleteCodesKeeps` | internal/storage/postgres/sqlcgen/authorization.sql.go:114-139 | Deleting retired codes, with references set to null, keeps the invariant |
| `CleanupProofs.DeleteGenerationsKeeps` | queries/token.sql:114-136 | Deleting generations of retired families keeps every chain before its deadline whole |
| `CleanupProofs.DeleteFamiliesKeeps` | queries/token.sql:138-163 | Deleting unreferenced retired families keeps the invariant |
| `CleanupProofs.DeleteSessionsKeeps` | queries/session.sql:167-180 | Deleting retired sessions, detaching codes, families and access rows together, keeps the invariant |
| `CleanupExact.DeleteCodesExact` | queries/authorization.sql:30-41 | A batch goes exactly if all of it has expired; families and access rows only lose their reference to it |
| `CleanupExact.DeleteGenerationsExact` | queries/token.sql:114-136 | A batch goes exactly if every family in it is past its deadline and its revocation, and no access row names it |
| `CleanupExact.DeleteFamiliesExact` | queries/token.sql:138-163 | The same for families, once nothing refers to them |
| `CleanupExact.DeleteSessionsExact` | queries/session.sql:167-180 | A batch goes exactly if all of it is past and no logout names it; what referred to it only loses the reference |
| `MemorySessions.MemorySessions.PruneLocked` | examples/oidc-client/server.go:309-319 | The sweep deletes exactly the expired sessions, when due or when the store is full |
| `MemorySessions.MemorySessions.Get` | examples/oidc-client/server.go:86-95 | Returns a current session and drops an expired one |
| `MemorySessions.MemorySessions.Create` | examples/oidc-client/server.go:97-120 | The method is the atomic operation the protocol uses |
| `MemorySessions.MemorySessions.BeginAuthorization` | examples/oidc-client/server.go:139-153 | Likewise; it succeeds exactly for a current session and a complete attempt, and only the pending attempt, deadline and revision change |
| `MemorySessions.MemorySessions.CompleteWithTokens` | examples/oidc-client/server.go:159-187 | Likewise; the session moves to a new id exactly if it is there after the sweep, the same attempt is pending and the new id is free |
| `MemorySessions.MemorySessions.ClearPending` | examples/oidc-client/server.go:189-201 | Likewise; exactly the attempt that is pending is cleared |
| `MemorySessions.MemorySessions.ClaimRefresh` | examples/oidc-client/server.go:206-227 | Likewise; a claim is made exactly for a current signed-in session with a token, none of it in flight, its own csrf value and a version left |
| `MemorySessions.MemorySessions.ReplaceRefresh` | examples/oidc-client/server.go:231-247 | Likewise; exactly the claimed version still in flight may store a response |
| `MemorySessions.MemorySessions.FailRefresh` | examples/oidc-client/server.go:251-265 | Likewise; exactly the claimed version still in flight discards its tokens |
| `MemorySessions.MemorySessions.BeginLogout` | examples/oidc-client/server.go:270-285 | Likewise; it succeeds exactly with the session's own id token and csrf value and a state |
| `MemorySessions.MemorySessions.FinishLogout` | examples/oidc-client/server.go:289-301 | Likewise; exactly the pending state within its ten minutes deletes the session |

## Left out

- HTTP handlers, cookies, templates and routing; the relying party's handlers appear only as the moves of `Protocol`.
- Audit events, revoke reasons, metrics and log lines: they carry no authority.
- Credentials, pre-auth sessions, identifiers and profile fields of users, client secrets and client names.
- The post-logout redirect, state and hint subject of a logout transaction.
- ID tokens, beyond the validator's bound on their lifetime.
- Key selection, RS256 and JSON decoding of a compact token: one parameter, `jose`.
- The consent page: `consent.Evaluate`, which sorts a request into granted and new scopes for display, and the page's CSRF token (`RotateSessionCSRF`).
- JSON decoding of a grant cursor: one parameter, which is taken to undo encoding.
- time.Parse beyond RFC 3339 in UTC with a point: no other text is the one its instant is written as, so the cursor's comparison refuses it.
- Rounding: token counts of the rate limiter are real numbers, and PostgreSQL's microsecond timestamps are exact here.
- The commit of a login or registration in `LockOrder`, and the key-share locks that foreign keys take.
- Two commits of one refresh racing at the very last lock: `Interleaving`, like `RevocationInterleaving`, treats everything from the generation lock to the commit as one moment, which the held locks justify.
- SKIP LOCKED: the cleanup loops of `Store` pick any full batch; `Cleanup` and the invariant allow every batch.
- `memorySessions.save`, which no handler calls.
- Limiter.AuthenticationRateLimiter.Allow: addresses arrive with any IPv4 mapping already removed.
- Store.Store.UpdateClient: name, logo and registration flag are not part of the row; the service's openid check is folded in.
- Store.Store.CommitRegistration: the identifiers that make a registration a duplicate are not part of the user row.
- Paging.AdminPagesVisitAllExactly: rows whose time does not fit 64 bits of nanoseconds, for which Go leaves the cursor undefined.
