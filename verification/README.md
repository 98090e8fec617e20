# Sessions, identities, rate limits and permissions: a Dafny model

This project models the parts of the template on which its safety rests, and proves what they keep
over every run.

- **The session store.** `SessionTable.dfy` holds the table `app.user_sessions`, its constraints and
  the seven stored procedures, each as a function on rows and as a method that changes the table in
  place and is proved equal to the function. `SessionProtocol.dfy` lets transactions interleave: a
  rotation is "lock and read" and then "insert, revoke, commit", a touch is an unlocked read and then
  an update, a bulk revocation is a snapshot and then a commit, and every transaction has a start time of
  its own. `SessionSafety.dfy`, `SessionTouches.dfy` and `BulkRevocation.dfy` hold the theorems about
  runs, `AuthRoutes.dfy` and `RefreshRoute.dfy` those about HTTP requests taken as sequences of
  repository calls.
- **The two session repositories.** `SessionRepository.dfy` has the adapter over the procedures and the
  in-memory repository with its mutable records; `SessionAgreement.dfy` proves when they answer alike.
- **Identity provisioning.** `IdentityTables.dfy` holds `app.map_identity` with its savepoint,
  `IdentityProvisioning.dfy` any number of racing calls, `IdentitySafety.dfy` the theorems.
- **Rate limiting.** `RateLimitKeys.dfy`, `RateLimitBackend.dfy` and `RateLimiting.dfy` hold the key
  builder, the two backends and the limiter, `RateLimitRedis.dfy` the limiter over the script;
  `ClientIp.dfy` the address a rule keys on.
- **Authorization and signing keys.** `Authorization.dfy` sets the policy decision against the coarse
  scopes computed from the same policy; `JwksCache.dfy` holds the key cache and `JwksOverlap.dfy` any
  number of calls that share it while they wait for their fetches.

`Text.dfy` and `Wrappers.dfy` are helpers. `dafny verify dfyconfig.toml` checks everything.

## Assumptions

- `now()` is fixed when a transaction starts. Start times are arbitrary and need not follow the order
  of commits. SQL time counts microseconds; the rate limiter and the key cache use real numbers.
- A row lock is held until its transaction ends, and whoever waited reads the row afterwards
  (READ COMMITTED). Row ids are never drawn twice. A token brought by a login or a rotation has never
  been named before, by anyone; this is needed only where a theorem says `Fresh`. Digests of the tokens
  in use do not collide; decryption undoes encryption.
- In the interleaved model a bulk revocation selects rows in a snapshot, waits until none of them is
  locked and revokes those that still match, all at its commit. A purge deletes any set of matching rows
  that are not locked; the exact set is stated for the procedure itself.
- A Redis script runs at one frozen time, and a key is gone once its deadline is reached.
- For the agreement of the two repositories each call reads the clock once. The methods of the
  in-memory repository are modelled with the two readings they take.

## What the code does otherwise than its comments say

- Logout "must never fail" (`revoke_user_session.sql:3-4`): the procedure never does, but the route
  authenticates first. A logout that no other request comes between succeeds exactly when its token
  resolves at its read and at its touch (`AuthRoutes.LogoutSucceedsIff`), so an unknown, purged, revoked,
  refreshed-away or expired token is refused (`AuthRoutes.LogoutOfIdleSessionIsRefused` is such a run).
  Logout ends the login exactly when the token presented is still the one in use
  (`SessionSafety.LogoutEndsLoginIff`).
- "Log out everywhere" (`revoke_all_user_sessions.sql:2-3`) reaches what was committed when it started. The
  successor of a refresh it had to wait for survives (`BulkRevocation.SuccessorOutlivesRevokeAll`), and so
  does a session that had idled out and is brought back by a touch under way
  (`BulkRevocation.TouchOutlivesRevokeAll`). A session is left active exactly when a login, a rotation or
  such a touch committed meanwhile brought it to stay (`BulkRevocation.LeftActiveIff`,
  `BulkRevocation.BulkIsCompleteIff`).
- A purge with a grace window below minus one microsecond can remove an active session
  (`SessionTable.PurgeSparesActiveIff`).
- A touch does not always return an idle expiry (`touch_user_session.sql:5`): it returns null exactly when a
  purge took its row between its two steps (`SessionTouches.TouchAnswersNullIffPurged`,
  `SessionTouches.NullTouchIsReached`), which needs a purge that starts more than its grace window after
  the deadline or the revocation of a session still being touched
  (`SessionTouches.ImpatientPurgeTakesTouchedRow`). The adapter then raises a TypeError.
- Rate limit keys are not "collision-free" (`keys.py:3-4`): a colon and an underscore are the same in a
  rule name or an identifier, and nothing else is (`RateLimitKeys.BucketsEqualIff`).
- "At most once per `min_refresh_interval_seconds`" (`jwks_client.py:5-6`) fails in three ways. Calls that
  overlap fetch together: for every config two calls on a cold cache both fetch with success at the same
  instant (`JwksOverlap.OverlapBreaksInterval`). Failed fetches are not limited. And a stale cache is
  fetched without regard to the interval. What holds: two successful fetches closer than the smaller of
  TTL and minimum interval overlap (`JwksOverlap.CloseFetchesOverlap`), so a run keeps that interval
  exactly when its overlapping fetches do (`JwksOverlap.ApartIffOverlappingAre`); with one fetch under way
  at a time it is kept, and the minimum interval itself exactly when the TTL is not shorter
  (`JwksOverlap.SerialKeepsIntervalIff`). Within less than the smaller interval the endpoint is asked once
  by every call with reason to, until a fetch succeeds, and no more after that
  (`JwksOverlap.BegunAreAskers`).
- A counter outlives its window when the window of its rule was shortened meanwhile, in Redis
  (`RateLimitBackend.CheckBoundsExpiryIff`) and in memory (`RateLimitBackend.ResetEndsWindow`).
- When every forwarded hop is trusted, the leftmost is returned, so a prepended address becomes the
  answer (`ClientIp.PrependedAddressIsIgnoredIff`).
- The in-memory repository checks neither membership nor reuse of a token
  (`SessionAgreement.CallAgreesIff`).
- The tenant choice of `map_identity` is open when two usable memberships share first place
  (`IdentitySafety.AnswersAgreeIff`).

## Model

| member | source | states |
|---|---|---|
| `SessionTable.UserSessions.CreateUserSession` | database/postgres/procedures/app/sessions/create_user_session.sql:37-65 | tenant, then membership, then the unique hash decide; otherwise the new row and its two expiries; the constraints stay |
| `SessionTable.UserSessions.GetUserSession` | database/postgres/procedures/app/sessions/get_user_session.sql:18-46 | missing, revoked, expired in that order, otherwise the row and its user's email; changes nothing |
| `SessionTable.UserSessions.TouchUserSession` | database/postgres/procedures/app/sessions/touch_user_session.sql:15-35 | alone, it slides the idle expiry as `Touch` says and never answers null |
| `SessionTable.UserSessions.RotateUserSession` | database/postgres/procedures/app/sessions/rotate_user_session.sql:31-67 | insert and revoke together are `Rotate`; every constraint holds afterwards |
| `SessionTable.UserSessions.RevokeUserSession` | database/postgres/procedures/app/sessions/revoke_user_session.sql:13-19 | the new table is `Revoke` of the old |
| `SessionTable.UserSessions.RevokeAllUserSessions` | database/postgres/procedures/app/sessions/revoke_all_user_sessions.sql:14-25 | exactly the active rows of user and tenant are revoked, and their number is returned |
| `SessionTable.UserSessions.DeleteExpiredSessions` | database/postgres/procedures/app/sessions/delete_expired_sessions.sql:18-25 | exactly the purgeable rows go, links into them are cleared, the count is what is missing |
| `SessionTable.KeepsConstraints` | database/postgres/schema/app/tables/user_sessions.sql:26-31 | an update or a purge that keeps hashes and clears dangling links keeps unique, check and reference constraints |
| `SessionTable.GetAnswers` | database/postgres/procedures/app/sessions/get_user_session.sql:25-33 | a token resolves exactly when a row carries its hash and is active; each error code has its exact condition |
| `SessionTable.CreateAnswers` | database/postgres/procedures/app/sessions/create_user_session.sql:38-58 | the exact condition of each refusal of a login, and that a refused login changes nothing |
| `SessionTable.ReadJoinsEmail` | database/postgres/procedures/app/sessions/get_user_session.sql:19-23 | a read of a usable session carries the address of its own user, or none |
| `SessionTable.RevokeAllInColumns` | database/postgres/procedures/app/sessions/revoke_all_user_sessions.sql:15-21 | which rows a bulk revocation changes and how, column by column |
| `SessionTable.PurgeInColumns` | database/postgres/procedures/app/sessions/delete_expired_sessions.sql:19-21 | which rows a purge removes and what it does to the others, column by column |
| `SessionTable.CreatedSessionResolvesIff` | database/postgres/procedures/app/sessions/create_user_session.sql:49-64 | a new login resolves at once exactly when both lifetimes are positive |
| `SessionTable.RotationMovesSession` | database/postgres/procedures/app/sessions/rotate_user_session.sql:2-3 | old token refused, new token resolves, user, tenant and absolute expiry carried over, no other row touched |
| `SessionTable.TouchMovesIdleOnly` | database/postgres/procedures/app/sessions/touch_user_session.sql:2-3 | succeeds exactly on an active row, moves only its idle expiry, to the time returned |
| `SessionTable.RevokeIsFinalAndIdempotent` | database/postgres/procedures/app/sessions/revoke_user_session.sql:2-4 | after it the token is refused whatever it was, and again changes nothing |
| `SessionTable.RevokeAllLeavesNothingActive` | database/postgres/procedures/app/sessions/revoke_all_user_sessions.sql:2-3 | called with nothing else running: nothing of that user and tenant is active afterwards, other rows are untouched, a second call revokes nothing |
| `SessionTable.PurgeSparesActiveIff` | database/postgres/procedures/app/sessions/delete_expired_sessions.sql:19-21 | no row active at the start of the purge is ever purged, exactly when the grace window is at least -1 microsecond |
| `SessionProtocol.StepKeepsInv` | database/postgres/procedures/app/sessions/rotate_user_session.sql:13-16 | every event of every interleaving keeps the constraints, one live row per login, the link structure and the lock discipline |
| `SessionProtocol.RotateCommitKeepsInv` | database/postgres/procedures/app/sessions/rotate_user_session.sql:47-60 | a rotation that commits after others ran keeps the invariant |
| `SessionProtocol.TouchUpdateKeepsInv` | database/postgres/procedures/app/sessions/touch_user_session.sql:28-32 | so does an update whose row was rotated, revoked or purged since it was read |
| `SessionProtocol.PurgeKeepsInv` | database/postgres/procedures/app/sessions/delete_expired_sessions.sql:9-10 | so does a purge, whatever rotations are under way |
| `SessionProtocol.RevokeAllCommitKeepsInv` | database/postgres/procedures/app/sessions/revoke_all_user_sessions.sql:15-21 | so does a bulk revocation whose rows changed since its snapshot |
| `SessionSafety.AtMostOneLivePerLineage` | database/postgres/procedures/app/sessions/rotate_user_session.sql:32-60 | in every reachable state a login has at most one un-revoked session |
| `SessionSafety.LinksFormDisjointPaths` | database/postgres/schema/app/tables/user_sessions.sql:26 | no row has two successors; a predecessor is present, revoked, of the same user, tenant and absolute expiry |
| `SessionSafety.ChainsNeverRepeat` | database/postgres/schema/app/tables/user_sessions.sql:26 | following rotation links never comes back to a row |
| `SessionSafety.AbsoluteExpiryNeverMoves` | database/postgres/procedures/app/sessions/rotate_user_session.sql:54-55 | after any run, every session of a login expires at login time plus absolute TTL and idles no longer |
| `SessionSafety.NothingOutlivesTheDeadline` | database/postgres/procedures/app/sessions/touch_user_session.sql:24-32 | no read, touch or rotation started at or past that time succeeds, and none hands out a later expiry |
| `SessionSafety.RevocationIsPermanent` | database/postgres/procedures/app/sessions/touch_user_session.sql:16-32 | no event of any run clears or changes `revoked_at`, and a row once gone never comes back |
| `SessionSafety.LineageNeverRevives` | database/postgres/procedures/app/sessions/rotate_user_session.sql:40-42 | a login without an un-revoked session never gains one |
| `SessionSafety.RevokeTouchesOnlyItsToken` | database/postgres/procedures/app/sessions/revoke_user_session.sql:14-16 | revoking by token changes the row of that token and no other |
| `SessionSafety.LogoutEndsLoginIff` | database/postgres/procedures/app/sessions/revoke_user_session.sql:14-16 | revoking by token ends the whole login exactly when that token's row is its live one, or the login was over |
| `SessionSafety.SpentTokenIsRefused` | database/postgres/procedures/app/sessions/rotate_user_session.sql:37-42 | what each call on a token without a live row gets: not found or revoked |
| `SessionSafety.OneRotationEverWins` | database/postgres/procedures/app/sessions/rotate_user_session.sql:13-16 | after one rotation of a token succeeded none does again, in any continuation, and what later ones get |
| `SessionSafety.RaceHasExactlyOneWinner` | database/postgres/procedures/app/sessions/rotate_user_session.sql:13-16 | when only rotations started in time run, any number of them, exactly one wins once one commits |
| `SessionSafety.PurgeSparesActive` | database/postgres/procedures/app/sessions/delete_expired_sessions.sql:19-21 | also between other transactions a purge removes no session active at its start |
| `SessionSafety.UndisturbedRotationIsRotate` | database/postgres/procedures/app/sessions/rotate_user_session.sql:32-67 | the two events of a rotation, with nothing between, are the procedure |
| `SessionSafety.UndisturbedTouchIsTouch` | database/postgres/procedures/app/sessions/touch_user_session.sql:16-34 | the two events of a touch, with nothing between, are the procedure |
| `SessionTouches.SessionResolvesIff` | database/postgres/procedures/app/sessions/touch_user_session.sql:21-32 | over any run, an un-revoked session resolves exactly before its absolute expiry and within one idle time of its last touch |
| `SessionTouches.SlidingWindowIff` | database/postgres/procedures/app/sessions/touch_user_session.sql:2-3 | the same counted from its login: regular touches keep it alive up to the absolute expiry, a longer gap ends it |
| `SessionTouches.TouchAnswersNullIffPurged` | database/postgres/procedures/app/sessions/touch_user_session.sql:28-34 | in any run a touch past its checks answers null exactly when a purge took its row first |
| `SessionTouches.NullTouchIsReached` | database/postgres/procedures/app/sessions/touch_user_session.sql:16-34 | a run from the empty table that ends in a null answer |
| `SessionTouches.ImpatientPurgeTakesTouchedRow` | database/postgres/procedures/app/sessions/delete_expired_sessions.sql:19-21 | only a purge later than its grace window after the deadline or the revocation of a touched row takes it; a full one does |
| `SessionTouches.PatientPurgesLeaveNoNull` | database/postgres/procedures/app/sessions/touch_user_session.sql:5 | in every run whose purges are not that late, every touch past its checks answers an expiry |
| `BulkRevocation.SnapshotIsReached` | database/postgres/procedures/app/sessions/revoke_all_user_sessions.sql:15-21 | every session active at the snapshot is purged or revoked, or a touch set its idle expiry back past the start |
| `BulkRevocation.SnapshotIsRevokedOrPurged` | database/postgres/procedures/app/sessions/revoke_all_user_sessions.sql:15-21 | without such touches, every one of them is purged or revoked |
| `BulkRevocation.SurvivorIsNewerOrRevived` | database/postgres/procedures/app/sessions/revoke_all_user_sessions.sql:17-21 | a session still active was committed after the snapshot or had expired in it |
| `BulkRevocation.StepBringsIff` | database/postgres/procedures/app/sessions/touch_user_session.sql:28-32 | the events that make a session of a user and tenant active at a given time are exactly a login, a rotation that mints, and a touch of an idled-out un-revoked row, each reaching past that time |
| `BulkRevocation.LeftActiveIff` | database/postgres/procedures/app/sessions/revoke_all_user_sessions.sql:15-21 | over any run, a session is left active exactly when it was not active at the snapshot and such an event brought it to stay |
| `BulkRevocation.BulkIsCompleteIff` | database/postgres/procedures/app/sessions/revoke_all_user_sessions.sql:2-3 | nothing is left active exactly when no such event between snapshot and commit brought a session that was not in the snapshot |
| `BulkRevocation.UnopposedBulkIsComplete` | database/postgres/procedures/app/sessions/revoke_all_user_sessions.sql:2-3 | when no event in between is one of these, nothing of that user and tenant is left active |
| `BulkRevocation.TouchOutlivesRevokeAll` | database/postgres/procedures/app/sessions/touch_user_session.sql:16-32 | a run in which a touch under way brings an idled-out session past a bulk revocation, with no login and no rotation |
| `BulkRevocation.SuccessorOutlivesRevokeAll` | database/postgres/procedures/app/sessions/rotate_user_session.sql:47-60 | a run in which the successor of a refresh outlives a bulk revocation that waited for it |
| `BulkRevocation.UndisturbedRevokeAllIsRevokeAll` | database/postgres/procedures/app/sessions/revoke_all_user_sessions.sql:15-24 | the two events, with nothing between and nothing locked, are the procedure, count included |
| `AuthRoutes.MoveKeepsInv` | backend/app/auth/routes.py:142-184 | every step of any set of requests keeps: a committing refresh holds its own row, a used token is spent |
| `AuthRoutes.OneRefreshPerToken` | backend/app/auth/routes.py:137-154 | in any interleaving at most one refresh per cookie token succeeds |
| `AuthRoutes.NothingResolvesAfterLogout` | backend/app/auth/routes.py:171-184 | once a logout has returned, no read, touch or rotation of its token succeeds |
| `AuthRoutes.UsedTokenNeverSucceedsAgain` | backend/app/auth/dependencies.py:46-53 | a request arriving with a refreshed-away or logged-out token never succeeds, a second logout included |
| `AuthRoutes.LogoutSucceedsIff` | backend/app/auth/routes.py:162-184 | from any reachable store without open transactions, a logout played alone succeeds exactly when its token resolves at its read and its touch, and where it is refused otherwise |
| `AuthRoutes.LogoutOfIdleSessionIsRefused` | backend/app/auth/dependencies.py:50-53 | a run in which a logout is refused and the session stays un-revoked |
| `AuthRoutes.RequestOutcomeIff` | backend/app/auth/routes.py:129-189 | in any play, a request of any kind has failed exactly when one of the listed things happened to it (a read, touch, lock or rotation that found nothing usable, a purge, a drop, an abort), and succeeded exactly when its last step was taken |
| `RefreshRoute.PlainSucceedsIff` | backend/app/auth/dependencies.py:46-53 | a request that only authenticates, played alone, succeeds exactly when its row is usable at its read and its touch, and touches that row only |
| `RefreshRoute.RefreshSucceedsIff` | backend/app/auth/routes.py:129-159 | a refresh played alone succeeds exactly when its row is usable at both authentication steps, still is, as touched, at the second read and the rotation, and the names it brings are new |
| `RefreshRoute.RefreshHandsOver` | backend/app/auth/routes.py:137-154 | afterwards the old token is refused and the new one resolves to the same user, tenant and absolute expiry for exactly its lifetime; no other row has changed |
| `SessionRepository.FakeSessionRepository.Create` | backend/app/auth/session_repository.py:256-287 | stores a record under the token, over any earlier one, as `FakeCall` says |
| `SessionRepository.FakeSessionRepository.ActiveSession` | backend/app/auth/session_repository.py:289-298 | missing, revoked, expired, in that order |
| `SessionRepository.FakeSessionRepository.Get` | backend/app/auth/session_repository.py:300-312 | answers as `FakeCall` says and changes nothing |
| `SessionRepository.FakeSessionRepository.Touch` | backend/app/auth/session_repository.py:314-319 | changes one record in place, the rest keep their values |
| `SessionRepository.FakeSessionRepository.Rotate` | backend/app/auth/session_repository.py:321-349 | revokes the old record in place and stores the successor, also when both tokens are the same |
| `SessionRepository.FakeSessionRepository.Revoke` | backend/app/auth/session_repository.py:351-354 | revokes an un-revoked record, otherwise does nothing |
| `SessionRepository.FakeSessionRepository.RevokeAll` | backend/app/auth/session_repository.py:356-369 | the in-place counting loop revokes exactly the active records and counts them |
| `SessionRepository.LoginAnswers` | backend/app/auth/session_repository.py:124-151 | the expiries of a login in microseconds from its start, and each exception it raises with its condition |
| `SessionRepository.RefusalRaises` | backend/app/auth/session_repository.py:95-105 | what a read, touch or rotation raises for a missing, revoked or expired session |
| `SessionRepository.FakeReadsClockTwice` | backend/app/auth/session_repository.py:314-349 | the checks of touch and rotate use the first clock reading, the new expiry and the revocation the second |
| `SessionAgreement.LookupsAgree` | backend/app/auth/session_repository.py:153-156 | looking up by token and by digest find the same session |
| `SessionAgreement.RevokeAllAgrees` | backend/app/auth/session_repository.py:356-369 | the loop and the bulk update revoke corresponding sessions and count the same |
| `SessionAgreement.CallAgreesIff` | backend/app/auth/session_repository.py:95-105 | on related stores a call gets equal answers exactly when its login is for an active member and its new token is unused; then the stores stay related |
| `SessionAgreement.FakeAgreesWithAdapter` | backend/app/auth/session_repository.py:241-247 | any sequence of such calls gets the same expiries, sessions, counts and exceptions |
| `IdentityTables.IdentityStore.MapIdentity` | database/postgres/procedures/app/identity/map_identity.sql:35-84 | the procedure with its savepoint, against any commits landing after its first read: the whole new state and the answer |
| `IdentityTables.IdentityStore.InsertAll` | database/postgres/procedures/app/identity/map_identity.sql:46-53 | the four inserts succeed exactly when no unique key is taken |
| `IdentityTables.ProvisionInColumns` | database/postgres/procedures/app/identity/map_identity.sql:46-53 | the inserted rows column by column, the name of the personal tenant included |
| `IdentityTables.IdentityStore.ResolveTenant` | database/postgres/procedures/app/identity/map_identity.sql:68-83 | a best usable membership with the stored email, or NO_ACTIVE_TENANT exactly when there is none |
| `IdentityTables.AnswersInColumns` | database/postgres/procedures/app/identity/map_identity.sql:68-83 | the possible answers about a user: an active membership of an active tenant, default before others and oldest first, with the user's email; NO_ACTIVE_TENANT exactly without any |
| `IdentityTables.TiedInColumns` | database/postgres/procedures/app/identity/map_identity.sql:72-73 | first place is shared exactly when two tenants both meet that description |
| `IdentityTables.SomeTenantIsBest` | database/postgres/procedures/app/identity/map_identity.sql:72-73 | the ordering has a first element in every non-empty set of memberships |
| `IdentityProvisioning.StepKeepsInv` | database/postgres/schema/app/tables/identity_tables.sql:22-41 | every event of racing calls keeps references, one holder per key, and one home per provisioned user |
| `IdentitySafety.EveryAnswerIsTheProcedures` | database/postgres/procedures/app/identity/map_identity.sql:17-19 | each racing call answers and changes the tables as the procedure run at the moment it ends |
| `IdentitySafety.ChooseNeverBlocks` | database/postgres/procedures/app/identity/map_identity.sql:68-77 | a call that knows its user can always answer, with a tenant or NO_ACTIVE_TENANT |
| `IdentitySafety.LoneCallProvisions` | database/postgres/procedures/app/identity/map_identity.sql:45-56 | from any state without calls under way, a provisioning call goes through and answers with the user and tenant it made |
| `IdentitySafety.FirstInsertHolds` | database/postgres/schema/app/tables/identity_tables.sql:22-29 | of two racing calls, the one that inserts the key first makes the other wait |
| `IdentitySafety.RivalFindsWinner` | database/postgres/procedures/app/identity/map_identity.sql:57-64 | once it has committed, the other goes on with its user |
| `IdentitySafety.RivalTakesOver` | database/postgres/procedures/app/identity/map_identity.sql:45-53 | had it been aborted, the other provisions, on the tables as they were |
| `IdentitySafety.SameUserAlways` | database/postgres/procedures/app/identity/map_identity.sql:57-64 | whatever is switched meanwhile, an identity once answered keeps its user, is provisioned once, and no caller sees the violation |
| `IdentitySafety.AnswersAgree` | database/postgres/procedures/app/identity/map_identity.sql:17-19 | with nothing switched, all answers about an identity are the same user, tenant and email |
| `IdentitySafety.AnswersAgreeIff` | database/postgres/procedures/app/identity/map_identity.sql:68-73 | that holds in every run exactly when no two memberships share first place at the start |
| `IdentitySafety.AnswersAgreeFromAnyTablesIff` | database/postgres/schema/app/tables/identity_tables.sql:22-41 | the same from any tables whose references hold, before the first call |
| `IdentitySafety.SameUserFromAnyTables` | database/postgres/procedures/app/identity/map_identity.sql:57-64 | one user per identity in every run from any such tables, whatever is switched |
| `IdentitySafety.LoserLeavesNoUser` | database/postgres/procedures/app/identity/map_identity.sql:45-65 | the user row of a call that lost or aborted is never in the table; the loser goes on with the winner's user |
| `IdentitySafety.ProvisioningConserves` | database/postgres/procedures/app/identity/map_identity.sql:46-53 | a run adds one user, identity, tenant and membership per committed provision and nothing else |
| `IdentitySafety.ProvisionedUserHasOneOfEach` | database/postgres/procedures/app/identity/map_identity.sql:46-53 | every user a run added has exactly one identity and one membership, its default, in a tenant of its own |
| `RateLimitBackend.FakeRateLimiterBackend.Check` | backend/app/rate_limiting/backend.py:79-91 | counts on one key in place and leaves every other key alone |
| `RateLimitBackend.RedisServer.RunScript` | backend/app/rate_limiting/backend.py:36-47 | the script's calls, in order, change one key as `Script` says |
| `RateLimitBackend.RedisServer.Check` | backend/app/rate_limiting/backend.py:55-63 | the result built from the script |
| `RateLimitBackend.ScriptIsHit` | backend/app/rate_limiting/backend.py:36-47 | on a key and a window that count the same, the script and the in-memory check count the same and still agree |
| `RateLimitBackend.ScriptAgreesWithFake` | backend/app/rate_limiting/backend.py:72-91 | any interleaving of clients gets the same counts and remaining from both, with evictions and non-positive windows |
| `RateLimitBackend.CheckBoundsExpiryIff` | backend/app/rate_limiting/backend.py:38-45 | from any key state one check leaves an expiry ahead, within the window exactly when none later was already set |
| `RateLimitBackend.ResetEndsWindow` | backend/app/rate_limiting/backend.py:82-91 | the announced wait is at least 1, after it the window is over, and it is at most W exactly when no live window was set longer |
| `RateLimiting.RateLimiter.Check` | backend/app/rate_limiting/limiter.py:39-74 | verdict and counters for each way the backend may fail |
| `RateLimiting.RateLimiter.Enforce` | backend/app/rate_limiting/limiter.py:76-92 | returns exactly the allowances, raises every refusal with its retry data |
| `RateLimiting.FaultIsPassedIff` | backend/app/rate_limiting/limiter.py:43-67 | under a fault a call passes exactly when its rule is fail-open, or undecided with a fail-open default; otherwise it is refused for the rule's window |
| `RateLimiting.WorkingVerdict` | backend/app/rate_limiting/backend.py:82-91 | count against limit decides, what remains, and the wait is the least whole number of seconds, at least one, that outlasts the window |
| `RateLimiting.RetryAfterIsEnough` | backend/app/rate_limiting/limiter.py:69-91 | in an orderly run of one rule the announced wait is at most its window, and after it a call that meets a working backend passes |
| `RateLimiting.WaitIsWithinWindow` | backend/app/rate_limiting/backend.py:82-91 | in every orderly run of one rule the announced wait is 1 to W |
| `RateLimiting.PassedInInterval` | backend/app/rate_limiting/limiter.py:69-74 | an interval covered by n windows lets at most L(n+1)-1 through whatever fails; fail-open adds only the failed calls |
| `RateLimiting.AllowedInInterval` | backend/app/rate_limiting/limiter.py:69-74 | at most L(ceil(T/W)+1) in any interval of length T |
| `RateLimiting.AtMostLimitPerWindow` | backend/app/rate_limiting/limiter.py:43-67 | a fail-closed rule lets at most L through per window, however the backend fails |
| `RateLimiting.WindowAllowsMinOfCountAndLimit` | backend/app/rate_limiting/backend.py:82-86 | n checks of a window are counted 1 to n and min(n, L) are allowed |
| `RateLimiting.BoundIsReached` | backend/app/rate_limiting/backend.py:4-8 | for every rule and every n some run lets L(n+1)-1 through in n windows' length, so the bound is tight |
| `RateLimiting.KeysAreIndependent` | backend/app/rate_limiting/backend.py:81-86 | verdicts on one key are those of a counter of its own |
| `RateLimiting.LimiterBound` | backend/app/rate_limiting/limiter.py:39-74 | among calls for all keys, the verdicts on one key under one rule let at most L(n+1)-1 through, plus the faults when failing open |
| `RateLimiting.FailClosedBound` | backend/app/rate_limiting/limiter.py:43-67 | a rule stored as fail-closed lets at most L(n+1)-1 through, whatever the default and the faults |
| `RateLimiting.FailClosedWindow` | backend/app/rate_limiting/limiter.py:43-67 | and at most L in one window |
| `RateLimitRedis.VerdictsAgree` | backend/app/rate_limiting/backend.py:36-63 | the limiter gives the same verdicts, waits aside, over the script and over the in-memory windows, in any traffic with lost checks and evictions |
| `RateLimitRedis.RedisWorkingVerdict` | backend/app/rate_limiting/backend.py:55-63 | over Redis: count against limit decides, what remains, and a wait of at least one second that is what is left of the key but for rounding |
| `RateLimitRedis.RedisFaultVerdict` | backend/app/rate_limiting/limiter.py:43-67 | a failing Redis is answered as any failing backend |
| `RateLimitRedis.RedisLimiterBound` | backend/app/rate_limiting/limiter.py:39-74 | on a Redis that starts empty, the verdicts on one key under one rule let at most L(n+1)-1 through, plus the faults when failing open |
| `RateLimitRedis.RedisFailClosedBound` | backend/app/rate_limiting/limiter.py:43-67 | over Redis, a rule stored as fail-closed lets at most L(n+1)-1 through, whatever the default and the faults |
| `RateLimitRedis.RedisFailClosedWindow` | backend/app/rate_limiting/backend.py:36-47 | and at most L in one window, after any earlier traffic |
| `RateLimitKeys.SplitRecoversPartsIff` | backend/app/infrastructure/cache/cache_keys.py:14-17 | splitting a key recovers the cleaned parts exactly when the namespace has no separator |
| `RateLimitKeys.KeysEqualIff` | backend/app/infrastructure/cache/cache_keys.py:14-17 | keys are equal exactly when namespaces and cleaned parts are |
| `RateLimitKeys.BucketsEqualIff` | backend/app/rate_limiting/keys.py:11-14 | two rules share a counter exactly when cleaned name, scope and cleaned identifier agree |
| `RateLimitKeys.ColonAndUnderscoreCollide` | backend/app/rate_limiting/keys.py:3-4 | two different identifiers with one key |
| `RateLimitKeys.KeyReads` | backend/app/rate_limiting/keys.py:3-4 | the key of each scope, character by character, for separator-free rule names and identifiers |
| `ClientIp.ResolveClientIp` | backend/app/rate_limiting/client_ip.py:33-55 | the two loops compute the rightmost untrusted hop with its fallbacks |
| `ClientIp.UntrustedPeerIsAnswered` | backend/app/rate_limiting/client_ip.py:40-48 | without configured proxies, or from a peer that is none of them, the answer is the peer, whatever the header |
| `ClientIp.TrustedPeerAnswers` | backend/app/rate_limiting/client_ip.py:50-55 | from a trusted peer: the untrusted hop with only trusted ones to its right, else the leftmost hop, else the peer |
| `ClientIp.NothingForwarded` | backend/app/rate_limiting/client_ip.py:45-48 | the answers without a peer address and without a header |
| `ClientIp.StripTrims` | backend/app/rate_limiting/client_ip.py:50 | stripping removes white space at both ends and nothing else |
| `ClientIp.HeaderListsHops` | backend/app/rate_limiting/client_ip.py:50 | a comma-separated list of addresses is read as exactly those hops |
| `ClientIp.WalkFindsRightmost` | backend/app/rate_limiting/client_ip.py:51-53 | the hop found is untrusted and all to its right are trusted; none is found only when all are trusted |
| `ClientIp.PrependingChangesNothing` | backend/app/rate_limiting/client_ip.py:3-6 | behind a trusted peer with an untrusted hop, no text prepended to the header changes the answer |
| `ClientIp.PrependedAddressIsIgnoredIff` | backend/app/rate_limiting/client_ip.py:54-55 | a prepended address changes nothing exactly when some hop is untrusted or it is the answer already |
| `Authorization.ComputeScopes` | backend/app/authorization/authorization_service.py:85-110 | the loops compute exactly the scopes some allow rule grants the roles |
| `Authorization.EnforceImpliesScope` | backend/app/authorization/authorization_service.py:60-79 | under every policy, a permitted action on a registered pair has its scope computed |
| `Authorization.GateCoversEveryPolicyIff` | backend/app/authorization/authorization_service.py:92-110 | that holds of a context for all policies exactly when its pair is registered or it is cross-tenant |
| `Authorization.ScopeNamesOnePair` | backend/app/authorization/permission_actions.py:35-37 | a registered scope string names one type and one action |
| `Authorization.MoreRolesKeepPermission` | backend/app/authorization/casbin_model.conf:34-38 | under policies whose deny rules lean on lacking roles, more roles never forbid |
| `Authorization.ShippedMoreRolesKeepPermission` | backend/app/authorization/policy.csv:1-6 | the shipped policy is one of them |
| `Authorization.DenyOverrides` | backend/app/authorization/casbin_model.conf:34-35 | wherever a deny rule stands, it permits exactly what the other rules permit and it does not apply to |
| `Authorization.RefusalSaysWhy` | backend/app/authorization/authorization_service.py:50-79 | a refusal is cross-tenant exactly when the resource belongs to another tenant, otherwise the policy's |
| `Authorization.MatcherIsTenantBound` | backend/app/authorization/casbin_model.conf:25-38 | the matcher alone applies no rule to a resource of another tenant |
| `Authorization.ConnectivesMeetAndJoin` | backend/app/authorization/casbin_model.conf:37-38 | a conjunction applies a rule where both parts do, a disjunction where either does |
| `Authorization.ScopesReadAsRegistered` | backend/app/authorization/permission_actions.py:25-37 | the registered pairs and the form of a scope, spelled out |
| `Authorization.ShippedDecisionIff` | backend/app/authorization/policy.csv:1-6 | the shipped rules with wildcards, conditions and deny permit exactly five written-out rights, inside the tenant only |
| `Authorization.ShippedScopesAreExact` | backend/app/authorization/policy.csv:1-6 | a registered scope is computed for roles exactly when some context with those roles is permitted |
| `JwksCache.JwksClient.Refresh` | backend/app/auth/jwks_client.py:65-84 | the loop builds the dictionary of the payload; a failure leaves what other calls left meanwhile |
| `JwksCache.JwksClient.GetKey` | backend/app/auth/jwks_client.py:44-53 | at most two fetches, each under its own condition, against whatever caches other calls leave during them, and the key or error that follows |
| `JwksCache.FetchDecisions` | backend/app/auth/jwks_client.py:46-63 | when a call fetches, in seconds since the last fetch: after the TTL, or for an absent id after the minimum interval |
| `JwksCache.LandingDecisions` | backend/app/auth/jwks_client.py:48-53 | what a call does when its fetch lands: fails with it, answers a served id with its key, or looks once more |
| `JwksCache.AloneIsAfterCall` | backend/app/auth/jwks_client.py:44-53 | with no other call running it is the call the next rows are about |
| `JwksCache.KeysOfIsLastEntry` | backend/app/auth/jwks_client.py:78-82 | a key id stands for the last entry that carries it, and only such ids are present |
| `JwksCache.ServedKeyIsFoundIff` | backend/app/auth/jwks_client.py:44-63 | a key the endpoint serves is found exactly when it is cached, nothing was fetched yet, or the TTL or the minimum interval has passed since the last fetch |
| `JwksCache.FetchesAreSpaced` | backend/app/auth/jwks_client.py:55-63 | over any run of calls made one at a time, successful fetches are at least the smaller of TTL and minimum interval apart |
| `JwksCache.ReturnedKeyIsFromLastFetch` | backend/app/auth/jwks_client.py:44-53 | a returned key is an entry of the last successful fetch |
| `JwksCache.SpacedByIntervalIff` | backend/app/auth/jwks_client.py:5-6 | with calls made one at a time, successful fetches keep the minimum interval in every run exactly when the TTL is not shorter |
| `JwksCache.RepeatFetchesIffFailed` | backend/app/auth/jwks_client.py:44-63 | on every cache, a call that fetched and is made again at once fetches again exactly when it failed |
| `JwksCache.AtMostOneFetchIff` | backend/app/auth/jwks_client.py:44-63 | with calls made one at a time, in any run shorter than the smaller interval the endpoint is asked at most once exactly when no failed fetch is followed by a call with reason to fetch |
| `JwksCache.FailuresAreNotSpaced` | backend/app/auth/jwks_client.py:46-49 | on every cache, each call with reason to fetch asks again while the endpoint fails |
| `JwksOverlap.CloseFetchesOverlap` | backend/app/auth/jwks_client.py:44-84 | in every run with any fetches in flight, of two successful fetches closer than the smaller interval the later was under way when the earlier landed |
| `JwksOverlap.ApartIffOverlappingAre` | backend/app/auth/jwks_client.py:55-84 | a run keeps the smaller interval exactly when its overlapping fetches do |
| `JwksOverlap.SerialFetchesAreApart` | backend/app/auth/jwks_client.py:55-84 | runs that begin no fetch while another is under way keep it |
| `JwksOverlap.SerialKeepsIntervalIff` | backend/app/auth/jwks_client.py:5-6 | in such runs the minimum interval itself is kept exactly when the TTL is not shorter |
| `JwksOverlap.OverlapBreaksInterval` | backend/app/auth/jwks_client.py:65-84 | for every config with positive intervals, two overlapping calls fetch with success at the same instant |
| `JwksOverlap.BegunAreAskers` | backend/app/auth/jwks_client.py:44-63 | in a run shorter than the smaller interval the endpoint is asked once by each call with reason to, up to the first success, and never after |
| `JwksOverlap.CallInSeconds` | backend/app/auth/jwks_client.py:46-63 | when a call waits for a first or a second fetch, and since when, in seconds since the last one landed |
| `JwksOverlap.LandInSeconds` | backend/app/auth/jwks_client.py:65-84 | what a landing leaves in the cache and whether its call waits again |
| `JwksOverlap.ReturnedKeyIsFromLastLanding` | backend/app/auth/jwks_client.py:44-84 | with calls overlapping, a returned key is the last entry for its id in the payload of the last fetch to have landed |
| `JwksOverlap.ServedIdIsNotUnknown` | backend/app/auth/jwks_client.py:44-63 | a call made at least the minimum interval after the last landed fetch, for an id that its own fetch then serves, answers with a key of it or fails, whatever other calls do meanwhile; never unknown |

## Left out

- Cryptography, encodings and token generation: a hash and a cipher are parameters with the hypotheses above.
- HTTP to the identity provider and the key endpoint: its outcome is an input, or a request that drops.
- Cookies, CSRF, PKCE, headers, settings, logging and error envelopes around the routes.
- The login callback as one sequence: `map_identity` and session creation are modelled each on its own.
- Deletion of users and tenants with its cascades: no modelled procedure deletes them.
- The status column of users: `map_identity` and the session procedures never read it.
- Session internal ids in answers, and the audit columns of the in-memory repository, which stores none.
- The fake identity mapper: a dictionary with one branch.
- Address and network parsing: which addresses are trusted is a parameter of the walk.
- Policy rules of fewer than five fields, and Casbin's parser and `eval`: conditions are a small language of their own.
- Redis TTL rounding against the in-memory wait: counts and remaining are compared, waits are not.
- Floating point rounding of clock readings: times are real numbers there.
- `RateLimitBackend.RedisServer` models only the three commands the script calls.
- `SessionTable.UserSessions` and `IdentityTables.IdentityStore` run one call at a time: what happens between the steps of concurrent calls is modelled on values, in `SessionProtocol` and `IdentityProvisioning`.
- `JwksCache.JwksClient.GetKey` takes what other calls leave during its fetches as an input; the calls running together are modelled on values, in `JwksOverlap`.
