# Verified model of the specter-cloud authentication and authorization engine

specter-cloud decides who may talk to a drone fleet. This project models that decision as one
database with transactions over it, and proves what the code promises about it.

- **Permission checks** climb the org tree (`parent_org_id`) from the target with a recursive
  SQL query, capped at depth 10, and take the closest org at which the user holds an active
  grant of a role that bundles the permission.
- **Sessions** have a hard expiry of 30 days and a sliding idle timeout of 7 days over a
  `last_seen_at` that is only written when it is more than 5 minutes old.
- **Logins** run a lockout machine of two fields on the user row.
- **Drone API keys** are printed as `sk_drone_<prefix>_<secret>`, stored hashed, found by
  prefix, minted one at a time per drone, and soft-revoked.
- **Audit rows** are pending until somebody commits; `get_db` never does.

## How the model is laid out

`Model.dfy` holds the tables as values (`Store`), the schema's constraints, and the class `Db`,
which is one `AsyncSession`: `working` is what the session sees, `committed` is what everyone
else sees and what survives, `history` lists the committed states. `Sessions`, `Login`,
`ApiKeys`, `KeyCli`, `Bootstrap`, `AuditLog`, `Rbac`, `OrgChain`, `Permissions`, `Requests` and
`Guard` follow the source files; their methods update a `Db` step by step, as the source does, and are
proved against functions on `Store` that say what is pending and what is durable afterwards.
What those functions mean is stated once more without them, in the columns of the tables and in
literal values, in the contracts of the methods or in lemmas named `...InColumns`.
`System.dfy` makes those functions the steps of one state machine. A step is one transaction,
so a run is any interleaving of requests at their commit points, including requests that die
between two commits. `SessionRuns`, `LockoutRuns`, `KeyRuns` and `EndToEnd` prove the theorems
over all runs, and `EndToEnd` shows that authentication, every outcome of a login, both kinds of
logout and a refused guarded request leave what a run leaves; the handler behind a permission is
arbitrary (`Guard`). `MintOverlap` takes the mint's transaction apart into its two statements,
`LoginOverlap` takes a failed login apart into reading and writing the user row, `LoginAudit`
takes a login apart into its two transactions, and `Examples` builds the failures listed below
as runs from a freshly migrated database.

Assumptions, all visible in the statements:

- Time is an integer number of microseconds and does not decrease along a run (`Admissible`);
  the application clock and the database clock of one operation read the same instant.
- Transactions are serial, except in `MintOverlap` and `LoginOverlap`. What the environment may do
  to orgs, users, roles, grants and drones between them is `System.MayAdminister`.
- Text columns take at most their width, and no NUL (`Model.Fits`); a statement with other text
  raises. This is modelled for all text that comes from outside: user agents, labels, names,
  slugs, emails, and the reasons of revocations. Hashes and key prefixes have a fixed length that
  fits, and the client's address is assumed to be one that its column takes.
- SHA-256, Argon2 and the Python string functions are unknown functions in the record
  `Runtime`. Session tokens need no assumption, since a colliding hash violates a unique
  constraint; a minted key's hash is assumed to be new (`KeyCli.FreshDraw`), and `int(s, 16)`
  is assumed to accept the eight hex digits that are generated (`ApiKeys.ReadsHex`).
- Rows come back from a query in an arbitrary order (`Model.Scan`). Org resolvers only read.

## Where the code and its documentation disagree

The model follows the code.

- `app/auth/session.py:127-129` says that a logout that returns 200 means the session is
  invalidated. A logout authenticated by a bearer header alone revokes nothing:
  `Requests.LogoutInvalidatesIffCookie` is the exact condition and
  `Examples.BearerLogoutLeavesSessionAlive` a reachable case.
- `app/auth/rbac.py:21` and `app/audit/log.py:3` say that every authentication and authorization
  decision is logged. Authenticating a session or an API key never writes a row (only the steps
  in `EndToEnd.StepAudit` do). Of the decisions that have a row:
  - an allow row is durable exactly when the handler makes a commit the database takes before it
    rolls back or raises (`Guard.GuardedRequest`, `Examples.AllowRowIsLost`);
  - a deny row is durable exactly when the target org exists and the user agent has at most 500
    characters, because the column has no more and the header is copied as it is; otherwise the
    answer is a 500 (`Guard.Decide`, `Examples.DenyRowIsRejected`);
  - a wrong password is counted in any case, but its row and its 401 or 423 need the user agent to
    fit as well (`Requests.FailureIsLoggedIffAgentFits`, `Examples.GuessLeavesNoRow`);
  - a login that dies between its two commits leaves a session without a row
    (`LoginAudit.SuccessRowsAreBacked`, `Examples.DeadLoginLeavesNoRow`).
- `app/auth/login.py:8` says that five failed attempts in a row lock the account. Attempts that
  overlap overwrite each other's counts: with at most c uncounted at a time, exactly
  2c + T(c) + Te(c) + P(c) passwords can be tried before the lock, with triangular, tetrahedral
  and pentatope numbers: 5 for c = 1, 16 for c = 2 (`LoginOverlap.GuessesBeforeLock` and
  `LoginOverlap.GuessesBeforeLockAttained`).
- `app/api/v1/auth.py:173-174` says that a logout whose lookup fails still clears the cookie and
  answers 200. `get_current_user` answers 401 before that (`Requests.LogoutRoute`).
- `scripts/revoke_key.py:8` says that `--prefix` revokes a single key. Prefixes are not unique:
  it does exactly when one active key has the prefix (`KeyCli.RevokeByPrefix`), and two drones can
  lose their keys to one command (`Examples.SharedPrefixRevokesBoth`).
- `app/auth/permissions.py:43-44` says that `drone:configure` is not bundled; lines 99-110
  bundle it for developers.

## Model

| member | source | states |
|---|---|---|
| OrgChain.OrgChainRows | app/auth/rbac.py:88-97 | the query, evaluated round by round over its working table in any row order, stops within 11 rounds and returns exactly the parent iterates of the target cut after depth 10, one row per depth |
| OrgChain.JoinKeepsOneRow | app/auth/rbac.py:92-96 | `UNION ALL` keeps duplicates, yet a working table of one row joins to at most one row because org ids are unique |
| OrgChain.AncestorsMetInTime | app/models/org.py:21-25 | pigeonhole on parent links, cycles allowed: every org reachable from the target is met within as many steps as there are reachable orgs |
| Rbac.CapIsExactForDecisions | app/auth/rbac.py:40-42 | the depth cap changes no decision, for any grants, if and only if at most 11 distinct orgs lie at or above the target (or no role is eligible at all) |
| Rbac.ClosestGrant | app/auth/rbac.py:98-106 | among all joined grant and chain rows in any order, one of the least depth is returned, and none exists if nothing is returned |
| Rbac.CheckPermission | app/auth/rbac.py:61-137 | the answer is an allow naming an active eligible grant at the closest matching org, a true ancestor-or-self whatever cycles exist, or a deny with its reason; an allow exactly if some row of user_roles for this user is not revoked, has an eligible role, and lies within ten links above the target |
| Rbac.AllowedIsAGrantRow | app/auth/rbac.py:98-104 | the decision in the columns of user_roles, roles and orgs alone |
| Rbac.AnswerIsAGrantRow | app/auth/rbac.py:79-137 | the named grant in the same columns: active, eligible, this user's, and no such grant closer to the target; the exact reasons of both denials |
| Rbac.RevokedIsAbsent | app/auth/rbac.py:17-18 | for every decision, a revoked grant is as good as none |
| Rbac.ScopeOfOneRevocation | app/auth/rbac.py:103 | revoking one grant leaves allowed exactly what another active grant allows, so an allow resting on it alone becomes a deny |
| Rbac.DecisionIsDetermined | app/auth/rbac.py:71-75 | decision and matched org are functions of the state even when several roles tie at that org |
| Rbac.CheckIsUnboundedOnShallowTrees | app/auth/rbac.py:10-11 | with at most 11 orgs at or above the target the check decides as unbounded inheritance would |
| Rbac.GrantsCascade | app/models/user_role.py:21-22 | a match at an org carries down to every org below it within the cap |
| Rbac.OnlyTheChainMatters | app/auth/rbac.py:98-104 | states that agree on the tree and on this user's grants within ten links of the target give the same answers: other users, siblings, descendants and ancestors beyond the cap cannot matter |
| Rbac.ScopeOfOneGrant | app/auth/rbac.py:17-20 | exactly which decisions adding or revoking one grant changes; granting never turns allow into deny, revoking never deny into allow |
| Rbac.PlatformPermissionsComeFromTheRoot | app/auth/permissions.py:114-117 | if developers are appointed only at the root org, a platform permission is held exactly by its developers at orgs within reach of the root |
| Permissions.RolesWithPermission | app/auth/permissions.py:120-124 | the listed names are exactly those whose bundle holds the permission |
| Permissions.PlatformPermissionsNeedPlatformRoles | app/auth/permissions.py:68-117 | every permission is in some bundle, and the platform permissions are exactly those only platform roles carry |
| Permissions.CatalogByPermission | app/auth/permissions.py:68-112 | the table of bundles, transposed: the exact carriers of each permission |
| Sessions.CreateSession | app/auth/session.py:53-81 | a session row with exactly the given user, transport and user agent, the token's hash and a 30-day expiry is pending; or a violated constraint or a user agent over 500 characters undoes everything pending |
| Sessions.LookupSession | app/auth/session.py:84-117 | returns exactly the session with the token's hash that is not revoked, not expired and not idle for more than 7 days; moves last_seen_at exactly if it is more than 5 minutes old, and commits exactly then |
| Sessions.RevokeSession | app/auth/session.py:120-139 | `True` exactly on the transition from active to revoked, which stores the time and the reason and is durable on return; an exception exactly for an active session and a reason over 40 characters |
| Sessions.RevokeAllUserSessions | app/auth/session.py:142-170 | exactly the user's active sessions of the chosen transport get the time and the reason, every other row stays equal, the count is the number of rows changed, one commit; a reason that does not fit revokes none |
| Sessions.RevokeAllSplitsByTransport | app/auth/session.py:154-170 | revoking all is revoking the cookie sessions and then the bearer sessions at the same instant, and the counts add |
| Sessions.RevocationsAreReported | app/auth/session.py:132-170 | each operation reports exactly the number of rows it turns revoked |
| SessionRuns.StepRow | app/auth/session.py:113-117 | over every kind of step a stored session is kept, is revoked at most once, and its last-seen time moves only by an accepted use of its own token |
| SessionRuns.StoredTimeTracksUses | app/auth/session.py:105-117 | over all runs: last_seen_at <= last accepted use <= last_seen_at + 5 min, alongside two exact policies |
| SessionRuns.DebounceSandwich | app/auth/session.py:109-117 | over all runs: what the code accepts an exact 7-day idle timeout accepts, and what an exact timeout of 7 days less 5 minutes accepts the code accepts |
| SessionRuns.SlackIsTight | app/auth/session.py:109-113 | both windows are the best constants: a microsecond less of the seven days, or of the five minutes, fails on a run of at most one lookup |
| SessionRuns.DeathIsFinal | app/auth/session.py:102-111 | once a stored session's lookup fails it fails for ever, under any interleaving |
| SessionRuns.MassRevocationIsFinal | app/auth/session.py:148-152 | after a mass revocation no session of the user and chosen transport is ever accepted again, over any run, and every other session is untouched |
| SessionRuns.SessionIdentityIsFixed | app/auth/session.py:132-137 | owner, token, transport and expiry never change; the first revocation time and reason are never overwritten |
| SessionRuns.HardCap | app/auth/session.py:14-15 | no lookup succeeds more than 30 days after creation, however active the session is |
| SessionRuns.WriteBound | app/auth/session.py:17-19 | at most 8639 last-seen writes in a session's whole life |
| SessionRuns.WriteBoundIsAttained | app/auth/session.py:113-117 | a new session can live through 8639 such writes |
| SessionRuns.RevocationAccounting | app/auth/session.py:132-170 | over any run, `True`s plus counts equal the rows that became revoked |
| Login.AttemptLogin | app/auth/login.py:56-121 | outcome and durable effect: nothing, a counted failure, or cleared counters with a new session; an exception (an email with a NUL, an empty password to re-hash, a rejected session row) leaves nothing |
| Login.AnswersInColumns | app/auth/login.py:74-121 | in the columns of users and sessions: exactly when the answer is a success, an invalid login, or a lock and until when |
| Login.SuccessInColumns | app/auth/login.py:103-121 | exactly what a success stores: cleared counters, last_login_at, the re-hash if one is due, and the new session with the requested transport |
| Login.FailureInColumns | app/auth/login.py:94-101 | exactly what a failure stores: one more, or the fifth's reset and 15-minute lock; nothing for an inactive or unknown user |
| Login.SuccessIsRepeatable | app/auth/login.py:103-110 | after a success the same credentials pass again at any time, whether or not the password was re-hashed |
| Login.LoginUser | app/auth/login.py:94-106 | the lockout fields of a user move only by that user's own attempts |
| LockoutRuns.JudgedAlike | app/auth/login.py:86-94 | judging by the two fields is judging by the full history of failures |
| LockoutRuns.LockoutRefinesHistory | app/auth/login.py:7-11 | after any run the count is the number of failures since the last success modulo 5 and locked_until is the last lock plus 15 minutes; attempts during a lock add nothing |
| LockoutRuns.LockedByHistory | app/auth/login.py:91-92 | over all runs, an active user's attempt with any password is answered as locked exactly until fifteen minutes after the last fifth failure since the last success |
| LockoutRuns.LockedAfterFive | app/auth/login.py:8 | after five wrong passwords every attempt within fifteen minutes, the right password included, is answered as locked, and none after that |
| LockoutRuns.FailuresWithinGuessesLeft | app/auth/login.py:91-101 | from any state, the failed verifications until a given time without a success are at most those before the next lock plus five per further quarter of an hour |
| LockoutRuns.RateBound | app/auth/login.py:30-32 | in any window of length w without a success, at most 5 * (w / 15 min + 1) failed verifications |
| LockoutRuns.RateBoundIsAttained | app/auth/login.py:94-101 | that bound is reached, for every number of quarters |
| LoginOverlap.UninterruptedGuessIsFailure | app/auth/login.py:74-101 | reading the row and writing it, with nothing in between, is the serial failed attempt |
| LoginOverlap.OtherStepsMayHappen | app/auth/login.py:94-101 | whatever else the system does between the two leaves the user's lockout fields alone |
| LoginOverlap.CountingGainsNothing | app/auth/login.py:96-100 | writing back a stale count never increases the guesses still to be had, in the exact potential of all counts read and not yet written |
| LoginOverlap.GuessesBeforeLock | app/auth/login.py:8 | from a clean row, over every interleaving with at most c verified guesses uncounted at a time, at most 2c + T(c) + Te(c) + P(c) passwords are tried before the account locks; 5 in sequence, 16 in pairs |
| LoginOverlap.GuessesBeforeLockAttained | app/auth/login.py:94-101 | that bound is reached, for every c |
| ApiKeys.ParseInvertsPrint | app/auth/api_key.py:45-70 | parsing returns a prefix and secret if and only if the input is their printed form, the prefix has 8 characters, no underscore and reads as hex, and the secret is not empty |
| ApiKeys.GeneratedKeysParse | app/auth/api_key.py:28-42 | every key that can be generated comes apart into what it was made of, underscores in the secret included |
| ApiKeys.FirstMatch | app/auth/api_key.py:102-109 | the search loop returns the first row whose hash agrees, and nothing only if none agrees |
| ApiKeys.VerifyApiKey | app/auth/api_key.py:73-144 | the verdict is one the rows allow in some order; a use is committed exactly on acceptance |
| ApiKeys.VerdictInColumns | app/auth/api_key.py:86-130 | what every verdict on a well-formed key means in the columns of drone_api_keys and drones |
| ApiKeys.BadFormatInColumns | app/auth/api_key.py:45-70 | malformed is exactly what is not `sk_drone_`, eight characters that read as hex, `_`, and a secret |
| ApiKeys.VerdictIsOrderIndependent | app/auth/api_key.py:86-130 | with distinct hashes the verdict does not depend on row order, and is acceptance exactly when the matching row and its drone are active |
| ApiKeys.LastUseIsRecorded | app/auth/api_key.py:132-143 | after an accepted use last_used_at is at most 60 seconds old |
| KeyCli.Mint | scripts/mint_key.py:21-49 | mints and commits one key row for the named drone of the named org, which has no active key, and returns its printed form; or reports which lookup failed or that an active key exists, or fails on a taken id or too long a label, changing nothing |
| KeyCli.FindDrone | scripts/mint_key.py:22-30 | the two lookups: the missing org, the missing drone, or the drone with the slug in the org with the slug |
| KeyCli.RevokeByPrefix | scripts/revoke_key.py:21-35 | exactly the rows with the prefix that were not revoked get the time, every other row stays equal, and the count is the number of rows changed; it touches one key if and only if one active key has the prefix |
| KeyCli.RevokeByDrone | scripts/revoke_key.py:38-63 | exactly the not yet revoked rows of the named drone get the time, counted; or names the missing org or drone |
| Examples.SharedPrefixRevokesBoth | scripts/revoke_key.py:8 | a run from a freshly migrated database, with any two draws of one prefix, after which revoking that prefix takes both drones off line |
| KeyCli.KeyStepEvolves | app/models/drone_api_key.py:13-27 | a key row appears only by a mint for a drone without an active key, and changes only by one revocation or a stale accepted use |
| KeyCli.EvolvingKeepsKeysOk | scripts/mint_key.py:32-40 | at most one active key per drone and distinct hashes are kept by every key step |
| KeyCli.MintNeverSeesTwo | scripts/mint_key.py:38 | while no drone has two active keys, `scalar_one_or_none` never raises |
| KeyRuns.MintedKeyAuthenticatesItsDrone | scripts/mint_key.py:42-49 | at any later moment of any run the minted key is accepted, for its own drone, exactly while its row is not revoked and the drone is active |
| KeyRuns.RevokedKeyStaysRefused | app/auth/api_key.py:115-122 | a revoked key is refused as revoked for ever after |
| KeyRuns.RevocationReachesOnlyItsPrefix | scripts/revoke_key.py:22-28 | over all runs: the command turns a working key into a revoked one if the prefix is its own, and leaves it accepted for its drone if it is another |
| KeyRuns.MintNeverRaisesOnRuns | scripts/mint_key.py:32-38 | no reachable state makes minting find several active keys |
| KeyRuns.KeyAccounting | scripts/revoke_key.py:29-35 | over any run, keys = old + minted, revoked = old + reported counts, keys = active + revoked |
| KeyRuns.KeyWritesAreSpaced | app/auth/api_key.py:132-140 | last_used_at writes to one key are more than a minute apart over any run |
| MintOverlap.UninterruptedMintIsMint | scripts/mint_key.py:32-47 | looking for an active key and inserting, with nothing in between, is the serial mint |
| MintOverlap.ActiveKeysWithinOverlap | scripts/mint_key.py:32-47 | with at most c overlapping mints of a drone, and any verifications and revocations in between, the drone never has more than c active keys |
| MintOverlap.AllInsert | app/models/drone_api_key.py:13-27 | no constraint stops it: c mints that all look first leave c active keys |
| MintOverlap.OneActiveKeyIffNoOverlap | scripts/mint_key.py:38-40 | at most one active key is guaranteed if and only if no two mints of the drone overlap |
| AuditLog.Write | app/audit/log.py:34-83 | appends a pending row exactly for the decisions allow and deny, and never commits |
| Model.RowOkInColumns | app/models/audit_log.py:42-75 | which audit rows the database takes: widths and references, column by column |
| Requests.BearerHeader | app/auth/dependencies.py:72-77 | what token, if any, every possible Authorization header yields |
| Requests.GetCurrentUser | app/auth/dependencies.py:53-110 | returns a user exactly when the credential is the token of a live session of that active user, and leaves nothing pending |
| Requests.AuthInColumns | app/auth/dependencies.py:86-110 | whom a request speaks for, in the columns of sessions and users |
| Guard.Checker | app/auth/rbac.py:163-201 | the target is the resolved org, or the user's own without a resolver; a denied check commits exactly one deny row on top of what authentication committed, unless the target does not exist or the user agent does not fit: then the row is rejected and nothing is durable; an allow row stays pending; the row records the decision actually taken |
| Guard.GrantedIffAllowed | app/auth/rbac.py:168-201 | a request is let through exactly if its user is allowed at its target |
| Guard.DecisionRowInColumns | app/auth/rbac.py:177-200 | the audit row of a decision, column by column: granted or denied, for whom, on what, with which role, org and reason; and a 403 exactly for a denial whose row the database takes |
| Guard.Decide | app/models/audit_log.py:54-75 | the deny row is durable, and the answer a 403, exactly when the target org exists and the user agent fits its column |
| Guard.PendingRowDurableIffLands | app/core/database.py:24-26 | for every sequence of writes, commits the database takes or rejects, rollbacks and an exception: a pending authorization row becomes durable exactly if a commit that is taken comes before any rollback or exception, and in one commit with all that is pending then |
| Guard.UnfitRowLandsNothing | app/auth/rbac.py:189 | with a pending row whose user agent does not fit, no commit of the handler is taken, whatever else it has written |
| Guard.SavesFirstMeansSaves | app/core/database.py:24-26 | a handler that neither rolls back nor raises attempts that commit if and only if it commits at all |
| Guard.GuardedRequest | app/auth/rbac.py:163-201 | for an arbitrary handler: the deny row survives if the database takes it, the allow row survives exactly if the handler makes a commit that is taken before rolling back or raising, with whatever was pending at that commit and only if the user agent fits, and the log only grows |
| Requests.LoginRoute | app/api/v1/auth.py:74-159 | response and the exact sequence of commits of a login: the session or the counted failure first, its audit row second, and a 500 instead of the row if the user agent does not fit |
| Requests.LoginRowsInColumns | app/api/v1/auth.py:101-156 | the audit row of every outcome, column by column, or none |
| Requests.ResponseByOutcome | app/api/v1/auth.py:101-159 | 200 with the token, 401, 423, or a 500 for a row the database does not take, by outcome |
| Requests.FailureIsLoggedIffAgentFits | app/api/v1/auth.py:101-115 | a wrong password is always counted, and leaves its login.failed row if and only if the user agent fits |
| Requests.LoginRowOk | app/api/v1/auth.py:88-156 | the audit row of every outcome is accepted exactly if the user agent fits, which a success implies |
| Requests.LogoutRoute | app/api/v1/auth.py:162-193 | 401 or the session of the cookie's token revoked and a logout row committed |
| Requests.LogoutInColumns | app/api/v1/auth.py:175-181 | by cookie, exactly the row with the cookie's hash gets the time and the reason `logout`; every other session stays equal |
| Requests.LogoutInvalidatesIffCookie | app/api/v1/auth.py:175-181 | after a logout the credential it came with is dead if and only if the request carried the cookie |
| Examples.BearerLogoutLeavesSessionAlive | app/api/v1/auth.py:163-181 | a run from a freshly migrated database to a bearer session that survives its own logout, at every moment of its idle window |
| Examples.DenyRowIsRejected | app/auth/rbac.py:192-200 | a run to a user whose denied requests, with too long a user agent or a target that does not exist, are all answered by a 500 without a row |
| Examples.AllowRowIsLost | app/audit/log.py:12-14 | a run to a user whose allowed requests leave no row if the handler does not commit, or with too long a user agent whatever it does |
| Examples.GuessLeavesNoRow | app/api/v1/auth.py:101-115 | a run with a wrong password and too long a user agent: one failure counted, an empty log |
| Examples.DeadLoginLeavesNoRow | app/api/v1/auth.py:148-156 | a run with a login that dies after its first commit: a session and an empty log |
| Bootstrap.Bootstrap | scripts/bootstrap_specter_org.py:55-144 | every exit: the missing org, the user and both grants in one commit, or nothing committed, with the first obstacle in the code's order, an email or name too long for its column included |
| Bootstrap.ExitsInColumns | scripts/bootstrap_specter_org.py:72-124 | in the columns of the tables: exactly when it performs, and exactly when it is a no-op, revoked admin grants not counting; what each failure means |
| Bootstrap.BootstrapRowsInColumns | scripts/bootstrap_specter_org.py:95-141 | the stored org, user and grants, column by column, and nothing else |
| Bootstrap.RepeatIsNoOp | scripts/bootstrap_specter_org.py:85-93 | after a bootstrap any further one for the org returns `False` |
| Bootstrap.FirstUserReach | scripts/bootstrap_specter_org.py:125-141 | the first user passes exactly the permissions of the admin and developer bundles at exactly the orgs that reach the root within ten links |
| Bootstrap.BootstrapKeepsSchema | scripts/bootstrap_specter_org.py:95-123 | the rows it adds violate no constraint and fit their columns |
| System.StepSessions | app/models/session.py:11-24 | every step of the system does one of three things to a stored session and adds at most one new one |
| System.OperationsAreSteps | app/auth/session.py:53-170 | the store each session or login operation's contract names is the store of its step |
| System.KeyOperationsAreSteps | scripts/revoke_key.py:21-63 | the same for verifying, minting and revoking keys |
| System.StepUser | app/models/user.py:34-35 | over every kind of step lockout fields move only by that user's login attempts, and new users start clear |
| System.RunKeepsInv | app/models/session.py:26-54 | every reachable store meets the schema's constraints and column widths, the session times, the lockout range and one active key per drone |
| System.ReachableStoresAreOk | alembic/versions/c4a72f3b8d91_human_auth_rbac.py:109-162 | that includes every store reachable from a freshly migrated database with its seeded roles |
| System.SeededRolesAreASeed | alembic/versions/c4a72f3b8d91_human_auth_rbac.py:118-160 | the six seeded roles have distinct names that fit, among them admin and developer |
| EndToEnd.LoginIsARun | app/api/v1/auth.py:91-159 | what a login leaves committed, successful, failed, locked out or raising, a run of the state machine leaves |
| EndToEnd.AuthIsARun | app/auth/dependencies.py:80-110 | so does authentication alone, which is all that a request answered 401 leaves |
| EndToEnd.LogoutIsARun | app/api/v1/auth.py:175-193 | so does a logout, by cookie or by bearer header |
| EndToEnd.DenyIsARun | app/auth/rbac.py:173-199 | so does a guarded request that is answered 403 |
| EndToEnd.LoginTokenAuthenticatesItsUser | app/auth/login.py:112-121 | at any later moment of any run a login's token authenticates exactly its user, exactly while the session is live and the user active |
| EndToEnd.CookieLoginIsRevokedAsCookie | app/auth/session.py:148-160 | over all runs: a login over the route opens a cookie session, so revoking the user's cookie sessions ends it for ever and revoking the bearer sessions leaves it equal |
| EndToEnd.TokenAuthenticatesOwner | app/auth/dependencies.py:86-110 | a stored session's token speaks for its owner alone, over all runs |
| EndToEnd.LoggedOutTokenIsDead | app/api/v1/auth.py:175-193 | after a cookie logout the token never authenticates anyone again |
| EndToEnd.BootstrappedUserCanLogIn | scripts/bootstrap_specter_org.py:26-30 | the bootstrapped user's first login with the given password succeeds |
| EndToEnd.AuditOnlyGrows | app/models/audit_log.py:21-22 | committed audit rows are never changed or removed, over all runs |
| EndToEnd.StepAudit | app/audit/log.py:66-83 | of all steps only the write of a row the database takes changes the log, by that row: looking up sessions and verifying keys never does |
| LoginAudit.SuccessRowsAreBacked | app/api/v1/auth.py:91-156 | for every interleaving of logins with each other and with all other steps, each dying anywhere: new login.success rows of a user + that user's logins in flight + dead ones = that user's successful logins, and the rows stand for pairwise different sessions of that user that these logins opened |
| LoginAudit.LoginsAreConserved | app/auth/login.py:112-121 | the same from any point of such an interleaving on |
| LoginAudit.RouteMakesTheseMoves | app/api/v1/auth.py:91-156 | the moves of an uninterrupted login leave, one by one, the durable states of the route |
| LoginAudit.ServeLogin | app/api/v1/auth.py:91-159 | the route's commits are those of its two moves, and its 200 is the successful login counted above |

## Left out

- Row objects: a loaded ORM object and its row are one value in `Db.working`; aliasing between several loaded objects is not modelled.
- Login.AttemptLogin: its read and its write of the user row are one serial step in `System` and in the rate bound of `LockoutRuns`, although the source takes no row lock between them. `LoginOverlap` treats wrong guesses without that assumption, up to the first lock; guesses still in flight when the account locks, and successes that overlap failures, are not treated there.
- FastAPI wiring, CORS, cookie attributes, request ids, logging, and the schema checks of request bodies: no state.
- Client address, request id and `metadata` of audit rows, and the client address of sessions: stored and never read back.
- Deletion of users, orgs, roles or drones, which would set audit references to NULL (app/models/audit_log.py:31-33): no code deletes.
- The handler of an allowed request is arbitrary in `Guard`; its own writes are not steps of `System`, which knows the engine's transactions and the environment's.
- Redis ingest, the SSE stream, telemetry schemas, health routes, the drone simulator, migrations and command-line parsing.
- Argon2, SHA-256 and token generation internals, timing, and the placeholder hash for unknown emails.
- Enforcement of platform-only roles when granting: the repository has no grant operation, so it is a hypothesis of `Rbac.PlatformPermissionsComeFromTheRoot`.
- The messages of exceptions: `LoginRaised`, `Rejected`, `SeveralActive` and the bootstrap failures are outcomes without text.
- Bootstrap.Bootstrap: the rollback of an exception is the end of the script's session, shown at the point of the exception.
