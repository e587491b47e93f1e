# Verified model of the auth service

A Dafny model of the core of the authentication service, with proofs of what the service promises over
whole runs: who holds a live session, how refresh tokens rotate, how fast passwords can be guessed, what
survives an outage of the message broker, and for how long a revoked access token stays revoked.

Check everything with `dafny verify dfyconfig.toml`.

## How it is built

**Accounts, sessions and tokens.** `Types`, `Tables`, `Accounts` and `Machine` define the rows of the three
tables, the queries and updates on them, the lockout automaton of one account, and the service as a state
machine with one step per request or job. `Repositories` and `Services` are the service's classes, updating
the tables in place in the order the code does; every method's contract says which step of the machine it
takes, and `AuthSystem` ties all of them together: whatever requests it handles, its database is the end of
a run of the machine. The theorems are about runs: `Invariants` (what the tables keep), `Rotation` (chains,
single use, mass revocation), `Sessions` (the cap), `Cleanup` (the nightly jobs), `Lockout` and `GuessRate`
(the rate of guesses, with a run that reaches the bound), `Effects` (what each request changes, answers and
leaves for later ones to meet, told in the rows' own terms), `JobInvisible` (the unlock job cannot be
observed), `ResetTokens`, and `Boundaries` (runs that reach the boundary cases). `Interleaving` drops the
assumption that a refresh is one step: its database statements interleave freely with those of other
requests; `Overlap` says exactly what single use and mass revocation come to then. `LoginOverlap` does the
same for the account record: logins and the unlock job, statement by statement, against bans and locks.
`Requests` has the two requests that concern an access token and the tables at once, logging out and
validating a token.

**The event publisher.** `Publishing` is the outage buffer and the connection it waits for, as a state
machine; `PublisherRuns` has its theorems; `RabbitMQClient` is the client class, proved to take the
machine's steps.

**Access tokens.** `AccessTokens` has expiry in seconds against a clock and a blacklist in milliseconds
(`exp` and `jti` are sections 4.1.4 and 4.1.7 of RFC 7519), the theorems, and the three classes involved.

**Validation errors.** `ValidationPipe` has the method that flattens an error tree, proved against the
entries it writes, and the theorem that nothing is lost.

## Assumptions

- A request or a job runs as one step at one time. `Interleaving` and `Overlap` do without for refreshes,
  `LoginOverlap` for logins and the unlock job, and `EnforceMaxSessions` lets the clock advance while it runs.
  In `Interleaving` an insertion is one that succeeds: the foreign key of
  `src/entities/refresh-token.entity.ts:42-43` refuses the row of a user deleted in between. The publisher's steps are the stretches of code between two `await`s,
  so nothing is assumed there.
- The clock is in whole milliseconds and does not run backwards; minutes and days have fixed length.
- UUIDs are fresh. They are numbered in the order they are drawn, so "created later" is a larger number.
  Hashing a token is injective. The row id and the secret of a token are two draws.
- Whether a password matches, whether a role is defined, which of several equally old sessions is closed
  first, when connections and channels come and go and whether a write throws are inputs.
- At most one `connect` runs at a time, and a connection that was lost does not complete its `connect`.
- Redis is up, its clock is the service's, and an entry is gone once its time to live has run out.
- Settings satisfy `Config.Valid` (at least one attempt and one session, positive durations).

## Where code and documentation differ

The model follows the code.

- The keys `auth.maxLoginAttempts`, `auth.lockoutDurationMinutes`, `session.maxConcurrent`,
  `jwt.refreshTokenExpiryDays` and `auth.passwordResetExpiryMinutes` are read but defined nowhere under
  `src/config`, so the defaults beside each read always apply: 5 attempts, 30 minutes, 5 sessions, 7 days,
  15 minutes; `README.md:258` and `docs/SECURITY.md:195` of the repository say the lockout lasts 15 minutes and
  can be set. The theorems hold for all settings.
- A lock of 0 minutes is an indefinite lock (`src/services/account.service.ts:92`), not one that has ended.
- Failed reconnections are not retried, although `src/clients/rabbitmq.client.ts:65` says they are:
  `FailedAttemptIsRetried`, `StrandedForever`.
- A lost channel is not made again at the next publish, although line 72 says so: `LostChannelStaysLost`.
- An event that cannot be serialised is buffered and tried again, although line 73 says it is dropped: like
  any other accepted event it is waiting, given up for capacity or written later (`EventConservation`).
- Some properties one would expect hold only under a condition:
  - The session cap fails exactly when a refresh falls on the very millisecond its token expires while all
    sessions are taken (`SessionCap`, `CapCanBeExceeded`).
  - Cleanup leaves dangling successors exactly when tokens may live longer than revoked rows are kept
    (`ChainsClosedIff`), which the defaults exclude (`DefaultsKeepChainsClosed`).
  - Single use holds of refreshes that are one step (`SingleUse`). When their statements interleave, two
    refreshes of one secret both get a token exactly if each looks it up, live, before the other revokes it
    (`BothExchangedIff`, `OverlapExchangesTwice`).
  - A mass revocation leaves no live token behind when requests are single steps (`ExpelledHasNone`). When
    statements interleave, the user stays without one exactly as long as they do not sign in and no refresh
    that was in flight inserts its row (`RevocationHoldsIff`, `InFlightOutlivesRevocation`).
  - A ban ends only by an administrator when requests are single steps (`BanEndsOnlyByAdmin`). When statements
    interleave, it ends exactly if an administrator ends it or a login or job that had read the record before
    writes its status afterwards (`BanHoldsIff`, `PendingWritesLiftBans`); and while a lock holds, where
    single steps allow no password check at all, logins admitted before make at most one failed check each
    (`ChecksWhileLocked`).
  - Events keep their order exactly as long as none gets out ahead of one that waits, which a single throw
    can bring about (`OrderThroughoutIff`, `RefusalBreaksFifo`).
  - Flattening validation errors loses nothing exactly if no two nodes with messages have the same dotted path
    (`LosslessIff`). Two can share one only below a nested object, and no DTO of the service uses
    `ValidateNested`: `DottedNamesCollide` is an input of the function, not of a current endpoint.
- The mock of the refresh-token repository deletes every revoked row at cleanup; the repository keeps them
  for seven days.

## Model

| member | source | states |
|---|---|---|
| `Invariants.InvStep` | src/services/auth.service.ts:122-737 | every request and job, with any arguments, keeps all three tables consistent: ACTIVE implies no lock end and fewer than the maximum of failed attempts, DELETED never occurs, every token and reset token has an owner, every non-revoked token's owner is ACTIVE, hashes and e-mails are unique, successors are later, of the same user and unshared, and each user has at most one reset token, unused |
| `Invariants.Reachable` | src/services/auth.service.ts:122-737 | that invariant holds in every state of every run |
| `Rotation.SingleUse` | src/services/token.service.ts:209-234 | once exchanged, a refresh token is never exchanged again in the run; while its row is kept, presenting it is answered as reuse and leaves its owner without a non-revoked token; once the row is gone it is unknown |
| `Rotation.RefreshIffLive` | src/services/token.service.ts:204-270 | a refresh succeeds if and only if the secret opens a row not revoked and not past its expiry; the new secret then opens a live row of the same user for one whole lifetime, and the old one opens nothing at any time |
| `Effects.RefreshAnswers` | src/services/token.service.ts:204-251 | each answer to a stored secret: reuse revokes exactly the owner's live rows, an expired one changes nothing, and otherwise the presented row is revoked and linked to one new row of its owner, and no other row changes |
| `Effects.UnknownTokenAnswers` | src/services/token.service.ts:212-215 | a secret no row has is refused by a refresh, passed over by a logout, and changes nothing |
| `Effects.SessionEnds` | src/services/session.service.ts:132-135 | logging out revokes exactly the row the secret opens, and closing a session exactly the row it names |
| `Rotation.RevokedForever` | src/repositories/refresh-token.repository.ts:91-126 | between any two moments of a run a row keeps its owner, hash, issue date and expiry, revocation is never undone and a recorded successor never changes |
| `Rotation.BarredHoldNothing` | src/services/token.service.ts:204-270 | in every reachable state a user who is not ACTIVE has no non-revoked token, so a refresh, which never reads the account, succeeds only for an ACTIVE one |
| `Rotation.ExpelledHasNone` | src/services/token.service.ts:316-323 | a brute-force lock, admin lock, ban, delete, password reset, effective role change, mass revocation or detected reuse leaves the user without a non-revoked token |
| `Effects.ExpulsionSparesOthers` | src/repositories/refresh-token.repository.ts:106-116 | in any run, each of those events leaves every token of every other user as it was |
| `Effects.OthersUntouched` | src/services/auth.service.ts:122-737 | no request changes an account, a refresh token or a reset token of any user but the one it names by identifier, address or secret |
| `Rotation.LiveTokensDescend` | src/services/token.service.ts:233-251 | from a moment at which a user has no non-revoked token, every later non-revoked token of theirs descends by refreshes alone from a login or registration made since |
| `Rotation.LiveTokensPostdateExpulsion` | src/services/account.service.ts:97-202 | after any of those events, at any later moment, every non-revoked token of the user descends from a sign-in made after the event |
| `Rotation.PathIsSimple` | src/services/token.service.ts:233-251 | rotation chains are strictly increasing in creation order, hence acyclic, stay with one user, and only their last token can be non-revoked |
| `Rotation.PathsAreDisjoint` | src/services/token.service.ts:233-251 | two chains followed from their beginnings that share a token are the same chain up to it |
| `Rotation.StepEvolves` | src/services/token.service.ts:112-141 | any step changes existing rows only by revoking them or recording a successor, and a new row belongs to a login, a registration or the refresh of a live token of the same user |
| `Sessions.RotationConserves` | src/services/token.service.ts:228-248 | a refresh leaves every user's number of active sessions as it was, except at exactly the token's expiry, where its owner gains one |
| `Sessions.StepCap` | src/services/session.service.ts:95-121 | from a state within the cap, one step of any kind stays within it if and only if it is not a refresh at exactly the expiry by a user whose sessions are all taken |
| `Sessions.SignInSessions` | src/services/auth.service.ts:395-408 | every registration or login answered with a session, below, at or above the cap: the user ends with the cap if they had it reached and one session more if not; only sessions of theirs are closed, the oldest; no other row changes; and the answered secret has a new row for one lifetime, live unless all sessions left are of the same instant |
| `Sessions.SignInIsLive` | src/services/auth.service.ts:395-408 | if all the user's sessions were opened earlier, the answered secret opens a live row of theirs for one whole lifetime |
| `Sessions.SessionCap` | src/services/session.service.ts:95-121 | over any run no user ever has more active sessions than the cap if and only if no such refresh occurs |
| `Boundaries.CapCanBeExceeded` | src/services/token.service.ts:228-231 | under any settings there is a run that exceeds the cap: the exception cannot be dropped |
| `Services.SessionService.EnforceMaxSessions` | src/services/session.service.ts:95-121 | however the clock advances between its queries, the count ends at or below the cap for good, only sessions active at the start are revoked and no other row changes; with a fixed clock exactly the excess is revoked, and each revoked session was issued no later than each survivor |
| `Tables.ActiveAfterEviction` | src/services/session.service.ts:95-121 | after closing the oldest excess the user has exactly the cap if there was an excess, the same count if not, and other users' sessions are unchanged |
| `Cleanup.RetentionRuleIsIdle` | src/repositories/refresh-token.repository.ts:180-193 | with lifetimes of at most seven days, cleanup deletes exactly the expired rows: the rule for revoked rows adds nothing |
| `Cleanup.CleanupKeepsSessions` | src/repositories/refresh-token.repository.ts:180-193 | whatever the table holds and however long tokens live, cleanup changes no user's active sessions, at the time or at any later time |
| `Cleanup.CleanupAndRefresh` | src/repositories/refresh-token.repository.ts:180-193 | cleanup changes the answer to a later refresh if and only if the token presented was revoked and its row was deleted |
| `Cleanup.CleanupUnseenBeforeExpiry` | src/services/token.service.ts:204-231 | with lifetimes of at most seven days, cleanup changes no answer for a token presented at or before its expiry |
| `Cleanup.ChainsStayClosed` | src/repositories/refresh-token.repository.ts:180-193 | in every reachable state every recorded successor is still in the table, with lifetimes of at most seven days |
| `Effects.CleanupDeletes` | src/repositories/refresh-token.repository.ts:180-193 | the cleanup jobs delete exactly the refresh tokens past their expiry or revoked more than seven days ago, and the reset tokens past their expiry or used, and change no row |
| `Boundaries.ChainsClosedIff` | src/repositories/refresh-token.repository.ts:180-193 | that holds in all runs if and only if tokens live at most seven days |
| `Boundaries.DefaultsKeepChainsClosed` | src/services/token.service.ts:121 | the default settings are valid, their lifetime is within the retention period, and so no run under them leaves a dangling successor |
| `Lockout.LoginSucceedsIff` | src/services/auth.service.ts:222-408 | a login succeeds if and only if the password is right and the account is active or its lock has an end that has come; it leaves that account active without lock end or failures, and all others alone |
| `Lockout.WrongPasswordCounts` | src/services/auth.service.ts:255-363 | a wrong password counts one failure, from zero after an expired lock, and locks the account for the lockout period exactly when the count reaches the maximum; refused logins change nothing, and no other account changes |
| `Effects.LoginAnswers` | src/services/auth.service.ts:233-387 | each answer a login can give: unknown address, banned, locked until its end, wrong password, or a session; a refused one changes nothing, and none touches reset tokens |
| `Effects.FailureKeepsTokens` | src/services/auth.service.ts:321-363 | a wrong password changes no refresh token unless it locks the account |
| `Effects.RegisterAnswers` | src/services/auth.service.ts:122-195 | a known address is refused and nothing changes; a new one becomes an active account with the role USER, and no other account changes |
| `Lockout.BanEndsOnlyByAdmin` | src/services/account.service.ts:76-259 | whatever the next step, a banned account stays banned if and only if the step is not an administrator's lock, unlock or delete of it |
| `Effects.LockLasts` | src/services/account.service.ts:89-100 | an administrator's lock of m minutes shuts the user out of login, validation and refresh until m * 60000 milliseconds later, and lets them in from then on; without a duration, or with 0, at no time; nothing else in the record changes |
| `Effects.LockStays` | src/services/account.service.ts:89-100 | over any run in which no administrator decides about the account, a lock stays as it is until its end, and one without an end for ever |
| `Effects.UnlockAdmits` | src/services/account.service.ts:143-172 | after an administrator's unlock the user is let in at any later time, with no failure counted; no token changes |
| `Effects.BanShutsOut` | src/services/account.service.ts:186-219 | after a ban every login, validation and refresh of the user is refused at any later time; nothing else in the record changes |
| `Effects.DeleteLeavesNothing` | src/services/account.service.ts:233-259 | afterwards there is no account, refresh token or reset token of the user; of an unknown user nothing changes |
| `Effects.UnknownUserAnswers` | src/services/account.service.ts:85-88 | an administrator's request about an unknown user is refused and changes nothing |
| `Effects.AssigningRole` | src/services/role.service.ts:70-102 | an undefined role is refused, a role already held changes nothing, and a new one is added at the end and ends the user's sessions |
| `Effects.RevokingRole` | src/services/role.service.ts:115-142 | the role is gone, a role not held changes nothing, and otherwise the user's sessions end |
| `Effects.WithoutRoleFilters` | src/services/role.service.ts:134 | removing a role keeps every other one, as often and in the same order |
| `LoginOverlap.UninterruptedIsLogin` | src/services/auth.service.ts:249-387 | the statements of a login, uninterrupted, do to the record what the machine's single step does: nothing if refused, else a lifted lock and a counted failure, a lock, or a reset counter |
| `LoginOverlap.BanHoldsIff` | src/services/auth.service.ts:249-347 | in every interleaving of logins, unlock jobs and administrators, a banned account stays banned if and only if no administrator locks or unlocks it and no login or job that had read the record before writes its status |
| `LoginOverlap.PendingWritesLiftBans` | src/services/auth.service.ts:249-347 | both kinds of such login occur: one whose last failure writes its lock over the ban, and one that lifts an expired lock over it |
| `LoginOverlap.ChecksWhileLocked` | src/services/auth.service.ts:249-363 | in every interleaving, while a lock holds, the failed password checks and the logins still pending at the end are together at most the logins pending at the start |
| `LoginOverlap.ChecksWhileLockedAreReached` | src/services/auth.service.ts:315-325 | any number of logins about to compare a password can all fail under one lock, each of them counted |
| `Lockout.GuessRateBound` | src/services/auth.service.ts:255-363 | in any stretch of any run without a successful login or an administrator's lock or unlock of the account, with unlock jobs anywhere, at most maxAttempts * (floor(T / D) + 1) failed password checks occur, T the length of the stretch and D the lockout |
| `Lockout.QuietStep` | src/repositories/user-credential.repository.ts:82-127 | what such a step does to the lock state: a failed check counts and perhaps locks, the job unlocks an expired lock, a ban of the account bans it, its deletion deletes it, and every other step leaves it alone |
| `GuessRate.GuessRateIsReached` | src/services/auth.service.ts:255-363 | for any settings and any number of lockout periods there is a run with exactly that many failed checks: the bound is exact |
| `JobInvisible.StepAlike` | src/services/auth.service.ts:255-283 | two states that differ only in lock ends of accounts not locked, counters of accounts not active and locks that have expired answer every request alike and stay so related |
| `JobInvisible.UnlockJobIsInvisible` | src/jobs/unlock-expired-lockouts.job.ts:39-74 | striking all ticks of the unlock job from any run changes no answer to any other request |
| `JobInvisible.WithoutJobIsRun` | src/jobs/unlock-expired-lockouts.job.ts:39-74 | what is left of a run is a run again, and ends in a state that nobody can tell from the original one |
| `Effects.UnlockJobLifts` | src/jobs/unlock-expired-lockouts.job.ts:39-74 | the unlock job makes exactly the accounts whose lock ended before now active, without lock end or failures, and changes nothing else |
| `ResetTokens.OneUnusedResetPerUser` | src/services/auth.service.ts:616-633 | in every reachable state a user has at most one stored reset token, and none is marked used |
| `ResetTokens.ResetOnce` | src/services/auth.service.ts:682-719 | a reset token that worked once is refused at every later time in the run |
| `ResetTokens.NewerRequestWins` | src/services/auth.service.ts:616-633 | after a newer request for the same user every secret handed out to them before is refused for ever, whether or not its row was still stored |
| `ResetTokens.DeadForever` | src/repositories/password-reset-token.repository.ts:49-94 | a secret handed out earlier that opens no reset row never opens one again |
| `ResetTokens.ResetWorksIff` | src/services/auth.service.ts:682-707 | a reset works if and only if a stored, unused row not past its expiry has the secret's hash; otherwise it is refused as invalid and changes nothing |
| `ResetTokens.ResetDoes` | src/services/auth.service.ts:709-719 | one that works changes the owner's password hash and nothing else of any account, leaves the owner no reset token and no live session, and no token of anyone else changes |
| `ResetTokens.RequestDoes` | src/services/auth.service.ts:605-633 | a request for a known address leaves its user exactly one reset row, new, unused, for one lifetime; for an unknown one nothing changes, and the answer is the same |
| `ResetTokens.SecretWorksInTime` | src/services/auth.service.ts:616-719 | over any run, the secret of a request works until its lifetime is over if no later request, reset or deletion of the same user comes first |
| `Services.TokenService.GenerateRefreshToken` | src/services/token.service.ts:112-141 | adds exactly one row, live, for the user, expiring after the configured lifetime, and changes nothing else |
| `Services.TokenService.RefreshTokens` | src/services/token.service.ts:204-270 | tables and answer are those of the machine's refresh: unknown, reuse, expired or rotated |
| `Services.TokenService.RevokeAllUserTokens` | src/services/token.service.ts:316-323 | row by row: a row of the user that was not revoked is revoked now, with its other fields the same, and every other row, of this user or another, is as it was |
| `Services.AuthService.Register` | src/services/auth.service.ts:122-195 | tables and answer are those of the machine's registration, with a permitted choice of closed sessions |
| `Services.AuthService.Login` | src/services/auth.service.ts:222-446 | tables and answer are those of the machine's login, with a permitted choice of closed sessions: what these are is said by `Lockout.LoginSucceedsIff`, `Lockout.WrongPasswordCounts`, `Effects.LoginAnswers` and `Sessions.SignInSessions` |
| `Requests.TokenRequests.Logout` | src/services/auth.service.ts:460-516 | the access token, if in order, is rejected from then on; no row the refresh token opens is live; the tables are those of the machine's logout |
| `Requests.TokenRequests.ValidateToken` | src/services/auth.service.ts:527-580 | a token is granted if and only if it passes the checks of the token service, so only if signed, addressed to this service, unexpired and not listed, and its user exists and is active or has a lock whose end has come; failing the token checks decides the answer, otherwise it is locked, banned, or invalid for want of an account; over any run of revocations, a token with an identifier of its own is granted if and only if it is unexpired, never revoked and its user is let in |
| `Services.AuthService.ForgotPassword` | src/services/auth.service.ts:598-659 | replaces all reset tokens of the user by one new one, or does nothing for an unknown address |
| `Services.AuthService.ResetPassword` | src/services/auth.service.ts:674-737 | tables and answer are those of the machine's reset, which `ResetTokens.ResetWorksIff` and `ResetTokens.ResetDoes` describe |
| `Services.AccountService.LockAccount` | src/services/account.service.ts:76-130 | locks whatever the status was, banned included, and revokes the user's tokens; for how long, `Effects.LockLasts` says |
| `Services.AccountService.UnlockAccount` | src/services/account.service.ts:143-172 | makes the account ACTIVE with no attempts and no lock end |
| `Services.AccountService.BanUser` | src/services/account.service.ts:186-219 | bans and revokes the user's tokens |
| `Services.AccountService.DeleteCredentials` | src/services/account.service.ts:233-259 | removes the record and, by cascade, exactly its refresh and reset tokens; harmless if there is none |
| `Services.RoleService.AssignRole` | src/services/role.service.ts:70-102 | adds a defined role once and revokes the user's tokens; otherwise changes nothing |
| `Services.RoleService.RevokeRole` | src/services/role.service.ts:115-142 | removes the role and revokes the user's tokens; otherwise changes nothing |
| `Services.UnlockExpiredLockoutsJob.HandleUnlock` | src/jobs/unlock-expired-lockouts.job.ts:39-74 | the loop unlocks exactly the accounts whose lock ended before now, in whatever order |
| `Repositories.RefreshTokenRepository.RevokeAllByUserId` | src/repositories/refresh-token.repository.ts:106-116 | row by row the same, and it returns how many rows were revoked |
| `Repositories.RefreshTokenRepository.FindOldestActiveByUserId` | src/repositories/refresh-token.repository.ts:160-169 | finds an active row exactly if there is one, and none was issued before it |
| `Repositories.RefreshTokenRepository.DeleteExpiredAndRevoked` | src/repositories/refresh-token.repository.ts:180-193 | deletes exactly the rows expired, or revoked more than seven days ago, and returns how many |
| `Lockout.LocksExactlyAtLimit` | src/repositories/user-credential.repository.ts:82-114 | over any number of wrong passwords in a row the count rises by one each; the account is locked exactly when the count reaches the maximum, until the lockout period from that failure is over |
| `Repositories.UserCredentialRepository.FindLockedAccountsToUnlock` | src/repositories/user-credential.repository.ts:179-186 | returns exactly the LOCKED accounts whose lock ended strictly before now |
| `Repositories.PasswordResetTokenRepository.DeleteExpiredOrUsed` | src/repositories/password-reset-token.repository.ts:74-84 | deletes exactly the expired or used rows and returns how many |
| `AuthSystem.AuthSystem.Handle` | src/services/auth.service.ts:122-737 | whatever request comes next, the database stays the end of a run of the machine, which grows by that request and its answer, and no user who is not ACTIVE holds a non-revoked token |
| `Interleaving.UninterruptedIsRefresh` | src/services/token.service.ts:204-270 | the statements of a refresh, uninterrupted, are the machine's single step, whatever is presented, and how far they get is its answer: unknown or expired, reuse, or a new session |
| `Interleaving.SuccessorsComeLater` | src/services/token.service.ts:233-251 | in every interleaving of statements, a row with a successor is revoked, the successor was created later for the same user, and no two rows share one |
| `Interleaving.StatementEvolves` | src/repositories/refresh-token.repository.ts:91-126 | no statement undoes a revocation or changes what identifies a row |
| `Overlap.ExchangedIffLive` | src/services/token.service.ts:204-251 | in every interleaving a refresh gets a new token if and only if its lookup found the presented one live |
| `Overlap.LateLookUpIsRefused` | src/services/token.service.ts:209-234 | once one refresh has revoked the presented token, every later lookup of the same secret creates nothing; if the row is still stored, that refresh goes on to revoke its owner's tokens |
| `Overlap.ReuseRevokesFamily` | src/services/token.service.ts:220-226 | when it does, the owner has no non-revoked token |
| `Overlap.BothExchangedIff` | src/services/token.service.ts:204-251 | in every interleaving two refreshes of one secret both get a new token if and only if each one's lookup found it live and stands before the other's revocation |
| `Overlap.OverlapExchangesTwice` | src/services/token.service.ts:209-244 | a run from an empty table in which that happens: it ends with exactly two live tokens of the user, both obtained for one secret |
| `Overlap.MassRevocationLeavesNone` | src/services/token.service.ts:217-226 | both mass revocations, an explicit one and that of a detected reuse, leave the user without a live token |
| `Overlap.LiveRowsDescend` | src/services/token.service.ts:316-323 | in every interleaving, from a moment at which a user has no live token, every live token of theirs descends by refreshes begun since from a sign-in made since, or from a refresh that was between its lookup and its insertion then |
| `Overlap.RevocationHoldsIff` | src/services/token.service.ts:316-323 | in every interleaving, from such a moment the user has no live token at any later moment if and only if they do not sign in and no refresh that was in flight inserts its row |
| `Overlap.InFlightOutlivesRevocation` | src/services/token.service.ts:233-244 | the second case occurs: a run in which the mass revocation leaves exactly the token of the refresh in flight |
| `PublisherRuns.EventConservation` | src/clients/rabbitmq.client.ts:227-282 | in any run, with any throws and losses, every accepted event is exactly once in the written, waiting or dropped events, none is written twice, the buffer holds at most 1000, and at most 10000 identifiers are tracked, all of written events |
| `PublisherRuns.WrittenIsNotRepeated` | src/clients/rabbitmq.client.ts:242-248 | publishing again under the identifier just written changes nothing |
| `PublisherRuns.PublishOrder` | src/clients/rabbitmq.client.ts:250-281 | one publish keeps written-then-waiting equal to accepted-less-dropped if and only if it does not write past waiting events |
| `PublisherRuns.FlushOrder` | src/clients/rabbitmq.client.ts:472-516 | a flush keeps that order if and only if no event gets out after one that stays behind |
| `PublisherRuns.OrderThroughoutIff` | src/clients/rabbitmq.client.ts:227-521 | over any run, throws included: the written events followed by the waiting ones are the accepted ones less the dropped, in order, after every step, if and only if no publish writes past waiting events and no flush lets an event out ahead of one that stays behind |
| `PublisherRuns.GlobalFifo` | src/clients/rabbitmq.client.ts:227-521 | if writes never throw, that order holds after every step of any run of publishes, channel losses, disconnects and reconnects, and nothing waits while there is a live channel |
| `PublisherRuns.RefusalBreaksFifo` | src/clients/rabbitmq.client.ts:274-281 | a single throw is enough to lose the order |
| `PublisherRuns.OutageKeepsLatest` | src/clients/rabbitmq.client.ts:445-461 | through any outage the buffer is the last 1000 of what it held followed by what was accepted since |
| `PublisherRuns.FailedAttemptIsRetried` | src/clients/rabbitmq.client.ts:379-432 | after a failed attempt another is scheduled if and only if it was the one made at start-up; otherwise the client is stranded |
| `PublisherRuns.StrandedIsReached` | src/clients/rabbitmq.client.ts:379-432 | a client whose first attempt and whose reconnection fail is stranded |
| `PublisherRuns.StrandedForever` | src/clients/rabbitmq.client.ts:397-432 | a stranded client never connects again and never writes again |
| `PublisherRuns.MuteIsReached` | src/clients/rabbitmq.client.ts:355-378 | a client that connects can lose its channel while the connection stands |
| `PublisherRuns.LostChannelStaysLost` | src/clients/rabbitmq.client.ts:355-363 | while its connection stands, a lost channel is not made again and nothing more is written |
| `Publishing.FlushDivides` | src/clients/rabbitmq.client.ts:472-516 | a flush divides the old buffer into written and kept events, each in the old order, and changes nothing else but the tracked identifiers and the channel |
| `Publishing.SelectDivides` | src/clients/rabbitmq.client.ts:482-516 | written and kept events together are the old buffer, each event once |
| `RabbitMQ.RabbitMQClient.Publish` | src/clients/rabbitmq.client.ts:227-282 | fields and history after a publish are those of the machine |
| `RabbitMQ.RabbitMQClient.BufferEvent` | src/clients/rabbitmq.client.ts:445-461 | appends the event, giving up the oldest one if the buffer is full |
| `RabbitMQ.RabbitMQClient.FlushBuffer` | src/clients/rabbitmq.client.ts:472-521 | the loop takes the machine's flush, whatever becomes of each event |
| `PublisherRuns.TrackAllBounded` | src/clients/rabbitmq.client.ts:534-542 | tracking any number of events one after the other never holds more than 10000 identifiers, holds none that was neither tracked before nor written, and always holds the latest |
| `RabbitMQ.RabbitMQClient.ConnectSucceeds` | src/clients/rabbitmq.client.ts:371-378 | marks the client connected, ends the reconnection and flushes |
| `RabbitMQ.RabbitMQClient.ConnectFails` | src/clients/rabbitmq.client.ts:379-385 | marks it disconnected and schedules a reconnection unless one is believed to be under way |
| `RabbitMQ.RabbitMQClient.ConnectionLost` | src/clients/rabbitmq.client.ts:335-348 | the same when a connection, the latest or an earlier one, reports its end |
| `RabbitMQ.RabbitMQClient.IsConnected` | src/clients/rabbitmq.client.ts:292-294 | true exactly with a live channel; if writes never threw, nothing is waiting then |
| `RabbitMQ.RabbitMQClient.Handle` | src/clients/rabbitmq.client.ts:227-521 | after any history of the client the conservation and bounds hold, and the order too if no write threw |
| `AccessTokens.ExpiryIsExact` | src/utils/token.util.ts:116-123 | rounding the clock down to seconds moves no token's expiry |
| `AccessTokens.EntryOutlivesToken` | src/services/token.service.ts:279-293 | the entry lasts at least to the token's expiry and less than one second longer, plus the time it took to store |
| `AccessTokens.RejectedIffCovered` | src/services/token.service.ts:151-185 | a token in good order is rejected at every time from now on if and only if it has expired or its entry lasts until it does |
| `AccessTokens.RevocationHasNoGap` | src/services/token.service.ts:279-293 | after revoking it, a token in good order is rejected at every later time if and only if it has an expiry, and an identifier unless it has expired |
| `AccessTokens.AcceptedIffNotRevoked` | src/services/token.service.ts:156-168 | over any run of revocations, repeated or not, a token with an identifier of its own is accepted if and only if it has not expired and has not been revoked |
| `AccessTokens.AccessTokenService.RevokeAccessToken` | src/services/token.service.ts:279-293 | records the revocation; the token is rejected from then on |
| `AccessTokens.AccessTokenService.ValidateAccessToken` | src/services/token.service.ts:151-185 | accepted if and only if signed, addressed to this service, before its expiry and not listed; expired and blacklisted each exactly in their case; over any run of revocations, one with an identifier of its own exactly if unexpired and never revoked |
| `AccessTokens.VerdictIs` | src/services/token.service.ts:156-184 | the case of each of the four verdicts, in terms of the token, the store and the clock |
| `AccessTokens.BlacklistService.BlacklistToken` | src/services/blacklist.service.ts:66-74 | from then on the identifier is listed for exactly the given time, unless that is not positive, and every other identifier is listed exactly when it was before |
| `AccessTokens.ListedAfter` | src/clients/redis.client.ts:203-230 | different identifiers never share a key: storing one makes a later lookup of it succeed exactly while its time lasts, and changes the lookup of no other |
| `ValidationPipe.FormatErrors` | src/pipes/validation.pipe.ts:67-93 | loop, recursion and merge together write the entries of the tree in order, later ones overwriting earlier ones of the same key |
| `ValidationPipe.DottedInjective` | src/pipes/validation.pipe.ts:74-76 | different paths of non-empty, dot-free names have different dotted forms |
| `ValidationPipe.KeysDiffer` | src/pipes/validation.pipe.ts:78-89 | with such names, different among siblings, no entry overwrites another |
| `ValidationPipe.NothingOverwrittenIff` | src/pipes/validation.pipe.ts:78-89 | for any tree there are as many keys as nodes that carry messages if and only if no two entries have the same key |
| `ValidationPipe.LosslessIff` | src/pipes/validation.pipe.ts:67-93 | as long as no name is empty: the keys are exactly the dotted paths of the nodes that carry messages, each mapped to its node's messages and one for each, if and only if no two entries have the same key |
| `ValidationPipe.FlatteningIsLossless` | src/pipes/validation.pipe.ts:67-93 | that is so for all trees with non-empty, dot-free names that differ among siblings |
| `ValidationPipe.DottedNamesCollide` | src/pipes/validation.pipe.ts:74-89 | with a dotted name two nodes can share a key, and one node's messages are lost |

## Left out

- Controllers, DTOs, guards, interceptors, filters, middleware, configuration, migrations, metrics, tracing and health checks: wiring or single-branch checks.
- Cryptography and libraries (argon2, bcrypt, SHA-256, RS256, jsonwebtoken, TypeORM, ioredis, amqplib): their results are inputs or injective functions.
- Audit log, logging, trace ids, device fingerprint, IP address, user agent, event payloads: no effect on the modelled state.
- Columns nothing modelled reads: `revocationReason`, `lastUsedAt`, `usedAt`, `lastLoginAt`, `passwordChangedAt` and the like.
- Issuing the access token after a refresh, `getAccessTokenExpirySeconds`, password-strength rules, session listings: too easy to be worth members.
- Interleaving at `await` points of requests other than refreshes and logins: they are single steps, in `Interleaving` and `LoginOverlap` single statements. Deleting an account while a login is in flight.
- Database errors, and Redis outages, in which the service chooses to let requests through.
- A failing unlock of one account inside the unlock job, which the job logs and passes over.
- Shutting the publisher down, and the delays between reconnection attempts.
- Case folding of e-mail addresses: addresses are taken as stored, lower-cased.
- `nbf` claims and non-integer `exp` claims, which the service never issues.
- Property names with a special meaning to JavaScript objects in the record of validation errors.
