/** The services: each request handled by reading and writing the tables in the order the
    service does, and shown to be the step of the state machine it is meant to be. */
module Services {
  import opened Types
  import opened Tables
  import opened Accounts
  import opened Machine
  import opened Repositories

  class TokenService {
    const cfg: Config
    const repo: RefreshTokenRepository

    constructor (cfg: Config, db: Database)
      ensures this.cfg == cfg && repo.db == db
    {
      this.cfg := cfg;
      repo := new RefreshTokenRepository(db);
    }

    method GenerateRefreshToken(userId: Uuid, now: int) returns (raw: Uuid, id: Uuid)
      modifies repo.db`refreshTokens, repo.db`uuids
      ensures repo.db.Rows() == Issue(cfg, old(repo.db.Rows()), userId, now)
      ensures raw == old(repo.db.uuids) && id == raw + 1
    {
      raw := repo.db.DrawUuid();
      id := repo.Create(userId, HashOf(raw), now + cfg.refreshLifetime, now);
    }

    method RevokeAllUserTokens(userId: Uuid, now: int)
      modifies repo.db`refreshTokens
      ensures repo.db.Rows() == RevokeTokens(old(repo.db.Rows()), userId, now)
      ensures repo.db.refreshTokens.Keys == old(repo.db.refreshTokens).Keys
      ensures forall id | id in old(repo.db.refreshTokens) ::
                var row := old(repo.db.refreshTokens)[id];
                repo.db.refreshTokens[id] ==
                if row.userId == userId && !row.revoked then row.(revoked := true, revokedAt := Some(now)) else row
    {
      var affected := repo.RevokeAllByUserId(userId, now);
    }

    method RefreshTokens(raw: Uuid, now: int) returns (reply: Reply)
      requires repo.db.Indexed()
      modifies repo.db`refreshTokens, repo.db`uuids
      ensures Outcome(repo.db.Rows(), reply) == DoRefresh(cfg, old(repo.db.Rows()), now, raw)
    {
      var found := repo.FindByTokenHash(HashOf(raw));
      if found.None? {
        return Failed(RefreshTokenInvalid);
      }
      var existing := repo.db.refreshTokens[found.value];
      if existing.revoked {
        RevokeAllUserTokens(existing.userId, now);
        return Failed(TokenReuseDetected);
      }
      if existing.expiresAt < now {
        return Failed(RefreshTokenInvalid);
      }
      repo.RevokeToken(found.value, now);
      var newRaw, newId := GenerateRefreshToken(existing.userId, now);
      repo.SetReplacedBy(found.value, newId);
      reply := Session(existing.userId, newRaw);
    }
  }

  class SessionService {
    const cfg: Config
    const repo: RefreshTokenRepository

    constructor (cfg: Config, db: Database)
      ensures this.cfg == cfg && repo.db == db
    {
      this.cfg := cfg;
      repo := new RefreshTokenRepository(db);
    }

    /** `rows` is `before` with the `evicted` rows revoked, each at some time. */
    static ghost predicate Evicts(before: RefreshTokens, rows: RefreshTokens, evicted: set<Uuid>) {
      && rows.Keys == before.Keys
      && forall id | id in before ::
           rows[id] ==
           if id in evicted then before[id].(revoked := true, revokedAt := rows[id].revokedAt) else before[id]
    }

    /** Closes the oldest sessions above the limit. `clock(k)` is the k-th reading of the clock
        during the call. However the clock advances, the user ends within the limit and nothing
        else changes; if it stands still, exactly the oldest excess is closed. */
    method EnforceMaxSessions(userId: Uuid, clock: nat -> int) returns (ghost evicted: set<Uuid>, ghost readings: nat)
      requires forall i: nat, j: nat | i <= j :: clock(i) <= clock(j)
      modifies repo.db`refreshTokens
      ensures Evicts(old(repo.db.refreshTokens), repo.db.refreshTokens, evicted)
      ensures evicted <= ActiveSet(old(repo.db.refreshTokens), userId, clock(0))
      ensures forall t | t >= clock(readings) :: |ActiveSet(repo.db.refreshTokens, userId, t)| <= cfg.maxSessions
      ensures (forall k: nat :: clock(k) == clock(0)) ==>
                && OldestExcess(old(repo.db.refreshTokens), userId, cfg.maxSessions, clock(0), evicted)
                && repo.db.refreshTokens == RevokeAt(old(repo.db.refreshTokens), evicted, clock(0))
    {
      hide ActiveSet, RevokeOne, RevokeAt, OldestExcess, Evicts, Progress;
      ghost var before := repo.db.refreshTokens;
      ghost var still := forall k: nat :: clock(k) == clock(0);
      evicted, readings := {}, 0;
      var count := repo.CountActiveByUserId(userId, clock(0));
      if count <= cfg.maxSessions {
        NothingToClose(before, userId, clock(0), cfg.maxSessions);
        return;
      }
      ProgressStarts(before, userId, clock(0), still);
      var excess := count - cfg.maxSessions;
      for i := 0 to excess
        invariant readings == 2 * i
        invariant Progress(before, repo.db.refreshTokens, userId, clock(0), clock(2 * i), still, evicted, count - i, i)
      {
        ghost var rows := repo.db.refreshTokens;
        var oldest := repo.FindOldestActiveByUserId(userId, clock(2 * i + 1));
        if oldest.Some? {
          repo.RevokeToken(oldest.value, clock(2 * i + 2));
          CloseStep(before, rows, userId, clock(0), clock(2 * i), clock(2 * i + 1), clock(2 * i + 2),
                    still, evicted, count - i, i, oldest.value);
          evicted := evicted + {oldest.value};
        } else {
          IdleStep(before, rows, userId, clock(0), clock(2 * i), clock(2 * i + 1), clock(2 * i + 2),
                   still, evicted, count - i, i);
        }
        readings := 2 * i + 2;
      }
      ProgressEnds(before, repo.db.refreshTokens, userId, clock(0), clock(readings),
                   still, evicted, cfg.maxSessions, excess);
    }

    static lemma NothingToClose(rows: RefreshTokens, userId: Uuid, now: int, limit: nat)
      requires |ActiveSet(rows, userId, now)| <= limit
      ensures Evicts(rows, rows, {}) && OldestExcess(rows, userId, limit, now, {}) && rows == RevokeAt(rows, {}, now)
      ensures {} <= ActiveSet(rows, userId, now) && forall t | t >= now :: |ActiveSet(rows, userId, t)| <= limit
    {
      SettleCount(rows, userId, now, limit);
    }

    static lemma ProgressStarts(rows: RefreshTokens, userId: Uuid, now: int, still: bool)
      ensures Progress(rows, rows, userId, now, now, still, {}, |ActiveSet(rows, userId, now)|, 0)
    {
    }

    static lemma ProgressEnds(before: RefreshTokens, rows: RefreshTokens, userId: Uuid, start: int, now: int,
                              still: bool, evicted: set<Uuid>, limit: nat, n: nat)
      requires Progress(before, rows, userId, start, now, still, evicted, limit, n)
      requires n > 0 && |ActiveSet(before, userId, start)| == limit + n
      ensures Evicts(before, rows, evicted) && evicted <= ActiveSet(before, userId, start)
      ensures forall t | t >= now :: |ActiveSet(rows, userId, t)| <= limit
      ensures still ==> OldestExcess(before, userId, limit, start, evicted) && rows == RevokeAt(before, evicted, start)
    {
      SettleCount(rows, userId, now, limit);
    }

    /** After `n` rounds begun at `start`, at time `now`: only sessions active at the start are
        closed, at most `bound` are left, and with a clock that stands still the oldest went first. */
    static ghost predicate Progress(before: RefreshTokens, rows: RefreshTokens, userId: Uuid, start: int, now: int,
                                    still: bool, evicted: set<Uuid>, bound: int, n: nat) {
      && evicted <= ActiveSet(before, userId, start) && Evicts(before, rows, evicted)
      && |ActiveSet(rows, userId, now)| <= bound
      && (still ==> OldestFirst(before, rows, userId, start, evicted, n))
    }

    /** A round that finds the oldest session at `found` and closes it at `closed`. */
    static lemma CloseStep(before: RefreshTokens, rows: RefreshTokens, userId: Uuid,
                           start: int, now: int, found: int, closed: int,
                           still: bool, evicted: set<Uuid>, bound: int, n: nat, id: Uuid)
      requires Progress(before, rows, userId, start, now, still, evicted, bound, n)
      requires start <= now <= found <= closed && (still ==> start == closed)
      requires id in ActiveSet(rows, userId, found)
      requires forall k | k in ActiveSet(rows, userId, found) :: rows[id].issuedAt <= rows[k].issuedAt
      ensures Progress(before, RevokeOne(rows, id, closed), userId, start, closed,
                       still, evicted + {id}, bound - 1, n + 1)
    {
      hide ActiveSet, Evicts, OldestFirst, RevokeOne;
      ActiveShrinks(rows, userId, now, found);
      CloseOne(before, rows, userId, evicted, id, found, closed, start);
      if still {
        CloseOldest(before, rows, userId, start, evicted, n, id);
      }
    }

    /** A round that finds no session left: with a clock that stands still there is none. */
    static lemma IdleStep(before: RefreshTokens, rows: RefreshTokens, userId: Uuid,
                          start: int, now: int, found: int, closed: int,
                          still: bool, evicted: set<Uuid>, bound: int, n: nat)
      requires Progress(before, rows, userId, start, now, still, evicted, bound, n) && bound >= 1
      requires start <= now <= found <= closed && (still ==> start == closed && n < |ActiveSet(before, userId, start)|)
      requires ActiveSet(rows, userId, found) == {}
      ensures Progress(before, rows, userId, start, closed, still, evicted, bound - 1, n + 1)
    {
      hide ActiveSet, Evicts, OldestFirst;
      ActiveShrinks(rows, userId, found, closed);
      if still {
        SomeLeft(before, rows, userId, start, evicted, n);
      }
    }

    /** After closing `n` sessions at one instant: the `n` oldest are the ones closed. */
    static ghost predicate OldestFirst(before: RefreshTokens, rows: RefreshTokens, userId: Uuid, now: int,
                                       evicted: set<Uuid>, n: nat) {
      var active := ActiveSet(before, userId, now);
      && evicted <= active && |evicted| == n
      && rows == RevokeAt(before, evicted, now)
      && forall e, k | e in evicted && k in active - evicted :: before[e].issuedAt <= before[k].issuedAt
    }

    static lemma SomeLeft(before: RefreshTokens, rows: RefreshTokens, userId: Uuid, now: int, evicted: set<Uuid>,
                          n: nat)
      requires OldestFirst(before, rows, userId, now, evicted, n)
      ensures ActiveSet(rows, userId, now) == ActiveSet(before, userId, now) - evicted
      ensures |ActiveSet(rows, userId, now)| == |ActiveSet(before, userId, now)| - n
    {
      ActiveAfterRevoke(before, evicted, now, userId, now);
      var active := ActiveSet(before, userId, now);
      assert |active - evicted| == |active| - |evicted|;
    }

    static lemma CloseOldest(before: RefreshTokens, rows: RefreshTokens, userId: Uuid, now: int,
                             evicted: set<Uuid>, n: nat, id: Uuid)
      requires OldestFirst(before, rows, userId, now, evicted, n)
      requires id in ActiveSet(rows, userId, now)
      requires forall k | k in ActiveSet(rows, userId, now) :: rows[id].issuedAt <= rows[k].issuedAt
      ensures OldestFirst(before, RevokeOne(rows, id, now), userId, now, evicted + {id}, n + 1)
    {
      SomeLeft(before, rows, userId, now, evicted, n);
      RevokeOneMore(before, evicted, id, now);
      hide RevokeOne, RevokeAt;
    }

    static lemma RevokeOneMore(rows: RefreshTokens, ids: set<Uuid>, id: Uuid, now: int)
      requires id in rows
      ensures RevokeOne(RevokeAt(rows, ids, now), id, now) == RevokeAt(rows, ids + {id}, now)
    {
    }

    static lemma SettleCount(rows: RefreshTokens, userId: Uuid, now: int, limit: nat)
      requires |ActiveSet(rows, userId, now)| <= limit
      ensures forall t | t >= now :: |ActiveSet(rows, userId, t)| <= limit
    {
      forall t | t >= now
        ensures |ActiveSet(rows, userId, t)| <= limit
      {
        ActiveShrinks(rows, userId, now, t);
      }
    }

    /** Closing one active session removes it from the count, at the time of closing and later. */
    static lemma CloseOne(before: RefreshTokens, rows: RefreshTokens, userId: Uuid, evicted: set<Uuid>, id: Uuid,
                          found: int, closed: int, start: int)
      requires Evicts(before, rows, evicted) && id in ActiveSet(rows, userId, found) && start <= found <= closed
      ensures |ActiveSet(RevokeOne(rows, id, closed), userId, closed)| < |ActiveSet(rows, userId, found)|
      ensures id in ActiveSet(before, userId, start) && id !in evicted
      ensures Evicts(before, RevokeOne(rows, id, closed), evicted + {id})
    {
      SubsetSize(ActiveSet(RevokeOne(rows, id, closed), userId, closed), ActiveSet(rows, userId, found) - {id});
    }

    method RevokeSession(sessionId: Uuid, now: int)
      modifies repo.db`refreshTokens
      ensures repo.db.Rows()
              == old(repo.db.Rows()).(refreshTokens := RevokeOne(old(repo.db.refreshTokens), sessionId, now))
    {
      repo.RevokeToken(sessionId, now);
    }
  }

  class AuthService {
    const cfg: Config
    const db: Database
    const users: UserCredentialRepository
    const resets: PasswordResetTokenRepository
    const tokens: TokenService
    const sessions: SessionService

    constructor (cfg: Config, db: Database)
      ensures this.cfg == cfg && this.db == db && Wired()
    {
      this.cfg := cfg;
      this.db := db;
      users := new UserCredentialRepository(db);
      resets := new PasswordResetTokenRepository(db);
      tokens := new TokenService(cfg, db);
      sessions := new SessionService(cfg, db);
    }

    /** All parts work on the same database, with the same settings. */
    predicate Wired() {
      users.db == resets.db == tokens.repo.db == sessions.repo.db == db && tokens.cfg == sessions.cfg == cfg
    }

    /** Issue a token, then close the oldest sessions above the limit, all at one instant. */
    method OpenSession(userId: Uuid, now: int) returns (raw: Uuid, ghost evicted: set<Uuid>)
      requires Wired()
      modifies db`refreshTokens, db`uuids
      ensures raw == old(db.uuids) && MayEvict(cfg, old(db.Rows()), userId, now, evicted)
      ensures db.Rows() == Machine.OpenSession(cfg, old(db.Rows()), userId, now, evicted).state
    {
      var id;
      raw, id := tokens.GenerateRefreshToken(userId, now);
      ghost var readings;
      evicted, readings := sessions.EnforceMaxSessions(userId, _ => now);
    }

    method Register(email: string, passwordHash: string, now: int) returns (reply: Reply, ghost evicted: set<Uuid>)
      requires Wired() && db.Indexed()
      modifies db`credentials, db`refreshTokens, db`uuids
      ensures Outcome(db.Rows(), reply) == DoRegister(cfg, old(db.Rows()), now, email, passwordHash, evicted)
      ensures Allowed(cfg, old(db.Rows()), now, Op.Register(email, passwordHash, evicted))
    {
      var existing := users.FindByEmail(email);
      if existing.Some? {
        return Failed(EmailExists), {};
      }
      var userId := users.CreateCredential(email, passwordHash);
      var raw;
      raw, evicted := OpenSession(userId, now);
      reply := Session(userId, raw);
    }

    method Login(email: string, passwordOk: bool, now: int) returns (reply: Reply, ghost evicted: set<Uuid>)
      requires Wired() && db.Indexed()
      modifies db`credentials, db`refreshTokens, db`uuids
      ensures Outcome(db.Rows(), reply) == DoLogin(cfg, old(db.Rows()), now, email, passwordOk, evicted)
      ensures Allowed(cfg, old(db.Rows()), now, Op.Login(email, passwordOk, evicted))
    {
      hide RevokeAllOf, RevokeAt, OldestExcess;
      evicted := {};
      var found := users.FindByEmail(email);
      if found.None? {
        return Failed(InvalidCredentials), {};
      }
      var userId := found.value;
      // The record as read; unlocking below changes the row, not this copy.
      var credential := db.credentials[userId];
      if credential.status == Locked {
        if credential.lockedUntil.Some? && credential.lockedUntil.value <= now {
          users.UnlockAccount(userId);
        } else {
          return Failed(AccountLocked), {};
        }
      }
      if credential.status == Banned {
        return Failed(AccountBanned), {};
      }
      if credential.status == Deleted {
        return Failed(InvalidCredentials), {};
      }
      assert db.credentials == old(db.credentials)[userId := Admit(credential, now).account];
      if !passwordOk {
        CountFailure(userId, now);
        return Failed(InvalidCredentials), {};
      }
      users.ResetFailedAttempts(userId);
      var raw;
      raw, evicted := OpenSession(userId, now);
      reply := Session(userId, raw);
    }

    /** Count a wrong password; at the limit, lock the account and revoke its tokens. */
    method CountFailure(userId: Uuid, now: int)
      requires Wired() && userId in db.credentials
      modifies db`credentials, db`refreshTokens
      ensures db.Rows() == DoWrongPassword(cfg, old(db.Rows()), now, userId, old(db.credentials)[userId]).state
    {
      var failedAttempts := users.IncrementFailedAttempts(userId);
      if failedAttempts >= cfg.maxAttempts {
        users.LockAccount(userId, Some(now + cfg.lockout));
        tokens.RevokeAllUserTokens(userId, now);
      }
    }

    method Logout(raw: Uuid, now: int)
      requires Wired() && db.Indexed()
      modifies db`refreshTokens
      ensures db.Rows() == DoLogout(old(db.Rows()), now, raw).state
    {
      var found := tokens.repo.FindByTokenHash(HashOf(raw));
      if found.Some? {
        tokens.repo.RevokeToken(found.value, now);
      }
    }

    /** The account check behind a token that is otherwise in order. */
    method ValidateAccount(userId: Uuid, now: int) returns (reply: Reply)
      ensures Outcome(db.Rows(), reply) == DoValidate(db.Rows(), now, userId)
    {
      if userId !in db.credentials {
        return Failed(AccountInvalid);
      }
      var user := db.credentials[userId];
      if user.status == Locked {
        if user.lockedUntil.Some? && user.lockedUntil.value <= now {
          return Done;
        }
        return Failed(AccountLocked);
      }
      if user.status == Banned {
        return Failed(AccountBanned);
      }
      if user.status == Deleted {
        return Failed(AccountInvalid);
      }
      reply := Done;
    }

    method ForgotPassword(email: string, now: int)
      requires Wired() && db.Indexed()
      modifies db`resetTokens, db`uuids
      ensures db.Rows() == DoForgotPassword(cfg, old(db.Rows()), now, email).state
    {
      var found := users.FindByEmail(email);
      if found.None? {
        return;
      }
      var raw := db.DrawUuid();
      resets.DeleteByUserId(found.value);
      var id := resets.Create(found.value, HashOf(raw), now + cfg.resetLifetime);
    }

    method ResetPassword(raw: Uuid, newHash: string, now: int) returns (reply: Reply)
      requires Wired() && db.Indexed()
      modifies db`credentials, db`refreshTokens, db`resetTokens
      ensures Outcome(db.Rows(), reply) == DoResetPassword(old(db.Rows()), now, raw, newHash)
    {
      var found := resets.FindByTokenHash(HashOf(raw));
      if found.None? {
        return Failed(PasswordResetInvalid);
      }
      var resetToken := db.resetTokens[found.value];
      if resetToken.used {
        return Failed(PasswordResetUsed);
      }
      if resetToken.expiresAt < now {
        return Failed(PasswordResetInvalid);
      }
      users.UpdatePassword(resetToken.userId, newHash);
      resets.MarkAsUsed(found.value);
      resets.DeleteByUserId(resetToken.userId);
      tokens.RevokeAllUserTokens(resetToken.userId, now);
      reply := Done;
    }
  }

  class AccountService {
    const db: Database
    const users: UserCredentialRepository
    const tokens: TokenService

    constructor (cfg: Config, db: Database)
      ensures this.db == db && Wired()
    {
      this.db := db;
      users := new UserCredentialRepository(db);
      tokens := new TokenService(cfg, db);
    }

    predicate Wired() {
      users.db == tokens.repo.db == db
    }

    method LockAccount(userId: Uuid, minutes: Option<int>, now: int) returns (reply: Reply)
      requires Wired()
      modifies db`credentials, db`refreshTokens
      ensures Outcome(db.Rows(), reply) == DoAdminLock(old(db.Rows()), now, userId, minutes)
    {
      if userId !in db.credentials {
        return Failed(UserNotFound);
      }
      var lockedUntil: Option<int> := None;
      if minutes.Some? && minutes.value != 0 {
        lockedUntil := Some(now + minutes.value * MINUTE);
      }
      users.LockAccount(userId, lockedUntil);
      tokens.RevokeAllUserTokens(userId, now);
      reply := Done;
    }

    method UnlockAccount(userId: Uuid) returns (reply: Reply)
      requires Wired()
      modifies db`credentials
      ensures Outcome(db.Rows(), reply) == DoAdminUnlock(old(db.Rows()), userId)
    {
      if userId !in db.credentials {
        return Failed(UserNotFound);
      }
      users.UnlockAccount(userId);
      reply := Done;
    }

    method BanUser(userId: Uuid, now: int) returns (reply: Reply)
      requires Wired()
      modifies db`credentials, db`refreshTokens
      ensures Outcome(db.Rows(), reply) == DoBan(old(db.Rows()), now, userId)
    {
      if userId !in db.credentials {
        return Failed(UserNotFound);
      }
      users.UpdateStatus(userId, Banned);
      tokens.RevokeAllUserTokens(userId, now);
      reply := Done;
    }

    method DeleteCredentials(userId: Uuid)
      requires Wired()
      modifies db`credentials, db`refreshTokens, db`resetTokens
      ensures db.Rows() == DoDelete(old(db.Rows()), userId).state
    {
      var deleted := users.DeleteCredential(userId);
    }
  }

  class RoleService {
    const db: Database
    const users: UserCredentialRepository
    const tokens: TokenService

    constructor (cfg: Config, db: Database)
      ensures this.db == db && Wired()
    {
      this.db := db;
      users := new UserCredentialRepository(db);
      tokens := new TokenService(cfg, db);
    }

    predicate Wired() {
      users.db == tokens.repo.db == db
    }

    method AssignRole(userId: Uuid, role: string, defined: bool, now: int) returns (reply: Reply)
      requires Wired()
      modifies db`credentials, db`refreshTokens
      ensures Outcome(db.Rows(), reply) == DoAssignRole(old(db.Rows()), now, userId, role, defined)
    {
      if userId !in db.credentials {
        return Failed(UserNotFound);
      }
      if !defined {
        return Failed(RoleNotDefined);
      }
      var roles := db.credentials[userId].roles;
      if role in roles {
        return Done;
      }
      users.UpdateRoles(userId, roles + [role]);
      tokens.RevokeAllUserTokens(userId, now);
      reply := Done;
    }

    method RevokeRole(userId: Uuid, role: string, now: int) returns (reply: Reply)
      requires Wired()
      modifies db`credentials, db`refreshTokens
      ensures Outcome(db.Rows(), reply) == DoRevokeRole(old(db.Rows()), now, userId, role)
    {
      if userId !in db.credentials {
        return Failed(UserNotFound);
      }
      var roles := db.credentials[userId].roles;
      if role !in roles {
        return Done;
      }
      users.UpdateRoles(userId, WithoutRole(roles, role));
      tokens.RevokeAllUserTokens(userId, now);
      reply := Done;
    }
  }

  class UnlockExpiredLockoutsJob {
    const users: UserCredentialRepository

    constructor (db: Database)
      ensures users.db == db
    {
      users := new UserCredentialRepository(db);
    }

    /** The records are picked once, then unlocked one by one in whatever order. */
    method HandleUnlock(now: int)
      modifies users.db`credentials
      ensures users.db.credentials == UnlockExpired(old(users.db.credentials), now)
    {
      ghost var before := users.db.credentials;
      var lockedAccounts := users.FindLockedAccountsToUnlock(now);
      var rest := lockedAccounts;
      while rest != {}
        invariant rest <= lockedAccounts && users.db.credentials.Keys == before.Keys
        invariant forall id | id in before ::
                    users.db.credentials[id] ==
                    if id in lockedAccounts && id !in rest then Unlock(before[id]) else before[id]
        decreases |rest|
      {
        var id :| id in rest;
        rest := rest - {id};
        users.UnlockAccount(id);
      }
      assert users.db.credentials == UnlockExpired(before, now);
    }
  }
}
