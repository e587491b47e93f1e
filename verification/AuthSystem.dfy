/** All services on one database: whatever requests they handle, the database goes through a
    run of the state machine, so the theorems about runs are about it. */
module AuthSystem {
  import opened Types
  import opened Tables
  import opened Machine
  import opened Invariants
  import opened Repositories
  import opened Services

  /** The same request, up to the sessions it turned out to close. */
  predicate SameRequest(a: Op, b: Op) {
    match (a, b)
    case (Register(email, hash, _), Register(email', hash', _)) => email == email' && hash == hash'
    case (Login(email, ok, _), Login(email', ok', _)) => email == email' && ok == ok'
    case _ => a == b
  }

  predicate IsAdministration(op: Op) {
    op.AdminLock? || op.AdminUnlock? || op.Ban? || op.DeleteCredentials? || op.AssignRole? || op.RevokeRole?
  }

  predicate IsJob(op: Op) {
    op.UnlockJob? || op.RefreshCleanupJob? || op.ResetCleanupJob?
  }

  class AuthSystem {
    const cfg: Config
    const db: Database
    const auth: AuthService
    const accounts: AccountService
    const roles: RoleService
    const unlockJob: UnlockExpiredLockoutsJob
    const resets: PasswordResetTokenRepository
    ghost var trace: seq<Entry>

    constructor (cfg: Config)
      requires cfg.Valid()
      ensures Valid() && trace == [] && fresh(db)
    {
      this.cfg := cfg;
      var database := new Database();
      db := database;
      auth := new AuthService(cfg, database);
      accounts := new AccountService(cfg, database);
      roles := new RoleService(cfg, database);
      unlockJob := new UnlockExpiredLockoutsJob(database);
      resets := new PasswordResetTokenRepository(database);
      trace := [];
    }

    predicate Connected()
    {
      && auth.db == accounts.db == roles.db == unlockJob.users.db == resets.db == db
      && auth.cfg == cfg && auth.Wired() && accounts.Wired() && roles.Wired()
    }

    ghost predicate Valid()
      reads this, db
    {
      && Connected()
      && IsRun(cfg, trace)
      && db.Rows() == StateAt(cfg, trace, |trace|)
    }

    /** Handles one request, and records it. */
    method Handle(request: Op, now: int) returns (reply: Reply)
      requires Valid() && (trace != [] ==> trace[|trace| - 1].now <= now)
      modifies this`trace, db
      ensures Valid()
      ensures |trace| == |old(trace)| + 1 && trace[..|old(trace)|] == old(trace)
      ensures trace[|old(trace)|].now == now && SameRequest(trace[|old(trace)|].op, request)
      ensures reply == ReplyAt(cfg, trace, |old(trace)|)
      ensures forall u | u in db.credentials && db.credentials[u].status != Active ::
              UnrevokedOf(db.refreshTokens, u) == {}
    {
      Reachable(cfg, trace, |trace|, now);
      ghost var op;
      reply, op := Dispatch(request, now);
      ExtendRun(cfg, trace, now, op);
      trace := trace + [At(now, op)];
      Reachable(cfg, trace, |trace|, now);
    }

    method Dispatch(request: Op, now: int) returns (reply: Reply, ghost op: Op)
      requires Connected() && db.Indexed()
      modifies db
      ensures SameRequest(op, request) && Allowed(cfg, old(db.Rows()), now, op)
      ensures Outcome(db.Rows(), reply) == Apply(cfg, old(db.Rows()), now, op)
    {
      hide DoRegister, DoLogin, DoRefresh;
      op := request;
      if request.Register? {
        ghost var evicted;
        reply, evicted := auth.Register(request.email, request.passwordHash, now);
        op := Register(request.email, request.passwordHash, evicted);
      } else if request.Login? {
        ghost var evicted;
        reply, evicted := auth.Login(request.email, request.passwordOk, now);
        op := Login(request.email, request.passwordOk, evicted);
      } else if IsAdministration(request) {
        reply := DispatchAdmin(request, now);
      } else if IsJob(request) {
        DispatchJob(request, now);
        reply := Done;
      } else {
        reply := DispatchSession(request, now);
      }
    }

    method DispatchSession(request: Op, now: int) returns (reply: Reply)
      requires Connected() && db.Indexed()
      requires !request.Register? && !request.Login? && !IsAdministration(request) && !IsJob(request)
      modifies db
      ensures Outcome(db.Rows(), reply) == Apply(cfg, old(db.Rows()), now, request)
    {
      hide DoRefresh, DoResetPassword, DoValidate;
      match request
      case Refresh(raw) => reply := auth.tokens.RefreshTokens(raw, now);
      case ForgotPassword(email) => auth.ForgotPassword(email, now); reply := Done;
      case ResetPassword(raw, hash) => reply := auth.ResetPassword(raw, hash, now);
      case Validate(userId) => reply := auth.ValidateAccount(userId, now);
      case Logout(raw) => auth.Logout(raw, now); reply := Done;
      case RevokeSession(id) => auth.sessions.RevokeSession(id, now); reply := Done;
      case RevokeAllTokens(userId) => auth.tokens.RevokeAllUserTokens(userId, now); reply := Done;
    }

    method DispatchAdmin(request: Op, now: int) returns (reply: Reply)
      requires Connected() && db.Indexed() && IsAdministration(request)
      modifies db
      ensures Outcome(db.Rows(), reply) == Apply(cfg, old(db.Rows()), now, request)
    {
      reply := Done;
      match request
      case AdminLock(userId, minutes) => reply := accounts.LockAccount(userId, minutes, now);
      case AdminUnlock(userId) => reply := accounts.UnlockAccount(userId);
      case Ban(userId) => reply := accounts.BanUser(userId, now);
      case DeleteCredentials(userId) => accounts.DeleteCredentials(userId);
      case AssignRole(userId, role, defined) => reply := roles.AssignRole(userId, role, defined, now);
      case RevokeRole(userId, role) => reply := roles.RevokeRole(userId, role, now);
    }

    method DispatchJob(request: Op, now: int)
      requires Connected() && IsJob(request)
      modifies db
      ensures Outcome(db.Rows(), Done) == Apply(cfg, old(db.Rows()), now, request)
    {
      match request
      case UnlockJob => unlockJob.HandleUnlock(now);
      case RefreshCleanupJob => var affected := auth.tokens.repo.DeleteExpiredAndRevoked(now);
      case ResetCleanupJob => var affected := resets.DeleteExpiredOrUsed(now);
    }
  }
}
