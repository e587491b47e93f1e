/** The service as a state machine: one step per request or job run.

    A request runs as one step, at one time. What the environment decides is part of the
    request: whether the password matches, whether a role is defined, and which of the
    oldest sessions the database picks when some were issued at the same instant. */
module Machine {
  import opened Types
  import opened Tables
  import opened Accounts

  datatype Op =
    | Register(email: string, passwordHash: string, evicted: set<Uuid>)
    | Login(email: string, passwordOk: bool, evicted: set<Uuid>)
    | Refresh(raw: Uuid)
    | Logout(raw: Uuid)
    | RevokeSession(sessionId: Uuid)
    | RevokeAllTokens(userId: Uuid)
    | AdminLock(userId: Uuid, minutes: Option<int>)
    | AdminUnlock(userId: Uuid)
    | Ban(userId: Uuid)
    | DeleteCredentials(userId: Uuid)
    | ForgotPassword(email: string)
    | ResetPassword(raw: Uuid, newHash: string)
    | AssignRole(userId: Uuid, role: string, defined: bool)
    | RevokeRole(userId: Uuid, role: string)
    | Validate(userId: Uuid)
    | UnlockJob
    | RefreshCleanupJob
    | ResetCleanupJob

  datatype Reply =
    | Done
    | Session(userId: Uuid, raw: Uuid)
    | Failed(error: Error)

  datatype Outcome = Outcome(state: State, reply: Reply)

  // ---------- Sessions ----------

  /** A new refresh token: its secret is the next UUID, its row id the one after. */
  function Issue(cfg: Config, s: State, userId: Uuid, now: int): State {
    s.(refreshTokens := s.refreshTokens[s.uuids + 1 := NewRefreshToken(userId, s.uuids, now, cfg.refreshLifetime)],
       uuids := s.uuids + 2)
  }

  function OpenSession(cfg: Config, s: State, userId: Uuid, now: int, evicted: set<Uuid>): Outcome {
    var issued := Issue(cfg, s, userId, now);
    Outcome(issued.(refreshTokens := RevokeAt(issued.refreshTokens, evicted, now)), Session(userId, s.uuids))
  }

  ghost predicate MayEvict(cfg: Config, s: State, userId: Uuid, now: int, evicted: set<Uuid>) {
    OldestExcess(Issue(cfg, s, userId, now).refreshTokens, userId, cfg.maxSessions, now, evicted)
  }

  function RevokeTokens(s: State, userId: Uuid, now: int): State {
    s.(refreshTokens := RevokeAllOf(s.refreshTokens, userId, now))
  }

  // ---------- Registration and login ----------

  ghost function FindByEmail(s: State, email: string): Option<Uuid> {
    FindKey(Emails(s.credentials), email)
  }

  ghost function FindToken(s: State, raw: Uuid): Option<Uuid> {
    FindKey(RefreshHashes(s.refreshTokens), HashOf(raw))
  }

  ghost function FindReset(s: State, raw: Uuid): Option<Uuid> {
    FindKey(ResetHashes(s.resetTokens), HashOf(raw))
  }

  function Put(s: State, userId: Uuid, c: Credential): State {
    s.(credentials := s.credentials[userId := c])
  }

  function Enrol(s: State, email: string, passwordHash: string): State {
    Put(s, s.uuids, Credential(email, passwordHash, Active, ["USER"], 0, None)).(uuids := s.uuids + 1)
  }

  ghost function DoRegister(cfg: Config, s: State, now: int, email: string, passwordHash: string,
                            evicted: set<Uuid>): Outcome {
    if FindByEmail(s, email).Some? then
      Outcome(s, Failed(EmailExists))
    else
      OpenSession(cfg, Enrol(s, email, passwordHash), s.uuids, now, evicted)
  }

  function DoWrongPassword(cfg: Config, s: State, now: int, userId: Uuid, c: Credential): Outcome {
    var counted := Put(s, userId, WrongPassword(cfg, c, now));
    Outcome(if LocksOut(cfg, c) then RevokeTokens(counted, userId, now) else counted, Failed(InvalidCredentials))
  }

  ghost function DoLogin(cfg: Config, s: State, now: int, email: string, passwordOk: bool,
                         evicted: set<Uuid>): Outcome {
    var found := FindByEmail(s, email);
    if found.None? then
      Outcome(s, Failed(InvalidCredentials))
    else
      match Admit(s.credentials[found.value], now)
      case Refuse(error) => Outcome(s, Failed(error))
      case Proceed(c) =>
        if passwordOk then
          OpenSession(cfg, Put(s, found.value, RightPassword(c)), found.value, now, evicted)
        else
          DoWrongPassword(cfg, s, now, found.value, c)
  }

  // ---------- Refresh-token rotation ----------

  /** Revoke the presented row, issue a new token, link the old row to the new one. */
  function Rotate(cfg: Config, s: State, now: int, tokenId: Uuid): Outcome
    requires tokenId in s.refreshTokens
  {
    var userId := s.refreshTokens[tokenId].userId;
    var issued := Issue(cfg, s.(refreshTokens := RevokeOne(s.refreshTokens, tokenId, now)), userId, now);
    var rotated := issued.refreshTokens[tokenId];
    Outcome(
      issued.(refreshTokens := issued.refreshTokens[tokenId := rotated.(replacedBy := Some(s.uuids + 1))]),
      Session(userId, s.uuids))
  }

  ghost function DoRefresh(cfg: Config, s: State, now: int, raw: Uuid): Outcome {
    var found := FindToken(s, raw);
    if found.None? then
      Outcome(s, Failed(RefreshTokenInvalid))
    else
      var row := s.refreshTokens[found.value];
      if row.revoked then
        Outcome(RevokeTokens(s, row.userId, now), Failed(TokenReuseDetected))
      else if row.expiresAt < now then
        Outcome(s, Failed(RefreshTokenInvalid))
      else
        Rotate(cfg, s, now, found.value)
  }

  ghost function DoLogout(s: State, now: int, raw: Uuid): Outcome {
    var found := FindToken(s, raw);
    Outcome(if found.None? then s else s.(refreshTokens := RevokeOne(s.refreshTokens, found.value, now)), Done)
  }

  // ---------- Administration ----------

  /** A missing duration and a duration of zero both mean "until an administrator unlocks". */
  function LockEnd(minutes: Option<int>, now: int): Option<int> {
    if minutes.Some? && minutes.value != 0 then Some(now + minutes.value * MINUTE) else None
  }

  function DoAdminLock(s: State, now: int, userId: Uuid, minutes: Option<int>): Outcome {
    if userId !in s.credentials then
      Outcome(s, Failed(UserNotFound))
    else
      Outcome(RevokeTokens(Put(s, userId, Lock(s.credentials[userId], LockEnd(minutes, now))), userId, now), Done)
  }

  function DoAdminUnlock(s: State, userId: Uuid): Outcome {
    if userId !in s.credentials then
      Outcome(s, Failed(UserNotFound))
    else
      Outcome(Put(s, userId, Unlock(s.credentials[userId])), Done)
  }

  function DoBan(s: State, now: int, userId: Uuid): Outcome {
    if userId !in s.credentials then
      Outcome(s, Failed(UserNotFound))
    else
      Outcome(RevokeTokens(Put(s, userId, s.credentials[userId].(status := Banned)), userId, now), Done)
  }

  /** Deleting the record takes its refresh and reset tokens with it (ON DELETE CASCADE). */
  function DoDelete(s: State, userId: Uuid): Outcome {
    Outcome(
      State(s.credentials - {userId}, WithoutUser(s.refreshTokens, userId),
            WithoutUserResets(s.resetTokens, userId), s.uuids),
      Done)
  }

  function DoSetRoles(s: State, now: int, userId: Uuid, roles: seq<string>): Outcome
    requires userId in s.credentials
  {
    Outcome(RevokeTokens(Put(s, userId, s.credentials[userId].(roles := roles)), userId, now), Done)
  }

  function WithoutRole(roles: seq<string>, role: string): seq<string> {
    if roles == [] then []
    else if roles[0] == role then WithoutRole(roles[1..], role)
    else [roles[0]] + WithoutRole(roles[1..], role)
  }

  function DoAssignRole(s: State, now: int, userId: Uuid, role: string, defined: bool): Outcome {
    if userId !in s.credentials then Outcome(s, Failed(UserNotFound))
    else if !defined then Outcome(s, Failed(RoleNotDefined))
    else if role in s.credentials[userId].roles then Outcome(s, Done)
    else DoSetRoles(s, now, userId, s.credentials[userId].roles + [role])
  }

  function DoRevokeRole(s: State, now: int, userId: Uuid, role: string): Outcome {
    if userId !in s.credentials then Outcome(s, Failed(UserNotFound))
    else if role !in s.credentials[userId].roles then Outcome(s, Done)
    else DoSetRoles(s, now, userId, WithoutRole(s.credentials[userId].roles, role))
  }

  // ---------- Password reset ----------

  ghost function DoForgotPassword(cfg: Config, s: State, now: int, email: string): Outcome {
    var found := FindByEmail(s, email);
    if found.None? then
      Outcome(s, Done)
    else
      var row := ResetToken(found.value, HashOf(s.uuids), now + cfg.resetLifetime, false);
      Outcome(
        s.(resetTokens := WithoutUserResets(s.resetTokens, found.value)[s.uuids + 1 := row], uuids := s.uuids + 2),
        Done)
  }

  function SetPassword(s: State, userId: Uuid, newHash: string): State {
    if userId in s.credentials then Put(s, userId, s.credentials[userId].(passwordHash := newHash)) else s
  }

  ghost function DoResetPassword(s: State, now: int, raw: Uuid, newHash: string): Outcome {
    var found := FindReset(s, raw);
    if found.None? then
      Outcome(s, Failed(PasswordResetInvalid))
    else
      var row := s.resetTokens[found.value];
      if row.used then
        Outcome(s, Failed(PasswordResetUsed))
      else if row.expiresAt < now then
        Outcome(s, Failed(PasswordResetInvalid))
      else
        var changed := SetPassword(s, row.userId, newHash);
        var consumed := WithoutUserResets(MarkUsed(changed.resetTokens, found.value), row.userId);
        Outcome(RevokeTokens(changed.(resetTokens := consumed), row.userId, now), Done)
  }

  // ---------- Reads and jobs ----------

  function DoValidate(s: State, now: int, userId: Uuid): Outcome {
    if userId !in s.credentials then
      Outcome(s, Failed(AccountInvalid))
    else
      var standing := Standing(s.credentials[userId], now);
      Outcome(s, if standing.None? then Done else Failed(standing.value))
  }

  function UnlockExpired(rows: Credentials, now: int): Credentials {
    map id | id in rows :: if JobUnlocks(rows[id], now) then Unlock(rows[id]) else rows[id]
  }

  // ---------- Steps and runs ----------

  ghost function Apply(cfg: Config, s: State, now: int, op: Op): Outcome {
    match op
    case Register(email, passwordHash, evicted) => DoRegister(cfg, s, now, email, passwordHash, evicted)
    case Login(email, passwordOk, evicted) => DoLogin(cfg, s, now, email, passwordOk, evicted)
    case Refresh(raw) => DoRefresh(cfg, s, now, raw)
    case Logout(raw) => DoLogout(s, now, raw)
    case RevokeSession(id) => Outcome(s.(refreshTokens := RevokeOne(s.refreshTokens, id, now)), Done)
    case RevokeAllTokens(userId) => Outcome(RevokeTokens(s, userId, now), Done)
    case AdminLock(userId, minutes) => DoAdminLock(s, now, userId, minutes)
    case AdminUnlock(userId) => DoAdminUnlock(s, userId)
    case Ban(userId) => DoBan(s, now, userId)
    case DeleteCredentials(userId) => DoDelete(s, userId)
    case ForgotPassword(email) => DoForgotPassword(cfg, s, now, email)
    case ResetPassword(raw, newHash) => DoResetPassword(s, now, raw, newHash)
    case AssignRole(userId, role, defined) => DoAssignRole(s, now, userId, role, defined)
    case RevokeRole(userId, role) => DoRevokeRole(s, now, userId, role)
    case Validate(userId) => DoValidate(s, now, userId)
    case UnlockJob => Outcome(s.(credentials := UnlockExpired(s.credentials, now)), Done)
    case RefreshCleanupJob => Outcome(s.(refreshTokens := Purge(s.refreshTokens, now)), Done)
    case ResetCleanupJob => Outcome(s.(resetTokens := PurgeResets(s.resetTokens, now)), Done)
  }

  /** The session openings the database can produce; everything else can always happen. */
  ghost predicate Allowed(cfg: Config, s: State, now: int, op: Op) {
    match op
    case Register(email, passwordHash, evicted) =>
      FindByEmail(s, email).None? ==> MayEvict(cfg, Enrol(s, email, passwordHash), s.uuids, now, evicted)
    case Login(email, passwordOk, evicted) =>
      var found := FindByEmail(s, email);
      found.Some? && passwordOk ==>
        var gate := Admit(s.credentials[found.value], now);
        gate.Proceed? ==> MayEvict(cfg, Put(s, found.value, RightPassword(gate.account)), found.value, now, evicted)
    case _ => true
  }

  datatype Entry = At(now: int, op: Op)

  const EMPTY := State(map[], map[], map[], 0)

  /** The state after the first `i` entries of a run that starts from an empty database. */
  ghost function StateAt(cfg: Config, run: seq<Entry>, i: nat): State
    requires i <= |run|
  {
    if i == 0 then EMPTY
    else Apply(cfg, StateAt(cfg, run, i - 1), run[i - 1].now, run[i - 1].op).state
  }

  ghost function ReplyAt(cfg: Config, run: seq<Entry>, i: nat): Reply
    requires i < |run|
  {
    Apply(cfg, StateAt(cfg, run, i), run[i].now, run[i].op).reply
  }

  ghost predicate AllowedAt(cfg: Config, run: seq<Entry>, i: nat)
    requires i < |run|
  {
    Allowed(cfg, StateAt(cfg, run, i), run[i].now, run[i].op)
  }

  predicate Ordered(run: seq<Entry>) {
    forall i, j | 0 <= i <= j < |run| :: run[i].now <= run[j].now
  }

  ghost predicate IsRun(cfg: Config, run: seq<Entry>) {
    && cfg.Valid()
    && Ordered(run)
    && forall i | 0 <= i < |run| :: AllowedAt(cfg, run, i)
  }
}
