/** One account record: the lockout automaton that login, the administrators and the unlock
    job drive. */
module Accounts {
  import opened Types

  datatype Error =
    | EmailExists
    | InvalidCredentials
    | AccountLocked
    | AccountBanned
    | AccountInvalid
    | UserNotFound
    | RoleNotDefined
    | RefreshTokenInvalid
    | TokenReuseDetected
    | PasswordResetInvalid
    | PasswordResetUsed

  /** What the status checks at the head of a login decide: refuse, or go on to the password
      with the record as the checks left it. */
  datatype Gate = Refuse(error: Error) | Proceed(account: Credential)

  predicate LockExpired(c: Credential, now: int) {
    c.status == Locked && c.lockedUntil.Some? && c.lockedUntil.value <= now
  }

  function Unlock(c: Credential): Credential {
    c.(status := Active, failedLoginAttempts := 0, lockedUntil := None)
  }

  function Lock(c: Credential, until: Option<int>): Credential {
    c.(status := Locked, lockedUntil := until)
  }

  function Admit(c: Credential, now: int): Gate {
    match c.status
    case Locked => if LockExpired(c, now) then Proceed(Unlock(c)) else Refuse(AccountLocked)
    case Banned => Refuse(AccountBanned)
    case Deleted => Refuse(InvalidCredentials)
    case Active => Proceed(c)
  }

  predicate LocksOut(cfg: Config, c: Credential) {
    c.failedLoginAttempts + 1 >= cfg.maxAttempts
  }

  function WrongPassword(cfg: Config, c: Credential, now: int): Credential {
    var counted := c.(failedLoginAttempts := c.failedLoginAttempts + 1);
    if LocksOut(cfg, c) then Lock(counted, Some(now + cfg.lockout)) else counted
  }

  function RightPassword(c: Credential): Credential {
    c.(failedLoginAttempts := 0)
  }

  /** The unlock job compares strictly, login does not: they differ when the lock ends now. */
  predicate JobUnlocks(c: Credential, now: int) {
    c.status == Locked && c.lockedUntil.Some? && c.lockedUntil.value < now
  }

  /** The answer for an access token whose signature, lifetime and blacklist entry are in order. */
  function Standing(c: Credential, now: int): Option<Error> {
    match c.status
    case Locked => if LockExpired(c, now) then None else Some(AccountLocked)
    case Banned => Some(AccountBanned)
    case Deleted => Some(AccountInvalid)
    case Active => None
  }

  /** Records that every account keeps between operations. */
  predicate AccountOk(cfg: Config, c: Credential) {
    && c.status != Deleted
    && (c.status == Active ==> c.lockedUntil.None? && c.failedLoginAttempts < cfg.maxAttempts)
  }
}
