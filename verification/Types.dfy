/** The rows of the three database tables and the settings the services read.

    A `Uuid` is the position of an identifier in the stream of UUIDs the service draws:
    two draws never coincide, and a later draw is a larger number. Times are integer
    milliseconds. E-mail addresses are held lower-cased, as every lookup compares them. */
module Types {

  type Uuid = nat

  datatype Option<+T> = None | Some(value: T)

  /** The stored form of a secret: SHA-256 is taken to be injective. */
  datatype Digest = HashOf(raw: Uuid)

  datatype Status = Active | Locked | Banned | Deleted

  datatype Credential = Credential(
    email: string,
    passwordHash: string,
    status: Status,
    roles: seq<string>,
    failedLoginAttempts: nat,
    lockedUntil: Option<int>)

  datatype RefreshToken = RefreshToken(
    userId: Uuid,
    tokenHash: Digest,
    issuedAt: int,
    expiresAt: int,
    revoked: bool,
    revokedAt: Option<int>,
    replacedBy: Option<Uuid>)

  datatype ResetToken = ResetToken(userId: Uuid, tokenHash: Digest, expiresAt: int, used: bool)

  type Credentials = map<Uuid, Credential>
  type RefreshTokens = map<Uuid, RefreshToken>
  type ResetTokens = map<Uuid, ResetToken>

  /** The whole database, and how many UUIDs have been drawn. */
  datatype State = State(
    credentials: Credentials,
    refreshTokens: RefreshTokens,
    resetTokens: ResetTokens,
    uuids: nat)

  const MINUTE := 60_000
  const DAY := 86_400_000
  const RETENTION := 7 * DAY

  datatype Config = Config(
    maxAttempts: nat,
    lockout: int,
    maxSessions: nat,
    refreshLifetime: int,
    resetLifetime: int)
  {
    predicate Valid() {
      maxAttempts >= 1 && lockout > 0 && maxSessions >= 1 && refreshLifetime > 0 && resetLifetime > 0
    }
  }

  /** What the services use: the keys they ask the configuration for are not defined there,
      so every read falls back to the default written beside it. */
  const DEFAULTS := Config(5, 30 * MINUTE, 5, 7 * DAY, 15 * MINUTE)
}
