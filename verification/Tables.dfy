/** The queries and updates the repositories send to the tables. */
module Tables {
  import opened Types

  // ---------- Lookup by a unique column ----------

  ghost function FindKey<T>(column: map<Uuid, T>, value: T): (r: Option<Uuid>)
    ensures r.Some? ==> r.value in column && column[r.value] == value
    ensures r.None? ==> forall id | id in column :: column[id] != value
  {
    if exists id :: id in column && column[id] == value then
      var id :| id in column && column[id] == value;
      Some(id)
    else
      None
  }

  ghost predicate Unique<T>(column: map<Uuid, T>) {
    forall a, b | a in column && b in column && column[a] == column[b] :: a == b
  }

  function Emails(rows: Credentials): map<Uuid, string> {
    map id | id in rows :: rows[id].email
  }

  function RefreshHashes(rows: RefreshTokens): map<Uuid, Digest> {
    map id | id in rows :: rows[id].tokenHash
  }

  function ResetHashes(rows: ResetTokens): map<Uuid, Digest> {
    map id | id in rows :: rows[id].tokenHash
  }

  // ---------- Refresh tokens ----------

  function NewRefreshToken(userId: Uuid, raw: Uuid, now: int, lifetime: int): RefreshToken {
    RefreshToken(userId, HashOf(raw), now, now + lifetime, false, None, None)
  }

  function Revoke(row: RefreshToken, now: int): RefreshToken {
    row.(revoked := true, revokedAt := Some(now))
  }

  /** A row that was revoked before gets the new date. */
  function RevokeAt(rows: RefreshTokens, ids: set<Uuid>, now: int): RefreshTokens {
    map id | id in rows :: if id in ids then Revoke(rows[id], now) else rows[id]
  }

  function UnrevokedOf(rows: RefreshTokens, userId: Uuid): set<Uuid> {
    set id | id in rows && rows[id].userId == userId && !rows[id].revoked
  }

  function RevokeAllOf(rows: RefreshTokens, userId: Uuid, now: int): RefreshTokens {
    RevokeAt(rows, UnrevokedOf(rows, userId), now)
  }

  function RevokeOne(rows: RefreshTokens, id: Uuid, now: int): RefreshTokens {
    if id in rows then rows[id := Revoke(rows[id], now)] else rows
  }

  predicate IsActive(row: RefreshToken, userId: Uuid, now: int) {
    row.userId == userId && !row.revoked && row.expiresAt > now
  }

  function ActiveSet(rows: RefreshTokens, userId: Uuid, now: int): (active: set<Uuid>)
    ensures active <= rows.Keys
  {
    set id | id in rows && IsActive(rows[id], userId, now)
  }

  predicate Purgeable(row: RefreshToken, now: int) {
    || row.expiresAt < now
    || (row.revoked && row.revokedAt.Some? && row.revokedAt.value < now - RETENTION)
  }

  function Purge(rows: RefreshTokens, now: int): RefreshTokens {
    map id | id in rows && !Purgeable(rows[id], now) :: rows[id]
  }

  function WithoutUser(rows: RefreshTokens, userId: Uuid): RefreshTokens {
    map id | id in rows && rows[id].userId != userId :: rows[id]
  }

  /** The sets of sessions that closing the oldest ones, one at a time, may close. Which of
      several sessions issued at the same instant goes first is up to the database. */
  ghost predicate OldestExcess(rows: RefreshTokens, userId: Uuid, limit: nat, now: int, evicted: set<Uuid>) {
    var active := ActiveSet(rows, userId, now);
    && evicted <= active
    && |evicted| == (if |active| > limit then |active| - limit else 0)
    && forall e, k | e in evicted && k in active - evicted :: rows[e].issuedAt <= rows[k].issuedAt
  }

  lemma ActiveAfterInsert(rows: RefreshTokens, id: Uuid, row: RefreshToken, userId: Uuid, now: int)
    requires id !in rows
    ensures ActiveSet(rows[id := row], userId, now)
            == ActiveSet(rows, userId, now) + (if IsActive(row, userId, now) then {id} else {})
  {
  }

  lemma ActiveAfterRevoke(rows: RefreshTokens, ids: set<Uuid>, revokedAt: int, userId: Uuid, now: int)
    ensures ActiveSet(RevokeAt(rows, ids, revokedAt), userId, now) == ActiveSet(rows, userId, now) - ids
  {
  }

  lemma ActiveAfterRotation(rows: RefreshTokens, p: Uuid, spent: RefreshToken, q: Uuid, next: RefreshToken,
                            userId: Uuid, now: int)
    requires p in rows && q !in rows && spent.revoked
    ensures ActiveSet(rows[q := next][p := spent], userId, now)
            == ActiveSet(rows, userId, now) - {p} + (if IsActive(next, userId, now) then {q} else {})
  {
  }

  /** Closing the excess leaves `limit` sessions if there was an excess, and touches no other user. */
  lemma ActiveAfterEviction(rows: RefreshTokens, userId: Uuid, limit: nat, now: int, evicted: set<Uuid>, other: Uuid)
    requires OldestExcess(rows, userId, limit, now, evicted)
    ensures var before, after := ActiveSet(rows, other, now), ActiveSet(RevokeAt(rows, evicted, now), other, now);
            if other == userId then |after| == (if |before| > limit then limit else |before|) else after == before
  {
    ActiveAfterRevoke(rows, evicted, now, other, now);
    var before := ActiveSet(rows, other, now);
    if other == userId {
      assert |before - evicted| == |before| - |evicted|;
    } else {
      assert before !! evicted;
    }
  }

  /** Time only ends sessions. */
  lemma ActiveShrinks(rows: RefreshTokens, userId: Uuid, now: int, later: int)
    requires now <= later
    ensures ActiveSet(rows, userId, later) <= ActiveSet(rows, userId, now)
    ensures |ActiveSet(rows, userId, later)| <= |ActiveSet(rows, userId, now)|
  {
    SubsetSize(ActiveSet(rows, userId, later), ActiveSet(rows, userId, now));
  }

  lemma SubsetSize<T>(a: set<T>, b: set<T>)
    requires a <= b
    ensures |a| <= |b|
  {
    assert b == a + (b - a);
  }

  // ---------- Password reset tokens ----------

  function WithoutUserResets(rows: ResetTokens, userId: Uuid): ResetTokens {
    map id | id in rows && rows[id].userId != userId :: rows[id]
  }

  function MarkUsed(rows: ResetTokens, tokenId: Uuid): ResetTokens {
    if tokenId in rows then rows[tokenId := rows[tokenId].(used := true)] else rows
  }

  function PurgeResets(rows: ResetTokens, now: int): ResetTokens {
    map id | id in rows && !(rows[id].expiresAt < now || rows[id].used) :: rows[id]
  }
}
