/** The database, and the repositories that read and write its tables in place. */
module Repositories {
  import opened Types
  import opened Tables
  import opened Accounts
  import opened Machine

  class Database {
    var credentials: Credentials
    var refreshTokens: RefreshTokens
    var resetTokens: ResetTokens
    var uuids: nat

    constructor ()
      ensures Rows() == EMPTY
    {
      credentials, refreshTokens, resetTokens, uuids := map[], map[], map[], 0;
    }

    function Rows(): State
      reads this
    {
      State(credentials, refreshTokens, resetTokens, uuids)
    }

    /** The unique indexes. */
    ghost predicate Indexed()
      reads this
    {
      Unique(Emails(credentials)) && Unique(RefreshHashes(refreshTokens)) && Unique(ResetHashes(resetTokens))
    }

    method DrawUuid() returns (id: Uuid)
      modifies this`uuids
      ensures id == old(uuids) && uuids == old(uuids) + 1
    {
      id := uuids;
      uuids := uuids + 1;
    }
  }

  /** The oldest session exists whenever there is one. */
  lemma {:induction false} OldestExists(rows: RefreshTokens, ids: set<Uuid>) returns (oldest: Uuid)
    requires ids != {} && ids <= rows.Keys
    ensures oldest in ids && forall k | k in ids :: rows[oldest].issuedAt <= rows[k].issuedAt
    decreases |ids|
  {
    var id :| id in ids;
    oldest := id;
    if ids != {id} {
      var other := OldestExists(rows, ids - {id});
      assert forall k | k in ids :: k == id || k in ids - {id};
      if rows[other].issuedAt < rows[id].issuedAt {
        oldest := other;
      }
    }
  }

  class RefreshTokenRepository {
    const db: Database

    constructor (db: Database)
      ensures this.db == db
    {
      this.db := db;
    }

    method Create(userId: Uuid, tokenHash: Digest, expiresAt: int, now: int) returns (id: Uuid)
      modifies db`refreshTokens, db`uuids
      ensures id == old(db.uuids) && db.uuids == id + 1
      ensures db.refreshTokens ==
              old(db.refreshTokens)[id := RefreshToken(userId, tokenHash, now, expiresAt, false, None, None)]
    {
      id := db.DrawUuid();
      db.refreshTokens := db.refreshTokens[id := RefreshToken(userId, tokenHash, now, expiresAt, false, None, None)];
    }

    method FindByTokenHash(tokenHash: Digest) returns (found: Option<Uuid>)
      requires db.Indexed()
      ensures found == FindKey(RefreshHashes(db.refreshTokens), tokenHash)
    {
      ghost var column := RefreshHashes(db.refreshTokens);
      if exists id :: id in db.refreshTokens && db.refreshTokens[id].tokenHash == tokenHash {
        var id :| id in db.refreshTokens && db.refreshTokens[id].tokenHash == tokenHash;
        assert column[id] == tokenHash;
        found := Some(id);
      } else {
        found := None;
      }
    }

    method RevokeToken(id: Uuid, now: int)
      modifies db`refreshTokens
      ensures db.refreshTokens == RevokeOne(old(db.refreshTokens), id, now)
    {
      if id in db.refreshTokens {
        db.refreshTokens := db.refreshTokens[id := db.refreshTokens[id].(revoked := true, revokedAt := Some(now))];
      }
    }

    method RevokeAllByUserId(userId: Uuid, now: int) returns (affected: nat)
      modifies db`refreshTokens
      ensures db.refreshTokens == RevokeAllOf(old(db.refreshTokens), userId, now)
      ensures affected == |UnrevokedOf(old(db.refreshTokens), userId)|
      ensures db.refreshTokens.Keys == old(db.refreshTokens).Keys
      ensures forall id | id in old(db.refreshTokens) ::
                var row := old(db.refreshTokens)[id];
                db.refreshTokens[id] ==
                if row.userId == userId && !row.revoked then row.(revoked := true, revokedAt := Some(now)) else row
    {
      var rows := db.refreshTokens;
      var hit := set id | id in rows && rows[id].userId == userId && !rows[id].revoked;
      db.refreshTokens := map id | id in rows ::
        if id in hit then rows[id].(revoked := true, revokedAt := Some(now)) else rows[id];
      affected := |hit|;
    }

    method SetReplacedBy(id: Uuid, replacedBy: Uuid)
      modifies db`refreshTokens
      ensures db.refreshTokens ==
              if id in old(db.refreshTokens)
              then old(db.refreshTokens)[id := old(db.refreshTokens)[id].(replacedBy := Some(replacedBy))]
              else old(db.refreshTokens)
    {
      if id in db.refreshTokens {
        db.refreshTokens := db.refreshTokens[id := db.refreshTokens[id].(replacedBy := Some(replacedBy))];
      }
    }

    method CountActiveByUserId(userId: Uuid, now: int) returns (count: nat)
      ensures count == |ActiveSet(db.refreshTokens, userId, now)|
    {
      var active := set id | id in db.refreshTokens && IsActive(db.refreshTokens[id], userId, now);
      assert active == ActiveSet(db.refreshTokens, userId, now);
      count := |active|;
    }

    method FindOldestActiveByUserId(userId: Uuid, now: int) returns (found: Option<Uuid>)
      ensures found.None? <==> ActiveSet(db.refreshTokens, userId, now) == {}
      ensures found.Some? ==>
                && found.value in ActiveSet(db.refreshTokens, userId, now)
                && forall k | k in ActiveSet(db.refreshTokens, userId, now) ::
                     db.refreshTokens[found.value].issuedAt <= db.refreshTokens[k].issuedAt
    {
      var rows := db.refreshTokens;
      var active := ActiveSet(rows, userId, now);
      if active == {} {
        found := None;
      } else {
        ghost var oldest := OldestExists(rows, active);
        var id :| id in active && forall k | k in active :: rows[id].issuedAt <= rows[k].issuedAt;
        found := Some(id);
      }
    }

    method DeleteExpiredAndRevoked(now: int) returns (affected: nat)
      modifies db`refreshTokens
      ensures db.refreshTokens == Purge(old(db.refreshTokens), now)
      ensures affected == |old(db.refreshTokens)| - |db.refreshTokens|
    {
      var rows := db.refreshTokens;
      var gone := set id | id in rows &&
        (rows[id].expiresAt < now
         || (rows[id].revoked && rows[id].revokedAt.Some? && rows[id].revokedAt.value < now - RETENTION));
      db.refreshTokens := rows - gone;
      affected := |gone|;
      assert rows.Keys - gone == db.refreshTokens.Keys;
    }
  }

  class UserCredentialRepository {
    const db: Database

    constructor (db: Database)
      ensures this.db == db
    {
      this.db := db;
    }

    method FindByEmail(email: string) returns (found: Option<Uuid>)
      requires db.Indexed()
      ensures found == FindKey(Emails(db.credentials), email)
    {
      ghost var column := Emails(db.credentials);
      if exists id :: id in db.credentials && db.credentials[id].email == email {
        var id :| id in db.credentials && db.credentials[id].email == email;
        assert column[id] == email;
        found := Some(id);
      } else {
        found := None;
      }
    }

    method CreateCredential(email: string, passwordHash: string) returns (id: Uuid)
      modifies db`credentials, db`uuids
      ensures id == old(db.uuids) && db.Rows() == Enrol(old(db.Rows()), email, passwordHash)
    {
      id := db.DrawUuid();
      db.credentials := db.credentials[id := Credential(email, passwordHash, Active, ["USER"], 0, None)];
    }

    method UpdateStatus(id: Uuid, status: Status)
      modifies db`credentials
      ensures db.credentials ==
              if id in old(db.credentials) then old(db.credentials)[id := old(db.credentials)[id].(status := status)]
              else old(db.credentials)
    {
      if id in db.credentials {
        db.credentials := db.credentials[id := db.credentials[id].(status := status)];
      }
    }

    /** The statement returns the new count; without a row there would be none to return. */
    method IncrementFailedAttempts(id: Uuid) returns (count: nat)
      requires id in db.credentials
      modifies db`credentials
      ensures count == old(db.credentials)[id].failedLoginAttempts + 1
      ensures db.credentials == old(db.credentials)[id := old(db.credentials)[id].(failedLoginAttempts := count)]
    {
      count := db.credentials[id].failedLoginAttempts + 1;
      db.credentials := db.credentials[id := db.credentials[id].(failedLoginAttempts := count)];
    }

    method ResetFailedAttempts(id: Uuid)
      modifies db`credentials
      ensures db.credentials ==
              if id in old(db.credentials)
              then old(db.credentials)[id := old(db.credentials)[id].(failedLoginAttempts := 0)]
              else old(db.credentials)
    {
      if id in db.credentials {
        db.credentials := db.credentials[id := db.credentials[id].(failedLoginAttempts := 0)];
      }
    }

    method LockAccount(id: Uuid, lockedUntil: Option<int>)
      modifies db`credentials
      ensures db.credentials ==
              if id in old(db.credentials) then old(db.credentials)[id := Lock(old(db.credentials)[id], lockedUntil)]
              else old(db.credentials)
    {
      if id in db.credentials {
        db.credentials := db.credentials[id := db.credentials[id].(status := Locked, lockedUntil := lockedUntil)];
      }
    }

    method UnlockAccount(id: Uuid)
      modifies db`credentials
      ensures db.credentials ==
              if id in old(db.credentials) then old(db.credentials)[id := Unlock(old(db.credentials)[id])]
              else old(db.credentials)
    {
      if id in db.credentials {
        var unlocked := db.credentials[id].(status := Active, failedLoginAttempts := 0, lockedUntil := None);
        db.credentials := db.credentials[id := unlocked];
      }
    }

    method UpdateRoles(id: Uuid, roles: seq<string>)
      modifies db`credentials
      ensures db.credentials ==
              if id in old(db.credentials) then old(db.credentials)[id := old(db.credentials)[id].(roles := roles)]
              else old(db.credentials)
    {
      if id in db.credentials {
        db.credentials := db.credentials[id := db.credentials[id].(roles := roles)];
      }
    }

    method UpdatePassword(id: Uuid, passwordHash: string)
      modifies db`credentials
      ensures db.Rows() == SetPassword(old(db.Rows()), id, passwordHash)
    {
      if id in db.credentials {
        db.credentials := db.credentials[id := db.credentials[id].(passwordHash := passwordHash)];
      }
    }

    /** The foreign keys cascade: the user's refresh and reset tokens go with the record. */
    method DeleteCredential(id: Uuid) returns (deleted: bool)
      modifies db`credentials, db`refreshTokens, db`resetTokens
      ensures deleted == (id in old(db.credentials))
      ensures db.Rows() == DoDelete(old(db.Rows()), id).state
    {
      deleted := id in db.credentials;
      db.credentials := db.credentials - {id};
      var tokens, resets := db.refreshTokens, db.resetTokens;
      db.refreshTokens := map t | t in tokens && tokens[t].userId != id :: tokens[t];
      db.resetTokens := map t | t in resets && resets[t].userId != id :: resets[t];
    }

    method FindLockedAccountsToUnlock(now: int) returns (ids: set<Uuid>)
      ensures forall id :: id in ids <==>
                && id in db.credentials
                && db.credentials[id].status == Locked
                && db.credentials[id].lockedUntil.Some?
                && db.credentials[id].lockedUntil.value < now
    {
      ids := set id | id in db.credentials
                      && db.credentials[id].status == Locked
                      && db.credentials[id].lockedUntil.Some?
                      && db.credentials[id].lockedUntil.value < now;
    }
  }

  class PasswordResetTokenRepository {
    const db: Database

    constructor (db: Database)
      ensures this.db == db
    {
      this.db := db;
    }

    method Create(userId: Uuid, tokenHash: Digest, expiresAt: int) returns (id: Uuid)
      modifies db`resetTokens, db`uuids
      ensures id == old(db.uuids) && db.uuids == id + 1
      ensures db.resetTokens == old(db.resetTokens)[id := ResetToken(userId, tokenHash, expiresAt, false)]
    {
      id := db.DrawUuid();
      db.resetTokens := db.resetTokens[id := ResetToken(userId, tokenHash, expiresAt, false)];
    }

    method FindByTokenHash(tokenHash: Digest) returns (found: Option<Uuid>)
      requires db.Indexed()
      ensures found == FindKey(ResetHashes(db.resetTokens), tokenHash)
    {
      ghost var column := ResetHashes(db.resetTokens);
      if exists id :: id in db.resetTokens && db.resetTokens[id].tokenHash == tokenHash {
        var id :| id in db.resetTokens && db.resetTokens[id].tokenHash == tokenHash;
        assert column[id] == tokenHash;
        found := Some(id);
      } else {
        found := None;
      }
    }

    method MarkAsUsed(id: Uuid)
      modifies db`resetTokens
      ensures db.resetTokens == MarkUsed(old(db.resetTokens), id)
    {
      if id in db.resetTokens {
        db.resetTokens := db.resetTokens[id := db.resetTokens[id].(used := true)];
      }
    }

    method DeleteByUserId(userId: Uuid)
      modifies db`resetTokens
      ensures db.resetTokens == WithoutUserResets(old(db.resetTokens), userId)
    {
      var rows := db.resetTokens;
      db.resetTokens := map id | id in rows && rows[id].userId != userId :: rows[id];
    }

    method DeleteExpiredOrUsed(now: int) returns (affected: nat)
      modifies db`resetTokens
      ensures db.resetTokens == PurgeResets(old(db.resetTokens), now)
      ensures affected == |old(db.resetTokens)| - |db.resetTokens|
    {
      var rows := db.resetTokens;
      var gone := set id | id in rows && (rows[id].expiresAt < now || rows[id].used);
      db.resetTokens := rows - gone;
      affected := |gone|;
      assert rows.Keys - gone == db.resetTokens.Keys;
    }
  }
}
