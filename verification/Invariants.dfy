/** What the tables keep between operations, whatever the run. */
module Invariants {
  import opened Types
  import opened Tables
  import opened Accounts
  import opened Machine

  // ---------- The refresh-token table ----------

  predicate RowOk(row: RefreshToken, id: Uuid, uuids: nat, lifetime: int, now: int) {
    && id < uuids
    && row.tokenHash.raw < uuids
    && row.issuedAt <= now
    && row.expiresAt == row.issuedAt + lifetime
    && (row.revoked <==> row.revokedAt.Some?)
    && (row.revoked ==> row.issuedAt <= row.revokedAt.value <= now)
    && (row.replacedBy.Some? ==> row.revoked && id < row.replacedBy.value < uuids)
  }

  ghost predicate RowsOk(rows: RefreshTokens, uuids: nat, lifetime: int, now: int) {
    forall id | id in rows :: RowOk(rows[id], id, uuids, lifetime, now)
  }

  predicate Replaces(rows: RefreshTokens, q: Uuid, p: Uuid) {
    p in rows && rows[p].replacedBy == Some(q)
  }

  ghost predicate NoPredecessor(rows: RefreshTokens, q: Uuid) {
    forall p | p in rows :: rows[p].replacedBy != Some(q)
  }

  /** A successor belongs to the same user, and was issued no earlier. */
  ghost predicate LinksOk(rows: RefreshTokens) {
    && (forall p, q | Replaces(rows, q, p) && q in rows ::
          rows[q].userId == rows[p].userId && rows[p].issuedAt <= rows[q].issuedAt)
    && (forall p, p', q | Replaces(rows, q, p) && Replaces(rows, q, p') :: p == p')
  }

  ghost predicate RefreshOk(rows: RefreshTokens, uuids: nat, lifetime: int, now: int) {
    RowsOk(rows, uuids, lifetime, now) && Unique(RefreshHashes(rows)) && LinksOk(rows)
  }

  lemma RefreshOkLater(rows: RefreshTokens, uuids: nat, uuids': nat, lifetime: int, now: int, later: int)
    requires RefreshOk(rows, uuids, lifetime, now) && uuids <= uuids' && now <= later
    ensures RefreshOk(rows, uuids', lifetime, later)
  {
    forall id | id in rows
      ensures RowOk(rows[id], id, uuids', lifetime, later)
    {
      assert RowOk(rows[id], id, uuids, lifetime, now);
    }
  }

  lemma RefreshOkRevoke(rows: RefreshTokens, ids: set<Uuid>, uuids: nat, lifetime: int, now: int)
    requires RefreshOk(rows, uuids, lifetime, now)
    ensures RefreshOk(RevokeAt(rows, ids, now), uuids, lifetime, now)
  {
    var rows' := RevokeAt(rows, ids, now);
    forall id | id in rows'
      ensures RowOk(rows'[id], id, uuids, lifetime, now)
    {
      assert RowOk(rows[id], id, uuids, lifetime, now);
    }
    assert RefreshHashes(rows') == RefreshHashes(rows);
    forall p, q
      ensures Replaces(rows', q, p) <==> Replaces(rows, q, p)
    {
    }
  }

  lemma RefreshOkIssue(cfg: Config, s: State, userId: Uuid, now: int)
    requires RefreshOk(s.refreshTokens, s.uuids, cfg.refreshLifetime, now)
    ensures var issued := Issue(cfg, s, userId, now);
            && RefreshOk(issued.refreshTokens, issued.uuids, cfg.refreshLifetime, now)
            && NoPredecessor(issued.refreshTokens, s.uuids + 1)
  {
    var issued := Issue(cfg, s, userId, now);
    var rows, rows' := s.refreshTokens, issued.refreshTokens;
    assert forall id | id in rows :: RowOk(rows[id], id, s.uuids, cfg.refreshLifetime, now);
    assert s.uuids + 1 !in rows;
    forall a, b | a in rows' && b in rows' && rows'[a].tokenHash == rows'[b].tokenHash
      ensures a == b
    {
      if a in rows && b in rows {
        assert RefreshHashes(rows)[a] == RefreshHashes(rows)[b];
      }
    }
    forall p: Uuid, q: Uuid | Replaces(rows', q, p)
      ensures Replaces(rows, q, p) && q < s.uuids
    {
    }
  }

  lemma RefreshOkSubset(rows: RefreshTokens, rows': RefreshTokens, uuids: nat, lifetime: int, now: int)
    requires RefreshOk(rows, uuids, lifetime, now)
    requires forall id | id in rows' :: id in rows && rows'[id] == rows[id]
    ensures RefreshOk(rows', uuids, lifetime, now)
  {
    forall a, b | a in rows' && b in rows' && rows'[a].tokenHash == rows'[b].tokenHash
      ensures a == b
    {
      assert RefreshHashes(rows)[a] == RefreshHashes(rows)[b];
    }
    forall p: Uuid, q: Uuid | Replaces(rows', q, p)
      ensures Replaces(rows, q, p)
    {
    }
  }

  lemma RefreshOkLink(rows: RefreshTokens, p: Uuid, q: Uuid, uuids: nat, lifetime: int, now: int)
    requires RefreshOk(rows, uuids, lifetime, now)
    requires p in rows && q in rows && p < q && rows[p].revoked && rows[p].replacedBy.None?
    requires rows[q].userId == rows[p].userId && rows[p].issuedAt <= rows[q].issuedAt
    requires NoPredecessor(rows, q)
    ensures RefreshOk(rows[p := rows[p].(replacedBy := Some(q))], uuids, lifetime, now)
  {
    var rows' := rows[p := rows[p].(replacedBy := Some(q))];
    assert RowOk(rows[p], p, uuids, lifetime, now) && RowOk(rows[q], q, uuids, lifetime, now);
    assert RefreshHashes(rows') == RefreshHashes(rows);
    forall p': Uuid, q': Uuid | Replaces(rows', q', p')
      ensures if p' == p then q' == q else Replaces(rows, q', p') && q' != q
    {
    }
  }

  lemma RevokeOneIsUpdate(rows: RefreshTokens, id: Uuid, now: int)
    requires id in rows
    ensures RevokeOne(rows, id, now) == RevokeAt(rows, {id}, now)
  {
  }

  /** Rotation, spelled out: the old row revoked and linked, the new row beside it. */
  lemma RotatedRows(cfg: Config, s: State, now: int, tokenId: Uuid)
    requires tokenId in s.refreshTokens && tokenId < s.uuids
    ensures var row, rows := s.refreshTokens[tokenId], Rotate(cfg, s, now, tokenId).state.refreshTokens;
            rows == s.refreshTokens
                      [s.uuids + 1 := NewRefreshToken(row.userId, s.uuids, now, cfg.refreshLifetime)]
                      [tokenId := Revoke(row, now).(replacedBy := Some(s.uuids + 1))]
  {
  }

  /** The first two writes of a rotation: the old row revoked, the new one added. */
  function Reissued(cfg: Config, s: State, now: int, tokenId: Uuid): RefreshTokens
    requires tokenId in s.refreshTokens
  {
    var row := s.refreshTokens[tokenId];
    Issue(cfg, s.(refreshTokens := s.refreshTokens[tokenId := Revoke(row, now)]), row.userId, now).refreshTokens
  }

  lemma RefreshOkReissue(cfg: Config, s: State, now: int, tokenId: Uuid)
    requires RefreshOk(s.refreshTokens, s.uuids, cfg.refreshLifetime, now)
    requires tokenId in s.refreshTokens
    ensures RefreshOk(Reissued(cfg, s, now, tokenId), s.uuids + 2, cfg.refreshLifetime, now)
    ensures NoPredecessor(Reissued(cfg, s, now, tokenId), s.uuids + 1)
  {
    hide RefreshOk, RevokeAt, NoPredecessor;
    RefreshOkRevoke(s.refreshTokens, {tokenId}, s.uuids, cfg.refreshLifetime, now);
    RevokeOneIsUpdate(s.refreshTokens, tokenId, now);
    var row := s.refreshTokens[tokenId];
    var revoked := s.(refreshTokens := s.refreshTokens[tokenId := Revoke(row, now)]);
    RefreshOkIssue(cfg, revoked, row.userId, now);
  }

  lemma RotateLinks(cfg: Config, s: State, now: int, tokenId: Uuid)
    requires tokenId in s.refreshTokens && tokenId < s.uuids
    ensures var row, rows := s.refreshTokens[tokenId], Reissued(cfg, s, now, tokenId);
            && tokenId in rows && rows[tokenId] == Revoke(row, now)
            && s.uuids + 1 in rows
            && rows[s.uuids + 1] == NewRefreshToken(row.userId, s.uuids, now, cfg.refreshLifetime)
            && Rotate(cfg, s, now, tokenId).state
               == s.(refreshTokens := rows[tokenId := rows[tokenId].(replacedBy := Some(s.uuids + 1))],
                 uuids := s.uuids + 2)
  {
    RevokeOneIsUpdate(s.refreshTokens, tokenId, now);
  }

  lemma RefreshOkRotate(cfg: Config, s: State, now: int, tokenId: Uuid)
    requires RefreshOk(s.refreshTokens, s.uuids, cfg.refreshLifetime, now)
    requires tokenId in s.refreshTokens && !s.refreshTokens[tokenId].revoked
    ensures var after := Rotate(cfg, s, now, tokenId).state;
            RefreshOk(after.refreshTokens, after.uuids, cfg.refreshLifetime, now)
  {
    assert RowOk(s.refreshTokens[tokenId], tokenId, s.uuids, cfg.refreshLifetime, now);
    hide RefreshOk, NoPredecessor, Rotate, Reissued;
    RefreshOkReissue(cfg, s, now, tokenId);
    RotateLinks(cfg, s, now, tokenId);
    RefreshOkLink(Reissued(cfg, s, now, tokenId), tokenId, s.uuids + 1, s.uuids + 2, cfg.refreshLifetime, now);
  }

  // ---------- All tables together ----------

  ghost predicate AccountsOk(cfg: Config, s: State) {
    && (forall id | id in s.credentials :: id < s.uuids && AccountOk(cfg, s.credentials[id]))
    && Unique(Emails(s.credentials))
  }

  /** Refreshing never looks at the account: it is sound because of this. */
  ghost predicate OwnersOk(s: State) {
    forall id | id in s.refreshTokens ::
      && s.refreshTokens[id].userId in s.credentials
      && (!s.refreshTokens[id].revoked ==> s.credentials[s.refreshTokens[id].userId].status == Active)
  }

  ghost predicate ResetsOk(s: State) {
    && (forall id | id in s.resetTokens ::
          && id < s.uuids
          && s.resetTokens[id].tokenHash.raw < s.uuids
          && !s.resetTokens[id].used
          && s.resetTokens[id].userId in s.credentials)
    && (forall a, b | a in s.resetTokens && b in s.resetTokens ::
          s.resetTokens[a].userId == s.resetTokens[b].userId ==> a == b)
    && Unique(ResetHashes(s.resetTokens))
  }

  ghost predicate Inv(cfg: Config, s: State, now: int) {
    && RefreshOk(s.refreshTokens, s.uuids, cfg.refreshLifetime, now)
    && AccountsOk(cfg, s)
    && OwnersOk(s)
    && ResetsOk(s)
  }

  lemma InvLater(cfg: Config, s: State, now: int, later: int)
    requires Inv(cfg, s, now) && now <= later
    ensures Inv(cfg, s, later)
  {
    RefreshOkLater(s.refreshTokens, s.uuids, s.uuids, cfg.refreshLifetime, now, later);
  }

  /** Rewriting one account record, without changing its e-mail address. */
  lemma InvPut(cfg: Config, s: State, now: int, userId: Uuid, c: Credential)
    requires Inv(cfg, s, now)
    requires userId in s.credentials && c.email == s.credentials[userId].email && AccountOk(cfg, c)
    requires c.status == Active || UnrevokedOf(s.refreshTokens, userId) == {}
    ensures Inv(cfg, Put(s, userId, c), now)
  {
    var s' := Put(s, userId, c);
    assert Emails(s'.credentials) == Emails(s.credentials);
    forall id | id in s'.refreshTokens && !s'.refreshTokens[id].revoked
      ensures s'.credentials[s'.refreshTokens[id].userId].status == Active
    {
      if s.refreshTokens[id].userId == userId {
        assert id in UnrevokedOf(s.refreshTokens, userId);
      }
    }
  }

  lemma InvRevoke(cfg: Config, s: State, now: int, ids: set<Uuid>)
    requires Inv(cfg, s, now)
    ensures Inv(cfg, s.(refreshTokens := RevokeAt(s.refreshTokens, ids, now)), now)
  {
    RefreshOkRevoke(s.refreshTokens, ids, s.uuids, cfg.refreshLifetime, now);
  }

  lemma InvRevokeOne(cfg: Config, s: State, now: int, id: Uuid)
    requires Inv(cfg, s, now)
    ensures Inv(cfg, s.(refreshTokens := RevokeOne(s.refreshTokens, id, now)), now)
  {
    hide Inv;
    if id in s.refreshTokens {
      InvRevoke(cfg, s, now, {id});
      RevokeOneIsUpdate(s.refreshTokens, id, now);
    }
  }

  lemma RevokeAllLeavesNone(rows: RefreshTokens, userId: Uuid, now: int)
    ensures UnrevokedOf(RevokeAllOf(rows, userId, now), userId) == {}
  {
  }

  /** Rewriting an account and revoking all its tokens, in either order. */
  lemma InvPutRevoke(cfg: Config, s: State, now: int, userId: Uuid, c: Credential)
    requires Inv(cfg, s, now)
    requires userId in s.credentials && c.email == s.credentials[userId].email && AccountOk(cfg, c)
    ensures Inv(cfg, RevokeTokens(Put(s, userId, c), userId, now), now)
  {
    InvRevoke(cfg, s, now, UnrevokedOf(s.refreshTokens, userId));
    RevokeAllLeavesNone(s.refreshTokens, userId, now);
    InvPut(cfg, RevokeTokens(s, userId, now), now, userId, c);
    assert Put(RevokeTokens(s, userId, now), userId, c) == RevokeTokens(Put(s, userId, c), userId, now);
  }

  lemma InvOpenSession(cfg: Config, s: State, now: int, userId: Uuid, evicted: set<Uuid>)
    requires Inv(cfg, s, now)
    requires userId in s.credentials && s.credentials[userId].status == Active
    ensures Inv(cfg, OpenSession(cfg, s, userId, now, evicted).state, now)
  {
    RefreshOkIssue(cfg, s, userId, now);
    InvRevoke(cfg, Issue(cfg, s, userId, now), now, evicted);
  }

  lemma AccountsOkEnrol(cfg: Config, s: State, email: string, passwordHash: string)
    requires cfg.Valid() && AccountsOk(cfg, s) && FindByEmail(s, email).None?
    ensures AccountsOk(cfg, Enrol(s, email, passwordHash))
  {
    var rows, rows' := Emails(s.credentials), Emails(Enrol(s, email, passwordHash).credentials);
    assert forall id | id in rows :: rows[id] == rows'[id] != email;
  }

  lemma InvEnrol(cfg: Config, s: State, now: int, email: string, passwordHash: string)
    requires cfg.Valid() && Inv(cfg, s, now) && FindByEmail(s, email).None?
    ensures Inv(cfg, Enrol(s, email, passwordHash), now)
  {
    AccountsOkEnrol(cfg, s, email, passwordHash);
    assert s.uuids !in s.credentials;
    hide AccountsOk, FindByEmail;
    RefreshOkLater(s.refreshTokens, s.uuids, s.uuids + 1, cfg.refreshLifetime, now, now);
  }

  lemma InvRegister(cfg: Config, s: State, now: int, email: string, passwordHash: string, evicted: set<Uuid>)
    requires cfg.Valid() && Inv(cfg, s, now)
    ensures Inv(cfg, DoRegister(cfg, s, now, email, passwordHash, evicted).state, now)
  {
    hide Inv;
    if FindByEmail(s, email).None? {
      InvEnrol(cfg, s, now, email, passwordHash);
      InvOpenSession(cfg, Enrol(s, email, passwordHash), now, s.uuids, evicted);
    }
  }

  lemma InvLogin(cfg: Config, s: State, now: int, email: string, passwordOk: bool, evicted: set<Uuid>)
    requires cfg.Valid() && Inv(cfg, s, now)
    ensures Inv(cfg, DoLogin(cfg, s, now, email, passwordOk, evicted).state, now)
  {
    var found := FindByEmail(s, email);
    if found.Some? {
      var userId := found.value;
      var gate := Admit(s.credentials[userId], now);
      if gate.Proceed? {
        var c := gate.account;
        if passwordOk {
          InvPut(cfg, s, now, userId, RightPassword(c));
          InvOpenSession(cfg, Put(s, userId, RightPassword(c)), now, userId, evicted);
        } else if LocksOut(cfg, c) {
          InvPutRevoke(cfg, s, now, userId, WrongPassword(cfg, c, now));
        } else {
          InvPut(cfg, s, now, userId, WrongPassword(cfg, c, now));
        }
      }
    }
  }

  lemma InvRotate(cfg: Config, s: State, now: int, tokenId: Uuid)
    requires Inv(cfg, s, now)
    requires tokenId in s.refreshTokens && !s.refreshTokens[tokenId].revoked
    ensures Inv(cfg, Rotate(cfg, s, now, tokenId).state, now)
  {
    RefreshOkRotate(cfg, s, now, tokenId);
    assert RowOk(s.refreshTokens[tokenId], tokenId, s.uuids, cfg.refreshLifetime, now);
    RotatedRows(cfg, s, now, tokenId);
  }

  lemma InvRefresh(cfg: Config, s: State, now: int, raw: Uuid)
    requires cfg.Valid() && Inv(cfg, s, now)
    ensures Inv(cfg, DoRefresh(cfg, s, now, raw).state, now)
  {
    hide Inv;
    var found := FindToken(s, raw);
    if found.Some? {
      var row := s.refreshTokens[found.value];
      if row.revoked {
        InvRevoke(cfg, s, now, UnrevokedOf(s.refreshTokens, row.userId));
      } else if now <= row.expiresAt {
        InvRotate(cfg, s, now, found.value);
      }
    }
  }

  lemma InvFewerResets(cfg: Config, s: State, now: int, rows: ResetTokens)
    requires Inv(cfg, s, now)
    requires forall id | id in rows :: id in s.resetTokens && rows[id] == s.resetTokens[id]
    ensures Inv(cfg, s.(resetTokens := rows), now)
  {
    assert forall id | id in rows :: ResetHashes(rows)[id] == ResetHashes(s.resetTokens)[id];
  }

  lemma InvFewerTokens(cfg: Config, s: State, now: int, rows: RefreshTokens)
    requires Inv(cfg, s, now)
    requires forall id | id in rows :: id in s.refreshTokens && rows[id] == s.refreshTokens[id]
    ensures Inv(cfg, s.(refreshTokens := rows), now)
  {
    RefreshOkSubset(s.refreshTokens, rows, s.uuids, cfg.refreshLifetime, now);
  }

  lemma InvDropAccount(cfg: Config, s: State, now: int, userId: Uuid)
    requires Inv(cfg, s, now)
    requires forall id | id in s.refreshTokens :: s.refreshTokens[id].userId != userId
    requires forall id | id in s.resetTokens :: s.resetTokens[id].userId != userId
    ensures Inv(cfg, s.(credentials := s.credentials - {userId}), now)
  {
    var s' := s.(credentials := s.credentials - {userId});
    assert forall id | id in s'.credentials :: Emails(s'.credentials)[id] == Emails(s.credentials)[id];
  }

  lemma InvDelete(cfg: Config, s: State, now: int, userId: Uuid)
    requires Inv(cfg, s, now)
    ensures Inv(cfg, DoDelete(s, userId).state, now)
  {
    hide Inv;
    var s1 := s.(resetTokens := WithoutUserResets(s.resetTokens, userId));
    InvFewerResets(cfg, s, now, s1.resetTokens);
    var s2 := s1.(refreshTokens := WithoutUser(s1.refreshTokens, userId));
    InvFewerTokens(cfg, s1, now, s2.refreshTokens);
    InvDropAccount(cfg, s2, now, userId);
  }

  function WithReset(cfg: Config, s: State, now: int, userId: Uuid): State {
    var row := ResetToken(userId, HashOf(s.uuids), now + cfg.resetLifetime, false);
    s.(resetTokens := s.resetTokens[s.uuids + 1 := row], uuids := s.uuids + 2)
  }

  lemma ResetsOkNew(cfg: Config, s: State, now: int, userId: Uuid)
    requires ResetsOk(s) && userId in s.credentials
    requires forall id | id in s.resetTokens :: s.resetTokens[id].userId != userId
    ensures ResetsOk(WithReset(cfg, s, now, userId))
  {
    var rows, rows' := s.resetTokens, WithReset(cfg, s, now, userId).resetTokens;
    forall a, b | a in rows' && b in rows' && rows'[a].tokenHash == rows'[b].tokenHash
      ensures a == b
    {
      if a in rows && b in rows {
        assert ResetHashes(rows)[a] == ResetHashes(rows)[b];
      }
    }
  }

  lemma InvNewReset(cfg: Config, s: State, now: int, userId: Uuid)
    requires Inv(cfg, s, now) && userId in s.credentials
    requires forall id | id in s.resetTokens :: s.resetTokens[id].userId != userId
    ensures Inv(cfg, WithReset(cfg, s, now, userId), now)
  {
    ResetsOkNew(cfg, s, now, userId);
    hide ResetsOk;
    RefreshOkLater(s.refreshTokens, s.uuids, s.uuids + 2, cfg.refreshLifetime, now, now);
  }

  lemma InvForgot(cfg: Config, s: State, now: int, email: string)
    requires Inv(cfg, s, now)
    ensures Inv(cfg, DoForgotPassword(cfg, s, now, email).state, now)
  {
    hide Inv;
    var found := FindByEmail(s, email);
    if found.Some? {
      var cleared := s.(resetTokens := WithoutUserResets(s.resetTokens, found.value));
      InvFewerResets(cfg, s, now, cleared.resetTokens);
      InvNewReset(cfg, cleared, now, found.value);
    }
  }

  lemma InvReset(cfg: Config, s: State, now: int, raw: Uuid, newHash: string)
    requires Inv(cfg, s, now)
    ensures Inv(cfg, DoResetPassword(s, now, raw, newHash).state, now)
  {
    var found := FindReset(s, raw);
    if found.Some? && !s.resetTokens[found.value].used && s.resetTokens[found.value].expiresAt >= now {
      var userId := s.resetTokens[found.value].userId;
      var c := s.credentials[userId].(passwordHash := newHash);
      hide Inv;
      InvPutRevoke(cfg, s, now, userId, c);
      var consumed := WithoutUserResets(MarkUsed(s.resetTokens, found.value), userId);
      InvFewerResets(cfg, RevokeTokens(Put(s, userId, c), userId, now), now, consumed);
    }
  }

  lemma InvUnlockJob(cfg: Config, s: State, now: int)
    requires cfg.Valid() && Inv(cfg, s, now)
    ensures Inv(cfg, s.(credentials := UnlockExpired(s.credentials, now)), now)
  {
    assert Emails(UnlockExpired(s.credentials, now)) == Emails(s.credentials);
  }

  lemma InvSetRoles(cfg: Config, s: State, now: int, userId: Uuid, roles: seq<string>)
    requires Inv(cfg, s, now) && userId in s.credentials
    ensures Inv(cfg, DoSetRoles(s, now, userId, roles).state, now)
  {
    assert AccountOk(cfg, s.credentials[userId]);
    hide Inv;
    InvPutRevoke(cfg, s, now, userId, s.credentials[userId].(roles := roles));
  }

  lemma InvAdmin(cfg: Config, s: State, now: int, op: Op)
    requires cfg.Valid() && Inv(cfg, s, now) && (op.AdminLock? || op.AdminUnlock? || op.Ban?)
    ensures Inv(cfg, Apply(cfg, s, now, op).state, now)
  {
    hide Inv;
    if op.userId in s.credentials {
      var c := s.credentials[op.userId];
      match op
      case AdminLock(userId, minutes) => InvPutRevoke(cfg, s, now, userId, Lock(c, LockEnd(minutes, now)));
      case AdminUnlock(userId) => InvPut(cfg, s, now, userId, Unlock(c));
      case Ban(userId) => InvPutRevoke(cfg, s, now, userId, c.(status := Banned));
      case _ =>
    }
  }

  /** Every operation keeps the invariant, with no condition on its arguments. */
  lemma InvStep(cfg: Config, s: State, now: int, op: Op)
    requires cfg.Valid() && Inv(cfg, s, now)
    ensures Inv(cfg, Apply(cfg, s, now, op).state, now)
  {
    hide Inv;
    match op
    case Register(email, passwordHash, evicted) => InvRegister(cfg, s, now, email, passwordHash, evicted);
    case Login(email, passwordOk, evicted) => InvLogin(cfg, s, now, email, passwordOk, evicted);
    case Refresh(raw) => InvRefresh(cfg, s, now, raw);
    case Logout(raw) =>
      if FindToken(s, raw).Some? { InvRevokeOne(cfg, s, now, FindToken(s, raw).value); }
    case RevokeSession(id) => InvRevokeOne(cfg, s, now, id);
    case RevokeAllTokens(userId) => InvRevoke(cfg, s, now, UnrevokedOf(s.refreshTokens, userId));
    case AdminLock(userId, minutes) => InvAdmin(cfg, s, now, op);
    case AdminUnlock(userId) => InvAdmin(cfg, s, now, op);
    case Ban(userId) => InvAdmin(cfg, s, now, op);
    case DeleteCredentials(userId) => InvDelete(cfg, s, now, userId);
    case ForgotPassword(email) => InvForgot(cfg, s, now, email);
    case ResetPassword(raw, newHash) => InvReset(cfg, s, now, raw, newHash);
    case AssignRole(userId, role, defined) =>
      if userId in s.credentials { InvSetRoles(cfg, s, now, userId, s.credentials[userId].roles + [role]); }
    case RevokeRole(userId, role) =>
      if userId in s.credentials { InvSetRoles(cfg, s, now, userId, WithoutRole(s.credentials[userId].roles, role)); }
    case Validate(userId) =>
    case UnlockJob => InvUnlockJob(cfg, s, now);
    case RefreshCleanupJob => InvFewerTokens(cfg, s, now, Purge(s.refreshTokens, now));
    case ResetCleanupJob => InvFewerResets(cfg, s, now, PurgeResets(s.resetTokens, now));
  }

  /** Every reachable state satisfies the invariant, at any time from its last operation on. */
  lemma {:induction false} Reachable(cfg: Config, run: seq<Entry>, i: nat, now: int)
    requires IsRun(cfg, run) && i <= |run|
    requires i > 0 ==> run[i - 1].now <= now
    ensures Inv(cfg, StateAt(cfg, run, i), now)
  {
    if i > 0 {
      Reachable(cfg, run, i - 1, run[i - 1].now);
      InvStep(cfg, StateAt(cfg, run, i - 1), run[i - 1].now, run[i - 1].op);
      InvLater(cfg, StateAt(cfg, run, i), run[i - 1].now, now);
    }
  }

  lemma RunStep(cfg: Config, run: seq<Entry>, k: nat)
    requires IsRun(cfg, run) && k < |run|
    ensures cfg.Valid() && Inv(cfg, StateAt(cfg, run, k), run[k].now)
    ensures Allowed(cfg, StateAt(cfg, run, k), run[k].now, run[k].op)
    ensures forall j | k <= j < |run| :: run[k].now <= run[j].now
    ensures StateAt(cfg, run, k + 1) == Apply(cfg, StateAt(cfg, run, k), run[k].now, run[k].op).state
  {
    hide Inv, Allowed, Apply;
    assert AllowedAt(cfg, run, k);
    Reachable(cfg, run, k, run[k].now);
  }

  // ---------- Longer runs ----------

  lemma {:induction false} PrefixState(cfg: Config, run: seq<Entry>, e: Entry, i: nat)
    requires i <= |run|
    ensures StateAt(cfg, run + [e], i) == StateAt(cfg, run, i)
  {
    hide Apply;
    if i > 0 {
      PrefixState(cfg, run, e, i - 1);
    }
  }

  /** A run goes on with any allowed step that is not back in time. */
  lemma ExtendRun(cfg: Config, run: seq<Entry>, now: int, op: Op)
    requires IsRun(cfg, run) && (run != [] ==> run[|run| - 1].now <= now)
    requires Allowed(cfg, StateAt(cfg, run, |run|), now, op)
    ensures var longer := run + [At(now, op)];
            && IsRun(cfg, longer)
            && StateAt(cfg, longer, |run| + 1) == Apply(cfg, StateAt(cfg, run, |run|), now, op).state
            && ReplyAt(cfg, longer, |run|) == Apply(cfg, StateAt(cfg, run, |run|), now, op).reply
  {
    hide Apply, Allowed, StateAt;
    var longer := run + [At(now, op)];
    forall i | 0 <= i < |longer|
      ensures AllowedAt(cfg, longer, i)
    {
      assert i < |run| ==> AllowedAt(cfg, run, i);
      PrefixState(cfg, run, At(now, op), i);
    }
    PrefixState(cfg, run, At(now, op), |run|);
    NextState(cfg, longer, |run|);
  }

  lemma NextState(cfg: Config, run: seq<Entry>, i: nat)
    requires i < |run|
    ensures StateAt(cfg, run, i + 1) == Apply(cfg, StateAt(cfg, run, i), run[i].now, run[i].op).state
  {
    hide Apply;
  }
}
