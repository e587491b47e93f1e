/** The nightly cleanup of refresh tokens: what it removes, and what nobody can notice. */
module Cleanup {
  import opened Types
  import opened Tables
  import opened Machine
  import opened Invariants
  import opened Rotation

  /** With tokens that live no longer than the retention period, the rule for revoked rows
      removes nothing that the rule for expired rows does not. */
  lemma RetentionRuleIsIdle(rows: RefreshTokens, uuids: nat, lifetime: int, now: int)
    requires RefreshOk(rows, uuids, lifetime, now) && lifetime <= RETENTION
    ensures Purge(rows, now) == map id | id in rows && rows[id].expiresAt >= now :: rows[id]
  {
    forall id | id in rows
      ensures Purgeable(rows[id], now) <==> rows[id].expiresAt < now
    {
      assert RowOk(rows[id], id, uuids, lifetime, now);
    }
  }

  // ---------- What nobody can notice ----------

  /** Cleanup ends no session, now or later, whatever is in the table. */
  lemma CleanupKeepsSessions(rows: RefreshTokens, now: int, later: int, userId: Uuid)
    requires now <= later
    ensures ActiveSet(Purge(rows, now), userId, later) == ActiveSet(rows, userId, later)
  {
  }

  /** Cleanup changes the answer to a later refresh exactly for a revoked token it removed: reuse
      is then reported as an unknown token. */
  lemma CleanupAndRefresh(cfg: Config, s: State, now: int, later: int, raw: Uuid)
    requires Inv(cfg, s, now) && now <= later
    ensures var p := FindToken(s, raw);
            DoRefresh(cfg, s.(refreshTokens := Purge(s.refreshTokens, now)), later, raw).reply
            == DoRefresh(cfg, s, later, raw).reply
            <==> !(p.Some? && s.refreshTokens[p.value].revoked && Purgeable(s.refreshTokens[p.value], now))
  {
    var s' := s.(refreshTokens := Purge(s.refreshTokens, now));
    var p, p' := FindToken(s, raw), FindToken(s', raw);
    assert p.Some? && p.value in s'.refreshTokens ==> RefreshHashes(s'.refreshTokens)[p.value] == HashOf(raw);
    if p'.Some? {
      assert RefreshHashes(s.refreshTokens)[p'.value] == HashOf(raw);
      assert p == p';
    }
    if p.Some? {
      assert RowOk(s.refreshTokens[p.value], p.value, s.uuids, cfg.refreshLifetime, now);
    }
  }

  /** In particular nothing changes for a token presented at or before its expiry. */
  lemma CleanupUnseenBeforeExpiry(cfg: Config, s: State, now: int, later: int, raw: Uuid)
    requires Inv(cfg, s, now) && cfg.refreshLifetime <= RETENTION && now <= later
    requires var p := FindToken(s, raw); p.Some? ==> later <= s.refreshTokens[p.value].expiresAt
    ensures DoRefresh(cfg, s.(refreshTokens := Purge(s.refreshTokens, now)), later, raw).reply
         == DoRefresh(cfg, s, later, raw).reply
  {
    CleanupAndRefresh(cfg, s, now, later, raw);
    var p := FindToken(s, raw);
    if p.Some? {
      assert RowOk(s.refreshTokens[p.value], p.value, s.uuids, cfg.refreshLifetime, now);
    }
  }

  // ---------- Chains keep their ends ----------

  /** Every recorded successor is still in the table. */
  ghost predicate Closed(rows: RefreshTokens) {
    forall p | p in rows && rows[p].replacedBy.Some? :: rows[p].replacedBy.value in rows
  }

  lemma PurgeKeepsClosed(cfg: Config, s: State, now: int)
    requires Inv(cfg, s, now) && cfg.refreshLifetime <= RETENTION && Closed(s.refreshTokens)
    ensures Closed(Purge(s.refreshTokens, now))
  {
    var rows := s.refreshTokens;
    RetentionRuleIsIdle(rows, s.uuids, cfg.refreshLifetime, now);
    forall p | p in Purge(rows, now) && rows[p].replacedBy.Some?
      ensures rows[p].replacedBy.value in Purge(rows, now)
    {
      var q := rows[p].replacedBy.value;
      assert Replaces(rows, q, p);
      assert RowOk(rows[p], p, s.uuids, cfg.refreshLifetime, now);
      assert RowOk(rows[q], q, s.uuids, cfg.refreshLifetime, now);
    }
  }

  lemma DeleteKeepsClosed(cfg: Config, s: State, now: int, userId: Uuid)
    requires Inv(cfg, s, now) && Closed(s.refreshTokens)
    ensures Closed(WithoutUser(s.refreshTokens, userId))
  {
    var rows := s.refreshTokens;
    forall p | p in WithoutUser(rows, userId) && rows[p].replacedBy.Some?
      ensures rows[p].replacedBy.value in WithoutUser(rows, userId)
    {
      assert Replaces(rows, rows[p].replacedBy.value, p);
    }
  }

  /** A step that removes no row, and links none, keeps the chains closed. */
  predicate OnlyAdds(rows: RefreshTokens, rows': RefreshTokens) {
    && rows.Keys <= rows'.Keys
    && forall p | p in rows' ::
         if p in rows then rows'[p].replacedBy == rows[p].replacedBy else rows'[p].replacedBy.None?
  }

  lemma AddingKeepsClosed(rows: RefreshTokens, rows': RefreshTokens)
    requires Closed(rows) && OnlyAdds(rows, rows')
    ensures Closed(rows')
  {
  }

  lemma EntryOnlyAdds(cfg: Config, s: State, now: int, op: Op)
    requires (op.Register? || op.Login?) && s.uuids + 1 !in s.refreshTokens && s.uuids + 2 !in s.refreshTokens
    ensures OnlyAdds(s.refreshTokens, Apply(cfg, s, now, op).state.refreshTokens)
  {
  }

  lemma OtherOnlyAdds(cfg: Config, s: State, now: int, op: Op)
    requires !op.Register? && !op.Login? && !op.DeleteCredentials? && !op.RefreshCleanupJob?
    requires op.Refresh? ==> !DoRefresh(cfg, s, now, op.raw).reply.Session?
    ensures OnlyAdds(s.refreshTokens, Apply(cfg, s, now, op).state.refreshTokens)
  {
  }

  lemma RotateKeepsClosed(cfg: Config, s: State, now: int, tokenId: Uuid)
    requires Closed(s.refreshTokens) && tokenId in s.refreshTokens && tokenId < s.uuids
    ensures Closed(Rotate(cfg, s, now, tokenId).state.refreshTokens)
  {
    RotatedRows(cfg, s, now, tokenId);
    hide Rotate;
  }

  lemma StepKeepsClosed(cfg: Config, s: State, now: int, op: Op)
    requires Inv(cfg, s, now) && cfg.refreshLifetime <= RETENTION && Closed(s.refreshTokens)
    ensures Closed(Apply(cfg, s, now, op).state.refreshTokens)
  {
    if op.RefreshCleanupJob? {
      PurgeKeepsClosed(cfg, s, now);
    } else if op.DeleteCredentials? {
      DeleteKeepsClosed(cfg, s, now, op.userId);
    } else if op.Refresh? && DoRefresh(cfg, s, now, op.raw).reply.Session? {
      var p := FindToken(s, op.raw).value;
      assert RowOk(s.refreshTokens[p], p, s.uuids, cfg.refreshLifetime, now);
      RotateKeepsClosed(cfg, s, now, p);
    } else if op.Register? || op.Login? {
      assert forall id | id in s.refreshTokens :: RowOk(s.refreshTokens[id], id, s.uuids, cfg.refreshLifetime, now);
      hide Inv, Closed, Apply;
      EntryOnlyAdds(cfg, s, now, op);
      AddingKeepsClosed(s.refreshTokens, Apply(cfg, s, now, op).state.refreshTokens);
    } else {
      hide Inv, Closed, Apply;
      OtherOnlyAdds(cfg, s, now, op);
      AddingKeepsClosed(s.refreshTokens, Apply(cfg, s, now, op).state.refreshTokens);
    }
  }

  lemma {:induction false} ChainsStayClosed(cfg: Config, run: seq<Entry>, i: nat)
    requires IsRun(cfg, run) && i <= |run| && cfg.refreshLifetime <= RETENTION
    ensures Closed(StateAt(cfg, run, i).refreshTokens)
  {
    hide Inv, Apply, IsRun, Evolves;
    if i > 0 {
      ChainsStayClosed(cfg, run, i - 1);
      EvolvesAt(cfg, run, i - 1);
      StepKeepsClosed(cfg, StateAt(cfg, run, i - 1), run[i - 1].now, run[i - 1].op);
    }
  }
}
