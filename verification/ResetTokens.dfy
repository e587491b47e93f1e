/** Password reset tokens over whole runs. */
module ResetTokens {
  import opened Types
  import opened Tables
  import opened Accounts
  import opened Machine
  import opened Invariants

  /** `raw` was handed out, and opens nothing. */
  predicate Dead(s: State, raw: Uuid) {
    raw < s.uuids && forall id | id in s.resetTokens :: s.resetTokens[id].tokenHash != HashOf(raw)
  }

  /** A step keeps, drops or adds reset tokens; what it adds carries a secret not seen before. */
  predicate ResetsEvolve(s: State, s': State) {
    && s.uuids <= s'.uuids
    && forall id | id in s'.resetTokens ::
         || (id in s.resetTokens && s'.resetTokens[id] == s.resetTokens[id])
         || s'.resetTokens[id].tokenHash.raw >= s.uuids
  }

  /** The operations that leave the reset tokens alone. */
  predicate KeepsResets(op: Op) {
    !op.ForgotPassword? && !op.ResetPassword? && !op.DeleteCredentials? && !op.ResetCleanupJob?
  }

  lemma ResetsUntouched(cfg: Config, s: State, now: int, op: Op)
    requires KeepsResets(op)
    ensures Apply(cfg, s, now, op).state.resetTokens == s.resetTokens && s.uuids <= Apply(cfg, s, now, op).state.uuids
  {
  }

  lemma StepResets(cfg: Config, s: State, now: int, op: Op)
    ensures ResetsEvolve(s, Apply(cfg, s, now, op).state)
  {
    if KeepsResets(op) {
      hide Apply;
      ResetsUntouched(cfg, s, now, op);
    } else {
      hide RevokeAllOf, WithoutUser, FindByEmail, FindReset;
    }
  }

  lemma {:induction false} DeadForever(cfg: Config, run: seq<Entry>, i: nat, j: nat, raw: Uuid)
    requires IsRun(cfg, run) && i <= j <= |run| && Dead(StateAt(cfg, run, i), raw)
    ensures Dead(StateAt(cfg, run, j), raw)
  {
    hide IsRun, Inv, Allowed, Apply;
    if i < j {
      DeadForever(cfg, run, i, j - 1, raw);
      RunStep(cfg, run, j - 1);
      StepResets(cfg, StateAt(cfg, run, j - 1), run[j - 1].now, run[j - 1].op);
    }
  }

  lemma DeadFails(s: State, now: int, raw: Uuid, newHash: string)
    requires Dead(s, raw)
    ensures DoResetPassword(s, now, raw, newHash) == Outcome(s, Failed(PasswordResetInvalid))
  {
    assert forall id | id in s.resetTokens :: ResetHashes(s.resetTokens)[id] == s.resetTokens[id].tokenHash;
  }

  /** Dropping all of a user's tokens kills each of them: a secret opens one row only. */
  lemma DropKills(cfg: Config, s: State, now: int, raw: Uuid, userId: Uuid)
    requires Inv(cfg, s, now) && FindReset(s, raw).Some? && s.resetTokens[FindReset(s, raw).value].userId == userId
    ensures raw < s.uuids
    ensures forall id | id in WithoutUserResets(s.resetTokens, userId) :: s.resetTokens[id].tokenHash != HashOf(raw)
  {
    var p := FindReset(s, raw).value;
    forall id | id in WithoutUserResets(s.resetTokens, userId)
      ensures s.resetTokens[id].tokenHash != HashOf(raw)
    {
      assert ResetHashes(s.resetTokens)[id] == ResetHashes(s.resetTokens)[p] ==> id == p;
    }
  }

  lemma ResetKills(cfg: Config, s: State, now: int, raw: Uuid, newHash: string)
    requires Inv(cfg, s, now) && DoResetPassword(s, now, raw, newHash).reply == Done
    ensures Dead(DoResetPassword(s, now, raw, newHash).state, raw)
  {
    var p := FindReset(s, raw).value;
    DropKills(cfg, s, now, raw, s.resetTokens[p].userId);
    hide Inv, RevokeAllOf;
  }

  /** In every reachable state a user has at most one reset token, and none is marked used. */
  lemma {:induction false} OneUnusedResetPerUser(cfg: Config, run: seq<Entry>, i: nat, a: Uuid, b: Uuid)
    requires IsRun(cfg, run) && i <= |run|
    requires var rows := StateAt(cfg, run, i).resetTokens; a in rows && b in rows && rows[a].userId == rows[b].userId
    ensures a == b && !StateAt(cfg, run, i).resetTokens[a].used
  {
    Reachable(cfg, run, i, if i == 0 then 0 else run[i - 1].now);
  }

  /** A reset token that worked never works again. */
  lemma ResetOnce(cfg: Config, run: seq<Entry>, i: nat, j: nat, raw: Uuid, h: string, h': string)
    requires IsRun(cfg, run) && i < j < |run|
    requires run[i].op == ResetPassword(raw, h) && ReplyAt(cfg, run, i) == Done
    requires run[j].op == ResetPassword(raw, h')
    ensures ReplyAt(cfg, run, j) == Failed(PasswordResetInvalid)
  {
    hide IsRun, Inv, Allowed, StateAt;
    RunStep(cfg, run, i);
    ResetKills(cfg, StateAt(cfg, run, i), run[i].now, raw, h);
    DeadForever(cfg, run, i + 1, j, raw);
    DeadFails(StateAt(cfg, run, j), run[j].now, raw, h');
  }

  /** `raw` was handed out, and any row it opens belongs to `userId`. */
  predicate BelongsTo(s: State, raw: Uuid, userId: Uuid) {
    && raw < s.uuids
    && forall id | id in s.resetTokens && s.resetTokens[id].tokenHash == HashOf(raw) ::
         s.resetTokens[id].userId == userId
  }

  lemma {:induction false} BelongsForever(cfg: Config, run: seq<Entry>, i: nat, j: nat, raw: Uuid, userId: Uuid)
    requires IsRun(cfg, run) && i <= j <= |run| && BelongsTo(StateAt(cfg, run, i), raw, userId)
    ensures BelongsTo(StateAt(cfg, run, j), raw, userId)
  {
    hide IsRun, Inv, Allowed, Apply;
    if i < j {
      BelongsForever(cfg, run, i, j - 1, raw, userId);
      RunStep(cfg, run, j - 1);
      StepResets(cfg, StateAt(cfg, run, j - 1), run[j - 1].now, run[j - 1].op);
    }
  }

  /** The secret a request hands out belongs to the user it was made for. */
  lemma RequestHandsOut(cfg: Config, s: State, now: int, email: string)
    requires Inv(cfg, s, now) && FindByEmail(s, email).Some?
    ensures BelongsTo(DoForgotPassword(cfg, s, now, email).state, s.uuids, FindByEmail(s, email).value)
  {
  }

  /** After a request no secret that belongs to its user, other than the new one, opens anything. */
  lemma RequestKillsAll(cfg: Config, s: State, now: int, email: string, raw: Uuid)
    requires Inv(cfg, s, now) && FindByEmail(s, email).Some? && BelongsTo(s, raw, FindByEmail(s, email).value)
    ensures Dead(DoForgotPassword(cfg, s, now, email).state, raw)
  {
    hide Inv;
  }

  /** A newer request makes every secret handed out to the same user before it fail for ever,
      whatever has become of its row in the meantime. */
  lemma {:induction false} NewerRequestWins(cfg: Config, run: seq<Entry>, i: nat, j: nat, k: nat,
                                            email: string, email': string, h: string)
    requires IsRun(cfg, run) && i < j < k < |run|
    requires run[i].op == ForgotPassword(email) && run[j].op == ForgotPassword(email')
    requires FindByEmail(StateAt(cfg, run, i), email).Some?
    requires FindByEmail(StateAt(cfg, run, j), email') == FindByEmail(StateAt(cfg, run, i), email)
    requires run[k].op == ResetPassword(StateAt(cfg, run, i).uuids, h)
    ensures ReplyAt(cfg, run, k) == Failed(PasswordResetInvalid)
  {
    hide IsRun, Inv, Allowed, StateAt, FindReset, FindByEmail, DoForgotPassword, BelongsTo, Dead;
    var raw, userId := StateAt(cfg, run, i).uuids, FindByEmail(StateAt(cfg, run, i), email).value;
    RunStep(cfg, run, i);
    RequestHandsOut(cfg, StateAt(cfg, run, i), run[i].now, email);
    BelongsForever(cfg, run, i + 1, j, raw, userId);
    RunStep(cfg, run, j);
    RequestKillsAll(cfg, StateAt(cfg, run, j), run[j].now, email', raw);
    DeadForever(cfg, run, j + 1, k, raw);
    DeadFails(StateAt(cfg, run, k), run[k].now, raw, h);
  }

  // ---------- What a reset does ----------

  /** The row that `raw` opens, unused and not past its expiry. */
  predicate Redeems(s: State, now: int, raw: Uuid, p: Uuid) {
    && p in s.resetTokens && s.resetTokens[p].tokenHash == HashOf(raw)
    && !s.resetTokens[p].used && now <= s.resetTokens[p].expiresAt
  }

  lemma FoundResetIs(cfg: Config, s: State, now: int, raw: Uuid, p: Uuid)
    requires Inv(cfg, s, now) && p in s.resetTokens && s.resetTokens[p].tokenHash == HashOf(raw)
    ensures FindReset(s, raw) == Some(p) && s.resetTokens[p].userId in s.credentials && !s.resetTokens[p].used
  {
    assert ResetHashes(s.resetTokens)[p] == HashOf(raw);
    var q := FindReset(s, raw).value;
    assert ResetHashes(s.resetTokens)[q] == HashOf(raw);
  }

  /** A reset works exactly with the secret of a stored, unused row not past its expiry; otherwise it
      changes nothing. */
  lemma ResetWorksIff(cfg: Config, s: State, now: int, raw: Uuid, newHash: string)
    requires Inv(cfg, s, now)
    ensures var o := DoResetPassword(s, now, raw, newHash);
            && (o.reply == Done <==> exists p: Uuid :: Redeems(s, now, raw, p))
            && (o.reply != Done ==> o == Outcome(s, Failed(PasswordResetInvalid)))
  {
    var found := FindReset(s, raw);
    if found.Some? {
      assert ResetHashes(s.resetTokens)[found.value] == HashOf(raw);
      FoundResetIs(cfg, s, now, raw, found.value);
      assert now <= s.resetTokens[found.value].expiresAt ==> Redeems(s, now, raw, found.value);
    }
    forall p: Uuid | Redeems(s, now, raw, p)
      ensures found == Some(p)
    {
      FoundResetIs(cfg, s, now, raw, p);
    }
    hide Inv, FindReset, RevokeAllOf;
  }

  /** One that works changes the owner's password and nothing else of any account, leaves the owner
      no reset token and no live session, and leaves the tokens of everyone else. */
  lemma ResetDoes(cfg: Config, s: State, now: int, raw: Uuid, newHash: string, p: Uuid)
    requires Inv(cfg, s, now) && Redeems(s, now, raw, p)
    ensures var o, u := DoResetPassword(s, now, raw, newHash), s.resetTokens[p].userId;
            && o.reply == Done && u in s.credentials
            && o.state.credentials == s.credentials[u := s.credentials[u].(passwordHash := newHash)]
            && o.state.resetTokens
               == (map id | id in s.resetTokens && s.resetTokens[id].userId != u :: s.resetTokens[id])
            && UnrevokedOf(o.state.refreshTokens, u) == {} && o.state.refreshTokens.Keys == s.refreshTokens.Keys
            && forall id | id in s.refreshTokens ::
                 && o.state.refreshTokens[id].userId == s.refreshTokens[id].userId
                 && (s.refreshTokens[id].userId != u ==> o.state.refreshTokens[id] == s.refreshTokens[id])
  {
    FoundResetIs(cfg, s, now, raw, p);
    RevokeAllLeavesNone(s.refreshTokens, s.resetTokens[p].userId, now);
    hide Inv, FindReset;
  }

  /** A request for a known address leaves its user exactly one reset row, new, unused, for the secret
      handed out and for one lifetime; for an unknown one it changes nothing. It answers alike. */
  lemma RequestDoes(cfg: Config, s: State, now: int, email: string)
    requires Inv(cfg, s, now)
    ensures var found, o := FindByEmail(s, email), DoForgotPassword(cfg, s, now, email);
            && o.reply == Done && o.state.credentials == s.credentials && o.state.refreshTokens == s.refreshTokens
            && (found.None? ==> o.state == s)
            && (found.Some? ==>
                  exists q :: q !in s.resetTokens
                    && q in o.state.resetTokens
                    && o.state.resetTokens[q]
                       == ResetToken(found.value, HashOf(s.uuids), now + cfg.resetLifetime, false)
                    && forall id | id in o.state.resetTokens && id != q ::
                         id in s.resetTokens && o.state.resetTokens[id] == s.resetTokens[id]
                         && s.resetTokens[id].userId != found.value)
  {
    assert s.uuids + 1 !in s.resetTokens;
    hide Inv, FindByEmail;
    var o := DoForgotPassword(cfg, s, now, email);
    assert FindByEmail(s, email).Some? ==> s.uuids + 1 in o.state.resetTokens;
  }

  /** The requests that take a user's pending secret away. */
  ghost predicate Supersedes(s: State, op: Op, userId: Uuid) {
    || (op.ForgotPassword? && FindByEmail(s, op.email) == Some(userId))
    || (op.ResetPassword? && FindReset(s, op.raw).Some? && s.resetTokens[FindReset(s, op.raw).value].userId == userId)
    || (op.DeleteCredentials? && op.userId == userId)
  }

  ghost predicate SupersedesAt(cfg: Config, run: seq<Entry>, k: nat, userId: Uuid)
    requires k < |run|
  {
    Supersedes(StateAt(cfg, run, k), run[k].op, userId)
  }

  /** A row not past its expiry is kept by everything else, cleanup included. */
  lemma RowKept(cfg: Config, s: State, now: int, op: Op, id: Uuid)
    requires id in s.resetTokens && id < s.uuids && !s.resetTokens[id].used && now <= s.resetTokens[id].expiresAt
    requires !Supersedes(s, op, s.resetTokens[id].userId)
    ensures var s' := Apply(cfg, s, now, op).state; id in s'.resetTokens && s'.resetTokens[id] == s.resetTokens[id]
  {
    if KeepsResets(op) {
      hide Apply;
      ResetsUntouched(cfg, s, now, op);
    } else {
      hide RevokeAllOf, WithoutUser, FindByEmail, FindReset;
    }
  }

  lemma {:induction false} PendingKept(cfg: Config, run: seq<Entry>, i: nat, j: nat, id: Uuid)
    requires IsRun(cfg, run) && i <= j <= |run| && id in StateAt(cfg, run, i).resetTokens
    requires forall k | i <= k < j :: !SupersedesAt(cfg, run, k, StateAt(cfg, run, i).resetTokens[id].userId)
    requires forall k | i <= k < j :: run[k].now <= StateAt(cfg, run, i).resetTokens[id].expiresAt
    ensures id in StateAt(cfg, run, j).resetTokens
    ensures StateAt(cfg, run, j).resetTokens[id] == StateAt(cfg, run, i).resetTokens[id]
  {
    hide IsRun, StateAt, Inv, Apply, Allowed, Supersedes;
    if i < j {
      PendingKept(cfg, run, i, j - 1, id);
      RunStep(cfg, run, j - 1);
      StoredIsUnused(cfg, StateAt(cfg, run, j - 1), run[j - 1].now, id);
      assert !SupersedesAt(cfg, run, j - 1, StateAt(cfg, run, i).resetTokens[id].userId);
      RowKept(cfg, StateAt(cfg, run, j - 1), run[j - 1].now, run[j - 1].op, id);
    }
  }

  lemma StoredIsUnused(cfg: Config, s: State, now: int, id: Uuid)
    requires Inv(cfg, s, now) && id in s.resetTokens
    ensures id < s.uuids && !s.resetTokens[id].used
  {
  }

  /** The secret a request hands out works until its lifetime is over, if no later request, reset or
      deletion of the same user comes first. */
  lemma SecretWorksInTime(cfg: Config, run: seq<Entry>, i: nat, j: nat, email: string, h: string)
    requires IsRun(cfg, run) && i < j < |run|
    requires run[i].op == ForgotPassword(email) && FindByEmail(StateAt(cfg, run, i), email).Some?
    requires run[j].op == ResetPassword(StateAt(cfg, run, i).uuids, h)
    requires run[j].now <= run[i].now + cfg.resetLifetime
    requires forall k | i < k < j :: !SupersedesAt(cfg, run, k, FindByEmail(StateAt(cfg, run, i), email).value)
    ensures ReplyAt(cfg, run, j) == Done
  {
    hide IsRun, StateAt, Inv, Allowed, FindByEmail, DoResetPassword, DoForgotPassword, SupersedesAt;
    var s, raw := StateAt(cfg, run, i), StateAt(cfg, run, i).uuids;
    RunStep(cfg, run, i);
    RequestDoes(cfg, s, run[i].now, email);
    var o := DoForgotPassword(cfg, s, run[i].now, email);
    var q :| q in o.state.resetTokens
             && o.state.resetTokens[q]
                == ResetToken(FindByEmail(s, email).value, HashOf(raw), run[i].now + cfg.resetLifetime, false);
    RunStep(cfg, run, j);
    InOrderOfTime(cfg, run, j);
    PendingKept(cfg, run, i + 1, j, q);
    assert Redeems(StateAt(cfg, run, j), run[j].now, raw, q);
    ResetWorksIff(cfg, StateAt(cfg, run, j), run[j].now, raw, h);
  }

  lemma InOrderOfTime(cfg: Config, run: seq<Entry>, j: nat)
    requires IsRun(cfg, run) && j < |run|
    ensures forall k | 0 <= k <= j :: run[k].now <= run[j].now
  {
  }
}
