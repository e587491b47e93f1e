/** Rotation and revocation over whole runs: chains of refresh tokens, single use, and what
    a mass revocation cuts off. */
module Rotation {
  import opened Types
  import opened Tables
  import opened Accounts
  import opened Machine
  import opened Invariants

  // ---------- What one step can do to a token row ----------

  /** The same token, later: its identity is fixed, revocation and succession are permanent. */
  predicate Continues(row: RefreshToken, row': RefreshToken) {
    && row'.userId == row.userId
    && row'.tokenHash == row.tokenHash
    && row'.issuedAt == row.issuedAt
    && row'.expiresAt == row.expiresAt
    && (row.revoked ==> row'.revoked)
    && (row.replacedBy.Some? ==> row'.replacedBy == row.replacedBy)
  }

  predicate Created(s: State, s': State, id: Uuid) {
    id in s'.refreshTokens && id !in s.refreshTokens
  }

  /** A new row belongs to a login, a registration or the refresh of a live token, and the
      reply hands out its secret. */
  ghost predicate Accounted(s: State, op: Op, o: Outcome, id: Uuid)
    requires id in o.state.refreshTokens
  {
    var row := o.state.refreshTokens[id];
    && id >= s.uuids && row.tokenHash.raw >= s.uuids
    && o.reply == Session(row.userId, row.tokenHash.raw)
    && (op.Register? || op.Login? || (op.Refresh? && Succeeds(s, o.state, op.raw, id)))
  }

  ghost predicate Succeeds(s: State, s': State, raw: Uuid, id: Uuid)
    requires id in s'.refreshTokens
  {
    var p := FindToken(s, raw);
    && p.Some?
    && !s.refreshTokens[p.value].revoked
    && s.refreshTokens[p.value].userId == s'.refreshTokens[id].userId
    && Replaces(s'.refreshTokens, id, p.value)
  }

  ghost predicate Evolves(s: State, op: Op, o: Outcome) {
    && s.uuids <= o.state.uuids
    && forall id | id in o.state.refreshTokens ::
         if id in s.refreshTokens then Continues(s.refreshTokens[id], o.state.refreshTokens[id])
         else Accounted(s, op, o, id)
  }

  lemma RotateEvolves(cfg: Config, s: State, now: int, raw: Uuid)
    requires FindToken(s, raw).Some? && FindToken(s, raw).value < s.uuids && s.uuids + 1 !in s.refreshTokens
    requires !s.refreshTokens[FindToken(s, raw).value].revoked
             && s.refreshTokens[FindToken(s, raw).value].replacedBy.None?
    ensures Evolves(s, Refresh(raw), Rotate(cfg, s, now, FindToken(s, raw).value))
  {
    var p := FindToken(s, raw).value;
    RotatedRows(cfg, s, now, p);
    RotateLinks(cfg, s, now, p);
    hide Rotate, Reissued, FindToken;
  }

  lemma RefreshEvolves(cfg: Config, s: State, now: int, raw: Uuid)
    requires Inv(cfg, s, now)
    ensures Evolves(s, Refresh(raw), DoRefresh(cfg, s, now, raw))
  {
    var found := FindToken(s, raw);
    if found.Some? && !s.refreshTokens[found.value].revoked && s.refreshTokens[found.value].expiresAt >= now {
      assert forall id | id in s.refreshTokens :: RowOk(s.refreshTokens[id], id, s.uuids, cfg.refreshLifetime, now);
      hide Inv, Rotate, FindToken;
      RotateEvolves(cfg, s, now, raw);
    }
  }

  lemma SessionEvolves(cfg: Config, s: State, now: int, op: Op, userId: Uuid, evicted: set<Uuid>)
    requires s.uuids + 1 !in s.refreshTokens && (op.Register? || op.Login?)
    ensures Evolves(s, op, OpenSession(cfg, s, userId, now, evicted))
  {
  }

  lemma RegisterEvolves(cfg: Config, s: State, now: int, op: Op)
    requires op.Register? && s.uuids + 2 !in s.refreshTokens
    ensures Evolves(s, op, Apply(cfg, s, now, op))
  {
    SessionEvolves(cfg, Enrol(s, op.email, op.passwordHash), now, op, s.uuids, op.evicted);
    hide OpenSession;
  }

  lemma LoginEvolves(cfg: Config, s: State, now: int, op: Op)
    requires op.Login? && s.uuids + 1 !in s.refreshTokens
    ensures Evolves(s, op, Apply(cfg, s, now, op))
  {
    var found := FindByEmail(s, op.email);
    if found.Some? && Admit(s.credentials[found.value], now).Proceed? && op.passwordOk {
      var c := Admit(s.credentials[found.value], now).account;
      SessionEvolves(cfg, Put(s, found.value, RightPassword(c)), now, op, found.value, op.evicted);
      hide OpenSession;
    }
  }

  lemma AdminEvolves(cfg: Config, s: State, now: int, op: Op)
    requires op.AdminLock? || op.AdminUnlock? || op.Ban? || op.DeleteCredentials? || op.AssignRole? || op.RevokeRole?
    ensures Evolves(s, op, Apply(cfg, s, now, op))
  {
  }

  lemma TableEvolves(cfg: Config, s: State, now: int, op: Op)
    requires op.Logout? || op.RevokeSession? || op.RevokeAllTokens? || op.ForgotPassword? || op.ResetPassword?
             || op.Validate? || op.UnlockJob? || op.RefreshCleanupJob? || op.ResetCleanupJob?
    ensures Evolves(s, op, Apply(cfg, s, now, op))
  {
  }

  lemma StepEvolves(cfg: Config, s: State, now: int, op: Op)
    requires Inv(cfg, s, now)
    ensures Evolves(s, op, Apply(cfg, s, now, op))
  {
    assert forall id | id in s.refreshTokens :: RowOk(s.refreshTokens[id], id, s.uuids, cfg.refreshLifetime, now);
    if op.Register? {
      RegisterEvolves(cfg, s, now, op);
    } else if op.Login? {
      LoginEvolves(cfg, s, now, op);
    } else if op.Refresh? {
      RefreshEvolves(cfg, s, now, op.raw);
    } else if op.AdminLock? || op.AdminUnlock? || op.Ban? || op.DeleteCredentials? || op.AssignRole? || op.RevokeRole? {
      AdminEvolves(cfg, s, now, op);
    } else {
      TableEvolves(cfg, s, now, op);
    }
  }

  lemma EvolvesAt(cfg: Config, run: seq<Entry>, j: nat)
    requires IsRun(cfg, run) && j < |run|
    ensures Inv(cfg, StateAt(cfg, run, j), run[j].now)
    ensures Evolves(StateAt(cfg, run, j), run[j].op, Outcome(StateAt(cfg, run, j + 1), ReplyAt(cfg, run, j)))
  {
    hide Inv, Evolves, Apply;
    Reachable(cfg, run, j, run[j].now);
    StepEvolves(cfg, StateAt(cfg, run, j), run[j].now, run[j].op);
  }

  // ---------- Single use and reuse detection ----------

  /** `raw` was handed out, and every row it opens is revoked. */
  predicate Spent(s: State, raw: Uuid) {
    && raw < s.uuids
    && forall id | id in s.refreshTokens && s.refreshTokens[id].tokenHash == HashOf(raw) :: s.refreshTokens[id].revoked
  }

  lemma {:induction false} SpentForever(cfg: Config, run: seq<Entry>, i: nat, j: nat, raw: Uuid)
    requires IsRun(cfg, run) && i <= j <= |run| && Spent(StateAt(cfg, run, i), raw)
    ensures Spent(StateAt(cfg, run, j), raw)
  {
    hide IsRun, Inv, StateAt, ReplyAt;
    if i < j {
      SpentForever(cfg, run, i, j - 1, raw);
      EvolvesAt(cfg, run, j - 1);
    }
  }

  lemma RefreshSpends(cfg: Config, s: State, now: int, raw: Uuid)
    requires Inv(cfg, s, now) && DoRefresh(cfg, s, now, raw).reply.Session?
    ensures Spent(DoRefresh(cfg, s, now, raw).state, raw)
  {
    var p := FindToken(s, raw).value;
    assert RowOk(s.refreshTokens[p], p, s.uuids, cfg.refreshLifetime, now);
    RotatedRows(cfg, s, now, p);
    var s' := DoRefresh(cfg, s, now, raw).state;
    forall id | id in s'.refreshTokens && s'.refreshTokens[id].tokenHash == HashOf(raw)
      ensures id == p
    {
      assert id in s.refreshTokens ==> RefreshHashes(s.refreshTokens)[id] == RefreshHashes(s.refreshTokens)[p];
    }
  }

  /** A refresh token is exchanged at most once in any run. Presented again, it is answered as
      reuse for as long as its row is kept, and then its owner is left without a live token. */
  lemma SingleUse(cfg: Config, run: seq<Entry>, i: nat, j: nat, raw: Uuid)
    requires IsRun(cfg, run) && i < j < |run|
    requires run[i].op == Refresh(raw) && ReplyAt(cfg, run, i).Session?
    requires run[j].op == Refresh(raw)
    ensures var row := FindToken(StateAt(cfg, run, j), raw);
            if row.None? then ReplyAt(cfg, run, j) == Failed(RefreshTokenInvalid)
            else
              && ReplyAt(cfg, run, j) == Failed(TokenReuseDetected)
              && UnrevokedOf(StateAt(cfg, run, j + 1).refreshTokens,
                             StateAt(cfg, run, j).refreshTokens[row.value].userId) == {}
  {
    Reachable(cfg, run, i, run[i].now);
    RefreshSpends(cfg, StateAt(cfg, run, i), run[i].now, raw);
    SpentForever(cfg, run, i + 1, j, raw);
  }

  lemma IdDrawn(cfg: Config, run: seq<Entry>, i: nat, id: Uuid)
    requires IsRun(cfg, run) && i < |run| && id in StateAt(cfg, run, i).refreshTokens
    ensures id < StateAt(cfg, run, i).uuids
  {
    Reachable(cfg, run, i, run[i].now);
    var s := StateAt(cfg, run, i);
    assert RowOk(s.refreshTokens[id], id, s.uuids, cfg.refreshLifetime, run[i].now);
  }

  /** Revocation is for good, whatever happens to the row in between. */
  lemma {:induction false} RevokedForever(cfg: Config, run: seq<Entry>, i: nat, j: nat, id: Uuid)
    requires IsRun(cfg, run) && i <= j <= |run|
    requires id in StateAt(cfg, run, i).refreshTokens && id in StateAt(cfg, run, j).refreshTokens
    ensures Continues(StateAt(cfg, run, i).refreshTokens[id], StateAt(cfg, run, j).refreshTokens[id])
    ensures forall k | i <= k <= j :: id in StateAt(cfg, run, k).refreshTokens
  {
    hide IsRun, Inv, StateAt, ReplyAt;
    if i < j {
      IdDrawn(cfg, run, i, id);
      EvolvesAt(cfg, run, j - 1);
      UuidsGrow(cfg, run, i, j - 1);
      RevokedForever(cfg, run, i, j - 1, id);
    }
  }

  lemma {:induction false} UuidsGrow(cfg: Config, run: seq<Entry>, i: nat, j: nat)
    requires IsRun(cfg, run) && i <= j <= |run|
    ensures StateAt(cfg, run, i).uuids <= StateAt(cfg, run, j).uuids
  {
    hide IsRun, Inv, StateAt, ReplyAt;
    if i < j {
      UuidsGrow(cfg, run, i, j - 1);
      EvolvesAt(cfg, run, j - 1);
    }
  }

  // ---------- When a refresh succeeds ----------

  /** The row that `raw` opens, not revoked, and not past its expiry. */
  predicate OpensAt(s: State, now: int, raw: Uuid, id: Uuid) {
    && id in s.refreshTokens && s.refreshTokens[id].tokenHash == HashOf(raw)
    && !s.refreshTokens[id].revoked && now <= s.refreshTokens[id].expiresAt
  }

  /** A refresh succeeds exactly with the secret of a live row; the secret handed out in return
      opens a live row of the same user, for one whole lifetime, and the old one opens nothing. */
  lemma RefreshIffLive(cfg: Config, s: State, now: int, raw: Uuid)
    requires cfg.Valid() && Inv(cfg, s, now)
    ensures var o := DoRefresh(cfg, s, now, raw);
            && (o.reply.Session? <==> exists id :: OpensAt(s, now, raw, id))
            && (o.reply.Session? ==>
                  && o.reply.raw != raw
                  && (exists id :: OpensAt(o.state, now + cfg.refreshLifetime, o.reply.raw, id)
                                   && o.state.refreshTokens[id].userId == o.reply.userId)
                  && forall later: int, id :: !OpensAt(o.state, later, raw, id))
  {
    var o, found := DoRefresh(cfg, s, now, raw), FindToken(s, raw);
    forall id | OpensAt(s, now, raw, id)
      ensures found == Some(id)
    {
      assert RefreshHashes(s.refreshTokens)[id] == HashOf(raw);
    }
    if o.reply.Session? {
      assert OpensAt(s, now, raw, found.value);
      RefreshSpends(cfg, s, now, raw);
      assert RowOk(s.refreshTokens[found.value], found.value, s.uuids, cfg.refreshLifetime, now);
      RotatedRows(cfg, s, now, found.value);
      assert OpensAt(o.state, now + cfg.refreshLifetime, s.uuids, s.uuids + 1);
    }
  }

  // ---------- Mass revocation ----------

  /** The steps after which a user must sign in again. */
  ghost predicate Expels(cfg: Config, s: State, now: int, op: Op, userId: Uuid) {
    match op
    case Login(email, passwordOk, _) =>
      var found := FindByEmail(s, email);
      found == Some(userId) && !passwordOk &&
        (var gate := Admit(s.credentials[userId], now); gate.Proceed? && LocksOut(cfg, gate.account))
    case Refresh(raw) =>
      var found := FindToken(s, raw);
      found.Some? && s.refreshTokens[found.value].userId == userId && s.refreshTokens[found.value].revoked
    case RevokeAllTokens(u) => u == userId
    case AdminLock(u, _) => u == userId && u in s.credentials
    case Ban(u) => u == userId && u in s.credentials
    case DeleteCredentials(u) => u == userId
    case ResetPassword(raw, _) =>
      var found := FindReset(s, raw);
      found.Some? &&
        (var row := s.resetTokens[found.value]; row.userId == userId && !row.used && row.expiresAt >= now)
    case AssignRole(u, role, defined) => u == userId && u in s.credentials && defined && role !in s.credentials[u].roles
    case RevokeRole(u, role) => u == userId && u in s.credentials && role in s.credentials[u].roles
    case _ => false
  }

  lemma ExpelledHasNone(cfg: Config, s: State, now: int, op: Op, userId: Uuid)
    requires Expels(cfg, s, now, op, userId)
    ensures UnrevokedOf(Apply(cfg, s, now, op).state.refreshTokens, userId) == {}
  {
    RevokeAllLeavesNone(s.refreshTokens, userId, now);
  }

  ghost predicate CreatedAt(cfg: Config, run: seq<Entry>, m: nat, id: Uuid)
    requires m < |run|
  {
    Created(StateAt(cfg, run, m), StateAt(cfg, run, m + 1), id)
  }

  /** By step `j`, token `id` came, through refreshes only, from a login or registration at
      step `from` or later. */
  ghost predicate Descends(cfg: Config, run: seq<Entry>, from: nat, j: nat, id: Uuid)
    requires j <= |run|
    decreases j
  {
    exists m {:trigger CreatedAt(cfg, run, m, id)} | from <= m < j ::
      CreatedAt(cfg, run, m, id) &&
      match run[m].op
      case Register(_, _, _) => true
      case Login(_, _, _) => true
      case Refresh(raw) =>
        var p := FindToken(StateAt(cfg, run, m), raw);
        p.Some? && Descends(cfg, run, from, m, p.value)
      case _ => false
  }

  /** From a moment at which a user has no live token, every live token of theirs descends
      from a login or registration made since. */
  lemma {:induction false} LiveTokensDescend(cfg: Config, run: seq<Entry>, from: nat, j: nat, userId: Uuid, id: Uuid)
    requires IsRun(cfg, run) && from <= j <= |run|
    requires UnrevokedOf(StateAt(cfg, run, from).refreshTokens, userId) == {}
    requires id in UnrevokedOf(StateAt(cfg, run, j).refreshTokens, userId)
    ensures Descends(cfg, run, from, j, id)
    decreases j
  {
    hide IsRun, Inv, StateAt, ReplyAt;
    var s := StateAt(cfg, run, j - 1);
    EvolvesAt(cfg, run, j - 1);
    if id in s.refreshTokens {
      LiveTokensDescend(cfg, run, from, j - 1, userId, id);
    } else {
      assert CreatedAt(cfg, run, j - 1, id);
      if run[j - 1].op.Refresh? {
        LiveTokensDescend(cfg, run, from, j - 1, userId, FindToken(s, run[j - 1].op.raw).value);
      }
    }
  }

  /** After a lock, ban, password reset, role change, mass revocation or reuse detection, every
      live token of the user descends from a sign-in that came later. */
  lemma {:induction false} LiveTokensPostdateExpulsion(cfg: Config, run: seq<Entry>, i: nat, j: nat, userId: Uuid,
                                                       id: Uuid)
    requires IsRun(cfg, run) && i < j <= |run|
    requires Expels(cfg, StateAt(cfg, run, i), run[i].now, run[i].op, userId)
    requires id in UnrevokedOf(StateAt(cfg, run, j).refreshTokens, userId)
    ensures Descends(cfg, run, i + 1, j, id)
  {
    hide Apply, Expels, Descends, IsRun;
    ExpelledHasNone(cfg, StateAt(cfg, run, i), run[i].now, run[i].op, userId);
    LiveTokensDescend(cfg, run, i + 1, j, userId, id);
  }

  /** A locked or banned user holds no live token; so a refresh, which never looks at the
      account, only ever succeeds for an active one. */
  lemma BarredHoldNothing(cfg: Config, run: seq<Entry>, i: nat, userId: Uuid, raw: Uuid, now: int)
    requires IsRun(cfg, run) && i <= |run| && (i > 0 ==> run[i - 1].now <= now)
    ensures var s := StateAt(cfg, run, i);
            && (userId in s.credentials && s.credentials[userId].status != Active ==>
                  UnrevokedOf(s.refreshTokens, userId) == {})
            && (var reply := DoRefresh(cfg, s, now, raw).reply;
                reply.Session? ==> reply.userId in s.credentials && s.credentials[reply.userId].status == Active)
  {
    Reachable(cfg, run, i, now);
    var s := StateAt(cfg, run, i);
    var p := FindToken(s, raw);
    assert p.Some? ==> p.value in s.refreshTokens;
  }

  // ---------- Chains ----------

  /** A stretch of a rotation chain, as the table records it. */
  predicate IsPath(rows: RefreshTokens, path: seq<Uuid>) {
    && path != []
    && (forall k | 0 <= k < |path| :: path[k] in rows)
    && forall k | 0 < k < |path| :: Replaces(rows, path[k], path[k - 1])
  }

  /** Chains do not loop, stay with one user, and only their last token can be live. */
  lemma {:induction false} PathIsSimple(cfg: Config, s: State, now: int, path: seq<Uuid>)
    requires Inv(cfg, s, now) && IsPath(s.refreshTokens, path)
    ensures forall a, b | 0 <= a < b < |path| :: path[a] < path[b]
    ensures forall k | 0 <= k < |path| :: s.refreshTokens[path[k]].userId == s.refreshTokens[path[0]].userId
    ensures forall k | 0 <= k < |path| - 1 :: s.refreshTokens[path[k]].revoked
  {
    if |path| > 1 {
      var front := path[..|path| - 1];
      assert IsPath(s.refreshTokens, front) by {
        assert forall k | 0 < k < |front| :: Replaces(s.refreshTokens, path[k], path[k - 1]);
      }
      PathIsSimple(cfg, s, now, front);
      var p := path[|path| - 2];
      assert Replaces(s.refreshTokens, path[|path| - 1], p);
      assert RowOk(s.refreshTokens[p], p, s.uuids, cfg.refreshLifetime, now);
    }
  }

  /** Two chains that start at the beginning never meet, unless they are the same chain. */
  lemma {:induction false} PathsAreDisjoint(cfg: Config, s: State, now: int, path: seq<Uuid>, path': seq<Uuid>,
                                            a: nat, b: nat)
    requires Inv(cfg, s, now) && IsPath(s.refreshTokens, path) && IsPath(s.refreshTokens, path')
    requires NoPredecessor(s.refreshTokens, path[0]) && NoPredecessor(s.refreshTokens, path'[0])
    requires a < |path| && b < |path'| && path[a] == path'[b]
    ensures a == b && path[..a + 1] == path'[..b + 1]
    decreases a
  {
    assert a > 0 ==> Replaces(s.refreshTokens, path[a], path[a - 1]);
    assert b > 0 ==> Replaces(s.refreshTokens, path'[b], path'[b - 1]);
    if a > 0 && b > 0 {
      PathsAreDisjoint(cfg, s, now, path, path', a - 1, b - 1);
      assert path[..a + 1] == path[..a] + [path[a]];
      assert path'[..b + 1] == path'[..b] + [path'[b]];
    }
  }
}
