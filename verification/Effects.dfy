/** What each request does, in terms of the rows and of what can be seen afterwards: who is
    concerned, what is answered, which rows change and how, and what later requests meet. */
module Effects {
  import opened Types
  import opened Tables
  import opened Accounts
  import opened Machine
  import opened Invariants
  import opened Rotation
  import opened Sessions
  import opened Lockout
  import opened ResetTokens

  // ---------- Whom a request concerns ----------

  predicate IsJob(op: Op) {
    op.UnlockJob? || op.RefreshCleanupJob? || op.ResetCleanupJob?
  }

  predicate HasEmail(s: State, userId: Uuid, email: string) {
    userId in s.credentials && s.credentials[userId].email == email
  }

  predicate OwnsRefresh(s: State, userId: Uuid, raw: Uuid) {
    exists id | id in s.refreshTokens :: s.refreshTokens[id].tokenHash == HashOf(raw)
      && s.refreshTokens[id].userId == userId
  }

  predicate OwnsReset(s: State, userId: Uuid, raw: Uuid) {
    exists id | id in s.resetTokens :: s.resetTokens[id].tokenHash == HashOf(raw) && s.resetTokens[id].userId == userId
  }

  /** The user a request names, by identifier, address or secret; a registration, the one it creates. */
  predicate Concerns(s: State, op: Op, userId: Uuid) {
    match op
    case Register(_, _, _) => userId == s.uuids
    case Login(email, _, _) => HasEmail(s, userId, email)
    case Refresh(raw) => OwnsRefresh(s, userId, raw)
    case Logout(raw) => OwnsRefresh(s, userId, raw)
    case RevokeSession(id) => id in s.refreshTokens && s.refreshTokens[id].userId == userId
    case RevokeAllTokens(u) => u == userId
    case AdminLock(u, _) => u == userId
    case AdminUnlock(u) => u == userId
    case Ban(u) => u == userId
    case DeleteCredentials(u) => u == userId
    case ForgotPassword(email) => HasEmail(s, userId, email)
    case ResetPassword(raw, _) => OwnsReset(s, userId, raw)
    case AssignRole(u, _, _) => u == userId
    case RevokeRole(u, _) => u == userId
    case Validate(_) => false
    case UnlockJob => true
    case RefreshCleanupJob => true
    case ResetCleanupJob => true
  }

  /** Everything stored about this user is as it was. */
  ghost predicate SameFor(s: State, s': State, userId: Uuid) {
    SameAccount(s, s', userId) && SameTokens(s, s', userId) && SameResets(s, s', userId)
  }

  predicate SameAccount(s: State, s': State, userId: Uuid) {
    if userId in s.credentials then userId in s'.credentials && s'.credentials[userId] == s.credentials[userId]
    else userId !in s'.credentials
  }

  ghost predicate SameTokens(s: State, s': State, userId: Uuid) {
    && (forall id | id in s.refreshTokens && s.refreshTokens[id].userId == userId ::
          id in s'.refreshTokens && s'.refreshTokens[id] == s.refreshTokens[id])
    && (forall id | id in s'.refreshTokens && s'.refreshTokens[id].userId == userId ::
          id in s.refreshTokens && s.refreshTokens[id].userId == userId)
  }

  ghost predicate SameResets(s: State, s': State, userId: Uuid) {
    && (forall id | id in s.resetTokens && s.resetTokens[id].userId == userId ::
          id in s'.resetTokens && s'.resetTokens[id] == s.resetTokens[id])
    && (forall id | id in s'.resetTokens && s'.resetTokens[id].userId == userId ::
          id in s.resetTokens && s.resetTokens[id].userId == userId)
  }

  lemma FoundByEmail(s: State, email: string)
    ensures var found := FindByEmail(s, email);
            && (found.Some? ==> HasEmail(s, found.value, email))
            && (found.None? ==> forall userId :: !HasEmail(s, userId, email))
  {
    assert forall id | id in s.credentials :: Emails(s.credentials)[id] == s.credentials[id].email;
  }

  lemma FoundToken(s: State, raw: Uuid)
    ensures var found := FindToken(s, raw);
            && (found.Some? ==> found.value in s.refreshTokens && s.refreshTokens[found.value].tokenHash == HashOf(raw)
                                && OwnsRefresh(s, s.refreshTokens[found.value].userId, raw))
            && (found.None? ==> forall id | id in s.refreshTokens :: s.refreshTokens[id].tokenHash != HashOf(raw))
  {
    assert forall id | id in s.refreshTokens :: RefreshHashes(s.refreshTokens)[id] == s.refreshTokens[id].tokenHash;
  }

  lemma FoundReset(s: State, raw: Uuid)
    ensures var found := FindReset(s, raw);
            && (found.Some? ==> found.value in s.resetTokens && s.resetTokens[found.value].tokenHash == HashOf(raw)
                                && OwnsReset(s, s.resetTokens[found.value].userId, raw))
            && (found.None? ==> forall id | id in s.resetTokens :: s.resetTokens[id].tokenHash != HashOf(raw))
  {
    assert forall id | id in s.resetTokens :: ResetHashes(s.resetTokens)[id] == s.resetTokens[id].tokenHash;
  }

  // ---------- Refreshing ----------

  predicate Opens(s: State, id: Uuid, raw: Uuid) {
    id in s.refreshTokens && s.refreshTokens[id].tokenHash == HashOf(raw)
  }

  lemma FoundTokenIs(s: State, raw: Uuid, p: Uuid)
    requires Unique(RefreshHashes(s.refreshTokens)) && Opens(s, p, raw)
    ensures FindToken(s, raw) == Some(p)
  {
    assert RefreshHashes(s.refreshTokens)[p] == HashOf(raw);
    var q := FindToken(s, raw).value;
    assert RefreshHashes(s.refreshTokens)[q] == HashOf(raw);
  }

  /** One new row, the presented row revoked and linked to it, and every other row as it was. */
  ghost predicate Rotates(s: State, s': State, now: int, p: Uuid)
    requires p in s.refreshTokens
  {
    var q := s.uuids + 1;
    && q !in s.refreshTokens && s'.refreshTokens.Keys == s.refreshTokens.Keys + {q}
    && s'.refreshTokens[p] == s.refreshTokens[p].(revoked := true, revokedAt := Some(now), replacedBy := Some(q))
    && s'.refreshTokens[q].userId == s.refreshTokens[p].userId
    && forall id | id in s.refreshTokens && id != p :: s'.refreshTokens[id] == s.refreshTokens[id]
  }

  /** The user's live rows are revoked, and every other row is as it was. */
  ghost predicate Expelled(s: State, s': State, now: int, userId: Uuid) {
    && s'.refreshTokens.Keys == s.refreshTokens.Keys
    && forall id | id in s.refreshTokens ::
         var row := s.refreshTokens[id];
         s'.refreshTokens[id] ==
         if row.userId == userId && !row.revoked then row.(revoked := true, revokedAt := Some(now)) else row
  }

  lemma RotationRotates(cfg: Config, s: State, now: int, p: Uuid)
    requires p in s.refreshTokens && p < s.uuids && s.uuids + 1 !in s.refreshTokens
    ensures Rotates(s, Rotate(cfg, s, now, p).state, now, p)
    ensures Rotate(cfg, s, now, p).reply == Session(s.refreshTokens[p].userId, s.uuids)
    ensures var s' := Rotate(cfg, s, now, p).state; s'.credentials == s.credentials && s'.resetTokens == s.resetTokens
  {
  }

  lemma RevokingExpels(s: State, now: int, userId: Uuid)
    ensures Expelled(s, RevokeTokens(s, userId, now), now, userId)
  {
  }

  /** Each way a refresh can be answered. A successful one revokes the presented row, links it to one
      new row, and changes no other; reuse revokes the owner's tokens; otherwise nothing changes. */
  lemma RefreshAnswers(cfg: Config, s: State, now: int, raw: Uuid, p: Uuid)
    requires cfg.Valid() && Inv(cfg, s, now) && Opens(s, p, raw)
    ensures var row, o := s.refreshTokens[p], DoRefresh(cfg, s, now, raw);
            && o.state.credentials == s.credentials && o.state.resetTokens == s.resetTokens
            && if row.revoked then o.reply == Failed(TokenReuseDetected) && Expelled(s, o.state, now, row.userId)
               else if row.expiresAt < now then o == Outcome(s, Failed(RefreshTokenInvalid))
               else o.reply.Session? && o.reply.userId == row.userId && Rotates(s, o.state, now, p)
  {
    FoundTokenIs(s, raw, p);
    IdsAreDrawn(cfg, s, now, p);
    RevokingExpels(s, now, s.refreshTokens[p].userId);
    hide Inv, FindToken, Rotate, Expelled, Rotates, RevokeAllOf;
    RotationRotates(cfg, s, now, p);
  }

  lemma IdsAreDrawn(cfg: Config, s: State, now: int, p: Uuid)
    requires Inv(cfg, s, now) && p in s.refreshTokens
    ensures p < s.uuids && s.uuids + 1 !in s.refreshTokens && s.uuids + 1 !in s.resetTokens
  {
    assert forall id | id in s.refreshTokens :: RowOk(s.refreshTokens[id], id, s.uuids, cfg.refreshLifetime, now);
  }

  lemma UnknownTokenAnswers(cfg: Config, s: State, now: int, raw: Uuid)
    requires forall id :: !Opens(s, id, raw)
    ensures DoRefresh(cfg, s, now, raw) == Outcome(s, Failed(RefreshTokenInvalid))
            && DoLogout(s, now, raw) == Outcome(s, Done)
  {
    FoundToken(s, raw);
    assert forall id | id in s.refreshTokens :: s.refreshTokens[id].tokenHash == HashOf(raw) ==> Opens(s, id, raw);
  }

  // ---------- Everyone else ----------

  lemma OpeningSparesOthers(cfg: Config, s: State, s': State, now: int, userId: Uuid, raw: Uuid, other: Uuid)
    requires other != userId && s'.resetTokens == s.resetTokens && SameAccount(s, s', other)
    requires SignedIn(cfg, s.refreshTokens, s'.refreshTokens, now, userId, raw)
    ensures SameFor(s, s', other)
  {
    var before, after := s.refreshTokens, s'.refreshTokens;
    var q :| q !in before && after.Keys == before.Keys + {q} && IsNewRow(cfg, before, after, now, userId, raw, q);
    assert ClosesOnly(before, after, ActiveSet(before, userId, now), now);
  }

  lemma SignInSparesOthers(cfg: Config, s: State, now: int, op: Op, other: Uuid)
    requires cfg.Valid() && Inv(cfg, s, now) && Allowed(cfg, s, now, op) && (op.Register? || op.Login?)
    requires Apply(cfg, s, now, op).reply.Session? && !Concerns(s, op, other)
    ensures SameFor(s, Apply(cfg, s, now, op).state, other)
  {
    SignInSessions(cfg, s, now, op);
    FoundByEmail(s, op.email);
    hide Inv, Allowed, FindByEmail, RevokeAt, SignedIn, SameTokens, SameResets;
    var o := Apply(cfg, s, now, op);
    OpeningSparesOthers(cfg, s, o.state, now, o.reply.userId, o.reply.raw, other);
    hide SameAccount, SameFor;
  }

  lemma RefusedEntrySparesOthers(cfg: Config, s: State, now: int, op: Op, other: Uuid)
    requires (op.Register? || op.Login?) && !Apply(cfg, s, now, op).reply.Session? && !Concerns(s, op, other)
    ensures SameFor(s, Apply(cfg, s, now, op).state, other)
  {
    FoundByEmail(s, op.email);
    hide FindByEmail, OpenSession;
  }

  lemma RefreshSparesOthers(cfg: Config, s: State, now: int, raw: Uuid, other: Uuid)
    requires cfg.Valid() && Inv(cfg, s, now) && !OwnsRefresh(s, other, raw)
    ensures SameFor(s, DoRefresh(cfg, s, now, raw).state, other)
  {
    var s', found := DoRefresh(cfg, s, now, raw).state, FindToken(s, raw);
    FoundToken(s, raw);
    if found.Some? {
      RefreshAnswers(cfg, s, now, raw, found.value);
      hide Inv, DoRefresh, FindToken, OwnsRefresh, Expelled, Rotates;
      if s.refreshTokens[found.value].revoked {
        ExpelledSpares(s, s', now, s.refreshTokens[found.value].userId, other);
      } else if now <= s.refreshTokens[found.value].expiresAt {
        RotatesSpares(s, s', now, found.value, other);
      }
    }
    hide Inv, DoRefresh, FindToken;
    if found.None? {
      UnknownTokenAnswers(cfg, s, now, raw);
    }
    hide OwnsRefresh, Expelled, Rotates;
  }

  lemma ExpelledSpares(s: State, s': State, now: int, userId: Uuid, other: Uuid)
    requires Expelled(s, s', now, userId) && other != userId
    ensures SameTokens(s, s', other)
  {
  }

  lemma RotatesSpares(s: State, s': State, now: int, p: Uuid, other: Uuid)
    requires p in s.refreshTokens && Rotates(s, s', now, p) && s.refreshTokens[p].userId != other
    ensures SameTokens(s, s', other)
  {
  }

  lemma TokenOpsSpareOthers(cfg: Config, s: State, now: int, op: Op, other: Uuid)
    requires op.Logout? || op.RevokeSession? || op.RevokeAllTokens? || op.Validate?
    requires !Concerns(s, op, other)
    ensures SameFor(s, Apply(cfg, s, now, op).state, other)
  {
    if op.Logout? {
      FoundToken(s, op.raw);
    }
    hide FindToken, OwnsRefresh;
  }

  lemma AdminSparesOthers(cfg: Config, s: State, now: int, op: Op, other: Uuid)
    requires op.AdminLock? || op.AdminUnlock? || op.Ban? || op.DeleteCredentials? || op.AssignRole? || op.RevokeRole?
    requires !Concerns(s, op, other)
    ensures SameFor(s, Apply(cfg, s, now, op).state, other)
  {
    hide WithoutRole;
  }

  lemma ForgotSparesOthers(cfg: Config, s: State, now: int, email: string, other: Uuid)
    requires s.uuids + 1 !in s.resetTokens && !HasEmail(s, other, email)
    ensures SameFor(s, DoForgotPassword(cfg, s, now, email).state, other)
  {
    FoundByEmail(s, email);
    hide FindByEmail;
  }

  lemma ResetSparesOthers(cfg: Config, s: State, now: int, raw: Uuid, newHash: string, other: Uuid)
    requires Inv(cfg, s, now) && !OwnsReset(s, other, raw)
    ensures SameFor(s, DoResetPassword(s, now, raw, newHash).state, other)
  {
    var found, o := FindReset(s, raw), DoResetPassword(s, now, raw, newHash);
    FoundReset(s, raw);
    ResetWorksIff(cfg, s, now, raw, newHash);
    if o.reply == Done {
      var p: Uuid :| Redeems(s, now, raw, p);
      ResetDoes(cfg, s, now, raw, newHash, p);
      assert s.resetTokens[p].userId != other;
    }
    hide Inv, FindReset, DoResetPassword, OwnsReset, Redeems, UnrevokedOf;
  }

  /** A request changes nothing that is stored about any user but the one it concerns: no account,
      no refresh token, no reset token. */
  lemma OthersUntouched(cfg: Config, s: State, now: int, op: Op, other: Uuid)
    requires cfg.Valid() && Inv(cfg, s, now) && Allowed(cfg, s, now, op) && !IsJob(op) && !Concerns(s, op, other)
    ensures SameFor(s, Apply(cfg, s, now, op).state, other)
  {
    if op.Register? || op.Login? {
      hide Inv, Allowed, SameFor, Concerns, Apply;
      if Apply(cfg, s, now, op).reply.Session? {
        SignInSparesOthers(cfg, s, now, op, other);
      } else {
        RefusedEntrySparesOthers(cfg, s, now, op, other);
      }
    } else if op.Refresh? {
      RefreshSparesOthers(cfg, s, now, op.raw, other);
    } else if op.ForgotPassword? {
      assert s.uuids + 1 !in s.resetTokens;
      ForgotSparesOthers(cfg, s, now, op.email, other);
    } else if op.ResetPassword? {
      ResetSparesOthers(cfg, s, now, op.raw, op.newHash, other);
    } else if op.Logout? || op.RevokeSession? || op.RevokeAllTokens? || op.Validate? {
      TokenOpsSpareOthers(cfg, s, now, op, other);
    } else {
      AdminSparesOthers(cfg, s, now, op, other);
    }
    hide Inv, Allowed, SameFor, OwnsRefresh, OwnsReset, DoLogin, DoRegister, DoResetPassword, DoForgotPassword;
  }

  lemma OneHasEmail(s: State, email: string, userId: Uuid, other: Uuid)
    requires Unique(Emails(s.credentials)) && HasEmail(s, userId, email) && other != userId
    ensures !HasEmail(s, other, email)
  {
    assert Emails(s.credentials)[userId] == email;
    assert other in s.credentials ==> Emails(s.credentials)[other] == s.credentials[other].email;
  }

  lemma OneOwnsRefresh(s: State, raw: Uuid, p: Uuid, other: Uuid)
    requires Unique(RefreshHashes(s.refreshTokens)) && Opens(s, p, raw) && other != s.refreshTokens[p].userId
    ensures !OwnsRefresh(s, other, raw)
  {
    forall id | id in s.refreshTokens && s.refreshTokens[id].tokenHash == HashOf(raw)
      ensures id == p
    {
      assert RefreshHashes(s.refreshTokens)[id] == RefreshHashes(s.refreshTokens)[p];
    }
  }

  lemma OneOwnsReset(s: State, raw: Uuid, p: Uuid, other: Uuid)
    requires Unique(ResetHashes(s.resetTokens)) && p in s.resetTokens && s.resetTokens[p].tokenHash == HashOf(raw)
    requires other != s.resetTokens[p].userId
    ensures !OwnsReset(s, other, raw)
  {
    forall id | id in s.resetTokens && s.resetTokens[id].tokenHash == HashOf(raw)
      ensures id == p
    {
      assert ResetHashes(s.resetTokens)[id] == ResetHashes(s.resetTokens)[p];
    }
  }

  lemma OneIsExpelled(cfg: Config, s: State, now: int, op: Op, userId: Uuid, other: Uuid)
    requires Inv(cfg, s, now) && Expels(cfg, s, now, op, userId) && other != userId
    ensures !IsJob(op) && !Concerns(s, op, other) && Allowed(cfg, s, now, op)
  {
    if op.Login? {
      FoundByEmail(s, op.email);
      OneHasEmail(s, op.email, userId, other);
    } else if op.Refresh? {
      FoundToken(s, op.raw);
      OneOwnsRefresh(s, op.raw, FindToken(s, op.raw).value, other);
    } else if op.ResetPassword? {
      FoundReset(s, op.raw);
      OneOwnsReset(s, op.raw, FindReset(s, op.raw).value, other);
    }
    hide Inv, Admit, FindByEmail, FindToken, FindReset, OwnsRefresh, OwnsReset, HasEmail;
  }

  /** A mass revocation leaves every token of every other user as it was, over any run. */
  lemma ExpulsionSparesOthers(cfg: Config, run: seq<Entry>, i: nat, userId: Uuid, other: Uuid)
    requires IsRun(cfg, run) && i < |run| && other != userId
    requires Expels(cfg, StateAt(cfg, run, i), run[i].now, run[i].op, userId)
    ensures SameTokens(StateAt(cfg, run, i), StateAt(cfg, run, i + 1), other)
    ensures UnrevokedOf(StateAt(cfg, run, i + 1).refreshTokens, other)
            == UnrevokedOf(StateAt(cfg, run, i).refreshTokens, other)
  {
    hide StateAt, Expels, Concerns, Apply, Inv, Allowed, IsRun;
    RunStep(cfg, run, i);
    var s, now, op := StateAt(cfg, run, i), run[i].now, run[i].op;
    OneIsExpelled(cfg, s, now, op, userId, other);
    OthersUntouched(cfg, s, now, op, other);
    SameUnrevoked(s, StateAt(cfg, run, i + 1), other);
  }

  lemma SameUnrevoked(s: State, s': State, userId: Uuid)
    requires SameTokens(s, s', userId)
    ensures UnrevokedOf(s'.refreshTokens, userId) == UnrevokedOf(s.refreshTokens, userId)
  {
  }

  // ---------- Signing in ----------

  /** A new address is enrolled as an active user with the one role; a known one changes nothing. */
  lemma RegisterAnswers(cfg: Config, s: State, now: int, email: string, hash: string, evicted: set<Uuid>)
    requires cfg.Valid() && Inv(cfg, s, now) && Allowed(cfg, s, now, Register(email, hash, evicted))
    ensures var o := DoRegister(cfg, s, now, email, hash, evicted);
            if exists u :: HasEmail(s, u, email) then o == Outcome(s, Failed(EmailExists))
            else
              && o.reply.Session? && o.reply.userId !in s.credentials && o.state.resetTokens == s.resetTokens
              && o.state.credentials
                 == s.credentials[o.reply.userId := Credential(email, hash, Active, ["USER"], 0, None)]
  {
    FoundByEmail(s, email);
    assert s.uuids !in s.credentials;
    hide Inv, Allowed, FindByEmail, RevokeAt;
  }

  /** Each way a login can be answered, and that a refused one changes nothing. */
  lemma LoginAnswers(cfg: Config, s: State, now: int, email: string, passwordOk: bool, evicted: set<Uuid>)
    ensures var o := DoLogin(cfg, s, now, email, passwordOk, evicted);
            var found := FindByEmail(s, email);
            if found.None? then o == Outcome(s, Failed(InvalidCredentials))
            else
              var c := s.credentials[found.value];
              if c.status == Banned then o == Outcome(s, Failed(AccountBanned))
              else if c.status == Locked && (c.lockedUntil == None || now < c.lockedUntil.value) then
                o == Outcome(s, Failed(AccountLocked))
              else if c.status == Deleted then o == Outcome(s, Failed(InvalidCredentials))
              else if passwordOk then o.reply.Session? && o.reply.userId == found.value
              else o.reply == Failed(InvalidCredentials)
    ensures DoLogin(cfg, s, now, email, passwordOk, evicted).state.resetTokens == s.resetTokens
  {
    hide FindByEmail, RevokeAt, RevokeAllOf;
  }

  /** A wrong password touches no token, unless it locks the account. */
  lemma FailureKeepsTokens(cfg: Config, s: State, now: int, email: string, evicted: set<Uuid>)
    requires cfg.Valid() && Inv(cfg, s, now)
    ensures var found, o := FindByEmail(s, email), DoLogin(cfg, s, now, email, false, evicted);
            found.Some? && o.state.refreshTokens != s.refreshTokens ==>
              found.value in o.state.credentials && o.state.credentials[found.value].status == Locked
              && o.state.credentials[found.value].lockedUntil == Some(now + cfg.lockout)
  {
    hide Inv, FindByEmail, RevokeAllOf;
  }

  // ---------- Ending sessions ----------

  /** Logging out revokes the row the secret opens, closing a session the row it names, and neither
      anything else. */
  lemma SessionEnds(cfg: Config, s: State, now: int, raw: Uuid, p: Uuid)
    requires Inv(cfg, s, now) && Opens(s, p, raw)
    ensures var ended := s.refreshTokens[p := s.refreshTokens[p].(revoked := true, revokedAt := Some(now))];
            && DoLogout(s, now, raw) == Outcome(s.(refreshTokens := ended), Done)
            && Apply(cfg, s, now, RevokeSession(p)) == Outcome(s.(refreshTokens := ended), Done)
  {
    FoundToken(s, raw);
    assert forall id | id in s.refreshTokens :: RefreshHashes(s.refreshTokens)[id] == s.refreshTokens[id].tokenHash;
    assert FindToken(s, raw) == Some(p);
  }

  // ---------- Administration ----------

  /** What a user meets at `later` who has the right password, and with a token in order. */
  ghost predicate GetsIn(cfg: Config, s: State, later: int, userId: Uuid) {
    && userId in s.credentials
    && (forall evicted :: DoLogin(cfg, s, later, s.credentials[userId].email, true, evicted).reply.Session?)
    && DoValidate(s, later, userId).reply == Done
  }

  ghost predicate ShutOut(cfg: Config, s: State, later: int, userId: Uuid, error: Error) {
    && userId in s.credentials
    && (forall evicted, passwordOk ::
       DoLogin(cfg, s, later, s.credentials[userId].email, passwordOk, evicted).reply == Failed(error))
    && DoValidate(s, later, userId).reply == Failed(error)
    && UnrevokedOf(s.refreshTokens, userId) == {}
  }

  lemma KnownByEmail(cfg: Config, s: State, now: int, userId: Uuid)
    requires Inv(cfg, s, now) && userId in s.credentials
    ensures FindByEmail(s, s.credentials[userId].email) == Some(userId)
  {
    assert Emails(s.credentials)[userId] == s.credentials[userId].email;
  }

  /** An administrator's lock of `m` minutes shuts the user out until `m` minutes later to the
      millisecond, and lets them in from then on; without a duration, or with 0, there is no such
      moment. Nothing else in the record changes. */
  lemma LockLasts(cfg: Config, s: State, now: int, userId: Uuid, minutes: Option<int>, later: int)
    requires cfg.Valid() && Inv(cfg, s, now) && userId in s.credentials
    ensures var o := DoAdminLock(s, now, userId, minutes);
            && o.reply == Done && userId in o.state.credentials
            && o.state.credentials[userId]
               == s.credentials[userId].(status := Locked, lockedUntil := o.state.credentials[userId].lockedUntil)
            && if minutes.Some? && minutes.value != 0 && later >= now + minutes.value * 60_000
               then GetsIn(cfg, o.state, later, userId) else ShutOut(cfg, o.state, later, userId, AccountLocked)
  {
    var o := DoAdminLock(s, now, userId, minutes);
    RevokeAllLeavesNone(s.refreshTokens, userId, now);
    assert AdminLock(userId, minutes).AdminLock?;
    InvStep(cfg, s, now, AdminLock(userId, minutes));
    assert Apply(cfg, s, now, AdminLock(userId, minutes)) == o;
    KnownByEmail(cfg, o.state, now, userId);
    hide Inv, FindByEmail, RevokeAllOf;
  }

  /** The requests by which an administrator decides about an account. */
  predicate Decides(op: Op, userId: Uuid) {
    && (op.AdminLock? || op.AdminUnlock? || op.Ban? || op.DeleteCredentials?)
    && op.userId == userId
  }

  /** A lock stays as it is until its end, and one without an end for ever, over any run in which no
      administrator decides about the account. */
  lemma {:induction false} LockStays(cfg: Config, run: seq<Entry>, userId: Uuid, i: nat, j: nat)
    requires IsRun(cfg, run) && i <= j <= |run| && userId in StateAt(cfg, run, i).credentials
    requires var c := StateAt(cfg, run, i).credentials[userId];
             c.status == Locked && forall k | i <= k < j :: c.lockedUntil.Some? ==> run[k].now < c.lockedUntil.value
    requires forall k | i <= k < j :: !Decides(run[k].op, userId)
    ensures userId in StateAt(cfg, run, j).credentials
    ensures SameLockState(StateAt(cfg, run, i).credentials[userId], StateAt(cfg, run, j).credentials[userId])
  {
    hide IsRun, StateAt, Inv, Apply, Allowed;
    if i < j {
      LockStays(cfg, run, userId, i, j - 1);
      RunStep(cfg, run, j - 1);
      LockStep(cfg, StateAt(cfg, run, j - 1), run[j - 1].now, run[j - 1].op, userId);
    }
  }

  lemma LockStep(cfg: Config, s: State, now: int, op: Op, userId: Uuid)
    requires cfg.Valid() && Inv(cfg, s, now) && userId in s.credentials && !Decides(op, userId)
    requires var c := s.credentials[userId];
             c.status == Locked && (c.lockedUntil.Some? ==> now < c.lockedUntil.value)
    ensures var s' := Apply(cfg, s, now, op).state;
            userId in s'.credentials && SameLockState(s.credentials[userId], s'.credentials[userId])
  {
    QuietStep(cfg, s, now, op, userId);
    hide Inv, Apply;
  }

  /** Unlocking lets the user in at any later time, with no failure counted. */
  lemma UnlockAdmits(cfg: Config, s: State, now: int, userId: Uuid, later: int)
    requires cfg.Valid() && Inv(cfg, s, now) && userId in s.credentials
    ensures var o := DoAdminUnlock(s, userId);
            && o.reply == Done && GetsIn(cfg, o.state, later, userId)
            && o.state.credentials[userId]
               == s.credentials[userId].(status := Active, failedLoginAttempts := 0, lockedUntil := None)
            && o.state.refreshTokens == s.refreshTokens && o.state.resetTokens == s.resetTokens
  {
    var o := DoAdminUnlock(s, userId);
    InvStep(cfg, s, now, AdminUnlock(userId));
    assert Apply(cfg, s, now, AdminUnlock(userId)) == o;
    KnownByEmail(cfg, o.state, now, userId);
    hide Inv, FindByEmail;
  }

  /** A ban shuts the user out at any later time, and changes nothing else in the record. */
  lemma BanShutsOut(cfg: Config, s: State, now: int, userId: Uuid, later: int)
    requires cfg.Valid() && Inv(cfg, s, now) && userId in s.credentials
    ensures var o := DoBan(s, now, userId);
            && o.reply == Done && ShutOut(cfg, o.state, later, userId, AccountBanned)
            && o.state.credentials[userId] == s.credentials[userId].(status := Banned)
  {
    var o := DoBan(s, now, userId);
    RevokeAllLeavesNone(s.refreshTokens, userId, now);
    InvStep(cfg, s, now, Op.Ban(userId));
    assert Apply(cfg, s, now, Op.Ban(userId)) == o;
    KnownByEmail(cfg, o.state, now, userId);
    hide Inv, FindByEmail, RevokeAllOf;
  }

  /** Deleting leaves nothing of the user; of a user who is not there, nothing changes. */
  lemma DeleteLeavesNothing(cfg: Config, s: State, now: int, userId: Uuid)
    requires Inv(cfg, s, now)
    ensures var o := DoDelete(s, userId);
            && o.reply == Done && userId !in o.state.credentials
            && (forall id | id in o.state.refreshTokens :: o.state.refreshTokens[id].userId != userId)
            && (forall id | id in o.state.resetTokens :: o.state.resetTokens[id].userId != userId)
            && (userId !in s.credentials ==> o.state == s)
  {
    hide Unique;
  }

  /** Requests about a user who is not there change nothing. */
  lemma UnknownUserAnswers(cfg: Config, s: State, now: int, op: Op)
    requires op.AdminLock? || op.AdminUnlock? || op.Ban? || op.AssignRole? || op.RevokeRole?
    requires op.userId !in s.credentials
    ensures Apply(cfg, s, now, op) == Outcome(s, Failed(UserNotFound))
  {
  }

  /** A defined role is held afterwards, at the end of the list if it is new; no other role comes or
      goes, and only a new one ends the user's sessions. */
  lemma AssigningRole(s: State, now: int, userId: Uuid, role: string, defined: bool)
    requires userId in s.credentials
    ensures var c, o := s.credentials[userId], DoAssignRole(s, now, userId, role, defined);
            if !defined then o == Outcome(s, Failed(RoleNotDefined))
            else if role in c.roles then o == Outcome(s, Done)
            else
              && o.reply == Done && o.state.resetTokens == s.resetTokens
              && o.state.credentials == s.credentials[userId := c.(roles := c.roles + [role])]
              && UnrevokedOf(o.state.refreshTokens, userId) == {}
  {
    RevokeAllLeavesNone(s.refreshTokens, userId, now);
    hide RevokeAllOf;
  }

  /** Without one role: the list keeps every other role, as often and in the same order. */
  lemma {:induction false} WithoutRoleFilters(a: seq<string>, b: seq<string>, role: string)
    ensures WithoutRole(a + b, role) == WithoutRole(a, role) + WithoutRole(b, role)
    ensures role !in WithoutRole(a, role)
    ensures forall r :: WithoutRole([r], role) == if r == role then [] else [r]
  {
    if a != [] {
      assert (a + b)[1..] == a[1..] + b;
      WithoutRoleFilters(a[1..], b, role);
    } else {
      assert a + b == b;
    }
  }

  lemma RevokingRole(s: State, now: int, userId: Uuid, role: string)
    requires userId in s.credentials
    ensures var c, o := s.credentials[userId], DoRevokeRole(s, now, userId, role);
            && o.reply == Done
            && (role !in c.roles ==> o.state == s)
            && (role in c.roles ==>
                  && userId in o.state.credentials && role !in o.state.credentials[userId].roles
                  && o.state.credentials == s.credentials[userId := c.(roles := o.state.credentials[userId].roles)]
                  && o.state.resetTokens == s.resetTokens && UnrevokedOf(o.state.refreshTokens, userId) == {})
  {
    RevokeAllLeavesNone(s.refreshTokens, userId, now);
    WithoutRoleFilters(s.credentials[userId].roles, [], role);
    hide RevokeAllOf, WithoutRole;
  }

  // ---------- Jobs ----------

  /** The unlock job changes exactly the accounts whose lock has ended before now. */
  lemma UnlockJobLifts(cfg: Config, s: State, now: int)
    ensures var s' := Apply(cfg, s, now, UnlockJob).state;
            && s' == s.(credentials := s'.credentials) && s'.credentials.Keys == s.credentials.Keys
            && forall u | u in s.credentials ::
                 var c := s.credentials[u];
                 s'.credentials[u] ==
                 if c.status == Locked && c.lockedUntil.Some? && c.lockedUntil.value < now
                 then c.(status := Active, failedLoginAttempts := 0, lockedUntil := None) else c
  {
  }

  /** The cleanup jobs delete exactly the rows past their expiry, the refresh tokens revoked more than
      seven days ago, and the reset tokens marked used; they change no row. */
  lemma CleanupDeletes(cfg: Config, s: State, now: int)
    ensures var s' := Apply(cfg, s, now, RefreshCleanupJob).state;
            && s' == s.(refreshTokens := s'.refreshTokens) && s'.refreshTokens.Keys <= s.refreshTokens.Keys
            && forall id | id in s.refreshTokens ::
                 var row := s.refreshTokens[id];
                 && (id in s'.refreshTokens <==>
                       now <= row.expiresAt
                       && (row.revoked && row.revokedAt.Some? ==> now - 7 * 24 * 60 * 60 * 1000 <= row.revokedAt.value))
                 && (id in s'.refreshTokens ==> s'.refreshTokens[id] == row)
    ensures var s' := Apply(cfg, s, now, ResetCleanupJob).state;
            && s' == s.(resetTokens := s'.resetTokens) && s'.resetTokens.Keys <= s.resetTokens.Keys
            && forall id | id in s.resetTokens ::
                 && (id in s'.resetTokens <==> now <= s.resetTokens[id].expiresAt && !s.resetTokens[id].used)
                 && (id in s'.resetTokens ==> s'.resetTokens[id] == s.resetTokens[id])
  {
  }
}
