/** How fast passwords can be guessed, and who can end a ban. */
module Lockout {
  import opened Types
  import opened Tables
  import opened Accounts
  import opened Machine
  import opened Invariants

  // ---------- Login ----------

  /** A login succeeds exactly with the right password for an account that is active, or whose
      lock has an end that has come. It leaves that account active, without a lock end and without
      counted failures, and every other account alone. */
  lemma LoginSucceedsIff(cfg: Config, s: State, now: int, email: string, passwordOk: bool, evicted: set<Uuid>)
    requires Inv(cfg, s, now)
    ensures var found, o := FindByEmail(s, email), DoLogin(cfg, s, now, email, passwordOk, evicted);
            && (o.reply.Session? <==>
                  && found.Some? && passwordOk
                  && var c := s.credentials[found.value];
                     c.status == Active || (c.status == Locked && c.lockedUntil.Some? && c.lockedUntil.value <= now))
            && (o.reply.Session? ==>
                  && o.reply.userId == found.value
                  && o.state.credentials == s.credentials[found.value := Unlock(s.credentials[found.value])])
  {
    var found := FindByEmail(s, email);
    assert found.Some? ==> AccountOk(cfg, s.credentials[found.value]);
    hide Inv, FindByEmail;
  }

  /** A login with the wrong password changes no account but the one it names, and that one only
      by counting the failure: at the limit the account is locked for the lockout period. */
  lemma WrongPasswordCounts(cfg: Config, s: State, now: int, email: string, evicted: set<Uuid>)
    requires cfg.Valid() && Inv(cfg, s, now)
    ensures var found, o := FindByEmail(s, email), DoLogin(cfg, s, now, email, false, evicted);
            if found.None? || Admit(s.credentials[found.value], now).Refuse? then o.state == s
            else
              var c, after := s.credentials[found.value], o.state.credentials[found.value];
              var failures := if c.status == Active then c.failedLoginAttempts + 1 else 1;
              && o.state.credentials == s.credentials[found.value := after]
              && after.failedLoginAttempts == failures <= cfg.maxAttempts
              && after.status == (if failures == cfg.maxAttempts then Locked else Active)
              && after.lockedUntil == (if failures == cfg.maxAttempts then Some(now + cfg.lockout) else None)
  {
    var found := FindByEmail(s, email);
    assert found.Some? ==> AccountOk(cfg, s.credentials[found.value]);
    hide Inv, FindByEmail;
  }

  /** An account after wrong passwords at the given times, one after the other. */
  function AfterFailures(cfg: Config, c: Credential, times: seq<int>): Credential {
    if times == [] then c
    else WrongPassword(cfg, AfterFailures(cfg, c, times[..|times| - 1]), times[|times| - 1])
  }

  /** An active account is locked by the failure that brings its count to the maximum, not before,
      and until the lockout period from that failure is over. */
  lemma {:induction false} LocksExactlyAtLimit(cfg: Config, c: Credential, times: seq<int>)
    requires AccountOk(cfg, c) && c.status == Active && c.failedLoginAttempts + |times| <= cfg.maxAttempts
    ensures var after := AfterFailures(cfg, c, times);
            && after.failedLoginAttempts == c.failedLoginAttempts + |times|
            && (after.status == Locked <==> after.failedLoginAttempts == cfg.maxAttempts)
            && (after.status == Locked ==> times != [] && after.lockedUntil == Some(times[|times| - 1] + cfg.lockout))
            && (after.status != Locked ==> after.status == Active && after.lockedUntil == None)
  {
    if times != [] {
      LocksExactlyAtLimit(cfg, c, times[..|times| - 1]);
    }
  }

  // ---------- Bans ----------

  predicate LiftsBan(op: Op, userId: Uuid) {
    || (op.AdminLock? && op.userId == userId)
    || (op.AdminUnlock? && op.userId == userId)
    || (op.DeleteCredentials? && op.userId == userId)
  }

  /** The operations that leave every account record alone. */
  predicate TokensOnly(op: Op) {
    op.Refresh? || op.Logout? || op.RevokeSession? || op.RevokeAllTokens? || op.ForgotPassword? || op.Validate?
    || op.RefreshCleanupJob? || op.ResetCleanupJob?
  }

  lemma TokensOnlyKeepsAccounts(cfg: Config, s: State, now: int, op: Op)
    requires TokensOnly(op)
    ensures Apply(cfg, s, now, op).state.credentials == s.credentials
  {
  }

  /** A ban ends exactly with an administrator's lock, unlock or delete: no login, no refresh and
      no job ends it. */
  lemma {:induction false} BanEndsOnlyByAdmin(cfg: Config, s: State, now: int, op: Op, userId: Uuid)
    requires Inv(cfg, s, now) && userId in s.credentials && s.credentials[userId].status == Banned
    ensures var after := Apply(cfg, s, now, op).state.credentials;
            (userId in after && after[userId].status == Banned) <==> !LiftsBan(op, userId)
  {
    assert s.uuids !in s.credentials;
    hide Inv;
    if TokensOnly(op) {
      TokensOnlyKeepsAccounts(cfg, s, now, op);
    } else {
      hide Apply;
      if op.Login? || op.Register? {
        SignInKeepsBan(cfg, s, now, op, userId);
      } else {
        AdminAndBan(cfg, s, now, op, userId);
      }
    }
  }

  lemma SignInKeepsBan(cfg: Config, s: State, now: int, op: Op, userId: Uuid)
    requires (op.Login? || op.Register?) && s.uuids !in s.credentials
    requires userId in s.credentials && s.credentials[userId].status == Banned
    ensures var after := Apply(cfg, s, now, op).state.credentials; userId in after && after[userId].status == Banned
  {
    hide RevokeAllOf, RevokeAt, Emails;
  }

  lemma AdminAndBan(cfg: Config, s: State, now: int, op: Op, userId: Uuid)
    requires !op.Login? && !op.Register? && !TokensOnly(op) && userId in s.credentials
             && s.credentials[userId].status == Banned
    ensures var after := Apply(cfg, s, now, op).state.credentials;
            (userId in after && after[userId].status == Banned) <==> !LiftsBan(op, userId)
  {
    hide DoLogin, DoRegister, RevokeAllOf, WithoutUser, WithoutUserResets, MarkUsed, WithoutRole, FindReset;
  }

  // ---------- The rate of password guesses ----------

  /** A login that gets as far as comparing the password, and fails. */
  ghost predicate FailedCheck(s: State, now: int, op: Op, userId: Uuid) {
    && op.Login? && !op.passwordOk
    && FindByEmail(s, op.email) == Some(userId)
    && Admit(s.credentials[userId], now).Proceed?
  }

  /** A successful login, or an administrator setting or lifting the lock. */
  ghost predicate Intervenes(s: State, now: int, op: Op, userId: Uuid) {
    || (op.Login? && op.passwordOk && FindByEmail(s, op.email) == Some(userId)
        && Admit(s.credentials[userId], now).Proceed?)
    || (op.AdminLock? && op.userId == userId)
    || (op.AdminUnlock? && op.userId == userId)
  }

  /** The failed checks an account admits in `span` milliseconds once it has just been unlocked. */
  function PerSpan(cfg: Config, span: int): int
    requires cfg.Valid()
  {
    if span < 0 then 0 else cfg.maxAttempts * (span / cfg.lockout + 1)
  }

  /** The failed checks account `c` can still take from `now` to `end`. */
  function Budget(cfg: Config, c: Credential, now: int, end: int): int
    requires cfg.Valid()
  {
    match c.status
    case Active => if now > end then 0 else PerSpan(cfg, end - now) - c.failedLoginAttempts
    case Locked =>
      if c.lockedUntil.None? then 0
      else PerSpan(cfg, end - (if c.lockedUntil.value > now then c.lockedUntil.value else now))
    case Banned => 0
    case Deleted => 0
  }

  ghost function BudgetOf(cfg: Config, s: State, userId: Uuid, now: int, end: int): int
    requires cfg.Valid()
  {
    if userId in s.credentials then Budget(cfg, s.credentials[userId], now, end) else 0
  }

  lemma PerSpanGrows(cfg: Config, a: int, b: int)
    requires cfg.Valid() && a <= b
    ensures 0 <= PerSpan(cfg, a) <= PerSpan(cfg, b)
  {
    if a >= 0 {
      DivGrows(a, b, cfg.lockout);
      MulGrows(cfg.maxAttempts, a / cfg.lockout + 1, b / cfg.lockout + 1);
    } else if b >= 0 {
      MulGrows(cfg.maxAttempts, 0, b / cfg.lockout + 1);
    }
  }

  lemma DivGrows(a: int, b: int, d: int)
    requires a <= b && d > 0
    ensures a / d <= b / d
  {
    var p, q := a / d, b / d;
    assert d * p <= a && b < d * q + d;
    assert d * (q + 1) == d * q + d;
    if p > q {
      MulGrows(d, q + 1, p);
    }
  }

  lemma DivIs(x: int, d: int, q: int)
    requires d > 0 && d * q <= x < d * q + d
    ensures x / d == q
  {
    var p := x / d;
    assert d * p <= x < d * p + d;
    assert d * (q + 1) == d * q + d && d * (p + 1) == d * p + d;
    if p < q {
      MulGrows(d, p + 1, q);
    } else if q < p {
      MulGrows(d, q + 1, p);
    }
  }

  lemma MulGrows(n: nat, a: int, b: int)
    requires a <= b
    ensures n * a <= n * b
  {
  }

  /** One lockout period costs one full set of attempts. */
  lemma PerSpanPeriod(cfg: Config, span: int)
    requires cfg.Valid() && span >= 0
    ensures PerSpan(cfg, span) == cfg.maxAttempts + PerSpan(cfg, span - cfg.lockout)
  {
    var d := cfg.lockout;
    var q := span / d;
    if span >= d {
      assert d * (q - 1) == d * q - d;
      DivIs(span - d, d, q - 1);
      assert cfg.maxAttempts * (q + 1) == cfg.maxAttempts + cfg.maxAttempts * q;
    } else {
      DivIs(span, d, 0);
    }
  }

  lemma BudgetShrinks(cfg: Config, c: Credential, now: int, later: int, end: int)
    requires cfg.Valid() && AccountOk(cfg, c) && now <= later <= end
    ensures 0 <= Budget(cfg, c, later, end) <= Budget(cfg, c, now, end)
  {
    PerSpanGrows(cfg, end - later, end - now);
    if c.status == Active {
      PerSpanPeriod(cfg, end - later);
      PerSpanGrows(cfg, end - later - cfg.lockout, end - later);
    } else if c.status == Locked && c.lockedUntil.Some? {
      var u := c.lockedUntil.value;
      PerSpanGrows(cfg, end - (if u > later then u else later), end - (if u > now then u else now));
    }
  }

  /** A failed check uses up one unit, whether or not it locks the account. */
  lemma FailureSpends(cfg: Config, c: Credential, now: int, end: int)
    requires cfg.Valid() && AccountOk(cfg, c) && now <= end && Admit(c, now).Proceed?
    ensures Budget(cfg, WrongPassword(cfg, Admit(c, now).account, now), now, end) + 1 <= Budget(cfg, c, now, end)
  {
    PerSpanPeriod(cfg, end - now);
  }

  /** Unlocking an expired lock, by the job, gains nothing. */
  lemma UnlockGainsNothing(cfg: Config, c: Credential, now: int, end: int)
    requires cfg.Valid() && JobUnlocks(c, now) && now <= end
    ensures Budget(cfg, Unlock(c), now, end) == Budget(cfg, c, now, end)
  {
  }

  /** The part of a record that the budget reads. */
  predicate SameLockState(c: Credential, c': Credential) {
    c'.status == c.status && c'.failedLoginAttempts == c.failedLoginAttempts && c'.lockedUntil == c.lockedUntil
  }

  /** What a step without intervention does to the lock state of an account: a failed check counts
      and perhaps locks, the job unlocks an expired lock, a ban bans, a delete deletes, and
      everything else leaves it alone. */
  ghost predicate Quiet(cfg: Config, s: State, now: int, op: Op, userId: Uuid)
    requires userId in s.credentials
  {
    var c, after := s.credentials[userId], Apply(cfg, s, now, op).state.credentials;
    if FailedCheck(s, now, op, userId) then
      userId in after && after[userId] == WrongPassword(cfg, Admit(c, now).account, now)
    else if op == DeleteCredentials(userId) then userId !in after
    else
      && userId in after
      && if op.UnlockJob? && JobUnlocks(c, now) then after[userId] == Unlock(c)
         else if op == Ban(userId) then after[userId] == c.(status := Banned)
         else SameLockState(c, after[userId])
  }

  lemma QuietLogin(cfg: Config, s: State, now: int, op: Op, userId: Uuid)
    requires op.Login? && userId in s.credentials && !Intervenes(s, now, op, userId)
    ensures Quiet(cfg, s, now, op, userId)
  {
    hide RevokeAllOf, RevokeAt, Emails;
  }

  lemma QuietOther(cfg: Config, s: State, now: int, op: Op, userId: Uuid)
    requires !op.Login? && !TokensOnly(op) && s.uuids !in s.credentials
    requires userId in s.credentials && !Intervenes(s, now, op, userId)
    ensures Quiet(cfg, s, now, op, userId)
  {
    hide DoLogin, RevokeAllOf, WithoutUser, WithoutUserResets, MarkUsed, WithoutRole, Emails, FindReset;
  }

  lemma {:induction false} QuietStep(cfg: Config, s: State, now: int, op: Op, userId: Uuid)
    requires cfg.Valid() && Inv(cfg, s, now) && userId in s.credentials && !Intervenes(s, now, op, userId)
    ensures Quiet(cfg, s, now, op, userId)
  {
    assert s.uuids !in s.credentials;
    hide Inv, Intervenes;
    if TokensOnly(op) {
      TokensOnlyKeepsAccounts(cfg, s, now, op);
    } else {
      hide Quiet;
      if op.Login? {
        QuietLogin(cfg, s, now, op, userId);
      } else {
        QuietOther(cfg, s, now, op, userId);
      }
    }
  }

  lemma QuietStepBudget(cfg: Config, s: State, now: int, op: Op, userId: Uuid, end: int)
    requires cfg.Valid() && Inv(cfg, s, now) && userId < s.uuids && !Intervenes(s, now, op, userId) && now <= end
    ensures BudgetOf(cfg, Apply(cfg, s, now, op).state, userId, now, end)
            + (if FailedCheck(s, now, op, userId) then 1 else 0)
            <= BudgetOf(cfg, s, userId, now, end)
  {
    hide Inv, Apply, Intervenes, FailedCheck, PerSpan;
    if userId in s.credentials {
      var c := s.credentials[userId];
      IdsDrawn(cfg, s, now, userId);
      QuietStep(cfg, s, now, op, userId);
      BudgetShrinks(cfg, c, now, now, end);
      if FailedCheck(s, now, op, userId) {
        CheckedAccount(s, now, op, userId);
        FailureSpends(cfg, c, now, end);
      } else if JobUnlocks(c, now) {
        UnlockGainsNothing(cfg, c, now, end);
      }
    } else {
      GoneForGood(cfg, s, now, op, userId);
      CheckedAccount(s, now, op, userId);
    }
  }

  lemma CheckedAccount(s: State, now: int, op: Op, userId: Uuid)
    ensures FailedCheck(s, now, op, userId) ==> userId in s.credentials && Admit(s.credentials[userId], now).Proceed?
  {
  }

  /** The identifier of a deleted account is never given out again. */
  lemma GoneForGood(cfg: Config, s: State, now: int, op: Op, userId: Uuid)
    requires Inv(cfg, s, now) && userId < s.uuids && userId !in s.credentials
    ensures userId !in Apply(cfg, s, now, op).state.credentials
  {
    hide Inv;
  }

  ghost predicate FailsAt(cfg: Config, run: seq<Entry>, userId: Uuid, k: nat)
    requires k < |run|
  {
    FailedCheck(StateAt(cfg, run, k), run[k].now, run[k].op, userId)
  }

  ghost predicate IntervenesAt(cfg: Config, run: seq<Entry>, userId: Uuid, k: nat)
    requires k < |run|
  {
    Intervenes(StateAt(cfg, run, k), run[k].now, run[k].op, userId)
  }

  ghost function FailedChecks(cfg: Config, run: seq<Entry>, userId: Uuid, i: nat, j: nat): nat
    requires i <= j <= |run|
    decreases j
  {
    if i == j then 0
    else
      FailedChecks(cfg, run, userId, i, j - 1)
      + (if FailsAt(cfg, run, userId, j - 1) then 1 else 0)
  }

  ghost predicate Undisturbed(cfg: Config, run: seq<Entry>, userId: Uuid, i: nat, j: nat)
    requires i <= j <= |run|
  {
    forall k | i <= k < j :: !IntervenesAt(cfg, run, userId, k)
  }

  lemma {:induction false} SpentBudget(cfg: Config, run: seq<Entry>, userId: Uuid, i: nat, j: nat, end: int)
    requires IsRun(cfg, run) && i < j <= |run| && run[j - 1].now <= end
    requires userId in StateAt(cfg, run, i).credentials && Undisturbed(cfg, run, userId, i, j)
    ensures FailedChecks(cfg, run, userId, i, j) + BudgetOf(cfg, StateAt(cfg, run, j), userId, run[j - 1].now, end)
            <= BudgetOf(cfg, StateAt(cfg, run, i), userId, run[i].now, end)
    ensures userId < StateAt(cfg, run, j).uuids
    decreases j
  {
    hide IsRun, Inv, Apply, Allowed, Intervenes, FailedCheck, BudgetOf;
    var k := j - 1;
    var s, now := StateAt(cfg, run, k), run[k].now;
    RunStep(cfg, run, k);
    if i < k {
      RunStep(cfg, run, k - 1);
      SpentBudget(cfg, run, userId, i, k, end);
      LaterBudget(cfg, s, userId, run[k - 1].now, now, end);
    } else {
      IdsDrawn(cfg, s, now, userId);
      assert FailedChecks(cfg, run, userId, i, k) == 0;
    }
    assert !IntervenesAt(cfg, run, userId, k);
    QuietStepBudget(cfg, s, now, run[k].op, userId, end);
    UuidsOnlyGrow(cfg, s, now, run[k].op);
  }

  lemma IdsDrawn(cfg: Config, s: State, now: int, userId: Uuid)
    requires Inv(cfg, s, now) && userId in s.credentials
    ensures userId < s.uuids && AccountOk(cfg, s.credentials[userId])
  {
  }

  lemma UuidsOnlyGrow(cfg: Config, s: State, now: int, op: Op)
    ensures s.uuids <= Apply(cfg, s, now, op).state.uuids
  {
  }

  lemma LaterBudget(cfg: Config, s: State, userId: Uuid, now: int, later: int, end: int)
    requires cfg.Valid() && Inv(cfg, s, later) && now <= later <= end
    ensures BudgetOf(cfg, s, userId, later, end) <= BudgetOf(cfg, s, userId, now, end)
  {
    if userId in s.credentials {
      assert AccountOk(cfg, s.credentials[userId]);
      BudgetShrinks(cfg, s.credentials[userId], now, later, end);
    }
  }

  /** In any stretch of any run without a successful login or an administrator's lock or unlock,
      an account takes at most `maxAttempts` failed password checks, plus as many again for every
      whole lockout period the stretch lasts; unlock jobs may fall anywhere. */
  lemma {:induction false} GuessRateBound(cfg: Config, run: seq<Entry>, userId: Uuid, i: nat, j: nat)
    requires IsRun(cfg, run) && i < j <= |run|
    requires userId in StateAt(cfg, run, i).credentials && Undisturbed(cfg, run, userId, i, j)
    ensures FailedChecks(cfg, run, userId, i, j) <= cfg.maxAttempts * ((run[j - 1].now - run[i].now) / cfg.lockout + 1)
  {
    hide IsRun, Inv, Apply, Allowed, StateAt, Undisturbed, FailedChecks, Budget;
    var end := run[j - 1].now;
    SpentBudget(cfg, run, userId, i, j, end);
    RunStep(cfg, run, i);
    Reachable(cfg, run, j, end);
    NonNegative(cfg, StateAt(cfg, run, j), userId, end);
    IdsDrawn(cfg, StateAt(cfg, run, i), run[i].now, userId);
    FullBudget(cfg, StateAt(cfg, run, i).credentials[userId], run[i].now, end);
  }

  lemma FullBudget(cfg: Config, c: Credential, now: int, end: int)
    requires cfg.Valid() && AccountOk(cfg, c) && now <= end
    ensures Budget(cfg, c, now, end) <= cfg.maxAttempts * ((end - now) / cfg.lockout + 1)
  {
    PerSpanGrows(cfg, 0, end - now);
    if c.status == Locked && c.lockedUntil.Some? && c.lockedUntil.value > now {
      PerSpanGrows(cfg, end - c.lockedUntil.value, end - now);
    }
  }

  lemma NonNegative(cfg: Config, s: State, userId: Uuid, now: int)
    requires cfg.Valid() && Inv(cfg, s, now)
    ensures BudgetOf(cfg, s, userId, now, now) >= 0
  {
    if userId in s.credentials {
      assert AccountOk(cfg, s.credentials[userId]);
      BudgetShrinks(cfg, s.credentials[userId], now, now, now);
    }
  }
}
