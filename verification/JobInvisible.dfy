/** The unlock job cannot be observed.

    An expired lock counts as no lock wherever the account is read, so it makes no difference
    when, or whether, the job gets round to removing it. */
module JobInvisible {
  import opened Types
  import opened Tables
  import opened Accounts
  import opened Machine
  import opened Invariants

  /** What matters of a record at time `now`: the lock's end only while the lock holds, the
      counter only while the account is active. */
  function Seen(c: Credential, now: int): Credential {
    match c.status
    case Active => c.(lockedUntil := None)
    case Locked => if LockExpired(c, now) then Unlock(c) else c.(failedLoginAttempts := 0)
    case Banned => c.(failedLoginAttempts := 0, lockedUntil := None)
    case Deleted => c.(failedLoginAttempts := 0, lockedUntil := None)
  }

  ghost predicate SameAccounts(a: Credentials, b: Credentials, now: int) {
    a.Keys == b.Keys && forall id | id in a :: Seen(a[id], now) == Seen(b[id], now)
  }

  /** Two states nobody can tell apart from `now` on. */
  ghost predicate Alike(a: State, b: State, now: int) {
    && SameAccounts(a.credentials, b.credentials, now)
    && a.refreshTokens == b.refreshTokens
    && a.resetTokens == b.resetTokens
    && a.uuids == b.uuids
  }

  lemma SeenLater(c: Credential, now: int, later: int)
    requires now <= later
    ensures Seen(Seen(c, now), later) == Seen(c, later)
  {
  }

  lemma AlikeLater(a: State, b: State, now: int, later: int)
    requires Alike(a, b, now) && now <= later
    ensures Alike(a, b, later)
  {
    forall id | id in a.credentials
      ensures Seen(a.credentials[id], later) == Seen(b.credentials[id], later)
    {
      SeenLater(a.credentials[id], now, later);
      SeenLater(b.credentials[id], now, later);
    }
  }

  /** The job turns a state into one that is alike. */
  lemma JobIsUnseen(s: State, now: int)
    ensures Alike(s.(credentials := UnlockExpired(s.credentials, now)), s, now)
  {
  }

  lemma SameEmails(a: State, b: State, now: int, email: string)
    requires Alike(a, b, now)
    ensures FindByEmail(a, email) == FindByEmail(b, email)
  {
    forall id | id in a.credentials
      ensures a.credentials[id].email == b.credentials[id].email
    {
      assert Seen(a.credentials[id], now).email == Seen(b.credentials[id], now).email;
    }
    assert Emails(a.credentials) == Emails(b.credentials);
  }

  lemma AlikePut(a: State, b: State, now: int, userId: Uuid, c: Credential, d: Credential)
    requires Alike(a, b, now) && Seen(c, now) == Seen(d, now)
    ensures Alike(Put(a, userId, c), Put(b, userId, d), now)
  {
  }

  lemma AlikeRevoke(a: State, b: State, userId: Uuid, now: int)
    requires Alike(a, b, now)
    ensures Alike(RevokeTokens(a, userId, now), RevokeTokens(b, userId, now), now)
  {
  }

  lemma AlikeOpen(cfg: Config, a: State, b: State, userId: Uuid, now: int, evicted: set<Uuid>)
    requires Alike(a, b, now)
    ensures SameOutcome(OpenSession(cfg, a, userId, now, evicted), OpenSession(cfg, b, userId, now, evicted), now)
  {
  }

  /** Records that look the same pass the gate together, and fare alike at the password. */
  lemma GateAlike(cfg: Config, c: Credential, d: Credential, now: int)
    requires Seen(c, now) == Seen(d, now)
    ensures match (Admit(c, now), Admit(d, now))
            case (Proceed(c'), Proceed(d')) =>
              && Seen(RightPassword(c'), now) == Seen(RightPassword(d'), now)
              && Seen(WrongPassword(cfg, c', now), now) == Seen(WrongPassword(cfg, d', now), now)
              && LocksOut(cfg, c') == LocksOut(cfg, d')
            case (g, h) => g == h
  {
  }

  ghost predicate SameOutcome(p: Outcome, q: Outcome, now: int) {
    p.reply == q.reply && Alike(p.state, q.state, now)
  }

  lemma LoginAlike(cfg: Config, a: State, b: State, now: int, op: Op)
    requires op.Login? && Alike(a, b, now)
    ensures SameOutcome(Apply(cfg, a, now, op), Apply(cfg, b, now, op), now)
  {
    SameEmails(a, b, now, op.email);
    var found := FindByEmail(a, op.email);
    if found.Some? {
      var c, d := a.credentials[found.value], b.credentials[found.value];
      assert Seen(c, now) == Seen(d, now);
      var g, h := Admit(c, now), Admit(d, now);
      GateAlike(cfg, c, d, now);
      hide Alike, Seen, FindByEmail, Admit;
      if g.Proceed? {
        if op.passwordOk {
          var c', d' := RightPassword(g.account), RightPassword(h.account);
          AlikePut(a, b, now, found.value, c', d');
          AlikeOpen(cfg, Put(a, found.value, c'), Put(b, found.value, d'), found.value, now, op.evicted);
        } else {
          var c', d' := WrongPassword(cfg, g.account, now), WrongPassword(cfg, h.account, now);
          AlikePut(a, b, now, found.value, c', d');
          AlikeRevoke(Put(a, found.value, c'), Put(b, found.value, d'), found.value, now);
        }
      }
    }
  }

  /** The writes of the administrators, on records that look the same. */
  lemma WritesAlike(c: Credential, d: Credential, now: int, until: Option<int>)
    requires Seen(c, now) == Seen(d, now)
    ensures Seen(Lock(c, until), now) == Seen(Lock(d, until), now)
    ensures Seen(Unlock(c), now) == Seen(Unlock(d), now)
    ensures Seen(c.(status := Banned), now) == Seen(d.(status := Banned), now)
    ensures c.roles == d.roles
  {
  }

  lemma AdminAlike(cfg: Config, a: State, b: State, now: int, op: Op)
    requires op.AdminLock? || op.AdminUnlock? || op.Ban?
    requires Alike(a, b, now)
    ensures SameOutcome(Apply(cfg, a, now, op), Apply(cfg, b, now, op), now)
  {
    assert op.userId in a.credentials <==> op.userId in b.credentials;
    if op.userId in a.credentials {
      var userId, until := op.userId, if op.AdminLock? then LockEnd(op.minutes, now) else None;
      var c, d := a.credentials[userId], b.credentials[userId];
      WritesAlike(c, d, now, until);
      hide Alike, Seen, RevokeTokens, Put;
      PutRevokeAlike(a, b, now, userId, Lock(c, until), Lock(d, until));
      AlikePut(a, b, now, userId, Unlock(c), Unlock(d));
      PutRevokeAlike(a, b, now, userId, c.(status := Banned), d.(status := Banned));
    }
  }

  lemma RoleOpsAlike(cfg: Config, a: State, b: State, now: int, op: Op)
    requires op.AssignRole? || op.RevokeRole?
    requires Alike(a, b, now)
    ensures SameOutcome(Apply(cfg, a, now, op), Apply(cfg, b, now, op), now)
  {
    assert op.userId in a.credentials <==> op.userId in b.credentials;
    if op.userId in a.credentials {
      var roles := a.credentials[op.userId].roles;
      WritesAlike(a.credentials[op.userId], b.credentials[op.userId], now, None);
      hide Alike, DoSetRoles;
      RolesAlike(a, b, now, op.userId, roles + [op.role]);
      RolesAlike(a, b, now, op.userId, WithoutRole(roles, op.role));
    }
  }

  lemma PutRevokeAlike(a: State, b: State, now: int, userId: Uuid, c: Credential, d: Credential)
    requires Alike(a, b, now) && Seen(c, now) == Seen(d, now)
    ensures Alike(RevokeTokens(Put(a, userId, c), userId, now), RevokeTokens(Put(b, userId, d), userId, now), now)
  {
    hide Alike, Seen;
    AlikePut(a, b, now, userId, c, d);
    AlikeRevoke(Put(a, userId, c), Put(b, userId, d), userId, now);
  }

  lemma RolesAlike(a: State, b: State, now: int, userId: Uuid, roles: seq<string>)
    requires Alike(a, b, now) && userId in a.credentials && userId in b.credentials
    ensures SameOutcome(DoSetRoles(a, now, userId, roles), DoSetRoles(b, now, userId, roles), now)
  {
    var c, d := a.credentials[userId], b.credentials[userId];
    assert Seen(c, now) == Seen(d, now);
    PutRevokeAlike(a, b, now, userId, c.(roles := roles), d.(roles := roles));
  }

  lemma RegisterAlike(cfg: Config, a: State, b: State, now: int, op: Op)
    requires op.Register? && Alike(a, b, now)
    ensures SameOutcome(Apply(cfg, a, now, op), Apply(cfg, b, now, op), now)
  {
    SameEmails(a, b, now, op.email);
    EnrolAlike(a, b, now, op.email, op.passwordHash);
    assert a.uuids == b.uuids;
    hide FindByEmail, Alike, OpenSession;
    AlikeOpen(cfg, Enrol(a, op.email, op.passwordHash), Enrol(b, op.email, op.passwordHash), a.uuids, now, op.evicted);
  }

  lemma EnrolAlike(a: State, b: State, now: int, email: string, passwordHash: string)
    requires Alike(a, b, now)
    ensures Alike(Enrol(a, email, passwordHash), Enrol(b, email, passwordHash), now)
  {
    var c := Credential(email, passwordHash, Active, ["USER"], 0, None);
    AlikePut(a, b, now, a.uuids, c, c);
    hide Seen;
  }

  lemma ResetAlike(a: State, b: State, now: int, op: Op)
    requires op.ResetPassword? && Alike(a, b, now)
    ensures SameOutcome(DoResetPassword(a, now, op.raw, op.newHash), DoResetPassword(b, now, op.raw, op.newHash), now)
  {
    var found := FindReset(a, op.raw);
    if found.Some? && a.resetTokens[found.value].userId in a.credentials {
      var userId := a.resetTokens[found.value].userId;
      var c, d := a.credentials[userId], b.credentials[userId];
      assert Seen(c, now) == Seen(d, now);
      AlikePut(a, b, now, userId, c.(passwordHash := op.newHash), d.(passwordHash := op.newHash));
    }
    hide Seen, FindReset;
  }

  lemma ValidateAlike(a: State, b: State, now: int, userId: Uuid)
    requires Alike(a, b, now)
    ensures DoValidate(a, now, userId).reply == DoValidate(b, now, userId).reply
  {
    if userId in a.credentials {
      StandingAlike(a.credentials[userId], b.credentials[userId], now);
    }
    hide Standing, Seen;
  }

  lemma StandingAlike(c: Credential, d: Credential, now: int)
    requires Seen(c, now) == Seen(d, now)
    ensures Standing(c, now) == Standing(d, now)
  {
  }

  lemma TableAlike(cfg: Config, a: State, b: State, now: int, op: Op)
    requires Alike(a, b, now)
    requires op.Refresh? || op.Logout? || op.RevokeSession? || op.RevokeAllTokens? || op.DeleteCredentials?
             || op.RefreshCleanupJob? || op.ResetCleanupJob?
    ensures SameOutcome(Apply(cfg, a, now, op), Apply(cfg, b, now, op), now)
  {
    hide Seen;
  }

  lemma ForgotAlike(cfg: Config, a: State, b: State, now: int, email: string)
    requires Alike(a, b, now)
    ensures SameOutcome(DoForgotPassword(cfg, a, now, email), DoForgotPassword(cfg, b, now, email), now)
  {
    SameEmails(a, b, now, email);
    hide Seen, FindByEmail;
  }

  lemma UnlockAlike(a: State, b: State, now: int)
    requires Alike(a, b, now)
    ensures Alike(a.(credentials := UnlockExpired(a.credentials, now)),
                  b.(credentials := UnlockExpired(b.credentials, now)), now)
  {
    JobIsUnseen(a, now);
    JobIsUnseen(b, now);
    hide Seen;
  }

  /** Every operation answers alike in states that are alike, and leaves them alike. */
  lemma StepAlike(cfg: Config, a: State, b: State, now: int, op: Op)
    requires Alike(a, b, now)
    ensures SameOutcome(Apply(cfg, a, now, op), Apply(cfg, b, now, op), now)
  {
    hide Alike, Seen;
    match op
    case Register(_, _, _) => RegisterAlike(cfg, a, b, now, op);
    case Login(_, _, _) => LoginAlike(cfg, a, b, now, op);
    case ForgotPassword(email) => ForgotAlike(cfg, a, b, now, email);
    case ResetPassword(_, _) => ResetAlike(a, b, now, op);
    case Validate(userId) => ValidateAlike(a, b, now, userId);
    case UnlockJob => UnlockAlike(a, b, now);
    case AdminLock(_, _) => AdminAlike(cfg, a, b, now, op);
    case AdminUnlock(_) => AdminAlike(cfg, a, b, now, op);
    case Ban(_) => AdminAlike(cfg, a, b, now, op);
    case AssignRole(_, _, _) => RoleOpsAlike(cfg, a, b, now, op);
    case RevokeRole(_, _) => RoleOpsAlike(cfg, a, b, now, op);
    case _ => TableAlike(cfg, a, b, now, op);
  }

  // ---------- Runs with and without the job ----------

  /** The answers to everything but the job's own ticks. */
  ghost function Replies(cfg: Config, s: State, run: seq<Entry>): seq<Reply>
    decreases run
  {
    if run == [] then []
    else
      var o := Apply(cfg, s, run[0].now, run[0].op);
      (if run[0].op.UnlockJob? then [] else [o.reply]) + Replies(cfg, o.state, run[1..])
  }

  ghost function Final(cfg: Config, s: State, run: seq<Entry>): State
    decreases run
  {
    if run == [] then s else Final(cfg, Apply(cfg, s, run[0].now, run[0].op).state, run[1..])
  }

  function WithoutJob(run: seq<Entry>): seq<Entry> {
    if run == [] then []
    else (if run[0].op.UnlockJob? then [] else [run[0]]) + WithoutJob(run[1..])
  }

  lemma {:induction false} AlikeRuns(cfg: Config, a: State, b: State, run: seq<Entry>, now: int, end: int)
    requires Alike(a, b, now) && Ordered(run) && now <= end
    requires forall i | 0 <= i < |run| :: now <= run[i].now <= end
    ensures Replies(cfg, a, run) == Replies(cfg, b, WithoutJob(run))
    ensures Alike(Final(cfg, a, run), Final(cfg, b, WithoutJob(run)), end)
    decreases run
  {
    hide Alike, Apply;
    if run == [] {
      AlikeLater(a, b, now, end);
    } else {
      var time, op, rest := run[0].now, run[0].op, run[1..];
      AlikeLater(a, b, now, time);
      var a' := Apply(cfg, a, time, op).state;
      if op.UnlockJob? {
        JobStep(cfg, a, b, time);
        assert WithoutJob(run) == WithoutJob(rest);
        assert Replies(cfg, a, run) == Replies(cfg, a', rest);
        AlikeRuns(cfg, a', b, rest, time, end);
      } else {
        StepAlike(cfg, a, b, time, op);
        AlikeRuns(cfg, a', Apply(cfg, b, time, op).state, rest, time, end);
        var kept := WithoutJob(run);
        assert kept == [run[0]] + WithoutJob(rest) && kept[1..] == WithoutJob(rest);
      }
    }
  }

  lemma JobStep(cfg: Config, a: State, b: State, now: int)
    requires Alike(a, b, now)
    ensures Alike(Apply(cfg, a, now, UnlockJob).state, b, now)
  {
    JobIsUnseen(a, now);
    hide Seen;
  }

  /** Striking every tick of the unlock job from a run changes no answer. */
  lemma UnlockJobIsInvisible(cfg: Config, s: State, run: seq<Entry>)
    requires Ordered(run)
    ensures Replies(cfg, s, run) == Replies(cfg, s, WithoutJob(run))
  {
    if run != [] {
      AlikeRuns(cfg, s, s, run, run[0].now, run[|run| - 1].now);
    }
  }

  // ---------- The run without the ticks is a run ----------

  lemma AllowedAlike(cfg: Config, a: State, b: State, now: int, op: Op)
    requires Alike(a, b, now) && Allowed(cfg, a, now, op)
    ensures Allowed(cfg, b, now, op)
  {
    if op.Register? || op.Login? {
      SameEmails(a, b, now, op.email);
      var found := FindByEmail(a, op.email);
      if op.Login? && found.Some? {
        assert Seen(a.credentials[found.value], now) == Seen(b.credentials[found.value], now);
        GateAlike(cfg, a.credentials[found.value], b.credentials[found.value], now);
      }
    }
    hide FindByEmail, Admit, Seen;
  }

  lemma WithoutJobAppend(run: seq<Entry>, e: Entry)
    ensures WithoutJob(run + [e]) == WithoutJob(run) + (if e.op.UnlockJob? then [] else [e])
    decreases run
  {
    if run != [] {
      assert (run + [e])[0] == run[0] && (run + [e])[1..] == run[1..] + [e];
      WithoutJobAppend(run[1..], e);
    } else {
      assert run + [e] == [e] && [e][1..] == [];
    }
  }

  lemma {:induction false} WithoutJobOnlyDrops(run: seq<Entry>)
    ensures forall e | e in WithoutJob(run) :: e in run
    decreases run
  {
    if run != [] {
      WithoutJobOnlyDrops(run[1..]);
    }
  }

  /** Cutting a run short leaves a run. */
  lemma PrefixIsRun(cfg: Config, run: seq<Entry>, e: Entry)
    requires IsRun(cfg, run + [e])
    ensures IsRun(cfg, run) && AllowedAt(cfg, run + [e], |run|)
            && StateAt(cfg, run + [e], |run|) == StateAt(cfg, run, |run|)
    ensures forall x | x in run :: x.now <= e.now
  {
    hide Allowed, StateAt;
    var longer := run + [e];
    forall i | 0 <= i < |run|
      ensures AllowedAt(cfg, run, i)
    {
      assert AllowedAt(cfg, longer, i);
      PrefixState(cfg, run, e, i);
    }
    PrefixState(cfg, run, e, |run|);
    assert AllowedAt(cfg, longer, |run|) && longer[|run|] == e;
    assert forall i | 0 <= i < |run| :: run[i] == longer[i];
  }

  /** What is left after striking the ticks is a run again, and ends in a state that is alike. */
  lemma {:induction false} WithoutJobIsRun(cfg: Config, run: seq<Entry>)
    requires IsRun(cfg, run)
    ensures IsRun(cfg, WithoutJob(run))
    ensures run != [] ==>
              Alike(StateAt(cfg, run, |run|), StateAt(cfg, WithoutJob(run), |WithoutJob(run)|), run[|run| - 1].now)
    decreases |run|
  {
    hide IsRun, Alike, Allowed, Apply, StateAt, WithoutJob;
    if run != [] {
      var front, e := run[..|run| - 1], run[|run| - 1];
      assert run == front + [e];
      PrefixIsRun(cfg, front, e);
      WithoutJobIsRun(cfg, front);
      WithoutJobStep(cfg, front, e);
    } else {
      NothingToStrike(cfg, run);
    }
  }

  lemma NothingToStrike(cfg: Config, run: seq<Entry>)
    requires run == []
    ensures WithoutJob(run) == run
  {
  }

  lemma EmptyAlike(cfg: Config, now: int)
    ensures WithoutJob([]) == [] && StateAt(cfg, [], 0) == EMPTY && Alike(EMPTY, EMPTY, now)
  {
  }

  lemma WithoutJobStep(cfg: Config, front: seq<Entry>, e: Entry)
    requires IsRun(cfg, front + [e]) && IsRun(cfg, front) && IsRun(cfg, WithoutJob(front))
    requires front != [] ==>
               Alike(StateAt(cfg, front, |front|), StateAt(cfg, WithoutJob(front), |WithoutJob(front)|),
                     front[|front| - 1].now)
    ensures var kept := WithoutJob(front + [e]);
            IsRun(cfg, kept) && Alike(StateAt(cfg, front + [e], |front| + 1), StateAt(cfg, kept, |kept|), e.now)
  {
    hide IsRun, Alike, Allowed, Apply, StateAt, WithoutJob;
    var left := WithoutJob(front);
    var a, b := StateAt(cfg, front, |front|), StateAt(cfg, left, |left|);
    WithoutJobAppend(front, e);
    WithoutJobOnlyDrops(front);
    PrefixIsRun(cfg, front, e);
    NextState(cfg, front + [e], |front|);
    if front == [] {
      EmptyAlike(cfg, e.now);
    } else {
      assert front[|front| - 1] in front;
      AlikeLater(a, b, front[|front| - 1].now, e.now);
    }
    if e.op.UnlockJob? {
      JobStep(cfg, a, b, e.now);
      assert left + [] == left;
    } else {
      assert Allowed(cfg, a, e.now, e.op);
      AllowedAlike(cfg, a, b, e.now, e.op);
      StepAlike(cfg, a, b, e.now, e.op);
      assert left != [] ==> left[|left| - 1] in front;
      ExtendRun(cfg, left, e.now, e.op);
    }
  }
}
