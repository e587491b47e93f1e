/** Logins that overlap: one account's record, one statement of a login or of the unlock job at a
    time.

    A login reads the status once, compares the password later, and writes later still, without
    reading again; the job picks expired locks first and lifts them afterwards. Other requests may
    fall in between. Deleting the record is left out: no later statement finds it. */
module LoginOverlap {
  import opened Types
  import opened Accounts

  /** How far a login has come since its status check admitted it, or the job since it picked the
      record (`Sweeping`). */
  datatype Stage = Unlocking | Checking | Locking | Sweeping | Finished

  datatype World = World(account: Credential, calls: map<nat, Stage>)

  datatype Statement =
    | ReadStatus(call: nat)
    | LiftLock(call: nat)
    | CountFailure(call: nat)
    | ResetFailures(call: nat)
    | WriteLock(call: nat)
    | PickExpired(call: nat)
    | AdminLock(until: Option<int>)
    | AdminUnlock
    | Ban

  predicate At(w: World, c: nat, stage: Stage) {
    c in w.calls && w.calls[c] == stage
  }

  function Counted(c: Credential): Credential {
    c.(failedLoginAttempts := c.failedLoginAttempts + 1)
  }

  /** A statement out of turn does nothing. */
  function Step(cfg: Config, w: World, now: int, st: Statement): World {
    match st
    case ReadStatus(c) =>
      if c in w.calls || Admit(w.account, now).Refuse? then w
      else w.(calls := w.calls[c := if w.account.status == Locked then Unlocking else Checking])
    case LiftLock(c) =>
      if At(w, c, Unlocking) then World(Unlock(w.account), w.calls[c := Checking])
      else if At(w, c, Sweeping) then World(Unlock(w.account), w.calls[c := Finished])
      else w
    case CountFailure(c) =>
      if At(w, c, Checking) then
        World(Counted(w.account), w.calls[c := if LocksOut(cfg, w.account) then Locking else Finished])
      else w
    case ResetFailures(c) =>
      if At(w, c, Checking) then World(RightPassword(w.account), w.calls[c := Finished]) else w
    case WriteLock(c) =>
      if At(w, c, Locking) then World(Lock(w.account, Some(now + cfg.lockout)), w.calls[c := Finished]) else w
    case PickExpired(c) =>
      if c in w.calls || !JobUnlocks(w.account, now) then w else w.(calls := w.calls[c := Sweeping])
    case AdminLock(until) => w.(account := Lock(w.account, until))
    case AdminUnlock => w.(account := Unlock(w.account))
    case Ban => w.(account := w.account.(status := Banned))
  }

  datatype Timed = Timed(now: int, statement: Statement)

  function WorldAt(cfg: Config, start: World, run: seq<Timed>, i: nat): World
    requires i <= |run|
  {
    if i == 0 then start else Step(cfg, WorldAt(cfg, start, run, i - 1), run[i - 1].now, run[i - 1].statement)
  }

  lemma WorldNext(cfg: Config, start: World, run: seq<Timed>, i: nat)
    requires i < |run|
    ensures WorldAt(cfg, start, run, i + 1) == Step(cfg, WorldAt(cfg, start, run, i), run[i].now, run[i].statement)
  {
  }

  // ---------- A login nobody interrupts ----------

  /** All statements of one login at one time; those that are not its turn do nothing. */
  function Uninterrupted(cfg: Config, w: World, now: int, c: nat, passwordOk: bool): World {
    var admitted := Step(cfg, Step(cfg, w, now, ReadStatus(c)), now, LiftLock(c));
    if passwordOk then Step(cfg, admitted, now, ResetFailures(c))
    else Step(cfg, Step(cfg, admitted, now, CountFailure(c)), now, WriteLock(c))
  }

  /** The statements of one login, run one after the other, do to the record what the state machine's
      single step does. */
  lemma UninterruptedIsLogin(cfg: Config, w: World, now: int, c: nat, passwordOk: bool)
    requires c !in w.calls
    ensures var after, gate := Uninterrupted(cfg, w, now, c, passwordOk), Admit(w.account, now);
            if gate.Refuse? then after == w
            else
              && after.account
                 == (if passwordOk then RightPassword(gate.account) else WrongPassword(cfg, gate.account, now))
              && At(after, c, Finished)
  {
  }

  // ---------- When a ban holds ----------

  predicate ByAdmin(st: Statement) {
    st.AdminLock? || st.AdminUnlock?
  }

  /** The statement writes a status on behalf of a call that has its turn. */
  predicate Writes(w: World, st: Statement) {
    || (st.LiftLock? && (At(w, st.call, Unlocking) || At(w, st.call, Sweeping)))
    || (st.WriteLock? && At(w, st.call, Locking))
  }

  /** Statement `m` writes a status for a login, or a job, that had read the record by `i`. */
  predicate Overwrites(cfg: Config, start: World, run: seq<Timed>, i: nat, m: nat)
    requires i <= m < |run|
  {
    var st := run[m].statement;
    Writes(WorldAt(cfg, start, run, m), st) && st.call in WorldAt(cfg, start, run, i).calls
  }

  predicate BannedAt(cfg: Config, start: World, run: seq<Timed>, k: nat)
    requires k <= |run|
  {
    WorldAt(cfg, start, run, k).account.status == Banned
  }

  predicate BannedThroughout(cfg: Config, start: World, run: seq<Timed>, i: nat, j: nat)
    requires i <= j <= |run|
  {
    forall k | i <= k <= j :: BannedAt(cfg, start, run, k)
  }

  predicate NothingLifts(cfg: Config, start: World, run: seq<Timed>, i: nat, j: nat)
    requires i <= j <= |run|
  {
    forall m | i <= m < j :: !ByAdmin(run[m].statement) && !Overwrites(cfg, start, run, i, m)
  }

  /** One statement ends a ban exactly if an administrator lifts it or a pending status is written;
      and while a ban holds no login and no job begins. */
  lemma BanStep(cfg: Config, w: World, now: int, st: Statement)
    requires w.account.status == Banned
    ensures var w' := Step(cfg, w, now, st);
            && (w'.account.status == Banned <==> !ByAdmin(st) && !Writes(w, st))
            && w'.calls.Keys == w.calls.Keys
  {
  }

  lemma {:induction false} NobodyBegins(cfg: Config, start: World, run: seq<Timed>, i: nat, k: nat)
    requires i <= k <= |run| && BannedThroughout(cfg, start, run, i, k)
    ensures WorldAt(cfg, start, run, k).calls.Keys == WorldAt(cfg, start, run, i).calls.Keys
  {
    hide Step, WorldAt;
    if i < k {
      assert BannedAt(cfg, start, run, k - 1);
      NobodyBegins(cfg, start, run, i, k - 1);
      WorldNext(cfg, start, run, k - 1);
      BanStep(cfg, WorldAt(cfg, start, run, k - 1), run[k - 1].now, run[k - 1].statement);
    }
  }

  /** From a moment at which the account is banned it stays banned if and only if no administrator
      locks or unlocks it, and no login or job that had read the record before writes its status. */
  lemma {:induction false} BanHoldsIff(cfg: Config, start: World, run: seq<Timed>, i: nat, j: nat)
    requires i <= j <= |run| && BannedAt(cfg, start, run, i)
    ensures BannedThroughout(cfg, start, run, i, j) <==> NothingLifts(cfg, start, run, i, j)
  {
    hide Step, WorldAt, Writes, ByAdmin, BannedThroughout, NothingLifts;
    if i < j {
      BanHoldsIff(cfg, start, run, i, j - 1);
      UpToLast(cfg, start, run, i, j);
      if BannedThroughout(cfg, start, run, i, j - 1) {
        LastIsBanned(cfg, start, run, i, j - 1);
        NobodyBegins(cfg, start, run, i, j - 1);
        WorldNext(cfg, start, run, j - 1);
        BanStep(cfg, WorldAt(cfg, start, run, j - 1), run[j - 1].now, run[j - 1].statement);
        OnlyCallsWrite(WorldAt(cfg, start, run, j - 1), run[j - 1].statement);
      }
    } else {
      NothingYet(cfg, start, run, i);
    }
  }

  lemma OnlyCallsWrite(w: World, st: Statement)
    ensures Writes(w, st) ==> (st.LiftLock? || st.WriteLock?) && st.call in w.calls
  {
  }

  lemma UpToLast(cfg: Config, start: World, run: seq<Timed>, i: nat, j: nat)
    requires i < j <= |run|
    ensures BannedThroughout(cfg, start, run, i, j)
       <==> BannedThroughout(cfg, start, run, i, j - 1) && BannedAt(cfg, start, run, j)
    ensures NothingLifts(cfg, start, run, i, j)
       <==> NothingLifts(cfg, start, run, i, j - 1) && !ByAdmin(run[j - 1].statement)
            && !Overwrites(cfg, start, run, i, j - 1)
  {
    hide BannedAt, Overwrites, ByAdmin;
  }

  lemma LastIsBanned(cfg: Config, start: World, run: seq<Timed>, i: nat, j: nat)
    requires i <= j <= |run| && BannedThroughout(cfg, start, run, i, j)
    ensures BannedAt(cfg, start, run, j)
  {
  }

  lemma NothingYet(cfg: Config, start: World, run: seq<Timed>, i: nat)
    requires i <= |run| && BannedAt(cfg, start, run, i)
    ensures BannedThroughout(cfg, start, run, i, i) && NothingLifts(cfg, start, run, i, i)
  {
  }

  lemma WorldAfterThree(cfg: Config, start: World, run: seq<Timed>)
    requires |run| >= 3
    ensures WorldAt(cfg, start, run, 2)
         == Step(cfg, Step(cfg, start, run[0].now, run[0].statement), run[1].now, run[1].statement)
    ensures WorldAt(cfg, start, run, 3) == Step(cfg, WorldAt(cfg, start, run, 2), run[2].now, run[2].statement)
  {
    hide Step;
    WorldNext(cfg, start, run, 0);
    WorldNext(cfg, start, run, 1);
    WorldNext(cfg, start, run, 2);
  }

  /** Both kinds of login occur: one that brings the count to the maximum and writes its lock over
      the ban, and one that read an expired lock and lifts it over the ban. */
  lemma PendingWritesLiftBans(cfg: Config, c: Credential, now: int)
    requires cfg.Valid()
    ensures var start := World(c.(status := Active, failedLoginAttempts := cfg.maxAttempts - 1), map[]);
            var run := [Timed(now, ReadStatus(0)), Timed(now, CountFailure(0)), Timed(now, Ban),
                        Timed(now, WriteLock(0))];
            BannedAt(cfg, start, run, 3) && WorldAt(cfg, start, run, 4).account.status == Locked
    ensures var start := World(c.(status := Locked, lockedUntil := Some(now)), map[]);
            var run := [Timed(now, ReadStatus(0)), Timed(now, Ban), Timed(now, LiftLock(0))];
            BannedAt(cfg, start, run, 2) && WorldAt(cfg, start, run, 3).account.status == Active
  {
    var start := World(c.(status := Active, failedLoginAttempts := cfg.maxAttempts - 1), map[]);
    var run := [Timed(now, ReadStatus(0)), Timed(now, CountFailure(0)), Timed(now, Ban), Timed(now, WriteLock(0))];
    WorldAfterThree(cfg, start, run);
    WorldNext(cfg, start, run, 3);
    var start' := World(c.(status := Locked, lockedUntil := Some(now)), map[]);
    WorldAfterThree(cfg, start', [Timed(now, ReadStatus(0)), Timed(now, Ban), Timed(now, LiftLock(0))]);
    hide WorldAt;
  }

  // ---------- Password checks while a lock holds ----------

  predicate LockHolds(c: Credential, now: int) {
    c.status == Locked && !LockExpired(c, now)
  }

  predicate LockHoldsAt(cfg: Config, start: World, run: seq<Timed>, k: nat)
    requires k < |run|
  {
    LockHolds(WorldAt(cfg, start, run, k).account, run[k].now)
  }

  /** The logins that have been admitted and whose password is still to be compared. */
  function Pending(w: World): set<nat> {
    set c | c in w.calls && (w.calls[c] == Unlocking || w.calls[c] == Checking)
  }

  predicate FailsAt(cfg: Config, start: World, run: seq<Timed>, k: nat)
    requires k < |run|
  {
    run[k].statement.CountFailure? && At(WorldAt(cfg, start, run, k), run[k].statement.call, Checking)
  }

  function FailedChecks(cfg: Config, start: World, run: seq<Timed>, i: nat, j: nat): nat
    requires i <= j <= |run|
    decreases j
  {
    if i == j then 0
    else FailedChecks(cfg, start, run, i, j - 1) + (if FailsAt(cfg, start, run, j - 1) then 1 else 0)
  }

  predicate EndsACheck(w: World, st: Statement) {
    (st.CountFailure? || st.ResetFailures?) && At(w, st.call, Checking)
  }

  /** While the lock holds nobody is admitted, and every comparison ends one pending login. */
  lemma PendingStep(cfg: Config, w: World, now: int, st: Statement)
    requires LockHolds(w.account, now)
    ensures Pending(Step(cfg, w, now, st)) == Pending(w) - (if EndsACheck(w, st) then {st.call} else {})
    ensures EndsACheck(w, st) ==> st.call in Pending(w)
  {
    hide WrongPassword, Counted, RightPassword;
  }

  /** While a lock holds, logins that were admitted before it add at most one failed check each. */
  lemma {:induction false} ChecksWhileLocked(cfg: Config, start: World, run: seq<Timed>, i: nat, j: nat)
    requires i <= j <= |run| && forall k | i <= k < j :: LockHoldsAt(cfg, start, run, k)
    ensures FailedChecks(cfg, start, run, i, j) + |Pending(WorldAt(cfg, start, run, j))|
            <= |Pending(WorldAt(cfg, start, run, i))|
    decreases j
  {
    hide Step, WorldAt, LockHolds, Pending;
    if i < j {
      assert LockHoldsAt(cfg, start, run, j - 1);
      ChecksWhileLocked(cfg, start, run, i, j - 1);
      WorldNext(cfg, start, run, j - 1);
      PendingStep(cfg, WorldAt(cfg, start, run, j - 1), run[j - 1].now, run[j - 1].statement);
    }
  }

  function FailAll(ids: seq<nat>, now: int): seq<Timed> {
    if ids == [] then [] else FailAll(ids[..|ids| - 1], now) + [Timed(now, CountFailure(ids[|ids| - 1]))]
  }

  lemma {:induction false} FailAllAt(ids: seq<nat>, now: int)
    ensures |FailAll(ids, now)| == |ids|
    ensures forall k | 0 <= k < |ids| :: FailAll(ids, now)[k] == Timed(now, CountFailure(ids[k]))
  {
    if ids != [] {
      FailAllAt(ids[..|ids| - 1], now);
    }
  }

  /** The calls not yet failed stand where they stood, and the lock with them. */
  lemma {:induction false} FailingLeaves(cfg: Config, w: World, ids: seq<nat>, now: int, i: nat)
    requires i <= |ids| && LockHolds(w.account, now)
    requires forall k | 0 <= k < |ids| :: At(w, ids[k], Checking)
    requires forall a, b | 0 <= a < b < |ids| :: ids[a] != ids[b]
    ensures |FailAll(ids, now)| == |ids|
    ensures var w' := WorldAt(cfg, w, FailAll(ids, now), i);
            LockHolds(w'.account, now) && forall k | i <= k < |ids| :: At(w', ids[k], Checking)
    decreases i
  {
    FailAllAt(ids, now);
    if i > 0 {
      FailingLeaves(cfg, w, ids, now, i - 1);
      WorldNext(cfg, w, FailAll(ids, now), i - 1);
      hide WorldAt, FailAll;
    }
  }

  /** And they can add that many: if every login that is about to compare a password fails, each of
      them counts, and the lock holds throughout. */
  lemma {:induction false} ChecksWhileLockedAreReached(cfg: Config, w: World, ids: seq<nat>, now: int, n: nat)
    requires n <= |ids| && LockHolds(w.account, now)
    requires forall k | 0 <= k < |ids| :: At(w, ids[k], Checking)
    requires forall a, b | 0 <= a < b < |ids| :: ids[a] != ids[b]
    ensures |FailAll(ids, now)| == |ids|
    ensures FailedChecks(cfg, w, FailAll(ids, now), 0, n) == n
    ensures forall k | 0 <= k < n :: LockHoldsAt(cfg, w, FailAll(ids, now), k)
    decreases n
  {
    FailAllAt(ids, now);
    hide WorldAt, FailAll, LockHolds;
    if n > 0 {
      ChecksWhileLockedAreReached(cfg, w, ids, now, n - 1);
      FailingLeaves(cfg, w, ids, now, n - 1);
      assert FailsAt(cfg, w, FailAll(ids, now), n - 1);
    }
  }
}
