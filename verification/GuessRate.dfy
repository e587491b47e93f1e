/** The bound on password guesses is exact: somebody who tries as often as the lockout allows
    reaches it, under any settings and for any number of lockout periods. */
module GuessRate {
  import opened Types
  import opened Tables
  import opened Accounts
  import opened Machine
  import opened Invariants
  import opened Boundaries
  import opened Lockout

  function Guess(now: int): Entry {
    At(now, Login(USER.email, false, {}))
  }

  /** Register, make a full set of wrong guesses at the start of each of `period` lockout periods,
      and `n` more at the start of the next. */
  function Guesses(cfg: Config, period: nat, n: nat): seq<Entry>
    decreases period, n
  {
    if n > 0 then Guesses(cfg, period, n - 1) + [Guess(period * cfg.lockout)]
    else if period > 0 then Guesses(cfg, period - 1, cfg.maxAttempts)
    else [At(0, Register(USER.email, USER.passwordHash, {}))]
  }

  /** The account after that. */
  function Guessed(cfg: Config, period: nat, n: nat): Credential {
    if n == 0 then
      if period == 0 then USER else Lock(USER.(failedLoginAttempts := cfg.maxAttempts), Some(period * cfg.lockout))
    else if n < cfg.maxAttempts then USER.(failedLoginAttempts := n)
    else Lock(USER.(failedLoginAttempts := cfg.maxAttempts), Some(period * cfg.lockout + cfg.lockout))
  }

  lemma NextPeriod(cfg: Config, period: nat)
    requires cfg.Valid() && period > 0
    ensures Guessed(cfg, period, 0) == Guessed(cfg, period - 1, cfg.maxAttempts)
    ensures (period - 1) * cfg.lockout <= period * cfg.lockout
  {
    assert period * cfg.lockout == (period - 1) * cfg.lockout + cfg.lockout;
  }

  lemma GuessStep(cfg: Config, s: State, period: nat, n: nat)
    requires cfg.Valid() && n < cfg.maxAttempts && s.credentials == map[0 := Guessed(cfg, period, n)]
    ensures var e := Guess(period * cfg.lockout);
            && Allowed(cfg, s, e.now, e.op) && FailedCheck(s, e.now, e.op, 0) && !Intervenes(s, e.now, e.op, 0)
            && Apply(cfg, s, e.now, e.op).state.credentials == map[0 := Guessed(cfg, period, n + 1)]
  {
    assert Emails(s.credentials)[0] == USER.email;
    assert FindByEmail(s, USER.email) == Some(0);
    hide FindByEmail, RevokeAllOf;
  }

  lemma {:induction false} FailedChecksLonger(cfg: Config, run: seq<Entry>, e: Entry, userId: Uuid, i: nat, j: nat)
    requires i <= j <= |run|
    ensures FailedChecks(cfg, run + [e], userId, i, j) == FailedChecks(cfg, run, userId, i, j)
    decreases j
  {
    hide StateAt, FailedCheck;
    if i < j {
      FailedChecksLonger(cfg, run, e, userId, i, j - 1);
      PrefixState(cfg, run, e, j - 1);
    }
  }

  lemma UndisturbedLonger(cfg: Config, run: seq<Entry>, e: Entry, userId: Uuid)
    requires |run| > 0 && Undisturbed(cfg, run, userId, 1, |run|)
    requires !Intervenes(StateAt(cfg, run, |run|), e.now, e.op, userId)
    ensures Undisturbed(cfg, run + [e], userId, 1, |run| + 1)
  {
    hide StateAt, Intervenes;
    forall k | 1 <= k < |run| + 1
      ensures !IntervenesAt(cfg, run + [e], userId, k)
    {
      assert k < |run| ==> !IntervenesAt(cfg, run, userId, k);
      PrefixState(cfg, run, e, k);
    }
  }

  /** Every guess counts, and nothing else happens. */
  ghost predicate AllCount(cfg: Config, run: seq<Entry>, c: Credential, checks: nat, latest: int) {
    && IsRun(cfg, run) && |run| == checks + 1
    && StateAt(cfg, run, |run|).credentials == map[0 := c]
    && FailedChecks(cfg, run, 0, 1, |run|) == checks
    && Undisturbed(cfg, run, 0, 1, |run|)
    && run[|run| - 1].now <= latest
  }

  lemma OneMoreGuess(cfg: Config, run: seq<Entry>, checks: nat, period: nat, n: nat)
    requires cfg.Valid() && n < cfg.maxAttempts
             && AllCount(cfg, run, Guessed(cfg, period, n), checks, period * cfg.lockout)
    ensures AllCount(cfg, run + [Guess(period * cfg.lockout)], Guessed(cfg, period, n + 1),
                     checks + 1, period * cfg.lockout)
  {
    hide Apply, Allowed, StateAt, Intervenes, FailedCheck, Guessed, IsRun, Undisturbed;
    var e := Guess(period * cfg.lockout);
    GuessStep(cfg, StateAt(cfg, run, |run|), period, n);
    ExtendRun(cfg, run, e.now, e.op);
    FailedChecksLonger(cfg, run, e, 0, 1, |run|);
    UndisturbedLonger(cfg, run, e, 0);
    PrefixState(cfg, run, e, |run|);
  }

  lemma FirstGuess(cfg: Config)
    requires cfg.Valid()
    ensures AllCount(cfg, Guesses(cfg, 0, 0), USER, 0, 0)
  {
    FirstCrowd(cfg);
    assert Guesses(cfg, 0, 0) == Crowding(cfg, 0);
    assert StateAt(cfg, Crowding(cfg, 0), 1) == Registered(cfg);
  }

  lemma {:induction false} AllGuessesCount(cfg: Config, period: nat, n: nat)
    requires cfg.Valid() && n <= cfg.maxAttempts
    ensures AllCount(cfg, Guesses(cfg, period, n), Guessed(cfg, period, n),
                     cfg.maxAttempts * period + n, period * cfg.lockout)
    decreases period, n
  {
    hide AllCount;
    if n > 0 {
      AllGuessesCount(cfg, period, n - 1);
      OneMoreGuess(cfg, Guesses(cfg, period, n - 1), cfg.maxAttempts * period + n - 1, period, n - 1);
    } else if period > 0 {
      AllGuessesCount(cfg, period - 1, cfg.maxAttempts);
      NextPeriod(cfg, period);
      assert cfg.maxAttempts * (period - 1) + cfg.maxAttempts == cfg.maxAttempts * period;
      LaterIsFine(cfg, Guesses(cfg, period, 0), Guessed(cfg, period, 0), cfg.maxAttempts * period,
                  (period - 1) * cfg.lockout, period * cfg.lockout);
    } else {
      FirstGuess(cfg);
    }
  }

  lemma LaterIsFine(cfg: Config, run: seq<Entry>, c: Credential, checks: nat, latest: int, later: int)
    requires AllCount(cfg, run, c, checks, latest) && latest <= later
    ensures AllCount(cfg, run, c, checks, later)
  {
  }

  /** The first guess is made at time 0. */
  lemma {:induction false} FirstAtZero(cfg: Config, period: nat, n: nat)
    requires cfg.Valid() && (n > 0 || period > 0)
    ensures |Guesses(cfg, period, n)| > 1 && Guesses(cfg, period, n)[1] == Guess(0)
    decreases period, n
  {
    if period == 0 && n == 1 {
      assert Guesses(cfg, 0, 0) == [At(0, Register(USER.email, USER.passwordHash, {}))];
    } else if n > 0 {
      FirstAtZero(cfg, period, n - 1);
    } else {
      FirstAtZero(cfg, period - 1, cfg.maxAttempts);
    }
  }

  /** The bound of `GuessRateBound` is reached, however many lockout periods the stretch lasts. */
  lemma GuessRateIsReached(cfg: Config, periods: nat)
    requires cfg.Valid()
    ensures var run := Guesses(cfg, periods, cfg.maxAttempts);
            && IsRun(cfg, run) && |run| > 1 && Undisturbed(cfg, run, 0, 1, |run|)
            && FailedChecks(cfg, run, 0, 1, |run|)
               == cfg.maxAttempts * ((run[|run| - 1].now - run[1].now) / cfg.lockout + 1)
  {
    hide StateAt, IsRun, FailedChecks, Undisturbed;
    var run := Guesses(cfg, periods, cfg.maxAttempts);
    AllGuessesCount(cfg, periods, cfg.maxAttempts);
    FirstAtZero(cfg, periods, cfg.maxAttempts);
    assert run[|run| - 1] == Guess(periods * cfg.lockout);
    assert cfg.lockout * periods == periods * cfg.lockout;
    DivIs(periods * cfg.lockout, cfg.lockout, periods);
    assert cfg.maxAttempts * (periods + 1) == cfg.maxAttempts * periods + cfg.maxAttempts;
  }
}
