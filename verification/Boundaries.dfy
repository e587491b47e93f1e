/** Runs that reach the boundary cases: where the cap is exceeded, and where cleanup cuts a chain. */
module Boundaries {
  import opened Types
  import opened Tables
  import opened Accounts
  import opened Machine
  import opened Invariants
  import opened Sessions
  import opened Cleanup

  const USER := Credential("a@example.com", "hash", Active, ["USER"], 0, None)

  /** The state after one registration at time 0: user 0, with token row 2 for secret 1. */
  function Registered(cfg: Config): State {
    State(map[0 := USER], map[2 := NewRefreshToken(0, 1, 0, cfg.refreshLifetime)], map[], 3)
  }

  lemma FirstStep(cfg: Config)
    requires cfg.Valid()
    ensures Allowed(cfg, EMPTY, 0, Register(USER.email, USER.passwordHash, {}))
    ensures Apply(cfg, EMPTY, 0, Register(USER.email, USER.passwordHash, {})) == Outcome(Registered(cfg), Session(0, 1))
  {
    var enrolled := Enrol(EMPTY, USER.email, USER.passwordHash);
    var issued := Issue(cfg, enrolled, 0, 0);
    assert ActiveSet(issued.refreshTokens, 0, 0) == {2};
    assert RevokeAt(issued.refreshTokens, {}, 0) == issued.refreshTokens;
  }

  lemma FindOnly(s: State, raw: Uuid, id: Uuid)
    requires id in s.refreshTokens && s.refreshTokens[id].tokenHash == HashOf(raw)
    requires Unique(RefreshHashes(s.refreshTokens))
    ensures FindToken(s, raw) == Some(id)
  {
    assert RefreshHashes(s.refreshTokens)[id] == HashOf(raw);
  }

  // ---------- A chain cut by cleanup ----------

  /** Refresh the first token, revoke the new one at once, the old one again seven days later,
      and clean up. Revoking a revoked row moves its date, so the old row outlives its successor. */
  function CuttingRun(): seq<Entry> {
    [At(0, Register(USER.email, USER.passwordHash, {})),
     At(0, Refresh(1)),
     At(0, RevokeSession(4)),
     At(RETENTION, RevokeSession(2)),
     At(RETENTION + 1, RefreshCleanupJob)]
  }

  lemma CutAfterRefresh(cfg: Config)
    requires cfg.Valid()
    ensures Apply(cfg, Registered(cfg), 0, Refresh(1)).state.refreshTokens
            == map[2 := Revoke(NewRefreshToken(0, 1, 0, cfg.refreshLifetime), 0).(replacedBy := Some(4)),
                   4 := NewRefreshToken(0, 3, 0, cfg.refreshLifetime)]
  {
    FindOnly(Registered(cfg), 1, 2);
    RotatedRows(cfg, Registered(cfg), 0, 2);
  }

  lemma CuttingRunIsRun(cfg: Config)
    requires cfg.Valid()
    ensures IsRun(cfg, CuttingRun())
  {
    FirstStep(cfg);
    hide MayEvict, FindByEmail;
    var run := CuttingRun();
    forall i | 0 <= i < |run|
      ensures AllowedAt(cfg, run, i)
    {
    }
  }

  /** What the last three steps leave of the tokens the refresh left. */
  lemma CutTokens(cfg: Config)
    requires cfg.Valid()
    ensures var rows := Apply(cfg, Registered(cfg), 0, Refresh(1)).state.refreshTokens;
            StateAt(cfg, CuttingRun(), 5).refreshTokens
            == Purge(RevokeOne(RevokeOne(rows, 4, 0), 2, RETENTION), RETENTION + 1)
  {
    hide StateAt, DoRefresh, DoRegister, RevokeOne, Purge;
    var run := CuttingRun();
    StartsEmpty(cfg, run);
    FirstStep(cfg);
    NextState(cfg, run, 0);
    NextState(cfg, run, 1);
    NextState(cfg, run, 2);
    NextState(cfg, run, 3);
    NextState(cfg, run, 4);
  }

  lemma StartsEmpty(cfg: Config, run: seq<Entry>)
    ensures StateAt(cfg, run, 0) == EMPTY
  {
  }

  lemma CleanupCutsChain(cfg: Config)
    requires cfg.Valid() && cfg.refreshLifetime > RETENTION
    ensures IsRun(cfg, CuttingRun()) && !Closed(StateAt(cfg, CuttingRun(), 5).refreshTokens)
  {
    CuttingRunIsRun(cfg);
    CutTokens(cfg);
    CutAfterRefresh(cfg);
    hide IsRun, StateAt, Apply;
    var refreshed := Apply(cfg, Registered(cfg), 0, Refresh(1)).state.refreshTokens;
    var rows := RevokeOne(RevokeOne(refreshed, 4, 0), 2, RETENTION);
    assert 2 in Purge(rows, RETENTION + 1) && 4 !in Purge(rows, RETENTION + 1);
  }

  ghost predicate AlwaysClosed(cfg: Config) {
    forall run, i: nat | IsRun(cfg, run) && i <= |run| :: Closed(StateAt(cfg, run, i).refreshTokens)
  }

  /** Cleanup leaves no dangling successor, in any run, if and only if tokens live no longer
      than revoked rows are retained. */
  lemma ChainsClosedIff(cfg: Config)
    requires cfg.Valid()
    ensures AlwaysClosed(cfg) <==> cfg.refreshLifetime <= RETENTION
  {
    hide IsRun, Closed, StateAt;
    if cfg.refreshLifetime <= RETENTION {
      forall run, i: nat | IsRun(cfg, run) && i <= |run|
        ensures Closed(StateAt(cfg, run, i).refreshTokens)
      {
        ChainsStayClosed(cfg, run, i);
      }
    } else {
      CleanupCutsChain(cfg);
    }
  }

  /** The settings in use keep every chain closed. */
  lemma DefaultsKeepChainsClosed()
    ensures DEFAULTS.Valid() && DEFAULTS.refreshLifetime <= RETENTION && AlwaysClosed(DEFAULTS)
  {
    ChainsClosedIff(DEFAULTS);
  }

  // ---------- One session too many ----------

  function SignIn(now: int): Entry {
    At(now, Login(USER.email, true, {}))
  }

  /** Register, and at the very instant the first token expires sign in `k` times. */
  function Crowding(cfg: Config, k: nat): seq<Entry> {
    if k == 0 then [At(0, Register(USER.email, USER.passwordHash, {}))]
    else Crowding(cfg, k - 1) + [SignIn(cfg.refreshLifetime)]
  }

  function Crowded(cfg: Config, k: nat): State {
    if k == 0 then Registered(cfg) else Issue(cfg, Crowded(cfg, k - 1), 0, cfg.refreshLifetime)
  }

  lemma {:induction false} CrowdedTable(cfg: Config, k: nat)
    requires cfg.Valid()
    ensures var s := Crowded(cfg, k);
            && s.credentials == map[0 := USER] && s.uuids == 3 + 2 * k
            && (forall id | id in s.refreshTokens :: id < s.uuids)
            && 2 in s.refreshTokens && s.refreshTokens[2] == NewRefreshToken(0, 1, 0, cfg.refreshLifetime)
            && |ActiveSet(s.refreshTokens, 0, cfg.refreshLifetime)| == k
  {
    var now := cfg.refreshLifetime;
    if k == 0 {
      assert ActiveSet(Registered(cfg).refreshTokens, 0, now) == {};
    } else {
      var s := Crowded(cfg, k - 1);
      CrowdedTable(cfg, k - 1);
      ActiveAfterInsert(s.refreshTokens, s.uuids + 1, NewRefreshToken(0, s.uuids, now, now), 0, now);
    }
  }

  /** While there is room a sign-in closes nothing. */
  lemma CrowdMore(cfg: Config, k: nat)
    requires cfg.Valid() && k < cfg.maxSessions
    ensures Allowed(cfg, Crowded(cfg, k), cfg.refreshLifetime, SignIn(cfg.refreshLifetime).op)
    ensures Apply(cfg, Crowded(cfg, k), cfg.refreshLifetime, SignIn(cfg.refreshLifetime).op).state
            == Crowded(cfg, k + 1)
  {
    var s, now := Crowded(cfg, k), cfg.refreshLifetime;
    CrowdedTable(cfg, k);
    CrowdedTable(cfg, k + 1);
    hide Crowded;
    assert Emails(s.credentials)[0] == USER.email;
    assert FindByEmail(s, USER.email) == Some(0);
    assert RightPassword(USER) == USER && Put(s, 0, USER) == s;
    var issued := Issue(cfg, s, 0, now);
    assert issued == Crowded(cfg, k + 1) by {
      CrowdedNext(cfg, k);
    }
    assert RevokeAt(issued.refreshTokens, {}, now) == issued.refreshTokens;
  }

  lemma CrowdedNext(cfg: Config, k: nat)
    ensures Crowded(cfg, k + 1) == Issue(cfg, Crowded(cfg, k), 0, cfg.refreshLifetime)
  {
  }

  lemma {:induction false} CrowdingIsRun(cfg: Config, k: nat)
    requires cfg.Valid() && k <= cfg.maxSessions
    ensures var run := Crowding(cfg, k);
            && |run| == k + 1 && IsRun(cfg, run) && StateAt(cfg, run, k + 1) == Crowded(cfg, k)
            && run[k].now == (if k == 0 then 0 else cfg.refreshLifetime)
  {
    hide Apply, Allowed, Crowded;
    if k == 0 {
      FirstCrowd(cfg);
    } else {
      CrowdingIsRun(cfg, k - 1);
      CrowdMore(cfg, k - 1);
      ExtendRun(cfg, Crowding(cfg, k - 1), cfg.refreshLifetime, SignIn(cfg.refreshLifetime).op);
    }
  }

  lemma FirstCrowd(cfg: Config)
    requires cfg.Valid()
    ensures IsRun(cfg, Crowding(cfg, 0)) && StateAt(cfg, Crowding(cfg, 0), 1) == Crowded(cfg, 0)
  {
    FirstStep(cfg);
    hide Allowed;
    assert StateAt(cfg, Crowding(cfg, 0), 0) == EMPTY;
  }

  /** The boundary case can be reached under any settings: fill the sessions at the instant the
      first token expires, then refresh that token. */
  lemma CapCanBeExceeded(cfg: Config)
    requires cfg.Valid()
    ensures var run := Crowding(cfg, cfg.maxSessions) + [At(cfg.refreshLifetime, Refresh(1))];
            IsRun(cfg, run) && !CapKept(cfg, run, |run|)
  {
    hide Apply, Allowed, Crowded, Overflows, Crowding, Inv, StateAt, IsRun, CapKept;
    var front, last := Crowding(cfg, cfg.maxSessions), At(cfg.refreshLifetime, Refresh(1));
    var n, s := |front|, Crowded(cfg, cfg.maxSessions);
    CrowdingIsRun(cfg, cfg.maxSessions);
    Reachable(cfg, front, n, cfg.refreshLifetime);
    CrowdedOverflows(cfg);
    AnyRefreshAllowed(cfg, s, last.now, 1);
    ExtendRun(cfg, front, last.now, last.op);
    PrefixState(cfg, front, last, n);
    assert OverflowsAt(cfg, front + [last], n);
    SessionCap(cfg, front + [last], n + 1);
  }

  lemma CrowdedOverflows(cfg: Config)
    requires cfg.Valid() && Inv(cfg, Crowded(cfg, cfg.maxSessions), cfg.refreshLifetime)
    ensures Overflows(cfg, Crowded(cfg, cfg.maxSessions), cfg.refreshLifetime, Refresh(1))
  {
    CrowdedTable(cfg, cfg.maxSessions);
    hide Crowded;
    FindOnly(Crowded(cfg, cfg.maxSessions), 1, 2);
  }

  lemma AnyRefreshAllowed(cfg: Config, s: State, now: int, raw: Uuid)
    ensures Allowed(cfg, s, now, Refresh(raw))
  {
  }
}
