/** The cap on concurrent sessions, over whole runs.

    Only login and registration enforce the cap. Refreshing keeps it because a rotation ends
    one session as it opens another, with one exception: at the very millisecond a token
    expires it no longer counts as a session, and can still be refreshed. */
module Sessions {
  import opened Types
  import opened Tables
  import opened Accounts
  import opened Machine
  import opened Invariants
  import opened Rotation

  ghost predicate WithinCap(cfg: Config, s: State, now: int) {
    forall userId :: |ActiveSet(s.refreshTokens, userId, now)| <= cfg.maxSessions
  }

  /** A refresh at exactly the expiry of its token, by a user whose sessions are all taken. */
  ghost predicate Overflows(cfg: Config, s: State, now: int, op: Op) {
    && op.Refresh?
    && var p := FindToken(s, op.raw);
       && p.Some?
       && !s.refreshTokens[p.value].revoked
       && s.refreshTokens[p.value].expiresAt == now
       && |ActiveSet(s.refreshTokens, s.refreshTokens[p.value].userId, now)| >= cfg.maxSessions
  }

  lemma WithinCapShrinks(cfg: Config, s: State, s': State, now: int, now': int)
    requires WithinCap(cfg, s, now)
    requires forall userId :: ActiveSet(s'.refreshTokens, userId, now') <= ActiveSet(s.refreshTokens, userId, now)
    ensures WithinCap(cfg, s', now')
  {
    forall userId
      ensures |ActiveSet(s'.refreshTokens, userId, now')| <= cfg.maxSessions
    {
      SubsetSize(ActiveSet(s'.refreshTokens, userId, now'), ActiveSet(s.refreshTokens, userId, now));
    }
  }

  /** Without a new token there is no new session. */
  lemma NoNewSessions(cfg: Config, s: State, now: int, op: Op, o: Outcome)
    requires Evolves(s, op, o) && !o.reply.Session?
    ensures forall userId :: ActiveSet(o.state.refreshTokens, userId, now) <= ActiveSet(s.refreshTokens, userId, now)
  {
  }

  /** How a refresh changes the sessions of each user: never, but at the exact expiry, where it adds one. */
  lemma RotationConserves(cfg: Config, s: State, now: int, tokenId: Uuid, userId: Uuid)
    requires cfg.Valid() && Inv(cfg, s, now)
    requires tokenId in s.refreshTokens && !s.refreshTokens[tokenId].revoked
             && now <= s.refreshTokens[tokenId].expiresAt
    ensures var row := s.refreshTokens[tokenId];
            |ActiveSet(Rotate(cfg, s, now, tokenId).state.refreshTokens, userId, now)|
            == |ActiveSet(s.refreshTokens, userId, now)|
               + (if userId == row.userId && row.expiresAt == now then 1 else 0)
  {
    var row := s.refreshTokens[tokenId];
    var q := s.uuids + 1;
    assert RowOk(row, tokenId, s.uuids, cfg.refreshLifetime, now);
    assert q !in s.refreshTokens;
    RotatedRows(cfg, s, now, tokenId);
    ActiveAfterRotation(s.refreshTokens, tokenId, Revoke(row, now).(replacedBy := Some(q)),
                        q, NewRefreshToken(row.userId, s.uuids, now, cfg.refreshLifetime), userId, now);
    hide Inv, Rotate;
    var before := ActiveSet(s.refreshTokens, userId, now);
    assert tokenId in before <==> userId == row.userId && row.expiresAt > now;
    assert q !in before;
  }

  lemma RefreshCap(cfg: Config, s: State, now: int, op: Op)
    requires cfg.Valid() && Inv(cfg, s, now) && WithinCap(cfg, s, now) && op.Refresh?
    ensures WithinCap(cfg, DoRefresh(cfg, s, now, op.raw).state, now) <==> !Overflows(cfg, s, now, op)
  {
    var o := DoRefresh(cfg, s, now, op.raw);
    if o.reply.Session? {
      var p := FindToken(s, op.raw).value;
      hide Inv, Rotate, FindToken;
      forall userId
        ensures |ActiveSet(o.state.refreshTokens, userId, now)|
                == |ActiveSet(s.refreshTokens, userId, now)|
                   + (if userId == s.refreshTokens[p].userId && s.refreshTokens[p].expiresAt == now then 1 else 0)
      {
        RotationConserves(cfg, s, now, p, userId);
      }
      if Overflows(cfg, s, now, op) {
        assert |ActiveSet(o.state.refreshTokens, s.refreshTokens[p].userId, now)| > cfg.maxSessions;
      }
    } else {
      RefreshEvolves(cfg, s, now, op.raw);
      NoNewSessions(cfg, s, now, op, o);
      WithinCapShrinks(cfg, s, o.state, now, now);
    }
  }

  /** Opening a session and closing the excess respects the cap, whatever the count was. */
  lemma OpenSessionCap(cfg: Config, s: State, now: int, userId: Uuid, evicted: set<Uuid>)
    requires cfg.Valid() && WithinCap(cfg, s, now) && s.uuids + 1 !in s.refreshTokens
    requires MayEvict(cfg, s, userId, now, evicted)
    ensures WithinCap(cfg, OpenSession(cfg, s, userId, now, evicted).state, now)
  {
    var issued := Issue(cfg, s, userId, now).refreshTokens;
    forall other
      ensures |ActiveSet(RevokeAt(issued, evicted, now), other, now)| <= cfg.maxSessions
    {
      ActiveAfterEviction(issued, userId, cfg.maxSessions, now, evicted, other);
      var row := NewRefreshToken(userId, s.uuids, now, cfg.refreshLifetime);
      ActiveAfterInsert(s.refreshTokens, s.uuids + 1, row, other, now);
    }
  }

  // ---------- What a sign-in leaves ----------

  /** A user with `before` rows signs in: nobody else's row changes; of the user's sessions the oldest
      are closed, just so many that the cap is met; and the answered secret has a new row, live
      unless the cap was met by closing it, when all sessions left are of this very instant. */
  ghost predicate SignedIn(cfg: Config, before: RefreshTokens, after: RefreshTokens, now: int, userId: Uuid,
                           raw: Uuid) {
    var had, has := ActiveSet(before, userId, now), ActiveSet(after, userId, now);
    && |has| == (if |had| >= cfg.maxSessions then cfg.maxSessions else |had| + 1)
    && ClosesOnly(before, after, had, now)
    && OldestFirst(before, after, had, has)
    && HasNewRow(cfg, before, after, now, userId, raw)
  }

  /** Only rows among `had` change, and only by being revoked now. */
  ghost predicate ClosesOnly(before: RefreshTokens, after: RefreshTokens, had: set<Uuid>, now: int) {
    forall id | id in before ::
      && id in after
      && (after[id] == before[id] || (id in had && after[id] == before[id].(revoked := true, revokedAt := Some(now))))
  }

  /** What is no longer among the sessions was issued no later than what is. */
  ghost predicate OldestFirst(before: RefreshTokens, after: RefreshTokens, had: set<Uuid>, has: set<Uuid>)
    requires had <= before.Keys && has <= after.Keys
  {
    forall c, k | c in had - has && k in has :: before[c].issuedAt <= after[k].issuedAt
  }

  ghost predicate HasNewRow(cfg: Config, before: RefreshTokens, after: RefreshTokens, now: int, userId: Uuid,
                            raw: Uuid) {
    exists q :: q !in before && after.Keys == before.Keys + {q} && IsNewRow(cfg, before, after, now, userId, raw, q)
  }

  ghost predicate IsNewRow(cfg: Config, before: RefreshTokens, after: RefreshTokens, now: int,
                           userId: Uuid, raw: Uuid, q: Uuid)
    requires q in after
  {
    var row := after[q];
    && row.userId == userId && row.tokenHash == HashOf(raw)
    && row.issuedAt == now && row.expiresAt == now + cfg.refreshLifetime
    && (row.revoked ==>
          && |ActiveSet(before, userId, now)| >= cfg.maxSessions
          && forall k | k in ActiveSet(after, userId, now) :: after[k].issuedAt == now)
  }

  lemma OpenedCount(cfg: Config, s: State, now: int, userId: Uuid, evicted: set<Uuid>)
    requires cfg.Valid() && s.uuids + 1 !in s.refreshTokens && MayEvict(cfg, s, userId, now, evicted)
    ensures var had := ActiveSet(s.refreshTokens, userId, now);
            var has := ActiveSet(OpenSession(cfg, s, userId, now, evicted).state.refreshTokens, userId, now);
            && |has| == (if |had| >= cfg.maxSessions then cfg.maxSessions else |had| + 1)
            && has == had + {s.uuids + 1} - evicted
            && evicted <= had + {s.uuids + 1}
            && ActiveSet(Issue(cfg, s, userId, now).refreshTokens, userId, now) == had + {s.uuids + 1}
            && (|had| < cfg.maxSessions ==> evicted == {})
  {
    var issued := Issue(cfg, s, userId, now).refreshTokens;
    var row := NewRefreshToken(userId, s.uuids, now, cfg.refreshLifetime);
    ActiveAfterInsert(s.refreshTokens, s.uuids + 1, row, userId, now);
    ActiveAfterEviction(issued, userId, cfg.maxSessions, now, evicted, userId);
    ActiveAfterRevoke(issued, evicted, now, userId, now);
    hide ActiveSet, RevokeAt;
  }

  lemma OpenedRows(cfg: Config, s: State, now: int, userId: Uuid, evicted: set<Uuid>)
    requires cfg.Valid() && s.uuids + 1 !in s.refreshTokens && MayEvict(cfg, s, userId, now, evicted)
    requires forall id | id in s.refreshTokens :: s.refreshTokens[id].issuedAt <= now
    ensures SignedIn(cfg, s.refreshTokens, OpenSession(cfg, s, userId, now, evicted).state.refreshTokens, now, userId,
            s.uuids)
  {
    var before, after := s.refreshTokens, OpenSession(cfg, s, userId, now, evicted).state.refreshTokens;
    OpenedCount(cfg, s, now, userId, evicted);
    OpenedKeeps(cfg, s, now, userId, evicted);
    OpenedOldest(cfg, s, now, userId, evicted);
    hide ActiveSet, OpenSession, MayEvict, SignedIn;
    SignedInFrom(cfg, before, after, now, userId, s.uuids, s.uuids + 1, evicted);
  }

  lemma SignedInFrom(cfg: Config, before: RefreshTokens, after: RefreshTokens, now: int, userId: Uuid, raw: Uuid,
                     q: Uuid, evicted: set<Uuid>)
    requires q !in before && after.Keys == before.Keys + {q} && evicted <= ActiveSet(before, userId, now) + {q}
    requires var had, has := ActiveSet(before, userId, now), ActiveSet(after, userId, now);
             && has == had + {q} - evicted
             && |has| == (if |had| >= cfg.maxSessions then cfg.maxSessions else |had| + 1)
             && (|had| < cfg.maxSessions ==> evicted == {})
             && (forall c, k | c in had && c in evicted && k in has :: before[c].issuedAt <= after[k].issuedAt)
             && (q in evicted ==> forall k | k in has :: after[k].issuedAt == now)
    requires forall id | id in before ::
               if id in evicted then after[id] == before[id].(revoked := true, revokedAt := Some(now))
               else after[id] == before[id]
    requires after[q].userId == userId && after[q].tokenHash == HashOf(raw) && after[q].issuedAt == now
    requires after[q].expiresAt == now + cfg.refreshLifetime && (after[q].revoked <==> q in evicted)
    ensures SignedIn(cfg, before, after, now, userId, raw)
  {
    hide ActiveSet, ClosesOnly, OldestFirst;
    var had, has := ActiveSet(before, userId, now), ActiveSet(after, userId, now);
    ClosesEvicted(before, after, had, now, q, evicted);
    OldestFirstFrom(before, after, had, has, q, evicted);
    assert IsNewRow(cfg, before, after, now, userId, raw, q);
  }

  lemma ClosesEvicted(before: RefreshTokens, after: RefreshTokens, had: set<Uuid>, now: int, q: Uuid,
                      evicted: set<Uuid>)
    requires q !in before && after.Keys == before.Keys + {q} && evicted <= had + {q}
    requires forall id | id in before ::
               if id in evicted then after[id] == before[id].(revoked := true, revokedAt := Some(now))
               else after[id] == before[id]
    ensures ClosesOnly(before, after, had, now)
  {
  }

  lemma OldestFirstFrom(before: RefreshTokens, after: RefreshTokens, had: set<Uuid>, has: set<Uuid>,
                        q: Uuid, evicted: set<Uuid>)
    requires had <= before.Keys && has <= after.Keys && has == had + {q} - evicted
    requires forall c, k | c in had && c in evicted && k in has :: before[c].issuedAt <= after[k].issuedAt
    ensures OldestFirst(before, after, had, has)
  {
  }


  lemma OpenedKeeps(cfg: Config, s: State, now: int, userId: Uuid, evicted: set<Uuid>)
    requires s.uuids + 1 !in s.refreshTokens && evicted <= ActiveSet(s.refreshTokens, userId, now) + {s.uuids + 1}
    ensures var before, after := s.refreshTokens, OpenSession(cfg, s, userId, now, evicted).state.refreshTokens;
            && after.Keys == before.Keys + {s.uuids + 1}
            && (forall id | id in before ::
                  if id in evicted then after[id] == before[id].(revoked := true, revokedAt := Some(now))
                  else after[id] == before[id])
            && after[s.uuids + 1].userId == userId && after[s.uuids + 1].tokenHash == HashOf(s.uuids)
            && after[s.uuids + 1].issuedAt == now && after[s.uuids + 1].expiresAt == now + cfg.refreshLifetime
            && (after[s.uuids + 1].revoked <==> s.uuids + 1 in evicted)
  {
    hide ActiveSet;
  }

  /** The sessions closed are no younger than those left; so a new one is closed only among its like. */
  lemma OpenedOldest(cfg: Config, s: State, now: int, userId: Uuid, evicted: set<Uuid>)
    requires s.uuids + 1 !in s.refreshTokens && MayEvict(cfg, s, userId, now, evicted)
    requires ActiveSet(OpenSession(cfg, s, userId, now, evicted).state.refreshTokens, userId, now)
          == ActiveSet(s.refreshTokens, userId, now) + {s.uuids + 1} - evicted
    requires ActiveSet(Issue(cfg, s, userId, now).refreshTokens, userId, now)
          == ActiveSet(s.refreshTokens, userId, now) + {s.uuids + 1}
    requires forall id | id in s.refreshTokens :: s.refreshTokens[id].issuedAt <= now
    ensures var before, after := s.refreshTokens, OpenSession(cfg, s, userId, now, evicted).state.refreshTokens;
            && (forall c, k | c in ActiveSet(before, userId, now) && c in evicted
               && k in ActiveSet(after, userId, now) ::
                  before[c].issuedAt <= after[k].issuedAt)
            && (s.uuids + 1 in evicted ==> forall k | k in ActiveSet(after, userId, now) :: after[k].issuedAt == now)
  {
    ExcessIsOldest(cfg, s, userId, now, evicted);
    IssueDates(cfg, s, userId, now, evicted);
    hide ActiveSet, OpenSession, Issue, MayEvict;
  }

  lemma ExcessIsOldest(cfg: Config, s: State, userId: Uuid, now: int, evicted: set<Uuid>)
    requires MayEvict(cfg, s, userId, now, evicted)
    ensures var issued := Issue(cfg, s, userId, now).refreshTokens;
            evicted <= issued.Keys && forall c, k | c in evicted && k in ActiveSet(issued, userId, now) - evicted ::
              issued[c].issuedAt <= issued[k].issuedAt
  {
    hide ActiveSet, Issue;
  }

  lemma IssueDates(cfg: Config, s: State, userId: Uuid, now: int, evicted: set<Uuid>)
    requires s.uuids + 1 !in s.refreshTokens
    ensures var issued := Issue(cfg, s, userId, now).refreshTokens;
            var after := OpenSession(cfg, s, userId, now, evicted).state.refreshTokens;
            && s.uuids + 1 in issued && issued[s.uuids + 1].issuedAt == now && issued.Keys == after.Keys
            && issued.Keys == s.refreshTokens.Keys + {s.uuids + 1}
            && (forall k | k in issued :: after[k].issuedAt == issued[k].issuedAt)
            && (forall k | k in s.refreshTokens :: issued[k].issuedAt == s.refreshTokens[k].issuedAt)
  {
  }

  /** Every registration and login that is answered with a session, below, at or above the cap. */
  lemma SignInSessions(cfg: Config, s: State, now: int, op: Op)
    requires cfg.Valid() && Inv(cfg, s, now) && Allowed(cfg, s, now, op) && (op.Register? || op.Login?)
    requires Apply(cfg, s, now, op).reply.Session?
    ensures var o := Apply(cfg, s, now, op);
            && o.reply.raw >= s.uuids
            && SignedIn(cfg, s.refreshTokens, o.state.refreshTokens, now, o.reply.userId, o.reply.raw)
  {
    assert forall id | id in s.refreshTokens :: RowOk(s.refreshTokens[id], id, s.uuids, cfg.refreshLifetime, now);
    hide Inv, MayEvict, OpenSession, SignedIn;
    var found := FindByEmail(s, op.email);
    if op.Register? {
      OpenedRows(cfg, Enrol(s, op.email, op.passwordHash), now, s.uuids, op.evicted);
      OpenedAnswer(cfg, Enrol(s, op.email, op.passwordHash), now, s.uuids, op.evicted);
    } else {
      var gate := Admit(s.credentials[found.value], now);
      OpenedRows(cfg, Put(s, found.value, RightPassword(gate.account)), now, found.value, op.evicted);
      OpenedAnswer(cfg, Put(s, found.value, RightPassword(gate.account)), now, found.value, op.evicted);
    }
  }

  lemma OpenedAnswer(cfg: Config, s: State, now: int, userId: Uuid, evicted: set<Uuid>)
    ensures OpenSession(cfg, s, userId, now, evicted).reply == Session(userId, s.uuids)
  {
  }

  /** If the user's sessions were all opened earlier, the answered secret is live: it can be refreshed
      for one whole lifetime. */
  lemma SignInIsLive(cfg: Config, s: State, now: int, op: Op)
    requires cfg.Valid() && Inv(cfg, s, now) && Allowed(cfg, s, now, op) && (op.Register? || op.Login?)
    requires Apply(cfg, s, now, op).reply.Session?
    requires forall id | id in ActiveSet(s.refreshTokens, Apply(cfg, s, now, op).reply.userId, now) ::
               s.refreshTokens[id].issuedAt < now
    ensures var o := Apply(cfg, s, now, op);
            exists q :: OpensAt(o.state, now + cfg.refreshLifetime, o.reply.raw, q)
                        && o.state.refreshTokens[q].userId == o.reply.userId
  {
    hide Inv, Allowed, Apply;
    SignInSessions(cfg, s, now, op);
    var o := Apply(cfg, s, now, op);
    var u, before, after := o.reply.userId, s.refreshTokens, o.state.refreshTokens;
    var q :| q !in before && after.Keys == before.Keys + {q} && IsNewRow(cfg, before, after, now, u, o.reply.raw, q);
    if after[q].revoked {
      var k := OneOf(ActiveSet(after, u, now));
    }
    assert OpensAt(o.state, now + cfg.refreshLifetime, o.reply.raw, q);
  }

  lemma OneOf<T>(items: set<T>) returns (item: T)
    requires |items| > 0
    ensures item in items
  {
    item :| item in items;
  }

  lemma EntryCap(cfg: Config, s: State, now: int, op: Op)
    requires cfg.Valid() && Inv(cfg, s, now) && WithinCap(cfg, s, now)
    requires Allowed(cfg, s, now, op) && (op.Register? || op.Login?)
    ensures WithinCap(cfg, Apply(cfg, s, now, op).state, now)
  {
    assert forall id | id in s.refreshTokens :: RowOk(s.refreshTokens[id], id, s.uuids, cfg.refreshLifetime, now);
    hide Inv, MayEvict, OpenSession;
    var found := FindByEmail(s, op.email);
    if op.Register? && found.None? {
      OpenSessionCap(cfg, Enrol(s, op.email, op.passwordHash), now, s.uuids, op.evicted);
    } else if op.Login? && found.Some? && op.passwordOk {
      var gate := Admit(s.credentials[found.value], now);
      if gate.Proceed? {
        OpenSessionCap(cfg, Put(s, found.value, RightPassword(gate.account)), now, found.value, op.evicted);
      }
    } else {
      var o := Apply(cfg, s, now, op);
      if op.Login? { LoginEvolves(cfg, s, now, op); }
      NoNewSessions(cfg, s, now, op, o);
      WithinCapShrinks(cfg, s, o.state, now, now);
    }
  }

  /** One step: the cap survives exactly when the step does not overflow it. */
  lemma StepCap(cfg: Config, s: State, now: int, op: Op)
    requires cfg.Valid() && Inv(cfg, s, now) && WithinCap(cfg, s, now) && Allowed(cfg, s, now, op)
    ensures WithinCap(cfg, Apply(cfg, s, now, op).state, now) <==> !Overflows(cfg, s, now, op)
  {
    if op.Refresh? {
      RefreshCap(cfg, s, now, op);
    } else if op.Register? || op.Login? {
      hide Inv, WithinCap;
      EntryCap(cfg, s, now, op);
    } else {
      StepEvolves(cfg, s, now, op);
      var o := Apply(cfg, s, now, op);
      assert !o.reply.Session?;
      hide Inv, WithinCap, Evolves, Apply;
      NoNewSessions(cfg, s, now, op, o);
      WithinCapShrinks(cfg, s, o.state, now, now);
    }
  }

  ghost predicate CapKept(cfg: Config, run: seq<Entry>, n: nat)
    requires n <= |run|
  {
    forall i | 0 <= i < n :: CapAfter(cfg, run, i)
  }

  /** Within the cap once entry `i` has been handled. */
  ghost predicate CapAfter(cfg: Config, run: seq<Entry>, i: nat)
    requires i < |run|
  {
    WithinCap(cfg, StateAt(cfg, run, i + 1), run[i].now)
  }

  ghost predicate NeverOverflows(cfg: Config, run: seq<Entry>, n: nat)
    requires n <= |run|
  {
    forall i | 0 <= i < n :: !OverflowsAt(cfg, run, i)
  }

  ghost predicate OverflowsAt(cfg: Config, run: seq<Entry>, i: nat)
    requires i < |run|
  {
    Overflows(cfg, StateAt(cfg, run, i), run[i].now, run[i].op)
  }

  lemma CapLater(cfg: Config, s: State, now: int, later: int)
    requires WithinCap(cfg, s, now) && now <= later
    ensures WithinCap(cfg, s, later)
  {
    forall userId
      ensures ActiveSet(s.refreshTokens, userId, later) <= ActiveSet(s.refreshTokens, userId, now)
    {
    }
    WithinCapShrinks(cfg, s, s, now, later);
  }

  lemma {:induction false} CapBeforeStep(cfg: Config, run: seq<Entry>, n: nat)
    requires IsRun(cfg, run) && n < |run| && CapKept(cfg, run, n)
    ensures WithinCap(cfg, StateAt(cfg, run, n), run[n].now)
  {
    if n == 0 {
      assert forall userId :: ActiveSet(EMPTY.refreshTokens, userId, run[n].now) == {};
    } else {
      assert CapAfter(cfg, run, n - 1);
      CapLater(cfg, StateAt(cfg, run, n), run[n - 1].now, run[n].now);
    }
  }

  /** Over any run: no user ever exceeds the cap if and only if no refresh overflows it. */
  lemma {:induction false} SessionCap(cfg: Config, run: seq<Entry>, n: nat)
    requires IsRun(cfg, run) && n <= |run|
    ensures CapKept(cfg, run, n) <==> NeverOverflows(cfg, run, n)
  {
    hide CapAfter, OverflowsAt, Inv, Apply, IsRun;
    if n > 0 {
      SessionCap(cfg, run, n - 1);
      if CapKept(cfg, run, n - 1) {
        CapStepOfRun(cfg, run, n - 1);
      }
    }
  }

  lemma CapStepOfRun(cfg: Config, run: seq<Entry>, n: nat)
    requires IsRun(cfg, run) && n < |run| && CapKept(cfg, run, n)
    ensures CapAfter(cfg, run, n) <==> !OverflowsAt(cfg, run, n)
  {
    Reachable(cfg, run, n, run[n].now);
    CapBeforeStep(cfg, run, n);
    assert AllowedAt(cfg, run, n);
    hide WithinCap, Overflows, Inv, Apply, Allowed;
    StepCap(cfg, StateAt(cfg, run, n), run[n].now, run[n].op);
  }
}
