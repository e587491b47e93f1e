/** Refreshes that overlap, and refreshes that overlap a mass revocation: what remains of single
    use and of signing out everywhere once the statements of different requests interleave. */
module Overlap {
  import opened Types
  import opened Tables
  import opened Interleaving

  // ---------- How a call moves on ----------

  predicate Precedes(s: Stage, t: Stage) {
    || s == t
    || (s.Checked? && (t.Stamped? || t.Issued? || t.Linked?))
    || (s.Stamped? && (t.Issued? || t.Linked?))
    || (s.Issued? && t == Linked(s.newId))
    || (s.Reused? && t.Refused?)
  }

  /** The same call, as far or further. */
  predicate MovesOn(a: Call, b: Call) {
    b.raw == a.raw && b.tokenId == a.tokenId && b.userId == a.userId && Precedes(a.stage, b.stage)
  }

  /** What one statement does to one call: only the call's own statements, in turn, move it. */
  lemma CallStep(cfg: Config, w: World, now: int, st: Statement, c: nat)
    ensures var w' := Step(cfg, w, now, st);
            && (c in w.calls ==> c in w'.calls && MovesOn(w.calls[c], w'.calls[c]))
            && (c in w.calls && st != RevokeOld(c) && st != CreateNew(c) && st != Link(c) && st != RevokeFamily(c) ==>
                  w'.calls[c] == w.calls[c])
            && (c !in w.calls && c in w'.calls ==> st.LookUp? && st.call == c)
  {
    hide Find, Live, Spoiled, NewRefreshToken, SetReplacedBy, RevokeOne, RevokeAllOf;
  }

  lemma {:induction false} CallForward(cfg: Config, run: seq<Timed>, a: nat, b: nat, c: nat)
    requires a <= b <= |run| && c in WorldAt(cfg, run, a).calls
    ensures c in WorldAt(cfg, run, b).calls && MovesOn(WorldAt(cfg, run, a).calls[c], WorldAt(cfg, run, b).calls[c])
  {
    hide Step;
    if a < b {
      CallForward(cfg, run, a, b - 1, c);
      CallStep(cfg, WorldAt(cfg, run, b - 1), run[b - 1].now, run[b - 1].statement, c);
    }
  }

  // ---------- Single use ----------

  predicate Addresses(st: Statement, c: nat) {
    (st.LookUp? || st.RevokeOld? || st.CreateNew?) && st.call == c
  }

  /** Call `c` presents `raw`: its lookup, its revocation and its insertion stand at `l`, `r`, `n`.
      A refresh that its lookup refused issues neither of the last two; such a run is covered by
      adding them, since out of turn they do nothing. */
  predicate Presents(run: seq<Timed>, c: nat, raw: Uuid, l: nat, r: nat, n: nat) {
    && l < r < n < |run|
    && run[l].statement == LookUp(c, raw) && run[r].statement == RevokeOld(c) && run[n].statement == CreateNew(c)
    && forall i | 0 <= i < |run| && Addresses(run[i].statement, c) :: i == l || i == r || i == n
  }

  ghost predicate LiveAt(cfg: Config, run: seq<Timed>, l: nat, raw: Uuid)
    requires l < |run|
  {
    Live(WorldAt(cfg, run, l), run[l].now, raw)
  }

  /** In the end the call has a token to hand out. */
  ghost predicate Exchanged(cfg: Config, run: seq<Timed>, c: nat) {
    var calls := WorldAt(cfg, run, |run|).calls;
    c in calls && NewId(calls[c]).Some?
  }

  /** Where a call stands before statement `i`, given what its lookup found. */
  ghost predicate Phase(w: World, c: nat, raw: Uuid, live: bool, i: nat, l: nat, r: nat, n: nat) {
    if i <= l then c !in w.calls
    else if !live then c in w.calls ==> w.calls[c].stage.Reused? || w.calls[c].stage.Refused?
    else
      && c in w.calls && w.calls[c].raw == raw
      && if i <= r then w.calls[c].stage.Checked?
         else if i <= n then w.calls[c].stage.Stamped?
         else NewId(w.calls[c]).Some?
  }

  lemma PhaseStep(cfg: Config, run: seq<Timed>, w: World, c: nat, raw: Uuid, l: nat, r: nat, n: nat, i: nat, live: bool)
    requires Presents(run, c, raw, l, r, n) && i < |run| && Phase(w, c, raw, live, i, l, r, n)
    requires i == l ==> live == Live(w, run[i].now, raw)
    ensures Phase(Step(cfg, w, run[i].now, run[i].statement), c, raw, live, i + 1, l, r, n)
  {
    var st := run[i].statement;
    CallStep(cfg, w, run[i].now, st, c);
    hide Find, RevokeOne, RevokeAllOf, Insert, SetReplacedBy, Presents;
    assert Addresses(st, c) ==> i == l || i == r || i == n;
    assert (i == l ==> st == LookUp(c, raw)) && (i == r ==> st == RevokeOld(c)) && (i == n ==> st == CreateNew(c));
    assert l < r < n;
  }

  lemma {:induction false} PhaseAt(cfg: Config, run: seq<Timed>, c: nat, raw: Uuid, l: nat, r: nat, n: nat, i: nat)
    requires Presents(run, c, raw, l, r, n) && i <= |run|
    ensures Phase(WorldAt(cfg, run, i), c, raw, LiveAt(cfg, run, l, raw), i, l, r, n)
  {
    hide Step, Live, Phase, Presents, WorldAt;
    Positions(run, c, raw, l, r, n);
    if i > 0 {
      PhaseAt(cfg, run, c, raw, l, r, n, i - 1);
      WorldNext(cfg, run, i - 1);
      PhaseStep(cfg, run, WorldAt(cfg, run, i - 1), c, raw, l, r, n, i - 1, LiveAt(cfg, run, l, raw));
    } else {
      Starts(cfg, run);
      PhaseStarts(c, raw, LiveAt(cfg, run, l, raw), l, r, n);
    }
  }

  lemma PhaseStarts(c: nat, raw: Uuid, live: bool, l: nat, r: nat, n: nat)
    ensures Phase(START, c, raw, live, 0, l, r, n)
  {
  }

  lemma Positions(run: seq<Timed>, c: nat, raw: Uuid, l: nat, r: nat, n: nat)
    requires Presents(run, c, raw, l, r, n)
    ensures l < r < n < |run|
  {
  }

  /** A refresh gets a new token exactly if its lookup found the presented one live; what happens
      between its statements makes no difference. */
  lemma ExchangedIffLive(cfg: Config, run: seq<Timed>, c: nat, raw: Uuid, l: nat, r: nat, n: nat)
    requires Presents(run, c, raw, l, r, n)
    ensures Exchanged(cfg, run, c) <==> LiveAt(cfg, run, l, raw)
  {
    hide Step, WorldAt, Live;
    PhaseAt(cfg, run, c, raw, l, r, n, |run|);
  }

  /** Once one refresh has revoked the presented token, every later lookup of the same secret
      finds it gone or spoiled: it creates no token, and if the row is still there the refresh
      goes on to revoke all tokens of its owner. */
  lemma LateLookUpIsRefused(cfg: Config, run: seq<Timed>, i: nat, j: nat, c: nat, d: nat)
    requires i < j < |run|
    requires run[i].statement == RevokeOld(c) && At(WorldAt(cfg, run, i), c, Checked)
    requires run[j].statement == LookUp(d, WorldAt(cfg, run, i).calls[c].raw) && d !in WorldAt(cfg, run, j).calls
    ensures var w, w', raw := WorldAt(cfg, run, j), WorldAt(cfg, run, j + 1), WorldAt(cfg, run, i).calls[c].raw;
            && !Live(w, run[j].now, raw) && w'.rows == w.rows
            && if Find(w, raw).None? then w' == w
               else At(w', d, Reused) && w'.calls[d].userId == w.rows[Find(w, raw).value].userId
  {
    var raw := WorldAt(cfg, run, i).calls[c].raw;
    RevokedIsSpent(cfg, run, i, j, c);
    SpentIsNotLive(WorldAt(cfg, run, j), run[j].now, raw);
    hide Live, Find, Spent;
  }

  lemma RevokedIsSpent(cfg: Config, run: seq<Timed>, i: nat, j: nat, c: nat)
    requires i < j <= |run|
    requires run[i].statement == RevokeOld(c) && At(WorldAt(cfg, run, i), c, Checked)
    ensures Spent(WorldAt(cfg, run, j), WorldAt(cfg, run, i).calls[c].raw)
  {
    var w, raw := WorldAt(cfg, run, i), WorldAt(cfg, run, i).calls[c].raw;
    AlwaysInv(cfg, run, i);
    RevokingSpends(w, c, run[i].now);
    assert Spent(WorldAt(cfg, run, i + 1), raw);
    SpentForever(cfg, run, i + 1, j, raw);
  }

  lemma SpentIsNotLive(w: World, now: int, raw: Uuid)
    requires Spent(w, raw)
    ensures !Live(w, now, raw) && (Find(w, raw).Some? ==> Spoiled(w, raw))
  {
  }

  /** Reuse, once detected, ends with no live token of that user, whatever came in between. */
  lemma ReuseRevokesFamily(cfg: Config, w: World, now: int, d: nat)
    requires At(w, d, Reused)
    ensures UnrevokedOf(Step(cfg, w, now, RevokeFamily(d)).rows, w.calls[d].userId) == {}
  {
  }

  /** Single use, statement by statement: two refreshes of one secret both get a new token if and
      only if each one's lookup found it live, before the other had revoked it. */
  lemma BothExchangedIff(cfg: Config, run: seq<Timed>, raw: Uuid, c: nat, l: nat, r: nat, n: nat,
                         d: nat, l': nat, r': nat, n': nat)
    requires c != d && Presents(run, c, raw, l, r, n) && Presents(run, d, raw, l', r', n')
    ensures Exchanged(cfg, run, c) && Exchanged(cfg, run, d)
       <==> LiveAt(cfg, run, l, raw) && LiveAt(cfg, run, l', raw) && l < r' && l' < r
  {
    ExchangedIffLive(cfg, run, c, raw, l, r, n);
    ExchangedIffLive(cfg, run, d, raw, l', r', n');
    LiveIsBefore(cfg, run, raw, c, l, r, n, d, l', r', n');
    LiveIsBefore(cfg, run, raw, d, l', r', n', c, l, r, n);
  }

  lemma LiveIsBefore(cfg: Config, run: seq<Timed>, raw: Uuid, c: nat, l: nat, r: nat, n: nat,
                     d: nat, l': nat, r': nat, n': nat)
    requires Presents(run, c, raw, l, r, n) && Presents(run, d, raw, l', r', n')
    ensures LiveAt(cfg, run, l, raw) && LiveAt(cfg, run, l', raw) ==> l' < r
  {
    hide Step, Live, Spent, WorldAt;
    if r < l' && LiveAt(cfg, run, l, raw) {
      PhaseAt(cfg, run, c, raw, l, r, n, r);
      RevokedIsSpent(cfg, run, r, l', c);
      SpentIsNotLive(WorldAt(cfg, run, l'), run[l'].now, raw);
    }
  }

  /** Two refreshes of the first secret, each looking it up before either revokes it. */
  function TwiceRun(userId: Uuid): seq<Timed> {
    [Timed(0, SignIn(userId)), Timed(0, LookUp(0, 0)), Timed(0, LookUp(1, 0)), Timed(0, RevokeOld(0)),
     Timed(0, RevokeOld(1)), Timed(0, CreateNew(0)), Timed(0, CreateNew(1))]
  }

  lemma WorldNext(cfg: Config, run: seq<Timed>, i: nat)
    requires i < |run|
    ensures WorldAt(cfg, run, i + 1) == Step(cfg, WorldAt(cfg, run, i), run[i].now, run[i].statement)
  {
  }

  lemma FirstTokenLive(cfg: Config, userId: Uuid, calls: map<nat, Call>)
    requires cfg.Valid()
    ensures var w := World(map[1 := NewRefreshToken(userId, 0, 0, cfg.refreshLifetime)], 2, calls);
            Live(w, 0, 0) && !Spoiled(w, 0) && Find(w, 0) == Some(1)
  {
    var w := World(map[1 := NewRefreshToken(userId, 0, 0, cfg.refreshLifetime)], 2, calls);
    assert RefreshHashes(w.rows)[1] == HashOf(0);
  }

  /** So a secret can be exchanged twice: the run leaves two live tokens, both obtained for it. */
  lemma OverlapExchangesTwice(cfg: Config, userId: Uuid)
    requires cfg.Valid()
    ensures var run := TwiceRun(userId);
            var w := WorldAt(cfg, run, |run|);
            && Presents(run, 0, 0, 1, 3, 5) && Presents(run, 1, 0, 2, 4, 6)
            && w.calls.Keys == {0, 1} && NewId(w.calls[0]) == Some(3) && NewId(w.calls[1]) == Some(5)
            && UnrevokedOf(w.rows, userId) == {3, 5}
  {
    hide WorldAt;
    var run, live := TwiceRun(userId), NewRefreshToken(userId, 0, 0, cfg.refreshLifetime);
    TwiceRevoked(cfg, userId);
    WorldNext(cfg, run, 5);
    WorldNext(cfg, run, 6);
    hide Presents;
    assert WorldAt(cfg, run, 7).rows == map[1 := Revoke(live, 0),
                                            3 := NewRefreshToken(userId, 2, 0, cfg.refreshLifetime),
                                            5 := NewRefreshToken(userId, 4, 0, cfg.refreshLifetime)];
    TwicePresented(userId);
  }

  lemma TwicePresented(userId: Uuid)
    ensures Presents(TwiceRun(userId), 0, 0, 1, 3, 5) && Presents(TwiceRun(userId), 1, 0, 2, 4, 6)
  {
  }

  lemma TwiceRevoked(cfg: Config, userId: Uuid)
    requires cfg.Valid()
    ensures WorldAt(cfg, TwiceRun(userId), 5)
         == World(map[1 := Revoke(NewRefreshToken(userId, 0, 0, cfg.refreshLifetime), 0)], 2,
                  map[0 := Call(0, 1, userId, Stamped), 1 := Call(0, 1, userId, Stamped)])
  {
    hide WorldAt;
    TwiceLookUps(cfg, userId);
    WorldNext(cfg, TwiceRun(userId), 3);
    WorldNext(cfg, TwiceRun(userId), 4);
  }

  lemma TwiceLookUps(cfg: Config, userId: Uuid)
    requires cfg.Valid()
    ensures WorldAt(cfg, TwiceRun(userId), 3)
         == World(map[1 := NewRefreshToken(userId, 0, 0, cfg.refreshLifetime)], 2,
                  map[0 := Call(0, 1, userId, Checked), 1 := Call(0, 1, userId, Checked)])
  {
    var run := TwiceRun(userId);
    WorldNext(cfg, run, 0);
    WorldNext(cfg, run, 1);
    WorldNext(cfg, run, 2);
    FirstTokenLive(cfg, userId, map[]);
    FirstTokenLive(cfg, userId, map[0 := Call(0, 1, userId, Checked)]);
    hide Live, Spoiled, Find, WorldAt;
    assert WorldAt(cfg, run, 0) == START by { Starts(cfg, run); }
  }

  lemma Starts(cfg: Config, run: seq<Timed>)
    ensures WorldAt(cfg, run, 0) == START
  {
  }

  // ---------- Mass revocation ----------

  ghost predicate CreatedAt(cfg: Config, run: seq<Timed>, m: nat, id: Uuid)
    requires m < |run|
  {
    id !in WorldAt(cfg, run, m).rows && id in WorldAt(cfg, run, m + 1).rows
  }

  /** The lookup of call `c` is statement `k`, and finds a live row. */
  ghost predicate BeginsAt(cfg: Config, run: seq<Timed>, k: nat, c: nat)
    requires k < |run|
  {
    c !in WorldAt(cfg, run, k).calls && At(WorldAt(cfg, run, k + 1), c, Checked)
  }

  /** The call of this user has looked up a live row, and has its new one still to create. */
  predicate InFlight(w: World, c: nat, userId: Uuid) {
    c in w.calls && w.calls[c].userId == userId && (w.calls[c].stage.Checked? || w.calls[c].stage.Stamped?)
  }

  /** By statement `j`, row `id` came, through refreshes begun since `i`, from a sign-in of the user
      since `i` or from a refresh in flight at `i`. */
  ghost predicate Descends(cfg: Config, run: seq<Timed>, userId: Uuid, i: nat, j: nat, id: Uuid)
    requires i <= j <= |run|
    decreases j
  {
    exists m {:trigger CreatedAt(cfg, run, m, id)} | i <= m < j ::
      CreatedAt(cfg, run, m, id) &&
      match run[m].statement
      case SignIn(user) => user == userId
      case CreateNew(c) =>
        || InFlight(WorldAt(cfg, run, i), c, userId)
        || exists k {:trigger BeginsAt(cfg, run, k, c)} | i <= k < m ::
             BeginsAt(cfg, run, k, c) && Descends(cfg, run, userId, i, k, WorldAt(cfg, run, k + 1).calls[c].tokenId)
      case _ => false
  }

  ghost predicate LiveRow(w: World, id: Uuid, userId: Uuid) {
    id in w.rows && w.rows[id].userId == userId && !w.rows[id].revoked
  }

  /** Where a live row comes from: it was there, or it is a sign-in's, or a stamped call's. */
  lemma LiveRowStep(cfg: Config, w: World, now: int, st: Statement, id: Uuid, userId: Uuid)
    requires Inv(w) && LiveRow(Step(cfg, w, now, st), id, userId)
    ensures || LiveRow(w, id, userId)
            || (id !in w.rows && st == SignIn(userId))
            || (id !in w.rows && st.CreateNew? && At(w, st.call, Stamped) && w.calls[st.call].userId == userId)
  {
    StatementEvolves(cfg, w, now, st, id);
    hide Inv, Find, Live, Spoiled;
  }

  lemma {:induction false} Beginning(cfg: Config, run: seq<Timed>, a: nat, b: nat, c: nat) returns (k: nat)
    requires a <= b <= |run| && c !in WorldAt(cfg, run, a).calls && c in WorldAt(cfg, run, b).calls
    ensures a <= k < b && c !in WorldAt(cfg, run, k).calls && c in WorldAt(cfg, run, k + 1).calls
  {
    hide Step, WorldAt;
    if c in WorldAt(cfg, run, b - 1).calls {
      k := Beginning(cfg, run, a, b - 1, c);
    } else {
      k := b - 1;
    }
  }

  /** A call that gets as far as `Stamped` began with a live row of its owner. */
  lemma BeganLive(cfg: Config, run: seq<Timed>, k: nat, b: nat, c: nat)
    requires k < b <= |run| && c !in WorldAt(cfg, run, k).calls && c in WorldAt(cfg, run, k + 1).calls
    requires At(WorldAt(cfg, run, b), c, Stamped)
    ensures BeginsAt(cfg, run, k, c)
    ensures var call := WorldAt(cfg, run, k + 1).calls[c];
            && call.userId == WorldAt(cfg, run, b).calls[c].userId
            && LiveRow(WorldAt(cfg, run, k), call.tokenId, call.userId)
  {
    CallForward(cfg, run, k + 1, b, c);
    WorldNext(cfg, run, k);
    CallStep(cfg, WorldAt(cfg, run, k), run[k].now, run[k].statement, c);
    hide WorldAt, Find;
  }

  /** Both mass revocations, an explicit one and that of a detected reuse, leave no live row. */
  lemma MassRevocationLeavesNone(cfg: Config, w: World, now: int, st: Statement, userId: Uuid)
    requires st == RevokeUser(userId)
             || (st.RevokeFamily? && At(w, st.call, Reused) && w.calls[st.call].userId == userId)
    ensures UnrevokedOf(Step(cfg, w, now, st).rows, userId) == {}
  {
  }

  /** From a moment at which the user has no live row, every live row of theirs descends from a
      sign-in made since, or from a refresh that was between its lookup and its insertion then. */
  lemma {:induction false} LiveRowsDescend(cfg: Config, run: seq<Timed>, userId: Uuid, i: nat, j: nat, id: Uuid)
    requires i <= j <= |run| && UnrevokedOf(WorldAt(cfg, run, i).rows, userId) == {}
    requires LiveRow(WorldAt(cfg, run, j), id, userId)
    ensures Descends(cfg, run, userId, i, j, id)
    decreases j
  {
    hide Step, WorldAt, LiveRow, InFlight, UnrevokedOf;
    LiveIsUnrevoked(WorldAt(cfg, run, j), id, userId);
    var w, st := WorldAt(cfg, run, j - 1), run[j - 1].statement;
    WorldNext(cfg, run, j - 1);
    AlwaysInv(cfg, run, j - 1);
    LiveRowStep(cfg, w, run[j - 1].now, st, id, userId);
    if LiveRow(w, id, userId) {
      LiveRowsDescend(cfg, run, userId, i, j - 1, id);
      LaterDescends(cfg, run, userId, i, j - 1, j, id);
    } else {
      assert CreatedAt(cfg, run, j - 1, id);
      if st.CreateNew? {
        NewRowDescends(cfg, run, userId, i, j, id, st.call);
      }
    }
  }

  lemma LiveIsUnrevoked(w: World, id: Uuid, userId: Uuid)
    requires LiveRow(w, id, userId)
    ensures id in w.rows && id in UnrevokedOf(w.rows, userId)
  {
  }

  lemma LaterDescends(cfg: Config, run: seq<Timed>, userId: Uuid, i: nat, j: nat, later: nat, id: Uuid)
    requires i <= j <= later <= |run| && Descends(cfg, run, userId, i, j, id)
    ensures Descends(cfg, run, userId, i, later, id)
  {
    hide WorldAt, InFlight, CreatedAt, BeginsAt;
  }

  lemma {:induction false} NewRowDescends(cfg: Config, run: seq<Timed>, userId: Uuid, i: nat, j: nat, id: Uuid, c: nat)
    requires i < j <= |run| && UnrevokedOf(WorldAt(cfg, run, i).rows, userId) == {}
    requires CreatedAt(cfg, run, j - 1, id) && run[j - 1].statement == CreateNew(c)
    requires At(WorldAt(cfg, run, j - 1), c, Stamped) && WorldAt(cfg, run, j - 1).calls[c].userId == userId
    ensures Descends(cfg, run, userId, i, j, id)
    decreases j, 0
  {
    hide Step, WorldAt, CreatedAt, UnrevokedOf;
    if c in WorldAt(cfg, run, i).calls {
      CallForward(cfg, run, i, j - 1, c);
      assert InFlight(WorldAt(cfg, run, i), c, userId);
    } else {
      var k := Beginning(cfg, run, i, j - 1, c);
      BeganLive(cfg, run, k, j - 1, c);
      hide LiveRow, InFlight;
      LiveRowsDescend(cfg, run, userId, i, k, WorldAt(cfg, run, k + 1).calls[c].tokenId);
    }
  }

  // ---------- When a mass revocation holds ----------

  /** Statement `m` inserts the new row of a refresh that was in flight at `i`. */
  ghost predicate Slips(cfg: Config, run: seq<Timed>, userId: Uuid, i: nat, m: nat)
    requires i <= m < |run|
  {
    var st := run[m].statement;
    st.CreateNew? && InFlight(WorldAt(cfg, run, i), st.call, userId) && At(WorldAt(cfg, run, m), st.call, Stamped)
  }

  ghost predicate NoneAt(cfg: Config, run: seq<Timed>, userId: Uuid, k: nat)
    requires k <= |run|
  {
    UnrevokedOf(WorldAt(cfg, run, k).rows, userId) == {}
  }

  ghost predicate NoneThroughout(cfg: Config, run: seq<Timed>, userId: Uuid, i: nat, j: nat)
    requires i <= j <= |run|
  {
    forall k | i <= k <= j :: NoneAt(cfg, run, userId, k)
  }

  ghost predicate NothingComes(cfg: Config, run: seq<Timed>, userId: Uuid, i: nat, j: nat)
    requires i <= j <= |run|
  {
    forall m | i <= m < j :: run[m].statement != SignIn(userId) && !Slips(cfg, run, userId, i, m)
  }

  /** A sign-in inserts a live row, and so does a refresh that was in flight: always. */
  lemma ComingLeavesOne(cfg: Config, run: seq<Timed>, userId: Uuid, i: nat, m: nat)
    requires i <= m < |run| && (run[m].statement == SignIn(userId) || Slips(cfg, run, userId, i, m))
    ensures !NoneAt(cfg, run, userId, m + 1)
  {
    hide Step;
    var w, st := WorldAt(cfg, run, m), run[m].statement;
    WorldNext(cfg, run, m);
    if st.CreateNew? {
      CallForward(cfg, run, i, m, st.call);
    }
    InsertedIsLive(cfg, w, run[m].now, st, userId);
    hide WorldAt;
  }

  lemma InsertedIsLive(cfg: Config, w: World, now: int, st: Statement, userId: Uuid)
    requires || st == SignIn(userId)
             || (st.CreateNew? && At(w, st.call, Stamped) && w.calls[st.call].userId == userId)
    ensures w.uuids + 1 in UnrevokedOf(Step(cfg, w, now, st).rows, userId)
  {
  }

  /** Whoever descends came, in the end, from a sign-in or from a refresh in flight. */
  lemma {:induction false} OriginOf(cfg: Config, run: seq<Timed>, userId: Uuid, i: nat, j: nat, id: Uuid)
    requires i <= j <= |run| && Descends(cfg, run, userId, i, j, id)
    ensures !NothingComes(cfg, run, userId, i, j)
    decreases j
  {
    hide Step, WorldAt, InFlight;
    var m :| i <= m < j && CreatedAt(cfg, run, m, id) &&
      match run[m].statement
      case SignIn(user) => user == userId
      case CreateNew(c) =>
        || InFlight(WorldAt(cfg, run, i), c, userId)
        || exists k {:trigger BeginsAt(cfg, run, k, c)} | i <= k < m ::
             BeginsAt(cfg, run, k, c) && Descends(cfg, run, userId, i, k, WorldAt(cfg, run, k + 1).calls[c].tokenId)
      case _ => false;
    var st := run[m].statement;
    if st.CreateNew? {
      if InFlight(WorldAt(cfg, run, i), st.call, userId) {
        CreatingIsStamped(cfg, run, m, id);
        assert Slips(cfg, run, userId, i, m);
      } else {
        var k :| i <= k < m && BeginsAt(cfg, run, k, st.call)
                 && Descends(cfg, run, userId, i, k, WorldAt(cfg, run, k + 1).calls[st.call].tokenId);
        OriginOf(cfg, run, userId, i, k, WorldAt(cfg, run, k + 1).calls[st.call].tokenId);
        hide Slips;
      }
    }
  }

  lemma CreatingIsStamped(cfg: Config, run: seq<Timed>, m: nat, id: Uuid)
    requires m < |run| && run[m].statement.CreateNew? && CreatedAt(cfg, run, m, id)
    ensures At(WorldAt(cfg, run, m), run[m].statement.call, Stamped)
  {
    WorldNext(cfg, run, m);
    hide WorldAt;
  }

  /** From a moment at which the user has no live row, they have none at any later moment if and
      only if, since then, they do not sign in and no refresh that was in flight inserts its row. */
  lemma RevocationHoldsIff(cfg: Config, run: seq<Timed>, userId: Uuid, i: nat, j: nat)
    requires i <= j <= |run| && NoneAt(cfg, run, userId, i)
    ensures NoneThroughout(cfg, run, userId, i, j) <==> NothingComes(cfg, run, userId, i, j)
  {
    hide Step, WorldAt, Slips, Descends, UnrevokedOf, LiveRow;
    if NoneThroughout(cfg, run, userId, i, j) {
      forall m | i <= m < j
        ensures run[m].statement != SignIn(userId) && !Slips(cfg, run, userId, i, m)
      {
        assert NoneAt(cfg, run, userId, m + 1);
        if run[m].statement == SignIn(userId) || Slips(cfg, run, userId, i, m) {
          ComingLeavesOne(cfg, run, userId, i, m);
        }
      }
    }
    if NothingComes(cfg, run, userId, i, j) {
      forall k | i <= k <= j
        ensures NoneAt(cfg, run, userId, k)
      {
        if !NoneAt(cfg, run, userId, k) {
          var id := SomeLive(cfg, run, userId, k);
          LiveRowsDescend(cfg, run, userId, i, k, id);
          OriginOf(cfg, run, userId, i, k, id);
        }
      }
    }
  }

  lemma SomeLive(cfg: Config, run: seq<Timed>, userId: Uuid, k: nat) returns (id: Uuid)
    requires k <= |run| && !NoneAt(cfg, run, userId, k)
    ensures LiveRow(WorldAt(cfg, run, k), id, userId)
  {
    id :| id in UnrevokedOf(WorldAt(cfg, run, k).rows, userId);
    hide WorldAt;
  }

  /** A refresh is between its lookup and its insertion when all tokens of its user are revoked. */
  function CaughtRun(userId: Uuid): seq<Timed> {
    [Timed(0, SignIn(userId)), Timed(0, LookUp(0, 0)), Timed(0, RevokeOld(0)),
     Timed(0, RevokeUser(userId)), Timed(0, CreateNew(0))]
  }

  /** The second case occurs: the mass revocation leaves a live token behind, of the refresh that
      was in flight, and nobody has signed in since. */
  lemma InFlightOutlivesRevocation(cfg: Config, userId: Uuid)
    requires cfg.Valid()
    ensures var run := CaughtRun(userId);
            && InFlight(WorldAt(cfg, run, 3), 0, userId)
            && UnrevokedOf(WorldAt(cfg, run, 4).rows, userId) == {}
            && UnrevokedOf(WorldAt(cfg, run, 5).rows, userId) == {3}
  {
    var run, live := CaughtRun(userId), NewRefreshToken(userId, 0, 0, cfg.refreshLifetime);
    WorldNext(cfg, run, 0);
    WorldNext(cfg, run, 1);
    FirstTokenLive(cfg, userId, map[]);
    Starts(cfg, run);
    hide Live, Spoiled, Find;
    WorldNext(cfg, run, 2);
    WorldNext(cfg, run, 3);
    WorldNext(cfg, run, 4);
    hide WorldAt;
    assert WorldAt(cfg, run, 3) == World(map[1 := Revoke(live, 0)], 2, map[0 := Call(0, 1, userId, Stamped)]);
    assert WorldAt(cfg, run, 4).rows == map[1 := Revoke(live, 0)];
    assert WorldAt(cfg, run, 5).rows
      == map[1 := Revoke(live, 0), 3 := NewRefreshToken(userId, 2, 0, cfg.refreshLifetime)];
  }
}
