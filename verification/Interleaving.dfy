/** Refresh-token rotation one database statement at a time.

    The service runs a refresh as a lookup and up to three updates, with no transaction around
    them; statements of other refreshes and other requests may fall in between. Here is what
    holds even so, and that a refresh nobody interrupts is the single step of the state machine. */
module Interleaving {
  import opened Types
  import opened Tables
  import opened Accounts
  import opened Machine

  /** How far a refresh has come since its lookup found a row: on to a new token if the row was
      live, or on to the revocation of all its owner's tokens if it was revoked already. */
  datatype Stage =
    | Checked
    | Stamped
    | Issued(newId: Uuid)
    | Linked(newId: Uuid)
    | Reused
    | Refused

  /** One refresh: the secret presented, the row found for it, and that row's owner as read. */
  datatype Call = Call(raw: Uuid, tokenId: Uuid, userId: Uuid, stage: Stage)

  datatype World = World(rows: RefreshTokens, uuids: nat, calls: map<nat, Call>)

  datatype Statement =
    | LookUp(call: nat, raw: Uuid)
    | RevokeOld(call: nat)
    | CreateNew(call: nat)
    | Link(call: nat)
    | RevokeFamily(call: nat)
    | SignIn(userId: Uuid)
    | RevokeRow(id: Uuid)
    | RevokeUser(userId: Uuid)
    | Delete(ids: set<Uuid>)

  ghost function Find(w: World, raw: Uuid): Option<Uuid> {
    FindKey(RefreshHashes(w.rows), HashOf(raw))
  }

  ghost predicate Spoiled(w: World, raw: Uuid) {
    var found := Find(w, raw);
    found.Some? && w.rows[found.value].revoked
  }

  ghost predicate Live(w: World, now: int, raw: Uuid) {
    var found := Find(w, raw);
    found.Some? && !w.rows[found.value].revoked && w.rows[found.value].expiresAt >= now
  }

  predicate At(w: World, call: nat, stage: Stage) {
    call in w.calls && w.calls[call].stage == stage
  }

  ghost function Begin(w: World, call: nat, raw: Uuid, stage: Stage): World
    requires Find(w, raw).Some?
  {
    var id := Find(w, raw).value;
    w.(calls := w.calls[call := Call(raw, id, w.rows[id].userId, stage)])
  }

  function Advance(w: World, call: nat, stage: Stage): World
    requires call in w.calls
  {
    w.(calls := w.calls[call := w.calls[call].(stage := stage)])
  }

  function Insert(cfg: Config, w: World, userId: Uuid, now: int): World {
    w.(rows := w.rows[w.uuids + 1 := NewRefreshToken(userId, w.uuids, now, cfg.refreshLifetime)], uuids := w.uuids + 2)
  }

  function SetReplacedBy(rows: RefreshTokens, id: Uuid, newId: Uuid): RefreshTokens {
    if id in rows then rows[id := rows[id].(replacedBy := Some(newId))] else rows
  }

  /** A lookup that finds no row, or an expired one, ends the refresh there; a statement out of
      turn does nothing. An insertion is one that succeeds: the foreign key refuses the row of a
      user who has been deleted, and a refused insertion changes nothing and ends the refresh. */
  ghost function Step(cfg: Config, w: World, now: int, st: Statement): World {
    match st
    case LookUp(c, raw) =>
      if c in w.calls then w
      else if Spoiled(w, raw) then Begin(w, c, raw, Reused)
      else if Live(w, now, raw) then Begin(w, c, raw, Checked)
      else w
    case RevokeOld(c) =>
      if At(w, c, Checked) then Advance(w.(rows := RevokeOne(w.rows, w.calls[c].tokenId, now)), c, Stamped) else w
    case CreateNew(c) =>
      if At(w, c, Stamped) then Advance(Insert(cfg, w, w.calls[c].userId, now), c, Issued(w.uuids + 1)) else w
    case Link(c) =>
      if c in w.calls && w.calls[c].stage.Issued? then
        var newId := w.calls[c].stage.newId;
        Advance(w.(rows := SetReplacedBy(w.rows, w.calls[c].tokenId, newId)), c, Linked(newId))
      else w
    case RevokeFamily(c) =>
      if At(w, c, Reused) then Advance(w.(rows := RevokeAllOf(w.rows, w.calls[c].userId, now)), c, Refused) else w
    case SignIn(userId) => Insert(cfg, w, userId, now)
    case RevokeRow(id) => w.(rows := RevokeOne(w.rows, id, now))
    case RevokeUser(userId) => w.(rows := RevokeAllOf(w.rows, userId, now))
    case Delete(ids) => w.(rows := w.rows - ids)
  }

  // ---------- A refresh nobody interrupts ----------

  /** All statements of one call at one time; those that are not its turn do nothing. */
  ghost function Uninterrupted(cfg: Config, w: World, now: int, c: nat, raw: Uuid): World {
    var found := Step(cfg, Step(cfg, w, now, LookUp(c, raw)), now, RevokeFamily(c));
    Step(cfg, Step(cfg, Step(cfg, found, now, RevokeOld(c)), now, CreateNew(c)), now, Link(c))
  }

  /** The statements of one call, run one after the other, are one step of the state machine, and
      how far they get is its answer. */
  lemma UninterruptedIsRefresh(cfg: Config, s: State, now: int, raw: Uuid, c: nat, calls: map<nat, Call>)
    requires c !in calls && forall id | id in s.refreshTokens :: id < s.uuids
    ensures var w := Uninterrupted(cfg, World(s.refreshTokens, s.uuids, calls), now, c, raw);
            var o := DoRefresh(cfg, s, now, raw);
            && w.rows == o.state.refreshTokens && w.uuids == o.state.uuids
            && match o.reply
               case Session(userId, newRaw) => At(w, c, Linked(newRaw + 1)) && w.calls[c].userId == userId
               case Failed(error) => if error == TokenReuseDetected then At(w, c, Refused) else c !in w.calls
               case Done => false
  {
    var w := World(s.refreshTokens, s.uuids, calls);
    assert FindToken(s, raw) == Find(w, raw);
    hide FindKey, RevokeAllOf;
    var w1 := Step(cfg, w, now, LookUp(c, raw));
    if Spoiled(w, raw) {
      assert At(w1, c, Reused);
    } else if Live(w, now, raw) {
      assert At(w1, c, Checked);
      UninterruptedIsRotate(cfg, s, now, w1, c);
    } else {
      assert w1 == w;
    }
  }

  lemma UninterruptedIsRotate(cfg: Config, s: State, now: int, w: World, c: nat)
    requires At(w, c, Checked) && w.rows == s.refreshTokens && w.uuids == s.uuids
    requires var id := w.calls[c].tokenId; id in w.rows && id < w.uuids && w.rows[id].userId == w.calls[c].userId
    ensures var o := Rotate(cfg, s, now, w.calls[c].tokenId);
            var w' := Step(cfg, Step(cfg, Step(cfg, w, now, RevokeOld(c)), now, CreateNew(c)), now, Link(c));
            && w'.rows == o.state.refreshTokens && w'.uuids == o.state.uuids
            && At(w', c, Linked(s.uuids + 1)) && w'.calls[c].userId == w.calls[c].userId
            && o.reply == Session(w.calls[c].userId, s.uuids)
  {
  }

  // ---------- What every interleaving keeps ----------

  predicate LinkOk(w: World, p: Uuid) {
    p in w.rows && w.rows[p].replacedBy.Some? ==> w.rows[p].revoked && p < w.rows[p].replacedBy.value < w.uuids
  }

  predicate RowOk(w: World, id: Uuid) {
    id in w.rows ==> id < w.uuids && w.rows[id].tokenHash.raw < w.uuids
  }

  /** No live row opens to `raw`, now or ever. */
  predicate Spent(w: World, raw: Uuid) {
    raw < w.uuids && forall id | id in w.rows && w.rows[id].tokenHash == HashOf(raw) :: w.rows[id].revoked
  }

  function NewId(call: Call): Option<Uuid> {
    match call.stage
    case Issued(q) => Some(q)
    case Linked(q) => Some(q)
    case Checked => None
    case Stamped => None
    case Reused => None
    case Refused => None
  }

  predicate CallOk(w: World, call: Call) {
    && call.raw < w.uuids && call.tokenId < w.uuids
    && (forall id | id in w.rows :: w.rows[id].tokenHash == HashOf(call.raw) <==> id == call.tokenId)
    && (call.tokenId in w.rows ==> w.rows[call.tokenId].userId == call.userId)
    && (!call.stage.Checked? ==> Spent(w, call.raw))
    && (NewId(call).Some? ==>
          && call.tokenId < NewId(call).value < w.uuids
          && (NewId(call).value in w.rows ==> w.rows[NewId(call).value].userId == call.userId))
  }

  /** Each new row was created for one call; what links to it is that call's old row, once linked. */
  ghost predicate CallsOk(w: World) {
    && (forall c | c in w.calls :: CallOk(w, w.calls[c]))
    && (forall c, d | c in w.calls && d in w.calls && NewId(w.calls[c]).Some? ::
          NewId(w.calls[c]) == NewId(w.calls[d]) ==> c == d)
    && (forall p | p in w.rows && w.rows[p].replacedBy.Some? :: LinkedBySome(w, p, w.rows[p].replacedBy.value))
  }

  ghost predicate LinkedBySome(w: World, p: Uuid, q: Uuid) {
    exists c :: c in w.calls && w.calls[c].tokenId == p && w.calls[c].stage == Linked(q)
  }

  ghost predicate Inv(w: World) {
    && (forall id :: RowOk(w, id) && LinkOk(w, id))
    && Unique(RefreshHashes(w.rows))
    && CallsOk(w)
  }

  /** Rows may be revoked or deleted; what else is in them stays. */
  predicate Fewer(rows: RefreshTokens, rows': RefreshTokens) {
    forall id | id in rows' ::
      && id in rows
      && rows'[id] == rows[id].(revoked := rows'[id].revoked, revokedAt := rows'[id].revokedAt)
      && (rows[id].revoked ==> rows'[id].revoked)
  }

  lemma FewerKeeps(w: World, rows: RefreshTokens)
    requires Inv(w) && Fewer(w.rows, rows)
    ensures Inv(w.(rows := rows))
  {
    var w' := w.(rows := rows);
    forall id
      ensures RowOk(w', id) && LinkOk(w', id)
    {
      assert RowOk(w, id) && LinkOk(w, id);
    }
    forall a, b | a in rows && b in rows && RefreshHashes(rows)[a] == RefreshHashes(rows)[b]
      ensures a == b
    {
      assert RefreshHashes(w.rows)[a] == RefreshHashes(w.rows)[b];
    }
    forall c | c in w'.calls
      ensures CallOk(w', w'.calls[c])
    {
      assert CallOk(w, w.calls[c]);
    }
    forall p | p in rows && rows[p].replacedBy.Some?
      ensures LinkedBySome(w', p, rows[p].replacedBy.value)
    {
      assert LinkedBySome(w, p, rows[p].replacedBy.value);
    }
  }

  lemma InsertKeeps(cfg: Config, w: World, userId: Uuid, now: int)
    requires Inv(w)
    ensures Inv(Insert(cfg, w, userId, now))
  {
    var w' := Insert(cfg, w, userId, now);
    assert RowOk(w, w.uuids + 1);
    forall id
      ensures RowOk(w', id) && LinkOk(w', id)
    {
      assert RowOk(w, id) && LinkOk(w, id);
    }
    forall a, b | a in w'.rows && b in w'.rows && w'.rows[a].tokenHash == w'.rows[b].tokenHash
      ensures a == b
    {
      assert RowOk(w, a) && RowOk(w, b);
      if a in w.rows && b in w.rows {
        assert RefreshHashes(w.rows)[a] == RefreshHashes(w.rows)[b];
      }
    }
    forall c | c in w'.calls
      ensures CallOk(w', w'.calls[c])
    {
      assert CallOk(w, w.calls[c]);
    }
    forall p | p in w'.rows && w'.rows[p].replacedBy.Some?
      ensures LinkedBySome(w', p, w'.rows[p].replacedBy.value)
    {
      assert LinkedBySome(w, p, w.rows[p].replacedBy.value);
    }
  }

  /** Recording progress of one call, when the rows bear it out and nothing links to its new row yet. */
  lemma AdvanceKeeps(w: World, c: nat, stage: Stage)
    requires Inv(w) && c in w.calls && !w.calls[c].stage.Linked?
    requires CallOk(w, w.calls[c].(stage := stage))
    requires forall d | d in w.calls && d != c ::
               NewId(w.calls[d]).Some? ==> NewId(w.calls[d]) != NewId(w.calls[c].(stage := stage))
    ensures Inv(Advance(w, c, stage))
  {
    var w' := Advance(w, c, stage);
    forall id
      ensures RowOk(w', id) && LinkOk(w', id)
    {
      assert RowOk(w, id) && LinkOk(w, id);
    }
    forall d | d in w'.calls
      ensures CallOk(w', w'.calls[d])
    {
      assert d != c ==> CallOk(w, w.calls[d]);
    }
    forall p | p in w'.rows && w'.rows[p].replacedBy.Some?
      ensures LinkedBySome(w', p, w'.rows[p].replacedBy.value)
    {
      assert LinkedBySome(w, p, w.rows[p].replacedBy.value);
      var d :| d in w.calls && w.calls[d].tokenId == p && w.calls[d].stage == Linked(w.rows[p].replacedBy.value);
      assert d in w'.calls && w'.calls[d] == w.calls[d];
    }
  }

  lemma BegunOk(w: World, c: nat, raw: Uuid, stage: Stage)
    requires Inv(w) && Find(w, raw).Some? && stage == (if Spoiled(w, raw) then Reused else Checked)
    ensures var w' := Begin(w, c, raw, stage); CallOk(w', w'.calls[c])
  {
    var id := Find(w, raw).value;
    assert RowOk(w, id) && RefreshHashes(w.rows)[id] == HashOf(raw);
    forall other | other in w.rows && w.rows[other].tokenHash == HashOf(raw)
      ensures other == id
    {
      assert RefreshHashes(w.rows)[other] == RefreshHashes(w.rows)[id];
    }
  }

  lemma OthersStayOk(w: World, c: nat, raw: Uuid, stage: Stage, d: nat)
    requires CallsOk(w) && Find(w, raw).Some? && d in w.calls && d != c
    ensures CallOk(Begin(w, c, raw, stage), w.calls[d])
  {
    assert CallOk(w, w.calls[d]);
  }

  lemma BeginKeeps(w: World, c: nat, raw: Uuid, stage: Stage)
    requires Inv(w) && c !in w.calls && Find(w, raw).Some?
    requires stage == if Spoiled(w, raw) then Reused else Checked
    ensures Inv(Begin(w, c, raw, stage))
  {
    BegunOk(w, c, raw, stage);
    var w' := Begin(w, c, raw, stage);
    hide Find, Spoiled, CallOk;
    forall x
      ensures RowOk(w', x) && LinkOk(w', x)
    {
      assert RowOk(w, x) && LinkOk(w, x);
    }
    forall d | d in w'.calls
      ensures CallOk(w', w'.calls[d])
    {
      if d != c {
        OthersStayOk(w, c, raw, stage, d);
      }
    }
    forall p | p in w'.rows && w'.rows[p].replacedBy.Some?
      ensures LinkedBySome(w', p, w'.rows[p].replacedBy.value)
    {
      assert LinkedBySome(w, p, w.rows[p].replacedBy.value);
      var d :| d in w.calls && w.calls[d].tokenId == p && w.calls[d].stage == Linked(w.rows[p].replacedBy.value);
      assert d in w'.calls && w'.calls[d] == w.calls[d];
    }
  }

  /** Once the old row is revoked its secret is spent: no other row has it. */
  lemma RevokingSpends(w: World, c: nat, now: int)
    requires Inv(w) && c in w.calls
    ensures Spent(w.(rows := RevokeOne(w.rows, w.calls[c].tokenId, now)), w.calls[c].raw)
  {
    var call := w.calls[c];
    assert CallOk(w, call);
    var rows := RevokeOne(w.rows, call.tokenId, now);
    forall id | id in rows && rows[id].tokenHash == HashOf(call.raw)
      ensures rows[id].revoked
    {
      assert w.rows[id].tokenHash == HashOf(call.raw);
    }
  }

  lemma RevokeFewer(rows: RefreshTokens, ids: set<Uuid>, id: Uuid, userId: Uuid, now: int)
    ensures Fewer(rows, RevokeOne(rows, id, now)) && Fewer(rows, RevokeAllOf(rows, userId, now))
            && Fewer(rows, rows - ids)
  {
  }

  lemma RevokeOldKeeps(w: World, now: int, c: nat)
    requires Inv(w) && At(w, c, Checked)
    ensures Inv(Advance(w.(rows := RevokeOne(w.rows, w.calls[c].tokenId, now)), c, Stamped))
  {
    var w' := w.(rows := RevokeOne(w.rows, w.calls[c].tokenId, now));
    RevokeFewer(w.rows, {}, w.calls[c].tokenId, 0, now);
    FewerKeeps(w, w'.rows);
    RevokingSpends(w, c, now);
    assert CallOk(w', w'.calls[c]);
    hide Inv, RevokeOne;
    AdvanceKeeps(w', c, Stamped);
  }

  lemma CreateNewKeeps(cfg: Config, w: World, now: int, c: nat)
    requires Inv(w) && At(w, c, Stamped)
    ensures Inv(Advance(Insert(cfg, w, w.calls[c].userId, now), c, Issued(w.uuids + 1)))
  {
    var w' := Insert(cfg, w, w.calls[c].userId, now);
    InsertKeeps(cfg, w, w.calls[c].userId, now);
    assert CallOk(w, w.calls[c]) && CallOk(w', w'.calls[c]);
    forall d | d in w'.calls && d != c
      ensures NewId(w.calls[d]) != Some(w.uuids + 1)
    {
      assert CallOk(w, w.calls[d]);
    }
    hide Inv, Insert;
    AdvanceKeeps(w', c, Issued(w.uuids + 1));
  }

  lemma LinkCallOk(w: World, c: nat, d: nat)
    requires CallsOk(w) && c in w.calls && d in w.calls && w.calls[c].stage.Issued?
    ensures var newId := w.calls[c].stage.newId;
            var w' := Advance(w.(rows := SetReplacedBy(w.rows, w.calls[c].tokenId, newId)), c, Linked(newId));
            CallOk(w', w'.calls[d])
  {
    assert CallOk(w, w.calls[d]);
  }

  lemma LinkKeeps(w: World, c: nat)
    requires Inv(w) && c in w.calls && w.calls[c].stage.Issued?
    ensures var newId := w.calls[c].stage.newId;
            Inv(Advance(w.(rows := SetReplacedBy(w.rows, w.calls[c].tokenId, newId)), c, Linked(newId)))
  {
    var p, q := w.calls[c].tokenId, w.calls[c].stage.newId;
    var w' := Advance(w.(rows := SetReplacedBy(w.rows, p, q)), c, Linked(q));
    assert CallOk(w, w.calls[c]);
    hide CallOk;
    forall id
      ensures RowOk(w', id) && LinkOk(w', id)
    {
      assert RowOk(w, id) && LinkOk(w, id);
    }
    assert RefreshHashes(w'.rows) == RefreshHashes(w.rows);
    forall d | d in w'.calls
      ensures CallOk(w', w'.calls[d])
    {
      LinkCallOk(w, c, d);
    }
    forall x | x in w'.rows && w'.rows[x].replacedBy.Some?
      ensures LinkedBySome(w', x, w'.rows[x].replacedBy.value)
    {
      if x == p {
        assert w'.calls[c].tokenId == x && w'.calls[c].stage == Linked(q);
      } else {
        assert LinkedBySome(w, x, w.rows[x].replacedBy.value);
        var d :| d in w.calls && w.calls[d].tokenId == x && w.calls[d].stage == Linked(w.rows[x].replacedBy.value);
        assert w'.calls[d] == w.calls[d];
      }
    }
  }

  lemma LookUpKeeps(w: World, now: int, c: nat, raw: Uuid)
    requires Inv(w) && c !in w.calls
    ensures Spoiled(w, raw) ==> Inv(Begin(w, c, raw, Reused))
    ensures !Spoiled(w, raw) && Live(w, now, raw) ==> Inv(Begin(w, c, raw, Checked))
  {
    hide Inv, Begin, Find;
    if Spoiled(w, raw) {
      BeginKeeps(w, c, raw, Reused);
    } else if Live(w, now, raw) {
      BeginKeeps(w, c, raw, Checked);
    }
  }

  lemma RevokeFamilyKeeps(w: World, now: int, c: nat)
    requires Inv(w) && At(w, c, Reused)
    ensures Inv(Advance(w.(rows := RevokeAllOf(w.rows, w.calls[c].userId, now)), c, Refused))
  {
    var w' := w.(rows := RevokeAllOf(w.rows, w.calls[c].userId, now));
    RevokeFewer(w.rows, {}, 0, w.calls[c].userId, now);
    FewerKeeps(w, w'.rows);
    assert CallOk(w', w'.calls[c]);
    hide Inv, RevokeAllOf;
    AdvanceKeeps(w', c, Refused);
  }

  lemma StepKeeps(cfg: Config, w: World, now: int, st: Statement)
    requires Inv(w)
    ensures Inv(Step(cfg, w, now, st))
  {
    hide Inv, Live, Spoiled, Find, Begin, Advance, Insert, SetReplacedBy, RevokeOne, RevokeAllOf, Fewer;
    match st
    case LookUp(c, raw) =>
      if c !in w.calls { LookUpKeeps(w, now, c, raw); }
    case RevokeOld(c) =>
      if At(w, c, Checked) { RevokeOldKeeps(w, now, c); }
    case CreateNew(c) =>
      if At(w, c, Stamped) { CreateNewKeeps(cfg, w, now, c); }
    case Link(c) =>
      if c in w.calls && w.calls[c].stage.Issued? { LinkKeeps(w, c); }
    case RevokeFamily(c) =>
      if At(w, c, Reused) { RevokeFamilyKeeps(w, now, c); }
    case SignIn(userId) => InsertKeeps(cfg, w, userId, now);
    case RevokeRow(id) => RevokeFewer(w.rows, {}, id, 0, now); FewerKeeps(w, RevokeOne(w.rows, id, now));
    case RevokeUser(userId) => RevokeFewer(w.rows, {}, 0, userId, now); FewerKeeps(w, RevokeAllOf(w.rows, userId, now));
    case Delete(ids) => RevokeFewer(w.rows, ids, 0, 0, now); FewerKeeps(w, w.rows - ids);
  }

  // ---------- Interleaved runs ----------

  datatype Timed = Timed(now: int, statement: Statement)

  const START := World(map[], 0, map[])

  ghost function WorldAt(cfg: Config, run: seq<Timed>, i: nat): World
    requires i <= |run|
  {
    if i == 0 then START else Step(cfg, WorldAt(cfg, run, i - 1), run[i - 1].now, run[i - 1].statement)
  }

  lemma {:induction false} AlwaysInv(cfg: Config, run: seq<Timed>, i: nat)
    requires i <= |run|
    ensures Inv(WorldAt(cfg, run, i))
  {
    if i > 0 {
      hide Inv, Step;
      AlwaysInv(cfg, run, i - 1);
      StepKeeps(cfg, WorldAt(cfg, run, i - 1), run[i - 1].now, run[i - 1].statement);
    }
  }

  /** However statements interleave: a row with a successor is revoked, its successor was created
      later and belongs to the same user, and no two rows share a successor. */
  lemma SuccessorsComeLater(cfg: Config, run: seq<Timed>, i: nat, p: Uuid, p': Uuid)
    requires i <= |run|
    requires var rows := WorldAt(cfg, run, i).rows; p in rows && p' in rows && rows[p].replacedBy.Some?
    ensures var rows := WorldAt(cfg, run, i).rows;
            var q := rows[p].replacedBy.value;
            && rows[p].revoked && p < q
            && (q in rows ==> rows[q].userId == rows[p].userId)
            && (rows[p'].replacedBy == Some(q) ==> p == p')
  {
    hide WorldAt, Step;
    var w := WorldAt(cfg, run, i);
    var q := w.rows[p].replacedBy.value;
    AlwaysInv(cfg, run, i);
    assert LinkOk(w, p) && LinkedBySome(w, p, q);
    var c :| c in w.calls && w.calls[c].tokenId == p && w.calls[c].stage == Linked(q);
    assert CallOk(w, w.calls[c]);
    if w.rows[p'].replacedBy == Some(q) {
      assert LinkedBySome(w, p', q);
    }
  }

  /** A row keeps its identity, and revocation is for good. */
  lemma StatementEvolves(cfg: Config, w: World, now: int, st: Statement, id: Uuid)
    requires Inv(w)
    ensures var w' := Step(cfg, w, now, st);
            && w.uuids <= w'.uuids
            && (id in w.rows && id in w'.rows ==>
                  && w'.rows[id].userId == w.rows[id].userId && w'.rows[id].tokenHash == w.rows[id].tokenHash
                  && w'.rows[id].expiresAt == w.rows[id].expiresAt
                  && (w.rows[id].revoked ==> w'.rows[id].revoked))
            && (id !in w.rows && id in w'.rows ==> w'.rows[id].tokenHash.raw >= w.uuids)
  {
    assert RowOk(w, id) && RowOk(w, w.uuids + 1);
    hide Inv, Find, Live, Spoiled, Begin;
  }

  lemma {:induction false} SpentForever(cfg: Config, run: seq<Timed>, i: nat, j: nat, raw: Uuid)
    requires i <= j <= |run| && Spent(WorldAt(cfg, run, i), raw)
    ensures Spent(WorldAt(cfg, run, j), raw)
  {
    hide Step, Inv;
    if i < j {
      SpentForever(cfg, run, i, j - 1, raw);
      var w, w' := WorldAt(cfg, run, j - 1), WorldAt(cfg, run, j);
      AlwaysInv(cfg, run, j - 1);
      forall id
        ensures id in w'.rows && w'.rows[id].tokenHash == HashOf(raw) ==> w'.rows[id].revoked
      {
        StatementEvolves(cfg, w, run[j - 1].now, run[j - 1].statement, id);
      }
      StatementEvolves(cfg, w, run[j - 1].now, run[j - 1].statement, 0);
    }
  }
}
