/** Access tokens and their revocation: a token's expiry is given in whole seconds, the clock and
    the blacklist's entries run in milliseconds. */
module AccessTokens {
  import opened Types

  /** A token as it decodes. `sub` is the user; `jti` is empty when the claim is missing or empty;
      `signed` says that the signature verifies, `addressed` that issuer and audience are the
      expected ones. */
  datatype AccessToken =
    | Malformed
    | Token(sub: Uuid, jti: string, exp: Option<int>, signed: bool, addressed: bool)

  datatype Verdict = Accepted | Expired | InvalidSignature | Blacklisted

  /** The store's keys and the moment each is gone. */
  type Store = map<string, int>

  const SECOND := 1000

  function Seconds(now: int): int {
    now / SECOND
  }

  function Key(jti: string): string {
    "blacklist:" + jti
  }

  predicate Exists(store: Store, key: string, now: int) {
    key in store && now < store[key]
  }

  // ---------- Revoking ----------

  function ExtractJti(token: AccessToken): Option<string> {
    if token.Token? && token.jti != "" then Some(token.jti) else None
  }

  /** In seconds; a missing expiry and an expiry of 0 are not told apart. */
  function RemainingTtl(token: AccessToken, now: int): int {
    if token.Malformed? || token.exp.None? || token.exp.value == 0 then 0
    else
      var remaining := token.exp.value - Seconds(now);
      if remaining > 0 then remaining else 0
  }

  /** The remaining life is read at `readAt` and the entry is made at `storedAt`. */
  function Revoke(store: Store, token: AccessToken, readAt: int, storedAt: int): Store {
    var ttl := RemainingTtl(token, readAt);
    if ExtractJti(token).None? || ttl <= 0 then store
    else store[Key(token.jti) := storedAt + ttl * SECOND]
  }

  // ---------- Validating ----------

  predicate HasExpired(token: AccessToken, now: int)
    requires token.Token?
  {
    token.exp.Some? && Seconds(now) >= token.exp.value
  }

  function Validate(store: Store, token: AccessToken, now: int): Verdict {
    if token.Malformed? || !token.signed then InvalidSignature
    else if HasExpired(token, now) then Expired
    else if !token.addressed then InvalidSignature
    else if token.jti != "" && Exists(store, Key(token.jti), now) then Blacklisted
    else Accepted
  }

  /** The verdict in the token's own terms: accepted only if signed, addressed to this service, not
      expired and not listed; and which of these decides when it is refused. */
  lemma VerdictIs(store: Store, token: AccessToken, now: int)
    ensures var verdict := Validate(store, token, now);
            && (verdict == Accepted <==>
                  && token.Token? && token.signed && token.addressed
                  && (token.exp.Some? ==> now < token.exp.value * 1000)
                  && (token.jti != "" ==> !Exists(store, Key(token.jti), now)))
            && (verdict == Expired <==>
                  token.Token? && token.signed && token.exp.Some? && token.exp.value * 1000 <= now)
            && (verdict == Blacklisted <==>
                  && token.Token? && token.signed && token.addressed
                  && (token.exp.Some? ==> now < token.exp.value * 1000)
                  && token.jti != "" && Exists(store, Key(token.jti), now))
            && (verdict == InvalidSignature <==>
                  || token.Malformed? || !token.signed
                  || (!token.addressed && (token.exp.Some? ==> now < token.exp.value * 1000)))
  {
    if token.Token? {
      ExpiryIsExact(token, now);
    }
  }

  predicate Verified(token: AccessToken) {
    token.Token? && token.signed && token.addressed
  }

  ghost predicate RejectedFrom(store: Store, token: AccessToken, from: int) {
    forall later: int | later >= from :: Validate(store, token, later) != Accepted
  }

  // ---------- One revocation ----------

  /** Rounding the clock down to seconds does not move the expiry. */
  lemma ExpiryIsExact(token: AccessToken, now: int)
    requires token.Token?
    ensures HasExpired(token, now) <==> token.exp.Some? && token.exp.value * SECOND <= now
  {
  }

  lemma SameKey(jti: string, other: string)
    ensures Key(jti) == Key(other) <==> jti == other
  {
    assert Key(jti)[10..] == jti && Key(other)[10..] == other;
  }

  /** An entry is never gone before the token has expired, and outlives it by less than one second
      and the time it took to store. */
  lemma EntryOutlivesToken(store: Store, token: AccessToken, readAt: int, storedAt: int)
    requires token.Token? && token.jti != "" && token.exp.Some? && 0 <= readAt <= storedAt && !HasExpired(token, readAt)
    ensures var after := Revoke(store, token, readAt, storedAt);
            && Key(token.jti) in after
            && token.exp.value * SECOND
               <= after[Key(token.jti)] < token.exp.value * SECOND + SECOND + (storedAt - readAt)
  {
    assert Seconds(readAt) * SECOND <= readAt < Seconds(readAt) * SECOND + SECOND;
  }

  /** A token in good order is rejected from now on exactly if it has expired or its entry lasts
      until it does. */
  lemma RejectedIffCovered(store: Store, token: AccessToken, from: int)
    requires Verified(token)
    ensures RejectedFrom(store, token, from)
       <==> token.exp.Some? && (token.exp.value * SECOND <= from
                                || (token.jti != "" && Key(token.jti) in store
                                    && store[Key(token.jti)] >= token.exp.value * SECOND))
  {
    var key := Key(token.jti);
    if token.exp.None? {
      var gone := if key in store && store[key] > from then store[key] else from;
      assert Validate(store, token, gone) == Accepted;
    } else {
      var end := token.exp.value * SECOND;
      forall now: int
        ensures HasExpired(token, now) <==> end <= now
      {
        ExpiryIsExact(token, now);
      }
      if from < end && !(token.jti != "" && key in store && store[key] >= end) {
        assert Validate(store, token, end - 1) == Accepted;
      }
    }
  }

  /** There is no gap: a revoked token is rejected ever after, exactly if it carries an expiry and
      an identifier (or has expired anyway). */
  lemma RevocationHasNoGap(store: Store, token: AccessToken, readAt: int, storedAt: int)
    requires Verified(token) && 0 <= readAt <= storedAt
    ensures RejectedFrom(Revoke(store, token, readAt, storedAt), token, storedAt)
       <==> token.exp.Some? && (token.jti != "" || token.exp.value * SECOND <= storedAt)
  {
    hide RejectedFrom;
    RejectedIffCovered(Revoke(store, token, readAt, storedAt), token, storedAt);
    if token.exp.Some? && token.jti != "" {
      ExpiryIsExact(token, readAt);
      if !HasExpired(token, readAt) {
        EntryOutlivesToken(store, token, readAt, storedAt);
      }
    }
  }

  /** Listing an identifier makes it listed for exactly that long, and leaves every other as it was. */
  lemma ListedAfter(store: Store, jti: string, ttl: int, now: int, other: string, later: int)
    ensures Exists(store[Key(jti) := now + ttl * SECOND], Key(other), later)
       <==> if other == jti then later < now + ttl * SECOND else Exists(store, Key(other), later)
  {
    SameKey(jti, other);
  }

  // ---------- Runs of revocations ----------

  datatype Revocation = Revocation(token: AccessToken, readAt: int, storedAt: int)

  function StoreAfter(run: seq<Revocation>): Store {
    if run == [] then map[]
    else
      var last := run[|run| - 1];
      Revoke(StoreAfter(run[..|run| - 1]), last.token, last.readAt, last.storedAt)
  }

  /** Every entry was made after the clock was read for it, and by `now`. */
  predicate Past(run: seq<Revocation>, now: int) {
    forall i | 0 <= i < |run| :: 0 <= run[i].readAt <= run[i].storedAt <= now
  }

  predicate Revoked(run: seq<Revocation>, jti: string) {
    exists i | 0 <= i < |run| :: Names(run[i].token, jti)
  }

  predicate Names(token: AccessToken, jti: string) {
    token.Token? && token.jti == jti
  }

  /** Whatever carries the identifier of `token` carries its expiry too: identifiers are not used
      for two tokens. */
  predicate OwnsJti(run: seq<Revocation>, token: AccessToken)
    requires token.Token?
  {
    forall i | 0 <= i < |run| && Names(run[i].token, token.jti) :: run[i].token.exp == token.exp
  }

  lemma {:induction false} CoveredOnceRevoked(run: seq<Revocation>, token: AccessToken, now: int)
    requires token.Token? && token.jti != "" && token.exp.Some? && OwnsJti(run, token)
    requires Past(run, now) && Revoked(run, token.jti) && now < token.exp.value * SECOND
    ensures Key(token.jti) in StoreAfter(run) && StoreAfter(run)[Key(token.jti)] >= token.exp.value * SECOND
  {
    var before, last := run[..|run| - 1], run[|run| - 1];
    if Names(last.token, token.jti) {
      ExpiryIsExact(last.token, last.readAt);
      EntryOutlivesToken(StoreAfter(before), last.token, last.readAt, last.storedAt);
    } else {
      var i :| 0 <= i < |run| && Names(run[i].token, token.jti);
      assert Names(before[i].token, token.jti);
      CoveredOnceRevoked(before, token, now);
      RevokeTouches(StoreAfter(before), last, token.jti);
    }
  }

  /** A revocation leaves the entries of other identifiers alone. */
  lemma RevokeTouches(store: Store, r: Revocation, jti: string)
    requires !Names(r.token, jti)
    ensures var after := Revoke(store, r.token, r.readAt, r.storedAt);
            (Key(jti) in after <==> Key(jti) in store) && (Key(jti) in store ==> after[Key(jti)] == store[Key(jti)])
  {
    if r.token.Token? {
      SameKey(r.token.jti, jti);
    }
  }

  lemma {:induction false} AbsentUnlessRevoked(run: seq<Revocation>, jti: string)
    requires !Revoked(run, jti)
    ensures Key(jti) !in StoreAfter(run)
  {
    if run != [] {
      var before, last := run[..|run| - 1], run[|run| - 1];
      assert !Names(last.token, jti);
      forall i | 0 <= i < |before|
        ensures !Names(before[i].token, jti)
      {
        assert before[i] == run[i];
      }
      AbsentUnlessRevoked(before, jti);
      RevokeTouches(StoreAfter(before), last, jti);
    }
  }

  /** Over any run of revocations, repeated or not, a token in good order is accepted exactly as
      long as it has neither expired nor been revoked. */
  lemma AcceptedIffNotRevoked(run: seq<Revocation>, token: AccessToken, now: int)
    requires Verified(token) && token.jti != "" && token.exp.Some? && OwnsJti(run, token) && Past(run, now)
    ensures Validate(StoreAfter(run), token, now) == Accepted
       <==> now < token.exp.value * SECOND && !Revoked(run, token.jti)
  {
    hide StoreAfter, Revoked, Past, OwnsJti;
    ExpiryIsExact(token, now);
    if now < token.exp.value * SECOND {
      if Revoked(run, token.jti) {
        CoveredOnceRevoked(run, token, now);
      } else {
        AbsentUnlessRevoked(run, token.jti);
      }
    }
  }

  // ---------- The classes ----------

  /** The blacklist's part of the store; an entry whose time has come counts as gone. */
  class RedisClient {
    var entries: Store

    constructor ()
      ensures entries == map[]
    {
      entries := map[];
    }

    method BlacklistToken(jti: string, ttlSeconds: int, now: int)
      modifies this
      ensures entries == old(entries)[Key(jti) := now + ttlSeconds * SECOND]
    {
      entries := entries["blacklist:" + jti := now + ttlSeconds * SECOND];
    }

    method IsTokenBlacklisted(jti: string, now: int) returns (listed: bool)
      ensures listed == Exists(entries, Key(jti), now)
    {
      var key := "blacklist:" + jti;
      listed := key in entries && now < entries[key];
    }
  }

  class BlacklistService {
    const redis: RedisClient

    constructor (redis: RedisClient)
      ensures this.redis == redis
    {
      this.redis := redis;
    }

    method BlacklistToken(jti: string, ttlSeconds: int, now: int)
      modifies redis
      ensures redis.entries == if ttlSeconds <= 0 then old(redis.entries)
                               else old(redis.entries)[Key(jti) := now + ttlSeconds * SECOND]
      ensures forall other: string, later: int | later >= now ::
                Exists(redis.entries, Key(other), later)
                <==> if other == jti && ttlSeconds > 0 then later < now + ttlSeconds * SECOND
                     else Exists(old(redis.entries), Key(other), later)
    {
      forall other: string, later: int
        ensures Exists(redis.entries[Key(jti) := now + ttlSeconds * SECOND], Key(other), later)
           <==> if other == jti then later < now + ttlSeconds * SECOND else Exists(redis.entries, Key(other), later)
      {
        ListedAfter(redis.entries, jti, ttlSeconds, now, other, later);
      }
      if ttlSeconds <= 0 {
        return;
      }
      redis.BlacklistToken(jti, ttlSeconds, now);
    }

    method IsBlacklisted(jti: string, now: int) returns (listed: bool)
      ensures listed == Exists(redis.entries, Key(jti), now)
    {
      listed := redis.IsTokenBlacklisted(jti, now);
    }
  }

  /** The access-token half of the token service. */
  class AccessTokenService {
    const redis: RedisClient
    const blacklist: BlacklistService
    ghost var run: seq<Revocation>
    ghost var clock: int

    ghost predicate Valid()
      reads this, redis
    {
      blacklist.redis == redis && redis.entries == StoreAfter(run) && Past(run, clock)
    }

    constructor ()
      ensures Valid() && fresh(redis) && run == [] && clock == 0
    {
      var client := new RedisClient();
      redis := client;
      blacklist := new BlacklistService(client);
      run, clock := [], 0;
    }

    method RevokeAccessToken(token: AccessToken, readAt: int, storedAt: int)
      requires Valid() && 0 <= readAt <= storedAt && clock <= storedAt
      modifies this, redis
      ensures Valid() && run == old(run) + [Revocation(token, readAt, storedAt)] && clock == storedAt
      ensures Verified(token) && token.exp.Some? && token.jti != "" ==> RejectedFrom(redis.entries, token, storedAt)
    {
      hide RejectedFrom;
      ghost var before := redis.entries;
      var jti := ExtractJti(token);
      if jti.Some? {
        var ttl := RemainingTtl(token, readAt);
        if ttl > 0 {
          blacklist.BlacklistToken(jti.value, ttl, storedAt);
        }
      }
      assert redis.entries == Revoke(before, token, readAt, storedAt);
      if Verified(token) {
        RevocationHasNoGap(before, token, readAt, storedAt);
      }
      run, clock := run + [Revocation(token, readAt, storedAt)], storedAt;
      assert run[..|run| - 1] == old(run);
    }

    method ValidateAccessToken(token: AccessToken, now: int) returns (verdict: Verdict)
      requires Valid() && clock <= now
      ensures verdict == Validate(redis.entries, token, now)
      ensures verdict == Accepted <==>
                && token.Token? && token.signed && token.addressed
                && (token.exp.Some? ==> now < token.exp.value * 1000)
                && (token.jti != "" ==> !Exists(redis.entries, Key(token.jti), now))
      ensures verdict == Expired <==>
                token.Token? && token.signed && token.exp.Some? && token.exp.value * 1000 <= now
      ensures verdict == Blacklisted <==>
                && token.Token? && token.signed && token.addressed
                && (token.exp.Some? ==> now < token.exp.value * 1000)
                && token.jti != "" && Exists(redis.entries, Key(token.jti), now)
      ensures Verified(token) && token.jti != "" && token.exp.Some? && OwnsJti(run, token) ==>
                (verdict == Accepted <==> now < token.exp.value * SECOND && !Revoked(run, token.jti))
    {
      if Verified(token) && token.jti != "" && token.exp.Some? && OwnsJti(run, token) {
        AcceptedIffNotRevoked(run, token, now);
      }
      VerdictIs(redis.entries, token, now);
      if token.Malformed? || !token.signed {
        return InvalidSignature;
      }
      if token.exp.Some? && now / SECOND >= token.exp.value {
        return Expired;
      }
      if !token.addressed {
        return InvalidSignature;
      }
      if token.jti != "" {
        var listed := blacklist.IsBlacklisted(token.jti, now);
        if listed {
          return Blacklisted;
        }
      }
      return Accepted;
    }
  }
}
