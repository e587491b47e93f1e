/** The two requests that concern an access token and the tables at once. */
module Requests {
  import opened Types
  import opened Tables
  import opened Accounts
  import opened Machine
  import opened Services
  import AT = AccessTokens

  datatype Answer =
    | Granted
    | Rejected(verdict: AT.Verdict)
    | Refused(error: Error)

  /** The account a token speaks for lets it in: it is active, or its lock has an end that has come. */
  predicate LetsIn(rows: Credentials, userId: Uuid, now: int) {
    && userId in rows
    && var c := rows[userId];
       c.status == Active || (c.status == Locked && c.lockedUntil.Some? && c.lockedUntil.value <= now)
  }

  /** Why an account does not let a token in: it is locked, it is banned, or there is none. */
  function ReasonAgainst(rows: Credentials, userId: Uuid): Error {
    if userId in rows && rows[userId].status == Locked then AccountLocked
    else if userId in rows && rows[userId].status == Banned then AccountBanned
    else AccountInvalid
  }

  class TokenRequests {
    const auth: AuthService
    const access: AT.AccessTokenService

    constructor (auth: AuthService, access: AT.AccessTokenService)
      ensures this.auth == auth && this.access == access
    {
      this.auth := auth;
      this.access := access;
    }

    ghost predicate Valid()
      reads access, access.redis
    {
      auth.Wired() && access.Valid()
    }

    /** Revokes the access token, then the refresh token: the first is rejected from then on, the
        second opens no live row, and nothing else changes. */
    method Logout(token: AT.AccessToken, raw: Uuid, readAt: int, storedAt: int, now: int)
      requires Valid() && auth.db.Indexed() && 0 <= readAt <= storedAt && access.clock <= storedAt
      modifies access, access.redis, auth.db`refreshTokens
      ensures Valid() && access.run == old(access.run) + [AT.Revocation(token, readAt, storedAt)]
      ensures AT.Verified(token) && token.exp.Some? && token.jti != "" ==>
                AT.RejectedFrom(access.redis.entries, token, storedAt)
      ensures auth.db.Rows() == DoLogout(old(auth.db.Rows()), now, raw).state
      ensures forall id | id in auth.db.refreshTokens && auth.db.refreshTokens[id].tokenHash == HashOf(raw) ::
                auth.db.refreshTokens[id].revoked
    {
      hide AT.RejectedFrom;
      access.RevokeAccessToken(token, readAt, storedAt);
      LogoutSpends(auth.db.Rows(), now, raw);
      auth.Logout(raw, now);
    }

    /** The token first, then the account: the token is let in exactly if it is in order, unexpired
        and never revoked, and its user exists and is active or no longer locked. */
    method ValidateToken(token: AT.AccessToken, now: int) returns (answer: Answer)
      requires Valid() && access.clock <= now
      ensures answer.Granted? <==>
                AT.Validate(access.redis.entries, token, now) == AT.Accepted
                  && LetsIn(auth.db.credentials, token.sub, now)
      ensures answer.Granted? ==>
                && token.Token? && token.signed && token.addressed
                && (token.exp.Some? ==> now < token.exp.value * 1000)
                && (token.jti != "" ==> !AT.Exists(access.redis.entries, AT.Key(token.jti), now))
      ensures AT.Validate(access.redis.entries, token, now) != AT.Accepted ==>
                answer == Rejected(AT.Validate(access.redis.entries, token, now))
      ensures AT.Validate(access.redis.entries, token, now) == AT.Accepted
              && !LetsIn(auth.db.credentials, token.sub, now) ==>
                answer == Refused(ReasonAgainst(auth.db.credentials, token.sub))
      ensures AT.Verified(token) && token.jti != "" && token.exp.Some? && AT.OwnsJti(access.run, token) ==>
                (answer.Granted? <==>
                   && now < token.exp.value * AT.SECOND && !AT.Revoked(access.run, token.jti)
                   && LetsIn(auth.db.credentials, token.sub, now))
    {
      AT.VerdictIs(access.redis.entries, token, now);
      var verdict := access.ValidateAccessToken(token, now);
      if verdict != AT.Accepted {
        return Rejected(verdict);
      }
      var reply := auth.ValidateAccount(token.sub, now);
      answer := if reply.Failed? then Refused(reply.error) else Granted;
    }
  }

  /** After a logout the secret opens no live row. */
  lemma LogoutSpends(s: State, now: int, raw: Uuid)
    requires Unique(RefreshHashes(s.refreshTokens))
    ensures var rows := DoLogout(s, now, raw).state.refreshTokens;
            forall id | id in rows && rows[id].tokenHash == HashOf(raw) :: rows[id].revoked
  {
    var found := FindToken(s, raw);
    forall id | id in s.refreshTokens && s.refreshTokens[id].tokenHash == HashOf(raw)
      ensures found == Some(id)
    {
      assert RefreshHashes(s.refreshTokens)[id] == HashOf(raw);
    }
  }
}
