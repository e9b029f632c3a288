/** Refresh tokens: issued for thirty days, validated in a fixed order, revoked in place. */
module RefreshTokens {
  import opened Base

  datatype RefreshToken = RefreshToken(
    token: string,
    userId: Uuid,
    createdAt: Instant,
    expiresAt: Instant,
    revoked: bool)

  datatype TokenError = InvalidRefreshToken | RefreshTokenRevoked | RefreshTokenExpired

  const RefreshTokenLifetime: int := 30 * NanosPerDay

  /** validate: unknown, then revoked, then expired (strictly before now); otherwise the stored token. */
  function Validate(tokens: map<string, RefreshToken>, token: string, now: Instant): (r: Result<RefreshToken, TokenError>)
    ensures r.Success? <==> token in tokens && !tokens[token].revoked && now <= tokens[token].expiresAt
    ensures r.Success? ==> r.value == tokens[token]
    ensures token !in tokens ==> r == Failure(InvalidRefreshToken)
    ensures token in tokens && tokens[token].revoked ==> r == Failure(RefreshTokenRevoked)
    ensures token in tokens && !tokens[token].revoked && tokens[token].expiresAt < now ==> r == Failure(RefreshTokenExpired)
  {
    if token !in tokens then Failure(InvalidRefreshToken)
    else
      var rt := tokens[token];
      if rt.revoked then Failure(RefreshTokenRevoked)
      else if rt.expiresAt < now then Failure(RefreshTokenExpired)
      else Success(rt)
  }

  /** The store after `token`'s revoked flag is set. */
  function WithRevoked(tokens: map<string, RefreshToken>, token: string): (m: map<string, RefreshToken>)
    requires token in tokens
    ensures m.Keys == tokens.Keys
    ensures m[token] == tokens[token].(revoked := true)
    ensures forall t :: t in tokens && t != token ==> m[t] == tokens[t]
  {
    tokens[token := tokens[token].(revoked := true)]
  }

  /** Once revoked, a token never validates again, whatever the time. */
  lemma RevokedNeverValidates(tokens: map<string, RefreshToken>, token: string, now: Instant)
    requires token in tokens
    ensures Validate(WithRevoked(tokens, token), token, now) == Failure(RefreshTokenRevoked)
  {
  }

  lemma RevokeIsIdempotent(tokens: map<string, RefreshToken>, token: string)
    requires token in tokens
    ensures WithRevoked(WithRevoked(tokens, token), token) == WithRevoked(tokens, token)
  {
  }

  /** A freshly issued token is valid from its creation up to and including its expiry instant. */
  lemma NewTokenValidForThirtyDays(tokens: map<string, RefreshToken>, value: string, userId: Uuid, issuedAt: Instant, now: Instant)
    requires issuedAt <= now <= issuedAt + RefreshTokenLifetime
    ensures var m := tokens[value := RefreshToken(value, userId, issuedAt, issuedAt + RefreshTokenLifetime, false)];
      Validate(m, value, now).Success?
  {
  }

  class RefreshTokenService {
    var tokens: map<string, RefreshToken>

    constructor ()
      ensures tokens == map[]
    {
      tokens := map[];
    }

    /** createForUser: a new, unrevoked token for thirty days; the value comes from a fresh random UUID. */
    method CreateForUser(userId: Uuid, now: Instant, value: string) returns (rt: RefreshToken)
      requires value !in tokens
      modifies this
      ensures rt == RefreshToken(value, userId, now, now + RefreshTokenLifetime, false)
      ensures tokens == old(tokens)[value := rt]
    {
      rt := RefreshToken(value, userId, now, now + RefreshTokenLifetime, false);
      tokens := tokens[value := rt];
    }

    /** revoke: unknown tokens fail; otherwise the token is marked revoked. */
    method Revoke(token: string) returns (r: Outcome<TokenError>)
      modifies this
      ensures r.Fail? <==> token !in old(tokens)
      ensures r.Fail? ==> r.error == InvalidRefreshToken && tokens == old(tokens)
      ensures r.Pass? ==> tokens == WithRevoked(old(tokens), token)
    {
      if token !in tokens {
        return Fail(InvalidRefreshToken);
      }
      tokens := WithRevoked(tokens, token);
      r := Pass;
    }
  }
}
