/** The refresh decision of `get_access_token`: the cached bearer token is used
    until the clock reaches its expiry, after that the login reply's token is
    returned and written to the `.env` file. The clock reading and the login
    exchange are parameters; the HTTP call itself is not modelled. */
module Session {
  import opened Wrappers

  /** `ACCESS_TOKEN` and `ACCESS_TOKEN_EXPIRES_AT` (epoch seconds). */
  datatype Credentials = Credentials(accessToken: string, expiresAt: int)

  /** What one call produces: the token returned, and the credentials written
      to `.env` by `set_key`, if any. */
  datatype TokenOutcome = TokenOutcome(token: string, persisted: Option<Credentials>)

  /** A login reply without `user.access_token` or `user.access_token_expires_at`
      makes the lookup raise. */
  datatype AuthError = MalformedLoginReply

  /** `timestamp_seconds >= access_token_expires_at`. */
  predicate NeedsRefresh(now: int, expiresAt: int)
  {
    now >= expiresAt
  }

  /** `get_access_token()` at whole-second time `now`, with the module-level
      credentials `cached` and the reply `login` the sessions endpoint would give
      (`None` when it lacks the token fields). */
  function GetAccessToken(now: int, cached: Credentials, login: Option<Credentials>)
    : (r: Result<TokenOutcome, AuthError>)
    ensures now < cached.expiresAt ==> r == Ok(TokenOutcome(cached.accessToken, None))
    ensures now >= cached.expiresAt && login.None? ==> r == Err(MalformedLoginReply)
    ensures now >= cached.expiresAt && login.Some? ==>
              r == Ok(TokenOutcome(login.value.accessToken, Some(login.value)))
  {
    if NeedsRefresh(now, cached.expiresAt) then
      match login
      case None => Err(MalformedLoginReply)
      case Some(reply) => Ok(TokenOutcome(reply.accessToken, Some(reply)))
    else
      Ok(TokenOutcome(cached.accessToken, None))
  }

  /** The cached token comes back unchanged and nothing is written exactly when
      `now` is before the expiry; a refresh (a write) happens exactly when it is not. */
  lemma CacheHitIffNotExpired(now: int, cached: Credentials, login: Option<Credentials>)
    ensures (GetAccessToken(now, cached, login).Ok? && GetAccessToken(now, cached, login).value.persisted.None?)
            <==> now < cached.expiresAt
    ensures (GetAccessToken(now, cached, login).Ok? && GetAccessToken(now, cached, login).value.persisted.Some?)
            <==> NeedsRefresh(now, cached.expiresAt) && login.Some?
  {
  }

  /** Once expired, a token stays expired: a later call with the same module-level
      credentials refreshes again. The model holds no process state: the module's
      credentials are the parameter `cached`, read once at import (app.py:15-16)
      and never reassigned, since a refresh writes only `.env`. That fact is not
      derived here; the lemma states its consequence for a caller that passes the
      same `cached` again. */
  lemma ExpiryIsPermanent(now: int, later: int, cached: Credentials, login: Option<Credentials>)
    requires now <= later && NeedsRefresh(now, cached.expiresAt) && login.Some?
    ensures GetAccessToken(later, cached, login).Ok?
    ensures GetAccessToken(later, cached, login).value.persisted == Some(login.value)
  {
  }

  /** A process that starts from the credentials a refresh persisted uses the new
      token without logging in, as long as it runs before the new expiry. The
      restart, which reads `.env` into the module's credentials, is not modelled:
      the lemma passes the persisted credentials as the new `cached`. */
  lemma PersistedTokenIsReused(now: int, cached: Credentials, reply: Credentials, later: int,
                               login: Option<Credentials>)
    requires NeedsRefresh(now, cached.expiresAt) && later < reply.expiresAt
    ensures GetAccessToken(now, cached, Some(reply)) == Ok(TokenOutcome(reply.accessToken, Some(reply)))
    ensures GetAccessToken(later, reply, login) == Ok(TokenOutcome(reply.accessToken, None))
  {
  }
}
