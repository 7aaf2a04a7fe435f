/** The OAuth 2.0 authorization-code credentials the bot keeps (RFC 6749,
    section 4.1 for the code exchange, section 5.1 for `expires_in`, section 6
    for refreshing), as four rows of the config table: AUTH_TIME (seconds since
    the epoch, `Long.toString`), AUTH_ACCESS_TOKEN, AUTH_REFRESH_TOKEN and
    EXPIRES_IN (seconds, `Integer.toString`).  Both SpotifyAPI classes share
    the expiry check; they differ in what a refresh writes. */
module Tokens {
  import opened Basics
  import opened Decimal

  const AUTH_TIME: string := "AUTH_TIME"
  const AUTH_ACCESS_TOKEN: string := "AUTH_ACCESS_TOKEN"
  const AUTH_REFRESH_TOKEN: string := "AUTH_REFRESH_TOKEN"
  const EXPIRES_IN: string := "EXPIRES_IN"

  /** What a token endpoint answers (AuthorizationCodeCredentials); the
      refresh token is optional in a refresh response. */
  datatype Credentials = Credentials(accessToken: Option<string>, refreshToken: Option<string>, expiresIn: Int)

  /** The outcome of a request to the token endpoint: credentials, or one of
      the checked exceptions the code catches (I/O, Web API or parse error). */
  datatype Exchange = Granted(credentials: Credentials) | ExchangeFailed

  /** The token fields a client object holds: its own `accessToken` and
      `refreshToken`, and the two the Spotify client library was last given. */
  datatype TokenFields = TokenFields(
    accessToken: Option<string>,
    refreshToken: Option<string>,
    clientAccessToken: Option<string>,
    clientRefreshToken: Option<string>,
    credentials: Option<Credentials>)

  /** `isAccessExpired` / `isTokenExpired` on the stored values: true (fail
      closed) when a token is missing; otherwise the elapsed time `now - authTime`
      in wrapping `long` arithmetic compared strictly with EXPIRES_IN.  None is
      the NumberFormatException that escapes when AUTH_TIME or EXPIRES_IN is
      null or not a number. */
  function Expired(accessToken: Option<string>, refreshToken: Option<string>,
                   authTime: Option<string>, expiresIn: Option<string>, now: Long): (r: Option<bool>)
    ensures accessToken.None? || refreshToken.None? ==> r == Some(true)
    ensures r.None? <==> accessToken.Some? && refreshToken.Some?
                         && (ParseLong(authTime).None? || ParseInt(expiresIn).None?)
  {
    if accessToken.None? || refreshToken.None? then Some(true)
    else
      var t := ParseLong(authTime);
      var e := ParseInt(expiresIn);
      if t.None? || e.None? then None
      else Some(WrapLong(now - t.value) > e.value)
  }

  /** Over values written by `Long.toString` and `Integer.toString`, the check is
      exactly "elapsed seconds exceed the lifetime". */
  lemma ExpiredOnStoredValues(accessToken: string, refreshToken: string, authTime: Long, expiresIn: Int, now: Long)
    ensures Expired(Some(accessToken), Some(refreshToken), Some(IntToString(authTime)), Some(IntToString(expiresIn)), now)
         == Some(WrapLong(now - authTime) > expiresIn)
  {
    ParseLongToString(authTime);
    ParseIntOfToString(expiresIn);
  }

  /** The boundary: when exactly `expires_in` seconds have passed the token
      still counts as live; one second later it is expired. */
  lemma ExpiryBoundary(accessToken: string, refreshToken: string, authTime: Long, expiresIn: Int)
    requires LONG_MIN <= authTime + expiresIn && authTime + expiresIn + 1 <= LONG_MAX
    ensures Expired(Some(accessToken), Some(refreshToken), Some(IntToString(authTime)), Some(IntToString(expiresIn)),
                    authTime + expiresIn) == Some(false)
    ensures Expired(Some(accessToken), Some(refreshToken), Some(IntToString(authTime)), Some(IntToString(expiresIn)),
                    authTime + expiresIn + 1) == Some(true)
  {
    ExpiredOnStoredValues(accessToken, refreshToken, authTime, expiresIn, authTime + expiresIn);
    ExpiredOnStoredValues(accessToken, refreshToken, authTime, expiresIn, authTime + expiresIn + 1);
  }

  /** The four rows written by `setupAccessAndRefreshToken` (both classes) and by
      the legacy `refreshToken`: every key, the refresh token possibly null. */
  function AuthorizedConfig(config: map<string, Option<string>>, now: Long, c: Credentials): (m: map<string, Option<string>>)
    ensures forall k :: k in config && k !in {AUTH_TIME, AUTH_ACCESS_TOKEN, AUTH_REFRESH_TOKEN, EXPIRES_IN}
                        ==> k in m && m[k] == config[k]
    ensures AUTH_REFRESH_TOKEN in m && AUTH_ACCESS_TOKEN in m
    ensures m[AUTH_REFRESH_TOKEN] == c.refreshToken && m[AUTH_ACCESS_TOKEN] == c.accessToken
  {
    config[AUTH_TIME := Some(IntToString(now))]
          [AUTH_ACCESS_TOKEN := c.accessToken]
          [AUTH_REFRESH_TOKEN := c.refreshToken]
          [EXPIRES_IN := Some(IntToString(c.expiresIn))]
  }

  /** The rows written by `refreshTokens` of api/SpotifyAPI.java: AUTH_TIME,
      AUTH_ACCESS_TOKEN and EXPIRES_IN always, AUTH_REFRESH_TOKEN only when the
      response carried a refresh token. */
  function RefreshedConfig(config: map<string, Option<string>>, now: Long, c: Credentials): (m: map<string, Option<string>>)
    ensures forall k :: k in config && k !in {AUTH_TIME, AUTH_ACCESS_TOKEN, AUTH_REFRESH_TOKEN, EXPIRES_IN}
                        ==> k in m && m[k] == config[k]
    ensures c.refreshToken.None? && AUTH_REFRESH_TOKEN in config ==>
              AUTH_REFRESH_TOKEN in m && m[AUTH_REFRESH_TOKEN] == config[AUTH_REFRESH_TOKEN]
  {
    var m := config[AUTH_TIME := Some(IntToString(now))]
                   [AUTH_ACCESS_TOKEN := c.accessToken]
                   [EXPIRES_IN := Some(IntToString(c.expiresIn))];
    if c.refreshToken.Some? then m[AUTH_REFRESH_TOKEN := c.refreshToken] else m
  }

  /** The refresh token the legacy `refreshToken` keeps: the new one if the
      response has one, else the one it had. */
  function KeptRefreshToken(c: Credentials, current: Option<string>): (r: Option<string>)
    ensures c.refreshToken.Some? ==> r == c.refreshToken
    ensures c.refreshToken.None? ==> r == current
  {
    if c.refreshToken.Some? then c.refreshToken else current
  }

  /** The fields after a successful `refreshTokens` of api/SpotifyAPI.java: the
      access token is replaced, the `refreshToken` field is never reassigned, and
      only the client library learns a new refresh token. */
  function AfterRefresh(t: TokenFields, c: Credentials): (r: TokenFields)
    ensures r.refreshToken == t.refreshToken
    ensures r.accessToken == r.clientAccessToken == c.accessToken && r.credentials == Some(c)
    ensures r.clientRefreshToken == if c.refreshToken.Some? then c.refreshToken else t.clientRefreshToken
  {
    TokenFields(c.accessToken, t.refreshToken, c.accessToken,
                KeptRefreshToken(c, t.clientRefreshToken), Some(c))
  }

  /** The fields after a successful legacy `refreshToken`: both tokens replaced,
      the refresh token kept when the response has none. */
  function AfterLegacyRefresh(t: TokenFields, c: Credentials): (r: TokenFields)
    ensures r.accessToken == r.clientAccessToken == c.accessToken && r.credentials == Some(c)
    ensures r.refreshToken == r.clientRefreshToken
    ensures t.refreshToken.Some? || c.refreshToken.Some? ==> r.refreshToken.Some?
  {
    var kept := KeptRefreshToken(c, t.refreshToken);
    TokenFields(c.accessToken, kept, c.accessToken, kept, Some(c))
  }

  /** The fields after a successful `setupAccessAndRefreshToken`. */
  function AfterAuthorization(c: Credentials): (r: TokenFields)
    ensures r.accessToken == r.clientAccessToken == c.accessToken
    ensures r.refreshToken == r.clientRefreshToken == c.refreshToken
    ensures r.credentials == Some(c)
  {
    TokenFields(c.accessToken, c.refreshToken, c.accessToken, c.refreshToken, Some(c))
  }

  /** A refresh writes AUTH_REFRESH_TOKEN exactly when the response carried one;
      every key other than the four is untouched. */
  lemma RefreshedConfigKeys(config: map<string, Option<string>>, now: Long, c: Credentials)
    ensures var m := RefreshedConfig(config, now, c);
      && m[AUTH_TIME] == Some(IntToString(now))
      && m[AUTH_ACCESS_TOKEN] == c.accessToken
      && m[EXPIRES_IN] == Some(IntToString(c.expiresIn))
      && (AUTH_REFRESH_TOKEN in m <==> AUTH_REFRESH_TOKEN in config || c.refreshToken.Some?)
      && (c.refreshToken.Some? ==> m[AUTH_REFRESH_TOKEN] == c.refreshToken)
      && (c.refreshToken.None? && AUTH_REFRESH_TOKEN in config ==>
              AUTH_REFRESH_TOKEN in m && m[AUTH_REFRESH_TOKEN] == config[AUTH_REFRESH_TOKEN])
      && forall k :: k !in {AUTH_TIME, AUTH_ACCESS_TOKEN, AUTH_REFRESH_TOKEN, EXPIRES_IN} ==>
           (k in m <==> k in config) && (k in config ==> m[k] == config[k])
  {
  }

  /** Right after a refresh with a non-null access token the stored credentials
      read as live (for any non-negative lifetime), as long as the client still
      holds a refresh token. */
  lemma FreshAfterRefresh(config: map<string, Option<string>>, now: Long, c: Credentials, refreshToken: Option<string>)
    requires c.accessToken.Some? && refreshToken.Some?
    ensures var m := RefreshedConfig(config, now, c);
      Expired(c.accessToken, refreshToken, m[AUTH_TIME], m[EXPIRES_IN], now) == Some(c.expiresIn < 0)
  {
    ExpiredOnStoredValues(c.accessToken.value, refreshToken.value, now, c.expiresIn, now);
  }

  /** The same for the four rows written by the code exchange. */
  lemma FreshAfterAuthorization(config: map<string, Option<string>>, now: Long, c: Credentials)
    requires c.accessToken.Some? && c.refreshToken.Some?
    ensures var m := AuthorizedConfig(config, now, c);
      Expired(m[AUTH_ACCESS_TOKEN], m[AUTH_REFRESH_TOKEN], m[AUTH_TIME], m[EXPIRES_IN], now) == Some(c.expiresIn < 0)
  {
    ExpiredOnStoredValues(c.accessToken.value, c.refreshToken.value, now, c.expiresIn, now);
  }

  /** The `refreshToken` field of api/SpotifyAPI.java is only ever set by the code
      exchange: once it is null, no sequence of refreshes makes the access
      check report anything but expired. */
  lemma {:induction false} MissingRefreshTokenStaysExpired(t: TokenFields, responses: seq<Credentials>,
                                                           authTime: Option<string>, expiresIn: Option<string>, now: Long)
    requires t.refreshToken.None?
    decreases |responses|
    ensures var u := RefreshAll(t, responses);
      u.refreshToken.None? && Expired(u.accessToken, u.refreshToken, authTime, expiresIn, now) == Some(true)
  {
    if responses != [] {
      MissingRefreshTokenStaysExpired(AfterRefresh(t, responses[0]), responses[1..], authTime, expiresIn, now);
    }
  }

  /** The fields after a run of successful refreshes. */
  function RefreshAll(t: TokenFields, responses: seq<Credentials>): TokenFields
    decreases |responses|
  {
    if responses == [] then t else RefreshAll(AfterRefresh(t, responses[0]), responses[1..])
  }

  /** The legacy refresh, by contrast, recovers: a response that carries a
      refresh token restores a live pair. */
  lemma LegacyRefreshRecovers(t: TokenFields, c: Credentials)
    requires c.accessToken.Some? && c.refreshToken.Some?
    ensures AfterLegacyRefresh(t, c).refreshToken == c.refreshToken
    ensures AfterRefresh(t, c).refreshToken == t.refreshToken
  {
  }

  /** The legacy refresh writes the same four rows as the code exchange would
      for a response whose refresh token is the one it keeps. */
  lemma LegacyRefreshIsAuthorization(config: map<string, Option<string>>, now: Long, c: Credentials, current: Option<string>)
    ensures AuthorizedConfig(config, now, c.(refreshToken := KeptRefreshToken(c, current)))[AUTH_REFRESH_TOKEN]
         == KeptRefreshToken(c, current)
  {
  }
}
