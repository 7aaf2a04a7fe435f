/** The older client of events/SpotifyAPI.java: the same token bookkeeping with
    a refresh that always rewrites all four store rows, and an `addToPlaylist`
    that takes `/(track|album)/<id>?` from a link and inserts it at position 0
    with no duplicate check and no submission row. */
module LegacySpotify {
  import opened Basics
  import opened Decimal
  import opened Store
  import opened Tokens
  import opened PlaylistIndex
  import opened TrackLinks
  import SpotifyApi

  /** What the legacy `addToPlaylist` returns: Some(true) or Some(false), or
      None for the NumberFormatException of the expiry check, which escapes. */
  function LegacyOutcomeOf(expired: Option<bool>, link: string, catalog: set<string>, insertFails: bool): (r: Option<bool>)
    ensures r.None? <==> expired.None?
    ensures r == Some(true) <==> expired.Some? && ExtractTrackId(Legacy, link).Some?
                                 && ExtractTrackId(Legacy, link).value in catalog && !insertFails
  {
    if expired.None? then None
    else match ExtractTrackId(Legacy, link)
      case None => Some(false)
      // `getTrack(trackId).getUri()` on a null track throws the
      // NullPointerException that the catch turns into false
      case Some(id) => Some(id in catalog && !insertFails)
  }

  /** An album link with a query string is submitted by the legacy client as
      if it were a track, while the current client rejects it. */
  lemma LegacySubmitsAlbum(expired: bool, id: string, query: string, catalog: set<string>,
                           pending: Playlist, approved: Playlist, insertFails: bool)
    requires IsAlnumId(id) && '/' !in query && ':' !in query && id in catalog
    ensures LegacyOutcomeOf(Some(expired), AlbumPrefix + id + "?" + query, catalog, false) == Some(true)
    ensures SpotifyApi.AddOutcomeOf(Some(expired), AlbumPrefix + id + "?" + query, catalog, pending, approved, insertFails)
         == SpotifyApi.NotAdded
  {
    AlbumLinkWithQuery(id, query);
  }

  /** A shared track link is taken by the legacy client only with its query
      string, while the current client treats both forms alike. */
  lemma QueryMattersOnlyToLegacy(expired: bool, id: string, query: string, catalog: set<string>,
                                 pending: Playlist, approved: Playlist, insertFails: bool)
    requires IsAlnumId(id)
    ensures LegacyOutcomeOf(Some(expired), WebTrackPrefix + id, catalog, insertFails) == Some(false)
    ensures LegacyOutcomeOf(Some(expired), WebTrackPrefix + id + "?" + query, catalog, insertFails)
         == Some(id in catalog && !insertFails)
    ensures SpotifyApi.AddOutcomeOf(Some(expired), WebTrackPrefix + id, catalog, pending, approved, insertFails)
         == SpotifyApi.AddOutcomeOf(Some(expired), WebTrackPrefix + id + "?" + query, catalog, pending, approved, insertFails)
  {
    BareWebLinkLegacy(id);
    BareWebLinkCurrent(id);
    WebLinkWithQuery(id, query);
  }

  /** The store rows a legacy refresh writes: those of a code exchange whose
      refresh token is the one the client keeps. */
  function LegacyRefreshedConfig(config: map<string, Option<string>>, now: Long, c: Credentials, current: Option<string>): (m: map<string, Option<string>>)
    ensures AUTH_TIME in m && AUTH_ACCESS_TOKEN in m && AUTH_REFRESH_TOKEN in m && EXPIRES_IN in m
    ensures m[AUTH_REFRESH_TOKEN] == KeptRefreshToken(c, current)
    ensures m[AUTH_ACCESS_TOKEN] == c.accessToken
    ensures m[AUTH_TIME] == Some(IntToString(now)) && m[EXPIRES_IN] == Some(IntToString(c.expiresIn))
  {
    AuthorizedConfig(config, now, c.(refreshToken := KeptRefreshToken(c, current)))
  }

  /** A legacy refresh leaves a live pair in the store whenever the client had
      a refresh token or the response carried one. */
  lemma LegacyRefreshIsLive(config: map<string, Option<string>>, now: Long, c: Credentials, current: Option<string>)
    requires c.accessToken.Some? && (current.Some? || c.refreshToken.Some?)
    ensures var m := LegacyRefreshedConfig(config, now, c, current);
      Expired(m[AUTH_ACCESS_TOKEN], m[AUTH_REFRESH_TOKEN], m[AUTH_TIME], m[EXPIRES_IN], now) == Some(c.expiresIn < 0)
  {
    FreshAfterAuthorization(config, now, c.(refreshToken := KeptRefreshToken(c, current)));
  }

  /** The legacy singleton. */
  class LegacySpotifyAPI {
    const db: Database
    var authorizationCode: Option<string>
    var credentials: Option<Credentials>
    var accessToken: Option<string>
    var refreshToken: Option<string>
    var clientAccessToken: Option<string>
    var clientRefreshToken: Option<string>
    /** The playlist named by PLAYLIST_ID. */
    var pending: Playlist
    /** The track ids `getTrack` resolves to a track. */
    const catalog: set<string>

    ghost predicate Valid()
      reads this, db
    {
      db.Valid()
    }

    function Fields(): TokenFields
      reads this
    {
      TokenFields(accessToken, refreshToken, clientAccessToken, clientRefreshToken, credentials)
    }

    constructor (db: Database, pending: Playlist, catalog: set<string>)
      requires db.Valid()
      ensures Valid() && this.db == db && this.pending == pending && this.catalog == catalog
      ensures Fields() == TokenFields(db.ReadFromDatabase(AUTH_ACCESS_TOKEN), db.ReadFromDatabase(AUTH_REFRESH_TOKEN),
                                      db.ReadFromDatabase(AUTH_ACCESS_TOKEN), db.ReadFromDatabase(AUTH_REFRESH_TOKEN), None)
      ensures authorizationCode.None?
    {
      this.db := db;
      this.pending := pending;
      this.catalog := catalog;
      authorizationCode := None;
      credentials := None;
      accessToken := db.ReadFromDatabase(AUTH_ACCESS_TOKEN);
      refreshToken := db.ReadFromDatabase(AUTH_REFRESH_TOKEN);
      clientAccessToken := accessToken;
      clientRefreshToken := refreshToken;
    }

    /** `isTokenExpired()` at time `now`: the same check as the current client. */
    function IsTokenExpired(now: Long): (r: Option<bool>)
      reads this, db
      ensures accessToken.None? || refreshToken.None? ==> r == Some(true)
      ensures r.None? <==> accessToken.Some? && refreshToken.Some?
                           && (ParseLong(db.ReadFromDatabase(AUTH_TIME)).None?
                               || ParseInt(db.ReadFromDatabase(EXPIRES_IN)).None?)
    {
      Expired(accessToken, refreshToken, db.ReadFromDatabase(AUTH_TIME), db.ReadFromDatabase(EXPIRES_IN), now)
    }

    method SetAuthorizationCode(code: string)
      modifies this
      ensures authorizationCode == Some(code)
      ensures Fields() == old(Fields()) && pending == old(pending)
    {
      authorizationCode := Some(code);
    }

    /** `setupAccessAndRefreshToken()`. */
    method SetupAccessAndRefreshToken(now: Long, exchange: Exchange)
      requires Valid()
      modifies this, db
      ensures Valid()
      ensures exchange.Granted? ==> Fields() == AfterAuthorization(exchange.credentials)
                                    && db.config == AuthorizedConfig(old(db.config), now, exchange.credentials)
      ensures exchange.ExchangeFailed? ==> Fields() == old(Fields()) && db.config == old(db.config)
      ensures db.rows == old(db.rows) && db.nextId == old(db.nextId)
      ensures authorizationCode == old(authorizationCode) && pending == old(pending)
    {
      if exchange.ExchangeFailed? {
        return;
      }
      var c := exchange.credentials;
      credentials := Some(c);
      accessToken := c.accessToken;
      refreshToken := c.refreshToken;
      db.SaveToDatabase(AUTH_TIME, Some(IntToString(now)));
      db.SaveToDatabase(AUTH_ACCESS_TOKEN, accessToken);
      db.SaveToDatabase(AUTH_REFRESH_TOKEN, refreshToken);
      db.SaveToDatabase(EXPIRES_IN, Some(IntToString(c.expiresIn)));
      clientAccessToken := accessToken;
      clientRefreshToken := refreshToken;
    }

    /** `refreshToken()`: both token fields are replaced, the refresh token
        kept when the response has none, and all four rows are rewritten. */
    method RefreshToken(now: Long, exchange: Exchange) returns (ok: bool)
      requires Valid()
      modifies this, db
      ensures Valid()
      ensures ok <==> exchange.Granted?
      ensures ok ==> Fields() == AfterLegacyRefresh(old(Fields()), exchange.credentials)
                     && db.config == LegacyRefreshedConfig(old(db.config), now, exchange.credentials, old(refreshToken))
      ensures !ok ==> Fields() == old(Fields()) && db.config == old(db.config)
      ensures db.rows == old(db.rows) && db.nextId == old(db.nextId)
      ensures authorizationCode == old(authorizationCode) && pending == old(pending)
    {
      if exchange.ExchangeFailed? {
        return false;
      }
      var c := exchange.credentials;
      credentials := Some(c);
      accessToken := c.accessToken;
      refreshToken := if c.refreshToken.Some? then c.refreshToken else refreshToken;
      db.SaveToDatabase(AUTH_TIME, Some(IntToString(now)));
      db.SaveToDatabase(AUTH_ACCESS_TOKEN, accessToken);
      db.SaveToDatabase(AUTH_REFRESH_TOKEN, refreshToken);
      db.SaveToDatabase(EXPIRES_IN, Some(IntToString(c.expiresIn)));
      clientAccessToken := accessToken;
      clientRefreshToken := refreshToken;
      return true;
    }

    /** `addToPlaylist(trackLink)`: refresh when expired, extract the id, insert
        at position 0.  The submissions playlist is not consulted, so a track
        already in it is inserted again. */
    method AddToPlaylist(link: string, now: Long, refresh: Exchange, insertFails: bool) returns (r: Option<bool>)
      requires Valid()
      modifies this, db
      ensures Valid()
      ensures r == LegacyOutcomeOf(old(IsTokenExpired(now)), link, catalog, insertFails)
      ensures r == Some(true) ==> pending == SpotifyApi.Inserted(old(pending), ExtractTrackId(Legacy, link).value)
      ensures r != Some(true) ==> pending == old(pending)
      ensures db.rows == old(db.rows) && db.nextId == old(db.nextId) && authorizationCode == old(authorizationCode)
      ensures old(IsTokenExpired(now)) == Some(true) && refresh.Granted? ==>
                Fields() == AfterLegacyRefresh(old(Fields()), refresh.credentials)
                && db.config == LegacyRefreshedConfig(old(db.config), now, refresh.credentials, old(refreshToken))
      ensures old(IsTokenExpired(now)) != Some(true) || refresh.ExchangeFailed? ==>
                Fields() == old(Fields()) && db.config == old(db.config)
    {
      var expired := IsTokenExpired(now);
      if expired.None? {
        return None;
      }
      if expired.value {
        var _ := RefreshToken(now, refresh);
      }
      var found := ExtractTrackId(Legacy, link);
      if found.None? {
        return Some(false);
      }
      var id := found.value;
      if id !in catalog || insertFails {
        return Some(false);
      }
      pending := SpotifyApi.Inserted(pending, id);
      return Some(true);
    }
  }
}
