/** The submission engine of api/SpotifyAPI.java: a client object that holds the
    OAuth tokens, refreshes them, adds a submitted track to the submissions
    playlist after the duplicate checks, and reconciles the submission table
    with the two playlists.  The Spotify service is state held beside the
    tokens: the submissions (pending) playlist, the approved playlist and the
    ids `getTrack` resolves; each token exchange is an input. */
module SpotifyApi {
  import opened Basics
  import opened Decimal
  import opened Store
  import opened Tokens
  import opened PlaylistIndex
  import opened TrackLinks
  import opened Reconciliation

  /** How `addToPlaylist` ends, as its callers see it: it returns true or false,
      throws one of the two exceptions the message gate catches, or throws
      something else (a NumberFormatException from the expiry check) that
      escapes the gate too. */
  datatype AddOutcome = Added | NotAdded | DuplicateTrack(message: Option<string>) | TrackNotFound | Crashed

  const AlreadyApproved: string := "This track has already been approved and is in the approved playlist!"
  const AlreadyQueued: string := "Duplicate entry found. This track is already in queue for review!"

  /** The three ways the duplicate checks can come out. */
  datatype Decision = Insert | Reject(message: string) | Indeterminate

  /** The duplicate decision table: an indeterminate check on either playlist
      gives up; the approved playlist is consulted before the pending one. */
  function Decide(inPending: Option<bool>, inApproved: Option<bool>): (d: Decision)
    ensures d == Indeterminate <==> inPending.None? || inApproved.None?
    ensures d == Reject(AlreadyApproved) <==> inPending.Some? && inApproved == Some(true)
    ensures d == Reject(AlreadyQueued) <==> inPending == Some(true) && inApproved == Some(false)
    ensures d == Insert <==> inPending == Some(false) && inApproved == Some(false)
  {
    if inPending.None? || inApproved.None? then Indeterminate
    else if inApproved.value then Reject(AlreadyApproved)
    else if inPending.value then Reject(AlreadyQueued)
    else Insert
  }

  /** The submissions playlist after the track is inserted at position 0. */
  function Inserted(p: Playlist, trackId: string): (q: Playlist)
    ensures |q.items| == |p.items| + 1 && q.items[0] == Track(Some(trackId)) && q.items[1..] == p.items
    ensures q.failingRequest == p.failingRequest
  {
    Playlist([Track(Some(trackId))] + p.items, p.failingRequest)
  }

  /** What `addToPlaylist` returns or throws, from the expiry check, the link,
      the tracks `getTrack` resolves, the two playlists and whether the insert
      request fails. */
  function AddOutcomeOf(expired: Option<bool>, link: string, catalog: set<string>,
                        pending: Playlist, approved: Playlist, insertFails: bool): (r: AddOutcome)
    ensures r == Crashed <==> expired.None?
    ensures expired.Some? && ExtractTrackId(Current, link).None? ==> r == NotAdded
    ensures r.TrackNotFound? <==> expired.Some? && ExtractTrackId(Current, link).Some?
                                  && ExtractTrackId(Current, link).value !in catalog
    ensures r == Added <==> expired.Some? && ExtractTrackId(Current, link).Some?
                            && var id := ExtractTrackId(Current, link).value;
                            && id in catalog
                            && Duplicate(pending, id) == Some(false) && Duplicate(approved, id) == Some(false)
                            && !insertFails
    ensures r.DuplicateTrack? ==> r.message == Some(AlreadyApproved) || r.message == Some(AlreadyQueued)
    ensures expired.Some? && ExtractTrackId(Current, link).Some? && ExtractTrackId(Current, link).value in catalog ==>
      var id := ExtractTrackId(Current, link).value;
      var d := Decide(Duplicate(pending, id), Duplicate(approved, id));
      && (d == Indeterminate ==> r == NotAdded)
      && (d.Reject? ==> r == DuplicateTrack(Some(d.message)))
      && (d == Insert ==> (r == Added <==> !insertFails) && (r == NotAdded <==> insertFails))
  {
    if expired.None? then Crashed
    else match ExtractTrackId(Current, link)
      case None => NotAdded
      case Some(id) =>
        if id !in catalog then TrackNotFound
        else match Decide(Duplicate(pending, id), Duplicate(approved, id))
          case Indeterminate => NotAdded
          case Reject(message) => DuplicateTrack(Some(message))
          case Insert => if insertFails then NotAdded else Added
  }

  /** A track already in the approved playlist is reported as approved, whether
      or not it is also waiting in the submissions playlist. */
  lemma ApprovedReportedFirst(expired: bool, link: string, catalog: set<string>,
                              pending: Playlist, approved: Playlist, insertFails: bool)
    requires ExtractTrackId(Current, link).Some? && ExtractTrackId(Current, link).value in catalog
    requires var id := ExtractTrackId(Current, link).value;
      Duplicate(approved, id) == Some(true) && Duplicate(pending, id).Some?
    ensures AddOutcomeOf(Some(expired), link, catalog, pending, approved, insertFails) == DuplicateTrack(Some(AlreadyApproved))
  {
  }

  /** With both playlists fully readable and free of track-less items, a track
      is added only when it is in neither playlist. */
  lemma AddedOnlyWhenNew(expired: bool, link: string, catalog: set<string>,
                         pending: Playlist, approved: Playlist, insertFails: bool)
    requires pending.failingRequest.None? && NoTrack !in pending.items
    requires approved.failingRequest.None? && NoTrack !in approved.items
    requires ExtractTrackId(Current, link).Some?
    ensures var id := ExtractTrackId(Current, link).value;
      AddOutcomeOf(Some(expired), link, catalog, pending, approved, insertFails) == Added
      <==> id in catalog && !insertFails
           && Track(Some(id)) !in pending.items && Track(Some(id)) !in approved.items
  {
    var id := ExtractTrackId(Current, link).value;
    DuplicateComplete(pending, id);
    DuplicateComplete(approved, id);
  }

  /** Submitting the same link again after it was added is rejected as already
      queued, as long as the submissions playlist can be read in full. */
  lemma ResubmissionIsQueued(expired: bool, expiredAgain: bool, link: string, catalog: set<string>,
                             pending: Playlist, approved: Playlist, insertFails: bool, insertFailsAgain: bool)
    requires pending.failingRequest.None? && NoTrack !in pending.items
    requires AddOutcomeOf(Some(expired), link, catalog, pending, approved, insertFails) == Added
    ensures var id := ExtractTrackId(Current, link).value;
      AddOutcomeOf(Some(expiredAgain), link, catalog, Inserted(pending, id), approved, insertFailsAgain)
      == DuplicateTrack(Some(AlreadyQueued))
  {
    var id := ExtractTrackId(Current, link).value;
    var q := Inserted(pending, id);
    assert NoTrack !in q.items by {
      assert q.items == [Track(Some(id))] + pending.items;
    }
    DuplicateComplete(q, id);
    assert q.items[0] == Track(Some(id));
  }

  /** What `processSubmissions` ends with: the reactions to add, or the
      exception it throws. */
  datatype Processing = Reactions(list: seq<ReactionInfo>) | Threw

  /** The client singleton (`SpotifyAPI.getInstance()`). */
  class SpotifyAPI {
    /** The Postgres store the static Utility methods reach. */
    const db: Database
    var authorizationCode: Option<string>
    var credentials: Option<Credentials>
    var accessToken: Option<string>
    var refreshToken: Option<string>
    /** The tokens last handed to the Spotify client library. */
    var clientAccessToken: Option<string>
    var clientRefreshToken: Option<string>
    /** The playlists named by PLAYLIST_ID and APPROVED_PLAYLIST_ID. */
    var pending: Playlist
    var approved: Playlist
    /** The track ids `getTrack` resolves to a track. */
    const catalog: set<string>

    ghost predicate Valid()
      reads this, db
    {
      db.Valid()
    }

    function Fields(): TokenFields
      reads this
    {
      TokenFields(accessToken, refreshToken, clientAccessToken, clientRefreshToken, credentials)
    }

    /** The private constructor: both tokens come from the store (possibly
      null) and are handed to the client library. */
    constructor (db: Database, pending: Playlist, approved: Playlist, catalog: set<string>)
      requires db.Valid()
      ensures Valid() && this.db == db && this.catalog == catalog
      ensures this.pending == pending && this.approved == approved
      ensures Fields() == TokenFields(db.ReadFromDatabase(AUTH_ACCESS_TOKEN), db.ReadFromDatabase(AUTH_REFRESH_TOKEN),
                                      db.ReadFromDatabase(AUTH_ACCESS_TOKEN), db.ReadFromDatabase(AUTH_REFRESH_TOKEN), None)
      ensures authorizationCode.None?
    {
      this.db := db;
      this.pending := pending;
      this.approved := approved;
      this.catalog := catalog;
      authorizationCode := None;
      credentials := None;
      accessToken := db.ReadFromDatabase(AUTH_ACCESS_TOKEN);
      refreshToken := db.ReadFromDatabase(AUTH_REFRESH_TOKEN);
      clientAccessToken := accessToken;
      clientRefreshToken := refreshToken;
    }

    /** `isAccessExpired()` at time `now` (seconds since the epoch). */
    function IsAccessExpired(now: Long): (r: Option<bool>)
      reads this, db
      ensures accessToken.None? || refreshToken.None? ==> r == Some(true)
      ensures r.None? <==> accessToken.Some? && refreshToken.Some?
                           && (ParseLong(db.ReadFromDatabase(AUTH_TIME)).None?
                               || ParseInt(db.ReadFromDatabase(EXPIRES_IN)).None?)
    {
      Expired(accessToken, refreshToken, db.ReadFromDatabase(AUTH_TIME), db.ReadFromDatabase(EXPIRES_IN), now)
    }

    /** `setAuthorizationCode(code)`. */
    method SetAuthorizationCode(code: string)
      modifies this
      ensures authorizationCode == Some(code)
      ensures Fields() == old(Fields()) && pending == old(pending) && approved == old(approved)
    {
      authorizationCode := Some(code);
    }

    /** `setupAccessAndRefreshToken()`: the code exchange, its four store rows
        and both tokens; a failed exchange changes nothing. */
    method SetupAccessAndRefreshToken(now: Long, exchange: Exchange)
      requires Valid()
      modifies this, db
      ensures Valid()
      ensures exchange.Granted? ==> Fields() == AfterAuthorization(exchange.credentials)
                                    && db.config == AuthorizedConfig(old(db.config), now, exchange.credentials)
      ensures exchange.ExchangeFailed? ==> Fields() == old(Fields()) && db.config == old(db.config)
      ensures db.rows == old(db.rows) && db.nextId == old(db.nextId)
      ensures authorizationCode == old(authorizationCode) && pending == old(pending) && approved == old(approved)
    {
      if exchange.ExchangeFailed? {
        return;
      }
      var c := exchange.credentials;
      credentials := Some(c);
      accessToken := c.accessToken;
      refreshToken := c.refreshToken;
      db.SaveToDatabase(AUTH_TIME, Some(IntToString(now)));
      db.SaveToDatabase(AUTH_ACCESS_TOKEN, accessToken);
      db.SaveToDatabase(AUTH_REFRESH_TOKEN, refreshToken);
      db.SaveToDatabase(EXPIRES_IN, Some(IntToString(c.expiresIn)));
      clientAccessToken := accessToken;
      clientRefreshToken := refreshToken;
    }

    /** `refreshTokens()`: a refresh-token grant.  The `refreshToken` field is
        left as it was; the new refresh token, when the response has one, goes
        to the store and the client library only. */
    method RefreshTokens(now: Long, exchange: Exchange) returns (ok: bool)
      requires Valid()
      modifies this, db
      ensures Valid()
      ensures ok <==> exchange.Granted?
      ensures ok ==> Fields() == AfterRefresh(old(Fields()), exchange.credentials)
                     && db.config == RefreshedConfig(old(db.config), now, exchange.credentials)
      ensures !ok ==> Fields() == old(Fields()) && db.config == old(db.config)
      ensures db.rows == old(db.rows) && db.nextId == old(db.nextId)
      ensures authorizationCode == old(authorizationCode) && pending == old(pending) && approved == old(approved)
    {
      if exchange.ExchangeFailed? {
        return false;
      }
      var c := exchange.credentials;
      credentials := Some(c);
      accessToken := c.accessToken;
      var newRefreshToken := if c.refreshToken.Some? then c.refreshToken else refreshToken;
      db.SaveToDatabase(AUTH_TIME, Some(IntToString(now)));
      db.SaveToDatabase(AUTH_ACCESS_TOKEN, accessToken);
      db.SaveToDatabase(EXPIRES_IN, Some(IntToString(c.expiresIn)));
      clientAccessToken := accessToken;
      // `newRefreshToken != refreshToken` compares references: a token read
      // from the response is a new object, the fallback is the field itself
      if c.refreshToken.Some? {
        db.SaveToDatabase(AUTH_REFRESH_TOKEN, newRefreshToken);
        clientRefreshToken := newRefreshToken;
      }
      return true;
    }

    /** `addToPlaylist(trackLink, userId, messageId)`: refresh when expired,
        extract the track id, resolve the track, run the duplicate checks, and
        insert at position 0 plus one submission row.  `refresh` is the answer
        to the refresh request, `insertFails` whether the insert request throws. */
    method AddToPlaylist(link: string, userId: string, messageId: string, now: Long,
                         refresh: Exchange, insertFails: bool) returns (r: AddOutcome)
      requires Valid()
      modifies this, db
      ensures Valid()
      ensures r == AddOutcomeOf(old(IsAccessExpired(now)), link, catalog, old(pending), approved, insertFails)
      ensures r == Added ==>
                var id := ExtractTrackId(Current, link).value;
                && pending == Inserted(old(pending), id)
                && db.rows == old(db.rows) + [Submission(id, userId, messageId, old(db.nextId))]
                && db.nextId == old(db.nextId) + 1
      ensures r != Added ==> pending == old(pending) && db.rows == old(db.rows) && db.nextId == old(db.nextId)
      ensures approved == old(approved) && authorizationCode == old(authorizationCode)
      ensures old(IsAccessExpired(now)) == Some(true) && refresh.Granted? ==>
                Fields() == AfterRefresh(old(Fields()), refresh.credentials)
                && db.config == RefreshedConfig(old(db.config), now, refresh.credentials)
      ensures old(IsAccessExpired(now)) != Some(true) || refresh.ExchangeFailed? ==>
                Fields() == old(Fields()) && db.config == old(db.config)
    {
      var expired := IsAccessExpired(now);
      if expired.None? {
        return Crashed;
      }
      if expired.value {
        var _ := RefreshTokens(now, refresh);
      }
      r := SubmitTrack(link, userId, messageId, insertFails);
    }

    /** The part of `addToPlaylist` after the token check: extraction, the
        track lookup, the duplicate checks and the insertion. */
    method SubmitTrack(link: string, userId: string, messageId: string, insertFails: bool) returns (r: AddOutcome)
      requires Valid()
      modifies this, db
      ensures Valid()
      ensures r == AddOutcomeOf(Some(false), link, catalog, old(pending), approved, insertFails)
      ensures r == Added ==>
                var id := ExtractTrackId(Current, link).value;
                && pending == Inserted(old(pending), id)
                && db.rows == old(db.rows) + [Submission(id, userId, messageId, old(db.nextId))]
                && db.nextId == old(db.nextId) + 1
      ensures r != Added ==> pending == old(pending) && db.rows == old(db.rows) && db.nextId == old(db.nextId)
      ensures approved == old(approved) && authorizationCode == old(authorizationCode)
      ensures Fields() == old(Fields()) && db.config == old(db.config)
    {
      var found := ExtractTrackId(Current, link);
      if found.None? {
        return NotAdded;
      }
      var id := found.value;
      if id !in catalog {
        return TrackNotFound;
      }
      var inPending := IsDuplicate(pending, id);
      var inApproved := IsDuplicate(approved, id);
      if inPending.None? || inApproved.None? {
        return NotAdded;
      }
      if inApproved.value {
        return DuplicateTrack(Some(AlreadyApproved));
      }
      if inPending.value {
        return DuplicateTrack(Some(AlreadyQueued));
      }
      if insertFails {
        return NotAdded;
      }
      pending := Inserted(pending, id);
      db.SaveTrackSubmission(id, userId, messageId);
      return Added;
    }

    /** The for-each loop of `processSubmissions` over the rows read: a
        resolved row gets a check mark reaction and is deleted by id. */
    method ResolveRows(list: seq<Submission>, approvedIds: set<Option<string>>, pendingIds: set<Option<string>>)
      returns (reactions: seq<ReactionInfo>)
      requires db.Valid()
      modifies db
      ensures db.Valid()
      ensures reactions == ReactionsFor(list, approvedIds, pendingIds)
      ensures db.rows == WithoutIds(old(db.rows), ResolvedIds(list, approvedIds, pendingIds))
      ensures db.config == old(db.config) && db.nextId == old(db.nextId)
    {
      reactions := [];
      var i := 0;
      assert list[..0] == [];
      NoRowWithId(db.rows, {});
      while i < |list|
        invariant 0 <= i <= |list|
        invariant db.Valid()
        invariant db.rows == WithoutIds(old(db.rows), ResolvedIds(list[..i], approvedIds, pendingIds))
        invariant reactions == ReactionsFor(list[..i], approvedIds, pendingIds)
        invariant db.config == old(db.config) && db.nextId == old(db.nextId)
      {
        var row := list[i];
        ghost var resolved := ResolvedIds(list[..i], approvedIds, pendingIds);
        PrefixStep(list, i, approvedIds, pendingIds);
        if Some(row.trackId) in approvedIds || Some(row.trackId) !in pendingIds {
          reactions := reactions + [ReactionInfo(row.userId, row.messageId, CheckMark)];
          WithoutIdsTwice(old(db.rows), resolved, {row.submissionId});
          db.DeleteSubmission(row.submissionId);
          assert db.rows == WithoutIds(WithoutIds(old(db.rows), resolved), {row.submissionId});
          assert db.rows == WithoutIds(old(db.rows), resolved + {row.submissionId});
        } else {
          assert ResolvedIds(list[..i + 1], approvedIds, pendingIds) == resolved;
        }
        i := i + 1;
      }
      assert list[..|list|] == list;
    }

    /** `processSubmissions()`: snapshot both playlists, read the submission
        table (an SQL error after `sqlFailsAfter` rows ends the read), throw on
        an empty read, then react to and delete every resolved row in table
        order. */
    method ProcessSubmissions(sqlFailsAfter: Option<nat>) returns (r: Processing)
      requires Valid()
      modifies db
      ensures Valid()
      ensures var read := old(db.rows)[..RowsRead(sqlFailsAfter, |old(db.rows)|)];
              var a := FetchSpec(approved);
              var p := FetchSpec(pending);
              && (r.Threw? <==> a.NullTrack? || p.NullTrack? || read == [])
              && (r.Threw? ==> db.rows == old(db.rows))
              && (r.Reactions? ==>
                    && r.list == ReactionsFor(read, a.ids, p.ids)
                    && db.rows == WithoutIds(old(db.rows), ResolvedIds(read, a.ids, p.ids))
                    && db.rows == KeptRows(read, a.ids, p.ids) + old(db.rows)[|read|..])
      ensures db.config == old(db.config) && db.nextId == old(db.nextId)
    {
      var a, _ := FetchPlaylistTracks(approved);
      if a.NullTrack? {
        return Threw;
      }
      var p, _ := FetchPlaylistTracks(pending);
      if p.NullTrack? {
        return Threw;
      }
      var list := db.FetchAllSubmissions(sqlFailsAfter);
      if list == [] {
        return Threw;
      }
      var rows0 := db.rows;
      var reactions := ResolveRows(list, a.ids, p.ids);
      DeleteResolvedOfPrefix(rows0, |list|, a.ids, p.ids);
      return Reactions(reactions);
    }
  }
}
