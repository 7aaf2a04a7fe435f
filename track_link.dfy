/** The two patterns the SpotifyAPI classes use to pull a track id out of a
    message, as matchers over the text with java.util.regex `find` semantics
    (the leftmost start position that matches wins):
      api/SpotifyAPI.java:83      (spotify:track:|/track/)([a-zA-Z0-9]+)(\?|\s|$)
      events/SpotifyAPI.java:65   /(track|album)/([a-zA-Z0-9]+)\?
    Group 2 is the id.  In both patterns the id run is greedy and what must
    follow it is never a letter or digit, so backtracking into the run never
    helps: a start position matches exactly when the maximal run is non-empty
    and followed by an acceptable character. */
module TrackLinks {
  import opened Basics

  datatype Pattern = Current | Legacy

  /** The length of the run of [a-zA-Z0-9] starting at i. */
  function AlnumRun(s: string, i: nat): (n: nat)
    requires i <= |s|
    ensures i + n <= |s|
    ensures forall k :: i <= k < i + n ==> IsAsciiAlnum(s[k])
    ensures i + n == |s| || !IsAsciiAlnum(s[i + n])
    decreases |s| - i
  {
    if i < |s| && IsAsciiAlnum(s[i]) then 1 + AlnumRun(s, i + 1) else 0
  }

  /** The line terminators other than \n and \r (which `\s` covers already)
      before which Java's `$` matches when they end the input. */
  predicate IsOtherLineTerminator(c: char) {
    c == '\U{85}' || c == '\U{2028}' || c == '\U{2029}'
  }

  /** `(\?|\s|$)` at position j. */
  predicate EndsCurrentId(s: string, j: nat)
    requires j <= |s|
  {
    j == |s| || s[j] == '?' || IsJavaSpace(s[j]) || (j == |s| - 1 && IsOtherLineTerminator(s[j]))
  }

  /** `\?` at position j. */
  predicate EndsLegacyId(s: string, j: nat)
    requires j <= |s|
  {
    j < |s| && s[j] == '?'
  }

  /** The length of the literal part of the pattern found at i (0 for none). */
  function PrefixAt(pattern: Pattern, s: string, i: nat): (n: nat)
    requires i <= |s|
    ensures n > 0 ==> i + n <= |s|
  {
    match pattern
    case Current =>
      if OccursAt(s, i, "spotify:track:") then 14 else if OccursAt(s, i, "/track/") then 7 else 0
    case Legacy =>
      if OccursAt(s, i, "/track/") || OccursAt(s, i, "/album/") then 7 else 0
  }

  /** The id (group 2) of a match starting exactly at i, if the pattern
      matches there. */
  function IdAt(pattern: Pattern, s: string, i: nat): (r: Option<string>)
    requires i <= |s|
    ensures r.Some? ==> |r.value| > 0 && forall k :: 0 <= k < |r.value| ==> IsAsciiAlnum(r.value[k])
  {
    var pre := PrefixAt(pattern, s, i);
    if pre == 0 then None
    else
      var n := AlnumRun(s, i + pre);
      var ends := if pattern == Current then EndsCurrentId(s, i + pre + n) else EndsLegacyId(s, i + pre + n);
      if n > 0 && ends then Some(s[i + pre..i + pre + n]) else None
  }

  /** The outcome of trying the pattern at every start position 0 .. |s|. */
  function Matches(pattern: Pattern, s: string): (ms: seq<Option<string>>)
    ensures |ms| == |s| + 1
    ensures forall k :: 0 <= k <= |s| ==> ms[k] == IdAt(pattern, s, k)
  {
    seq(|s| + 1, k requires 0 <= k <= |s| => IdAt(pattern, s, k))
  }

  /** The track id `addToPlaylist` extracts from a message, or None when
      `find()` fails (the method then returns false and changes nothing). */
  function ExtractTrackId(pattern: Pattern, link: string): (r: Option<string>)
    ensures r.Some? ==> |r.value| > 0 && forall k :: 0 <= k < |r.value| ==> IsAsciiAlnum(r.value[k])
    ensures r.None? <==> forall k :: 0 <= k <= |link| ==> IdAt(pattern, link, k).None?
  {
    FindFromLeftmost(Matches(pattern, link), 0);
    FindFrom(Matches(pattern, link), 0)
  }

  predicate IsAlnumId(id: string) {
    |id| > 0 && forall k :: 0 <= k < |id| ==> IsAsciiAlnum(id[k])
  }

  /** The run starting where an alphanumeric id is placed ends where the id does. */
  lemma {:induction false} AlnumRunOfId(x: string, id: string, y: string)
    requires forall k :: 0 <= k < |id| ==> IsAsciiAlnum(id[k])
    requires y == [] || !IsAsciiAlnum(y[0])
    ensures AlnumRun(x + id + y, |x|) == |id|
    decreases |id|
  {
    var s := x + id + y;
    if id == [] {
      assert |x| == |s| || s[|x|] == y[0];
    } else {
      assert s == (x + [id[0]]) + id[1..] + y;
      AlnumRunOfId(x + [id[0]], id[1..], y);
      assert s[|x|] == id[0];
    }
  }

  /** A Spotify track URI on its own: the current pattern gives back its id. */
  lemma UriRoundTrip(id: string)
    requires IsAlnumId(id)
    ensures ExtractTrackId(Current, "spotify:track:" + id) == Some(id)
  {
    var s := "spotify:track:" + id;
    assert s == "spotify:track:" + id + [];
    AlnumRunOfId("spotify:track:", id, []);
    assert OccursAt(s, 0, "spotify:track:");
    assert s[14..14 + |id|] == id;
  }

  /** Position k of the text p cannot start "/track/", "/album/" or
      "spotify:track:". */
  predicate QuietAt(p: string, k: nat) {
    && k + 7 < |p|
    && (p[k] != '/' || (p[k + 1] != 't' && p[k + 1] != 'a'))
    && (p[k] != 's' || p[k + 7] != ':')
  }

  /** No position below n of p can start a literal of either pattern. */
  predicate QuietBelow(p: string, n: nat) {
    forall k :: 0 <= k < n ==> QuietAt(p, k)
  }

  /** A text that starts with p has no match below n when p is quiet there. */
  lemma NoMatchInQuietPrefix(pattern: Pattern, p: string, s: string, n: nat)
    requires n <= |p| <= |s| && QuietBelow(p, n) && s[..|p|] == p
    ensures forall k :: 0 <= k < n ==> IdAt(pattern, s, k).None?
  {
    forall k | 0 <= k < n ensures IdAt(pattern, s, k).None? {
      assert QuietAt(p, k);
      assert s[k] == p[k] && s[k + 1] == p[k + 1] && s[k + 7] == p[k + 7] by {
        assert s[..|p|][k] == s[k];
        assert s[..|p|][k + 1] == s[k + 1];
        assert s[..|p|][k + 7] == s[k + 7];
      }
      assert s[k..k + 7][0] == s[k] && s[k..k + 7][1] == s[k + 1];
      assert k + 14 <= |s| ==> s[k..k + 14][0] == s[k] && s[k..k + 14][7] == s[k + 7];
    }
  }

  const WebTrackPrefix: string := "https://open.spotify.com/track/"

  /** The host part shared by web links. */
  const SpotifyHost: string := "https://open.spotify.com"

  /** No position of the host can start a literal of either pattern: its only
      '/' are the two of "//", and neither of its two 's' is followed seven
      places later by ':'. */
  lemma HostIsQuiet(p: string)
    requires |p| >= |SpotifyHost| + 7 && p[..|SpotifyHost|] == SpotifyHost
    ensures QuietBelow(p, |SpotifyHost|)
  {
    forall k | 0 <= k < |SpotifyHost| ensures QuietAt(p, k) {
      assert p[..|SpotifyHost|][k] == p[k];
      assert k + 1 < |SpotifyHost| ==> p[..|SpotifyHost|][k + 1] == p[k + 1];
      assert k + 7 < |SpotifyHost| ==> p[..|SpotifyHost|][k + 7] == p[k + 7];
    }
  }

  /** In "https://open.spotify.com/track/" and "https://open.spotify.com/album/"
      only position 24 can start a literal. */
  lemma WebPrefixIsQuiet()
    ensures QuietBelow(WebTrackPrefix, 24)
  {
    assert WebTrackPrefix[..|SpotifyHost|] == SpotifyHost;
    HostIsQuiet(WebTrackPrefix);
  }

  lemma AlbumPrefixIsQuiet()
    ensures QuietBelow(AlbumPrefix, 24)
  {
    assert AlbumPrefix[..|SpotifyHost|] == SpotifyHost;
    HostIsQuiet(AlbumPrefix);
  }

  /** None of the first 24 positions of a web link can start a match. */
  lemma NoMatchInWebPrefix(pattern: Pattern, s: string)
    requires |s| > |WebTrackPrefix| && s[..|WebTrackPrefix|] == WebTrackPrefix
    ensures forall k :: 0 <= k < 24 ==> IdAt(pattern, s, k).None?
  {
    WebPrefixIsQuiet();
    NoMatchInQuietPrefix(pattern, WebTrackPrefix, s, 24);
  }

  /** The first 24 positions skipped, `find` starts its search at the "/track/". */
  lemma FindAfterWebPrefix(pattern: Pattern, s: string)
    requires |s| > |WebTrackPrefix| && s[..|WebTrackPrefix|] == WebTrackPrefix
    ensures FindFrom(Matches(pattern, s), 0) == FindFrom(Matches(pattern, s), 24)
  {
    NoMatchInWebPrefix(pattern, s);
    SkipNoMatch(Matches(pattern, s), 0, 24);
  }

  /** In a web link, "/track/" at position 24 is followed by the id, which
      ends where the text after it begins. */
  lemma WebLinkIdAt(id: string, rest: string)
    requires IsAlnumId(id) && (rest == [] || !IsAsciiAlnum(rest[0]))
    ensures var s := WebTrackPrefix + id + rest;
      && |s| > |WebTrackPrefix| && s[..|WebTrackPrefix|] == WebTrackPrefix
      && PrefixAt(Current, s, 24) == 7 && PrefixAt(Legacy, s, 24) == 7
      && AlnumRun(s, 31) == |id| && s[31..31 + |id|] == id
      && (rest != [] ==> s[31 + |id|] == rest[0])
  {
    var s := WebTrackPrefix + id + rest;
    assert s[..|WebTrackPrefix|] == WebTrackPrefix;
    AlnumRunOfId(WebTrackPrefix, id, rest);
    assert s[24..31] == "/track/";
    assert 38 <= |s| ==> s[24..38][0] == '/';
    assert s[31..31 + |id|] == id;
  }

  /** A shared web link with its query string: both patterns give the id. */
  lemma WebLinkWithQuery(id: string, query: string)
    requires IsAlnumId(id)
    ensures ExtractTrackId(Current, WebTrackPrefix + id + "?" + query) == Some(id)
    ensures ExtractTrackId(Legacy, WebTrackPrefix + id + "?" + query) == Some(id)
  {
    var s := WebTrackPrefix + id + ("?" + query);
    assert s == WebTrackPrefix + id + "?" + query;
    WebLinkIdAt(id, "?" + query);
    assert IdAt(Current, s, 24) == Some(id);
    assert IdAt(Legacy, s, 24) == Some(id);
    FindAfterWebPrefix(Current, s);
    FindAfterWebPrefix(Legacy, s);
  }

  /** A web link without a query string: the current pattern accepts it at the
      end of the input. */
  lemma BareWebLinkCurrent(id: string)
    requires IsAlnumId(id)
    ensures ExtractTrackId(Current, WebTrackPrefix + id) == Some(id)
  {
    var s := WebTrackPrefix + id;
    assert s == WebTrackPrefix + id + [];
    WebLinkIdAt(id, []);
    assert IdAt(Current, s, 24) == Some(id);
    FindAfterWebPrefix(Current, s);
  }

  /** The legacy pattern needs the '?' and rejects the same link. */
  lemma BareWebLinkLegacy(id: string)
    requires IsAlnumId(id)
    ensures ExtractTrackId(Legacy, WebTrackPrefix + id) == None
  {
    var s := WebTrackPrefix + id;
    assert '?' !in s by {
      assert forall k :: 0 <= k < |s| ==> s[k] == if k < 31 then WebTrackPrefix[k] else id[k - 31];
    }
    forall k | 0 <= k <= |s| ensures IdAt(Legacy, s, k).None? {
      LegacyNeedsQuestionMark(s, k);
    }
  }

  /** Without a '?' anywhere, the legacy pattern never matches. */
  lemma LegacyNeedsQuestionMark(s: string, k: nat)
    requires k <= |s| && '?' !in s
    ensures IdAt(Legacy, s, k).None?
  {
    var pre := PrefixAt(Legacy, s, k);
    if pre > 0 {
      var n := AlnumRun(s, k + pre);
      if k + pre + n < |s| {
        assert s[k + pre + n] in s;
      }
    }
  }

  /** An album link: the legacy pattern takes the album id as if it were a
      track id, the current pattern rejects it. */
  lemma AlbumLinkWithQuery(id: string, query: string)
    requires IsAlnumId(id) && '/' !in query && ':' !in query
    ensures ExtractTrackId(Legacy, AlbumPrefix + id + "?" + query) == Some(id)
    ensures ExtractTrackId(Current, AlbumPrefix + id + "?" + query) == None
  {
    var s := AlbumPrefix + id + ("?" + query);
    assert s == AlbumPrefix + id + "?" + query;
    AlbumLinkLegacyId(id, query, s);
    AlbumPrefixIsQuiet();
    assert s[..|AlbumPrefix|] == AlbumPrefix;
    NoMatchInQuietPrefix(Legacy, AlbumPrefix, s, 24);
    NoMatchInQuietPrefix(Current, AlbumPrefix, s, 24);
    SkipNoMatch(Matches(Legacy, s), 0, 24);
    AlbumLinkNoTrackAfter(id, query, s);
  }

  /** The legacy pattern matches the album link at 24. */
  lemma AlbumLinkLegacyId(id: string, query: string, s: string)
    requires IsAlnumId(id) && s == AlbumPrefix + id + ("?" + query)
    ensures IdAt(Legacy, s, 24) == Some(id)
  {
    AlnumRunOfId(AlbumPrefix, id, "?" + query);
    assert s[24..31] == "/album/";
    assert s[31 + |id|] == '?';
    assert s[31..31 + |id|] == id;
  }

  /** From position 24 on, nothing in an album link starts the current pattern. */
  lemma AlbumLinkNoTrackAfter(id: string, query: string, s: string)
    requires IsAlnumId(id) && '/' !in query && ':' !in query
    requires s == AlbumPrefix + id + ("?" + query)
    ensures forall k :: 24 <= k <= |s| ==> IdAt(Current, s, k).None?
  {
    AlbumLinkPrefix(id, query, s);
    assert s[24..31] == "/album/";
    assert s[25] == 'a';
    forall k | 24 <= k <= |s| ensures IdAt(Current, s, k).None? {
      CurrentNeedsLiteral(s, k);
    }
  }

  /** The current pattern cannot match at k unless the characters there can
      begin "/track/" or "spotify:track:". */
  lemma CurrentNeedsLiteral(s: string, k: nat)
    requires k <= |s|
    requires k + 7 <= |s| ==> s[k] != '/' || s[k + 1] != 't' || s[k + 6] != '/'
    requires k + 14 <= |s| ==> s[k + 7] != ':'
    ensures IdAt(Current, s, k).None?
  {
    assert k + 7 <= |s| ==> s[k..k + 7][0] == s[k] && s[k..k + 7][1] == s[k + 1] && s[k..k + 7][6] == s[k + 6];
    assert k + 14 <= |s| ==> s[k..k + 14][7] == s[k + 7];
  }

  const AlbumPrefix: string := "https://open.spotify.com/album/"

  /** The characters of an album link: the fixed prefix, then no '/' or ':'. */
  lemma AlbumLinkPrefix(id: string, query: string, s: string)
    requires IsAlnumId(id) && '/' !in query && ':' !in query
    requires s == AlbumPrefix + id + ("?" + query)
    ensures forall m :: 0 <= m < |AlbumPrefix| ==> s[m] == AlbumPrefix[m]
    ensures forall m :: |AlbumPrefix| <= m < |s| ==> s[m] != '/' && s[m] != ':'
  {
    var t := id + ("?" + query);
    forall m | |AlbumPrefix| <= m < |s| ensures s[m] != '/' && s[m] != ':' {
      var j := m - |AlbumPrefix|;
      assert s[m] == t[j];
      if j < |id| {
        assert IsAsciiAlnum(id[j]);
      } else if j > |id| {
        assert t[j] == query[j - |id| - 1];
        assert t[j] in query;
      }
    }
  }
}
