/** SPOTIFY_PATTERN of events/CommentWatcher.java, the pattern the moderation
    gate applies to every message, and the classification `isValidSubmission`
    makes of its first match:
      (?:spotify:(album|track|playlist):([^\s?]+)
        |(https?://(?:open|play)\.spotify\.com/(album|track|playlist)/([^\s?]+)))
    At any start position at most one alternative of each group can occur
    (their first characters differ), and both branches end with a greedy run
    of [^\s?] with nothing after it.  So a start position matches exactly when
    the literal parts are there and the run after them is non-empty, and the
    match (group 0) ends where that maximal run ends. */
module SpotifyLinks {
  import opened Basics

  datatype Kind = Album | Track | Playlist

  /** Which branch matched: group 1 (a `spotify:` URI) or group 4 (a web link). */
  datatype Form = Uri | WebLink

  /** A match of the pattern: group 0 is the text from `start` to `end`. */
  datatype LinkMatch = LinkMatch(start: nat, end: nat, form: Form, kind: Kind)

  function KindName(k: Kind): string {
    match k
    case Album => "album"
    case Track => "track"
    case Playlist => "playlist"
  }

  /** What `isValidSubmission` calls the form in its notice. */
  function FormName(f: Form): string {
    match f
    case Uri => "URI"
    case WebLink => "link"
  }

  /** `(album|track|playlist)` at position i. */
  function KindAt(s: string, i: nat): (r: Option<Kind>)
    ensures r.Some? ==> OccursAt(s, i, KindName(r.value))
  {
    if OccursAt(s, i, "album") then Some(Album)
    else if OccursAt(s, i, "track") then Some(Track)
    else if OccursAt(s, i, "playlist") then Some(Playlist)
    else None
  }

  /** The three kind names begin with different letters, so the one that
      occurs is the one found. */
  lemma KindAtOf(s: string, i: nat, k: Kind)
    requires OccursAt(s, i, KindName(k))
    ensures KindAt(s, i) == Some(k)
  {
    assert s[i] == KindName(k)[0] by {
      assert s[i..i + |KindName(k)|][0] == s[i];
    }
    assert i + 5 <= |s| ==> s[i..i + 5][0] == s[i];
  }

  /** The regex class [^\s?]. */
  predicate IsLinkChar(c: char) {
    !IsJavaSpace(c) && c != '?'
  }

  /** The length of the run of [^\s?] starting at i. */
  function LinkRun(s: string, i: nat): (n: nat)
    requires i <= |s|
    ensures i + n <= |s|
    ensures forall k :: i <= k < i + n ==> IsLinkChar(s[k])
    ensures i + n == |s| || !IsLinkChar(s[i + n])
    decreases |s| - i
  {
    if i < |s| && IsLinkChar(s[i]) then 1 + LinkRun(s, i + 1) else 0
  }

  /** The common tail of both branches, from position j: the kind, the
      separator `sep`, and a non-empty run. */
  function KindAndId(s: string, start: nat, j: nat, sep: char, form: Form): (r: Option<LinkMatch>)
    requires start <= j <= |s|
    ensures r.Some? ==> r.value.start == start && j < r.value.end <= |s| && r.value.form == form
  {
    var k := KindAt(s, j);
    if k.None? then None
    else
      var after := j + |KindName(k.value)|;
      if OccursAt(s, after, [sep]) then
        var n := LinkRun(s, after + 1);
        if n > 0 then Some(LinkMatch(start, after + 1 + n, form, k.value)) else None
      else None
  }

  /** The length of `https?://` at i, 0 when it is not there. */
  function SchemeLength(s: string, i: nat): (n: nat)
    ensures n == 8 || n == 7 || n == 0
    ensures n > 0 ==> i + n <= |s|
  {
    if OccursAt(s, i, "https://") then 8 else if OccursAt(s, i, "http://") then 7 else 0
  }

  /** The second branch at position i. */
  function WebLinkAt(s: string, i: nat): (r: Option<LinkMatch>)
    requires i <= |s|
    ensures r.Some? ==> r.value.start == i < r.value.end <= |s| && r.value.form == WebLink
  {
    var n := SchemeLength(s, i);
    if n > 0 && (OccursAt(s, i + n, "open") || OccursAt(s, i + n, "play")) && OccursAt(s, i + n + 4, ".spotify.com/")
    then KindAndId(s, i, i + n + 17, '/', WebLink)
    else None
  }

  /** The pattern at start position i: the URI branch first, then the web link. */
  function MatchAt(s: string, i: nat): (r: Option<LinkMatch>)
    requires i <= |s|
    ensures r.Some? ==> r.value.start == i < r.value.end <= |s|
  {
    var uri := if OccursAt(s, i, "spotify:") then KindAndId(s, i, i + 8, ':', Uri) else None;
    if uri.Some? then uri else WebLinkAt(s, i)
  }

  function Matches(s: string): (ms: seq<Option<LinkMatch>>)
    ensures |ms| == |s| + 1
    ensures forall k :: 0 <= k <= |s| ==> ms[k] == MatchAt(s, k)
  {
    seq(|s| + 1, k requires 0 <= k <= |s| => MatchAt(s, k))
  }

  /** `SPOTIFY_PATTERN.matcher(content).find()`: the first match, if any. */
  function FirstMatch(s: string): (r: Option<LinkMatch>)
    ensures r.Some? ==> r.value.start < r.value.end <= |s|
  {
    FindFromLeftmost(Matches(s), 0);
    FindFrom(Matches(s), 0)
  }

  /** `find` fails only when no start position matches, and otherwise reports
      the match at the leftmost start position that matches. */
  lemma FirstMatchLeftmost(s: string)
    ensures FirstMatch(s).None? <==> forall k :: 0 <= k <= |s| ==> MatchAt(s, k).None?
    ensures FirstMatch(s).Some? ==>
      var m := FirstMatch(s).value;
      m.start < m.end <= |s| && MatchAt(s, m.start) == FirstMatch(s)
      && forall k :: 0 <= k < m.start ==> MatchAt(s, k).None?
  {
    FindFromLeftmost(Matches(s), 0);
  }

  /** A match at the very start is the one `find` reports. */
  lemma FirstMatchAtStart(s: string)
    requires MatchAt(s, 0).Some?
    ensures FirstMatch(s) == MatchAt(s, 0)
  {
    assert Matches(s)[0] == MatchAt(s, 0);
  }

  /** `matcher.group(0)`: the matched text. */
  function MatchedText(s: string, m: LinkMatch): string
    requires m.start <= m.end <= |s|
  {
    s[m.start..m.end]
  }

  const NotATrackNotice: string :=
    "\n\nThis is not a track link! Please pick a single track to submit."
    + " Check the #hidden-gems-help channel for more information.\n\n"
    + "Note: This message will disappear after 60 seconds."

  /** `isValidSubmission` for the first match: valid exactly when the kind is a
      track; otherwise the text of the 60-second notice, naming the form and
      the kind, is the second component. */
  function Classify(m: LinkMatch): (r: Option<string>)
    ensures r.None? <==> m.kind == Track
    ensures r.Some? ==> r.value == "Provided " + FormName(m.form) + ": " + KindName(m.kind) + NotATrackNotice
  {
    if m.kind == Track then None
    else Some("Provided " + FormName(m.form) + ": " + KindName(m.kind) + NotATrackNotice)
  }

  /** Every match contains "spotify:" (a URI) or ".spotify.com/" (a web link). */
  lemma MatchNeedsSpotify(s: string, i: nat)
    requires i <= |s| && MatchAt(s, i).Some?
    ensures MatchAt(s, i).value.form == Uri ==> OccursAt(s, i, "spotify:")
    ensures MatchAt(s, i).value.form == WebLink ==> exists j :: i < j <= |s| && OccursAt(s, j, ".spotify.com/")
  {
    if MatchAt(s, i).value.form == WebLink {
      assert OccursAt(s, i + SchemeLength(s, i) + 4, ".spotify.com/");
    }
  }

  /** The run of a link placed before a character outside [^\s?] ends at that character. */
  lemma {:induction false} LinkRunOfId(x: string, id: string, y: string)
    requires forall k :: 0 <= k < |id| ==> IsLinkChar(id[k])
    requires y == [] || !IsLinkChar(y[0])
    ensures LinkRun(x + id + y, |x|) == |id|
    decreases |id|
  {
    var s := x + id + y;
    if id == [] {
      assert |x| == |s| || s[|x|] == y[0];
    } else {
      assert s == (x + [id[0]]) + id[1..] + y;
      LinkRunOfId(x + [id[0]], id[1..], y);
      assert s[|x|] == id[0];
    }
  }

  predicate IsLinkId(id: string) {
    |id| > 0 && forall k :: 0 <= k < |id| ==> IsLinkChar(id[k])
  }

  /** The common tail, read off the facts that make it match. */
  lemma KindAndIdAt(s: string, start: nat, j: nat, sep: char, form: Form, kind: Kind)
    requires start <= j <= |s| && OccursAt(s, j, KindName(kind))
    requires OccursAt(s, j + |KindName(kind)|, [sep])
    requires LinkRun(s, j + |KindName(kind)| + 1) > 0
    ensures KindAndId(s, start, j, sep, form)
         == Some(LinkMatch(start, j + |KindName(kind)| + 1 + LinkRun(s, j + |KindName(kind)| + 1), form, kind))
  {
    KindAtOf(s, j, kind);
  }

  /** The common tail in a text x + kind + sep + id + rest. */
  lemma KindAndIdOf(x: string, kind: Kind, sep: char, id: string, rest: string, start: nat, form: Form)
    requires start <= |x| && IsLinkId(id) && (rest == [] || !IsLinkChar(rest[0]))
    ensures var s := x + KindName(kind) + [sep] + id + rest;
      KindAndId(s, start, |x|, sep, form) == Some(LinkMatch(start, |x| + |KindName(kind)| + 1 + |id|, form, kind))
  {
    var k := KindName(kind);
    OccursAtEnd(x, k);
    OccursAtExtend(x + k, |x|, k, [sep]);
    OccursAtExtend(x + k + [sep], |x|, k, id);
    OccursAtExtend(x + k + [sep] + id, |x|, k, rest);
    OccursAtEnd(x + k, [sep]);
    OccursAtExtend(x + k + [sep], |x| + |k|, [sep], id);
    OccursAtExtend(x + k + [sep] + id, |x| + |k|, [sep], rest);
    LinkRunOfId(x + k + [sep], id, rest);
    KindAndIdAt(x + k + [sep] + id + rest, start, |x|, sep, form, kind);
  }

  /** The URI branch at the start of a text. */
  lemma UriAtOf(s: string)
    requires OccursAt(s, 0, "spotify:") && KindAndId(s, 0, 8, ':', Uri).Some?
    ensures MatchAt(s, 0) == KindAndId(s, 0, 8, ':', Uri)
  {
  }

  /** A message that opens with a URI: the URI is the first match, whatever
      follows a space or '?' after it (another link included). */
  lemma UriFirst(kind: Kind, id: string, rest: string)
    requires IsLinkId(id) && (rest == [] || !IsLinkChar(rest[0]))
    ensures var uri := "spotify:" + KindName(kind) + [':'] + id;
      FirstMatch(uri + rest) == Some(LinkMatch(0, |uri|, Uri, kind))
  {
    var k := KindName(kind);
    var s := "spotify:" + k + [':'] + id + rest;
    KindAndIdOf("spotify:", kind, ':', id, rest, 0, Uri);
    OccursAtStart("spotify:", k);
    OccursAtExtend("spotify:" + k, 0, "spotify:", [':']);
    OccursAtExtend("spotify:" + k + [':'], 0, "spotify:", id);
    OccursAtExtend("spotify:" + k + [':'] + id, 0, "spotify:", rest);
    UriAtOf(s);
    FirstMatchAtStart(s);
  }

  /** "https://" at the start of a text. */
  lemma SchemeAtStart(s: string)
    requires OccursAt(s, 0, "https://")
    ensures SchemeLength(s, 0) == 8
    ensures !OccursAt(s, 0, "spotify:")
  {
    assert s[0] == s[..8][0];
  }

  /** Past a scheme and host at the start, the web link branch reads the kind. */
  lemma WebLinkAtOf(s: string)
    requires SchemeLength(s, 0) == 8 && !OccursAt(s, 0, "spotify:")
    requires OccursAt(s, 8, "open") && OccursAt(s, 12, ".spotify.com/")
    ensures MatchAt(s, 0) == KindAndId(s, 0, 25, '/', WebLink)
  {
    assert WebLinkAt(s, 0) == KindAndId(s, 0, 25, '/', WebLink);
  }

  /** The web link branch at the start of a text that opens with a link. */
  lemma WebLinkAtStart(kind: Kind, id: string, rest: string)
    requires IsLinkId(id) && (rest == [] || !IsLinkChar(rest[0]))
    ensures MatchAt("https://" + "open" + ".spotify.com/" + KindName(kind) + ['/'] + id + rest, 0)
         == Some(LinkMatch(0, 25 + |KindName(kind)| + 1 + |id|, WebLink, kind))
  {
    var head := "https://" + "open" + ".spotify.com/";
    var s := head + KindName(kind) + ['/'] + id + rest;
    KindAndIdOf(head, kind, '/', id, rest, 0, WebLink);
    HeadAtStart("https://", "open", KindName(kind), ['/'], id, rest);
    SchemeAtStart(s);
    WebLinkAtOf(s);
  }

  /** Where the three literal parts of a link's head lie. */
  lemma HeadAtStart(scheme: string, host: string, a: string, b: string, c: string, d: string)
    requires |host| == 4
    ensures var s := scheme + host + ".spotify.com/" + a + b + c + d;
      OccursAt(s, 0, scheme) && OccursAt(s, |scheme|, host) && OccursAt(s, |scheme| + 4, ".spotify.com/")
  {
    var head := scheme + host + ".spotify.com/";
    OccursAtStart(scheme, host);
    OccursAtExtend(scheme + host, 0, scheme, ".spotify.com/");
    OccursAtEnd(scheme, host);
    OccursAtExtend(scheme + host, |scheme|, host, ".spotify.com/");
    OccursAtEnd(scheme + host, ".spotify.com/");
    ExtendFour(head, 0, scheme, a, b, c, d);
    ExtendFour(head, |scheme|, host, a, b, c, d);
    ExtendFour(head, |scheme| + 4, ".spotify.com/", a, b, c, d);
  }

  lemma ExtendFour(s: string, i: nat, p: string, a: string, b: string, c: string, d: string)
    requires OccursAt(s, i, p)
    ensures OccursAt(s + a + b + c + d, i, p)
  {
    OccursAtExtend(s, i, p, a);
    OccursAtExtend(s + a, i, p, b);
    OccursAtExtend(s + a + b, i, p, c);
    OccursAtExtend(s + a + b + c, i, p, d);
  }

  /** A message that opens with a shared web link: it is the first match, and
      group 0 stops before the query string. */
  lemma WebLinkFirst(kind: Kind, id: string, query: string)
    requires IsLinkId(id)
    ensures var link := "https://" + "open" + ".spotify.com/" + KindName(kind) + ['/'] + id;
      FirstMatch(link + ("?" + query)) == Some(LinkMatch(0, |link|, WebLink, kind))
  {
    WebLinkAtStart(kind, id, "?" + query);
    FirstMatchAtStart("https://" + "open" + ".spotify.com/" + KindName(kind) + ['/'] + id + ("?" + query));
  }
}
