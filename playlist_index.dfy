/** `fetchPlaylistTracks` and `isDuplicate` of api/SpotifyAPI.java: a playlist is
    read page by page (100 items per request, offsets 0, 100, ...) into a set of
    track ids. */
module PlaylistIndex {
  import opened Basics

  /** Spotify's largest page for a playlist-items request. */
  const PAGE_SIZE: nat := 100

  /** One playlist item: a track (a local file has a null id), or an item
      whose `getTrack()` is null. */
  datatype Entry = Track(id: Option<string>) | NoTrack

  /** A playlist as the Web API serves it: its items in order, and the index of
      the page request that fails with a checked exception, if one does. */
  datatype Playlist = Playlist(items: seq<Entry>, failingRequest: Option<nat>)

  /** What `fetchPlaylistTracks` ends with: the set it returns, or the
      NullPointerException that escapes when an item has no track. */
  datatype Fetched = TrackIds(ids: set<Option<string>>) | NullTrack

  /** How many requests the do-while makes for a playlist of `total` items when
      none fails: at least one, and the fewest whose pages cover every item. */
  function RequestCount(total: nat): (n: nat)
    ensures n >= 1 && total <= PAGE_SIZE * n
    ensures n == 1 || PAGE_SIZE * (n - 1) < total
  {
    if total == 0 then 1 else (total + PAGE_SIZE - 1) / PAGE_SIZE
  }

  /** The ids of the tracks among `items`. */
  function IdsOf(items: seq<Entry>): (r: set<Option<string>>)
    ensures forall id :: id in r <==> Track(id) in items
  {
    if items == [] then {}
    else
      var init := items[..|items| - 1];
      var last := items[|items| - 1];
      assert items == init + [last];
      IdsOf(init) + (if last.Track? then {last.id} else {})
  }

  /** How many items the loop gets through: all of them, or the pages before a
      failing request. */
  function Processed(p: Playlist): (n: nat)
    ensures n <= |p.items|
    ensures p.failingRequest.None? ==> n == |p.items|
  {
    if p.failingRequest.Some? && p.failingRequest.value < RequestCount(|p.items|)
    then PAGE_SIZE * p.failingRequest.value
    else |p.items|
  }

  /** The result of `fetchPlaylistTracks`: a failing page request is caught and
      the ids gathered so far are returned; an item without a track throws. */
  function FetchSpec(p: Playlist): (f: Fetched)
    ensures f.NullTrack? <==> exists k :: 0 <= k < Processed(p) && p.items[k] == NoTrack
    ensures f.TrackIds? ==> forall id :: id in f.ids <==> exists k :: 0 <= k < Processed(p) && p.items[k] == Track(id)
    ensures p.failingRequest.None? && NoTrack !in p.items ==> f == TrackIds(IdsOf(p.items))
  {
    var seen := p.items[..Processed(p)];
    assert forall e :: e in seen <==> exists k :: 0 <= k < Processed(p) && p.items[k] == e by {
      forall e ensures e in seen <==> exists k :: 0 <= k < Processed(p) && p.items[k] == e {
        if e in seen {
          var k :| 0 <= k < |seen| && seen[k] == e;
          assert p.items[k] == e;
        }
        if exists k :: 0 <= k < Processed(p) && p.items[k] == e {
          var k :| 0 <= k < Processed(p) && p.items[k] == e;
          assert seen[k] == e;
        }
      }
    }
    assert p.failingRequest.None? ==> seen == p.items;
    if NoTrack in seen then NullTrack else TrackIds(IdsOf(seen))
  }

  /** `isDuplicate`: membership of the id in the fetched set; an exception from
      the fetch becomes the empty Optional (None). */
  function Duplicate(p: Playlist, trackId: string): (r: Option<bool>)
    ensures r.None? <==> exists k :: 0 <= k < Processed(p) && p.items[k] == NoTrack
    ensures r.Some? ==> (r.value <==> exists k :: 0 <= k < Processed(p) && p.items[k] == Track(Some(trackId)))
  {
    var f := FetchSpec(p);
    if f.NullTrack? then None else Some(Some(trackId) in f.ids)
  }

  lemma IdsOfAppend(items: seq<Entry>, e: Entry)
    ensures IdsOf(items + [e]) == IdsOf(items) + (if e.Track? then {e.id} else {})
  {
    assert (items + [e])[..|items|] == items;
  }

  /** The loop has made `requests` requests, none failing, and its offset
      has reached the reported total: that is every request there is. */
  lemma AllPagesRead(p: Playlist, requests: nat)
    requires 1 <= requests && |p.items| <= PAGE_SIZE * requests
    requires requests == 1 || PAGE_SIZE * (requests - 1) < |p.items|
    requires p.failingRequest.None? || p.failingRequest.value >= requests
    ensures requests == RequestCount(|p.items|) && Processed(p) == |p.items|
  {
  }

  /** Request number `k` did not fail, so every item of its page is processed. */
  lemma PageIsProcessed(p: Playlist, k: nat)
    requires k < RequestCount(|p.items|)
    requires p.failingRequest.None? || p.failingRequest.value > k
    ensures Processed(p) >= PAGE_SIZE * (k + 1) || Processed(p) == |p.items|
  {
  }

  /** The for-each over one page, items `from` to `to`: each item's track id
      is added to the set; an item without a track throws. */
  method AddPage(p: Playlist, from: nat, to: nat, ids: set<Option<string>>) returns (r: Fetched)
    requires from <= to <= |p.items|
    requires NoTrack !in p.items[..from] && ids == IdsOf(p.items[..from])
    ensures r.NullTrack? <==> NoTrack in p.items[..to]
    ensures r.TrackIds? ==> r.ids == IdsOf(p.items[..to])
  {
    var acc := ids;
    var j := from;
    while j < to
      invariant from <= j <= to
      invariant NoTrack !in p.items[..j]
      invariant acc == IdsOf(p.items[..j])
    {
      if p.items[j].NoTrack? {
        assert p.items[..to][j] == NoTrack;
        return NullTrack;
      }
      assert p.items[..j + 1] == p.items[..j] + [p.items[j]];
      IdsOfAppend(p.items[..j], p.items[j]);
      acc := acc + {p.items[j].id};
      j := j + 1;
    }
    return TrackIds(acc);
  }

  /** An item without a track among the first `end` items, all of which are
      processed, reaches FetchSpec. */
  lemma NullTrackInPrefix(p: Playlist, end: nat)
    requires end <= Processed(p) && NoTrack in p.items[..end]
    ensures FetchSpec(p) == NullTrack
  {
    var j :| 0 <= j < end && p.items[..end][j] == NoTrack;
    assert p.items[..Processed(p)][j] == NoTrack;
  }

  /** `fetchPlaylistTracks(playlistId)`: the do-while over pages, returning the
      set and the number of page requests made. */
  method FetchPlaylistTracks(p: Playlist) returns (r: Fetched, requests: nat)
    ensures r == FetchSpec(p)
    ensures 1 <= requests <= RequestCount(|p.items|)
    ensures p.failingRequest.None? && r.TrackIds? ==> requests == RequestCount(|p.items|)
  {
    var ids: set<Option<string>> := {};
    var offset: nat := 0;
    requests := 0;
    while true
      invariant offset == PAGE_SIZE * requests && offset <= |p.items|
      invariant requests < RequestCount(|p.items|)
      invariant p.failingRequest.None? || p.failingRequest.value >= requests
      invariant NoTrack !in p.items[..offset]
      invariant ids == IdsOf(p.items[..offset])
      decreases |p.items| - offset
    {
      if p.failingRequest == Some(requests) {
        assert Processed(p) == offset;
        requests := requests + 1;
        r := TrackIds(ids);
        return;
      }
      PageIsProcessed(p, requests);
      var end := if offset + PAGE_SIZE <= |p.items| then offset + PAGE_SIZE else |p.items|;
      requests := requests + 1;
      var page := AddPage(p, offset, end, ids);
      if page.NullTrack? {
        NullTrackInPrefix(p, end);
        r := NullTrack;
        return;
      }
      ids := page.ids;
      offset := offset + PAGE_SIZE;
      if offset >= |p.items| {
        AllPagesRead(p, requests);
        assert p.items[..end] == p.items;
        r := TrackIds(ids);
        return;
      }
    }
  }

  /** `isDuplicate(playlistId, trackId)`. */
  method IsDuplicate(p: Playlist, trackId: string) returns (r: Option<bool>)
    ensures r == Duplicate(p, trackId)
  {
    var fetched, _ := FetchPlaylistTracks(p);
    r := if fetched.NullTrack? then None else Some(Some(trackId) in fetched.ids);
  }

  /** A positive answer is never wrong. */
  lemma DuplicateSound(p: Playlist, trackId: string)
    ensures Duplicate(p, trackId) == Some(true) ==> Track(Some(trackId)) in p.items
  {
    var seen := p.items[..Processed(p)];
    if Duplicate(p, trackId) == Some(true) {
      assert Track(Some(trackId)) in seen;
    }
  }

  /** With every page served and every item a track, the answer is exact. */
  lemma DuplicateComplete(p: Playlist, trackId: string)
    requires p.failingRequest.None? && NoTrack !in p.items
    ensures Duplicate(p, trackId) == Some(Track(Some(trackId)) in p.items)
  {
    assert p.items[..Processed(p)] == p.items;
  }

  /** A failing page request does not make the check indeterminate: the partial
      set is used, so a track on a later page is reported as not present. */
  lemma FailedPageHidesLaterTrack(p: Playlist, trackId: string, k: nat, at: nat)
    requires p.failingRequest == Some(k) && k < RequestCount(|p.items|)
    requires NoTrack !in p.items
    requires PAGE_SIZE * k <= at < |p.items| && p.items[at] == Track(Some(trackId))
    requires forall i :: 0 <= i < PAGE_SIZE * k ==> p.items[i] != Track(Some(trackId))
    ensures Track(Some(trackId)) in p.items
    ensures Duplicate(p, trackId) == Some(false)
  {
    var seen := p.items[..PAGE_SIZE * k];
    assert NoTrack !in seen;
    assert Track(Some(trackId)) !in seen;
  }

  /** An item without a track on a page that is read makes the check
      indeterminate. */
  lemma NullTrackIndeterminate(p: Playlist, trackId: string, at: nat)
    requires at < Processed(p) && p.items[at] == NoTrack
    ensures Duplicate(p, trackId) == None
  {
    assert p.items[..Processed(p)][at] == NoTrack;
  }
}
