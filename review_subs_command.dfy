/** commands/TBReviewSubsCommand.java: `]reviewSubs` in the commands channel,
    from a curator, runs the reconciliation pass of the Spotify client and
    reacts to every resolved submission message, then announces the review in
    the submissions channel. */
module ReviewSubsCommand {
  import opened Basics
  import opened Store
  import opened Reconciliation
  import opened PlaylistIndex
  import opened SpotifyApi

  const REVIEW_SUBS: string := "]reviewSubs"

  /** A queued action: a reaction on a message of the submissions channel, or
      the announcement sent there, pinging the "Submitted" role (its stored
      id) and pointing to the commands channel. */
  datatype ReviewEffect =
    | React(messageId: string, emoji: string)
    | Announce(submittedRoleId: Option<string>, commandsChId: string)

  /** The announcement between the role ping and the commands channel.  The
      check mark is written in the source as the UTF-8 bytes of U+2705 read as
      Windows-1252, and is sent that way. */
  const AnnouncementBody: string :=
    "\n\n"
    + "Just finished listening to all of the latest submissions and added a few to the playlist!\n\n"
    + "There should be a \U{00E2}\U{0153}\U{2026} reaction if I listened to it, so let me know if I missed your submission. "
    + "Going to play with the playlist order now <:KannaHello:771929794317254686>\n\n"
    + "I'll be reposting any stories on IG that mention the playlist, just make sure to tag me so I see it!\n\n"
    + "If you wish to not be pinged until you submit another track, just type !dpm in "

  const AnnouncementTail: string := " and it should remove your \"Submitted\" role."

  /** The text of the announcement: it opens with the ping of the
      "Submitted" role and names the commands channel. */
  function AnnouncementText(submittedRoleId: Option<string>, commandsChId: string): (t: string)
    ensures StartsWith(t, "<@&" + Show(submittedRoleId) + ">")
    ensures Contains(t, "<#" + commandsChId + ">")
  {
    var ping := "<@&" + Show(submittedRoleId) + ">";
    var channel := "<#" + commandsChId + ">";
    PingThenChannel(ping, AnnouncementBody, channel, AnnouncementTail);
    ping + AnnouncementBody + channel + AnnouncementTail
  }

  lemma PingThenChannel(ping: string, body: string, channel: string, tail: string)
    ensures StartsWith(ping + body + channel + tail, ping)
    ensures Contains(ping + body + channel + tail, channel)
  {
    ContainsMiddle(ping + body, channel, tail);
    assert ping + body + channel + tail == ping + (body + channel + tail);
    OccursAtStart(ping, body + channel + tail);
  }

  /** One reaction per ReactionInfo, in list order. */
  function Reacts(list: seq<ReactionInfo>): (r: seq<ReviewEffect>)
    ensures |r| == |list|
    ensures forall k :: 0 <= k < |list| ==> r[k] == React(list[k].messageId, list[k].emoji)
  {
    seq(|list|, k requires 0 <= k < |list| => React(list[k].messageId, list[k].emoji))
  }

  /** What the command queues once `processSubmissions` has answered: nothing
      for an exception or an empty list, nothing when the submissions channel
      is missing (the NullPointerException is caught before the first
      reaction), otherwise the reactions and then exactly one announcement. */
  function ReviewEffects(p: Processing, channelFound: bool, announcement: ReviewEffect): (effects: seq<ReviewEffect>)
    ensures effects != [] <==> p.Reactions? && p.list != [] && channelFound
    ensures effects != [] ==>
              && |effects| == |p.list| + 1
              && effects[..|p.list|] == Reacts(p.list)
              && effects[|p.list|] == announcement
    ensures forall k :: 0 <= k < |effects| - 1 ==> effects[k].React?
    ensures effects != [] ==> effects[|effects| - 1] == announcement
  {
    if p.Reactions? && p.list != [] && channelFound then Reacts(p.list) + [announcement] else []
  }

  class TBReviewSubsCommand {
    const curators: seq<Curator>
    /** The submissions channel. */
    const chId: string
    const commandsChId: string
    const api: SpotifyAPI

    constructor (curators: seq<Curator>, chId: string, commandsChId: string, api: SpotifyAPI)
      ensures this.curators == curators && this.chId == chId && this.commandsChId == commandsChId
      ensures this.api == api
    {
      this.curators := curators;
      this.chId := chId;
      this.commandsChId := commandsChId;
      this.api := api;
    }

    /** The loop over the reactions. */
    method ReactAll(list: seq<ReactionInfo>) returns (effects: seq<ReviewEffect>)
      ensures effects == Reacts(list)
    {
      effects := [];
      var i := 0;
      while i < |list|
        invariant 0 <= i <= |list|
        invariant effects == Reacts(list[..i])
      {
        effects := effects + [React(list[i].messageId, list[i].emoji)];
        i := i + 1;
      }
      assert list[..i] == list;
    }

    /** `onGuildMessageReceived`.  `sqlFailsAfter` is passed to the store read
        of `processSubmissions` and `channelFound` says whether
        `getTextChannelById(chId)` finds the channel.  `processed` is what
        `processSubmissions` answered, None when it was not called.  A
        non-curator's refusal message is built but never queued. */
    method OnGuildMessageReceived(message: string, channelId: string, authorId: string,
                                  sqlFailsAfter: Option<nat>, channelFound: bool)
      returns (effects: seq<ReviewEffect>, processed: Option<Processing>)
      requires api.Valid()
      modifies api.db
      ensures api.Valid()
      ensures processed.Some? <==> message == REVIEW_SUBS && channelId == commandsChId && IsCurator(curators, authorId)
      ensures processed.None? ==> effects == [] && api.db.rows == old(api.db.rows)
      ensures processed.Some? ==>
                effects == ReviewEffects(processed.value, channelFound,
                                         Announce(api.db.ReadFromDatabase(SUBMITTED_ROLE_ID), commandsChId))
      ensures processed.Some? && processed.value.Reactions? ==>
                var read := old(api.db.rows)[..RowsRead(sqlFailsAfter, |old(api.db.rows)|)];
                && FetchSpec(api.approved).TrackIds? && FetchSpec(api.pending).TrackIds?
                && processed.value.list == ReactionsFor(read, FetchSpec(api.approved).ids, FetchSpec(api.pending).ids)
                && |old(api.db.rows)| - |api.db.rows| == |processed.value.list|
      ensures api.db.config == old(api.db.config)
    {
      if message != REVIEW_SUBS || channelId != commandsChId {
        return [], None;
      }
      if !IsCurator(curators, authorId) {
        return [], None;
      }
      var r := api.ProcessSubmissions(sqlFailsAfter);
      processed := Some(r);
      if r.Reactions? {
        ghost var read := old(api.db.rows)[..RowsRead(sqlFailsAfter, |old(api.db.rows)|)];
        ReactionsPartition(read, FetchSpec(api.approved).ids, FetchSpec(api.pending).ids);
      }
      if r.Threw? || r.list == [] || !channelFound {
        return [], processed;
      }
      effects := ReactAll(r.list);
      var roleId := api.db.ReadFromDatabase(SUBMITTED_ROLE_ID);
      effects := effects + [Announce(roleId, commandsChId)];
    }
  }
}
