/** events/CommentWatcher.java: the gate on the submission channel.  Every
    message posted there by a person is either left alone, deleted, or handed
    to the Spotify client; the replies, direct messages and role changes the
    handler queues are returned as a list of effects, in the order they are
    queued.  What the Spotify client reports for the link is an input (the
    AddOutcome of the client's model), and so is the URL validator's verdict
    for a message without a Spotify link. */
module CommentWatching {
  import opened Basics
  import opened Store
  import opened Roles
  import opened SpotifyLinks
  import opened SpotifyApi

  /** The text of a message the handler sends, by what it says. */
  datatype Reply =
    | AdminAdded(authorId: string)
    | AdminTrackMissing(group0: string)
    | Thanks(authorId: string)
    | TrackMissing(group0: string)
    /** the message of the DuplicateTrackException */
    | Verbatim(text: string)
    | OnlySpotify(helpChId: string)
    /** the notice of `isValidSubmission` for a link that is not a track */
    | NotATrack(text: string)

  /** A queued action of the handler. */
  datatype Effect =
    | DeleteMessage
    | Send(reply: Reply)
    | SendSecret(notice: Reply, seconds: nat)
    | AddRole(role: Role)
    | RemoveRole(role: Role)
    | SubmitToPlaylist(link: string)

  /** The event: the channel, the author, the raw content and the author's
      guild roles (None when `getMember()` is null). */
  datatype Message = Message(channelId: string, authorId: string, authorIsBot: bool,
                             content: string, member: Option<seq<Role>>)

  predicate IsRoleChange(e: Effect) {
    e.AddRole? || e.RemoveRole?
  }

  /** The text each reply is sent with: a reply to the author mentions
      them, a missing-track reply quotes the link, the notice about Spotify
      links points to the help channel, and a verbatim message or notice is
      sent unchanged. */
  function ReplyText(r: Reply): (t: string)
    ensures r.AdminAdded? || r.Thanks? ==> Contains(t, "<@" + r.authorId + ">")
    ensures r.AdminTrackMissing? || r.TrackMissing? ==> Contains(t, r.group0)
    ensures r.OnlySpotify? ==> Contains(t, "<#" + r.helpChId + ">")
    ensures r.Verbatim? || r.NotATrack? ==> t == r.text
  {
    match r
    case AdminAdded(authorId) =>
      var mention := "<@" + authorId + ">";
      ContainsMiddle(AdminAddedHead, mention, "");
      AdminAddedHead + mention + ""
    case AdminTrackMissing(group0) =>
      ContainsMiddle(AdminTrackMissingHead, group0, "");
      AdminTrackMissingHead + group0 + ""
    case Thanks(authorId) =>
      var mention := "<@" + authorId + ">";
      ContainsMiddle(ThanksHead, mention, ThanksTail);
      ThanksHead + mention + ThanksTail
    case TrackMissing(group0) =>
      ContainsMiddle(TrackMissingHead, group0, TrackMissingTail);
      TrackMissingHead + group0 + TrackMissingTail
    case Verbatim(text) => text
    case OnlySpotify(helpChId) =>
      var channel := "<#" + helpChId + ">";
      ContainsMiddle(OnlySpotifyHead, channel, OnlySpotifyTail);
      OnlySpotifyHead + channel + OnlySpotifyTail
    case NotATrack(text) => text
  }

  const AdminAddedHead: string := "Submission added by admin without using a token. "
  const AdminTrackMissingHead: string := "Unable to add submission without using a token because track does not exist: "
  const ThanksHead: string := "We got your submission "
  const ThanksTail: string := ", thanks!"
  const TrackMissingHead: string := "Hey, I was unable to find the track you submitted: "
  const TrackMissingTail: string := "\n\nPlease double check the link is correct!"
  const OnlySpotifyHead: string := "Hello o/, I saw your submission, but I only accept Spotify links!\n\nCheck out the "
  const OnlySpotifyTail: string := " channel for more details!\n\nNote: This message will be deleted after 60 seconds."

  /** `flagSubmitted`: the "Submitted" role is given when the member, the
      stored role id and the guild role all exist and the member lacks it. */
  function FlagSubmitted(member: Option<seq<Role>>, submittedRoleId: Option<string>, guildRoles: seq<Role>): (effects: seq<Effect>)
    ensures |effects| <= 1
    ensures effects != [] <==> member.Some? && submittedRoleId.Some?
                               && RoleById(guildRoles, submittedRoleId.value).Some?
                               && RoleById(guildRoles, submittedRoleId.value).value !in member.value
    ensures effects != [] ==> effects[0].AddRole? && effects[0].role.id == submittedRoleId.value
                              && effects[0].role in guildRoles
  {
    if member.None? || submittedRoleId.None? then []
    else match RoleById(guildRoles, submittedRoleId.value)
      case None => []
      case Some(role) => if role in member.value then [] else [AddRole(role)]
  }

  /** `removeToken`: the first of the member's roles that is a token is taken
      away; nothing happens without a member or without a token. */
  function RemoveToken(member: Option<seq<Role>>, tokenName: string): (effects: seq<Effect>)
    ensures |effects| <= 1
    ensures effects != [] <==> member.Some? && exists i :: 0 <= i < |member.value| && HoldsToken(member.value[i], tokenName)
    ensures effects != [] ==> effects[0].RemoveRole? && effects[0].role in member.value
                              && HoldsToken(effects[0].role, tokenName)
    ensures effects != [] ==> FirstTokenRole(member.value, tokenName).Some?
                              && effects[0].role == member.value[FirstTokenRole(member.value, tokenName).value]
  {
    if member.None? then []
    else match FirstTokenRole(member.value, tokenName)
      case None => []
      case Some(i) => [RemoveRole(member.value[i])]
  }

  /** The outcomes the handler does not answer: nothing added and no
      exception it catches, or a duplicate without a message. */
  predicate Unanswered(outcome: AddOutcome) {
    outcome.NotAdded? || outcome.Crashed? || outcome == DuplicateTrack(None)
  }

  /** The replies of the god-mode branch: a curator's link is added without a
      token, and no role changes. */
  function GodModeReplies(outcome: AddOutcome, authorId: string, group0: string): (effects: seq<Effect>)
    ensures |effects| <= 1
    ensures forall e :: e in effects ==> e.Send?
    ensures effects == [] <==> Unanswered(outcome)
  {
    match outcome
    case Added => [Send(AdminAdded(authorId))]
    case DuplicateTrack(msg) => if msg.Some? then [Send(Verbatim(msg.value))] else []
    case TrackNotFound => [Send(AdminTrackMissing(group0))]
    case _ => []
  }

  /** The replies of the token branch: thanks, the "Submitted" role and, when
      tokens are required, one token taken away, all only for an added track. */
  function TokenReplies(outcome: AddOutcome, authorId: string, group0: string, member: Option<seq<Role>>,
                        tokenName: string, tokenRequirementEnabled: bool,
                        submittedRoleId: Option<string>, guildRoles: seq<Role>): (effects: seq<Effect>)
    ensures forall e :: e in effects ==> e.Send? || IsRoleChange(e)
    ensures (exists e :: e in effects && IsRoleChange(e)) ==> outcome == Added
    ensures (exists e :: e in effects && e.RemoveRole?) ==> tokenRequirementEnabled
    ensures effects == [] <==> Unanswered(outcome)
    ensures outcome == Added ==> effects[0] == Send(Thanks(authorId))
                                 && |effects| <= 3
                                 && forall i :: 1 <= i < |effects| ==> IsRoleChange(effects[i])
  {
    match outcome
    case Added =>
      [Send(Thanks(authorId))]
      + FlagSubmitted(member, submittedRoleId, guildRoles)
      + (if tokenRequirementEnabled then RemoveToken(member, tokenName) else [])
    case DuplicateTrack(msg) => if msg.Some? then [Send(Verbatim(msg.value))] else []
    case TrackNotFound =>
      [Send(TrackMissing(group0))]
    case _ => []
  }

  /** The member's roles once one queued action has gone through. */
  function ApplyEffect(roles: seq<Role>, e: Effect): seq<Role> {
    if e.AddRole? then Add(roles, e.role)
    else if e.RemoveRole? then Remove(roles, e.role)
    else roles
  }

  /** The member's roles once the queued role changes have gone through, in
      order. */
  function ApplyRoles(roles: seq<Role>, effects: seq<Effect>): seq<Role>
    decreases effects
  {
    if effects == [] then roles
    else ApplyRoles(ApplyEffect(roles, effects[0]), effects[1..])
  }

  lemma {:induction false} ApplyRolesConcat(roles: seq<Role>, a: seq<Effect>, b: seq<Effect>)
    ensures ApplyRoles(roles, a + b) == ApplyRoles(ApplyRoles(roles, a), b)
    decreases a
  {
    if a != [] {
      assert (a + b)[1..] == a[1..] + b;
      ApplyRolesConcat(ApplyEffect(roles, a[0]), a[1..], b);
    } else {
      assert a + b == b;
    }
  }

  lemma ApplyOne(roles: seq<Role>, e: Effect)
    ensures ApplyRoles(roles, [e]) == ApplyEffect(roles, e)
  {
    assert [e][1..] == [];
  }

  /** Flagging a member whose roles are distinct keeps them distinct, keeps
      every role and the token count, and leaves the member with the
      "Submitted" role when the guild has it (that role not being a token). */
  lemma FlagStep(roles: seq<Role>, tokenName: string, submittedRoleId: string, guildRoles: seq<Role>)
    requires Distinct(roles)
    requires forall r :: r in guildRoles && r.id == submittedRoleId ==> !HoldsToken(r, tokenName)
    ensures var flagged := ApplyRoles(roles, FlagSubmitted(Some(roles), Some(submittedRoleId), guildRoles));
      && Distinct(flagged)
      && CountTokens(flagged, tokenName) == CountTokens(roles, tokenName)
      && (forall x :: x in roles ==> x in flagged)
      && (RoleById(guildRoles, submittedRoleId).Some? ==> RoleById(guildRoles, submittedRoleId).value in flagged)
  {
    var flag := FlagSubmitted(Some(roles), Some(submittedRoleId), guildRoles);
    if flag != [] {
      assert flag == [flag[0]];
      ApplyOne(roles, flag[0]);
      CountAfterAdd(roles, flag[0].role, tokenName);
      AddRemoveDistinct(roles, flag[0].role, flag[0].role);
    }
  }

  /** Spending a token of a member whose roles are distinct lowers the count
      by one and keeps every role that is not the spent token. */
  lemma SpendStep(flagged: seq<Role>, roles: seq<Role>, tokenName: string)
    requires Distinct(flagged)
    requires forall x :: x in roles ==> x in flagged
    requires exists i :: 0 <= i < |roles| && HoldsToken(roles[i], tokenName)
    ensures var after := ApplyRoles(flagged, RemoveToken(Some(roles), tokenName));
      && CountTokens(after, tokenName) == CountTokens(flagged, tokenName) - 1
      && (forall x :: x in flagged && !HoldsToken(x, tokenName) ==> x in after)
  {
    var spend := RemoveToken(Some(roles), tokenName);
    assert spend == [spend[0]];
    ApplyOne(flagged, spend[0]);
    CountAfterRemove(flagged, spend[0].role, tokenName);
  }

  /** A submission accepted on the token branch, with tokens required, costs
      the member exactly one token and leaves the member with the "Submitted"
      role when the guild has it (provided that role is not itself a token). */
  lemma {:induction false} AcceptedSubmissionSpendsOneToken(
    roles: seq<Role>, authorId: string, group0: string, tokenName: string,
    submittedRoleId: string, guildRoles: seq<Role>)
    requires Distinct(roles)
    requires exists i :: 0 <= i < |roles| && HoldsToken(roles[i], tokenName)
    requires forall r :: r in guildRoles && r.id == submittedRoleId ==> !HoldsToken(r, tokenName)
    ensures var after := ApplyRoles(roles, TokenReplies(Added, authorId, group0, Some(roles), tokenName, true,
                                                        Some(submittedRoleId), guildRoles));
      && CountTokens(after, tokenName) == CountTokens(roles, tokenName) - 1
      && (RoleById(guildRoles, submittedRoleId).Some? ==> RoleById(guildRoles, submittedRoleId).value in after)
  {
    var thanks := Send(Thanks(authorId));
    var flag := FlagSubmitted(Some(roles), Some(submittedRoleId), guildRoles);
    var spend := RemoveToken(Some(roles), tokenName);
    assert TokenReplies(Added, authorId, group0, Some(roles), tokenName, true, Some(submittedRoleId), guildRoles)
        == [thanks] + flag + spend;
    ApplyRolesConcat(roles, [thanks] + flag, spend);
    ApplyRolesConcat(roles, [thanks], flag);
    ApplyOne(roles, thanks);
    FlagStep(roles, tokenName, submittedRoleId, guildRoles);
    var flagged := ApplyRoles(roles, flag);
    SpendStep(flagged, roles, tokenName);
  }

  /** Flagging twice gives the role once: after the first flag has gone
      through, the second queues nothing. */
  lemma FlagSubmittedIdempotent(roles: seq<Role>, submittedRoleId: Option<string>, guildRoles: seq<Role>)
    ensures var once := ApplyRoles(roles, FlagSubmitted(Some(roles), submittedRoleId, guildRoles));
      FlagSubmitted(Some(once), submittedRoleId, guildRoles) == []
  {
    var flag := FlagSubmitted(Some(roles), submittedRoleId, guildRoles);
    if flag != [] {
      assert flag == [flag[0]];
      ApplyOne(roles, flag[0]);
    }
  }

  /** The listener. */
  class CommentWatcher {
    const playlistTokenName: string
    const chId: string
    const helpChId: string
    const godMode: bool
    const tokenRequirementEnabled: bool
    const curators: seq<Curator>
    /** The store `flagSubmitted` reads the "Submitted" role id from. */
    const db: Database
    var botIsReady: bool

    constructor (playlistTokenName: string, curators: seq<Curator>, chId: string, helpChId: string,
                 godMode: bool, tokenRequirementEnabled: bool, db: Database)
      ensures this.playlistTokenName == playlistTokenName && this.curators == curators
      ensures this.chId == chId && this.helpChId == helpChId && this.db == db
      ensures this.godMode == godMode && this.tokenRequirementEnabled == tokenRequirementEnabled
      ensures !botIsReady
    {
      this.playlistTokenName := playlistTokenName;
      this.curators := curators;
      this.chId := chId;
      this.helpChId := helpChId;
      this.godMode := godMode;
      this.tokenRequirementEnabled := tokenRequirementEnabled;
      this.db := db;
      botIsReady := false;
    }

    method SetBotIsReady(status: bool)
      modifies this
      ensures botIsReady == status
    {
      botIsReady := status;
    }

    /** May the author submit: tokens are not required, or one of the
        member's roles is a token. */
    predicate Entitled(member: Option<seq<Role>>): (b: bool)
      ensures b <==> !tokenRequirementEnabled || (member.Some? && CountTokens(member.value, playlistTokenName) > 0)
    {
      if member.None? then !tokenRequirementEnabled
      else
        CountTokensPositive(member.value, playlistTokenName);
        !tokenRequirementEnabled
        || exists i :: 0 <= i < |member.value| && HoldsToken(member.value[i], playlistTokenName)
    }

    /** `hasToken`: a scan of the member's roles that stops at the first token. */
    method HasToken(member: Option<seq<Role>>) returns (r: bool)
      ensures r <==> Entitled(member)
    {
      if !tokenRequirementEnabled {
        return true;
      }
      var tokenFlag := false;
      if member.Some? {
        var roles := member.value;
        var i := 0;
        while i < |roles| && !tokenFlag
          invariant 0 <= i <= |roles|
          invariant tokenFlag <==> exists k :: 0 <= k < i && HoldsToken(roles[k], playlistTokenName)
        {
          if HoldsToken(roles[i], playlistTokenName) {
            tokenFlag := true;
          }
          i := i + 1;
        }
      }
      return tokenFlag;
    }

    /** What `onGuildMessageReceived` queues for a message, in order.
        `urlValid` is the URL validator's verdict on the content, `outcome`
        what `addToPlaylist` reports when it is called and `submittedRoleId`
        the stored "Submitted" role id.  The first Spotify link decides: a
        link that is not a track is refused with a notice; a track link from
        a god-mode curator or an entitled author goes to the Spotify client;
        any other is deleted. */
    function Handled(msg: Message, urlValid: bool, outcome: AddOutcome,
                     submittedRoleId: Option<string>, guildRoles: seq<Role>): (effects: seq<Effect>)
      reads this
      ensures msg.channelId != chId || msg.authorIsBot ==> effects == []
      ensures |effects| <= 4
      ensures forall e :: e in effects && e.SubmitToPlaylist? ==> e.link == msg.content
      ensures SubmitToPlaylist(msg.content) in effects ==> effects[0] == SubmitToPlaylist(msg.content)
    {
      if msg.channelId != chId || msg.authorIsBot then []
      else if !botIsReady then [DeleteMessage]
      else match FirstMatch(msg.content)
        case None => if urlValid then [DeleteMessage, SendSecret(OnlySpotify(helpChId), 60)] else []
        case Some(m) =>
          var group0 := MatchedText(msg.content, m);
          if Classify(m).Some? then [SendSecret(NotATrack(Classify(m).value), 60), DeleteMessage]
          else if IsCurator(curators, msg.authorId) && godMode then
            [SubmitToPlaylist(msg.content)] + GodModeReplies(outcome, msg.authorId, group0)
          else if Entitled(msg.member) then
            [SubmitToPlaylist(msg.content)]
            + TokenReplies(outcome, msg.authorId, group0, msg.member, playlistTokenName,
                           tokenRequirementEnabled, submittedRoleId, guildRoles)
          else [DeleteMessage]
    }

    /** The link goes to the Spotify client exactly for a person's message in
        the submission channel, with the bot ready, whose first Spotify link is
        a track, from a god-mode curator or an entitled author; a message that
        is deleted is never submitted. */
    lemma SubmittedExactlyWhen(msg: Message, urlValid: bool, outcome: AddOutcome,
                               submittedRoleId: Option<string>, guildRoles: seq<Role>)
      ensures var effects := Handled(msg, urlValid, outcome, submittedRoleId, guildRoles);
        && (SubmitToPlaylist(msg.content) in effects <==>
              msg.channelId == chId && !msg.authorIsBot && botIsReady && FirstMatch(msg.content).Some?
              && Classify(FirstMatch(msg.content).value).None?
              && ((IsCurator(curators, msg.authorId) && godMode) || Entitled(msg.member)))
        && (DeleteMessage in effects ==> SubmitToPlaylist(msg.content) !in effects)
    {
    }

    /** The message is deleted exactly when the bot is not ready, when it
        carries a URL that is not a Spotify link, or when its first Spotify
        link is not submitted (not a track, or an author without a token);
        messages outside the channel and bot messages get no action at all. */
    lemma DeletedExactlyWhen(msg: Message, urlValid: bool, outcome: AddOutcome,
                             submittedRoleId: Option<string>, guildRoles: seq<Role>)
      ensures var effects := Handled(msg, urlValid, outcome, submittedRoleId, guildRoles);
        var watched := msg.channelId == chId && !msg.authorIsBot;
        && (!watched ==> effects == [])
        && (watched && !botIsReady ==> effects == [DeleteMessage])
        && (DeleteMessage in effects <==>
              watched && (!botIsReady
                          || (FirstMatch(msg.content).None? && urlValid)
                          || (FirstMatch(msg.content).Some? && SubmitToPlaylist(msg.content) !in effects)))
    {
      if msg.channelId == chId && !msg.authorIsBot && botIsReady && FirstMatch(msg.content).Some? {
        var m := FirstMatch(msg.content).value;
        var group0 := MatchedText(msg.content, m);
        if Classify(m).None? && IsCurator(curators, msg.authorId) && godMode {
          var replies := GodModeReplies(outcome, msg.authorId, group0);
          assert DeleteMessage !in replies;
        } else if Classify(m).None? && Entitled(msg.member) {
          var replies := TokenReplies(outcome, msg.authorId, group0, msg.member, playlistTokenName,
                                      tokenRequirementEnabled, submittedRoleId, guildRoles);
          assert DeleteMessage !in replies;
        }
      }
    }

    /** The refusals of a ready bot in the channel: a URL that is not a
        Spotify link is deleted and answered with a notice; a Spotify link that
        is not a track gets the notice naming its kind and is deleted; a track
        link from an author who may not submit is deleted without a reply; a
        message with no URL is left alone. */
    lemma RefusalsOfReadyBot(msg: Message, urlValid: bool, outcome: AddOutcome,
                             submittedRoleId: Option<string>, guildRoles: seq<Role>)
      requires msg.channelId == chId && !msg.authorIsBot && botIsReady
      ensures var effects := Handled(msg, urlValid, outcome, submittedRoleId, guildRoles);
        && (FirstMatch(msg.content).None? ==>
              effects == if urlValid then [DeleteMessage, SendSecret(OnlySpotify(helpChId), 60)] else [])
        && (FirstMatch(msg.content).Some? && Classify(FirstMatch(msg.content).value).Some? ==>
              effects == [SendSecret(NotATrack(Classify(FirstMatch(msg.content).value).value), 60), DeleteMessage])
        && (FirstMatch(msg.content).Some? && Classify(FirstMatch(msg.content).value).None?
            && !(IsCurator(curators, msg.authorId) && godMode) && !Entitled(msg.member) ==>
              effects == [DeleteMessage])
    {
    }

    /** On the token branch an added track is thanked right after it is
        submitted, before any role changes. */
    lemma ThanksBeforeRoleChanges(msg: Message, urlValid: bool, outcome: AddOutcome,
                                  submittedRoleId: Option<string>, guildRoles: seq<Role>)
      ensures var effects := Handled(msg, urlValid, outcome, submittedRoleId, guildRoles);
        SubmitToPlaylist(msg.content) in effects && !(IsCurator(curators, msg.authorId) && godMode)
        && outcome == Added ==>
          |effects| >= 2 && effects[1] == Send(Thanks(msg.authorId))
          && forall i :: 2 <= i < |effects| ==> IsRoleChange(effects[i])
    {
    }

    /** Roles change only for a track added on the token branch, and a token
        is taken only when tokens are required. */
    lemma RolesChangeOnlyForAddedTrack(msg: Message, urlValid: bool, outcome: AddOutcome,
                                       submittedRoleId: Option<string>, guildRoles: seq<Role>)
      ensures var effects := Handled(msg, urlValid, outcome, submittedRoleId, guildRoles);
        && ((exists e :: e in effects && IsRoleChange(e)) ==>
              outcome == Added && !(IsCurator(curators, msg.authorId) && godMode) && Entitled(msg.member))
        && ((exists e :: e in effects && e.RemoveRole?) ==> tokenRequirementEnabled)
    {
    }

    /** `onGuildMessageReceived`: the handler, with `hasToken`'s scan. */
    method OnGuildMessageReceived(msg: Message, urlValid: bool, outcome: AddOutcome, guildRoles: seq<Role>)
      returns (effects: seq<Effect>)
      ensures effects == Handled(msg, urlValid, outcome, db.ReadFromDatabase(SUBMITTED_ROLE_ID), guildRoles)
    {
      if msg.channelId != chId || msg.authorIsBot {
        return [];
      }
      if !botIsReady {
        return [DeleteMessage];
      }
      var found := FirstMatch(msg.content);
      if found.None? {
        if urlValid {
          return [DeleteMessage, SendSecret(OnlySpotify(helpChId), 60)];
        }
        return [];
      }
      var m := found.value;
      var notice := Classify(m);
      if notice.Some? {
        return [SendSecret(NotATrack(notice.value), 60), DeleteMessage];
      }
      var group0 := MatchedText(msg.content, m);
      if IsCurator(curators, msg.authorId) && godMode {
        return [SubmitToPlaylist(msg.content)] + GodModeReplies(outcome, msg.authorId, group0);
      }
      var entitled := HasToken(msg.member);
      if entitled {
        return [SubmitToPlaylist(msg.content)]
               + TokenReplies(outcome, msg.authorId, group0, msg.member, playlistTokenName,
                              tokenRequirementEnabled, db.ReadFromDatabase(SUBMITTED_ROLE_ID), guildRoles);
      }
      return [DeleteMessage];
    }
  }
}
