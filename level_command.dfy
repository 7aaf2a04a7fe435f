/** commands/TBLevelCommand.java: `]level` answers with the level of every
    token the author holds.  A token role's level is five times the 1-based
    position of its id in the configured token id list; the reply is built in
    a StringBuilder with a ", " before each token role visited after a level
    has been written, and the last comma turned into " and" when more than
    one level was written. */
module LevelCommand {
  import opened Basics
  import opened Decimal
  import opened Roles

  const LEVEL: string := "]level"

  /** What the role loop has built so far: the text after the reply's prefix
      and the number of levels written. */
  datatype Built = Built(text: string, count: nat)

  function Prefix(authorId: string): string {
    "<@" + authorId + ">" + ", you have a level "
  }

  function NotAMember(authorId: string): string {
    "<@" + authorId + ">, according to my calculations... you're not even a member o.O"
  }

  function NoTokens(authorId: string): string {
    "<@" + authorId + ">, you have no tokens."
  }

  /** The inner loop over the token id list for one role: `(j+1)*5` for every
      position j holding the role's id. */
  function RoleLevels(roleId: string, tokens: seq<string>): (r: Built)
    ensures r.count <= |tokens|
    ensures r.count == 0 <==> roleId !in tokens
    ensures r.text == [] <==> r.count == 0
    ensures AllDigits(r.text)
  {
    if tokens == [] then Built("", 0)
    else
      var b := RoleLevels(roleId, tokens[..|tokens| - 1]);
      assert tokens == tokens[..|tokens| - 1] + [tokens[|tokens| - 1]];
      if tokens[|tokens| - 1] == roleId then Built(b.text + NatToString(|tokens| * 5), b.count + 1)
      else b
  }

  /** None of the token roles among `roles` has a listed id. */
  predicate NoListedToken(roles: seq<Role>, tokenName: string, tokens: seq<string>) {
    forall k :: 0 <= k < |roles| && HoldsToken(roles[k], tokenName) ==> roles[k].id !in tokens
  }

  /** The outer loop over the member's roles. */
  function LevelBody(roles: seq<Role>, tokenName: string, tokens: seq<string>): (r: Built)
    ensures r.text == [] <==> r.count == 0
  {
    if roles == [] then Built("", 0)
    else
      var b := LevelBody(roles[..|roles| - 1], tokenName, tokens);
      var last := roles[|roles| - 1];
      assert forall k :: 0 <= k < |roles| - 1 ==> roles[..|roles| - 1][k] == roles[k];
      if HoldsToken(last, tokenName) then
        var sep := if b.count > 0 then ", " else "";
        var levels := RoleLevels(last.id, tokens);
        Built(b.text + sep + levels.text, b.count + levels.count)
      else b
  }

  /** `reply.replace(lastIndexOf(","), lastIndexOf(",") + 1, " and")`. */
  function ReplaceLastComma(s: string): (r: string)
    requires ',' in s
    ensures |r| == |s| + 3
  {
    var k := LastIndexOfChar(s, ',');
    s[..k] + " and" + s[k + 1..]
  }

  /** The prefix has a comma, so `lastIndexOf(",")` always finds one. */
  lemma PrefixHasComma(authorId: string, text: string)
    ensures ',' in Prefix(authorId) + text
  {
    var x := "<@" + authorId + ">";
    var y := ", you have a level ";
    assert Prefix(authorId) == x + y;
    assert (x + y + text)[|x|] == y[0] == ',';
  }

  /** The comma the prefix puts after the mention is at or before the last
      comma, so replacing the last comma keeps the mention. */
  lemma ReplaceKeepsMention(authorId: string, text: string)
    ensures var s := Prefix(authorId) + text;
      ',' in s && StartsWith(ReplaceLastComma(s), "<@" + authorId + ">")
  {
    var m := "<@" + authorId + ">";
    var s := Prefix(authorId) + text;
    PrefixHasComma(authorId, text);
    assert s == m + (", you have a level " + text);
    assert s[|m|] == ',';
    var k := LastIndexOfChar(s, ',');
    assert ReplaceLastComma(s)[..|m|] == s[..k][..|m|] == s[..|m|] == m;
  }

  /** The reply to `]level` from a member with these roles. */
  function LevelReply(authorId: string, roles: seq<Role>, tokenName: string, tokens: seq<string>): (s: string)
    ensures roles == [] ==> s == NotAMember(authorId)
    ensures roles != [] && (forall i :: 0 <= i < |roles| ==> !HoldsToken(roles[i], tokenName)) ==> s == NoTokens(authorId)
  {
    if roles == [] then NotAMember(authorId)
    else if forall i :: 0 <= i < |roles| ==> !HoldsToken(roles[i], tokenName) then NoTokens(authorId)
    else
      var b := LevelBody(roles, tokenName, tokens);
      var s := Prefix(authorId) + b.text;
      PrefixHasComma(authorId, b.text);
      (if b.count > 1 then ReplaceLastComma(s) else s) + " token."
  }

  /** A member holding a token role gets a sentence addressed to them that
      ends with " token.", whatever the comma replacement did. */
  lemma LevelReplyAddressed(authorId: string, roles: seq<Role>, tokenName: string, tokens: seq<string>)
    requires exists i :: 0 <= i < |roles| && HoldsToken(roles[i], tokenName)
    ensures var s := LevelReply(authorId, roles, tokenName, tokens);
      StartsWith(s, "<@" + authorId + ">") && |s| >= 7 && s[|s| - 7..] == " token."
  {
    var b := LevelBody(roles, tokenName, tokens);
    AddressedBody(authorId, b.text, b.count > 1);
    var s := Prefix(authorId) + b.text;
    var body := if b.count > 1 then ReplaceLastComma(s) else s;
    assert LevelReply(authorId, roles, tokenName, tokens) == body + " token." by {
      var i :| 0 <= i < |roles| && HoldsToken(roles[i], tokenName);
      assert roles != [];
    }
    EndsWithToken("<@" + authorId + ">", body);
  }

  /** The built text keeps the mention at its head, with or without the
      comma replacement. */
  lemma AddressedBody(authorId: string, text: string, many: bool)
    ensures ',' in Prefix(authorId) + text
    ensures var s := Prefix(authorId) + text;
      StartsWith(if many then ReplaceLastComma(s) else s, "<@" + authorId + ">")
  {
    ReplaceKeepsMention(authorId, text);
    assert Prefix(authorId) + text == "<@" + authorId + ">" + (", you have a level " + text);
  }

  lemma EndsWithToken(m: string, body: string)
    requires StartsWith(body, m)
    ensures var s := body + " token.";
      StartsWith(s, m) && |s| >= 7 && s[|s| - 7..] == " token."
  {
    assert (body + " token.")[..|m|] == body[..|m|];
  }

  class TBLevelCommand {
    const tokenName: string
    /** The token role ids, lowest level first. */
    const tokens: seq<string>

    constructor (tokenName: string, tokens: seq<string>)
      ensures this.tokenName == tokenName && this.tokens == tokens
    {
      this.tokenName := tokenName;
      this.tokens := tokens;
    }

    /** The inner loop: appends the levels of one token role. */
    method AppendLevels(reply: string, count: nat, roleId: string) returns (reply': string, count': nat)
      ensures reply' == reply + RoleLevels(roleId, tokens).text
      ensures count' == count + RoleLevels(roleId, tokens).count
    {
      reply', count' := reply, count;
      var j := 0;
      while j < |tokens|
        invariant 0 <= j <= |tokens|
        invariant reply' == reply + RoleLevels(roleId, tokens[..j]).text
        invariant count' == count + RoleLevels(roleId, tokens[..j]).count
      {
        assert tokens[..j + 1][..j] == tokens[..j];
        if tokens[j] == roleId {
          reply' := reply' + NatToString((j + 1) * 5);
          count' := count' + 1;
        }
        j := j + 1;
      }
      assert tokens[..j] == tokens;
    }

    /** The role loop of `onGuildMessageReceived`, with its two flags. */
    method VisitRoles(authorId: string, roles: seq<Role>) returns (text: string, count: nat, noRoles: bool, noTokens: bool)
      ensures noRoles <==> roles == []
      ensures noTokens <==> forall k :: 0 <= k < |roles| ==> !HoldsToken(roles[k], tokenName)
      ensures text == Prefix(authorId) + LevelBody(roles, tokenName, tokens).text
      ensures count == LevelBody(roles, tokenName, tokens).count
    {
      text := Prefix(authorId);
      noRoles := true;
      noTokens := true;
      count := 0;
      var i := 0;
      while i < |roles|
        invariant 0 <= i <= |roles|
        invariant noRoles <==> i == 0
        invariant noTokens <==> forall k :: 0 <= k < i ==> !HoldsToken(roles[k], tokenName)
        invariant text == Prefix(authorId) + LevelBody(roles[..i], tokenName, tokens).text
        invariant count == LevelBody(roles[..i], tokenName, tokens).count
      {
        VisitedOneMore(authorId, roles, i, tokenName, tokens, text, count);
        noRoles := false;
        if HoldsToken(roles[i], tokenName) {
          noTokens := false;
          if count > 0 {
            text := text + ", ";
          }
          text, count := AppendLevels(text, count, roles[i].id);
        }
        i := i + 1;
      }
      assert roles[..i] == roles;
    }

    /** `onGuildMessageReceived`: only the exact command is answered; without
        a member `requireNonNull` throws and nothing is sent. */
    method OnGuildMessageReceived(message: string, authorId: string, member: Option<seq<Role>>)
      returns (reply: Option<string>)
      ensures reply.Some? <==> message == LEVEL && member.Some?
      ensures reply.Some? ==> reply.value == LevelReply(authorId, member.value, tokenName, tokens)
    {
      if message != LEVEL || member.None? {
        return None;
      }
      var text, count, noRoles, noTokens := VisitRoles(authorId, member.value);
      if noRoles {
        return Some(NotAMember(authorId));
      }
      if noTokens {
        return Some(NoTokens(authorId));
      }
      PrefixHasComma(authorId, LevelBody(member.value, tokenName, tokens).text);
      if count > 1 {
        text := ReplaceLastComma(text);
      }
      return Some(text + " token.");
    }
  }

  /** One more role visited: the reply grows by that role's levels, after a
      separator when a level has been written already. */
  lemma VisitedOneMore(authorId: string, roles: seq<Role>, i: nat, tokenName: string, tokens: seq<string>,
                       text: string, count: nat)
    requires i < |roles|
    requires text == Prefix(authorId) + LevelBody(roles[..i], tokenName, tokens).text
    requires count == LevelBody(roles[..i], tokenName, tokens).count
    ensures var levels := RoleLevels(roles[i].id, tokens);
      HoldsToken(roles[i], tokenName) ==>
        && Prefix(authorId) + LevelBody(roles[..i + 1], tokenName, tokens).text
           == text + (if count > 0 then ", " else "") + levels.text
        && LevelBody(roles[..i + 1], tokenName, tokens).count == count + levels.count
    ensures !HoldsToken(roles[i], tokenName) ==>
      LevelBody(roles[..i + 1], tokenName, tokens) == LevelBody(roles[..i], tokenName, tokens)
  {
    assert roles[..i + 1][..i] == roles[..i];
  }

  /** The level written for position j of the token id list. */
  function LevelAt(j: nat): string {
    NatToString((j + 1) * 5)
  }

  lemma {:induction false} RoleLevelsAbsent(roleId: string, tokens: seq<string>)
    requires roleId !in tokens
    ensures RoleLevels(roleId, tokens) == Built("", 0)
  {
    if tokens != [] {
      assert tokens[|tokens| - 1] in tokens;
      assert forall x :: x in tokens[..|tokens| - 1] ==> x in tokens;
      RoleLevelsAbsent(roleId, tokens[..|tokens| - 1]);
    }
  }

  /** An id listed once has exactly one level. */
  lemma {:induction false} RoleLevelsOnce(roleId: string, tokens: seq<string>, j: nat)
    requires j < |tokens| && tokens[j] == roleId
    requires forall k :: 0 <= k < |tokens| && k != j ==> tokens[k] != roleId
    ensures RoleLevels(roleId, tokens) == Built(LevelAt(j), 1)
  {
    var init := tokens[..|tokens| - 1];
    if j == |tokens| - 1 {
      assert roleId !in init by {
        forall k | 0 <= k < |init| ensures init[k] != roleId {
          assert init[k] == tokens[k];
        }
      }
      RoleLevelsAbsent(roleId, init);
    } else {
      RoleLevelsOnce(roleId, init, j);
    }
  }

  /** An id listed twice has two levels, written one after the other with
      nothing between them: the inner loop does not stop at the first. */
  lemma {:induction false} RoleLevelsTwice(roleId: string, tokens: seq<string>, j1: nat, j2: nat)
    requires j1 < j2 < |tokens| && tokens[j1] == roleId && tokens[j2] == roleId
    requires forall k :: 0 <= k < |tokens| && k != j1 && k != j2 ==> tokens[k] != roleId
    ensures RoleLevels(roleId, tokens) == Built(LevelAt(j1) + LevelAt(j2), 2)
  {
    var init := tokens[..|tokens| - 1];
    if j2 == |tokens| - 1 {
      RoleLevelsOnce(roleId, init, j1);
    } else {
      RoleLevelsTwice(roleId, init, j1, j2);
    }
  }

  /** Token roles none of whose ids is listed write nothing, not even a
      separator. */
  lemma {:induction false} LevelBodyUnlisted(roles: seq<Role>, tokenName: string, tokens: seq<string>)
    requires forall k :: 0 <= k < |roles| && HoldsToken(roles[k], tokenName) ==> roles[k].id !in tokens
    ensures LevelBody(roles, tokenName, tokens) == Built("", 0)
  {
    if roles != [] {
      var init := roles[..|roles| - 1];
      assert forall k :: 0 <= k < |init| ==> init[k] == roles[k];
      LevelBodyUnlisted(init, tokenName, tokens);
      if HoldsToken(roles[|roles| - 1], tokenName) {
        RoleLevelsAbsent(roles[|roles| - 1].id, tokens);
      }
    }
  }

  /** No level is written exactly when none of the token roles has a listed
      id. */
  lemma {:induction false} LevelBodyEmptyExactly(roles: seq<Role>, tokenName: string, tokens: seq<string>)
    ensures LevelBody(roles, tokenName, tokens).count == 0 <==> NoListedToken(roles, tokenName, tokens)
  {
    if roles != [] {
      var init := roles[..|roles| - 1];
      var last := roles[|roles| - 1];
      assert forall k :: 0 <= k < |init| ==> init[k] == roles[k];
      LevelBodyEmptyExactly(init, tokenName, tokens);
      assert NoListedToken(roles, tokenName, tokens)
         <==> NoListedToken(init, tokenName, tokens) && (HoldsToken(last, tokenName) ==> last.id !in tokens);
    }
  }

  /** With a single token role among the roles, the body is that role's
      levels. */
  lemma {:induction false} LevelBodySingle(roles: seq<Role>, tokenName: string, tokens: seq<string>, i: nat)
    requires i < |roles| && HoldsToken(roles[i], tokenName)
    requires forall k :: 0 <= k < |roles| && k != i ==> !HoldsToken(roles[k], tokenName)
    ensures LevelBody(roles, tokenName, tokens) == RoleLevels(roles[i].id, tokens)
  {
    var init := roles[..|roles| - 1];
    if i == |roles| - 1 {
      LevelBodyUnlisted(init, tokenName, tokens);
    } else {
      assert forall k :: 0 <= k < |init| ==> init[k] == roles[k];
      LevelBodySingle(init, tokenName, tokens, i);
    }
  }

  lemma LevelBodyPair(a: Role, b: Role, tokenName: string, tokens: seq<string>)
    requires HoldsToken(a, tokenName) && HoldsToken(b, tokenName)
    ensures var la := RoleLevels(a.id, tokens);
            var lb := RoleLevels(b.id, tokens);
            LevelBody([a, b], tokenName, tokens)
              == Built(la.text + (if la.count > 0 then ", " else "") + lb.text, la.count + lb.count)
  {
    assert [a, b][..1] == [a];
    assert [a][..0] == [];
    var la := RoleLevels(a.id, tokens);
    assert LevelBody([a], tokenName, tokens) == Built(la.text, la.count) by {
      assert "" + "" + la.text == la.text;
    }
  }

  /** Replacing the comma before a comma-free suffix. */
  lemma ReplaceCommaBefore(x: string, y: string)
    requires ',' !in y
    ensures ',' in x + [','] + y
    ensures ReplaceLastComma(x + [','] + y) == x + " and" + y
  {
    var s := x + [','] + y;
    assert s[|x|] == ',';
    LastIndexOfCharBeforeSuffix(x, ',', y);
    assert s[..|x|] == x;
    assert s[|x| + 1..] == y;
  }



  /** A member whose only token role is listed once gets that one level. */
  lemma OneTokenLevel(authorId: string, roles: seq<Role>, tokenName: string, tokens: seq<string>, i: nat, j: nat)
    requires i < |roles| && HoldsToken(roles[i], tokenName)
    requires forall k :: 0 <= k < |roles| && k != i ==> !HoldsToken(roles[k], tokenName)
    requires j < |tokens| && tokens[j] == roles[i].id
    requires forall k :: 0 <= k < |tokens| && k != j ==> tokens[k] != roles[i].id
    ensures LevelReply(authorId, roles, tokenName, tokens) == Prefix(authorId) + LevelAt(j) + " token."
  {
    LevelBodySingle(roles, tokenName, tokens, i);
    RoleLevelsOnce(roles[i].id, tokens, j);
  }

  /** Token roles that are not listed still count as tokens: the reply is the
      prefix with no level at all. */
  lemma UnlistedTokensLevel(authorId: string, roles: seq<Role>, tokenName: string, tokens: seq<string>)
    requires exists k :: 0 <= k < |roles| && HoldsToken(roles[k], tokenName)
    requires forall k :: 0 <= k < |roles| && HoldsToken(roles[k], tokenName) ==> roles[k].id !in tokens
    ensures LevelReply(authorId, roles, tokenName, tokens) == Prefix(authorId) + " token."
  {
    LevelBodyUnlisted(roles, tokenName, tokens);
    assert Prefix(authorId) + "" == Prefix(authorId);
  }

  lemma TwoLevelsBody(a: Role, b: Role, tokenName: string, tokens: seq<string>, ja: nat, jb: nat)
    requires HoldsToken(a, tokenName) && HoldsToken(b, tokenName)
    requires ja < |tokens| && tokens[ja] == a.id && forall k :: 0 <= k < |tokens| && k != ja ==> tokens[k] != a.id
    requires jb < |tokens| && tokens[jb] == b.id && forall k :: 0 <= k < |tokens| && k != jb ==> tokens[k] != b.id
    ensures LevelBody([a, b], tokenName, tokens) == Built(LevelAt(ja) + ", " + LevelAt(jb), 2)
  {
    LevelBodyPair(a, b, tokenName, tokens);
    RoleLevelsOnce(a.id, tokens, ja);
    RoleLevelsOnce(b.id, tokens, jb);
  }

  /** The last comma of `p + (la + ", " + lb)` is the separator's when `lb`
      holds none. */
  lemma ReplaceSeparator(p: string, la: string, lb: string)
    requires ',' !in lb
    ensures ',' in p + (la + ", " + lb)
    ensures ReplaceLastComma(p + (la + ", " + lb)) == p + la + " and " + lb
  {
    var x := p + la;
    var y := " " + lb;
    assert forall k :: 1 <= k < |y| ==> y[k] == lb[k - 1];
    assert p + (la + ", " + lb) == x + [','] + y;
    ReplaceCommaBefore(x, y);
    assert x + " and" + y == p + la + " and " + lb;
  }

  /** The reply for a member holding a token role whose loop wrote more than
      one level. */
  lemma LevelReplyOfBuilt(authorId: string, roles: seq<Role>, tokenName: string, tokens: seq<string>, k: nat, text: string)
    requires k < |roles| && HoldsToken(roles[k], tokenName)
    requires LevelBody(roles, tokenName, tokens) == Built(text, 2)
    ensures ',' in Prefix(authorId) + text
    ensures LevelReply(authorId, roles, tokenName, tokens) == ReplaceLastComma(Prefix(authorId) + text) + " token."
  {
    PrefixHasComma(authorId, text);
  }

  /** Two listed token roles: the separator's comma becomes " and". */
  lemma TwoLevels(authorId: string, a: Role, b: Role, tokenName: string, tokens: seq<string>, ja: nat, jb: nat)
    requires HoldsToken(a, tokenName) && HoldsToken(b, tokenName)
    requires ja < |tokens| && tokens[ja] == a.id && forall k :: 0 <= k < |tokens| && k != ja ==> tokens[k] != a.id
    requires jb < |tokens| && tokens[jb] == b.id && forall k :: 0 <= k < |tokens| && k != jb ==> tokens[k] != b.id
    ensures LevelReply(authorId, [a, b], tokenName, tokens)
         == Prefix(authorId) + LevelAt(ja) + " and " + LevelAt(jb) + " token."
  {
    TwoLevelsBody(a, b, tokenName, tokens, ja, jb);
    LevelReplyOfBuilt(authorId, [a, b], tokenName, tokens, 0, LevelAt(ja) + ", " + LevelAt(jb));
    assert ',' !in LevelAt(jb) by {
      assert AllDigits(LevelAt(jb));
    }
    ReplaceSeparator(Prefix(authorId), LevelAt(ja), LevelAt(jb));
  }

  /** A listed token role followed by an unlisted one leaves the separator
      dangling before " token.". */
  lemma DanglingSeparator(authorId: string, a: Role, b: Role, tokenName: string, tokens: seq<string>, ja: nat)
    requires HoldsToken(a, tokenName) && HoldsToken(b, tokenName) && b.id !in tokens
    requires ja < |tokens| && tokens[ja] == a.id && forall k :: 0 <= k < |tokens| && k != ja ==> tokens[k] != a.id
    ensures LevelReply(authorId, [a, b], tokenName, tokens) == Prefix(authorId) + LevelAt(ja) + ",  token."
  {
    DanglingBody(a, b, tokenName, tokens, ja);
    assert LevelReply(authorId, [a, b], tokenName, tokens) == Prefix(authorId) + (LevelAt(ja) + ", ") + " token.";
    assert (LevelAt(ja) + ", ") + " token." == LevelAt(ja) + ",  token.";
  }

  lemma DanglingBody(a: Role, b: Role, tokenName: string, tokens: seq<string>, ja: nat)
    requires HoldsToken(a, tokenName) && HoldsToken(b, tokenName) && b.id !in tokens
    requires ja < |tokens| && tokens[ja] == a.id && forall k :: 0 <= k < |tokens| && k != ja ==> tokens[k] != a.id
    ensures LevelBody([a, b], tokenName, tokens) == Built(LevelAt(ja) + ", ", 1)
  {
    LevelBodyPair(a, b, tokenName, tokens);
    RoleLevelsOnce(a.id, tokens, ja);
    RoleLevelsAbsent(b.id, tokens);
  }

  lemma RepeatedIdBody(a: Role, tokenName: string, tokens: seq<string>, j1: nat, j2: nat)
    requires HoldsToken(a, tokenName)
    requires j1 < j2 < |tokens| && tokens[j1] == a.id && tokens[j2] == a.id
    requires forall k :: 0 <= k < |tokens| && k != j1 && k != j2 ==> tokens[k] != a.id
    ensures LevelBody([a], tokenName, tokens) == Built(LevelAt(j1) + LevelAt(j2), 2)
  {
    assert [a][..0] == [];
    RoleLevelsTwice(a.id, tokens, j1, j2);
    assert "" + "" + (LevelAt(j1) + LevelAt(j2)) == LevelAt(j1) + LevelAt(j2);
  }

  lemma PrefixSplitsAtComma(authorId: string, levels: string)
    ensures Prefix(authorId) + levels == ("<@" + authorId + ">") + [','] + (" you have a level " + levels)
  {
    assert ", you have a level " == [','] + " you have a level ";
  }

  lemma NoCommaAfterMention(levels: string)
    requires ',' !in levels
    ensures ',' !in " you have a level " + levels
  {
    var y := " you have a level " + levels;
    assert forall k :: 18 <= k < |y| ==> y[k] == levels[k - 18];
  }

  /** The last comma of the prefix followed by comma-free levels is the one
      after the mention. */
  lemma ReplaceMentionComma(authorId: string, levels: string)
    requires ',' !in levels
    ensures ',' in Prefix(authorId) + levels
    ensures ReplaceLastComma(Prefix(authorId) + levels) == "<@" + authorId + ">" + " and you have a level " + levels
  {
    PrefixSplitsAtComma(authorId, levels);
    NoCommaAfterMention(levels);
    ReplaceCommaBefore("<@" + authorId + ">", " you have a level " + levels);
    AndJoinsLevels("<@" + authorId + ">", levels);
  }

  lemma AndJoinsLevels(mention: string, levels: string)
    ensures mention + " and" + (" you have a level " + levels) == mention + " and you have a level " + levels
  {
    assert " and" + " you have a level " == " and you have a level ";
  }

  lemma DigitsHaveNoComma(a: string, b: string)
    requires AllDigits(a) && AllDigits(b)
    ensures ',' !in a + b
  {
    assert forall k :: |a| <= k < |a + b| ==> (a + b)[k] == b[k - |a|];
  }

  /** A token id listed twice writes both levels with no separator, and the
      " and" lands on the comma after the mention. */
  lemma RepeatedId(authorId: string, a: Role, tokenName: string, tokens: seq<string>, j1: nat, j2: nat)
    requires ',' !in authorId && HoldsToken(a, tokenName)
    requires j1 < j2 < |tokens| && tokens[j1] == a.id && tokens[j2] == a.id
    requires forall k :: 0 <= k < |tokens| && k != j1 && k != j2 ==> tokens[k] != a.id
    ensures LevelReply(authorId, [a], tokenName, tokens)
         == "<@" + authorId + ">" + " and you have a level " + (LevelAt(j1) + LevelAt(j2)) + " token."
  {
    var levels := LevelAt(j1) + LevelAt(j2);
    RepeatedIdBody(a, tokenName, tokens, j1, j2);
    LevelReplyOfBuilt(authorId, [a], tokenName, tokens, 0, levels);
    DigitsHaveNoComma(LevelAt(j1), LevelAt(j2));
    ReplaceMentionComma(authorId, levels);
  }
}
