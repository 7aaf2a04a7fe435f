/** commands/TBBalanceCommand.java: `]balance` answers with the number of the
    author's roles that are tokens. */
module BalanceCommand {
  import opened Basics
  import opened Decimal
  import opened Roles

  const BALANCE: string := "]balance"

  /** The fixed part of the reply, addressed to the author. */
  function BalanceHead(authorId: string): string {
    "<@" + authorId + ">," + " your token balance is: "
  }

  /** The reply for a member holding `n` tokens: after the fixed part, the
      decimal digits of n and nothing else. */
  function BalanceReply(authorId: string, n: nat): (r: string)
    ensures StartsWith(r, BalanceHead(authorId))
    ensures var k := |BalanceHead(authorId)|; AllDigits(r[k..]) && DigitsValue(r[k..]) == n
  {
    var r := BalanceHead(authorId) + IntToString(n);
    assert r[..|BalanceHead(authorId)|] == BalanceHead(authorId);
    assert r[|BalanceHead(authorId)|..] == NatToString(n);
    NatToStringValue(n);
    r
  }

  class TBBalanceCommand {
    const tokenName: string

    constructor (tokenName: string)
      ensures this.tokenName == tokenName
    {
      this.tokenName := tokenName;
    }

    /** `onGuildMessageReceived`: only the exact command is answered; without a
        member (`getMember()` null) `requireNonNull` throws and nothing is
        sent.  The count is the number of token roles, so at most the number
        of roles and positive exactly when some role is a token. */
    method OnGuildMessageReceived(message: string, authorId: string, member: Option<seq<Role>>)
      returns (reply: Option<string>, nTokens: nat)
      ensures reply.Some? <==> message == BALANCE && member.Some?
      ensures reply.Some? ==> nTokens == CountTokens(member.value, tokenName)
                              && nTokens <= |member.value|
                              && reply.value == BalanceReply(authorId, nTokens)
    {
      nTokens := 0;
      if message != BALANCE || member.None? {
        return None, nTokens;
      }
      var roles := member.value;
      var i := 0;
      while i < |roles|
        invariant 0 <= i <= |roles|
        invariant nTokens == CountTokens(roles[..i], tokenName)
      {
        assert roles[..i + 1][..i] == roles[..i];
        if HoldsToken(roles[i], tokenName) {
          nTokens := nTokens + 1;
        }
        i := i + 1;
      }
      assert roles[..i] == roles;
      reply := Some(BalanceReply(authorId, nTokens));
    }
  }

  /** The balance is positive exactly when some role is a token, and never
      more than the number of roles. */
  lemma BalanceBounds(roles: seq<Role>, tokenName: string)
    ensures 0 <= CountTokens(roles, tokenName) <= |roles|
    ensures CountTokens(roles, tokenName) > 0 <==> exists i :: 0 <= i < |roles| && HoldsToken(roles[i], tokenName)
  {
    CountTokensPositive(roles, tokenName);
  }
}
