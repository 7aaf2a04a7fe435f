/** commands/TBCommandsCommand.java: `]commands` in the commands channel answers
    with an embed holding one inline field per command and enough blank
    fields to fill the last row of three. */
module CommandsCommand {
  import opened Basics

  const COMMANDS: string := "]commands"

  /** A command and what it does. */
  datatype Command = Command(name: string, description: string)

  /** An inline field of the embed. */
  datatype Field = Named(name: string, value: string) | Blank

  /** The commands the bot lists, in order. */
  const Listed: seq<Command> := [
    Command("]balance", "Token balance"),
    Command("]commands", "List of commands"),
    Command("]help", "Help info")
  ]

  /** The number of blank fields, `3 * floor((n + 3) / 3) - n` with the
      division on ints. */
  function Padding(n: nat): (k: nat)
    ensures 1 <= k <= 3
    ensures (n + k) % 3 == 0
  {
    3 * ((n + 3) / 3) - n
  }

  /** The field for a command: its name, and its description in backticks. */
  function FieldOf(c: Command): Field {
    Named(c.name, "`" + c.description + "`")
  }

  /** The fields of the embed, in the order they are added. */
  function Fields(commands: seq<Command>): (fs: seq<Field>)
    ensures |fs| == |commands| + Padding(|commands|) && |fs| % 3 == 0
    ensures forall i :: 0 <= i < |commands| ==> fs[i] == FieldOf(commands[i])
    ensures forall i :: |commands| <= i < |fs| ==> fs[i] == Blank
  {
    seq(|commands|, i requires 0 <= i < |commands| => FieldOf(commands[i]))
    + seq(Padding(|commands|), _ => Blank)
  }

  class TBCommandsCommand {
    const commandsChId: string

    constructor (commandsChId: string)
      ensures this.commandsChId == commandsChId
    {
      this.commandsChId := commandsChId;
    }

    /** `onMessageReceived`: the embed's fields when the exact command is
        posted in the commands channel. */
    method OnMessageReceived(message: string, channelId: string) returns (embed: Option<seq<Field>>)
      ensures embed.Some? <==> message == COMMANDS && channelId == commandsChId
      ensures embed.Some? ==> embed.value == Fields(Listed)
    {
      if message != COMMANDS || channelId != commandsChId {
        return None;
      }
      var fields: seq<Field> := [];
      var i := 0;
      while i < |Listed|
        invariant 0 <= i <= |Listed|
        invariant fields == Fields(Listed)[..i]
      {
        fields := fields + [FieldOf(Listed[i])];
        i := i + 1;
      }
      var limit := 3 * ((|Listed| + 3) / 3);
      while i < limit
        invariant |Listed| <= i <= limit
        invariant fields == Fields(Listed)[..i]
      {
        fields := fields + [Blank];
        i := i + 1;
      }
      assert fields == Fields(Listed);
      return Some(fields);
    }
  }

  /** With the three listed commands the embed has three named fields and
      three blank ones. */
  lemma ListedEmbed()
    ensures Fields(Listed) == [FieldOf(Listed[0]), FieldOf(Listed[1]), FieldOf(Listed[2]), Blank, Blank, Blank]
  {
    assert Padding(3) == 3;
  }
}
