/** The help messages: a summary of all commands, and the help page of one command. */
module HelpMessage {
  import opened Wrappers
  import opened Kernel
  import opened Strings

  datatype CommandSummary = CommandSummary(name: string, description: string)

  datatype Command = Command(name: string, title: string, description: string, example: string)

  const SummaryHeader: string := "### コマンド\n"

  /** One summary line; the closing backtick is doubled. */
  function FormatSummary(c: CommandSummary): string {
    "- " + c.name + " (`" + c.description + "``)"
  }

  /** Reads a summary line back: the name runs up to the first space. */
  function ParseSummary(line: string): (r: Option<CommandSummary>)
    ensures r.Some? ==> FormatSummary(r.value) == line
  {
    if |line| < 2 || line[..2] != "- " then None
    else
      var rest := line[2..];
      var i := IndexOf(rest, ' ');
      var tail := rest[i..];
      if |tail| < 6 || tail[..3] != " (`" || tail[|tail| - 3..] != "``)" then None
      else
        Reassemble(line, i);
        Some(CommandSummary(rest[..i], tail[3..|tail| - 3]))
  }

  /** The pieces `ParseSummary` cuts a line into glue back to the line. */
  lemma Reassemble(line: string, i: nat)
    requires |line| >= 2 && line[..2] == "- " && i <= |line| - 2
    requires var tail := line[2..][i..]; |tail| >= 6 && tail[..3] == " (`" && tail[|tail| - 3..] == "``)"
    ensures var rest := line[2..]; var tail := rest[i..];
      FormatSummary(CommandSummary(rest[..i], tail[3..|tail| - 3])) == line
  {
    var rest := line[2..];
    var tail := rest[i..];
    var d := tail[3..|tail| - 3];
    assert tail == " (`" + d + "``)" by {
      assert tail == tail[..3] + d + tail[|tail| - 3..];
    }
    assert rest == rest[..i] + tail;
    assert line == "- " + rest;
  }

  /** A summary line names its command and description unambiguously, when the name has no space. */
  lemma SummaryRoundTrip(c: CommandSummary)
    requires ' ' !in c.name
    ensures ParseSummary(FormatSummary(c)) == Some(c)
  {
    var line := FormatSummary(c);
    var rest := line[2..];
    assert rest == c.name + (" (`" + c.description + "``)");
    IndexOfPastPrefix(c.name, ' ', "(`" + c.description + "``)");
    assert rest == c.name + [' '] + ("(`" + c.description + "``)");
    var tail := rest[|c.name|..];
    assert tail == " (`" + c.description + "``)";
    assert tail[3..|tail| - 3] == c.description;
  }

  function SummaryLines(cs: seq<CommandSummary>): (lines: seq<string>)
    ensures |lines| == |cs| && forall k :: 0 <= k < |cs| ==> lines[k] == FormatSummary(cs[k])
  {
    seq(|cs|, k requires 0 <= k < |cs| => FormatSummary(cs[k]))
  }

  /** The summary message: the header, then one line per command; not embedded. */
  function SummaryMessage(channelId: Id, commands: seq<CommandSummary>): (m: NewMessage)
    ensures m.channelId == channelId && !m.embed
    ensures |commands| == 0 ==> m.content == "### コマンド\n"
    ensures m.content == SummaryHeader + Join(SummaryLines(commands), "\n")
  {
    NewMessage(channelId, SummaryHeader + Join(SummaryLines(commands), "\n"), false)
  }

  /** After the header, the lines of the summary are the commands' lines, in order. */
  lemma SummaryLinesRecovered(channelId: Id, commands: seq<CommandSummary>)
    requires |commands| > 0
    requires forall k :: 0 <= k < |commands| ==> '\n' !in commands[k].name && '\n' !in commands[k].description
    ensures var content := SummaryMessage(channelId, commands).content;
      content[..|SummaryHeader|] == SummaryHeader
      && Split(content[|SummaryHeader|..], '\n') == SummaryLines(commands)
  {
    var lines := SummaryLines(commands);
    forall k | 0 <= k < |lines| ensures '\n' !in lines[k] {
      assert lines[k] == "- " + commands[k].name + " (`" + commands[k].description + "``)";
    }
    SplitJoin(lines, '\n');
    var content := SummaryMessage(channelId, commands).content;
    assert content[|SummaryHeader|..] == Join(lines, "\n");
  }

  /** One command's help page: title and name, description, and the example in a code block. */
  function FormatCommand(c: Command): string {
    "### " + c.title + "(`" + c.name + "`)\n" + c.description + "\n```\n" + c.example + "\n```"
  }

  lemma JoinCons(x: string, xs: seq<string>, sep: string)
    requires |xs| > 0
    ensures Join([x] + xs, sep) == x + sep + Join(xs, sep)
  {
    assert ([x] + xs)[1..] == xs;
  }

  /** The help page has five lines: heading, description, fence, example, fence. */
  lemma CommandLines(c: Command)
    requires '\n' !in c.title && '\n' !in c.name && '\n' !in c.description && '\n' !in c.example
    ensures Split(FormatCommand(c), '\n') == ["### " + c.title + "(`" + c.name + "`)", c.description, "```", c.example, "```"]
  {
    var heading := "### " + c.title + "(`" + c.name + "`)";
    var fence := "```";
    var nl := "\n";
    JoinCons(c.example, [fence], nl);
    JoinCons(fence, [c.example, fence], nl);
    JoinCons(c.description, [fence, c.example, fence], nl);
    JoinCons(heading, [c.description, fence, c.example, fence], nl);
    var lines := [heading, c.description, fence, c.example, fence];
    assert [heading] + [c.description, fence, c.example, fence] == lines;
    assert Join(lines, nl) == heading + nl + (c.description + nl + (fence + nl + (c.example + nl + fence)));
    assert Join(lines, nl) == FormatCommand(c);
    assert '\n' !in heading by {
      assert heading == "### " + c.title + ("(`" + c.name + "`)");
    }
    assert '\n' !in fence;
    SplitJoin(lines, '\n');
  }

  /** The help message of one command is embedded. */
  function CommandHelpMessage(channelId: Id, c: Command): (m: NewMessage)
    ensures m.channelId == channelId && m.embed
    ensures m.content == FormatCommand(c)
  {
    NewMessage(channelId, FormatCommand(c), true)
  }
}
