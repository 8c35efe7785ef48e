/**
 * The command layer of a message that mentions the bot: the text is tokenized, the first token
 * names the command, and the remaining tokens become the handler's arguments.
 */
module MessageCreated {
  import opened Wrappers
  import opened Kernel
  import opened Strings
  import opened ArgParser
  import opened HelpMessage

  function First(args: seq<string>): (r: Option<string>)
    ensures r.Some? <==> |args| > 0
    ensures r.Some? ==> r.value == args[0]
  {
    if |args| == 0 then None else Some(args[0])
  }

  /** `is_help_command`: three comparisons of the first argument, if any. */
  predicate IsHelpCommand(args: seq<string>)
    ensures IsHelpCommand(args) ==> |args| > 0
  {
    First(args) == Some("help") || First(args) == Some("--help") || First(args) == Some("-h")
  }

  lemma IsHelpCommandExactly(args: seq<string>)
    ensures IsHelpCommand(args) <==> |args| > 0 && args[0] in {"help", "--help", "-h"}
  {
  }

  /** The command name: the first token, or "" when there is none. */
  function CommandName(args: seq<string>): string {
    First(args).GetOr("")
  }

  /** The handler's arguments: every token after the first. */
  function Tail(args: seq<string>): seq<string> {
    if |args| == 0 then [] else args[1..]
  }

  /** Name and arguments together are the tokens again, in order. */
  lemma NameAndTail(args: seq<string>)
    ensures |args| > 0 ==> [CommandName(args)] + Tail(args) == args
    ensures |args| == 0 ==> CommandName(args) == "" && Tail(args) == []
    ensures |Tail(args)| == if |args| == 0 then 0 else |args| - 1
  {
  }

  // ---------------------------------------------------------------------------------------------
  // `str::parse::<i32>()`.

  predicate AllDigits(s: string) {
    forall i :: 0 <= i < |s| ==> IsDigit(s[i])
  }

  /**
   * Rust's `i32::from_str`: an optional leading `+` or `-`, then at least one ASCII digit and
   * nothing else; a value outside the 32-bit range is an error.
   */
  function ParseI32(s: string): (r: Option<I32>)
    ensures r.Some? ==> |s| > 0
    ensures r.Some? && s[0] == '-' ==> r.value <= 0
    ensures r.Some? && s[0] != '-' ==> r.value >= 0
  {
    if |s| == 0 then None
    else
      var negative := s[0] == '-';
      var digits := if s[0] == '+' || s[0] == '-' then s[1..] else s;
      if |digits| == 0 || !AllDigits(digits) then None
      else
        var v: int := if negative then -(DigitsValue(digits) as int) else DigitsValue(digits);
        if I32Min <= v <= I32Max then Some(v) else None
  }

  /** Every 32-bit integer, written in decimal, parses back to itself. */
  lemma ParseI32RoundTrip(n: I32)
    ensures ParseI32(IntToString(n)) == Some(n)
  {
    var s := IntToString(n);
    if n < 0 {
      var m: nat := -(n as int);
      var d := NatToString(m);
      assert s == "-" + d;
      assert s[0] == '-' && s[1..] == d;
      NatToStringValue(m);
      assert AllDigits(d);
    } else {
      var d := NatToString(n);
      assert s == d;
      NatToStringValue(n);
      assert AllDigits(d);
      assert IsDigit(s[0]);
    }
  }

  /** A decimal number beyond the 32-bit range, with or without a minus sign, is an error. */
  lemma ParseI32OutOfRange(n: nat)
    requires n > I32Max
    ensures ParseI32(NatToString(n)).None?
    ensures n > -I32Min ==> ParseI32("-" + NatToString(n)).None?
  {
    var d := NatToString(n);
    NatToStringValue(n);
    assert IsDigit(d[0]);
    assert AllDigits(d);
    assert ("-" + d)[1..] == d;
  }

  /** Text with a character that is neither a digit nor a leading sign does not parse. */
  lemma ParseI32RejectsNonDigit(s: string, i: nat)
    requires i < |s| && !IsDigit(s[i]) && !(i == 0 && (s[i] == '+' || s[i] == '-'))
    ensures ParseI32(s).None?
  {
    if s[0] == '+' || s[0] == '-' {
      assert s[1..][i - 1] == s[i];
    }
  }

  lemma ParseI32Examples()
    ensures ParseI32("1000") == Some(1000)
    ensures ParseI32("+7") == Some(7) && ParseI32("-7") == Some(-7) && ParseI32("007") == Some(7)
    ensures ParseI32("") == None && ParseI32("-") == None && ParseI32("+") == None
  {
    assert "1000"[..3] == "100" && "100"[..2] == "10" && "10"[..1] == "1";
    assert DigitsValue("1") == 1 && DigitsValue("10") == 10 && DigitsValue("100") == 100;
    assert DigitsValue("1000") == 1000;
    assert "007"[..2] == "00" && "00"[..1] == "0";
    assert "+7"[1..] == "7" && "-7"[1..] == "7";
  }

  /** The `bet` arguments: the candidate is the first argument or "", the amount the second parsed, or 0. */
  function BetCandidate(args: seq<string>): string {
    First(args).GetOr("")
  }

  function BetAmount(args: seq<string>): (amount: I32)
    ensures |args| < 2 ==> amount == 0
    ensures |args| >= 2 && ParseI32(args[1]).None? ==> amount == 0
    ensures |args| >= 2 && ParseI32(args[1]).Some? ==> amount == ParseI32(args[1]).value
  {
    if |args| < 2 then 0 else ParseI32(args[1]).GetOr(0)
  }

  lemma BetAmountOfRendering(args: seq<string>, n: I32)
    requires |args| >= 2 && args[1] == IntToString(n)
    ensures BetAmount(args) == n
  {
    ParseI32RoundTrip(n);
  }

  // ---------------------------------------------------------------------------------------------
  // Command selection.

  /** The parts of the incoming message the handler reads. */
  datatype Event = Event(userId: Id, userName: string, channelId: Id, messageId: Id, text: string)

  /** What a message asks for: a handler and its argument, or a command's help page. */
  datatype Action =
    | Help(channelId: Id)
    | Reg(userId: Id, userName: string, channelId: Id)
    | CommandHelp(message: NewMessage)
    | Start(channelId: Id, title: string, candidateNames: seq<string>)
    | Close(channelId: Id, messageId: Id)
    | PlaceBet(traqId: Id, candidateName: string, amount: I32, channelId: Id, messageId: Id)
    | Cancel(channelId: Id)
    | Finish(channelId: Id, winnerCandidateName: string)
    | Info(channelId: Id)
    | Unknown(name: string)

  const StartHelp: Command := Command("start", "賭けの開始",
    "賭けを開始します\n進行中の賭けはチャンネルごとに1つのみです",
    "@BOT_bookmaker start \"VCT PACIFIC\" Gen.G PRX")
  const CloseHelp: Command := Command("close", "bet の締め切り",
    "bet を締め切ります。\nこの時点でレートは確定し、bet は受け付けられなくなります",
    "@BOT_bookmaker close")
  const BetHelp: Command := Command("bet", "賭け",
    "賭けを行います\n賭けの対象となる候補を指定し、賭けるポイントは正の整数を指定してください\n参加賞として1000ptもらえます\n`@BOT_bookmaker bet 候補A ポイント数`の形式で指定できます",
    "@BOT_bookmaker bet 候補A 1000")
  const CancelHelp: Command := Command("cancel", "賭けのキャンセル",
    "賭けをキャンセルします\nこのチャンネルで最新のまだ勝者が決まっていない賭けのみが有効です\n`@BOT_bookmaker cancel`の形式で指定できます",
    "@BOT_bookmaker cancel")
  const FinishHelp: Command := Command("finish", "賭けの終了",
    "賭けを終了しポイントを分配します\n既に勝者が決まっている賭けではエラーになります\n丸め処理を適当にやっているため前後で総ポイント数が増減する可能性があります\n`@BOT_bookmaker finish 勝者名`の形式で指定できます",
    "@BOT_bookmaker finish 勝者名")
  const InfoHelp: Command := Command("info", "ポイント情報",
    "各ユーザーのポイントを表示します\n他のチャンネルでのポイントは全く別で管理されています",
    "@BOT_bookmaker info")

  /** The commands that answer `help`, `--help` or `-h` as first argument with their own page. */
  function SubcommandHelp(name: string): Option<Command> {
    if name == "start" then Some(StartHelp)
    else if name == "close" then Some(CloseHelp)
    else if name == "bet" then Some(BetHelp)
    else if name == "cancel" then Some(CancelHelp)
    else if name == "finish" then Some(FinishHelp)
    else if name == "info" then Some(InfoHelp)
    else None
  }

  /**
   * Selection on the command name; `cancelFinishChannel` says which id the cancel and finish handlers get as
   * their channel (the source passes the author's id there).
   */
  function Select(e: Event, name: string, args: seq<string>, cancelFinishChannel: Id): (r: Action)
    ensures r.Unknown? <==> name !in {"help", "--help", "-h", "reg", "start", "close", "bet", "cancel", "finish", "info"}
    ensures r.Unknown? ==> r.name == name
    ensures r.Cancel? || r.Finish? ==> ChannelOf(r) == Some(cancelFinishChannel)
    ensures !(r.Cancel? || r.Finish? || r.Unknown?) ==> ChannelOf(r) == Some(e.channelId)
  {
    if name == "help" || name == "--help" || name == "-h" then Help(e.channelId)
    else if name == "reg" then Reg(e.userId, e.userName, e.channelId)
    else if SubcommandHelp(name).Some? && IsHelpCommand(args) then
      CommandHelp(CommandHelpMessage(e.channelId, SubcommandHelp(name).value))
    else if name == "start" then Start(e.channelId, First(args).GetOr(""), Tail(args))
    else if name == "close" then Close(e.channelId, e.messageId)
    else if name == "bet" then PlaceBet(e.userId, BetCandidate(args), BetAmount(args), e.channelId, e.messageId)
    else if name == "cancel" then Cancel(cancelFinishChannel)
    else if name == "finish" then Finish(cancelFinishChannel, First(args).GetOr(""))
    else if name == "info" then Info(e.channelId)
    else Unknown(name)
  }

  /** The handler as written: `cancel` and `finish` receive the author's user id as channel. */
  function RouteAsWritten(e: Event): Action {
    var tokens := Parse(e.text);
    Select(e, CommandName(tokens), Tail(tokens), e.userId)
  }

  /** The handler as intended: every command acts on the channel the message was posted in. */
  function Route(e: Event): Action {
    var tokens := Parse(e.text);
    Select(e, CommandName(tokens), Tail(tokens), e.channelId)
  }

  /** The channel an action belongs to, if any. */
  function ChannelOf(a: Action): Option<Id> {
    match a
    case Help(c) => Some(c)
    case Reg(_, _, c) => Some(c)
    case CommandHelp(m) => Some(m.channelId)
    case Start(c, _, _) => Some(c)
    case Close(c, _) => Some(c)
    case PlaceBet(_, _, _, c, _) => Some(c)
    case Cancel(c) => Some(c)
    case Finish(c, _) => Some(c)
    case Info(c) => Some(c)
    case Unknown(_) => None
  }

  /** Every command the handler knows acts on the message's channel; only an unknown name has none. */
  lemma RouteStaysInChannel(e: Event)
    ensures Route(e).Unknown? <==> CommandName(Parse(e.text)) !in {"help", "--help", "-h", "reg", "start", "close", "bet", "cancel", "finish", "info"}
    ensures !Route(e).Unknown? ==> ChannelOf(Route(e)) == Some(e.channelId)
    ensures Route(e).Unknown? ==> Route(e) == Unknown(CommandName(Parse(e.text)))
  {
  }

  /** With `help` as first argument, a subcommand answers with its own embedded help page. */
  lemma SubcommandHelpPage(e: Event)
    requires var tokens := Parse(e.text); SubcommandHelp(CommandName(tokens)).Some? && IsHelpCommand(Tail(tokens))
    ensures var tokens := Parse(e.text); var page := SubcommandHelp(CommandName(tokens)).value;
      Route(e) == CommandHelp(NewMessage(e.channelId, FormatCommand(page), true))
      && page.name == CommandName(tokens)
  {
  }

  /** The `bet` arguments come from the tokens after the command name. */
  lemma BetRoute(e: Event)
    requires var tokens := Parse(e.text); CommandName(tokens) == "bet" && !IsHelpCommand(Tail(tokens))
    ensures var args := Tail(Parse(e.text));
      Route(e) == PlaceBet(e.userId, First(args).GetOr(""), BetAmount(args), e.channelId, e.messageId)
  {
  }

  /** As written, `cancel` and `finish` act on a "channel" that is the author's id. */
  lemma AsWrittenCancelLeavesChannel(e: Event)
    requires var tokens := Parse(e.text); CommandName(tokens) in {"cancel", "finish"} && !IsHelpCommand(Tail(tokens))
    requires e.userId != e.channelId
    ensures ChannelOf(RouteAsWritten(e)) == Some(e.userId)
    ensures ChannelOf(RouteAsWritten(e)) != ChannelOf(Route(e))
  {
  }
}
