/** What `parse_args` guarantees about its output, proved on the fold `ArgParser.Run`. */
module ArgParserFacts {
  import opened ArgParser

  // ---------------------------------------------------------------------------------------------
  // Every argument is non-empty: an argument is only ever opened together with its first char.

  predicate AllNonEmpty(args: seq<string>) {
    forall i :: 0 <= i < |args| ==> |args[i]| > 0
  }

  lemma {:induction false} RunKeepsNonEmpty(s: State, t: string)
    requires AllNonEmpty(s.args)
    ensures AllNonEmpty(Run(s, t).args)
    decreases |t|
  {
    if |t| > 0 {
      RunKeepsNonEmpty(Step(s, t[0]), t[1..]);
    }
  }

  lemma ParseNonEmpty(text: string)
    ensures forall i :: 0 <= i < |Parse(text)| ==> |Parse(text)[i]| > 0
  {
    RunKeepsNonEmpty(Initial, text);
  }

  // ---------------------------------------------------------------------------------------------
  // Which characters survive: an independent account driven by the two flags alone.

  /** The arguments glued together. */
  function Concat(xs: seq<string>): string
    decreases |xs|
  {
    if |xs| == 0 then [] else Concat(xs[..|xs| - 1]) + xs[|xs| - 1]
  }

  /** What one character contributes to the glued arguments, given the two flags before it. */
  function KeptChar(escape: bool, quoted: bool, c: char): string {
    if escape then [c]
    else if c == '"' || c == '\\' then []
    else if IsWhitespace(c) && !quoted then []
    else [c]
  }

  /** The escape flag after `c`: set by an unescaped backslash, cleared by anything else. */
  function EscapeAfter(escape: bool, c: char): bool {
    !escape && c == '\\'
  }

  /** The quote flag after `c`: flipped by an unescaped `"`. */
  function QuotedAfter(escape: bool, quoted: bool, c: char): bool {
    if !escape && c == '"' then !quoted else quoted
  }

  /**
   * Reference account of the characters `parse_args` keeps from `t`, starting with the given
   * flags: escaped characters, quoted whitespace and ordinary characters, in order; unescaped
   * quotes and backslashes and unquoted whitespace are dropped.
   */
  function Kept(escape: bool, quoted: bool, t: string): string
    decreases |t|
  {
    if |t| == 0 then []
    else KeptChar(escape, quoted, t[0]) + Kept(EscapeAfter(escape, t[0]), QuotedAfter(escape, quoted, t[0]), t[1..])
  }

  lemma ConcatSnoc(xs: seq<string>, x: string)
    ensures Concat(xs + [x]) == Concat(xs) + x
  {
    assert (xs + [x])[..|xs|] == xs;
  }

  lemma ConcatInsertLast(args: seq<string>, c: char)
    ensures Concat(InsertLast(args, c)) == Concat(args) + [c]
  {
    if |args| == 0 {
      ConcatSnoc([], [c]);
    } else {
      var n := |args|;
      var init := args[..n - 1];
      assert InsertLast(args, c) == init + [args[n - 1] + [c]];
      assert args == init + [args[n - 1]];
      ConcatSnoc(init, args[n - 1] + [c]);
      ConcatSnoc(init, args[n - 1]);
    }
  }

  lemma ConcatStep(s: State, c: char)
    ensures Concat(Step(s, c).args) == Concat(s.args) + KeptChar(s.escape, s.quoted, c)
    ensures Step(s, c).escape == EscapeAfter(s.escape, c)
    ensures Step(s, c).quoted == QuotedAfter(s.escape, s.quoted, c)
  {
    ConcatInsertLast(s.args, c);
    ConcatSnoc(s.args, [c]);
  }

  lemma {:induction false} ConcatRun(s: State, t: string)
    ensures Concat(Run(s, t).args) == Concat(s.args) + Kept(s.escape, s.quoted, t)
    decreases |t|
  {
    if |t| > 0 {
      var s' := Step(s, t[0]);
      ConcatStep(s, t[0]);
      ConcatRun(s', t[1..]);
      assert Run(s, t) == Run(s', t[1..]);
      assert Kept(s.escape, s.quoted, t) == KeptChar(s.escape, s.quoted, t[0]) + Kept(s'.escape, s'.quoted, t[1..]);
    }
  }

  /** The arguments, glued together, are exactly the kept characters of the text. */
  lemma ParseKeeps(text: string)
    ensures Concat(Parse(text)) == Kept(false, false, text)
  {
    ConcatRun(Initial, text);
  }

  lemma {:induction false} ConcatHolds(xs: seq<string>, i: nat, c: char)
    requires i < |xs| && c in xs[i]
    ensures c in Concat(xs)
    decreases |xs|
  {
    if i < |xs| - 1 {
      ConcatHolds(xs[..|xs| - 1], i, c);
    }
  }

  lemma {:induction false} KeptNoQuote(quoted: bool, t: string)
    requires '\\' !in t
    ensures '"' !in Kept(false, quoted, t)
    decreases |t|
  {
    if |t| > 0 {
      assert '\\' !in t[1..];
      if t[0] == '"' {
        KeptNoQuote(!quoted, t[1..]);
      } else {
        KeptNoQuote(quoted, t[1..]);
      }
    }
  }

  /** An unescaped `"` only toggles quoting: without any backslash no argument holds a `"`. */
  lemma NoUnescapedQuote(text: string)
    requires '\\' !in text
    ensures forall i :: 0 <= i < |Parse(text)| ==> '"' !in Parse(text)[i]
  {
    ParseKeeps(text);
    KeptNoQuote(false, text);
    forall i | 0 <= i < |Parse(text)|
      ensures '"' !in Parse(text)[i]
    {
      if '"' in Parse(text)[i] {
        ConcatHolds(Parse(text), i, '"');
      }
    }
  }

  // ---------------------------------------------------------------------------------------------
  // Escapes and quoted whitespace never open an argument, even right after a separating space.

  /**
   * A backslash pair appends its second character to the current last argument (or opens the very
   * first one), and the pending new-argument flag stays pending for the next ordinary character.
   */
  lemma EscapeJoinsLast(s: State, c: char)
    requires !s.escape
    ensures var r := Run(s, ['\\', c]);
      r.args == InsertLast(s.args, c) && r.newArg == s.newArg && r.quoted == s.quoted && !r.escape
  {
    var s1 := Step(s, '\\');
    assert s1 == s.(escape := true);
    assert ['\\', c][1..] == [c];
    assert Run(s, ['\\', c]) == Run(s1, [c]);
    assert [c][1..] == [];
    assert Run(s1, [c]) == Step(s1, c);
  }

  /** Whitespace inside quotes is appended to the last argument even when a new one is pending. */
  lemma QuotedWhitespaceJoinsLast(s: State, c: char)
    requires s.quoted && !s.escape && IsWhitespace(c)
    ensures Step(s, c).args == InsertLast(s.args, c) && Step(s, c).newArg == s.newArg
  {
  }

  /** Only an ordinary character honours a pending new-argument flag. */
  lemma OrdinaryOpensArgument(s: State, c: char)
    requires !s.escape && s.newArg && c != '"' && c != '\\' && !IsWhitespace(c)
    ensures Step(s, c).args == s.args + [[c]] && !Step(s, c).newArg
  {
  }

  // ---------------------------------------------------------------------------------------------
  // Without quotes and backslashes the tokenizer is a plain whitespace split.

  predicate Plain(t: string) {
    forall i :: 0 <= i < |t| ==> t[i] != '"' && t[i] != '\\'
  }

  /** The longest prefix of `t` without whitespace. */
  function LeadWord(t: string): (w: string)
    ensures |w| <= |t| && w == t[..|w|]
    decreases |t|
  {
    if |t| == 0 || IsWhitespace(t[0]) then [] else [t[0]] + LeadWord(t[1..])
  }

  /** Reference split: the maximal whitespace-free runs of `t`, in order. */
  function Words(t: string): seq<string>
    decreases |t|
  {
    if |t| == 0 then []
    else if IsWhitespace(t[0]) then Words(t[1..])
    else var w := LeadWord(t); [w] + Words(t[|w|..])
  }

  /**
   * Where the fold stands after plain text `t`, from a state outside quotes and escapes: the
   * leading word of `t` extends the last argument unless a new one is pending, the rest is split.
   */
  function Glue(args: seq<string>, newArg: bool, t: string): seq<string> {
    if newArg || |args| == 0 then args + Words(t)
    else var w := LeadWord(t); args[|args| - 1 := args[|args| - 1] + w] + Words(t[|w|..])
  }

  lemma GlueWhitespace(args: seq<string>, newArg: bool, t: string)
    requires |t| > 0 && IsWhitespace(t[0])
    ensures Glue(args, newArg, t) == args + Words(t[1..])
  {
    if !(newArg || |args| == 0) {
      assert LeadWord(t) == [];
      assert args[|args| - 1] + [] == args[|args| - 1];
      assert args[|args| - 1 := args[|args| - 1]] == args;
    }
  }

  /** An ordinary character in front of `t` lengthens the leading word by one. */
  lemma LeadWordCons(c: char, t: string)
    requires !IsWhitespace(c)
    ensures LeadWord([c] + t) == [c] + LeadWord(t)
    ensures Words([c] + t) == [[c] + LeadWord(t)] + Words(t[|LeadWord(t)|..])
  {
    var ct := [c] + t;
    assert ct[1..] == t;
    assert ct[|[c] + LeadWord(t)|..] == t[|LeadWord(t)|..];
  }

  lemma GlueOpen(args: seq<string>, c: char, t: string)
    requires !IsWhitespace(c)
    ensures Glue(args + [[c]], false, t) == args + Words([c] + t)
  {
    var w := LeadWord(t);
    LeadWordCons(c, t);
    var grown := args + [[c]];
    assert Glue(grown, false, t) == grown[|args| := [c] + w] + Words(t[|w|..]);
    assert grown[|args| := [c] + w] == args + [[c] + w];
  }

  lemma GlueExtend(args: seq<string>, c: char, t: string)
    requires |args| > 0 && !IsWhitespace(c)
    ensures Glue(InsertLast(args, c), false, t) == Glue(args, false, [c] + t)
  {
    var n := |args|;
    var w := LeadWord(t);
    LeadWordCons(c, t);
    assert ([c] + t)[|[c] + w|..] == t[|w|..];
    assert args[n - 1] + [c] + w == args[n - 1] + ([c] + w);
    var once := args[n - 1 := args[n - 1] + [c]];
    assert once[n - 1] == args[n - 1] + [c];
    assert once[n - 1 := once[n - 1] + w] == args[n - 1 := args[n - 1] + ([c] + w)];
  }

  lemma {:induction false} PlainRun(s: State, t: string)
    requires Plain(t) && !s.quoted && !s.escape
    ensures Run(s, t).args == Glue(s.args, s.newArg, t)
    decreases |t|
  {
    if |t| == 0 {
      if !(s.newArg || |s.args| == 0) {
        assert s.args[|s.args| - 1] + [] == s.args[|s.args| - 1];
        assert s.args[|s.args| - 1 := s.args[|s.args| - 1]] == s.args;
      }
      assert s.args + [] == s.args;
    } else {
      var c := t[0];
      var s' := Step(s, c);
      assert Plain(t[1..]);
      assert t == [c] + t[1..];
      PlainRun(s', t[1..]);
      if IsWhitespace(c) {
        GlueWhitespace(s.args, s.newArg, t);
      } else if s.newArg || |s.args| == 0 {
        if s.newArg {
          assert s'.args == s.args + [[c]];
        } else {
          assert s'.args == [] + [[c]];
        }
        GlueOpen(s.args, c, t[1..]);
      } else {
        GlueExtend(s.args, c, t[1..]);
      }
    }
  }

  /** On text without quotes and backslashes, `parse_args` is the whitespace split `Words`. */
  lemma ParsePlain(text: string)
    requires Plain(text)
    ensures Parse(text) == Words(text)
  {
    PlainRun(Initial, text);
    assert [] + Words(text) == Words(text);
  }

  lemma {:induction false} WhitespaceRun(s: State, t: string)
    requires !s.quoted && !s.escape
    requires forall i :: 0 <= i < |t| ==> IsWhitespace(t[i])
    ensures Run(s, t).args == s.args
    decreases |t|
  {
    if |t| > 0 {
      WhitespaceRun(Step(s, t[0]), t[1..]);
    }
  }

  /** Empty or whitespace-only text yields no arguments. */
  lemma WhitespaceOnly(text: string)
    requires forall i :: 0 <= i < |text| ==> IsWhitespace(text[i])
    ensures Parse(text) == []
  {
    WhitespaceRun(Initial, text);
  }
}
