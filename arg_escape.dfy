/**
 * `escape_arg`, the serialiser the use cases apply to a candidate name before quoting it back to
 * the user as part of a command line: when the name holds an ASCII space, every backslash is
 * doubled and then every double quote is preceded by a backslash.
 */
module ArgEscape {
  import opened ArgParser

  /** Rust's `str::replace` with a one-character pattern: every `from` becomes `to`. */
  function Replace(s: string, from: char, to: string): string
    decreases |s|
  {
    if |s| == 0 then [] else (if s[0] == from then to else [s[0]]) + Replace(s[1..], from, to)
  }

  /** `escape_arg` as written: no surrounding quotes are added. */
  function EscapeArg(arg: string): string {
    if ' ' in arg then Replace(Replace(arg, '\\', "\\\\"), '"', "\\\"") else arg
  }

  /** The per-character account of the escaped form. */
  function EscapeChar(c: char): string {
    if c == '\\' then "\\\\" else if c == '"' then "\\\"" else [c]
  }

  function Escaped(s: string): string
    decreases |s|
  {
    if |s| == 0 then [] else EscapeChar(s[0]) + Escaped(s[1..])
  }

  lemma {:induction false} ReplaceAppend(a: string, b: string, from: char, to: string)
    ensures Replace(a + b, from, to) == Replace(a, from, to) + Replace(b, from, to)
    decreases |a|
  {
    if |a| == 0 {
      assert a + b == b;
    } else {
      assert (a + b)[0] == a[0];
      assert (a + b)[1..] == a[1..] + b;
      ReplaceAppend(a[1..], b, from, to);
    }
  }

  lemma {:induction false} ReplaceTwice(s: string)
    ensures Replace(Replace(s, '\\', "\\\\"), '"', "\\\"") == Escaped(s)
    decreases |s|
  {
    if |s| > 0 {
      var head := if s[0] == '\\' then "\\\\" else [s[0]];
      var once := Replace(s, '\\', "\\\\");
      assert once == head + Replace(s[1..], '\\', "\\\\");
      ReplaceAppend(head, Replace(s[1..], '\\', "\\\\"), '"', "\\\"");
      ReplaceTwice(s[1..]);
      if s[0] == '\\' {
        assert Replace("\\\\", '"', "\\\"") == "\\\\";
      } else {
        assert Replace([s[0]], '"', "\\\"") == EscapeChar(s[0]);
      }
    }
  }

  /** With a space present, the result is the per-character mapping: backslashes go first, so the
      backslash put in front of a quote is not doubled. */
  lemma EscapeArgIsCharMap(arg: string)
    requires ' ' in arg
    ensures EscapeArg(arg) == Escaped(arg)
  {
    ReplaceTwice(arg);
  }

  /** Without an ASCII space the argument comes back as it is. */
  lemma EscapeArgNoSpace(arg: string)
    requires ' ' !in arg
    ensures EscapeArg(arg) == arg
  {
  }

  lemma {:induction false} EscapedLength(s: string)
    ensures |Escaped(s)| == |s| + multiset(s)['\\'] + multiset(s)['"']
    decreases |s|
  {
    if |s| > 0 {
      EscapedLength(s[1..]);
      assert s == [s[0]] + s[1..];
      assert multiset(s) == multiset([s[0]]) + multiset(s[1..]);
    }
  }

  /** With a space present, one character is added per backslash and per double quote. */
  lemma EscapeArgLength(arg: string)
    requires ' ' in arg
    ensures |EscapeArg(arg)| == |arg| + multiset(arg)['\\'] + multiset(arg)['"']
  {
    EscapeArgIsCharMap(arg);
    EscapedLength(arg);
  }

  lemma {:induction false} EscapedChangesNothing(s: string)
    requires '\\' !in s && '"' !in s
    ensures Escaped(s) == s
  {
    if |s| > 0 {
      assert '\\' !in s[1..] && '"' !in s[1..];
      EscapedChangesNothing(s[1..]);
      assert s == [s[0]] + s[1..];
    }
  }

  lemma {:induction false} EscapedLonger(s: string)
    requires '\\' in s || '"' in s
    ensures |Escaped(s)| > |s|
  {
    EscapedLength(s);
  }

  /**
   * The argument changes exactly when it holds an ASCII space and a backslash or a double quote;
   * tabs, newlines and other whitespace never trigger escaping.
   */
  lemma EscapeArgChanges(arg: string)
    ensures EscapeArg(arg) != arg <==> ' ' in arg && ('\\' in arg || '"' in arg)
  {
    if ' ' in arg {
      EscapeArgIsCharMap(arg);
      if '\\' in arg || '"' in arg {
        EscapedLonger(arg);
      } else {
        EscapedChangesNothing(arg);
      }
    }
  }

  /** Replacing in the other order would double the backslash put in front of a quote. */
  lemma OrderMatters()
    ensures Replace(Replace("a \"", '"', "\\\""), '\\', "\\\\") == "a \\\\\""
    ensures EscapeArg("a \"") == "a \\\""
  {
  }

  // ---------------------------------------------------------------------------------------------
  // Reading an escaped name back with the tokenizer.

  /** As written, a name with a space is not quoted, so the tokenizer splits it apart again. */
  lemma EscapeArgSplitsName()
    ensures EscapeArg("a b") == "a b"
    ensures var p := Parse(EscapeArg("a b")); |p| == 2 && p[0] == "a" && p[1] == "b"
  {
  }

  /** What the comment on `escape_arg` describes: with a space, escape and wrap in double quotes. */
  function EscapeArgQuoted(arg: string): (r: string)
    ensures ' ' !in arg ==> r == arg
    ensures ' ' in arg ==> |r| == |arg| + 2 + multiset(arg)['\\'] + multiset(arg)['"'] && r[0] == '"' && r[|r| - 1] == '"'
  {
    if ' ' in arg then
      EscapedLength(arg);
      "\"" + Escaped(arg) + "\""
    else arg
  }

  /** The characters of `x` appended one by one to the last argument. */
  function Extend(args: seq<string>, x: string): seq<string>
    decreases |x|
  {
    if |x| == 0 then args else Extend(InsertLast(args, x[0]), x[1..])
  }

  lemma {:induction false} ExtendLast(args: seq<string>, x: string)
    requires |args| > 0
    ensures Extend(args, x) == args[|args| - 1 := args[|args| - 1] + x]
    decreases |x|
  {
    var n := |args|;
    if |x| == 0 {
      assert args[n - 1] + x == args[n - 1];
      assert args[n - 1 := args[n - 1]] == args;
    } else {
      var once := InsertLast(args, x[0]);
      ExtendLast(once, x[1..]);
      assert args[n - 1] + [x[0]] + x[1..] == args[n - 1] + x;
      assert once[n - 1 := once[n - 1] + x[1..]] == args[n - 1 := args[n - 1] + x];
    }
  }

  /** Inside quotes, one escaped character lands at the end of the last argument. */
  lemma QuotedCharRun(s: State, c: char)
    requires s.quoted && !s.escape && !s.newArg
    ensures Run(s, EscapeChar(c)) == s.(args := InsertLast(s.args, c))
  {
    if c == '\\' || c == '"' {
      var s1 := Step(s, '\\');
      assert s1 == s.(escape := true);
      assert EscapeChar(c) == ['\\', c];
      assert EscapeChar(c)[1..] == [c];
      assert Run(s, EscapeChar(c)) == Run(s1, [c]);
      assert [c][1..] == [];
      assert Run(s1, [c]) == Step(s1, c);
    } else {
      assert EscapeChar(c) == [c];
      assert [c][1..] == [];
    }
  }

  lemma {:induction false} QuotedRun(s: State, x: string)
    requires s.quoted && !s.escape && !s.newArg
    ensures Run(s, Escaped(x)) == s.(args := Extend(s.args, x))
    decreases |x|
  {
    if |x| > 0 {
      RunAppend(s, EscapeChar(x[0]), Escaped(x[1..]));
      QuotedCharRun(s, x[0]);
      QuotedRun(s.(args := InsertLast(s.args, x[0])), x[1..]);
    }
  }

  /** The quoted form reads back as exactly one argument: the name itself. */
  lemma EscapeArgQuotedRoundTrip(arg: string)
    requires ' ' in arg
    ensures Parse(EscapeArgQuoted(arg)) == [arg]
  {
    var open := Run(Initial, "\"");
    assert open == State(true, false, false, []);
    RunAppend(Initial, "\"", Escaped(arg));
    RunAppend(Initial, "\"" + Escaped(arg), "\"");
    QuotedRun(open, arg);
    var body := open.(args := Extend([], arg));
    ExtendLast([[arg[0]]], arg[1..]);
    assert [arg[0]] + arg[1..] == arg;
    assert Extend([], arg) == [arg];
    assert Run(body, "\"") == body.(quoted := false);
  }
}
