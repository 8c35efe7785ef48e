/**
 * The command tokenizer of the message-created handler (`parse_args`): a left fold over the
 * characters of the message text that groups double-quoted runs, honours backslash escapes and
 * splits on whitespace.
 */
module ArgParser {

  /**
   * Rust's `char::is_whitespace`: the characters with the Unicode White_Space property
   * (U+0009..U+000D, U+0020, U+0085, U+00A0, U+1680, U+2000..U+200A, U+2028, U+2029, U+202F,
   * U+205F, U+3000), compared in code-point order.
   */
  predicate IsWhitespace(c: char) {
    if c <= ' ' then
      c == ' ' || '\t' <= c <= '\r'
    else if c < '\U{0085}' then
      false
    else
      c == '\U{0085}' || c == '\U{00A0}' || c == '\U{1680}' || '\U{2000}' <= c <= '\U{200A}'
      || c == '\U{2028}' || c == '\U{2029}' || c == '\U{202F}' || c == '\U{205F}' || c == '\U{3000}'
  }

  /** The fold state (`ParseState`): inside quotes, next char escaped, next char opens an argument. */
  datatype State = State(quoted: bool, escape: bool, newArg: bool, args: seq<string>)

  const Initial: State := State(false, false, false, [])

  /** The `insert_char_to_last_arg` closure: open a first argument, or extend the last one. */
  function InsertLast(args: seq<string>, c: char): seq<string> {
    if |args| == 0 then [[c]] else args[|args| - 1 := args[|args| - 1] + [c]]
  }

  /** One step of the fold, branch for branch. */
  function Step(s: State, c: char): State {
    if s.escape then s.(args := InsertLast(s.args, c), escape := false)
    else if c == '"' then s.(quoted := !s.quoted)
    else if IsWhitespace(c) then
      (if s.quoted then s.(args := InsertLast(s.args, c)) else s.(newArg := true))
    else if c == '\\' then s.(escape := true)
    else if s.newArg then s.(args := s.args + [[c]], newArg := false)
    else s.(args := InsertLast(s.args, c))
  }

  /** The fold over a whole text. */
  function Run(s: State, t: string): State
    decreases |t|
  {
    if |t| == 0 then s else Run(Step(s, t[0]), t[1..])
  }

  /** Arguments are never dropped, and each character opens at most one. */
  lemma {:induction false} RunLength(s: State, t: string)
    ensures |s.args| <= |Run(s, t).args| <= |s.args| + |t|
    decreases |t|
  {
    if |t| > 0 {
      RunLength(Step(s, t[0]), t[1..]);
    }
  }

  /** What `parse_args` returns for `text`: at most one argument per character. */
  function Parse(text: string): (r: seq<string>)
    ensures |r| <= |text|
  {
    RunLength(Initial, text);
    Run(Initial, text).args
  }

  lemma {:induction false} RunAppend(s: State, a: string, b: string)
    ensures Run(s, a + b) == Run(Run(s, a), b)
    decreases |a|
  {
    if |a| == 0 {
      assert a + b == b;
    } else {
      assert (a + b)[0] == a[0];
      assert (a + b)[1..] == a[1..] + b;
      RunAppend(Step(s, a[0]), a[1..], b);
    }
  }

  lemma RunSnoc(s: State, t: string, c: char)
    ensures Run(s, t + [c]) == Step(Run(s, t), c)
  {
    RunAppend(s, t, [c]);
  }

  /** The fold written as the loop it is: the method walks the text once, updating the flags. */
  method ParseArgs(text: string) returns (args: seq<string>)
    ensures args == Parse(text)
  {
    var quoted, escape, newArg := false, false, false;
    args := [];
    var i := 0;
    while i < |text|
      invariant 0 <= i <= |text|
      invariant Run(Initial, text[..i]) == State(quoted, escape, newArg, args)
    {
      var c := text[i];
      RunSnoc(Initial, text[..i], c);
      assert text[..i + 1] == text[..i] + [c];
      if escape {
        args := InsertLast(args, c);
        escape := false;
      } else if c == '"' {
        quoted := !quoted;
      } else if IsWhitespace(c) {
        if quoted {
          args := InsertLast(args, c);
        } else {
          newArg := true;
        }
      } else if c == '\\' {
        escape := true;
      } else if newArg {
        args := args + [[c]];
        newArg := false;
      } else {
        args := InsertLast(args, c);
      }
      i := i + 1;
    }
    assert text[..i] == text;
  }
}
