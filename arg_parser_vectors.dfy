/**
 * The unit-test vectors of `parse_args`, and two vectors that show how an escape or quoted
 * whitespace after a space behaves. Longer texts are written as concatenations of short pieces
 * so that the fold can be evaluated piece by piece (`ArgParser.RunAppend`).
 */
module ArgParserVectors {
  import opened ArgParser

  lemma VectorSimple()
    ensures var p := Parse("a b c");
      |p| == 3 && p[0] == "a" && p[1] == "b" && p[2] == "c"
  {
  }

  lemma VectorQuotedPair()
    ensures var p := Parse("a " + "\"b c\"");
      |p| == 2 && p[0] == "a" && p[1] == "b c"
  {
    RunAppend(Initial, "a ", "\"b c\"");
    var s1 := Run(Initial, "a ");
    assert |s1.args| == 1 && s1.args[0] == "a" && !s1.quoted && !s1.escape && s1.newArg;
  }

  lemma VectorQuotedWords()
    ensures var p := Parse("\"a\" " + "\"b\"");
      |p| == 2 && p[0] == "a" && p[1] == "b"
  {
    RunAppend(Initial, "\"a\" ", "\"b\"");
    var s1 := Run(Initial, "\"a\" ");
    assert |s1.args| == 1 && s1.args[0] == "a" && !s1.quoted && !s1.escape && s1.newArg;
  }

  lemma VectorTwoQuotedPairs()
    ensures var p := Parse("\"a b\" " + "\"c d\"");
      |p| == 2 && p[0] == "a b" && p[1] == "c d"
  {
    RunAppend(Initial, "\"a b\" ", "\"c d\"");
    var s1 := Run(Initial, "\"a b\" ");
    assert |s1.args| == 1 && s1.args[0] == "a b" && !s1.quoted && !s1.escape && s1.newArg;
  }

  lemma VectorEscapedSpace()
    ensures var p := Parse("a\\ b" + " c");
      |p| == 2 && p[0] == "a b" && p[1] == "c"
  {
    RunAppend(Initial, "a\\ b", " c");
    var s1 := Run(Initial, "a\\ b");
    assert |s1.args| == 1 && s1.args[0] == "a b" && !s1.quoted && !s1.escape && !s1.newArg;
  }

  lemma VectorEscapedQuote()
    ensures var p := Parse("\"a\\\"b\"" + " c");
      |p| == 2 && p[0] == "a\"b" && p[1] == "c"
  {
    RunAppend(Initial, "\"a\\\"b\"", " c");
    var s1 := Run(Initial, "\"a\\\"b\"");
    assert |s1.args| == 1 && s1.args[0] == "a\"b" && !s1.quoted && !s1.escape && !s1.newArg;
  }

  lemma VectorSymbols()
    ensures var p := Parse("a#b " + "c&d " + "e^f");
      |p| == 3 && p[0] == "a#b" && p[1] == "c&d" && p[2] == "e^f"
  {
    RunAppend(Initial, "a#b ", "c&d ");
    RunAppend(Initial, "a#b " + "c&d ", "e^f");
    var s1 := Run(Initial, "a#b ");
    assert |s1.args| == 1 && s1.args[0] == "a#b" && !s1.quoted && !s1.escape && s1.newArg;
    var s2 := Run(s1, "c&d ");
    assert |s2.args| == 2 && s2.args[0] == "a#b" && s2.args[1] == "c&d" && !s2.quoted && !s2.escape && s2.newArg;
  }

  lemma VectorQuotedTriple()
    ensures var p := Parse("\"a b c\" " + "d e");
      |p| == 3 && p[0] == "a b c" && p[1] == "d" && p[2] == "e"
  {
    RunAppend(Initial, "\"a b c\" ", "d e");
    var s1 := Run(Initial, "\"a b c\" ");
    assert |s1.args| == 1 && s1.args[0] == "a b c" && !s1.quoted && !s1.escape && s1.newArg;
  }

  lemma VectorOuterSpaces()
    ensures var p := Parse("  a b" + " c  ");
      |p| == 3 && p[0] == "a" && p[1] == "b" && p[2] == "c"
  {
    RunAppend(Initial, "  a b", " c  ");
    var s1 := Run(Initial, "  a b");
    assert |s1.args| == 2 && s1.args[0] == "a" && s1.args[1] == "b" && !s1.quoted && !s1.escape && !s1.newArg;
  }

  lemma VectorOuterSpacesQuoted()
    ensures var p := Parse("  \"a b\"" + " c  ");
      |p| == 2 && p[0] == "a b" && p[1] == "c"
  {
    RunAppend(Initial, "  \"a b\"", " c  ");
    var s1 := Run(Initial, "  \"a b\"");
    assert |s1.args| == 1 && s1.args[0] == "a b" && !s1.quoted && !s1.escape && !s1.newArg;
  }

  lemma VectorEmpty()
    ensures Parse("") == []
  {
  }

  lemma VectorSpaces()
    ensures Parse("     ") == []
  {
  }

  lemma VectorQuotedSpaces()
    ensures var p := Parse(" \"  \" "); |p| == 1 && p[0] == "  "
  {
  }

  /** An escape right after a space extends the previous argument; the next letter opens one. */
  lemma VectorEscapeAfterSpace()
    ensures var p := Parse("a \\bc"); |p| == 2 && p[0] == "ab" && p[1] == "c"
  {
  }

  /** Quoted whitespace right after a space extends the previous argument. */
  lemma VectorQuotedSpaceAfterSpace()
    ensures var p := Parse("a \" b\""); |p| == 2 && p[0] == "a " && p[1] == "b"
  {
  }
}
