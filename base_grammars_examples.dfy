/** The rows of the unit tests of the lexical grammar, each as a fact about the model. Where
    the tests repeat the same rows with another separator (underscore and dash, or the five
    separators of the LineUntil parsers), one lemma states the row for every separator. */
module BaseGrammarsExamples {
  import opened Text
  import opened Combinators
  import opened BaseGrammars

  // ---------------------------------------------------------------- single characters

  /** The separator characters of the word and line lexers. */
  predicate Separator(c: char) {
    c == '_' || c == '-'
  }

  /** The bracket characters. */
  predicate Bracket(b: char) {
    b == '(' || b == ')' || b == '[' || b == ']'
  }

  /** Underscore and Dash read one separator alone. */
  lemma RunParserAlone(c: char)
    requires Separator(c)
    ensures Apply(AtLeastOnce(Is(c)), [c]) == Matched([c], [])
  {
    assert [c] == [c] + [];
    ApplyRun(Is(c), [c], [c], []);
  }

  /** Underscore and Dash read one separator before a letter. */
  lemma RunParserBeforeLetter(c: char)
    requires Separator(c)
    ensures Apply(AtLeastOnce(Is(c)), [c] + "A" + [c]) == Matched([c], "A" + [c])
  {
    Regroup([c], "A", [c]);
    ApplyRun(Is(c), [c] + "A" + [c], [c], "A" + [c]);
  }

  /** Underscore and Dash read two separators in a row. */
  lemma RunParserTwice(c: char)
    requires Separator(c)
    ensures Apply(AtLeastOnce(Is(c)), [c, c]) == Matched([c, c], [])
  {
    assert [c, c] == [c, c] + [];
    ApplyRun(Is(c), [c, c], [c, c], []);
  }

  /** The bracket parsers read one bracket alone. */
  lemma BracketParserAlone(b: char)
    requires Bracket(b)
    ensures Apply(Once(Is(b)), [b]) == Matched([b], [])
  {
    assert [b] == [b] + [];
    ApplyOnce(Is(b), b, []);
  }

  /** The bracket parsers read one bracket before a letter. */
  lemma BracketParserBeforeLetter(b: char)
    requires Bracket(b)
    ensures Apply(Once(Is(b)), [b] + "A" + [b]) == Matched([b], "A" + [b])
  {
    Regroup([b], "A", [b]);
    ApplyOnce(Is(b), b, "A" + [b]);
  }

  /** The bracket parsers read only one of two brackets in a row. */
  lemma BracketParserTwice(b: char)
    requires Bracket(b)
    ensures Apply(Once(Is(b)), [b, b]) == Matched([b], [b])
  {
    assert [b, b] == [b] + [b];
    ApplyOnce(Is(b), b, [b]);
  }

  // ---------------------------------------------------------------- lines and identifiers

  /** Line reads the whole input, white space included. */
  lemma LineParser()
    ensures Line("hello") == Matched("hello", [])
    ensures Line(" hello ") == Matched(" hello ", [])
    ensures Line("hello world") == Matched("hello world", [])
    ensures Line("hello world ") == Matched("hello world ", [])
    ensures Line(" hello world ") == Matched(" hello world ", [])
  {
  }

  /** Identifier reads a word that is the whole input. */
  lemma IdentifierWhole()
    ensures Identifier("name") == Matched("name", [])
  {
    WholeWord("name");
  }

  /** Identifier stops at the first underscore. */
  lemma IdentifierBeforeUnderscores()
    ensures Identifier("name" + "__k") == Matched("name", "__k")
  {
    assert TrimStart("__k") == "__k" by {
      TrimStartNoWhite("__k");
    }
    assert [] + "name" == "name";
    IdentifierIs("name" + "__k", [], "name", "__k");
  }

  /** A word that is the whole input is read whole. */
  lemma WholeWord(v: string)
    requires v != [] && AllIn(Letter, v)
    ensures Identifier(v) == Matched(v, [])
  {
    assert v == [] + v + [];
    IdentifierIs(v, [], v, []);
  }

  // ---------------------------------------------------------------- identifier parsers

  /** Letters, one `c` and the rest: both IdentifierUntil and IdentifierUntilOrFullWord read
      the letters and consume the `c`. */
  lemma UntilRow(c: char, v: string, rest: string)
    requires Separator(c) && AllIn(Letter, v) && (rest == [] || rest[0] != c)
    ensures IdentifierUntil(c, v + [c] + rest) == Matched(v, rest)
    ensures IdentifierUntilOrFullWord(c, v + [c] + rest) == Matched(v, rest)
  {
    IdentifierUntilIs(c, v, [c], rest);
    WordUntilIs(c, v, [c], rest);
  }

  /** IdentifierUntilUnderscore, IdentifierUntilDash and their OrFullWord forms read nothing
      before a leading separator. */
  lemma IdentifierUntilLeading(c: char)
    requires Separator(c)
    ensures IdentifierUntil(c, [c] + "hello") == Matched([], "hello")
    ensures IdentifierUntilOrFullWord(c, [c] + "hello") == Matched([], "hello")
  {
    assert [c] + "hello" == [] + [c] + "hello";
    UntilRow(c, [], "hello");
  }

  /** ... read the word before a separator in the middle. */
  lemma IdentifierUntilMiddle(c: char)
    requires Separator(c)
    ensures IdentifierUntil(c, "hello" + [c] + "world") == Matched("hello", "world")
    ensures IdentifierUntilOrFullWord(c, "hello" + [c] + "world") == Matched("hello", "world")
  {
    UntilRow(c, "hello", "world");
  }

  /** ... read the text before a trailing separator, one word or two with a space between. */
  lemma IdentifierUntilTrailing(c: char)
    requires Separator(c)
    ensures IdentifierUntil(c, "helloworld" + [c]) == Matched("helloworld", [])
    ensures IdentifierUntilOrFullWord(c, "helloworld" + [c]) == Matched("helloworld", [])
  {
    assert "helloworld" + [c] == "helloworld" + [c] + [];
    UntilRow(c, "helloworld", []);
  }

  /** The OrFullWord forms read a word that is followed by a space, not a separator. */
  lemma IdentifierUntilOrFullWordSpace(c: char)
    requires Separator(c)
    ensures IdentifierUntilOrFullWord(c, "hello" + " " + "world") == Matched("hello", "world")
  {
    assert [] + "hello" == "hello";
    Regroup("hello", " ", "world");
    assert TrimStart(" " + "world") == "world" by {
      TrimStartIs(" " + "world", " ", "world");
    }
    WordIdentifierIs(c, [], "hello", " " + "world");
  }

  // ---------------------------------------------------------------- line parsers

  /** The five LineUntil parsers the tests exercise, each with the character it stops at:
      LineUntilUnderscore, LineUntilDash, LineUntilOpenSquareBracket,
      LineUntilOpenParenthesis and LineUntilDigit (with the digit 4). */
  predicate LineSeparator(sep: CharParser, b: char) {
    || (sep == Underscore && b == '_')
    || (sep == Dash && b == '-')
    || (sep == OpenSquareBracket && b == '[')
    || (sep == OpenParenthesis && b == '(')
    || (sep == Number && b == '4')
  }

  /** Text without the separator, one separator character, and the rest: LineUntil and
      LineUntilOrFullLine read the text and consume the separator. */
  lemma LineRow(sep: CharParser, b: char, v: string, rest: string)
    requires LineSeparator(sep, b) && NoneIn(sep.k, v) && (rest == [] || !In(sep.k, rest[0]))
    ensures LineUntil(sep, v + [b] + rest) == Matched(v, rest)
    ensures LineUntilOrFullLine(sep, v + [b] + rest) == Matched(v, rest)
  {
    if sep.Once? {
      ApplyOnce(sep.k, b, rest);
    } else {
      ApplyRun(sep.k, [b] + rest, [b], rest);
    }
    Regroup(v, [b], rest);
    LineUntilIs(sep, v, [b] + rest, rest);
  }

  /** The LineUntil parsers read nothing before a leading separator. */
  lemma LineUntilLeading(sep: CharParser, b: char)
    requires LineSeparator(sep, b)
    ensures LineUntil(sep, [b] + "hello") == Matched([], "hello")
    ensures LineUntilOrFullLine(sep, [b] + "hello") == Matched([], "hello")
  {
    assert [b] + "hello" == [] + [b] + "hello";
    LineRow(sep, b, [], "hello");
  }

  /** ... read the word before a separator in the middle. */
  lemma LineUntilMiddle(sep: CharParser, b: char)
    requires LineSeparator(sep, b)
    ensures LineUntil(sep, "hello" + [b] + "world") == Matched("hello", "world")
    ensures LineUntilOrFullLine(sep, "hello" + [b] + "world") == Matched("hello", "world")
  {
    LineRow(sep, b, "hello", "world");
  }

  /** ... read the text before a trailing separator, one word or two with a space between. */
  lemma LineUntilTrailing(sep: CharParser, b: char)
    requires LineSeparator(sep, b)
    ensures LineUntil(sep, "helloworld" + [b]) == Matched("helloworld", [])
    ensures LineUntilOrFullLine(sep, "helloworld" + [b]) == Matched("helloworld", [])
    ensures LineUntil(sep, "hello world" + [b]) == Matched("hello world", [])
    ensures LineUntilOrFullLine(sep, "hello world" + [b]) == Matched("hello world", [])
  {
    LineAtEnd(sep, b, "helloworld");
    LineAtEnd(sep, b, "hello world");
  }

  /** Text without the separator, then a separator that ends the input: the text is read. */
  lemma LineAtEnd(sep: CharParser, b: char, v: string)
    requires LineSeparator(sep, b) && NoneIn(sep.k, v)
    ensures LineUntil(sep, v + [b]) == Matched(v, [])
    ensures LineUntilOrFullLine(sep, v + [b]) == Matched(v, [])
  {
    assert v + [b] == v + [b] + [];
    LineRow(sep, b, v, []);
  }

  /** The OrFullLine forms read a line without the separator whole. */
  lemma LineUntilOrFullLineWhole(sep: CharParser, b: char)
    requires LineSeparator(sep, b)
    ensures LineUntilOrFullLine(sep, "hello world") == Matched("hello world", [])
  {
    WholeLineRow(sep, b, "hello world");
  }

  /** A line read whole keeps the white space at its end. */
  lemma LineUntilOrFullLineTrailingSpace(sep: CharParser, b: char)
    requires LineSeparator(sep, b)
    ensures LineUntilOrFullLine(sep, "hello world ") == Matched("hello world ", [])
  {
    WholeLineRow(sep, b, "hello world ");
  }

  /** A non-empty line without the separator is read whole. */
  lemma WholeLineRow(sep: CharParser, b: char, s: string)
    requires LineSeparator(sep, b) && s != [] && NoneIn(sep.k, s)
    ensures LineUntilOrFullLine(sep, s) == Matched(s, [])
  {
  }

  /** LineUntilSquareBracketOrParenthesis on the rows of the LineUntil parsers, with either
      bracket. */
  lemma BracketLineRow(b: char, v: string, rest: string)
    requires b == '(' || b == '['
    requires NoneIn(Is('['), v) && NoneIn(Is('('), v) && NoneIn(Is('['), rest)
    requires rest == [] || rest[0] != b
    ensures LineUntilSquareBracketOrParenthesis(v + [b] + rest) == Matched(v, rest)
  {
    if b == '[' {
      LineRow(OpenSquareBracket, b, v, rest);
    } else {
      LineRow(OpenParenthesis, b, v, rest);
      PiecesNoneIn(Is('['), v, [b]);
      PiecesNoneIn(Is('['), v + [b], rest);
    }
  }

  /** Nothing is read before a leading bracket. */
  lemma SquareBracketOrParenthesisLeading(b: char)
    requires b == '(' || b == '['
    ensures LineUntilSquareBracketOrParenthesis([b] + "hello") == Matched([], "hello")
  {
    assert [b] + "hello" == [] + [b] + "hello";
    BracketLineRow(b, [], "hello");
  }

  /** The word before a bracket in the middle is read. */
  lemma SquareBracketOrParenthesisMiddle(b: char)
    requires b == '(' || b == '['
    ensures LineUntilSquareBracketOrParenthesis("hello" + [b] + "world") == Matched("hello", "world")
  {
    BracketLineRow(b, "hello", "world");
  }

  /** The text before a trailing bracket is read, one word or two with a space between. */
  lemma SquareBracketOrParenthesisTrailing(b: char)
    requires b == '(' || b == '['
    ensures LineUntilSquareBracketOrParenthesis("helloworld" + [b]) == Matched("helloworld", [])
    ensures LineUntilSquareBracketOrParenthesis("hello world" + [b]) == Matched("hello world", [])
  {
    BracketAtEnd(b, "helloworld");
    BracketAtEnd(b, "hello world");
  }

  /** Text without brackets, then a bracket that ends the input: the text is read. */
  lemma BracketAtEnd(b: char, v: string)
    requires b == '(' || b == '['
    requires NoneIn(Is('['), v) && NoneIn(Is('('), v)
    ensures LineUntilSquareBracketOrParenthesis(v + [b]) == Matched(v, [])
  {
    assert v + [b] == v + [b] + [];
    BracketLineRow(b, v, []);
  }

  // ---------------------------------------------------------------- the line lexers

  /** Keep(But(Any, Is(c)), s): the input without its separators. */
  lemma KeepLine(c: char, a: string)
    requires NoneIn(Is(c), a)
    ensures Keep(But(Any, Is(c)), a) == a
  {
    AnyButAll(Is(c), a);
    KeepAll(But(Any, Is(c)), a);
  }

  /** Two lines and the separator between them: the lines put together. */
  lemma LinesAround(c: char, a: string, b: string)
    requires NoneIn(Is(c), a) && NoneIn(Is(c), b)
    ensures Concat(LinesSeparatedBy(c, a + [c] + b).value) == a + b
  {
    KeepThree(But(Any, Is(c)), a, [c], b) by {
      AnyButAll(Is(c), a);
      assert NoneIn(But(Any, Is(c)), [c]);
    }
    KeepLine(c, b);
  }

  /** LinesSeparatedByUnderscore and LinesSeparatedByDash: "_hello world" gives "hello world". */
  lemma LinesAfterSeparator(c: char)
    requires Separator(c)
    ensures Concat(LinesSeparatedBy(c, [] + [c] + "hello world").value) == "hello world"
  {
    assert [] + "hello world" == "hello world";
    LinesAround(c, [], "hello world");
  }

  /** ... " hello _ world" gives " hello  world": the white space is kept. */
  lemma LinesAroundSpacedSeparator(c: char)
    requires Separator(c)
    ensures Concat(LinesSeparatedBy(c, " hello " + [c] + " world").value) == " hello  world"
  {
    assert " hello " + " world" == " hello  world";
    LinesAround(c, " hello ", " world");
  }

  /** ... "hello world" gives itself. */
  lemma LinesWithoutSeparator(c: char)
    requires Separator(c)
    ensures Concat(LinesSeparatedBy(c, "hello world").value) == "hello world"
  {
    assert NoneIn(Is(c), "hello world");
    KeepLine(c, "hello world");
  }

  /** ... "hello world_" gives "hello world". */
  lemma LinesBeforeSeparator(c: char)
    requires Separator(c)
    ensures Concat(LinesSeparatedBy(c, "hello world" + [c] + []).value) == "hello world"
  {
    assert "hello world" + [] == "hello world";
    LinesAround(c, "hello world", []);
  }

  /** ... "_hello_world" gives "helloworld". */
  lemma LinesAfterSeparators(c: char)
    requires Separator(c)
    ensures Concat(LinesSeparatedBy(c, [] + [c] + ("hello" + [c] + "world")).value) == "helloworld"
  {
    assert "hello" + "world" == "helloworld";
    assert [] + ("hello" + "world") == "helloworld";
    KeepThree(But(Any, Is(c)), [], [c], "hello" + [c] + "world") by {
      assert NoneIn(But(Any, Is(c)), [c]);
    }
    LinesAround(c, "hello", "world");
  }

  /** ... "hello_world" gives "helloworld". */
  lemma LinesSplitBySeparator(c: char)
    requires Separator(c)
    ensures Concat(LinesSeparatedBy(c, "hello" + [c] + "world").value) == "helloworld"
  {
    assert "hello" + "world" == "helloworld";
    LinesAround(c, "hello", "world");
  }

  // ---------------------------------------------------------------- the word lexers

  /** The part of WordsOnly that survives putting strings side by side: only letters, white
      space and `c`, and white space after a `c` leads up to a letter. */
  predicate WordsInside(c: char, s: string) {
    (forall i :: 0 <= i < |s| ==> IsLetter(s[i]) || IsWhiteSpace(s[i]) || s[i] == c) &&
    (forall j :: 0 <= j < |s| - 1 ==> SpaceAfterSeparator(c, s, j))
  }

  /** White space straight after a `c` at `j` leads up to a letter. */
  predicate SpaceAfterSeparator(c: char, s: string, j: nat)
    requires j < |s| - 1
  {
    s[j] == c && IsWhiteSpace(s[j + 1]) ==> LetterAfterWhiteSpace(s[j + 1..])
  }

  /** Text after white space that leads up to a letter still does. */
  lemma LetterAfterAppend(t: string, y: string)
    requires LetterAfterWhiteSpace(t)
    ensures LetterAfterWhiteSpace(t + y)
  {
    var n := |t| - |TrimStart(t)|;
    TrimStartWhite(t);
    assert t + y == t[..n] + (TrimStart(t) + y);
    TrimStartIs(t + y, t[..n], TrimStart(t) + y);
  }

  /** Two pieces of words, white space and separators stay so when joined, provided white
      space straight after a separator at the junction leads up to a letter. */
  lemma InsideAppend(c: char, x: string, y: string)
    requires WordsInside(c, x) && WordsInside(c, y)
    requires x != [] && x[|x| - 1] == c && y != [] && IsWhiteSpace(y[0]) ==> LetterAfterWhiteSpace(y)
    ensures WordsInside(c, x + y)
  {
    var s := x + y;
    forall i | 0 <= i < |s| ensures IsLetter(s[i]) || IsWhiteSpace(s[i]) || s[i] == c {
      if i < |x| { assert s[i] == x[i]; } else { assert s[i] == y[i - |x|]; }
    }
    forall j | 0 <= j < |s| - 1 ensures SpaceAfterSeparator(c, s, j) {
      if j < |x| - 1 {
        assert SpaceAfterSeparator(c, x, j);
        assert s[j] == x[j] && s[j + 1] == x[j + 1];
        if x[j] == c && IsWhiteSpace(x[j + 1]) {
          assert s[j + 1..] == x[j + 1..] + y;
          LetterAfterAppend(x[j + 1..], y);
        }
      } else if j == |x| - 1 {
        assert s[j] == x[j] && s[j + 1] == y[0] && s[j + 1..] == y;
      } else {
        assert SpaceAfterSeparator(c, y, j - |x|);
        assert s[j] == y[j - |x|] && s[j + 1] == y[j - |x| + 1];
        assert s[j + 1..] == y[j - |x| + 1..];
      }
    }
  }

  /** A word after something the lexer reads: read too, and its letters kept. */
  lemma StepWord(c: char, x: string, a: string)
    requires WordsInside(c, x) && a != [] && AllIn(Letter, a)
    ensures WordsInside(c, x + a) && Keep(Letter, x + a) == Keep(Letter, x) + a
    ensures IsLetter((x + a)[|x + a| - 1])
  {
    assert (x + a)[|x + a| - 1] == a[|a| - 1];
    InsideAppend(c, x, a);
    KeepAppend(Letter, x, a);
    KeepAll(Letter, a);
  }

  /** A word alone. */
  lemma StartWord(c: char, a: string)
    requires Separator(c) && AllIn(Letter, a)
    ensures WordsInside(c, a) && Keep(Letter, a) == a
  {
    KeepAll(Letter, a);
    forall j | 0 <= j < |a| - 1 ensures SpaceAfterSeparator(c, a, j) {
      assert IsLetter(a[j]);
    }
  }

  /** A separator alone. */
  lemma StartSeparator(c: char)
    requires Separator(c)
    ensures WordsInside(c, [c]) && Keep(Letter, [c]) == []
  {
  }

  /** A space alone. */
  lemma StartSpace(c: char)
    requires Separator(c)
    ensures WordsInside(c, " ") && Keep(Letter, " ") == []
  {
  }

  /** A separator or a space after something the lexer reads, where a space does not come
      straight after a separator: read too, and nothing kept. */
  lemma StepMark(c: char, x: string, m: string)
    requires Separator(c) && WordsInside(c, x)
    requires m == [c] || (m == " " && (x == [] || IsLetter(x[|x| - 1])))
    ensures WordsInside(c, x + m) && Keep(Letter, x + m) == Keep(Letter, x)
  {
    InsideAppend(c, x, m);
    KeepAppend(Letter, x, m);
    KeepNone(Letter, m);
  }

  /** A space and a word after anything the lexer reads. */
  lemma StepSpacedWord(c: char, x: string, b: string)
    requires Separator(c) && WordsInside(c, x) && b != [] && AllIn(Letter, b)
    ensures WordsInside(c, x + " " + b) && Keep(Letter, x + " " + b) == Keep(Letter, x) + b
  {
    StartSpace(c);
    StepWord(c, " ", b);
    assert [] + b == b;
    assert LetterAfterWhiteSpace(" " + b) by {
      TrimStartIs(" " + b, " ", b);
    }
    InsideAppend(c, x, " " + b);
    KeepAppend(Letter, x, " " + b);
    Regroup(x, " ", b);
  }

  /** A separator and a word. */
  lemma StartSeparatorWord(c: char, a: string)
    requires Separator(c) && a != [] && AllIn(Letter, a)
    ensures WordsInside(c, [c] + a) && Keep(Letter, [c] + a) == a && ([c] + a)[0] == c
    ensures IsLetter(([c] + a)[|a|])
  {
    StartSeparator(c);
    StepWord(c, [c], a);
    assert [] + a == a;
  }

  /** Input the lexer reads inside, and whose white space at the start leads up to a letter: the words
      read, put together, are its letters. */
  lemma ReadAll(c: char, s: string, letters: string)
    requires Separator(c) && WordsInside(c, s)
    requires s == [] || !IsWhiteSpace(s[0]) || LetterAfterWhiteSpace(s)
    requires Keep(Letter, s) == letters
    ensures Concat(IdentifiersSeparatedBy(c, s).value) == letters
  {
    assert WordsOnly(c, s) by {
      forall j | 0 <= j < |s| - 1 && s[j] == c && IsWhiteSpace(s[j + 1])
        ensures LetterAfterWhiteSpace(s[j + 1..])
      {
        assert SpaceAfterSeparator(c, s, j);
      }
    }
    IdentifiersReadAll(c, s);
  }

  /** Rows "_hello world" and "-hello world": a separator first, then two words. */
  lemma WordsAfterSeparator(c: char, a: string, b: string)
    requires Separator(c) && a != [] && b != [] && AllIn(Letter, a) && AllIn(Letter, b)
    ensures Concat(IdentifiersSeparatedBy(c, [c] + a + " " + b).value) == a + b
  {
    StartSeparatorWord(c, a);
    StepMark(c, [c] + a, " ");
    StepWord(c, [c] + a + " ", b);
    ReadAll(c, [c] + a + " " + b, a + b);
  }

  /** Rows " hello _ world" and " hello - world": white space at the start and around the
      separator. */
  lemma WordsAroundSpacedSeparator(c: char, a: string, b: string)
    requires Separator(c) && a != [] && b != [] && AllIn(Letter, a) && AllIn(Letter, b)
    ensures Concat(IdentifiersSeparatedBy(c, " " + a + " " + [c] + " " + b).value) == a + b
  {
    var x := " " + a + " " + [c];
    SpacedWordThenSeparator(c, a);
    StepSpacedWord(c, x, b);
    LetterAfterAppend(x, " ");
    LetterAfterAppend(x + " ", b);
    ReadAll(c, x + " " + b, a + b);
  }

  /** White space, a word, white space and a separator. */
  lemma SpacedWordThenSeparator(c: char, a: string)
    requires Separator(c) && a != [] && AllIn(Letter, a)
    ensures var x := " " + a + " " + [c];
      WordsInside(c, x) && Keep(Letter, x) == a && LetterAfterWhiteSpace(x)
  {
    StartSpace(c);
    StepWord(c, " ", a);
    assert [] + a == a;
    StepMark(c, " " + a, " ");
    StepMark(c, " " + a + " ", [c]);
    assert LetterAfterWhiteSpace(" " + a + " " + [c]) by {
      LeadingWord(a, " " + [c]);
      Regroup(" " + a, " ", [c]);
    }
  }

  /** White space and a word lead up to a letter, whatever follows. */
  lemma LeadingWord(a: string, y: string)
    requires a != [] && AllIn(Letter, a)
    ensures LetterAfterWhiteSpace(" " + a + y)
  {
    TrimStartIs(" " + a, " ", a);
    LetterAfterAppend(" " + a, y);
  }

  /** Rows "hello world": two words and no separator. */
  lemma WordsSplitBySpace(c: char, a: string, b: string)
    requires Separator(c) && a != [] && b != [] && AllIn(Letter, a) && AllIn(Letter, b)
    ensures Concat(IdentifiersSeparatedBy(c, a + " " + b).value) == a + b
  {
    StartWord(c, a);
    StepMark(c, a, " ");
    StepWord(c, a + " ", b);
    ReadAll(c, a + " " + b, a + b);
  }

  /** Rows "hello world_" and "hello world-": a separator last. */
  lemma WordsBeforeSeparator(c: char, a: string, b: string)
    requires Separator(c) && a != [] && b != [] && AllIn(Letter, a) && AllIn(Letter, b)
    ensures Concat(IdentifiersSeparatedBy(c, a + " " + b + [c]).value) == a + b
  {
    StartWord(c, a);
    StepMark(c, a, " ");
    StepWord(c, a + " ", b);
    StepMark(c, a + " " + b, [c]);
    ReadAll(c, a + " " + b + [c], a + b);
  }

  /** Rows "_hello_world" and "-hello-world": separators before and between the words. */
  lemma WordsAfterSeparators(c: char, a: string, b: string)
    requires Separator(c) && a != [] && b != [] && AllIn(Letter, a) && AllIn(Letter, b)
    ensures Concat(IdentifiersSeparatedBy(c, [c] + a + [c] + b).value) == a + b
  {
    StartSeparatorWord(c, a);
    StepMark(c, [c] + a, [c]);
    StepWord(c, [c] + a + [c], b);
    ReadAll(c, [c] + a + [c] + b, a + b);
  }

  /** Rows "hello_world" and "hello-world": a separator between the words. */
  lemma WordsSplitBySeparator(c: char, a: string, b: string)
    requires Separator(c) && a != [] && b != [] && AllIn(Letter, a) && AllIn(Letter, b)
    ensures Concat(IdentifiersSeparatedBy(c, a + [c] + b).value) == a + b
  {
    StartWord(c, a);
    StepMark(c, a, [c]);
    StepWord(c, a + [c], b);
    ReadAll(c, a + [c] + b, a + b);
  }
}
