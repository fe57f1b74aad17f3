/** The lexical grammar layer: the character-level parsers the file-name parsers are
    built from. */
module BaseGrammars {
  import opened Text
  import opened Combinators

  // ---------------------------------------------------------------- basic parsers

  /** Underscore and Dash read a run of their character; the four brackets read one. */
  const Underscore: CharParser := AtLeastOnce(Is('_'))
  const Dash: CharParser := AtLeastOnce(Is('-'))
  const OpenParenthesis: CharParser := Once(Is('('))
  const ClosedParenthesis: CharParser := Once(Is(')'))
  const OpenSquareBracket: CharParser := Once(Is('['))
  const ClosedSquareBracket: CharParser := Once(Is(']'))
  /** Parse.Number: a run of ASCII digits (Sprache reads every char.IsNumber character). */
  const Number: CharParser := AtLeastOnce(Digit)

  /** Line: the whole input, which must not be empty. */
  function Line(s: string): (r: Reply<string>)
    ensures r.Matched? <==> s != []
    ensures r.Matched? ==> r.value == s && r.rest == []
  {
    Apply(AtLeastOnce(Any), s)
  }

  /** Identifier: a run of letters, with the white space before and after it consumed. */
  function Identifier(s: string): Reply<string> {
    SkipWhiteSpaceAfter(Apply(AtLeastOnce(Letter), TrimStart(s)))
  }

  /** Identifier matches when the input starts, after white space, with a letter; it reads
      the whole letter run and the white space after it. */
  lemma IdentifierMatches(s: string)
    ensures var r, t := Identifier(s), TrimStart(s);
      (r.Matched? <==> t != [] && IsLetter(t[0])) &&
      (r.Matched? ==> r.value != [] && IsLongestPrefix(Letter, r.value, t) &&
                      r.rest == TrimStart(t[|r.value|..]))
  {
  }

  /** White space, a run of letters and then something other than a letter: Identifier reads
      the run, and the white space after it. */
  lemma IdentifierIs(s: string, lead: string, v: string, rest: string)
    requires s == lead + v + rest && AllIn(WhiteSpace, lead)
    requires v != [] && AllIn(Letter, v) && (rest == [] || !IsLetter(rest[0]))
    ensures Identifier(s) == Matched(v, TrimStart(rest))
  {
    assert TrimStart(s) == v + rest by {
      Regroup(lead, v, rest);
      assert (v + rest)[0] == v[0] && In(Letter, v[0]);
      TrimStartIs(s, lead, v + rest);
    }
    ApplyRun(Letter, v + rest, v, rest);
  }

  // ---------------------------------------------------------------- identifier parsers

  /** IdentifierUntilUnderscore (c = '_') and IdentifierUntilDash (c = '-'): the letters
      before a run of `c`, which is consumed. */
  function IdentifierUntil(c: char, s: string): (r: Reply<string>)
    ensures r.Matched? && !IsLetter(c) ==> IsLongestPrefix(Letter, r.value, s)
    ensures r.Matched? ==> |r.value| < |s| && s[|r.value|] == c
    ensures r.Matched? ==> r.rest == Apply(AtLeastOnce(Is(c)), s[|r.value|..]).rest
    ensures !IsLetter(c) ==> (r.Matched? <==> Span(Letter, s) < |s| && s[Span(Letter, s)] == c)
  {
    LettersBeforeSeparator(c, s);
    Until(Letter, AtLeastOnce(Is(c)), s)
  }

  /** Letters, a run of `c`, then something other than `c`: IdentifierUntil reads the letters
      and consumes the run. */
  lemma IdentifierUntilIs(c: char, v: string, run: string, rest: string)
    requires !IsLetter(c) && AllIn(Letter, v)
    requires run != [] && AllIn(Is(c), run) && (rest == [] || rest[0] != c)
    ensures IdentifierUntil(c, v + run + rest) == Matched(v, rest)
  {
    var s := v + run + rest;
    assert s[..|v|] == v && s[|v|] == run[0];
    SpanIs(But(Letter, Is(c)), s, |v|);
    assert s[|v|..] == run + rest by {
      Regroup(v, run, rest);
    }
    ApplyRun(Is(c), run + rest, run, rest);
  }

  /** Letters followed by a character that is neither a letter nor `c`: IdentifierUntil does
      not match. */
  lemma IdentifierUntilFails(c: char, v: string, rest: string)
    requires !IsLetter(c) && AllIn(Letter, v)
    requires rest != [] && rest[0] != c && !IsLetter(rest[0])
    ensures IdentifierUntil(c, v + rest) == NoMatch
  {
    var s := v + rest;
    assert s[..|v|] == v && s[|v|] == rest[0];
    SpanIs(Letter, s, |v|);
  }

  /** Without letter separators, the letters that are not `c` are just the letters. */
  lemma LettersBeforeSeparator(c: char, s: string)
    ensures !IsLetter(c) ==> Span(But(Letter, Is(c)), s) == Span(Letter, s)
  {
    if IsLetter(c) {
      return;
    }
    var n := Span(Letter, s);
    assert AllIn(But(Letter, Is(c)), s[..n]) by {
      forall i | 0 <= i < n ensures In(But(Letter, Is(c)), s[..n][i]) {
        assert In(Letter, s[i]);
      }
    }
    SpanIs(But(Letter, Is(c)), s, n);
  }

  /** IdentifierUntilUnderscoreOrFullWord and IdentifierUntilDashOrFullWord: the letters
      before a run of `c`, or else an Identifier. */
  function IdentifierUntilOrFullWord(c: char, s: string): (r: Reply<string>)
    ensures Consumes(r, s)
  {
    var first := IdentifierUntil(c, s);
    var second := Identifier(s);
    WordProgress(c, s);
    OrConsumes(first, second, s);
    Or(first, second, s)
  }

  /** Where IdentifierUntil matches, IdentifierUntilOrFullWord gives its reply. */
  lemma WordUntilIs(c: char, v: string, run: string, rest: string)
    requires !IsLetter(c) && AllIn(Letter, v)
    requires run != [] && AllIn(Is(c), run) && (rest == [] || rest[0] != c)
    ensures IdentifierUntilOrFullWord(c, v + run + rest) == Matched(v, rest)
  {
    IdentifierUntilIs(c, v, run, rest);
    WordIs(c, v + run + rest);
  }

  /** White space, a run of letters and something other than a letter or `c`:
      IdentifierUntil fails, and IdentifierUntilOrFullWord reads the word as Identifier does. */
  lemma WordIdentifierIs(c: char, lead: string, v: string, rest: string)
    requires !IsLetter(c) && !IsWhiteSpace(c) && AllIn(WhiteSpace, lead)
    requires v != [] && AllIn(Letter, v) && (rest == [] || (!IsLetter(rest[0]) && rest[0] != c))
    ensures IdentifierUntilOrFullWord(c, lead + v + rest) == Matched(v, TrimStart(rest))
  {
    var s := lead + v + rest;
    if lead == [] {
      assert s == v + rest;
      if rest == [] {
        assert s == v;
        SpanIs(Letter, s, |s|);
      } else {
        IdentifierUntilFails(c, v, rest);
      }
    } else {
      assert s[0] == lead[0] && In(WhiteSpace, lead[0]);
      SpanIs(Letter, s, 0);
    }
    IdentifierIs(s, lead, v, rest);
    WordIs(c, s);
  }

  /** Both alternatives of IdentifierUntilOrFullWord consume input and leave a suffix. */
  lemma WordProgress(c: char, s: string)
    ensures Consumes(IdentifierUntil(c, s), s)
    ensures Consumes(Identifier(s), s)
  {
    UntilProgress(c, s);
    IdentifierProgress(s);
  }

  lemma UntilProgress(c: char, s: string)
    ensures Consumes(IdentifierUntil(c, s), s)
  {
    var r := IdentifierUntil(c, s);
    if r.Matched? {
      var n := |r.value|;
      var run := Apply(AtLeastOnce(Is(c)), s[n..]);
      assert run.value + r.rest == s[n..];
      assert r.rest == s[n..][|run.value|..];
    }
  }

  lemma IdentifierProgress(s: string)
    ensures Consumes(Identifier(s), s)
  {
    var t := TrimStart(s);
    var a := Apply(AtLeastOnce(Letter), t);
    if a.Matched? {
      var rest := TrimStart(a.rest);
      assert IsSuffix(a.rest, t) by {
        assert t[|a.value|..] == a.rest;
      }
      SuffixTrans(a.rest, t, s);
      SuffixTrans(rest, a.rest, s);
    }
  }

  /** For a separator that is neither a letter nor white space, IdentifierUntilOrFullWord
      matches exactly when the input starts with the separator or, after white space, with a
      letter, and its value is then the leading letter run. */
  lemma IdentifierUntilOrFullWordMatches(c: char, s: string)
    requires !IsLetter(c) && !IsWhiteSpace(c)
    ensures var r := IdentifierUntilOrFullWord(c, s);
      (r.Matched? <==> (s != [] && s[0] == c) || (TrimStart(s) != [] && IsLetter(TrimStart(s)[0]))) &&
      (r.Matched? ==> IsLongestPrefix(Letter, r.value, TrimStart(s)))
  {
    IdentifierMatches(s);
    UntilProgress(c, s);
    UntilStartsWord(c, s);
  }

  /** When IdentifierUntil matches, the input starts with a letter or with `c`, so there is
      no white space to skip in front of it. */
  lemma UntilStartsWord(c: char, s: string)
    ensures !IsLetter(c) && !IsWhiteSpace(c) && IdentifierUntil(c, s).Matched? ==> TrimStart(s) == s
  {
    var r := IdentifierUntil(c, s);
    if !IsLetter(c) && !IsWhiteSpace(c) && r.Matched? {
      if r.value == [] {
        assert s[0] == c;
      } else {
        assert s[0] == r.value[0] && In(Letter, r.value[0]);
      }
      TrimStartNoWhite(s);
    }
  }

  // ---------------------------------------------------------------- line parsers

  /** LineUntilDash, LineUntilUnderscore, LineUntilOpenSquareBracket,
      LineUntilOpenParenthesis and LineUntilDigit: everything before the first place `sep`
      matches; `sep` is consumed. */
  function LineUntil(sep: CharParser, s: string): (r: Reply<string>)
    ensures r.Matched? <==> !NoneIn(sep.k, s)
    ensures r.Matched? ==> IsLongestPrefix(But(Any, sep.k), r.value, s) && |r.value| < |s|
    ensures r.Matched? ==> In(sep.k, s[|r.value|]) && r.rest == Apply(sep, s[|r.value|..]).rest
  {
    var n := Span(But(Any, sep.k), s);
    assert n < |s| ==> In(sep.k, s[n]) by {
      if n < |s| {
        InAnyBut(sep.k, s[n]);
      }
    }
    Until(Any, sep, s)
  }

  /** Text without a separator character, then what `sep` reads: LineUntil reads the text
      and consumes what `sep` reads. */
  lemma LineUntilIs(sep: CharParser, v: string, u: string, rest: string)
    requires NoneIn(sep.k, v) && Apply(sep, u).Matched? && Apply(sep, u).rest == rest
    ensures LineUntil(sep, v + u) == Matched(v, rest)
  {
    var s := v + u;
    assert s[..|v|] == v && s[|v|..] == u && s[|v|] == u[0];
    AnyButAll(sep.k, v);
    InAnyBut(sep.k, u[0]);
    SpanIs(But(Any, sep.k), s, |v|);
  }

  /** LineUntilDashOrFullLine, LineUntilUnderscoreOrFullLine, LineUntilDigitOrFullLine:
      LineUntil when `sep` occurs, else the whole line. */
  function LineUntilOrFullLine(sep: CharParser, s: string): (r: Reply<string>)
    ensures r.Matched? <==> s != []
    ensures !NoneIn(sep.k, s) ==> r == LineUntil(sep, s)
    ensures NoneIn(sep.k, s) && s != [] ==> r == Matched(s, [])
  {
    var first := LineUntil(sep, s);
    LineProgress(sep, s);
    Or(first, Line(s), s)
  }

  /** LineUntil consumes input and leaves a suffix. */
  lemma LineProgress(sep: CharParser, s: string)
    ensures Consumes(LineUntil(sep, s), s)
  {
    var r := LineUntil(sep, s);
    if r.Matched? {
      var n := |r.value|;
      assert Apply(sep, s[n..]).value + r.rest == s[n..];
      assert r.rest == s[|s| - |r.rest|..];
    }
  }

  /** LineUntilSquareBracketOrParenthesis: LineUntilOpenSquareBracket when the input holds
      a '[', else LineUntilOpenParenthesis. */
  function LineUntilSquareBracketOrParenthesis(s: string): (r: Reply<string>)
    ensures !NoneIn(Is('['), s) ==> r == LineUntil(OpenSquareBracket, s)
    ensures NoneIn(Is('['), s) ==> r == LineUntil(OpenParenthesis, s)
    ensures r.Matched? <==> !NoneIn(Is('['), s) || !NoneIn(Is('('), s)
  {
    var first := LineUntil(OpenSquareBracket, s);
    LineProgress(OpenSquareBracket, s);
    Or(first, LineUntil(OpenParenthesis, s), s)
  }

  // ---------------------------------------------------------------- lexers

  /** IdentifiersSeparatedByUnderscore (c = '_') and IdentifiersSeparatedByDash (c = '-'):
      IdentifierUntilOrFullWord repeated for as long as it matches. It always matches and
      leaves a suffix of the input. */
  function IdentifiersSeparatedBy(c: char, s: string): (r: Reply<seq<string>>)
    ensures r.Matched? && IsSuffix(r.rest, s)
    decreases |s|
  {
    match IdentifierUntilOrFullWord(c, s)
    case NoMatch => Matched([], s)
    case Matched(v, rest) =>
      var tail := IdentifiersSeparatedBy(c, rest);
      SuffixTrans(tail.rest, rest, s);
      Matched([v] + tail.value, tail.rest)
  }

  /** The words read, put together and followed by the letters of the input left over,
      are the letters of the input. */
  lemma {:induction false} IdentifiersAreLetters(c: char, s: string)
    requires !IsLetter(c)
    ensures var r := IdentifiersSeparatedBy(c, s);
      Concat(r.value) + Keep(Letter, r.rest) == Keep(Letter, s)
    decreases |s|
  {
    var w := IdentifierUntilOrFullWord(c, s);
    IdentifiersStep(c, s);
    if w.Matched? {
      WordLetters(c, s);
      IdentifiersAreLetters(c, w.rest);
      var tail := IdentifiersSeparatedBy(c, w.rest);
      LettersStep(Keep(Letter, s), w.value, Keep(Letter, w.rest), tail.value, Keep(Letter, tail.rest));
    }
  }

  /** One step of the identifier lexer. */
  lemma IdentifiersStep(c: char, s: string)
    ensures var w := IdentifierUntilOrFullWord(c, s);
      IdentifiersSeparatedBy(c, s) ==
        if w.NoMatch? then Matched([], s)
        else Matched([w.value] + IdentifiersSeparatedBy(c, w.rest).value,
                     IdentifiersSeparatedBy(c, w.rest).rest)
  {
  }

  lemma LettersStep(all: string, v: string, rest: string, words: seq<string>, left: string)
    requires all == v + rest && Concat(words) + left == rest
    ensures Concat([v] + words) + left == all
  {
    ConcatCons(v, words);
    var cw := Concat(words);
    assert (v + cw) + left == v + (cw + left);
  }

  /** IdentifierUntilOrFullWord is IdentifierUntil when that matches, else Identifier. */
  lemma WordIs(c: char, s: string)
    ensures IdentifierUntilOrFullWord(c, s) ==
      if IdentifierUntil(c, s).Matched? then IdentifierUntil(c, s) else Identifier(s)
  {
    UntilProgress(c, s);
  }

  /** One IdentifierUntilOrFullWord step reads the letters in front of what it leaves. */
  lemma WordLetters(c: char, s: string)
    requires !IsLetter(c)
    ensures var r := IdentifierUntilOrFullWord(c, s);
      r.Matched? ==> Keep(Letter, s) == r.value + Keep(Letter, r.rest)
  {
    WordIs(c, s);
    UntilLetters(c, s);
    IdentifierLetters(s);
  }

  lemma UntilLetters(c: char, s: string)
    requires !IsLetter(c)
    ensures var r := IdentifierUntil(c, s);
      r.Matched? ==> Keep(Letter, s) == r.value + Keep(Letter, r.rest)
  {
    var r := IdentifierUntil(c, s);
    if r.Matched? {
      var run := Apply(AtLeastOnce(Is(c)), s[|r.value|..]);
      SplitAt(s, r.value, run.value, r.rest);
      forall i | 0 <= i < |run.value| ensures !In(Letter, run.value[i]) {
        assert In(Is(c), run.value[i]);
      }
      KeepThree(Letter, r.value, run.value, r.rest);
    }
  }

  lemma IdentifierLetters(s: string)
    ensures var r := Identifier(s);
      r.Matched? ==> Keep(Letter, s) == r.value + Keep(Letter, r.rest)
  {
    var t := TrimStart(s);
    var a := Apply(AtLeastOnce(Letter), t);
    if a.Matched? {
      WordBetweenWhiteSpace(s, t, a.value, a.rest, TrimStart(a.rest));
    }
  }

  lemma WordBetweenWhiteSpace(s: string, t: string, v: string, m: string, rest: string)
    requires IsSuffix(t, s) && AllIn(WhiteSpace, s[..|s| - |t|])
    requires t == v + m && AllIn(Letter, v)
    requires IsSuffix(rest, m) && AllIn(WhiteSpace, m[..|m| - |rest|])
    ensures Keep(Letter, s) == v + Keep(Letter, rest)
  {
    var w1, w2 := s[..|s| - |t|], m[..|m| - |rest|];
    SuffixSplit(s, t);
    SuffixSplit(m, rest);
    KeepWordBefore(s, w1, v, m, w2, rest);
  }

  /** White space at `t`'s front is followed by a letter. */
  predicate LetterAfterWhiteSpace(t: string) {
    TrimStart(t) != [] && IsLetter(TrimStart(t)[0])
  }

  /** Input the identifier lexer reads to its end: letters, white space and `c` only, and
      white space at the start or straight after a `c` leads up to a letter. */
  predicate WordsOnly(c: char, s: string) {
    (forall i :: 0 <= i < |s| ==> IsLetter(s[i]) || IsWhiteSpace(s[i]) || s[i] == c) &&
    (s != [] && IsWhiteSpace(s[0]) ==> LetterAfterWhiteSpace(s)) &&
    (forall j :: 0 <= j < |s| - 1 && s[j] == c && IsWhiteSpace(s[j + 1]) ==>
       LetterAfterWhiteSpace(s[j + 1..]))
  }

  /** On such input the identifier lexer consumes everything, so the words read are all the
      letters of the input. */
  lemma IdentifiersReadAll(c: char, s: string)
    requires !IsLetter(c) && !IsWhiteSpace(c) && WordsOnly(c, s)
    ensures IdentifiersSeparatedBy(c, s).rest == []
    ensures Concat(IdentifiersSeparatedBy(c, s).value) == Keep(Letter, s)
  {
    IdentifiersConsumeAll(c, s);
    IdentifiersAreLetters(c, s);
  }

  lemma {:induction false} IdentifiersConsumeAll(c: char, s: string)
    requires !IsLetter(c) && !IsWhiteSpace(c) && WordsOnly(c, s)
    ensures IdentifiersSeparatedBy(c, s).rest == []
    decreases |s|
  {
    if s != [] {
      WordMatches(c, s);
      WordTail(c, s);
      var w := IdentifierUntilOrFullWord(c, s);
      WordsOnlySuffix(c, s, |s| - |w.rest|);
      IdentifiersConsumeAll(c, w.rest);
    }
  }

  /** A word step matches on non-empty input the lexer reads to its end. */
  lemma WordMatches(c: char, s: string)
    requires !IsLetter(c) && !IsWhiteSpace(c) && WordsOnly(c, s) && s != []
    ensures IdentifierUntilOrFullWord(c, s).Matched?
  {
    IdentifierUntilOrFullWordMatches(c, s);
    if IsWhiteSpace(s[0]) {
    } else if IsLetter(s[0]) {
      SpanIs(WhiteSpace, s, 0);
    }
  }

  /** A word step stops after a `c`, at the end, or before something other than white space. */
  lemma WordTail(c: char, s: string)
    ensures var r := IdentifierUntilOrFullWord(c, s);
      r.Matched? ==> var k := |s| - |r.rest|;
        0 < k && (s[k - 1] == c || r.rest == [] || !IsWhiteSpace(r.rest[0]))
  {
    WordIs(c, s);
    WordProgress(c, s);
    UntilTail(c, s);
  }

  /** IdentifierUntil stops right after a `c`. */
  lemma UntilTail(c: char, s: string)
    ensures var r := IdentifierUntil(c, s);
      r.Matched? ==> |r.rest| < |s| && s[|s| - |r.rest| - 1] == c
  {
    var r := IdentifierUntil(c, s);
    if r.Matched? {
      var run := Apply(AtLeastOnce(Is(c)), s[|r.value|..]);
      SplitAt(s, r.value, run.value, r.rest);
      assert s[|s| - |r.rest| - 1] == run.value[|run.value| - 1];
      assert In(Is(c), run.value[|run.value| - 1]);
    }
  }

  lemma WordsOnlySuffix(c: char, s: string, k: nat)
    requires WordsOnly(c, s) && 0 < k <= |s|
    requires s[k - 1] == c || k == |s| || !IsWhiteSpace(s[k])
    ensures WordsOnly(c, s[k..])
  {
    var t := s[k..];
    forall i | 0 <= i < |t| ensures IsLetter(t[i]) || IsWhiteSpace(t[i]) || t[i] == c {
      assert t[i] == s[k + i];
    }
    if t != [] && IsWhiteSpace(t[0]) {
      assert s[k - 1] == c && IsWhiteSpace(s[k - 1 + 1]) && s[k - 1 + 1..] == t;
    }
    forall j | 0 <= j < |t| - 1 && t[j] == c && IsWhiteSpace(t[j + 1])
      ensures LetterAfterWhiteSpace(t[j + 1..])
    {
      assert t[j] == s[k + j] && t[j + 1] == s[k + j + 1] && t[j + 1..] == s[k + j + 1..];
    }
  }

  /** White space at the start that does not lead up to a letter stops the lexer at once:
      "_ _a" is read as one empty word, leaving " _a". */
  lemma IdentifiersStopAtWhiteSpace(c: char, s: string)
    requires !IsLetter(c) && !IsWhiteSpace(c)
    requires s != [] && IsWhiteSpace(s[0]) && !LetterAfterWhiteSpace(s)
    ensures IdentifiersSeparatedBy(c, s) == Matched([], s)
  {
    IdentifierUntilOrFullWordMatches(c, s);
  }

  /** LinesSeparatedByUnderscore (c = '_') and LinesSeparatedByDash (c = '-'):
      LineUntilOrFullLine repeated for as long as it matches. The lines read, put together,
      are the input without its separators. */
  function LinesSeparatedBy(c: char, s: string): (r: Reply<seq<string>>)
    ensures r.Matched? && r.rest == []
    ensures Concat(r.value) == Keep(But(Any, Is(c)), s)
    decreases |s|
  {
    match LineUntilOrFullLine(AtLeastOnce(Is(c)), s)
    case NoMatch => Matched([], s)
    case Matched(v, rest) =>
      LineStep(c, s);
      var tail := LinesSeparatedBy(c, rest);
      assert Concat([v] + tail.value) == v + Concat(tail.value);
      Matched([v] + tail.value, tail.rest)
  }

  /** LinesSeparatedBy reads at least one line exactly when the input is not empty. */
  lemma LinesAtLeastOne(c: char, s: string)
    ensures LinesSeparatedBy(c, s).value != [] <==> s != []
  {
    if s != [] {
      LineStep(c, s);
    }
  }

  /** No line holds the separator `c`, and no line but the first is empty. */
  predicate SeparatedLines(c: char, lines: seq<string>) {
    (forall i :: 0 <= i < |lines| ==> NoneIn(Is(c), lines[i])) &&
    (forall i :: 0 < i < |lines| ==> lines[i] != [])
  }

  /** The lines read by LinesSeparatedBy are separated, and the first is empty only when the
      input starts with the separator. */
  lemma {:induction false} LinesAreSeparated(c: char, s: string)
    ensures var lines := LinesSeparatedBy(c, s).value;
      SeparatedLines(c, lines) && (s != [] && s[0] != c ==> lines != [] && lines[0] != [])
    decreases |s|
  {
    if s != [] {
      LineStep(c, s);
      var r := LineUntilOrFullLine(AtLeastOnce(Is(c)), s);
      LinesAreSeparated(c, r.rest);
      var tail := LinesSeparatedBy(c, r.rest).value;
      assert r.rest == [] ==> tail == [];
      ConsLine(c, r.value, tail);
      assert LinesSeparatedBy(c, s).value == [r.value] + tail;
    }
  }

  lemma ConsLine(c: char, v: string, tail: seq<string>)
    requires NoneIn(Is(c), v) && SeparatedLines(c, tail) && (tail != [] ==> tail[0] != [])
    ensures SeparatedLines(c, [v] + tail)
  {
    var lines := [v] + tail;
    forall i | 0 < i < |lines| ensures lines[i] == tail[i - 1] {}
  }

  /** One step of LinesSeparatedBy: the line read, then a run of `c`, then the rest. */
  lemma LineStep(c: char, s: string)
    requires s != []
    ensures var r := LineUntilOrFullLine(AtLeastOnce(Is(c)), s);
      r.Matched? && |r.rest| < |s| && NoneIn(Is(c), r.value) &&
      Keep(But(Any, Is(c)), s) == r.value + Keep(But(Any, Is(c)), r.rest) &&
      (r.rest != [] ==> r.rest[0] != c) &&
      (s[0] != c ==> r.value != [])
  {
    if NoneIn(Is(c), s) {
      WholeLineStep(c, s);
    } else {
      SeparatedLineStep(c, s);
    }
  }

  lemma WholeLineStep(c: char, s: string)
    requires s != [] && NoneIn(Is(c), s)
    ensures var r := LineUntilOrFullLine(AtLeastOnce(Is(c)), s);
      r == Matched(s, []) && Keep(But(Any, Is(c)), s) == s
  {
    forall i | 0 <= i < |s| ensures In(But(Any, Is(c)), s[i]) {
      InAnyBut(Is(c), s[i]);
    }
    KeepAll(But(Any, Is(c)), s);
  }

  lemma SeparatedLineStep(c: char, s: string)
    requires !NoneIn(Is(c), s)
    ensures var r := LineUntilOrFullLine(AtLeastOnce(Is(c)), s);
      r.Matched? && |r.rest| < |s| && NoneIn(Is(c), r.value) &&
      Keep(But(Any, Is(c)), s) == r.value + Keep(But(Any, Is(c)), r.rest) &&
      (r.rest != [] ==> r.rest[0] != c) &&
      (s[0] != c ==> r.value != [])
  {
    var k := But(Any, Is(c));
    var r := LineUntil(AtLeastOnce(Is(c)), s);
    var v := r.value;
    var run := Apply(AtLeastOnce(Is(c)), s[|v|..]);
    SplitAt(s, v, run.value, r.rest);
    AnyButAll(Is(c), v);
    AnyButNone(Is(c), run.value);
    KeepThree(k, v, run.value, r.rest);
    if r.rest != [] {
      assert r.rest[0] == s[|v|..][|run.value|];
    }
    if v == [] {
      InAnyBut(Is(c), s[0]);
    }
  }

  /** Text that starts and ends with something other than `c` and never holds two `c` in a
      row. */
  predicate SingleSeparated(c: char, s: string) {
    s != [] && s[0] != c && s[|s| - 1] != c &&
    forall i :: 0 <= i < |s| - 1 && s[i] == c ==> s[i + 1] != c
  }

  /** A line, one `c`, and the rest: the line is read first. */
  lemma LinesCons(c: char, v: string, t: string)
    requires v != [] && NoneIn(Is(c), v) && (t == [] || t[0] != c)
    ensures LinesSeparatedBy(c, v + [c] + t).value == [v] + LinesSeparatedBy(c, t).value
  {
    var s := v + [c] + t;
    assert Apply(AtLeastOnce(Is(c)), [c] + t) == Matched([c], t) by {
      ApplyRun(Is(c), [c] + t, [c], t);
    }
    Regroup(v, [c], t);
    LineUntilIs(AtLeastOnce(Is(c)), v, [c] + t, t);
    assert !NoneIn(Is(c), s) by {
      assert s[|v|] == c;
    }
  }

  /** On such text the line lexer splits at every `c`, as String.Split does. */
  lemma {:induction false} LinesAreSplit(c: char, s: string)
    requires SingleSeparated(c, s)
    ensures LinesSeparatedBy(c, s).value == Split(s, c)
    decreases |s|
  {
    var n := Span(But(Any, Is(c)), s);
    if n == |s| {
      AnyButAll(Is(c), s);
      WholeLineStep(c, s);
      SplitNone(s, c);
      assert LinesSeparatedBy(c, s).value == [s] + [];
    } else {
      var v, t := s[..n], s[n + 1..];
      InAnyBut(Is(c), s[n]);
      AnyButAll(Is(c), v);
      assert s == v + [c] + t;
      assert n > 0 by {
        InAnyBut(Is(c), s[0]);
      }
      assert t != [] && t[0] == s[n + 1] && t[|t| - 1] == s[|s| - 1];
      forall i | 0 <= i < |t| - 1 && t[i] == c ensures t[i + 1] != c {
        assert t[i] == s[n + 1 + i] && t[i + 1] == s[n + 1 + i + 1];
      }
      LinesCons(c, v, t);
      SplitFirst(v, t, c);
      LinesAreSplit(c, t);
    }
  }
}
