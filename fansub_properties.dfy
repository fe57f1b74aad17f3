/** What the fansub file-name parsers promise: the enclosed-text and normalized-name
    parsers read exactly the shapes they are written for, and ParseFansubFile gives a
    FansubFile whose fields keep the shape the two parse paths give them. */
module FansubProperties {
  import opened Text
  import opened Outcomes
  import opened Numbers
  import opened Paths
  import opened Combinators
  import opened BaseGrammars
  import opened FansubFiles
  import opened FansubFileParsers

  // ---------------------------------------------------------------- enclosed text

  /** White space, the opening character, text without the closing character, the closing
      character: the enclosed-text parser reads the text, and the white space after it. */
  lemma EnclosedTextIs(open: char, close: char, s: string, lead: string, content: string, after: string)
    requires s == lead + [open] + content + [close] + after
    requires AllIn(WhiteSpace, lead) && !IsWhiteSpace(open) && NoneIn(Is(close), content)
    ensures EnclosedText(open, close, s) == Matched(content, TrimStart(after))
  {
    var u := content + [close] + after;
    TrimStartIs(s, lead, [open] + u);
    ApplyOnce(Is(open), open, u);
    UpToCloseIs(close, content, after);
  }

  /** Text without `close`, then `close`: UpToClose reads the text and consumes `close`. */
  lemma UpToCloseIs(close: char, content: string, after: string)
    requires NoneIn(Is(close), content)
    ensures UpToClose(close, content + [close] + after) == Matched(content, after)
  {
    var u := content + [close] + after;
    AnyButAll(Is(close), content);
    assert u[..|content|] == content;
    assert u[|content|..] == [close] + after;
    SpanIs(But(Any, Is(close)), u, |content|);
    ApplyOnce(Is(close), close, after);
  }

  /** The converse: the parser matches only when, after white space, the input starts with
      the opening character and holds a closing character later; the value is the text up
      to the first closing character. */
  lemma EnclosedTextMatches(open: char, close: char, s: string)
    ensures var r, t := EnclosedText(open, close, s), TrimStart(s);
      r.Matched? <==> t != [] && t[0] == open && !NoneIn(Is(close), t[1..])
    ensures var r, t := EnclosedText(open, close, s), TrimStart(s);
      r.Matched? ==>
        |r.value| + 2 <= |t| &&
        t == [open] + r.value + [close] + t[|r.value| + 2..] &&
        r.rest == TrimStart(t[|r.value| + 2..])
  {
    var t := TrimStart(s);
    var r := EnclosedText(open, close, s);
    if t != [] && t[0] == open {
      var u := t[1..];
      assert t == [open] + u;
      ApplyOnce(Is(open), open, u);
      UpToCloseMatches(close, u);
      var inner := UpToClose(close, u);
      assert r == SkipWhiteSpaceAfter(inner);
      if inner.Matched? {
        var v, after := inner.value, inner.rest;
        ConsSplit(open, u, v, close, after);
        assert t[|v| + 2..] == after;
      }
    }
  }

  /** UpToClose matches exactly when `close` occurs, and then splits the input at its first
      occurrence. */
  lemma UpToCloseMatches(close: char, u: string)
    ensures var r := UpToClose(close, u);
      (r.Matched? <==> !NoneIn(Is(close), u)) &&
      (r.Matched? ==> u == r.value + [close] + r.rest)
  {
    var n := Span(But(Any, Is(close)), u);
    if n < |u| {
      InAnyBut(Is(close), u[n]);
      assert u == u[..n] + [close] + u[n + 1..];
    } else {
      forall i | 0 <= i < |u| ensures !In(Is(close), u[i]) {
        InAnyBut(Is(close), u[i]);
      }
    }
  }

  /** The group of a name that starts, after white space, with "[group]". */
  lemma GroupInSquareBrackets(s: string, lead: string, group: string, after: string)
    requires s == lead + "[" + group + "]" + after
    requires AllIn(WhiteSpace, lead) && NoneIn(Is(']'), group)
    ensures GetFansubGroup(s) == group
  {
    EnclosedTextIs('[', ']', s, lead, group, after);
  }

  /** The group of a name that starts, after white space, with "(group)". */
  lemma GroupInParentheses(s: string, lead: string, group: string, after: string)
    requires s == lead + "(" + group + ")" + after
    requires AllIn(WhiteSpace, lead) && NoneIn(Is(')'), group)
    ensures GetFansubGroup(s) == group
  {
    var t := "(" + group + ")" + after;
    assert TrimStart(s) == t by {
      LeadSplit(lead, "(", group, ")", after);
      TrimStartIs(s, lead, t);
    }
    EnclosedTextRejects('[', ']', s);
    EnclosedTextIs('(', ')', s, lead, group, after);
  }

  /** Where the input does not start, after white space, with the opening character, the
      enclosed-text parser does not match. */
  lemma EnclosedTextRejects(open: char, close: char, s: string)
    requires TrimStart(s) == [] || TrimStart(s)[0] != open
    ensures EnclosedText(open, close, s) == NoMatch
  {
  }

  /** A name that does not start, after white space, with '[' or '(' has no group. */
  lemma NoGroup(s: string)
    requires TrimStart(s) == [] || (TrimStart(s)[0] != '[' && TrimStart(s)[0] != '(')
    ensures GetFansubGroup(s) == []
  {
    EnclosedTextRejects('[', ']', s);
    EnclosedTextRejects('(', ')', s);
  }

  // ---------------------------------------------------------------- normalized names

  /** The three parts of a normalized name: a trimmed series without '(', the digits of the
      episode number, and an extension of letters and digits. */
  predicate NormalizedParts(series: string, ds: string, ext: string) {
    && series != [] && IsTrimmed(series) && NoneIn(Is('('), series)
    && ds != [] && AllIn(Digit, ds)
    && ext != [] && AllIn(LetterOrDigit, ext)
  }

  /** The normalized name "Series (digits).ext". */
  function NormalizedName(series: string, ds: string, ext: string): string {
    series + " (" + ds + ")." + ext
  }

  /** A name "Series (digits).ext" is read by the normalized parser: no group, the series,
      the number, and the extension with its dot; a number beyond the 32-bit range throws
      OverflowException. The name is not blank. */
  lemma NormalizedFileNameIs(series: string, ds: string, ext: string)
    requires NormalizedParts(series, ds, ext)
    ensures !IsNullOrWhiteSpace(NormalizedName(series, ds, ext))
    ensures NormalizedFileNameParser(NormalizedName(series, ds, ext)) ==
      if DigitsValue(ds) <= Int32Max
      then Returned(Matched(FansubFile([], series, DigitsValue(ds), "." + ext), []))
      else Threw(OverflowException)
  {
    var s := NormalizedName(series, ds, ext);
    NormalizedNameSplit(series, ds, ext);
    assert s[0] == series[0];
    SeriesRead(series, "(" + ds + ")." + ext);
    EpisodeAndExtensionIs(ds, ext);
    ParseDigits(ds);
  }

  /** The series part of a normalized name: the text before the '(', the space before it
      included; trimming gives the series back. */
  lemma SeriesRead(series: string, afterSeries: string)
    requires series != [] && IsTrimmed(series) && NoneIn(Is('('), series)
    requires afterSeries != [] && afterSeries[0] == '('
    ensures Apply(AtLeastOnce(But(Any, Is('('))), TrimStart((series + " ") + afterSeries)) ==
      Matched(series + " ", afterSeries)
    ensures Trim(series + " ") == series
  {
    var s := (series + " ") + afterSeries;
    assert TrimStart(s) == s by {
      assert s[0] == series[0];
      TrimStartNoWhite(s);
    }
    SeriesRun(series);
    ApplyRun(But(Any, Is('(')), s, series + " ", afterSeries);
  }

  /** A trimmed series without '(' and the space after it: all of it is read, and trimming
      gives the series back. */
  lemma SeriesRun(series: string)
    requires series != [] && IsTrimmed(series) && NoneIn(Is('('), series)
    ensures AllIn(But(Any, Is('(')), series + " ")
    ensures Trim(series + " ") == series
  {
    PiecesNoneIn(Is('('), series, " ");
    AnyButAll(Is('('), series + " ");
    TrimIs(series + " ", [], series, " ");
  }

  lemma NormalizedNameSplit(series: string, ds: string, ext: string)
    ensures NormalizedName(series, ds, ext) == (series + " ") + ("(" + ds + ")." + ext)
  {
    assert " (" == " " + "(";
  }

  /** "(digits).ext" is read as the digits and the extension with its dot. */
  lemma EpisodeAndExtensionIs(ds: string, ext: string)
    requires ds != [] && AllIn(Digit, ds) && ext != [] && AllIn(LetterOrDigit, ext)
    ensures TrimStart("(" + ds + ")." + ext) == "(" + ds + ")." + ext
    ensures EpisodeAndExtension("(" + ds + ")." + ext) == Matched((ds, "." + ext), [])
  {
    var u := "(" + ds + ")." + ext;
    var afterDigits := [')'] + (['.'] + ext);
    assert u == ['('] + (ds + afterDigits) by {
      AfterSeriesShape(ds, ext);
    }
    assert TrimStart(u) == u by {
      TrimStartNoWhite(u);
    }
    assert Apply(OpenParenthesis, u) == Matched("(", ds + afterDigits) by {
      ApplyOnce(Is('('), '(', ds + afterDigits);
    }
    assert Apply(Number, ds + afterDigits) == Matched(ds, afterDigits) by {
      ApplyRun(Digit, ds + afterDigits, ds, afterDigits);
    }
    assert Apply(ClosedParenthesis, afterDigits) == Matched(")", ['.'] + ext) by {
      ApplyOnce(Is(')'), ')', ['.'] + ext);
    }
    ExtensionIs(ext);
  }

  /** A dot and a run of letters and digits is read whole as a file extension. */
  lemma ExtensionIs(ext: string)
    requires ext != [] && AllIn(LetterOrDigit, ext)
    ensures FileExtension(['.'] + ext) == Matched("." + ext, [])
  {
    var s := ['.'] + ext;
    assert s[1..] == ext;
    var r := FileExtension(s);
    assert r.value[1..] == ext;
    assert r.value == [r.value[0]] + r.value[1..];
  }

  lemma AfterSeriesShape(ds: string, ext: string)
    ensures "(" + ds + ")." + ext == ['('] + (ds + ([')'] + (['.'] + ext)))
  {
    assert ")." == [')'] + ['.'];
  }

  /** Formatting an episode number into the normalized form and parsing it back gives the
      FansubFile it was formatted from. */
  lemma NormalizedRoundTrip(series: string, episode: nat, ext: string)
    requires NormalizedParts(series, Decimal(episode), ext) && episode <= Int32Max
    ensures NormalizedFileNameParser(NormalizedName(series, Decimal(episode), ext)) ==
      Returned(Matched(FansubFile([], series, episode, "." + ext), []))
    ensures ParseFansubFile(NormalizedName(series, Decimal(episode), ext)) ==
      Returned(Some(FansubFile([], series, episode, "." + ext)))
  {
    DecimalValue(episode);
    NormalizedFileNameIs(series, Decimal(episode), ext);
    ParseViaNormalized(NormalizedName(series, Decimal(episode), ext));
  }

  /** An episode number beyond the 32-bit range in a normalized name makes ParseFansubFile
      throw OverflowException. */
  lemma NormalizedOverflow(series: string, ds: string, ext: string)
    requires NormalizedParts(series, ds, ext) && DigitsValue(ds) > Int32Max
    ensures ParseFansubFile(NormalizedName(series, ds, ext)) == Threw(OverflowException)
  {
    NormalizedFileNameIs(series, ds, ext);
    ParseViaNormalized(NormalizedName(series, ds, ext));
  }

  /** For a name that is not blank, what the normalized parser gives (a file or an exception)
      is what ParseFansubFile gives. */
  lemma ParseViaNormalized(s: string)
    requires !IsNullOrWhiteSpace(s)
    ensures NormalizedFileNameParser(s).Threw? ==>
      ParseFansubFile(s) == Threw(NormalizedFileNameParser(s).exception)
    ensures NormalizedFileNameParser(s).Returned? && NormalizedFileNameParser(s).value.Matched? ==>
      ParseFansubFile(s) == Returned(Some(NormalizedFileNameParser(s).value.value))
  {
  }
}
