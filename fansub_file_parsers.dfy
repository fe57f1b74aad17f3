/** FansubFileParsers: taking a fansub file name apart into a FansubFile. A name in the
    normalized form "Series (N).ext" is read by one parser; any other name goes through a
    chain of heuristics (group tag, end tags, version suffix, dash or space splitting). */
module FansubFileParsers {
  import opened Text
  import opened Outcomes
  import opened Numbers
  import opened Paths
  import opened Combinators
  import opened BaseGrammars
  import opened FansubFiles

  // ---------------------------------------------------------------- bracket parsers

  /** SquareBracketEnclosedText (open = '[', close = ']') and ParenthesisEnclosedText
      (open = '(', close = ')'), a Token: white space, the opening character, the text up to
      the first closing character, the closing character, white space. The value is the
      text between the two. */
  function EnclosedText(open: char, close: char, s: string): (r: Reply<string>)
    ensures r.Matched? ==> NoneIn(Is(close), r.value)
  {
    match Apply(Once(Is(open)), TrimStart(s))
    case NoMatch => NoMatch
    case Matched(_, u) => SkipWhiteSpaceAfter(UpToClose(close, u))
  }

  /** The inside of EnclosedText: the text up to the first `close`, which is consumed. */
  function UpToClose(close: char, u: string): (r: Reply<string>)
    ensures r.Matched? ==> NoneIn(Is(close), r.value)
  {
    var n := Span(But(Any, Is(close)), u);
    AnyButAll(Is(close), u[..n]);
    match Apply(Once(Is(close)), u[n..])
    case NoMatch => NoMatch
    case Matched(_, rest) => Matched(u[..n], rest)
  }

  /** SquareBracketEnclosedTextWithBracket and ParenthesisEnclosedTextWithParenthesis: the
      same, with the brackets kept in the value. */
  function EnclosedTextWithBrackets(open: char, close: char, s: string): (r: Reply<string>)
    ensures r.Matched? ==> |r.value| >= 2 && r.value[0] == open && r.value[|r.value| - 1] == close
  {
    match EnclosedText(open, close, s)
    case NoMatch => NoMatch
    case Matched(v, rest) => Matched([open] + v + [close], rest)
  }

  // ---------------------------------------------------------------- normalized name parser

  /** FileExtensionParser: a dot followed by letters and digits; the value keeps the dot. */
  function FileExtension(s: string): (r: Reply<string>)
    ensures r.Matched? <==> |s| >= 2 && s[0] == '.' && In(LetterOrDigit, s[1])
    ensures r.Matched? ==>
      r.value + r.rest == s && |r.value| >= 2 && r.value[0] == '.' &&
      IsLongestPrefix(LetterOrDigit, r.value[1..], s[1..])
  {
    match Apply(Once(Is('.')), s)
    case NoMatch => NoMatch
    case Matched(dot, u) =>
      match Apply(AtLeastOnce(LetterOrDigit), u)
      case NoMatch => NoMatch
      case Matched(ext, rest) =>
        assert s == dot + ext + rest;
        Matched(dot + ext, rest)
  }

  /** NormalizedFileNameParser: a Token of characters other than '(' (the series), '(',
      digits (the episode), ')', and a file extension. The series is trimmed and the group
      is empty. The digits go through int.Parse inside the parser, so an episode number
      beyond the 32-bit range throws OverflowException out of the parse. On names whose
      numeric characters (char.IsNumber) are all ASCII digits that is the only exception it
      lets out. Sprache reads every char.IsNumber character as part of the number, and
      int.Parse throws FormatException on the non-ASCII ones; that is not modelled. */
  function NormalizedFileNameParser(s: string): (r: Outcome<Reply<FansubFile>>)
    ensures r.Threw? ==> r.exception == OverflowException
  {
    match Apply(AtLeastOnce(But(Any, Is('('))), TrimStart(s))
    case NoMatch => Returned(NoMatch)
    case Matched(series, afterSeries) =>
      match EpisodeAndExtension(TrimStart(afterSeries))
      case NoMatch => Returned(NoMatch)
      case Matched((digits, ext), rest) =>
        ScanDigits(digits);
        match ParseInt32(digits)
        case Threw(e) => Threw(e)
        case Returned(episode) => Returned(Matched(FansubFile([], Trim(series), episode, ext), rest))
  }

  /** The part of NormalizedFileNameParser after the series: '(', digits, ')', and a file
      extension; the value is the digits and the extension. */
  function EpisodeAndExtension(u: string): (r: Reply<(string, string)>)
    ensures r.Matched? ==> r.value.0 != [] && AllIn(Digit, r.value.0)
  {
    match Apply(OpenParenthesis, u)
    case NoMatch => NoMatch
    case Matched(_, afterOpen) =>
      match Apply(Number, afterOpen)
      case NoMatch => NoMatch
      case Matched(digits, afterDigits) =>
        match Apply(ClosedParenthesis, afterDigits)
        case NoMatch => NoMatch
        case Matched(_, afterClose) =>
          match FileExtension(afterClose)
          case NoMatch => NoMatch
          case Matched(ext, rest) => Matched((digits, ext), rest)
  }

  // ---------------------------------------------------------------- file name lexers

  /** SquareBracketEnclosedTextWithBracket.Or(ParenthesisEnclosedTextWithParenthesis). */
  function Tag(s: string): (r: Reply<string>)
    ensures r.Matched? ==> |r.value| >= 2 && (r.value[0] == '[' || r.value[0] == '(')
    ensures r.Matched? ==> r.value[|r.value| - 1] == ']' || r.value[|r.value| - 1] == ')'
  {
    Or(EnclosedTextWithBrackets('[', ']', s), EnclosedTextWithBrackets('(', ')', s), s)
  }

  /** TagLexerWithBrackets: Tag repeated for as long as it matches and consumes input. Every
      tag read keeps its brackets, so none is empty. */
  function TagLexer(s: string): (r: Reply<seq<string>>)
    ensures r.Matched? && NoEmptyTag(r.value)
    decreases |s|
  {
    match Tag(s)
    case NoMatch => Matched([], s)
    case Matched(tag, rest) =>
      if |rest| >= |s| then Matched([], s)
      else
        var tail := TagLexer(rest);
        ConsTag(tag, tail.value);
        Matched([tag] + tail.value, tail.rest)
  }

  /** Every tag read is non-empty: each keeps its brackets. */
  predicate NoEmptyTag(tags: seq<string>) {
    forall i :: 0 <= i < |tags| ==> tags[i] != []
  }

  lemma ConsTag(tag: string, tags: seq<string>)
    requires tag != [] && NoEmptyTag(tags)
    ensures NoEmptyTag([tag] + tags)
  {
    assert forall i :: 0 < i < |[tag] + tags| ==> ([tag] + tags)[i] == tags[i - 1];
  }

  /** GrindTagsWithBracketsOutOfMajorContent: an optional leading [group] tag, the text up
      to the first '[' or '(', then the tags from there on. */
  function GrindTags(s: string): (r: Reply<seq<string>>)
    ensures r.Matched? && NoEmptyTag(r.value)
  {
    var afterGroup := match EnclosedText('[', ']', s)
      case Matched(_, rest) => rest
      case NoMatch => s;
    var n := Span(But(Any, Either('[', '(')), afterGroup);
    TagLexer(afterGroup[n..])
  }

  /** VersionNumberFromReversedString, applied to a reversed name: digits, then 'v' or 'V',
      then anything. The value is the 'v' followed by the digits as they were read, that is,
      in reversed order. */
  function VersionNumberFromReversedString(s: string): (r: Reply<string>)
    ensures r.Matched? ==> r.value != [] && r.rest == []
  {
    match Apply(AtLeastOnce(Digit), s)
    case NoMatch => NoMatch
    case Matched(digits, afterDigits) =>
      match Apply(Once(Either('v', 'V')), afterDigits)
      case NoMatch => NoMatch
      case Matched(v, afterV) =>
        var rest := match Line(afterV) case Matched(_, r) => r case NoMatch => afterV;
        Matched(v + digits, rest)
  }

  // ---------------------------------------------------------------- helper functions

  /** The deletions RemoveEndTags makes: every occurrence of each tag in turn. */
  function RemoveEach(s: string, tags: seq<string>): (r: string)
    requires NoEmptyTag(tags)
    ensures |r| <= |s|
  {
    if tags == [] then s
    else RemoveAll(RemoveEach(s, tags[..|tags| - 1]), tags[|tags| - 1])
  }

  /** One more tag removed. */
  lemma RemoveEachStep(s: string, tags: seq<string>, i: nat)
    requires i < |tags| && NoEmptyTag(tags)
    ensures RemoveEach(s, tags[..i + 1]) == RemoveAll(RemoveEach(s, tags[..i]), tags[i])
  {
    assert tags[..i + 1][..i] == tags[..i];
  }

  /** What RemoveEndTags returns: the name with its end tags deleted. */
  function EndTagsRemoved(fileName: string): (r: string)
    ensures |r| <= |fileName|
  {
    RemoveEach(fileName, GrindTags(fileName).value)
  }

  /** RemoveEndTags: deletes, tag by tag, every occurrence of each end tag. The lexer always
      matches, so the source's check for a failed parse never fires. */
  method RemoveEndTags(fileName: string) returns (result: string)
    ensures result == EndTagsRemoved(fileName)
  {
    var tags := GrindTags(fileName).value;
    result := fileName;
    for i := 0 to |tags|
      invariant result == RemoveEach(fileName, tags[..i])
    {
      RemoveEachStep(fileName, tags, i);
      result := RemoveAll(result, tags[i]);
    }
    assert tags[..|tags|] == tags;
  }

  /** RemoveFansubTag: deletes every occurrence of the leading [group] tag, or else of the
      leading (group) tag. */
  function RemoveFansubTag(fileName: string): (r: string)
    ensures |r| <= |fileName|
  {
    match EnclosedTextWithBrackets('[', ']', fileName)
    case Matched(tag, _) => RemoveAll(fileName, tag)
    case NoMatch =>
      match EnclosedTextWithBrackets('(', ')', fileName)
      case Matched(tag, _) => RemoveAll(fileName, tag)
      case NoMatch => fileName
  }

  /** RemoveVersionNumber: reads a version "vN" backwards from the end of the name without
      its extension, and deletes every occurrence of what was read. */
  function RemoveVersionNumber(fileName: string): (r: string)
    ensures |r| <= |fileName|
  {
    match VersionNumberFromReversedString(Reverse(GetFileNameWithoutExtension(fileName)))
    case Matched(version, _) => RemoveAll(fileName, version)
    case NoMatch => fileName
  }

  /** RemoveAllTagsAndExtension: the name without its extension, its group tag and its end
      tags, trimmed. */
  function RemoveAllTagsAndExtension(fileName: string): (r: string)
    ensures IsTrimmed(r) && |r| <= |fileName|
  {
    Trim(EndTagsRemoved(RemoveFansubTag(GetFileNameWithoutExtension(fileName))))
  }

  /** Enumerable.Last: the last element; InvalidOperationException on an empty sequence. */
  function Last(xs: seq<string>): (r: Outcome<string>)
    ensures r.Returned? <==> xs != []
    ensures r.Returned? ==> r.value == xs[|xs| - 1]
    ensures r.Threw? ==> r.exception == InvalidOperationException
  {
    if xs == [] then Threw(InvalidOperationException) else Returned(xs[|xs| - 1])
  }

  /** GetFansubGroup: the text of the leading [group] tag, else of the leading (group) tag,
      else empty. */
  function GetFansubGroup(fileName: string): (group: string)
    ensures NoneIn(Is(']'), group) || NoneIn(Is(')'), group)
  {
    match EnclosedText('[', ']', fileName)
    case Matched(group, _) => group
    case NoMatch =>
      match EnclosedText('(', ')', fileName)
      case Matched(group, _) => group
      case NoMatch => []
  }

  /** TryGetEpisodeNumberUsingDashDelimination: the last dash-separated line as a number.
      The line lexer always matches, so the source's check for a failed parse never fires;
      on an empty input it reads no line and Last throws. */
  function TryGetEpisodeNumberUsingDashDelimination(s: string): (r: Outcome<Option<int>>)
    ensures r.Threw? <==> s == []
    ensures r.Threw? ==> r.exception == InvalidOperationException
    ensures r.Returned? && r.value.Some? ==> IsInt32(r.value.value)
  {
    LinesAtLeastOne('-', s);
    match Last(LinesSeparatedBy('-', s).value)
    case Threw(e) => Threw(e)
    case Returned(last) => Returned(TryParseInt32(last))
  }

  /** TryGetEpisodeNumberUsingSpaceDelimination: the last space-separated piece of the
      trimmed input as a number. Split always gives at least one piece, so the source's check
      for an empty split never fires. */
  function TryGetEpisodeNumberUsingSpaceDelimination(s: string): (r: Option<int>)
    ensures r.Some? ==> IsInt32(r.value)
  {
    var parts := Split(Trim(s), ' ');
    TryParseInt32(parts[|parts| - 1])
  }

  /** GetEpisodeNumber: by dashes, else by spaces, else int.MinValue; after the tags, the
      extension and the version number are removed. */
  function GetEpisodeNumber(fileName: string): (r: Outcome<int>)
    ensures r.Threw? <==> RemoveVersionNumber(RemoveAllTagsAndExtension(fileName)) == []
    ensures r.Threw? ==> r.exception == InvalidOperationException
    ensures r.Returned? ==> IsInt32(r.value)
  {
    var withoutVersionNumber := RemoveVersionNumber(RemoveAllTagsAndExtension(fileName));
    match TryGetEpisodeNumberUsingDashDelimination(withoutVersionNumber)
    case Threw(e) => Threw(e)
    case Returned(Some(episode)) => Returned(episode)
    case Returned(None) =>
      match TryGetEpisodeNumberUsingSpaceDelimination(withoutVersionNumber)
      case Some(episode) => Returned(episode)
      case None => Returned(Int32Min)
  }

  /** What TryGetSeriesNameUsingDashDelimination computes: when the last dash-separated line
      is a number, the lines before it joined with "-" and trimmed. */
  function SeriesNameByDashes(s: string): (r: Outcome<Option<string>>)
    ensures r.Threw? <==> s == []
    ensures r.Threw? ==> r.exception == InvalidOperationException
    ensures r.Returned? && r.value.Some? ==> IsTrimmed(r.value.value)
  {
    var lines := LinesSeparatedBy('-', s).value;
    LinesAtLeastOne('-', s);
    match Last(lines)
    case Threw(e) => Threw(e)
    case Returned(last) =>
      if TryParseInt32(last).None? then Returned(None)
      else Returned(Some(Trim(Join(lines[..|lines| - 1], "-"))))
  }

  /** TryGetSeriesNameUsingDashDelimination, with its StringBuilder loop. */
  method TryGetSeriesNameUsingDashDelimination(s: string) returns (r: Outcome<Option<string>>)
    ensures r == SeriesNameByDashes(s)
  {
    var lines := LinesSeparatedBy('-', s).value;
    if lines == [] {
      return Threw(InvalidOperationException);
    }
    var last := lines[|lines| - 1];
    if TryParseInt32(last).None? {
      return Returned(None);
    }
    var builder := "";
    var n := |lines| - 1;
    for i := 0 to n
      invariant builder == Join(lines[..i], "-") + (if 0 < i < n then "-" else "")
    {
      JoinStep(lines, i, n, builder);
      builder := builder + lines[i];
      if i + 1 != n {
        builder := builder + "-";
      }
    }
    assert builder == Join(lines[..|lines| - 1], "-");
    return Returned(Some(Trim(builder)));
  }

  /** One turn of the StringBuilder loop of TryGetSeriesNameUsingDashDelimination: one more
      line, and a dash unless it is the last line joined. */
  lemma JoinStep(lines: seq<string>, i: nat, n: nat, builder: string)
    requires i < n <= |lines|
    requires builder == Join(lines[..i], "-") + (if 0 < i < n then "-" else "")
    ensures builder + lines[i] + (if i + 1 != n then "-" else "") ==
      Join(lines[..i + 1], "-") + (if 0 < i + 1 < n then "-" else "")
  {
    JoinSnoc(lines[..i], lines[i], "-");
    assert lines[..i + 1] == lines[..i] + [lines[i]];
  }

  /** The pieces other than `except` (all of them when it is None), each followed by a
      space: what the StringBuilder of TryGetSeriesNameUsingSpaceDelimination holds. */
  function SpaceTerminated(parts: seq<string>, except: Option<string>): string {
    if parts == [] then []
    else
      var last := parts[|parts| - 1];
      SpaceTerminated(parts[..|parts| - 1], except) + (if except == Some(last) then [] else last + " ")
  }

  /** One more piece appended. */
  lemma SpaceTerminatedStep(parts: seq<string>, i: nat, except: Option<string>)
    requires i < |parts|
    ensures SpaceTerminated(parts[..i + 1], except) ==
      SpaceTerminated(parts[..i], except) + (if except == Some(parts[i]) then [] else parts[i] + " ")
  {
    assert parts[..i + 1][..i] == parts[..i];
  }

  /** What TryGetSeriesNameUsingSpaceDelimination reports: when the last space-separated
      piece of the trimmed input is a number, the other pieces (every piece equal to the last
      one is dropped) joined with spaces and trimmed. */
  function SeriesNameBySpaces(s: string): (r: Option<string>)
    ensures r.Some? ==> IsTrimmed(r.value)
  {
    var parts := Split(Trim(s), ' ');
    match NumberPiece(parts)
    case Some(last) => Some(Trim(SpaceTerminated(parts, Some(last))))
    case None => None
  }

  /** The last piece, when int.TryParse accepts it. */
  function NumberPiece(parts: seq<string>): (r: Option<string>)
    requires parts != []
    ensures r.Some? ==> r.value == parts[|parts| - 1] && TryParseInt32(r.value).Some?
  {
    var last := parts[|parts| - 1];
    if TryParseInt32(last).Some? then Some(last) else None
  }

  /** TryGetSeriesNameUsingSpaceDelimination, with its StringBuilder loops. When the last
      piece is not a number it still rebuilds the name from all the pieces, and reports
      false; its caller then ignores that name. */
  method TryGetSeriesNameUsingSpaceDelimination(s: string) returns (found: bool, seriesName: string)
    ensures found <==> SeriesNameBySpaces(s).Some?
    ensures found ==> seriesName == SeriesNameBySpaces(s).value
    ensures !found ==> seriesName == Trim(SpaceTerminated(Split(Trim(s), ' '), None))
  {
    var parts := Split(Trim(s), ' ');
    var except := NumberPiece(parts);
    var builder := "";
    for i := 0 to |parts|
      invariant builder == SpaceTerminated(parts[..i], except)
    {
      SpaceTerminatedStep(parts, i, except);
      if except != Some(parts[i]) {
        builder := builder + (parts[i] + " ");
      }
    }
    assert parts[..|parts|] == parts;
    found := except.Some?;
    seriesName := Trim(builder);
  }

  /** GetAnimeSeriesName: by dashes, else by spaces, else the name without tags, trimmed;
      after the tags, the extension and the version number are removed. */
  function GetAnimeSeriesName(fileName: string): (r: Outcome<string>)
    ensures r.Threw? <==> RemoveVersionNumber(RemoveAllTagsAndExtension(fileName)) == []
    ensures r.Threw? ==> r.exception == InvalidOperationException
    ensures r.Returned? ==> IsTrimmed(r.value)
  {
    var withoutTags := RemoveAllTagsAndExtension(fileName);
    var withoutVersionNumber := RemoveVersionNumber(withoutTags);
    match SeriesNameByDashes(withoutVersionNumber)
    case Threw(e) => Threw(e)
    case Returned(Some(name)) => Returned(name)
    case Returned(None) =>
      match SeriesNameBySpaces(withoutVersionNumber)
      case Some(name) => Returned(name)
      case None => Returned(Trim(withoutTags))
  }

  // ---------------------------------------------------------------- public factory method

  /** ParseFansubFile: None (the source's null) for a blank name; the normalized parse when
      it matches; otherwise the heuristics, on the name with its underscores made spaces. */
  function ParseFansubFile(fileName: string): (r: Outcome<Option<FansubFile>>)
    ensures r == Returned(None) <==> IsNullOrWhiteSpace(fileName)
  {
    if IsNullOrWhiteSpace(fileName) then Returned(None)
    else
      match NormalizedFileNameParser(fileName)
      case Threw(e) => Threw(e)
      case Returned(Matched(file, _)) => Returned(Some(file))
      case Returned(NoMatch) =>
        var name := ReplaceChar(fileName, '_', ' ');
        var group := GetFansubGroup(name);
        match GetAnimeSeriesName(name)
        case Threw(e) => Threw(e)
        case Returned(series) =>
          match GetEpisodeNumber(name)
          case Threw(e) => Threw(e)
          case Returned(episode) => Returned(Some(FansubFile(group, series, episode, GetExtension(name))))
  }
}
