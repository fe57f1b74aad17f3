/** ParseFansubFile on whole names: a group tag, a title of one of the shapes the heuristics
    read, the end tags and the extension. Each lemma states the FansubFile the parser returns
    for every name of its shape. */
module ParseShapes {
  import opened Text
  import opened Outcomes
  import opened Numbers
  import opened BaseGrammars
  import opened FansubFiles
  import opened FansubFileParsers
  import opened FansubHeuristics
  import opened EndTags
  import opened FansubNames
  import opened FansubTitles

  // ---------------------------------------------------------------- names written with spaces

  /** A name with plain text in its tags and its title holds no underscore, so making
      underscores spaces leaves it as it is. */
  lemma SpelledNoUnderscore(n: FansubName)
    requires FrameOk(n) && Plain(n.title)
    ensures NoneIn(Is('_'), Spelled(n))
    ensures ReplaceChar(Spelled(n), '_', ' ') == Spelled(n)
  {
    var k := Is('_');
    PlainFacts(n.group);
    PlainFacts(n.title);
    PlainFacts(n.ext);
    EncloseNoneIn(k, n.groupBracket, n.group);
    forall i | 0 <= i < |n.tags|
      ensures NoneIn(k, Enclose(n.tags[i].bracket, n.tags[i].text)) && NoneIn(k, n.tags[i].gap)
    {
      assert EndTagOk(n.tags[i]);
      PlainFacts(n.tags[i].text);
      EncloseNoneIn(k, n.tags[i].bracket, n.tags[i].text);
    }
    TagsTextNoneIn(k, n.tags);
    NoneInAppend(k, n.lead, n.title);
    NoneInAppend(k, n.lead + n.title, n.trail);
    NoneInAppend(k, GroupTag(n), Body(n));
    NoneInAppend(k, GroupTag(n) + Body(n), TagsText(n.tags));
    NoneInAppend(k, Stem(n), ".");
    NoneInAppend(k, Stem(n) + ".", n.ext);
    ReplaceCharAbsent(Spelled(n), '_', ' ');
  }

  // ---------------------------------------------------------------- titles read at a dash

  /** A version is plain text, and ends in a digit when there is one. */
  lemma VersionPlain(vsep: string, vds: string)
    requires (vsep == [] || vsep == " ") && AllIn(Digit, vds)
    ensures Plain(Version(vsep, vds))
    ensures vds != [] ==> Version(vsep, vds)[|Version(vsep, vds)| - 1] == vds[|vds| - 1]
  {
    DigitsArePlain(vds);
    if vds != [] {
      PlainAppend(vsep, "v");
      PlainAppend(vsep + "v", vds);
    }
  }

  /** What follows the series in a dash title: plain, ending in a digit. */
  lemma DashTailPlain(ds: string, vsep: string, vds: string)
    requires EpisodeOk(ds) && (vsep == [] || vsep == " ") && AllIn(Digit, vds)
    ensures Plain(" - " + ds + Version(vsep, vds))
    ensures IsDigit((" - " + ds + Version(vsep, vds))[|" - " + ds + Version(vsep, vds)| - 1])
  {
    DigitsArePlain(ds);
    VersionPlain(vsep, vds);
    PlainAppend(" - ", ds);
    PlainAppend(" - " + ds, Version(vsep, vds));
  }

  /** Plain text that starts and ends with no white space is a title. */
  lemma JoinedTitleOk(a: string, b: string)
    requires Plain(a) && Plain(b) && a != [] && b != []
    requires !IsWhiteSpace(a[0]) && !IsWhiteSpace(b[|b| - 1])
    ensures TitleOk(a + b)
  {
    PlainAppend(a, b);
    assert (a + b)[0] == a[0];
    assert (a + b)[|a + b| - 1] == b[|b| - 1];
  }

  /** "series - 05", "series - 05v2" and "series - 05 v2" are titles. */
  lemma DashTitleOk(series: string, ds: string, vsep: string, vds: string)
    requires SeriesOk(series) && EpisodeOk(ds) && VersionOk(series, vsep, vds)
    ensures TitleOk(DashTitle(series, ds, vsep, vds))
  {
    DashTailPlain(ds, vsep, vds);
    Regroup(series + " - ", ds, Version(vsep, vds));
    Regroup(series, " - ", ds + Version(vsep, vds));
    Regroup(" - ", ds, Version(vsep, vds));
    JoinedTitleOk(series, " - " + ds + Version(vsep, vds));
  }

  /** A name whose title is "series - 05", with or without a version, parses to its group,
      that series, that episode and its extension. */
  lemma DashNameParsed(fileName: string, n: FansubName, series: string, ds: string, vsep: string, vds: string)
    requires FrameOk(n) && ReplaceChar(fileName, '_', ' ') == Spelled(n)
    requires n.title == DashTitle(series, ds, vsep, vds)
    requires SeriesOk(series) && EpisodeOk(ds) && VersionOk(series, vsep, vds)
    ensures ParseFansubFile(fileName) == Returned(Some(FansubFile(n.group, series, DigitsValue(ds), "." + n.ext)))
  {
    DashTitleOk(series, ds, vsep, vds);
    NameRead(fileName, n);
    DashTitleRead(Spelled(n), series, ds, vsep, vds);
  }

  // ---------------------------------------------------------------- titles read at a space

  /** "front 05" is a title. */
  lemma SpaceTitleOk(front: string, ds: string)
    requires FrontOk(front) && EpisodeOk(ds)
    ensures TitleOk(front + " " + ds)
  {
    DigitsArePlain(ds);
    PlainAppend(front, " ");
    PlainAppend(front + " ", ds);
    assert (front + " " + ds)[|front + " " + ds| - 1] == ds[|ds| - 1];
  }

  /** A name whose title is "front 05" parses to its group, the words of front that are not
      the episode's digits, that episode and its extension; when no word of front is the
      episode's digits, the series is front itself. */
  lemma SpaceNameParsed(fileName: string, n: FansubName, front: string, ds: string)
    requires FrameOk(n) && ReplaceChar(fileName, '_', ' ') == Spelled(n)
    requires n.title == front + " " + ds
    requires FrontOk(front) && EpisodeOk(ds)
    ensures ParseFansubFile(fileName) ==
      Returned(Some(FansubFile(n.group, Trim(Join(Without(Split(front, ' '), ds), " ")), DigitsValue(ds), "." + n.ext)))
    ensures ds !in Split(front, ' ') ==>
      ParseFansubFile(fileName) == Returned(Some(FansubFile(n.group, front, DigitsValue(ds), "." + n.ext)))
  {
    SpaceTitleOk(front, ds);
    NameRead(fileName, n);
    SpaceTitleRead(Spelled(n), front, ds);
    if ds !in Split(front, ' ') {
      TrimTrimmed(front + " " + ds);
      SpaceSplitWhole(front + " " + ds, front, ds);
      SpaceSplit(front + " " + ds, front, ds);
      TrimTrimmed(front);
    }
  }

  // ---------------------------------------------------------------- titles with no number

  /** "series - SP01" is a title. */
  lemma WordTitleOk(series: string, word: string, ds: string)
    requires SeriesOk(series) && WordOk(word) && AllIn(Digit, ds)
    ensures TitleOk(series + " - " + word + ds)
  {
    WordPieceFacts(word, ds);
    PlainAppend(" - ", word + ds);
    PlainAppend(series, " - " + (word + ds));
    assert series + " - " + word + ds == series + (" - " + (word + ds));
    var w := series + " - " + word + ds;
    assert w[|w| - 1] == (word + ds)[|word + ds| - 1];
  }

  /** A name whose title is "series - SP01" has no episode number where the heuristics look
      for one: it parses to its group, the whole title, int.MinValue and its extension. */
  lemma WordNameParsed(fileName: string, n: FansubName, series: string, word: string, ds: string)
    requires FrameOk(n) && ReplaceChar(fileName, '_', ' ') == Spelled(n)
    requires n.title == series + " - " + word + ds
    requires SeriesOk(series) && WordOk(word) && AllIn(Digit, ds)
    ensures ParseFansubFile(fileName) == Returned(Some(FansubFile(n.group, n.title, Int32Min, "." + n.ext)))
  {
    WordTitleOk(series, word, ds);
    NameRead(fileName, n);
    WordTitleNoNumber(series, word, ds);
    NoNumberRead(Spelled(n));
  }
}
