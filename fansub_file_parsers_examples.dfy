/** The file names the parser examples list, read through the lemmas about the whole
    parser. Each name is written as four runs of text (the group tag and the white space
    after it, the title, the end tags with the white space around them, and the extension),
    and the lemma about names of its title's shape gives the FansubFile the parser returns. */
module FansubFileParsersExamples {
  import opened Text
  import opened Outcomes
  import opened Numbers
  import opened Combinators
  import opened FansubFiles
  import opened FansubFileParsers
  import opened FansubProperties
  import opened BaseGrammars
  import opened EndTags
  import opened FansubNames
  import opened FansubTitles
  import opened ParseShapes

  /** "Hello (1).mkv" is the normalized name of series "Hello", episode 1, extension ".mkv". */
  lemma NormalizedHello()
    ensures NormalizedFileNameParser("Hello (1).mkv") == Returned(Matched(FansubFile([], "Hello", 1, ".mkv"), []))
  {
    assert "Hello" + " (1).mkv" == "Hello (1).mkv";
    NormalizedRow("Hello");
  }

  /** "Hello-kitty (1).mkv": a dash in a normalized name stays in the series. */
  lemma NormalizedHelloKitty()
    ensures NormalizedFileNameParser("Hello-kitty (1).mkv") ==
      Returned(Matched(FansubFile([], "Hello-kitty", 1, ".mkv"), []))
  {
    assert "Hello-kitty" + " (1).mkv" == "Hello-kitty (1).mkv";
    NormalizedRow("Hello-kitty");
  }

  /** Any series of letters and dashes, episode 1, extension ".mkv". */
  lemma NormalizedRow(series: string)
    requires series != [] && forall i :: 0 <= i < |series| ==> IsLetter(series[i]) || series[i] == '-'
    ensures NormalizedFileNameParser(series + " (1).mkv") ==
      Returned(Matched(FansubFile([], series, 1, ".mkv"), []))
  {
    assert Decimal(1) == "1";
    assert IsTrimmed(series) by {
      assert !IsWhiteSpace(series[0]) && !IsWhiteSpace(series[|series| - 1]);
    }
    assert AllIn(LetterOrDigit, "mkv");
    assert NormalizedName(series, "1", "mkv") == series + " (1).mkv" by {
      assert " (" + "1" + ")." + "mkv" == " (1).mkv";
    }
    assert "." + "mkv" == ".mkv";
    NormalizedRoundTrip(series, 1, "mkv");
  }

  // ---------------------------------------------------------------- names written out

  /** A name as four runs of text: the group tag and the white space after it, the title,
      the white space and the end tags after the title, and the extension with its dot. */
  lemma SpelledChunks(n: FansubName)
    ensures Spelled(n) == GroupTag(n) + n.lead + n.title + (n.trail + TagsText(n.tags)) + ("." + n.ext)
  {
    var g, t := GroupTag(n), TagsText(n.tags);
    Flat3(g, n.lead, n.title, n.trail);
    Regroup(g + n.lead + n.title, n.trail, t);
    Regroup(Stem(n), ".", n.ext);
  }

  lemma Flat3(x: string, a: string, b: string, c: string)
    ensures x + (a + b + c) == x + a + b + c
  {
  }

  lemma Flat4(x: string, a: string, b: string, c: string, d: string)
    ensures x + (a + b + c + d) == x + a + b + c + d
  {
  }

  /** One end tag written out. */
  lemma OneTag(t: EndTag)
    ensures TagsText([t]) == Enclose(t.bracket, t.text) + t.gap
  {
    TagsTextCons([t]);
    assert [t][1..] == [];
  }

  /** Two end tags written out. */
  lemma TwoTags(t0: EndTag, t1: EndTag)
    ensures TagsText([t0, t1]) == Enclose(t0.bracket, t0.text) + t0.gap + Enclose(t1.bracket, t1.text) + t1.gap
  {
    TagsTextCons([t0, t1]);
    assert [t0, t1][1..] == [t1];
    OneTag(t1);
    Regroup(Enclose(t0.bracket, t0.text) + t0.gap, Enclose(t1.bracket, t1.text), t1.gap);
  }

  /** Three end tags written out. */
  lemma ThreeTags(t0: EndTag, t1: EndTag, t2: EndTag)
    ensures TagsText([t0, t1, t2]) == Enclose(t0.bracket, t0.text) + t0.gap + Enclose(t1.bracket, t1.text) + t1.gap
      + Enclose(t2.bracket, t2.text) + t2.gap
  {
    TagsTextCons([t0, t1, t2]);
    assert [t0, t1, t2][1..] == [t1, t2];
    TwoTags(t1, t2);
    Flat4(Enclose(t0.bracket, t0.text) + t0.gap, Enclose(t1.bracket, t1.text), t1.gap, Enclose(t2.bracket, t2.text), t2.gap);
  }

  /** The parts of a name around its title and its tags: plain text in the group and the
      extension, white space around the title. */
  predicate AroundOk(n: FansubName) {
    Plain(n.group) && AllIn(WhiteSpace, n.lead) && AllIn(WhiteSpace, n.trail) && n.ext != [] && Plain(n.ext)
  }

  /** An end tag a name with this group tag may carry. */
  predicate TagFits(groupTag: string, t: EndTag) {
    EndTagOk(t) && groupTag != Enclose(t.bracket, t.text) && (t.bracket == Round ==> NotANumber(t.text))
  }

  lemma FramedOne(n: FansubName)
    requires AroundOk(n) && |n.tags| == 1 && TagFits(GroupTag(n), n.tags[0])
    ensures FrameOk(n)
  {
  }

  lemma FramedTwo(n: FansubName)
    requires AroundOk(n) && |n.tags| == 2
    requires TagFits(GroupTag(n), n.tags[0]) && TagFits(GroupTag(n), n.tags[1])
    ensures FrameOk(n)
  {
    forall i | 0 <= i < 2 ensures TagFits(GroupTag(n), n.tags[i]) {
      if i == 1 {}
    }
  }

  lemma FramedThree(n: FansubName)
    requires AroundOk(n) && |n.tags| == 3
    requires TagFits(GroupTag(n), n.tags[0]) && TagFits(GroupTag(n), n.tags[1]) && TagFits(GroupTag(n), n.tags[2])
    ensures FrameOk(n)
  {
    forall i | 0 <= i < 3 ensures TagFits(GroupTag(n), n.tags[i]) {
      if i == 1 {} else if i == 2 {}
    }
  }

  /** A name written with spaces, whose title is plain, is left as it is when underscores
      are made spaces. */
  lemma UnderscoreFree(fileName: string, n: FansubName)
    requires FrameOk(n) && Plain(n.title) && fileName == Spelled(n)
    ensures ReplaceChar(fileName, '_', ' ') == Spelled(n)
  {
    SpelledNoUnderscore(n);
  }

  /** Making underscores spaces in "a_b", when b holds none. */
  lemma UnderscoreJoin(a: string, b: string)
    requires NoneIn(Is('_'), b)
    ensures ReplaceChar(a + "_" + b, '_', ' ') == ReplaceChar(a, '_', ' ') + " " + b
  {
    ReplaceCharAppend(a + "_", b, '_', ' ');
    ReplaceCharAppend(a, "_", '_', ' ');
    assert ReplaceChar("_", '_', ' ')[0] == ' ';
    ReplaceCharAbsent(b, '_', ' ');
  }

  /** Making underscores spaces, run by run. */
  lemma ReplaceFour(a: string, b: string, c: string, d: string)
    ensures ReplaceChar(a + b + c + d, '_', ' ') ==
      ReplaceChar(a, '_', ' ') + ReplaceChar(b, '_', ' ') + ReplaceChar(c, '_', ' ') + ReplaceChar(d, '_', ' ')
  {
    ReplaceCharAppend(a + b + c, d, '_', ' ');
    ReplaceCharAppend(a + b, c, '_', ' ');
    ReplaceCharAppend(a, b, '_', ' ');
  }

  /** A name written in four runs, each run's underscores made spaces on its own. */
  lemma UnderscoresOf(fileName: string, s: string, c0: string, c1: string, c2: string, c3: string,
                      d0: string, d1: string, d2: string, d3: string)
    requires fileName == c0 + c1 + c2 + c3 && s == d0 + d1 + d2 + d3
    requires ReplaceChar(c0, '_', ' ') == d0 && ReplaceChar(c1, '_', ' ') == d1
    requires ReplaceChar(c2, '_', ' ') == d2 && ReplaceChar(c3, '_', ' ') == d3
    ensures ReplaceChar(fileName, '_', ' ') == s
  {
    ReplaceFour(c0, c1, c2, c3);
  }

  /** A series read at a dash, without a dash of its own. */
  lemma SeriesWhole(s: string)
    requires Plain(s) && NoneIn(Is('-'), s) && s != [] && !IsWhiteSpace(s[0]) && !IsWhiteSpace(s[|s| - 1])
    ensures SeriesOk(s)
  {
  }

  /** A series read at a dash, with one dash of its own, alone or between spaces. */
  lemma SeriesDashed(a: string, m: string, b: string)
    requires m == "-" || m == " - "
    requires Plain(a) && Plain(b) && NoneIn(Is('-'), a) && NoneIn(Is('-'), b)
    requires a != [] && b != [] && !IsWhiteSpace(a[0]) && !IsWhiteSpace(b[|b| - 1])
    ensures SeriesOk(a + m + b)
  {
    var s := a + m + b;
    PlainAppend(a, m);
    PlainAppend(a + m, b);
    forall i | 0 <= i < |s| - 1 && s[i] == '-' ensures s[i + 1] != '-' {
      if m == "-" && i == |a| {
        assert s[i + 1] == b[0];
      }
    }
    assert s[0] == a[0] && s[|s| - 1] == b[|b| - 1];
  }

  /** Text without `c` is one piece. */
  lemma SplitNone(s: string, c: char)
    requires NoneIn(Is(c), s)
    ensures Split(s, c) == [s]
  {
    SpanIs(But(Any, Is(c)), s, |s|);
  }

  /** "[Aho-Taku] Sakurasou no Pet na Kanojo - 18 [720p-Hi10P][1D8F695D].mkv": two tags side by side; group "Aho-Taku", series "Sakurasou no Pet na Kanojo", episode 18, extension ".mkv". */
  lemma AhoTakuRow(fileName: string)
    requires fileName == "[Aho-Taku] " + "Sakurasou no Pet na Kanojo - 18" + " [720p-Hi10P][1D8F695D]" + ".mkv"
    ensures ParseFansubFile(fileName) == Returned(Some(FansubFile("Aho-Taku", "Sakurasou no Pet na Kanojo", 18, ".mkv")))
  {
    var n := AhoTakuName(fileName);
    AhoTakuTitle();
    DashNameParsed(fileName, n, "Sakurasou no Pet na Kanojo", "18", "", "");
  }

  lemma AhoTakuName(fileName: string) returns (n: FansubName)
    requires fileName == "[Aho-Taku] " + "Sakurasou no Pet na Kanojo - 18" + " [720p-Hi10P][1D8F695D]" + ".mkv"
    ensures FrameOk(n) && ReplaceChar(fileName, '_', ' ') == Spelled(n)
    ensures n.title == DashTitle("Sakurasou no Pet na Kanojo", "18", "", "")
    ensures n.group == "Aho-Taku" && "." + n.ext == ".mkv"
  {
    n := FansubName(Square, "Aho-Taku", " ", "Sakurasou no Pet na Kanojo - 18", " ", [EndTag(Square, "720p-Hi10P", ""), EndTag(Square, "1D8F695D", "")], "mkv");
    AhoTakuTitleIs(n.title);
    AhoTakuTitlePlain(n.title);
    AhoTakuFrame(n);
    AhoTakuSpelled(fileName, n);
    UnderscoreFree(fileName, n);
  }

  lemma AhoTakuSpelled(fileName: string, n: FansubName)
    requires fileName == "[Aho-Taku] " + "Sakurasou no Pet na Kanojo - 18" + " [720p-Hi10P][1D8F695D]" + ".mkv"
    requires n == FansubName(Square, "Aho-Taku", " ", "Sakurasou no Pet na Kanojo - 18", " ", [EndTag(Square, "720p-Hi10P", ""), EndTag(Square, "1D8F695D", "")], "mkv")
    ensures fileName == Spelled(n)
  {
    SpelledChunks(n);
    TwoTags(n.tags[0], n.tags[1]);
    AhoTakuHead(n);
    AhoTakuTag0(n.tags[0]);
    AhoTakuTag1(n.tags[1]);
    AhoTakuTail(n.trail, Enclose(n.tags[0].bracket, n.tags[0].text), n.tags[0].gap, Enclose(n.tags[1].bracket, n.tags[1].text), n.tags[1].gap);
  }

  lemma AhoTakuHead(n: FansubName)
    requires n == FansubName(Square, "Aho-Taku", " ", "Sakurasou no Pet na Kanojo - 18", " ", [EndTag(Square, "720p-Hi10P", ""), EndTag(Square, "1D8F695D", "")], "mkv")
    ensures GroupTag(n) + n.lead == "[Aho-Taku] " && n.title == "Sakurasou no Pet na Kanojo - 18" && "." + n.ext == ".mkv"
  {
  }

  lemma AhoTakuTag0(t: EndTag)
    requires t == EndTag(Square, "720p-Hi10P", "")
    ensures Enclose(t.bracket, t.text) == "[720p-Hi10P]" && TagFits("[Aho-Taku]", t)
  {
    AhoTakuTag0Enclosed(t);
    AhoTakuTag0Plain(t.text);
    AhoTakuTag0Differs("[Aho-Taku]", "[720p-Hi10P]");
  }

  lemma AhoTakuTag0Enclosed(t: EndTag)
    requires t == EndTag(Square, "720p-Hi10P", "")
    ensures Enclose(t.bracket, t.text) == "[720p-Hi10P]"
  {
  }

  lemma AhoTakuTag0Differs(g: string, e: string)
    requires g == "[Aho-Taku]" && e == "[720p-Hi10P]"
    ensures g != e
  {
    assert |g| == 10 && |e| == 12;
  }

  lemma AhoTakuTag0Plain(s: string)
    requires s == "720p-Hi10P"
    ensures Plain(s)
  {
  }

  lemma AhoTakuTag1(t: EndTag)
    requires t == EndTag(Square, "1D8F695D", "")
    ensures Enclose(t.bracket, t.text) == "[1D8F695D]" && TagFits("[Aho-Taku]", t)
  {
    AhoTakuTag1Enclosed(t);
    AhoTakuTag1Plain(t.text);
    AhoTakuTag1Differs("[Aho-Taku]", "[1D8F695D]");
  }

  lemma AhoTakuTag1Enclosed(t: EndTag)
    requires t == EndTag(Square, "1D8F695D", "")
    ensures Enclose(t.bracket, t.text) == "[1D8F695D]"
  {
  }

  lemma AhoTakuTag1Differs(g: string, e: string)
    requires g == "[Aho-Taku]" && e == "[1D8F695D]"
    ensures g != e
  {
    assert g[1] != e[1];
  }

  lemma AhoTakuTag1Plain(s: string)
    requires s == "1D8F695D"
    ensures Plain(s)
  {
  }

  lemma AhoTakuTail(trail: string, e0: string, g0: string, e1: string, g1: string)
    requires trail == " " && e0 == "[720p-Hi10P]" && g0 == "" && e1 == "[1D8F695D]" && g1 == ""
    ensures trail + (e0 + g0 + e1 + g1) == " [720p-Hi10P][1D8F695D]"
  {
  }

  lemma AhoTakuFrame(n: FansubName)
    requires n == FansubName(Square, "Aho-Taku", " ", "Sakurasou no Pet na Kanojo - 18", " ", [EndTag(Square, "720p-Hi10P", ""), EndTag(Square, "1D8F695D", "")], "mkv")
    ensures FrameOk(n)
  {
    AhoTakuAround(n);
    AhoTakuTag0(n.tags[0]);
    AhoTakuTag1(n.tags[1]);
    FramedTwo(n);
  }

  lemma AhoTakuAround(n: FansubName)
    requires n == FansubName(Square, "Aho-Taku", " ", "Sakurasou no Pet na Kanojo - 18", " ", [EndTag(Square, "720p-Hi10P", ""), EndTag(Square, "1D8F695D", "")], "mkv")
    ensures AroundOk(n) && GroupTag(n) == "[Aho-Taku]" && |n.tags| == 2
  {
  }

  lemma AhoTakuTitlePlain(t: string)
    requires t == "Sakurasou no Pet na Kanojo - 18"
    ensures Plain(t)
  {
    var p0, p1 := "Sakurasou no Pet na", " Kanojo - 18";
    AhoTakuTitlePlainPieces(t, p0, p1);
    AhoTakuTitlePlain0(p0);
    AhoTakuTitlePlain1(p1);
    PlainAppend(p0, p1);
  }

  lemma AhoTakuTitlePlainPieces(t: string, p0: string, p1: string)
    requires t == "Sakurasou no Pet na Kanojo - 18" && p0 == "Sakurasou no Pet na" && p1 == " Kanojo - 18"
    ensures t == p0 + p1
  {
  }

  lemma AhoTakuTitlePlain0(s: string)
    requires s == "Sakurasou no Pet na"
    ensures Plain(s)
  {
  }

  lemma AhoTakuTitlePlain1(s: string)
    requires s == " Kanojo - 18"
    ensures Plain(s)
  {
  }

  lemma AhoTakuTitle()
    ensures "Sakurasou no Pet na Kanojo - 18" == DashTitle("Sakurasou no Pet na Kanojo", "18", "", "")
    ensures SeriesOk("Sakurasou no Pet na Kanojo") && EpisodeOk("18") && VersionOk("Sakurasou no Pet na Kanojo", "", "")
    ensures DigitsValue("18") == 18
  {
    AhoTakuTitleIs("Sakurasou no Pet na Kanojo - 18");
    AhoTakuSeries("Sakurasou no Pet na Kanojo");
    AhoTakuEpisode("18");
    assert VersionOk("Sakurasou no Pet na Kanojo", "", "");
  }

  lemma AhoTakuTitleIs(t: string)
    requires t == "Sakurasou no Pet na Kanojo - 18"
    ensures t == DashTitle("Sakurasou no Pet na Kanojo", "18", "", "")
  {
    assert Version("", "") == [];
    assert "Sakurasou no Pet na Kanojo" + " - " == "Sakurasou no Pet na Kanojo - ";
    assert "Sakurasou no Pet na Kanojo - " + "18" == "Sakurasou no Pet na Kanojo - 18";
  }

  lemma AhoTakuSeries(s: string)
    requires s == "Sakurasou no Pet na Kanojo"
    ensures SeriesOk(s)
  {
    AhoTakuSeriesPlain(s);
    AhoTakuSeriesNoDash(s);
    SeriesWhole(s);
  }

  lemma AhoTakuSeriesPlain(s: string)
    requires s == "Sakurasou no Pet na Kanojo"
    ensures Plain(s)
  {
    var p0, p1 := "Sakurasou no Pet", " na Kanojo";
    AhoTakuSeriesPlainPieces(s, p0, p1);
    AhoTakuSeriesPlain0(p0);
    AhoTakuSeriesPlain1(p1);
    PlainAppend(p0, p1);
  }

  lemma AhoTakuSeriesPlainPieces(s: string, p0: string, p1: string)
    requires s == "Sakurasou no Pet na Kanojo" && p0 == "Sakurasou no Pet" && p1 == " na Kanojo"
    ensures s == p0 + p1
  {
  }

  lemma AhoTakuSeriesPlain0(s: string)
    requires s == "Sakurasou no Pet"
    ensures Plain(s)
  {
  }

  lemma AhoTakuSeriesPlain1(s: string)
    requires s == " na Kanojo"
    ensures Plain(s)
  {
  }

  lemma AhoTakuSeriesNoDash(s: string)
    requires s == "Sakurasou no Pet na Kanojo"
    ensures NoneIn(Is('-'), s)
  {
    var p0, p1 := "Sakurasou no Pet", " na Kanojo";
    AhoTakuSeriesNoDashPieces(s, p0, p1);
    AhoTakuSeriesNoDash0(p0);
    AhoTakuSeriesNoDash1(p1);
    NoneInAppend(Is('-'), p0, p1);
  }

  lemma AhoTakuSeriesNoDashPieces(s: string, p0: string, p1: string)
    requires s == "Sakurasou no Pet na Kanojo" && p0 == "Sakurasou no Pet" && p1 == " na Kanojo"
    ensures s == p0 + p1
  {
  }

  lemma AhoTakuSeriesNoDash0(s: string)
    requires s == "Sakurasou no Pet"
    ensures NoneIn(Is('-'), s)
  {
  }

  lemma AhoTakuSeriesNoDash1(s: string)
    requires s == " na Kanojo"
    ensures NoneIn(Is('-'), s)
  {
  }

  lemma AhoTakuEpisode(ds: string)
    requires ds == "18"
    ensures EpisodeOk(ds) && DigitsValue(ds) == 18
  {
    assert DigitsValue(ds[..1]) == 1;
  }

  /** "[Mazui]_Boku_Ha_Tomodachi_Ga_Sukunai_NEXT_-_05_[12F80420].mkv": underscores for spaces; group "Mazui", series "Boku Ha Tomodachi Ga Sukunai NEXT", episode 5, extension ".mkv". */
  lemma MazuiRow(fileName: string)
    requires fileName == "[Mazui]_" + "Boku_Ha_Tomodachi_Ga_Sukunai_NEXT_-_05" + "_[12F80420]" + ".mkv"
    ensures ParseFansubFile(fileName) == Returned(Some(FansubFile("Mazui", "Boku Ha Tomodachi Ga Sukunai NEXT", 5, ".mkv")))
  {
    var n := MazuiName(fileName);
    MazuiTitle();
    DashNameParsed(fileName, n, "Boku Ha Tomodachi Ga Sukunai NEXT", "05", "", "");
  }

  lemma MazuiName(fileName: string) returns (n: FansubName)
    requires fileName == "[Mazui]_" + "Boku_Ha_Tomodachi_Ga_Sukunai_NEXT_-_05" + "_[12F80420]" + ".mkv"
    ensures FrameOk(n) && ReplaceChar(fileName, '_', ' ') == Spelled(n)
    ensures n.title == DashTitle("Boku Ha Tomodachi Ga Sukunai NEXT", "05", "", "")
    ensures n.group == "Mazui" && "." + n.ext == ".mkv"
  {
    n := FansubName(Square, "Mazui", " ", "Boku Ha Tomodachi Ga Sukunai NEXT - 05", " ", [EndTag(Square, "12F80420", "")], "mkv");
    MazuiTitleIs(n.title);
    MazuiFrame(n);
    MazuiSpelled(fileName, n);
  }

  lemma MazuiSpelled(fileName: string, n: FansubName)
    requires fileName == "[Mazui]_" + "Boku_Ha_Tomodachi_Ga_Sukunai_NEXT_-_05" + "_[12F80420]" + ".mkv"
    requires n == FansubName(Square, "Mazui", " ", "Boku Ha Tomodachi Ga Sukunai NEXT - 05", " ", [EndTag(Square, "12F80420", "")], "mkv")
    ensures ReplaceChar(fileName, '_', ' ') == Spelled(n)
  {
    MazuiText(n, "[Mazui] " + "Boku Ha Tomodachi Ga Sukunai NEXT - 05" + " [12F80420]" + ".mkv");
    MazuiUnderscores(fileName, "[Mazui] " + "Boku Ha Tomodachi Ga Sukunai NEXT - 05" + " [12F80420]" + ".mkv");
  }

  lemma MazuiText(n: FansubName, s: string)
    requires n == FansubName(Square, "Mazui", " ", "Boku Ha Tomodachi Ga Sukunai NEXT - 05", " ", [EndTag(Square, "12F80420", "")], "mkv")
    requires s == "[Mazui] " + "Boku Ha Tomodachi Ga Sukunai NEXT - 05" + " [12F80420]" + ".mkv"
    ensures s == Spelled(n)
  {
    SpelledChunks(n);
    OneTag(n.tags[0]);
    MazuiHead(n);
    MazuiTag0(n.tags[0]);
    MazuiTail(n.trail, Enclose(n.tags[0].bracket, n.tags[0].text), n.tags[0].gap);
  }

  lemma MazuiHead(n: FansubName)
    requires n == FansubName(Square, "Mazui", " ", "Boku Ha Tomodachi Ga Sukunai NEXT - 05", " ", [EndTag(Square, "12F80420", "")], "mkv")
    ensures GroupTag(n) + n.lead == "[Mazui] " && n.title == "Boku Ha Tomodachi Ga Sukunai NEXT - 05" && "." + n.ext == ".mkv"
  {
  }

  lemma MazuiTag0(t: EndTag)
    requires t == EndTag(Square, "12F80420", "")
    ensures Enclose(t.bracket, t.text) == "[12F80420]" && TagFits("[Mazui]", t)
  {
    MazuiTag0Enclosed(t);
    MazuiTag0Plain(t.text);
    MazuiTag0Differs("[Mazui]", "[12F80420]");
  }

  lemma MazuiTag0Enclosed(t: EndTag)
    requires t == EndTag(Square, "12F80420", "")
    ensures Enclose(t.bracket, t.text) == "[12F80420]"
  {
  }

  lemma MazuiTag0Differs(g: string, e: string)
    requires g == "[Mazui]" && e == "[12F80420]"
    ensures g != e
  {
    assert |g| == 7 && |e| == 10;
  }

  lemma MazuiTag0Plain(s: string)
    requires s == "12F80420"
    ensures Plain(s)
  {
  }

  lemma MazuiTail(trail: string, e0: string, g0: string)
    requires trail == " " && e0 == "[12F80420]" && g0 == ""
    ensures trail + (e0 + g0) == " [12F80420]"
  {
  }

  lemma MazuiUnderscores(fileName: string, s: string)
    requires fileName == "[Mazui]_" + "Boku_Ha_Tomodachi_Ga_Sukunai_NEXT_-_05" + "_[12F80420]" + ".mkv"
    requires s == "[Mazui] " + "Boku Ha Tomodachi Ga Sukunai NEXT - 05" + " [12F80420]" + ".mkv"
    ensures ReplaceChar(fileName, '_', ' ') == s
  {
    var c0, c1, c2, c3 := "[Mazui]_", "Boku_Ha_Tomodachi_Ga_Sukunai_NEXT_-_05", "_[12F80420]", ".mkv";
    var d0, d1, d2 := "[Mazui] ", "Boku Ha Tomodachi Ga Sukunai NEXT - 05", " [12F80420]";
    MazuiNoUnderscores(c3);
    var w00, w01 := "[Mazui]", "";
    MazuiSplit0(c0, w00, w01);
    MazuiPlain0(w00, w01);
    MazuiJoined0(d0, w00, w01);
    var w10, w11, w12, w13, w14, w15, w16, w17 := "Boku", "Ha", "Tomodachi", "Ga", "Sukunai", "NEXT", "-", "05";
    MazuiSplit1(c1, w10, w11, w12, w13, w14, w15, w16, w17);
    MazuiPlain1(w10, w11, w12, w13, w14, w15, w16, w17);
    MazuiJoined1(d1, w10, w11, w12, w13, w14, w15, w16, w17);
    var w20, w21 := "", "[12F80420]";
    MazuiSplit2(c2, w20, w21);
    MazuiPlain2(w20, w21);
    MazuiJoined2(d2, w20, w21);
    ReplaceCharAbsent(c3, '_', ' ');
    ReplaceCharAbsent(w00, '_', ' ');
    UnderscoreJoin(w00, w01);
    ReplaceCharAbsent(w10, '_', ' ');
    UnderscoreJoin(w10, w11);
    UnderscoreJoin(w10 + "_" + w11, w12);
    UnderscoreJoin(w10 + "_" + w11 + "_" + w12, w13);
    UnderscoreJoin(w10 + "_" + w11 + "_" + w12 + "_" + w13, w14);
    UnderscoreJoin(w10 + "_" + w11 + "_" + w12 + "_" + w13 + "_" + w14, w15);
    UnderscoreJoin(w10 + "_" + w11 + "_" + w12 + "_" + w13 + "_" + w14 + "_" + w15, w16);
    UnderscoreJoin(w10 + "_" + w11 + "_" + w12 + "_" + w13 + "_" + w14 + "_" + w15 + "_" + w16, w17);
    ReplaceCharAbsent(w20, '_', ' ');
    UnderscoreJoin(w20, w21);
    UnderscoresOf(fileName, s, c0, c1, c2, c3, d0, d1, d2, c3);
  }

  lemma MazuiNoUnderscores(c3: string)
    requires c3 == ".mkv"
    ensures NoneIn(Is('_'), c3)
  {
  }

  lemma MazuiSplit0(c: string, w0: string, w1: string)
    requires c == "[Mazui]_"
    requires w0 == "[Mazui]" && w1 == ""
    ensures c == w0 + "_" + w1
  {
  }

  lemma MazuiPlain0(w0: string, w1: string)
    requires w0 == "[Mazui]" && w1 == ""
    ensures NoneIn(Is('_'), w0) && NoneIn(Is('_'), w1)
  {
  }

  lemma MazuiJoined0(d: string, w0: string, w1: string)
    requires d == "[Mazui] "
    requires w0 == "[Mazui]" && w1 == ""
    ensures d == w0 + " " + w1
  {
  }

  lemma MazuiSplit1(c: string, w0: string, w1: string, w2: string, w3: string, w4: string, w5: string, w6: string, w7: string)
    requires c == "Boku_Ha_Tomodachi_Ga_Sukunai_NEXT_-_05"
    requires w0 == "Boku" && w1 == "Ha" && w2 == "Tomodachi" && w3 == "Ga" && w4 == "Sukunai" && w5 == "NEXT" && w6 == "-" && w7 == "05"
    ensures c == w0 + "_" + w1 + "_" + w2 + "_" + w3 + "_" + w4 + "_" + w5 + "_" + w6 + "_" + w7
  {
  }

  lemma MazuiPlain1(w0: string, w1: string, w2: string, w3: string, w4: string, w5: string, w6: string, w7: string)
    requires w0 == "Boku" && w1 == "Ha" && w2 == "Tomodachi" && w3 == "Ga" && w4 == "Sukunai" && w5 == "NEXT" && w6 == "-" && w7 == "05"
    ensures NoneIn(Is('_'), w0) && NoneIn(Is('_'), w1) && NoneIn(Is('_'), w2) && NoneIn(Is('_'), w3) && NoneIn(Is('_'), w4) && NoneIn(Is('_'), w5) && NoneIn(Is('_'), w6) && NoneIn(Is('_'), w7)
  {
  }

  lemma MazuiJoined1(d: string, w0: string, w1: string, w2: string, w3: string, w4: string, w5: string, w6: string, w7: string)
    requires d == "Boku Ha Tomodachi Ga Sukunai NEXT - 05"
    requires w0 == "Boku" && w1 == "Ha" && w2 == "Tomodachi" && w3 == "Ga" && w4 == "Sukunai" && w5 == "NEXT" && w6 == "-" && w7 == "05"
    ensures d == w0 + " " + w1 + " " + w2 + " " + w3 + " " + w4 + " " + w5 + " " + w6 + " " + w7
  {
  }

  lemma MazuiSplit2(c: string, w0: string, w1: string)
    requires c == "_[12F80420]"
    requires w0 == "" && w1 == "[12F80420]"
    ensures c == w0 + "_" + w1
  {
  }

  lemma MazuiPlain2(w0: string, w1: string)
    requires w0 == "" && w1 == "[12F80420]"
    ensures NoneIn(Is('_'), w0) && NoneIn(Is('_'), w1)
  {
  }

  lemma MazuiJoined2(d: string, w0: string, w1: string)
    requires d == " [12F80420]"
    requires w0 == "" && w1 == "[12F80420]"
    ensures d == w0 + " " + w1
  {
  }

  lemma MazuiFrame(n: FansubName)
    requires n == FansubName(Square, "Mazui", " ", "Boku Ha Tomodachi Ga Sukunai NEXT - 05", " ", [EndTag(Square, "12F80420", "")], "mkv")
    ensures FrameOk(n)
  {
    MazuiAround(n);
    MazuiTag0(n.tags[0]);
    FramedOne(n);
  }

  lemma MazuiAround(n: FansubName)
    requires n == FansubName(Square, "Mazui", " ", "Boku Ha Tomodachi Ga Sukunai NEXT - 05", " ", [EndTag(Square, "12F80420", "")], "mkv")
    ensures AroundOk(n) && GroupTag(n) == "[Mazui]" && |n.tags| == 1
  {
  }

  lemma MazuiTitle()
    ensures "Boku Ha Tomodachi Ga Sukunai NEXT - 05" == DashTitle("Boku Ha Tomodachi Ga Sukunai NEXT", "05", "", "")
    ensures SeriesOk("Boku Ha Tomodachi Ga Sukunai NEXT") && EpisodeOk("05") && VersionOk("Boku Ha Tomodachi Ga Sukunai NEXT", "", "")
    ensures DigitsValue("05") == 5
  {
    MazuiTitleIs("Boku Ha Tomodachi Ga Sukunai NEXT - 05");
    MazuiSeries("Boku Ha Tomodachi Ga Sukunai NEXT");
    MazuiEpisode("05");
    assert VersionOk("Boku Ha Tomodachi Ga Sukunai NEXT", "", "");
  }

  lemma MazuiTitleIs(t: string)
    requires t == "Boku Ha Tomodachi Ga Sukunai NEXT - 05"
    ensures t == DashTitle("Boku Ha Tomodachi Ga Sukunai NEXT", "05", "", "")
  {
    assert Version("", "") == [];
    assert "Boku Ha Tomodachi Ga Sukunai NEXT" + " - " == "Boku Ha Tomodachi Ga Sukunai NEXT - ";
    assert "Boku Ha Tomodachi Ga Sukunai NEXT - " + "05" == "Boku Ha Tomodachi Ga Sukunai NEXT - 05";
  }

  lemma MazuiSeries(s: string)
    requires s == "Boku Ha Tomodachi Ga Sukunai NEXT"
    ensures SeriesOk(s)
  {
    MazuiSeriesPlain(s);
    MazuiSeriesNoDash(s);
    SeriesWhole(s);
  }

  lemma MazuiSeriesPlain(s: string)
    requires s == "Boku Ha Tomodachi Ga Sukunai NEXT"
    ensures Plain(s)
  {
    var p0, p1 := "Boku Ha Tomodachi Ga", " Sukunai NEXT";
    MazuiSeriesPlainPieces(s, p0, p1);
    MazuiSeriesPlain0(p0);
    MazuiSeriesPlain1(p1);
    PlainAppend(p0, p1);
  }

  lemma MazuiSeriesPlainPieces(s: string, p0: string, p1: string)
    requires s == "Boku Ha Tomodachi Ga Sukunai NEXT" && p0 == "Boku Ha Tomodachi Ga" && p1 == " Sukunai NEXT"
    ensures s == p0 + p1
  {
  }

  lemma MazuiSeriesPlain0(s: string)
    requires s == "Boku Ha Tomodachi Ga"
    ensures Plain(s)
  {
  }

  lemma MazuiSeriesPlain1(s: string)
    requires s == " Sukunai NEXT"
    ensures Plain(s)
  {
  }

  lemma MazuiSeriesNoDash(s: string)
    requires s == "Boku Ha Tomodachi Ga Sukunai NEXT"
    ensures NoneIn(Is('-'), s)
  {
    var p0, p1 := "Boku Ha Tomodachi Ga", " Sukunai NEXT";
    MazuiSeriesNoDashPieces(s, p0, p1);
    MazuiSeriesNoDash0(p0);
    MazuiSeriesNoDash1(p1);
    NoneInAppend(Is('-'), p0, p1);
  }

  lemma MazuiSeriesNoDashPieces(s: string, p0: string, p1: string)
    requires s == "Boku Ha Tomodachi Ga Sukunai NEXT" && p0 == "Boku Ha Tomodachi Ga" && p1 == " Sukunai NEXT"
    ensures s == p0 + p1
  {
  }

  lemma MazuiSeriesNoDash0(s: string)
    requires s == "Boku Ha Tomodachi Ga"
    ensures NoneIn(Is('-'), s)
  {
  }

  lemma MazuiSeriesNoDash1(s: string)
    requires s == " Sukunai NEXT"
    ensures NoneIn(Is('-'), s)
  {
  }

  lemma MazuiEpisode(ds: string)
    requires ds == "05"
    ensures EpisodeOk(ds) && DigitsValue(ds) == 5
  {
    assert DigitsValue(ds[..1]) == 0;
  }

  /** "[Anime-Koi] GJ-bu - 05 [h264-720p][E533CA00].mkv": a dash inside the series; group "Anime-Koi", series "GJ-bu", episode 5, extension ".mkv". */
  lemma AnimeKoiRow(fileName: string)
    requires fileName == "[Anime-Koi] " + "GJ-bu - 05" + " [h264-720p][E533CA00]" + ".mkv"
    ensures ParseFansubFile(fileName) == Returned(Some(FansubFile("Anime-Koi", "GJ-bu", 5, ".mkv")))
  {
    var n := AnimeKoiName(fileName);
    AnimeKoiTitle();
    DashNameParsed(fileName, n, "GJ-bu", "05", "", "");
  }

  lemma AnimeKoiName(fileName: string) returns (n: FansubName)
    requires fileName == "[Anime-Koi] " + "GJ-bu - 05" + " [h264-720p][E533CA00]" + ".mkv"
    ensures FrameOk(n) && ReplaceChar(fileName, '_', ' ') == Spelled(n)
    ensures n.title == DashTitle("GJ-bu", "05", "", "")
    ensures n.group == "Anime-Koi" && "." + n.ext == ".mkv"
  {
    n := FansubName(Square, "Anime-Koi", " ", "GJ-bu - 05", " ", [EndTag(Square, "h264-720p", ""), EndTag(Square, "E533CA00", "")], "mkv");
    AnimeKoiTitleIs(n.title);
    AnimeKoiTitlePlain(n.title);
    AnimeKoiFrame(n);
    AnimeKoiSpelled(fileName, n);
    UnderscoreFree(fileName, n);
  }

  lemma AnimeKoiSpelled(fileName: string, n: FansubName)
    requires fileName == "[Anime-Koi] " + "GJ-bu - 05" + " [h264-720p][E533CA00]" + ".mkv"
    requires n == FansubName(Square, "Anime-Koi", " ", "GJ-bu - 05", " ", [EndTag(Square, "h264-720p", ""), EndTag(Square, "E533CA00", "")], "mkv")
    ensures fileName == Spelled(n)
  {
    SpelledChunks(n);
    TwoTags(n.tags[0], n.tags[1]);
    AnimeKoiHead(n);
    AnimeKoiTag0(n.tags[0]);
    AnimeKoiTag1(n.tags[1]);
    AnimeKoiTail(n.trail, Enclose(n.tags[0].bracket, n.tags[0].text), n.tags[0].gap, Enclose(n.tags[1].bracket, n.tags[1].text), n.tags[1].gap);
  }

  lemma AnimeKoiHead(n: FansubName)
    requires n == FansubName(Square, "Anime-Koi", " ", "GJ-bu - 05", " ", [EndTag(Square, "h264-720p", ""), EndTag(Square, "E533CA00", "")], "mkv")
    ensures GroupTag(n) + n.lead == "[Anime-Koi] " && n.title == "GJ-bu - 05" && "." + n.ext == ".mkv"
  {
  }

  lemma AnimeKoiTag0(t: EndTag)
    requires t == EndTag(Square, "h264-720p", "")
    ensures Enclose(t.bracket, t.text) == "[h264-720p]" && TagFits("[Anime-Koi]", t)
  {
    AnimeKoiTag0Enclosed(t);
    AnimeKoiTag0Plain(t.text);
    AnimeKoiTag0Differs("[Anime-Koi]", "[h264-720p]");
  }

  lemma AnimeKoiTag0Enclosed(t: EndTag)
    requires t == EndTag(Square, "h264-720p", "")
    ensures Enclose(t.bracket, t.text) == "[h264-720p]"
  {
  }

  lemma AnimeKoiTag0Differs(g: string, e: string)
    requires g == "[Anime-Koi]" && e == "[h264-720p]"
    ensures g != e
  {
    assert g[1] != e[1];
  }

  lemma AnimeKoiTag0Plain(s: string)
    requires s == "h264-720p"
    ensures Plain(s)
  {
  }

  lemma AnimeKoiTag1(t: EndTag)
    requires t == EndTag(Square, "E533CA00", "")
    ensures Enclose(t.bracket, t.text) == "[E533CA00]" && TagFits("[Anime-Koi]", t)
  {
    AnimeKoiTag1Enclosed(t);
    AnimeKoiTag1Plain(t.text);
    AnimeKoiTag1Differs("[Anime-Koi]", "[E533CA00]");
  }

  lemma AnimeKoiTag1Enclosed(t: EndTag)
    requires t == EndTag(Square, "E533CA00", "")
    ensures Enclose(t.bracket, t.text) == "[E533CA00]"
  {
  }

  lemma AnimeKoiTag1Differs(g: string, e: string)
    requires g == "[Anime-Koi]" && e == "[E533CA00]"
    ensures g != e
  {
    assert |g| == 11 && |e| == 10;
  }

  lemma AnimeKoiTag1Plain(s: string)
    requires s == "E533CA00"
    ensures Plain(s)
  {
  }

  lemma AnimeKoiTail(trail: string, e0: string, g0: string, e1: string, g1: string)
    requires trail == " " && e0 == "[h264-720p]" && g0 == "" && e1 == "[E533CA00]" && g1 == ""
    ensures trail + (e0 + g0 + e1 + g1) == " [h264-720p][E533CA00]"
  {
  }

  lemma AnimeKoiFrame(n: FansubName)
    requires n == FansubName(Square, "Anime-Koi", " ", "GJ-bu - 05", " ", [EndTag(Square, "h264-720p", ""), EndTag(Square, "E533CA00", "")], "mkv")
    ensures FrameOk(n)
  {
    AnimeKoiAround(n);
    AnimeKoiTag0(n.tags[0]);
    AnimeKoiTag1(n.tags[1]);
    FramedTwo(n);
  }

  lemma AnimeKoiAround(n: FansubName)
    requires n == FansubName(Square, "Anime-Koi", " ", "GJ-bu - 05", " ", [EndTag(Square, "h264-720p", ""), EndTag(Square, "E533CA00", "")], "mkv")
    ensures AroundOk(n) && GroupTag(n) == "[Anime-Koi]" && |n.tags| == 2
  {
  }

  lemma AnimeKoiTitlePlain(t: string)
    requires t == "GJ-bu - 05"
    ensures Plain(t)
  {
  }

  lemma AnimeKoiTitle()
    ensures "GJ-bu - 05" == DashTitle("GJ-bu", "05", "", "")
    ensures SeriesOk("GJ-bu") && EpisodeOk("05") && VersionOk("GJ-bu", "", "")
    ensures DigitsValue("05") == 5
  {
    AnimeKoiTitleIs("GJ-bu - 05");
    AnimeKoiSeries("GJ-bu");
    AnimeKoiEpisode("05");
    assert VersionOk("GJ-bu", "", "");
  }

  lemma AnimeKoiTitleIs(t: string)
    requires t == "GJ-bu - 05"
    ensures t == DashTitle("GJ-bu", "05", "", "")
  {
    assert Version("", "") == [];
    assert "GJ-bu" + " - " == "GJ-bu - ";
    assert "GJ-bu - " + "05" == "GJ-bu - 05";
  }

  lemma AnimeKoiSeries(s: string)
    requires s == "GJ-bu"
    ensures SeriesOk(s)
  {
    var a, b := "GJ", "bu";
    AnimeKoiSeriesSplit(s, a, b);
    AnimeKoiSeriesEnds(a, b);
    AnimeKoiSeriesPlainA(a);
    AnimeKoiSeriesPlainB(b);
    AnimeKoiSeriesNoDashA(a);
    AnimeKoiSeriesNoDashB(b);
    SeriesDashed(a, "-", b);
  }

  lemma AnimeKoiSeriesSplit(s: string, a: string, b: string)
    requires s == "GJ-bu" && a == "GJ" && b == "bu"
    ensures s == a + "-" + b
  {
  }

  lemma AnimeKoiSeriesEnds(a: string, b: string)
    requires a == "GJ" && b == "bu"
    ensures a != [] && b != [] && !IsWhiteSpace(a[0]) && !IsWhiteSpace(b[|b| - 1])
  {
  }

  lemma AnimeKoiSeriesPlainA(a: string)
    requires a == "GJ"
    ensures Plain(a)
  {
  }

  lemma AnimeKoiSeriesPlainB(b: string)
    requires b == "bu"
    ensures Plain(b)
  {
  }

  lemma AnimeKoiSeriesNoDashA(a: string)
    requires a == "GJ"
    ensures NoneIn(Is('-'), a)
  {
  }

  lemma AnimeKoiSeriesNoDashB(b: string)
    requires b == "bu"
    ensures NoneIn(Is('-'), b)
  {
  }

  lemma AnimeKoiEpisode(ds: string)
    requires ds == "05"
    ensures EpisodeOk(ds) && DigitsValue(ds) == 5
  {
    assert DigitsValue(ds[..1]) == 0;
  }

  /** "[WhyNot] Mayo Chiki - 10 [D1DA2637].mkv": group "WhyNot", series "Mayo Chiki", episode 10, extension ".mkv". */
  lemma WhyNotRow(fileName: string)
    requires fileName == "[WhyNot] " + "Mayo Chiki - 10" + " [D1DA2637]" + ".mkv"
    ensures ParseFansubFile(fileName) == Returned(Some(FansubFile("WhyNot", "Mayo Chiki", 10, ".mkv")))
  {
    var n := WhyNotName(fileName);
    WhyNotTitle();
    DashNameParsed(fileName, n, "Mayo Chiki", "10", "", "");
  }

  lemma WhyNotName(fileName: string) returns (n: FansubName)
    requires fileName == "[WhyNot] " + "Mayo Chiki - 10" + " [D1DA2637]" + ".mkv"
    ensures FrameOk(n) && ReplaceChar(fileName, '_', ' ') == Spelled(n)
    ensures n.title == DashTitle("Mayo Chiki", "10", "", "")
    ensures n.group == "WhyNot" && "." + n.ext == ".mkv"
  {
    n := FansubName(Square, "WhyNot", " ", "Mayo Chiki - 10", " ", [EndTag(Square, "D1DA2637", "")], "mkv");
    WhyNotTitleIs(n.title);
    WhyNotTitlePlain(n.title);
    WhyNotFrame(n);
    WhyNotSpelled(fileName, n);
    UnderscoreFree(fileName, n);
  }

  lemma WhyNotSpelled(fileName: string, n: FansubName)
    requires fileName == "[WhyNot] " + "Mayo Chiki - 10" + " [D1DA2637]" + ".mkv"
    requires n == FansubName(Square, "WhyNot", " ", "Mayo Chiki - 10", " ", [EndTag(Square, "D1DA2637", "")], "mkv")
    ensures fileName == Spelled(n)
  {
    SpelledChunks(n);
    OneTag(n.tags[0]);
    WhyNotHead(n);
    WhyNotTag0(n.tags[0]);
    WhyNotTail(n.trail, Enclose(n.tags[0].bracket, n.tags[0].text), n.tags[0].gap);
  }

  lemma WhyNotHead(n: FansubName)
    requires n == FansubName(Square, "WhyNot", " ", "Mayo Chiki - 10", " ", [EndTag(Square, "D1DA2637", "")], "mkv")
    ensures GroupTag(n) + n.lead == "[WhyNot] " && n.title == "Mayo Chiki - 10" && "." + n.ext == ".mkv"
  {
  }

  lemma WhyNotTag0(t: EndTag)
    requires t == EndTag(Square, "D1DA2637", "")
    ensures Enclose(t.bracket, t.text) == "[D1DA2637]" && TagFits("[WhyNot]", t)
  {
    WhyNotTag0Enclosed(t);
    WhyNotTag0Plain(t.text);
    WhyNotTag0Differs("[WhyNot]", "[D1DA2637]");
  }

  lemma WhyNotTag0Enclosed(t: EndTag)
    requires t == EndTag(Square, "D1DA2637", "")
    ensures Enclose(t.bracket, t.text) == "[D1DA2637]"
  {
  }

  lemma WhyNotTag0Differs(g: string, e: string)
    requires g == "[WhyNot]" && e == "[D1DA2637]"
    ensures g != e
  {
    assert |g| == 8 && |e| == 10;
  }

  lemma WhyNotTag0Plain(s: string)
    requires s == "D1DA2637"
    ensures Plain(s)
  {
  }

  lemma WhyNotTail(trail: string, e0: string, g0: string)
    requires trail == " " && e0 == "[D1DA2637]" && g0 == ""
    ensures trail + (e0 + g0) == " [D1DA2637]"
  {
  }

  lemma WhyNotFrame(n: FansubName)
    requires n == FansubName(Square, "WhyNot", " ", "Mayo Chiki - 10", " ", [EndTag(Square, "D1DA2637", "")], "mkv")
    ensures FrameOk(n)
  {
    WhyNotAround(n);
    WhyNotTag0(n.tags[0]);
    FramedOne(n);
  }

  lemma WhyNotAround(n: FansubName)
    requires n == FansubName(Square, "WhyNot", " ", "Mayo Chiki - 10", " ", [EndTag(Square, "D1DA2637", "")], "mkv")
    ensures AroundOk(n) && GroupTag(n) == "[WhyNot]" && |n.tags| == 1
  {
  }

  lemma WhyNotTitlePlain(t: string)
    requires t == "Mayo Chiki - 10"
    ensures Plain(t)
  {
  }

  lemma WhyNotTitle()
    ensures "Mayo Chiki - 10" == DashTitle("Mayo Chiki", "10", "", "")
    ensures SeriesOk("Mayo Chiki") && EpisodeOk("10") && VersionOk("Mayo Chiki", "", "")
    ensures DigitsValue("10") == 10
  {
    WhyNotTitleIs("Mayo Chiki - 10");
    WhyNotSeries("Mayo Chiki");
    WhyNotEpisode("10");
    assert VersionOk("Mayo Chiki", "", "");
  }

  lemma WhyNotTitleIs(t: string)
    requires t == "Mayo Chiki - 10"
    ensures t == DashTitle("Mayo Chiki", "10", "", "")
  {
    assert Version("", "") == [];
    assert "Mayo Chiki" + " - " == "Mayo Chiki - ";
    assert "Mayo Chiki - " + "10" == "Mayo Chiki - 10";
  }

  lemma WhyNotSeries(s: string)
    requires s == "Mayo Chiki"
    ensures SeriesOk(s)
  {
    WhyNotSeriesPlain(s);
    WhyNotSeriesNoDash(s);
    SeriesWhole(s);
  }

  lemma WhyNotSeriesPlain(s: string)
    requires s == "Mayo Chiki"
    ensures Plain(s)
  {
  }

  lemma WhyNotSeriesNoDash(s: string)
    requires s == "Mayo Chiki"
    ensures NoneIn(Is('-'), s)
  {
  }

  lemma WhyNotEpisode(ds: string)
    requires ds == "10"
    ensures EpisodeOk(ds) && DigitsValue(ds) == 10
  {
    assert DigitsValue(ds[..1]) == 1;
  }

  /** "[HorribleSubs] Boku no Imouto wa Osaka Okan - 01 [720p].mkv": group "HorribleSubs", series "Boku no Imouto wa Osaka Okan", episode 1, extension ".mkv". */
  lemma HorribleSubsRow(fileName: string)
    requires fileName == "[HorribleSubs] " + "Boku no Imouto wa Osaka Okan - 01" + " [720p]" + ".mkv"
    ensures ParseFansubFile(fileName) == Returned(Some(FansubFile("HorribleSubs", "Boku no Imouto wa Osaka Okan", 1, ".mkv")))
  {
    var n := HorribleSubsName(fileName);
    HorribleSubsTitle();
    DashNameParsed(fileName, n, "Boku no Imouto wa Osaka Okan", "01", "", "");
  }

  lemma HorribleSubsName(fileName: string) returns (n: FansubName)
    requires fileName == "[HorribleSubs] " + "Boku no Imouto wa Osaka Okan - 01" + " [720p]" + ".mkv"
    ensures FrameOk(n) && ReplaceChar(fileName, '_', ' ') == Spelled(n)
    ensures n.title == DashTitle("Boku no Imouto wa Osaka Okan", "01", "", "")
    ensures n.group == "HorribleSubs" && "." + n.ext == ".mkv"
  {
    n := FansubName(Square, "HorribleSubs", " ", "Boku no Imouto wa Osaka Okan - 01", " ", [EndTag(Square, "720p", "")], "mkv");
    HorribleSubsTitleIs(n.title);
    HorribleSubsTitlePlain(n.title);
    HorribleSubsFrame(n);
    HorribleSubsSpelled(fileName, n);
    UnderscoreFree(fileName, n);
  }

  lemma HorribleSubsSpelled(fileName: string, n: FansubName)
    requires fileName == "[HorribleSubs] " + "Boku no Imouto wa Osaka Okan - 01" + " [720p]" + ".mkv"
    requires n == FansubName(Square, "HorribleSubs", " ", "Boku no Imouto wa Osaka Okan - 01", " ", [EndTag(Square, "720p", "")], "mkv")
    ensures fileName == Spelled(n)
  {
    SpelledChunks(n);
    OneTag(n.tags[0]);
    HorribleSubsHead(n);
    HorribleSubsTag0(n.tags[0]);
    HorribleSubsTail(n.trail, Enclose(n.tags[0].bracket, n.tags[0].text), n.tags[0].gap);
  }

  lemma HorribleSubsHead(n: FansubName)
    requires n == FansubName(Square, "HorribleSubs", " ", "Boku no Imouto wa Osaka Okan - 01", " ", [EndTag(Square, "720p", "")], "mkv")
    ensures GroupTag(n) + n.lead == "[HorribleSubs] " && n.title == "Boku no Imouto wa Osaka Okan - 01" && "." + n.ext == ".mkv"
  {
  }

  lemma HorribleSubsTag0(t: EndTag)
    requires t == EndTag(Square, "720p", "")
    ensures Enclose(t.bracket, t.text) == "[720p]" && TagFits("[HorribleSubs]", t)
  {
    HorribleSubsTag0Enclosed(t);
    HorribleSubsTag0Plain(t.text);
    HorribleSubsTag0Differs("[HorribleSubs]", "[720p]");
  }

  lemma HorribleSubsTag0Enclosed(t: EndTag)
    requires t == EndTag(Square, "720p", "")
    ensures Enclose(t.bracket, t.text) == "[720p]"
  {
  }

  lemma HorribleSubsTag0Differs(g: string, e: string)
    requires g == "[HorribleSubs]" && e == "[720p]"
    ensures g != e
  {
    assert |g| == 14 && |e| == 6;
  }

  lemma HorribleSubsTag0Plain(s: string)
    requires s == "720p"
    ensures Plain(s)
  {
  }

  lemma HorribleSubsTail(trail: string, e0: string, g0: string)
    requires trail == " " && e0 == "[720p]" && g0 == ""
    ensures trail + (e0 + g0) == " [720p]"
  {
  }

  lemma HorribleSubsFrame(n: FansubName)
    requires n == FansubName(Square, "HorribleSubs", " ", "Boku no Imouto wa Osaka Okan - 01", " ", [EndTag(Square, "720p", "")], "mkv")
    ensures FrameOk(n)
  {
    HorribleSubsAround(n);
    HorribleSubsTag0(n.tags[0]);
    FramedOne(n);
  }

  lemma HorribleSubsAround(n: FansubName)
    requires n == FansubName(Square, "HorribleSubs", " ", "Boku no Imouto wa Osaka Okan - 01", " ", [EndTag(Square, "720p", "")], "mkv")
    ensures AroundOk(n) && GroupTag(n) == "[HorribleSubs]" && |n.tags| == 1
  {
  }

  lemma HorribleSubsTitlePlain(t: string)
    requires t == "Boku no Imouto wa Osaka Okan - 01"
    ensures Plain(t)
  {
    var p0, p1 := "Boku no Imouto wa", " Osaka Okan - 01";
    HorribleSubsTitlePlainPieces(t, p0, p1);
    HorribleSubsTitlePlain0(p0);
    HorribleSubsTitlePlain1(p1);
    PlainAppend(p0, p1);
  }

  lemma HorribleSubsTitlePlainPieces(t: string, p0: string, p1: string)
    requires t == "Boku no Imouto wa Osaka Okan - 01" && p0 == "Boku no Imouto wa" && p1 == " Osaka Okan - 01"
    ensures t == p0 + p1
  {
  }

  lemma HorribleSubsTitlePlain0(s: string)
    requires s == "Boku no Imouto wa"
    ensures Plain(s)
  {
  }

  lemma HorribleSubsTitlePlain1(s: string)
    requires s == " Osaka Okan - 01"
    ensures Plain(s)
  {
  }

  lemma HorribleSubsTitle()
    ensures "Boku no Imouto wa Osaka Okan - 01" == DashTitle("Boku no Imouto wa Osaka Okan", "01", "", "")
    ensures SeriesOk("Boku no Imouto wa Osaka Okan") && EpisodeOk("01") && VersionOk("Boku no Imouto wa Osaka Okan", "", "")
    ensures DigitsValue("01") == 1
  {
    HorribleSubsTitleIs("Boku no Imouto wa Osaka Okan - 01");
    HorribleSubsSeries("Boku no Imouto wa Osaka Okan");
    HorribleSubsEpisode("01");
    assert VersionOk("Boku no Imouto wa Osaka Okan", "", "");
  }

  lemma HorribleSubsTitleIs(t: string)
    requires t == "Boku no Imouto wa Osaka Okan - 01"
    ensures t == DashTitle("Boku no Imouto wa Osaka Okan", "01", "", "")
  {
    assert Version("", "") == [];
    assert "Boku no Imouto wa Osaka Okan" + " - " == "Boku no Imouto wa Osaka Okan - ";
    assert "Boku no Imouto wa Osaka Okan - " + "01" == "Boku no Imouto wa Osaka Okan - 01";
  }

  lemma HorribleSubsSeries(s: string)
    requires s == "Boku no Imouto wa Osaka Okan"
    ensures SeriesOk(s)
  {
    HorribleSubsSeriesPlain(s);
    HorribleSubsSeriesNoDash(s);
    SeriesWhole(s);
  }

  lemma HorribleSubsSeriesPlain(s: string)
    requires s == "Boku no Imouto wa Osaka Okan"
    ensures Plain(s)
  {
    var p0, p1 := "Boku no Imouto wa", " Osaka Okan";
    HorribleSubsSeriesPlainPieces(s, p0, p1);
    HorribleSubsSeriesPlain0(p0);
    HorribleSubsSeriesPlain1(p1);
    PlainAppend(p0, p1);
  }

  lemma HorribleSubsSeriesPlainPieces(s: string, p0: string, p1: string)
    requires s == "Boku no Imouto wa Osaka Okan" && p0 == "Boku no Imouto wa" && p1 == " Osaka Okan"
    ensures s == p0 + p1
  {
  }

  lemma HorribleSubsSeriesPlain0(s: string)
    requires s == "Boku no Imouto wa"
    ensures Plain(s)
  {
  }

  lemma HorribleSubsSeriesPlain1(s: string)
    requires s == " Osaka Okan"
    ensures Plain(s)
  {
  }

  lemma HorribleSubsSeriesNoDash(s: string)
    requires s == "Boku no Imouto wa Osaka Okan"
    ensures NoneIn(Is('-'), s)
  {
    var p0, p1 := "Boku no Imouto wa", " Osaka Okan";
    HorribleSubsSeriesNoDashPieces(s, p0, p1);
    HorribleSubsSeriesNoDash0(p0);
    HorribleSubsSeriesNoDash1(p1);
    NoneInAppend(Is('-'), p0, p1);
  }

  lemma HorribleSubsSeriesNoDashPieces(s: string, p0: string, p1: string)
    requires s == "Boku no Imouto wa Osaka Okan" && p0 == "Boku no Imouto wa" && p1 == " Osaka Okan"
    ensures s == p0 + p1
  {
  }

  lemma HorribleSubsSeriesNoDash0(s: string)
    requires s == "Boku no Imouto wa"
    ensures NoneIn(Is('-'), s)
  {
  }

  lemma HorribleSubsSeriesNoDash1(s: string)
    requires s == " Osaka Okan"
    ensures NoneIn(Is('-'), s)
  {
  }

  lemma HorribleSubsEpisode(ds: string)
    requires ds == "01"
    ensures EpisodeOk(ds) && DigitsValue(ds) == 1
  {
    assert DigitsValue(ds[..1]) == 0;
  }

  /** "[Commie] Ore no Kanojo to Osananajimi ga Shuraba Sugiru - My Girlfriend and Childhood Friend Fight Too Much - 02 [F5ECCCC2].mkv": the series holds " - " itself, and the episode is read at the last dash; group "Commie", episode 2, extension ".mkv". */
  lemma CommieRow(fileName: string)
    requires fileName == "[Commie] " + "Ore no Kanojo to Osananajimi ga Shuraba Sugiru" + " - " + "My Girlfriend and Childhood Friend Fight Too Much" + " - 02" + " [F5ECCCC2]" + ".mkv"
    ensures ParseFansubFile(fileName) == Returned(Some(FansubFile("Commie", "Ore no Kanojo to Osananajimi ga Shuraba Sugiru" + " - " + "My Girlfriend and Childhood Friend Fight Too Much", 2, ".mkv")))
  {
    var n := CommieName(fileName);
    CommieTitle();
    DashNameParsed(fileName, n, "Ore no Kanojo to Osananajimi ga Shuraba Sugiru" + " - " + "My Girlfriend and Childhood Friend Fight Too Much", "02", "", "");
  }

  lemma CommieName(fileName: string) returns (n: FansubName)
    requires fileName == "[Commie] " + "Ore no Kanojo to Osananajimi ga Shuraba Sugiru" + " - " + "My Girlfriend and Childhood Friend Fight Too Much" + " - 02" + " [F5ECCCC2]" + ".mkv"
    ensures FrameOk(n) && ReplaceChar(fileName, '_', ' ') == Spelled(n)
    ensures n.title == DashTitle("Ore no Kanojo to Osananajimi ga Shuraba Sugiru" + " - " + "My Girlfriend and Childhood Friend Fight Too Much", "02", "", "")
    ensures n.group == "Commie" && "." + n.ext == ".mkv"
  {
    n := FansubName(Square, "Commie", " ", "Ore no Kanojo to Osananajimi ga Shuraba Sugiru" + " - " + "My Girlfriend and Childhood Friend Fight Too Much" + " - 02", " ", [EndTag(Square, "F5ECCCC2", "")], "mkv");
    CommieTitleIs(n.title);
    CommieTitlePlain(n.title);
    CommieFrame(n);
    CommieSpelled(fileName, n);
    UnderscoreFree(fileName, n);
  }

  lemma CommieSpelled(fileName: string, n: FansubName)
    requires fileName == "[Commie] " + "Ore no Kanojo to Osananajimi ga Shuraba Sugiru" + " - " + "My Girlfriend and Childhood Friend Fight Too Much" + " - 02" + " [F5ECCCC2]" + ".mkv"
    requires n == FansubName(Square, "Commie", " ", "Ore no Kanojo to Osananajimi ga Shuraba Sugiru" + " - " + "My Girlfriend and Childhood Friend Fight Too Much" + " - 02", " ", [EndTag(Square, "F5ECCCC2", "")], "mkv")
    ensures fileName == Spelled(n)
  {
    SpelledChunks(n);
    OneTag(n.tags[0]);
    CommieHead(n);
    CommieTag0(n.tags[0]);
    CommieTail(n.trail, Enclose(n.tags[0].bracket, n.tags[0].text), n.tags[0].gap);
    Flat4("[Commie] ", "Ore no Kanojo to Osananajimi ga Shuraba Sugiru", " - ", "My Girlfriend and Childhood Friend Fight Too Much", " - 02");
  }

  lemma CommieHead(n: FansubName)
    requires n == FansubName(Square, "Commie", " ", "Ore no Kanojo to Osananajimi ga Shuraba Sugiru" + " - " + "My Girlfriend and Childhood Friend Fight Too Much" + " - 02", " ", [EndTag(Square, "F5ECCCC2", "")], "mkv")
    ensures GroupTag(n) + n.lead == "[Commie] " && n.title == "Ore no Kanojo to Osananajimi ga Shuraba Sugiru" + " - " + "My Girlfriend and Childhood Friend Fight Too Much" + " - 02" && "." + n.ext == ".mkv"
  {
  }

  lemma CommieTag0(t: EndTag)
    requires t == EndTag(Square, "F5ECCCC2", "")
    ensures Enclose(t.bracket, t.text) == "[F5ECCCC2]" && TagFits("[Commie]", t)
  {
    CommieTag0Enclosed(t);
    CommieTag0Plain(t.text);
    CommieTag0Differs("[Commie]", "[F5ECCCC2]");
  }

  lemma CommieTag0Enclosed(t: EndTag)
    requires t == EndTag(Square, "F5ECCCC2", "")
    ensures Enclose(t.bracket, t.text) == "[F5ECCCC2]"
  {
  }

  lemma CommieTag0Differs(g: string, e: string)
    requires g == "[Commie]" && e == "[F5ECCCC2]"
    ensures g != e
  {
    assert |g| == 8 && |e| == 10;
  }

  lemma CommieTag0Plain(s: string)
    requires s == "F5ECCCC2"
    ensures Plain(s)
  {
  }

  lemma CommieTail(trail: string, e0: string, g0: string)
    requires trail == " " && e0 == "[F5ECCCC2]" && g0 == ""
    ensures trail + (e0 + g0) == " [F5ECCCC2]"
  {
  }

  lemma CommieFrame(n: FansubName)
    requires n == FansubName(Square, "Commie", " ", "Ore no Kanojo to Osananajimi ga Shuraba Sugiru" + " - " + "My Girlfriend and Childhood Friend Fight Too Much" + " - 02", " ", [EndTag(Square, "F5ECCCC2", "")], "mkv")
    ensures FrameOk(n)
  {
    CommieAround(n);
    CommieTag0(n.tags[0]);
    FramedOne(n);
  }

  lemma CommieAround(n: FansubName)
    requires n == FansubName(Square, "Commie", " ", "Ore no Kanojo to Osananajimi ga Shuraba Sugiru" + " - " + "My Girlfriend and Childhood Friend Fight Too Much" + " - 02", " ", [EndTag(Square, "F5ECCCC2", "")], "mkv")
    ensures AroundOk(n) && GroupTag(n) == "[Commie]" && |n.tags| == 1
  {
  }

  lemma CommieTitlePlain(t: string)
    requires t == "Ore no Kanojo to Osananajimi ga Shuraba Sugiru" + " - " + "My Girlfriend and Childhood Friend Fight Too Much" + " - 02"
    ensures Plain(t)
  {
    var p0, p1, p2, p3 := "Ore no Kanojo to Osananajimi ga Shuraba Sugiru", " - ", "My Girlfriend and Childhood Friend Fight Too Much", " - 02";
    CommieTitlePlainPieces(t, p0, p1, p2, p3);
    CommieTitlePlain0(p0);
    CommieTitlePlain1(p1);
    CommieTitlePlain2(p2);
    CommieTitlePlain3(p3);
    PlainAppend(p0, p1);
    PlainAppend(p0 + p1, p2);
    PlainAppend(p0 + p1 + p2, p3);
  }

  lemma CommieTitlePlainPieces(t: string, p0: string, p1: string, p2: string, p3: string)
    requires t == "Ore no Kanojo to Osananajimi ga Shuraba Sugiru" + " - " + "My Girlfriend and Childhood Friend Fight Too Much" + " - 02" && p0 == "Ore no Kanojo to Osananajimi ga Shuraba Sugiru" && p1 == " - " && p2 == "My Girlfriend and Childhood Friend Fight Too Much" && p3 == " - 02"
    ensures t == p0 + p1 + p2 + p3
  {
  }

  lemma CommieTitlePlain0(s: string)
    requires s == "Ore no Kanojo to Osananajimi ga Shuraba Sugiru"
    ensures Plain(s)
  {
    var p0, p1, p2 := "Ore no Kanojo to", " Osananajimi", " ga Shuraba Sugiru";
    CommieTitlePlain0Pieces(s, p0, p1, p2);
    CommieTitlePlain00(p0);
    CommieTitlePlain01(p1);
    CommieTitlePlain02(p2);
    PlainAppend(p0, p1);
    PlainAppend(p0 + p1, p2);
  }

  lemma CommieTitlePlain0Pieces(s: string, p0: string, p1: string, p2: string)
    requires s == "Ore no Kanojo to Osananajimi ga Shuraba Sugiru" && p0 == "Ore no Kanojo to" && p1 == " Osananajimi" && p2 == " ga Shuraba Sugiru"
    ensures s == p0 + p1 + p2
  {
  }

  lemma CommieTitlePlain00(s: string)
    requires s == "Ore no Kanojo to"
    ensures Plain(s)
  {
  }

  lemma CommieTitlePlain01(s: string)
    requires s == " Osananajimi"
    ensures Plain(s)
  {
  }

  lemma CommieTitlePlain02(s: string)
    requires s == " ga Shuraba Sugiru"
    ensures Plain(s)
  {
  }

  lemma CommieTitlePlain1(s: string)
    requires s == " - "
    ensures Plain(s)
  {
  }

  lemma CommieTitlePlain2(s: string)
    requires s == "My Girlfriend and Childhood Friend Fight Too Much"
    ensures Plain(s)
  {
    var p0, p1, p2 := "My Girlfriend and", " Childhood", " Friend Fight Too Much";
    CommieTitlePlain2Pieces(s, p0, p1, p2);
    CommieTitlePlain20(p0);
    CommieTitlePlain21(p1);
    CommieTitlePlain22(p2);
    PlainAppend(p0, p1);
    PlainAppend(p0 + p1, p2);
  }

  lemma CommieTitlePlain2Pieces(s: string, p0: string, p1: string, p2: string)
    requires s == "My Girlfriend and Childhood Friend Fight Too Much" && p0 == "My Girlfriend and" && p1 == " Childhood" && p2 == " Friend Fight Too Much"
    ensures s == p0 + p1 + p2
  {
  }

  lemma CommieTitlePlain20(s: string)
    requires s == "My Girlfriend and"
    ensures Plain(s)
  {
  }

  lemma CommieTitlePlain21(s: string)
    requires s == " Childhood"
    ensures Plain(s)
  {
  }

  lemma CommieTitlePlain22(s: string)
    requires s == " Friend Fight Too Much"
    ensures Plain(s)
  {
  }

  lemma CommieTitlePlain3(s: string)
    requires s == " - 02"
    ensures Plain(s)
  {
  }

  lemma CommieTitle()
    ensures "Ore no Kanojo to Osananajimi ga Shuraba Sugiru" + " - " + "My Girlfriend and Childhood Friend Fight Too Much" + " - 02" == DashTitle("Ore no Kanojo to Osananajimi ga Shuraba Sugiru" + " - " + "My Girlfriend and Childhood Friend Fight Too Much", "02", "", "")
    ensures SeriesOk("Ore no Kanojo to Osananajimi ga Shuraba Sugiru" + " - " + "My Girlfriend and Childhood Friend Fight Too Much") && EpisodeOk("02") && VersionOk("Ore no Kanojo to Osananajimi ga Shuraba Sugiru" + " - " + "My Girlfriend and Childhood Friend Fight Too Much", "", "")
    ensures DigitsValue("02") == 2
  {
    CommieTitleIs("Ore no Kanojo to Osananajimi ga Shuraba Sugiru" + " - " + "My Girlfriend and Childhood Friend Fight Too Much" + " - 02");
    CommieSeries("Ore no Kanojo to Osananajimi ga Shuraba Sugiru" + " - " + "My Girlfriend and Childhood Friend Fight Too Much");
    CommieEpisode("02");
    assert VersionOk("Ore no Kanojo to Osananajimi ga Shuraba Sugiru" + " - " + "My Girlfriend and Childhood Friend Fight Too Much", "", "");
  }

  lemma CommieTitleIs(t: string)
    requires t == "Ore no Kanojo to Osananajimi ga Shuraba Sugiru" + " - " + "My Girlfriend and Childhood Friend Fight Too Much" + " - 02"
    ensures t == DashTitle("Ore no Kanojo to Osananajimi ga Shuraba Sugiru" + " - " + "My Girlfriend and Childhood Friend Fight Too Much", "02", "", "")
  {
    assert Version("", "") == [];
    Regroup("Ore no Kanojo to Osananajimi ga Shuraba Sugiru" + " - " + "My Girlfriend and Childhood Friend Fight Too Much", " - ", "02");
    assert " - " + "02" == " - 02";
  }

  lemma CommieSeries(s: string)
    requires s == "Ore no Kanojo to Osananajimi ga Shuraba Sugiru" + " - " + "My Girlfriend and Childhood Friend Fight Too Much"
    ensures SeriesOk(s)
  {
    var a, b := "Ore no Kanojo to Osananajimi ga Shuraba Sugiru", "My Girlfriend and Childhood Friend Fight Too Much";
    CommieSeriesSplit(s, a, b);
    CommieSeriesEnds(a, b);
    CommieSeriesPlainA(a);
    CommieSeriesPlainB(b);
    CommieSeriesNoDashA(a);
    CommieSeriesNoDashB(b);
    SeriesDashed(a, " - ", b);
  }

  lemma CommieSeriesSplit(s: string, a: string, b: string)
    requires s == "Ore no Kanojo to Osananajimi ga Shuraba Sugiru" + " - " + "My Girlfriend and Childhood Friend Fight Too Much" && a == "Ore no Kanojo to Osananajimi ga Shuraba Sugiru" && b == "My Girlfriend and Childhood Friend Fight Too Much"
    ensures s == a + " - " + b
  {
  }

  lemma CommieSeriesEnds(a: string, b: string)
    requires a == "Ore no Kanojo to Osananajimi ga Shuraba Sugiru" && b == "My Girlfriend and Childhood Friend Fight Too Much"
    ensures a != [] && b != [] && !IsWhiteSpace(a[0]) && !IsWhiteSpace(b[|b| - 1])
  {
    var a0, a1, a2 := "Ore no Kanojo to", " Osananajimi", " ga Shuraba Sugiru";
    CommieSeriesEndsA(a, a0, a1, a2);
    assert a[0] == a0[0] == 'O';
    var b0, b1, b2 := "My Girlfriend and", " Childhood", " Friend Fight Too Much";
    CommieSeriesEndsB(b, b0, b1, b2);
    assert b[|b| - 1] == b2[|b2| - 1] == 'h';
  }

  lemma CommieSeriesEndsA(a: string, a0: string, a1: string, a2: string)
    requires a == "Ore no Kanojo to Osananajimi ga Shuraba Sugiru" && a0 == "Ore no Kanojo to" && a1 == " Osananajimi" && a2 == " ga Shuraba Sugiru"
    ensures a == a0 + a1 + a2
  {
  }

  lemma CommieSeriesEndsB(b: string, b0: string, b1: string, b2: string)
    requires b == "My Girlfriend and Childhood Friend Fight Too Much" && b0 == "My Girlfriend and" && b1 == " Childhood" && b2 == " Friend Fight Too Much"
    ensures b == b0 + b1 + b2
  {
  }

  lemma CommieSeriesPlainA(a: string)
    requires a == "Ore no Kanojo to Osananajimi ga Shuraba Sugiru"
    ensures Plain(a)
  {
    var p0, p1, p2 := "Ore no Kanojo to", " Osananajimi", " ga Shuraba Sugiru";
    CommieSeriesPlainAPieces(a, p0, p1, p2);
    CommieSeriesPlainA0(p0);
    CommieSeriesPlainA1(p1);
    CommieSeriesPlainA2(p2);
    PlainAppend(p0, p1);
    PlainAppend(p0 + p1, p2);
  }

  lemma CommieSeriesPlainAPieces(a: string, p0: string, p1: string, p2: string)
    requires a == "Ore no Kanojo to Osananajimi ga Shuraba Sugiru" && p0 == "Ore no Kanojo to" && p1 == " Osananajimi" && p2 == " ga Shuraba Sugiru"
    ensures a == p0 + p1 + p2
  {
  }

  lemma CommieSeriesPlainA0(s: string)
    requires s == "Ore no Kanojo to"
    ensures Plain(s)
  {
  }

  lemma CommieSeriesPlainA1(s: string)
    requires s == " Osananajimi"
    ensures Plain(s)
  {
  }

  lemma CommieSeriesPlainA2(s: string)
    requires s == " ga Shuraba Sugiru"
    ensures Plain(s)
  {
  }

  lemma CommieSeriesPlainB(b: string)
    requires b == "My Girlfriend and Childhood Friend Fight Too Much"
    ensures Plain(b)
  {
    var p0, p1, p2 := "My Girlfriend and", " Childhood", " Friend Fight Too Much";
    CommieSeriesPlainBPieces(b, p0, p1, p2);
    CommieSeriesPlainB0(p0);
    CommieSeriesPlainB1(p1);
    CommieSeriesPlainB2(p2);
    PlainAppend(p0, p1);
    PlainAppend(p0 + p1, p2);
  }

  lemma CommieSeriesPlainBPieces(b: string, p0: string, p1: string, p2: string)
    requires b == "My Girlfriend and Childhood Friend Fight Too Much" && p0 == "My Girlfriend and" && p1 == " Childhood" && p2 == " Friend Fight Too Much"
    ensures b == p0 + p1 + p2
  {
  }

  lemma CommieSeriesPlainB0(s: string)
    requires s == "My Girlfriend and"
    ensures Plain(s)
  {
  }

  lemma CommieSeriesPlainB1(s: string)
    requires s == " Childhood"
    ensures Plain(s)
  {
  }

  lemma CommieSeriesPlainB2(s: string)
    requires s == " Friend Fight Too Much"
    ensures Plain(s)
  {
  }

  lemma CommieSeriesNoDashA(a: string)
    requires a == "Ore no Kanojo to Osananajimi ga Shuraba Sugiru"
    ensures NoneIn(Is('-'), a)
  {
    var p0, p1, p2 := "Ore no Kanojo to", " Osananajimi", " ga Shuraba Sugiru";
    CommieSeriesNoDashAPieces(a, p0, p1, p2);
    CommieSeriesNoDashA0(p0);
    CommieSeriesNoDashA1(p1);
    CommieSeriesNoDashA2(p2);
    NoneInAppend(Is('-'), p0, p1);
    NoneInAppend(Is('-'), p0 + p1, p2);
  }

  lemma CommieSeriesNoDashAPieces(a: string, p0: string, p1: string, p2: string)
    requires a == "Ore no Kanojo to Osananajimi ga Shuraba Sugiru" && p0 == "Ore no Kanojo to" && p1 == " Osananajimi" && p2 == " ga Shuraba Sugiru"
    ensures a == p0 + p1 + p2
  {
  }

  lemma CommieSeriesNoDashA0(s: string)
    requires s == "Ore no Kanojo to"
    ensures NoneIn(Is('-'), s)
  {
  }

  lemma CommieSeriesNoDashA1(s: string)
    requires s == " Osananajimi"
    ensures NoneIn(Is('-'), s)
  {
  }

  lemma CommieSeriesNoDashA2(s: string)
    requires s == " ga Shuraba Sugiru"
    ensures NoneIn(Is('-'), s)
  {
  }

  lemma CommieSeriesNoDashB(b: string)
    requires b == "My Girlfriend and Childhood Friend Fight Too Much"
    ensures NoneIn(Is('-'), b)
  {
    var p0, p1, p2 := "My Girlfriend and", " Childhood", " Friend Fight Too Much";
    CommieSeriesNoDashBPieces(b, p0, p1, p2);
    CommieSeriesNoDashB0(p0);
    CommieSeriesNoDashB1(p1);
    CommieSeriesNoDashB2(p2);
    NoneInAppend(Is('-'), p0, p1);
    NoneInAppend(Is('-'), p0 + p1, p2);
  }

  lemma CommieSeriesNoDashBPieces(b: string, p0: string, p1: string, p2: string)
    requires b == "My Girlfriend and Childhood Friend Fight Too Much" && p0 == "My Girlfriend and" && p1 == " Childhood" && p2 == " Friend Fight Too Much"
    ensures b == p0 + p1 + p2
  {
  }

  lemma CommieSeriesNoDashB0(s: string)
    requires s == "My Girlfriend and"
    ensures NoneIn(Is('-'), s)
  {
  }

  lemma CommieSeriesNoDashB1(s: string)
    requires s == " Childhood"
    ensures NoneIn(Is('-'), s)
  {
  }

  lemma CommieSeriesNoDashB2(s: string)
    requires s == " Friend Fight Too Much"
    ensures NoneIn(Is('-'), s)
  {
  }

  lemma CommieEpisode(ds: string)
    requires ds == "02"
    ensures EpisodeOk(ds) && DigitsValue(ds) == 2
  {
    assert DigitsValue(ds[..1]) == 0;
  }

  /** "[Doki] Onii-chan Dakedo Ai Sae Areba Kankeinai yo ne - 01 (1280x720 Hi10P AAC) [B66EEF09].mkv": a tag in parentheses; group "Doki", series "Onii-chan Dakedo Ai Sae Areba Kankeinai yo ne", episode 1, extension ".mkv". */
  lemma DokiRow(fileName: string)
    requires fileName == "[Doki] " + "Onii" + "-" + "chan Dakedo Ai Sae Areba Kankeinai yo ne" + " - 01" + " (1280x720 Hi10P AAC) [B66EEF09]" + ".mkv"
    ensures ParseFansubFile(fileName) == Returned(Some(FansubFile("Doki", "Onii" + "-" + "chan Dakedo Ai Sae Areba Kankeinai yo ne", 1, ".mkv")))
  {
    var n := DokiName(fileName);
    DokiTitle();
    DashNameParsed(fileName, n, "Onii" + "-" + "chan Dakedo Ai Sae Areba Kankeinai yo ne", "01", "", "");
  }

  lemma DokiName(fileName: string) returns (n: FansubName)
    requires fileName == "[Doki] " + "Onii" + "-" + "chan Dakedo Ai Sae Areba Kankeinai yo ne" + " - 01" + " (1280x720 Hi10P AAC) [B66EEF09]" + ".mkv"
    ensures FrameOk(n) && ReplaceChar(fileName, '_', ' ') == Spelled(n)
    ensures n.title == DashTitle("Onii" + "-" + "chan Dakedo Ai Sae Areba Kankeinai yo ne", "01", "", "")
    ensures n.group == "Doki" && "." + n.ext == ".mkv"
  {
    n := FansubName(Square, "Doki", " ", "Onii" + "-" + "chan Dakedo Ai Sae Areba Kankeinai yo ne" + " - 01", " ", [EndTag(Round, "1280x720 Hi10P AAC", " "), EndTag(Square, "B66EEF09", "")], "mkv");
    DokiTitleIs(n.title);
    DokiTitlePlain(n.title);
    DokiFrame(n);
    DokiSpelled(fileName, n);
    UnderscoreFree(fileName, n);
  }

  lemma DokiSpelled(fileName: string, n: FansubName)
    requires fileName == "[Doki] " + "Onii" + "-" + "chan Dakedo Ai Sae Areba Kankeinai yo ne" + " - 01" + " (1280x720 Hi10P AAC) [B66EEF09]" + ".mkv"
    requires n == FansubName(Square, "Doki", " ", "Onii" + "-" + "chan Dakedo Ai Sae Areba Kankeinai yo ne" + " - 01", " ", [EndTag(Round, "1280x720 Hi10P AAC", " "), EndTag(Square, "B66EEF09", "")], "mkv")
    ensures fileName == Spelled(n)
  {
    SpelledChunks(n);
    TwoTags(n.tags[0], n.tags[1]);
    DokiHead(n);
    DokiTag0(n.tags[0]);
    DokiTag1(n.tags[1]);
    DokiTail(n.trail, Enclose(n.tags[0].bracket, n.tags[0].text), n.tags[0].gap, Enclose(n.tags[1].bracket, n.tags[1].text), n.tags[1].gap);
    Flat4("[Doki] ", "Onii", "-", "chan Dakedo Ai Sae Areba Kankeinai yo ne", " - 01");
  }

  lemma DokiHead(n: FansubName)
    requires n == FansubName(Square, "Doki", " ", "Onii" + "-" + "chan Dakedo Ai Sae Areba Kankeinai yo ne" + " - 01", " ", [EndTag(Round, "1280x720 Hi10P AAC", " "), EndTag(Square, "B66EEF09", "")], "mkv")
    ensures GroupTag(n) + n.lead == "[Doki] " && n.title == "Onii" + "-" + "chan Dakedo Ai Sae Areba Kankeinai yo ne" + " - 01" && "." + n.ext == ".mkv"
  {
  }

  lemma DokiTag0(t: EndTag)
    requires t == EndTag(Round, "1280x720 Hi10P AAC", " ")
    ensures Enclose(t.bracket, t.text) == "(1280x720 Hi10P AAC)" && TagFits("[Doki]", t)
  {
    DokiTag0Enclosed(t);
    DokiTag0Plain(t.text);
    DokiTag0Differs("[Doki]", "(1280x720 Hi10P AAC)");
    DokiTag0Word(t.text);
  }

  lemma DokiTag0Enclosed(t: EndTag)
    requires t == EndTag(Round, "1280x720 Hi10P AAC", " ")
    ensures Enclose(t.bracket, t.text) == "(1280x720 Hi10P AAC)"
  {
  }

  lemma DokiTag0Differs(g: string, e: string)
    requires g == "[Doki]" && e == "(1280x720 Hi10P AAC)"
    ensures g != e
  {
    assert |g| == 6 && |e| == 20;
  }

  lemma DokiTag0Word(s: string)
    requires s == "1280x720 Hi10P AAC"
    ensures NotANumber(s)
  {
    assert !IsDigit(s[4]);
  }

  lemma DokiTag0Plain(s: string)
    requires s == "1280x720 Hi10P AAC"
    ensures Plain(s)
  {
  }

  lemma DokiTag1(t: EndTag)
    requires t == EndTag(Square, "B66EEF09", "")
    ensures Enclose(t.bracket, t.text) == "[B66EEF09]" && TagFits("[Doki]", t)
  {
    DokiTag1Enclosed(t);
    DokiTag1Plain(t.text);
    DokiTag1Differs("[Doki]", "[B66EEF09]");
  }

  lemma DokiTag1Enclosed(t: EndTag)
    requires t == EndTag(Square, "B66EEF09", "")
    ensures Enclose(t.bracket, t.text) == "[B66EEF09]"
  {
  }

  lemma DokiTag1Differs(g: string, e: string)
    requires g == "[Doki]" && e == "[B66EEF09]"
    ensures g != e
  {
    assert |g| == 6 && |e| == 10;
  }

  lemma DokiTag1Plain(s: string)
    requires s == "B66EEF09"
    ensures Plain(s)
  {
  }

  lemma DokiTail(trail: string, e0: string, g0: string, e1: string, g1: string)
    requires trail == " " && e0 == "(1280x720 Hi10P AAC)" && g0 == " " && e1 == "[B66EEF09]" && g1 == ""
    ensures trail + (e0 + g0 + e1 + g1) == " (1280x720 Hi10P AAC) [B66EEF09]"
  {
  }

  lemma DokiFrame(n: FansubName)
    requires n == FansubName(Square, "Doki", " ", "Onii" + "-" + "chan Dakedo Ai Sae Areba Kankeinai yo ne" + " - 01", " ", [EndTag(Round, "1280x720 Hi10P AAC", " "), EndTag(Square, "B66EEF09", "")], "mkv")
    ensures FrameOk(n)
  {
    DokiAround(n);
    DokiTag0(n.tags[0]);
    DokiTag1(n.tags[1]);
    FramedTwo(n);
  }

  lemma DokiAround(n: FansubName)
    requires n == FansubName(Square, "Doki", " ", "Onii" + "-" + "chan Dakedo Ai Sae Areba Kankeinai yo ne" + " - 01", " ", [EndTag(Round, "1280x720 Hi10P AAC", " "), EndTag(Square, "B66EEF09", "")], "mkv")
    ensures AroundOk(n) && GroupTag(n) == "[Doki]" && |n.tags| == 2
  {
  }

  lemma DokiTitlePlain(t: string)
    requires t == "Onii" + "-" + "chan Dakedo Ai Sae Areba Kankeinai yo ne" + " - 01"
    ensures Plain(t)
  {
    var p0, p1, p2, p3 := "Onii", "-", "chan Dakedo Ai Sae Areba Kankeinai yo ne", " - 01";
    DokiTitlePlainPieces(t, p0, p1, p2, p3);
    DokiTitlePlain0(p0);
    DokiTitlePlain1(p1);
    DokiTitlePlain2(p2);
    DokiTitlePlain3(p3);
    PlainAppend(p0, p1);
    PlainAppend(p0 + p1, p2);
    PlainAppend(p0 + p1 + p2, p3);
  }

  lemma DokiTitlePlainPieces(t: string, p0: string, p1: string, p2: string, p3: string)
    requires t == "Onii" + "-" + "chan Dakedo Ai Sae Areba Kankeinai yo ne" + " - 01" && p0 == "Onii" && p1 == "-" && p2 == "chan Dakedo Ai Sae Areba Kankeinai yo ne" && p3 == " - 01"
    ensures t == p0 + p1 + p2 + p3
  {
  }

  lemma DokiTitlePlain0(s: string)
    requires s == "Onii"
    ensures Plain(s)
  {
  }

  lemma DokiTitlePlain1(s: string)
    requires s == "-"
    ensures Plain(s)
  {
  }

  lemma DokiTitlePlain2(s: string)
    requires s == "chan Dakedo Ai Sae Areba Kankeinai yo ne"
    ensures Plain(s)
  {
    var p0, p1 := "chan Dakedo Ai Sae Areba", " Kankeinai yo ne";
    DokiTitlePlain2Pieces(s, p0, p1);
    DokiTitlePlain20(p0);
    DokiTitlePlain21(p1);
    PlainAppend(p0, p1);
  }

  lemma DokiTitlePlain2Pieces(s: string, p0: string, p1: string)
    requires s == "chan Dakedo Ai Sae Areba Kankeinai yo ne" && p0 == "chan Dakedo Ai Sae Areba" && p1 == " Kankeinai yo ne"
    ensures s == p0 + p1
  {
  }

  lemma DokiTitlePlain20(s: string)
    requires s == "chan Dakedo Ai Sae Areba"
    ensures Plain(s)
  {
  }

  lemma DokiTitlePlain21(s: string)
    requires s == " Kankeinai yo ne"
    ensures Plain(s)
  {
  }

  lemma DokiTitlePlain3(s: string)
    requires s == " - 01"
    ensures Plain(s)
  {
  }

  lemma DokiTitle()
    ensures "Onii" + "-" + "chan Dakedo Ai Sae Areba Kankeinai yo ne" + " - 01" == DashTitle("Onii" + "-" + "chan Dakedo Ai Sae Areba Kankeinai yo ne", "01", "", "")
    ensures SeriesOk("Onii" + "-" + "chan Dakedo Ai Sae Areba Kankeinai yo ne") && EpisodeOk("01") && VersionOk("Onii" + "-" + "chan Dakedo Ai Sae Areba Kankeinai yo ne", "", "")
    ensures DigitsValue("01") == 1
  {
    DokiTitleIs("Onii" + "-" + "chan Dakedo Ai Sae Areba Kankeinai yo ne" + " - 01");
    DokiSeries("Onii" + "-" + "chan Dakedo Ai Sae Areba Kankeinai yo ne");
    DokiEpisode("01");
    assert VersionOk("Onii" + "-" + "chan Dakedo Ai Sae Areba Kankeinai yo ne", "", "");
  }

  lemma DokiTitleIs(t: string)
    requires t == "Onii" + "-" + "chan Dakedo Ai Sae Areba Kankeinai yo ne" + " - 01"
    ensures t == DashTitle("Onii" + "-" + "chan Dakedo Ai Sae Areba Kankeinai yo ne", "01", "", "")
  {
    assert Version("", "") == [];
    Regroup("Onii" + "-" + "chan Dakedo Ai Sae Areba Kankeinai yo ne", " - ", "01");
    assert " - " + "01" == " - 01";
  }

  lemma DokiSeries(s: string)
    requires s == "Onii" + "-" + "chan Dakedo Ai Sae Areba Kankeinai yo ne"
    ensures SeriesOk(s)
  {
    var a, b := "Onii", "chan Dakedo Ai Sae Areba Kankeinai yo ne";
    DokiSeriesSplit(s, a, b);
    DokiSeriesEnds(a, b);
    DokiSeriesPlainA(a);
    DokiSeriesPlainB(b);
    DokiSeriesNoDashA(a);
    DokiSeriesNoDashB(b);
    SeriesDashed(a, "-", b);
  }

  lemma DokiSeriesSplit(s: string, a: string, b: string)
    requires s == "Onii" + "-" + "chan Dakedo Ai Sae Areba Kankeinai yo ne" && a == "Onii" && b == "chan Dakedo Ai Sae Areba Kankeinai yo ne"
    ensures s == a + "-" + b
  {
  }

  lemma DokiSeriesEnds(a: string, b: string)
    requires a == "Onii" && b == "chan Dakedo Ai Sae Areba Kankeinai yo ne"
    ensures a != [] && b != [] && !IsWhiteSpace(a[0]) && !IsWhiteSpace(b[|b| - 1])
  {
    var b0, b1 := "chan Dakedo Ai Sae Areba", " Kankeinai yo ne";
    DokiSeriesEndsB(b, b0, b1);
    assert b[|b| - 1] == b1[|b1| - 1] == 'e';
  }

  lemma DokiSeriesEndsB(b: string, b0: string, b1: string)
    requires b == "chan Dakedo Ai Sae Areba Kankeinai yo ne" && b0 == "chan Dakedo Ai Sae Areba" && b1 == " Kankeinai yo ne"
    ensures b == b0 + b1
  {
  }

  lemma DokiSeriesPlainA(a: string)
    requires a == "Onii"
    ensures Plain(a)
  {
  }

  lemma DokiSeriesPlainB(b: string)
    requires b == "chan Dakedo Ai Sae Areba Kankeinai yo ne"
    ensures Plain(b)
  {
    var p0, p1 := "chan Dakedo Ai Sae Areba", " Kankeinai yo ne";
    DokiSeriesPlainBPieces(b, p0, p1);
    DokiSeriesPlainB0(p0);
    DokiSeriesPlainB1(p1);
    PlainAppend(p0, p1);
  }

  lemma DokiSeriesPlainBPieces(b: string, p0: string, p1: string)
    requires b == "chan Dakedo Ai Sae Areba Kankeinai yo ne" && p0 == "chan Dakedo Ai Sae Areba" && p1 == " Kankeinai yo ne"
    ensures b == p0 + p1
  {
  }

  lemma DokiSeriesPlainB0(s: string)
    requires s == "chan Dakedo Ai Sae Areba"
    ensures Plain(s)
  {
  }

  lemma DokiSeriesPlainB1(s: string)
    requires s == " Kankeinai yo ne"
    ensures Plain(s)
  {
  }

  lemma DokiSeriesNoDashA(a: string)
    requires a == "Onii"
    ensures NoneIn(Is('-'), a)
  {
  }

  lemma DokiSeriesNoDashB(b: string)
    requires b == "chan Dakedo Ai Sae Areba Kankeinai yo ne"
    ensures NoneIn(Is('-'), b)
  {
    var p0, p1 := "chan Dakedo Ai Sae Areba", " Kankeinai yo ne";
    DokiSeriesNoDashBPieces(b, p0, p1);
    DokiSeriesNoDashB0(p0);
    DokiSeriesNoDashB1(p1);
    NoneInAppend(Is('-'), p0, p1);
  }

  lemma DokiSeriesNoDashBPieces(b: string, p0: string, p1: string)
    requires b == "chan Dakedo Ai Sae Areba Kankeinai yo ne" && p0 == "chan Dakedo Ai Sae Areba" && p1 == " Kankeinai yo ne"
    ensures b == p0 + p1
  {
  }

  lemma DokiSeriesNoDashB0(s: string)
    requires s == "chan Dakedo Ai Sae Areba"
    ensures NoneIn(Is('-'), s)
  {
  }

  lemma DokiSeriesNoDashB1(s: string)
    requires s == " Kankeinai yo ne"
    ensures NoneIn(Is('-'), s)
  {
  }

  lemma DokiEpisode(ds: string)
    requires ds == "01"
    ensures EpisodeOk(ds) && DigitsValue(ds) == 1
  {
    assert DigitsValue(ds[..1]) == 0;
  }

  /** "[FFF] Highschool DxD - SP01 [BD][1080p-FLAC][5D929653].mkv": no number after the last dash or the last space; group "FFF", series the whole title "Highschool DxD - SP01", episode int.MinValue, extension ".mkv". */
  lemma FffRow(fileName: string)
    requires fileName == "[FFF] " + "Highschool DxD - SP01" + " [BD][1080p-FLAC][5D929653]" + ".mkv"
    ensures ParseFansubFile(fileName) == Returned(Some(FansubFile("FFF", "Highschool DxD - SP01", Int32Min, ".mkv")))
  {
    var n := FffName(fileName);
    FffTitle();
    WordNameParsed(fileName, n, "Highschool DxD", "SP", "01");
  }

  lemma FffName(fileName: string) returns (n: FansubName)
    requires fileName == "[FFF] " + "Highschool DxD - SP01" + " [BD][1080p-FLAC][5D929653]" + ".mkv"
    ensures FrameOk(n) && ReplaceChar(fileName, '_', ' ') == Spelled(n)
    ensures n.title == "Highschool DxD" + " - " + "SP" + "01" && n.title == "Highschool DxD - SP01"
    ensures n.group == "FFF" && "." + n.ext == ".mkv"
  {
    n := FansubName(Square, "FFF", " ", "Highschool DxD - SP01", " ", [EndTag(Square, "BD", ""), EndTag(Square, "1080p-FLAC", ""), EndTag(Square, "5D929653", "")], "mkv");
    FffTitleIs(n.title);
    FffTitlePlain(n.title);
    FffFrame(n);
    FffSpelled(fileName, n);
    UnderscoreFree(fileName, n);
  }

  lemma FffSpelled(fileName: string, n: FansubName)
    requires fileName == "[FFF] " + "Highschool DxD - SP01" + " [BD][1080p-FLAC][5D929653]" + ".mkv"
    requires n == FansubName(Square, "FFF", " ", "Highschool DxD - SP01", " ", [EndTag(Square, "BD", ""), EndTag(Square, "1080p-FLAC", ""), EndTag(Square, "5D929653", "")], "mkv")
    ensures fileName == Spelled(n)
  {
    SpelledChunks(n);
    ThreeTags(n.tags[0], n.tags[1], n.tags[2]);
    FffHead(n);
    FffTag0(n.tags[0]);
    FffTag1(n.tags[1]);
    FffTag2(n.tags[2]);
    FffTail(n.trail, Enclose(n.tags[0].bracket, n.tags[0].text), n.tags[0].gap, Enclose(n.tags[1].bracket, n.tags[1].text), n.tags[1].gap, Enclose(n.tags[2].bracket, n.tags[2].text), n.tags[2].gap);
  }

  lemma FffHead(n: FansubName)
    requires n == FansubName(Square, "FFF", " ", "Highschool DxD - SP01", " ", [EndTag(Square, "BD", ""), EndTag(Square, "1080p-FLAC", ""), EndTag(Square, "5D929653", "")], "mkv")
    ensures GroupTag(n) + n.lead == "[FFF] " && n.title == "Highschool DxD - SP01" && "." + n.ext == ".mkv"
  {
  }

  lemma FffTag0(t: EndTag)
    requires t == EndTag(Square, "BD", "")
    ensures Enclose(t.bracket, t.text) == "[BD]" && TagFits("[FFF]", t)
  {
    FffTag0Enclosed(t);
    FffTag0Plain(t.text);
    FffTag0Differs("[FFF]", "[BD]");
  }

  lemma FffTag0Enclosed(t: EndTag)
    requires t == EndTag(Square, "BD", "")
    ensures Enclose(t.bracket, t.text) == "[BD]"
  {
  }

  lemma FffTag0Differs(g: string, e: string)
    requires g == "[FFF]" && e == "[BD]"
    ensures g != e
  {
    assert |g| == 5 && |e| == 4;
  }

  lemma FffTag0Plain(s: string)
    requires s == "BD"
    ensures Plain(s)
  {
  }

  lemma FffTag1(t: EndTag)
    requires t == EndTag(Square, "1080p-FLAC", "")
    ensures Enclose(t.bracket, t.text) == "[1080p-FLAC]" && TagFits("[FFF]", t)
  {
    FffTag1Enclosed(t);
    FffTag1Plain(t.text);
    FffTag1Differs("[FFF]", "[1080p-FLAC]");
  }

  lemma FffTag1Enclosed(t: EndTag)
    requires t == EndTag(Square, "1080p-FLAC", "")
    ensures Enclose(t.bracket, t.text) == "[1080p-FLAC]"
  {
  }

  lemma FffTag1Differs(g: string, e: string)
    requires g == "[FFF]" && e == "[1080p-FLAC]"
    ensures g != e
  {
    assert |g| == 5 && |e| == 12;
  }

  lemma FffTag1Plain(s: string)
    requires s == "1080p-FLAC"
    ensures Plain(s)
  {
  }

  lemma FffTag2(t: EndTag)
    requires t == EndTag(Square, "5D929653", "")
    ensures Enclose(t.bracket, t.text) == "[5D929653]" && TagFits("[FFF]", t)
  {
    FffTag2Enclosed(t);
    FffTag2Plain(t.text);
    FffTag2Differs("[FFF]", "[5D929653]");
  }

  lemma FffTag2Enclosed(t: EndTag)
    requires t == EndTag(Square, "5D929653", "")
    ensures Enclose(t.bracket, t.text) == "[5D929653]"
  {
  }

  lemma FffTag2Differs(g: string, e: string)
    requires g == "[FFF]" && e == "[5D929653]"
    ensures g != e
  {
    assert |g| == 5 && |e| == 10;
  }

  lemma FffTag2Plain(s: string)
    requires s == "5D929653"
    ensures Plain(s)
  {
  }

  lemma FffTail(trail: string, e0: string, g0: string, e1: string, g1: string, e2: string, g2: string)
    requires trail == " " && e0 == "[BD]" && g0 == "" && e1 == "[1080p-FLAC]" && g1 == "" && e2 == "[5D929653]" && g2 == ""
    ensures trail + (e0 + g0 + e1 + g1 + e2 + g2) == " [BD][1080p-FLAC][5D929653]"
  {
  }

  lemma FffFrame(n: FansubName)
    requires n == FansubName(Square, "FFF", " ", "Highschool DxD - SP01", " ", [EndTag(Square, "BD", ""), EndTag(Square, "1080p-FLAC", ""), EndTag(Square, "5D929653", "")], "mkv")
    ensures FrameOk(n)
  {
    FffAround(n);
    FffTag0(n.tags[0]);
    FffTag1(n.tags[1]);
    FffTag2(n.tags[2]);
    FramedThree(n);
  }

  lemma FffAround(n: FansubName)
    requires n == FansubName(Square, "FFF", " ", "Highschool DxD - SP01", " ", [EndTag(Square, "BD", ""), EndTag(Square, "1080p-FLAC", ""), EndTag(Square, "5D929653", "")], "mkv")
    ensures AroundOk(n) && GroupTag(n) == "[FFF]" && |n.tags| == 3
  {
  }

  lemma FffTitlePlain(t: string)
    requires t == "Highschool DxD - SP01"
    ensures Plain(t)
  {
  }

  lemma FffTitle()
    ensures "Highschool DxD - SP01" == "Highschool DxD" + " - " + "SP" + "01"
    ensures SeriesOk("Highschool DxD") && WordOk("SP") && AllIn(Digit, "01")
  {
    FffTitleIs("Highschool DxD - SP01");
    FffSeries("Highschool DxD");
  }

  lemma FffTitleIs(t: string)
    requires t == "Highschool DxD - SP01"
    ensures t == "Highschool DxD" + " - " + "SP" + "01"
  {
    assert "Highschool DxD" + " - " == "Highschool DxD - ";
    assert "Highschool DxD - " + "SP" == "Highschool DxD - SP";
    assert "Highschool DxD - SP" + "01" == "Highschool DxD - SP01";
  }

  lemma FffSeries(s: string)
    requires s == "Highschool DxD"
    ensures SeriesOk(s)
  {
    FffSeriesPlain(s);
    FffSeriesNoDash(s);
    SeriesWhole(s);
  }

  lemma FffSeriesPlain(s: string)
    requires s == "Highschool DxD"
    ensures Plain(s)
  {
  }

  lemma FffSeriesNoDash(s: string)
    requires s == "Highschool DxD"
    ensures NoneIn(Is('-'), s)
  {
  }

  /** "[Eveyuu] Sankarea 00 [DVD Hi10P 480p H264] [4219AF02].mkv": no dash, the episode read at the last space; group "Eveyuu", series "Sankarea", episode 0, extension ".mkv". */
  lemma EveyuuRow(fileName: string)
    requires fileName == "[Eveyuu] " + "Sankarea 00" + " [DVD Hi10P 480p H264] [4219AF02]" + ".mkv"
    ensures ParseFansubFile(fileName) == Returned(Some(FansubFile("Eveyuu", "Sankarea", 0, ".mkv")))
  {
    var n := EveyuuName(fileName);
    EveyuuTitle();
    SpaceNameParsed(fileName, n, "Sankarea", "00");
  }

  lemma EveyuuName(fileName: string) returns (n: FansubName)
    requires fileName == "[Eveyuu] " + "Sankarea 00" + " [DVD Hi10P 480p H264] [4219AF02]" + ".mkv"
    ensures FrameOk(n) && ReplaceChar(fileName, '_', ' ') == Spelled(n)
    ensures n.title == "Sankarea" + " " + "00"
    ensures n.group == "Eveyuu" && "." + n.ext == ".mkv"
  {
    n := FansubName(Square, "Eveyuu", " ", "Sankarea 00", " ", [EndTag(Square, "DVD Hi10P 480p H264", " "), EndTag(Square, "4219AF02", "")], "mkv");
    EveyuuTitleIs(n.title);
    EveyuuTitlePlain(n.title);
    EveyuuFrame(n);
    EveyuuSpelled(fileName, n);
    UnderscoreFree(fileName, n);
  }

  lemma EveyuuSpelled(fileName: string, n: FansubName)
    requires fileName == "[Eveyuu] " + "Sankarea 00" + " [DVD Hi10P 480p H264] [4219AF02]" + ".mkv"
    requires n == FansubName(Square, "Eveyuu", " ", "Sankarea 00", " ", [EndTag(Square, "DVD Hi10P 480p H264", " "), EndTag(Square, "4219AF02", "")], "mkv")
    ensures fileName == Spelled(n)
  {
    SpelledChunks(n);
    TwoTags(n.tags[0], n.tags[1]);
    EveyuuHead(n);
    EveyuuTag0(n.tags[0]);
    EveyuuTag1(n.tags[1]);
    EveyuuTail(n.trail, Enclose(n.tags[0].bracket, n.tags[0].text), n.tags[0].gap, Enclose(n.tags[1].bracket, n.tags[1].text), n.tags[1].gap);
  }

  lemma EveyuuHead(n: FansubName)
    requires n == FansubName(Square, "Eveyuu", " ", "Sankarea 00", " ", [EndTag(Square, "DVD Hi10P 480p H264", " "), EndTag(Square, "4219AF02", "")], "mkv")
    ensures GroupTag(n) + n.lead == "[Eveyuu] " && n.title == "Sankarea 00" && "." + n.ext == ".mkv"
  {
  }

  lemma EveyuuTag0(t: EndTag)
    requires t == EndTag(Square, "DVD Hi10P 480p H264", " ")
    ensures Enclose(t.bracket, t.text) == "[DVD Hi10P 480p H264]" && TagFits("[Eveyuu]", t)
  {
    EveyuuTag0Enclosed(t);
    EveyuuTag0Plain(t.text);
    EveyuuTag0Differs("[Eveyuu]", "[DVD Hi10P 480p H264]");
  }

  lemma EveyuuTag0Enclosed(t: EndTag)
    requires t == EndTag(Square, "DVD Hi10P 480p H264", " ")
    ensures Enclose(t.bracket, t.text) == "[DVD Hi10P 480p H264]"
  {
  }

  lemma EveyuuTag0Differs(g: string, e: string)
    requires g == "[Eveyuu]" && e == "[DVD Hi10P 480p H264]"
    ensures g != e
  {
    assert |g| == 8 && |e| == 21;
  }

  lemma EveyuuTag0Plain(s: string)
    requires s == "DVD Hi10P 480p H264"
    ensures Plain(s)
  {
  }

  lemma EveyuuTag1(t: EndTag)
    requires t == EndTag(Square, "4219AF02", "")
    ensures Enclose(t.bracket, t.text) == "[4219AF02]" && TagFits("[Eveyuu]", t)
  {
    EveyuuTag1Enclosed(t);
    EveyuuTag1Plain(t.text);
    EveyuuTag1Differs("[Eveyuu]", "[4219AF02]");
  }

  lemma EveyuuTag1Enclosed(t: EndTag)
    requires t == EndTag(Square, "4219AF02", "")
    ensures Enclose(t.bracket, t.text) == "[4219AF02]"
  {
  }

  lemma EveyuuTag1Differs(g: string, e: string)
    requires g == "[Eveyuu]" && e == "[4219AF02]"
    ensures g != e
  {
    assert |g| == 8 && |e| == 10;
  }

  lemma EveyuuTag1Plain(s: string)
    requires s == "4219AF02"
    ensures Plain(s)
  {
  }

  lemma EveyuuTail(trail: string, e0: string, g0: string, e1: string, g1: string)
    requires trail == " " && e0 == "[DVD Hi10P 480p H264]" && g0 == " " && e1 == "[4219AF02]" && g1 == ""
    ensures trail + (e0 + g0 + e1 + g1) == " [DVD Hi10P 480p H264] [4219AF02]"
  {
  }

  lemma EveyuuFrame(n: FansubName)
    requires n == FansubName(Square, "Eveyuu", " ", "Sankarea 00", " ", [EndTag(Square, "DVD Hi10P 480p H264", " "), EndTag(Square, "4219AF02", "")], "mkv")
    ensures FrameOk(n)
  {
    EveyuuAround(n);
    EveyuuTag0(n.tags[0]);
    EveyuuTag1(n.tags[1]);
    FramedTwo(n);
  }

  lemma EveyuuAround(n: FansubName)
    requires n == FansubName(Square, "Eveyuu", " ", "Sankarea 00", " ", [EndTag(Square, "DVD Hi10P 480p H264", " "), EndTag(Square, "4219AF02", "")], "mkv")
    ensures AroundOk(n) && GroupTag(n) == "[Eveyuu]" && |n.tags| == 2
  {
  }

  lemma EveyuuTitlePlain(t: string)
    requires t == "Sankarea 00"
    ensures Plain(t)
  {
  }

  lemma EveyuuTitle()
    ensures "Sankarea 00" == "Sankarea" + " " + "00"
    ensures FrontOk("Sankarea") && EpisodeOk("00") && "00" !in Split("Sankarea", ' ')
    ensures DigitsValue("00") == 0
  {
    EveyuuTitleIs("Sankarea 00");
    EveyuuFront("Sankarea");
    EveyuuEpisode("00");
    assert "00" != "Sankarea";
  }

  lemma EveyuuTitleIs(t: string)
    requires t == "Sankarea 00"
    ensures t == "Sankarea" + " " + "00"
  {
    assert "Sankarea" + " " == "Sankarea ";
    assert "Sankarea " + "00" == "Sankarea 00";
  }

  lemma EveyuuFront(front: string)
    requires front == "Sankarea"
    ensures FrontOk(front) && Split(front, ' ') == [front]
  {
    EveyuuFrontPlain(front);
    EveyuuFrontNoDash(front);
    EveyuuFrontNoSpace(front);
    SplitNone(front, ' ');
  }

  lemma EveyuuFrontPlain(front: string)
    requires front == "Sankarea"
    ensures Plain(front)
  {
  }

  lemma EveyuuFrontNoDash(front: string)
    requires front == "Sankarea"
    ensures NoneIn(Is('-'), front)
  {
  }

  lemma EveyuuFrontNoSpace(front: string)
    requires front == "Sankarea"
    ensures NoneIn(Is(' '), front) && IsTrimmed(front)
  {
  }

  lemma EveyuuEpisode(ds: string)
    requires ds == "00"
    ensures EpisodeOk(ds) && DigitsValue(ds) == 0
  {
    assert DigitsValue(ds[..1]) == 0;
  }

  /** "[gg]_Sasami-san@Ganbaranai_-_05_[6C2060E1].mkv": underscores for spaces; group "gg", series "Sasami-san@Ganbaranai", episode 5, extension ".mkv". */
  lemma GgRow(fileName: string)
    requires fileName == "[gg]_" + "Sasami-san@Ganbaranai_-_05" + "_[6C2060E1]" + ".mkv"
    ensures ParseFansubFile(fileName) == Returned(Some(FansubFile("gg", "Sasami-san@Ganbaranai", 5, ".mkv")))
  {
    var n := GgName(fileName);
    GgTitle();
    DashNameParsed(fileName, n, "Sasami-san@Ganbaranai", "05", "", "");
  }

  lemma GgName(fileName: string) returns (n: FansubName)
    requires fileName == "[gg]_" + "Sasami-san@Ganbaranai_-_05" + "_[6C2060E1]" + ".mkv"
    ensures FrameOk(n) && ReplaceChar(fileName, '_', ' ') == Spelled(n)
    ensures n.title == DashTitle("Sasami-san@Ganbaranai", "05", "", "")
    ensures n.group == "gg" && "." + n.ext == ".mkv"
  {
    n := FansubName(Square, "gg", " ", "Sasami-san@Ganbaranai - 05", " ", [EndTag(Square, "6C2060E1", "")], "mkv");
    GgTitleIs(n.title);
    GgFrame(n);
    GgSpelled(fileName, n);
  }

  lemma GgSpelled(fileName: string, n: FansubName)
    requires fileName == "[gg]_" + "Sasami-san@Ganbaranai_-_05" + "_[6C2060E1]" + ".mkv"
    requires n == FansubName(Square, "gg", " ", "Sasami-san@Ganbaranai - 05", " ", [EndTag(Square, "6C2060E1", "")], "mkv")
    ensures ReplaceChar(fileName, '_', ' ') == Spelled(n)
  {
    GgText(n, "[gg] " + "Sasami-san@Ganbaranai - 05" + " [6C2060E1]" + ".mkv");
    GgUnderscores(fileName, "[gg] " + "Sasami-san@Ganbaranai - 05" + " [6C2060E1]" + ".mkv");
  }

  lemma GgText(n: FansubName, s: string)
    requires n == FansubName(Square, "gg", " ", "Sasami-san@Ganbaranai - 05", " ", [EndTag(Square, "6C2060E1", "")], "mkv")
    requires s == "[gg] " + "Sasami-san@Ganbaranai - 05" + " [6C2060E1]" + ".mkv"
    ensures s == Spelled(n)
  {
    SpelledChunks(n);
    OneTag(n.tags[0]);
    GgHead(n);
    GgTag0(n.tags[0]);
    GgTail(n.trail, Enclose(n.tags[0].bracket, n.tags[0].text), n.tags[0].gap);
  }

  lemma GgHead(n: FansubName)
    requires n == FansubName(Square, "gg", " ", "Sasami-san@Ganbaranai - 05", " ", [EndTag(Square, "6C2060E1", "")], "mkv")
    ensures GroupTag(n) + n.lead == "[gg] " && n.title == "Sasami-san@Ganbaranai - 05" && "." + n.ext == ".mkv"
  {
  }

  lemma GgTag0(t: EndTag)
    requires t == EndTag(Square, "6C2060E1", "")
    ensures Enclose(t.bracket, t.text) == "[6C2060E1]" && TagFits("[gg]", t)
  {
    GgTag0Enclosed(t);
    GgTag0Plain(t.text);
    GgTag0Differs("[gg]", "[6C2060E1]");
  }

  lemma GgTag0Enclosed(t: EndTag)
    requires t == EndTag(Square, "6C2060E1", "")
    ensures Enclose(t.bracket, t.text) == "[6C2060E1]"
  {
  }

  lemma GgTag0Differs(g: string, e: string)
    requires g == "[gg]" && e == "[6C2060E1]"
    ensures g != e
  {
    assert |g| == 4 && |e| == 10;
  }

  lemma GgTag0Plain(s: string)
    requires s == "6C2060E1"
    ensures Plain(s)
  {
  }

  lemma GgTail(trail: string, e0: string, g0: string)
    requires trail == " " && e0 == "[6C2060E1]" && g0 == ""
    ensures trail + (e0 + g0) == " [6C2060E1]"
  {
  }

  lemma GgUnderscores(fileName: string, s: string)
    requires fileName == "[gg]_" + "Sasami-san@Ganbaranai_-_05" + "_[6C2060E1]" + ".mkv"
    requires s == "[gg] " + "Sasami-san@Ganbaranai - 05" + " [6C2060E1]" + ".mkv"
    ensures ReplaceChar(fileName, '_', ' ') == s
  {
    var c0, c1, c2, c3 := "[gg]_", "Sasami-san@Ganbaranai_-_05", "_[6C2060E1]", ".mkv";
    var d0, d1, d2 := "[gg] ", "Sasami-san@Ganbaranai - 05", " [6C2060E1]";
    GgNoUnderscores(c3);
    var w00, w01 := "[gg]", "";
    GgSplit0(c0, w00, w01);
    GgPlain0(w00, w01);
    GgJoined0(d0, w00, w01);
    var w10, w11, w12 := "Sasami-san@Ganbaranai", "-", "05";
    GgSplit1(c1, w10, w11, w12);
    GgPlain1(w10, w11, w12);
    GgJoined1(d1, w10, w11, w12);
    var w20, w21 := "", "[6C2060E1]";
    GgSplit2(c2, w20, w21);
    GgPlain2(w20, w21);
    GgJoined2(d2, w20, w21);
    ReplaceCharAbsent(c3, '_', ' ');
    ReplaceCharAbsent(w00, '_', ' ');
    UnderscoreJoin(w00, w01);
    ReplaceCharAbsent(w10, '_', ' ');
    UnderscoreJoin(w10, w11);
    UnderscoreJoin(w10 + "_" + w11, w12);
    ReplaceCharAbsent(w20, '_', ' ');
    UnderscoreJoin(w20, w21);
    UnderscoresOf(fileName, s, c0, c1, c2, c3, d0, d1, d2, c3);
  }

  lemma GgNoUnderscores(c3: string)
    requires c3 == ".mkv"
    ensures NoneIn(Is('_'), c3)
  {
  }

  lemma GgSplit0(c: string, w0: string, w1: string)
    requires c == "[gg]_"
    requires w0 == "[gg]" && w1 == ""
    ensures c == w0 + "_" + w1
  {
  }

  lemma GgPlain0(w0: string, w1: string)
    requires w0 == "[gg]" && w1 == ""
    ensures NoneIn(Is('_'), w0) && NoneIn(Is('_'), w1)
  {
  }

  lemma GgJoined0(d: string, w0: string, w1: string)
    requires d == "[gg] "
    requires w0 == "[gg]" && w1 == ""
    ensures d == w0 + " " + w1
  {
  }

  lemma GgSplit1(c: string, w0: string, w1: string, w2: string)
    requires c == "Sasami-san@Ganbaranai_-_05"
    requires w0 == "Sasami-san@Ganbaranai" && w1 == "-" && w2 == "05"
    ensures c == w0 + "_" + w1 + "_" + w2
  {
  }

  lemma GgPlain1(w0: string, w1: string, w2: string)
    requires w0 == "Sasami-san@Ganbaranai" && w1 == "-" && w2 == "05"
    ensures NoneIn(Is('_'), w0) && NoneIn(Is('_'), w1) && NoneIn(Is('_'), w2)
  {
  }

  lemma GgJoined1(d: string, w0: string, w1: string, w2: string)
    requires d == "Sasami-san@Ganbaranai - 05"
    requires w0 == "Sasami-san@Ganbaranai" && w1 == "-" && w2 == "05"
    ensures d == w0 + " " + w1 + " " + w2
  {
  }

  lemma GgSplit2(c: string, w0: string, w1: string)
    requires c == "_[6C2060E1]"
    requires w0 == "" && w1 == "[6C2060E1]"
    ensures c == w0 + "_" + w1
  {
  }

  lemma GgPlain2(w0: string, w1: string)
    requires w0 == "" && w1 == "[6C2060E1]"
    ensures NoneIn(Is('_'), w0) && NoneIn(Is('_'), w1)
  {
  }

  lemma GgJoined2(d: string, w0: string, w1: string)
    requires d == " [6C2060E1]"
    requires w0 == "" && w1 == "[6C2060E1]"
    ensures d == w0 + " " + w1
  {
  }

  lemma GgFrame(n: FansubName)
    requires n == FansubName(Square, "gg", " ", "Sasami-san@Ganbaranai - 05", " ", [EndTag(Square, "6C2060E1", "")], "mkv")
    ensures FrameOk(n)
  {
    GgAround(n);
    GgTag0(n.tags[0]);
    FramedOne(n);
  }

  lemma GgAround(n: FansubName)
    requires n == FansubName(Square, "gg", " ", "Sasami-san@Ganbaranai - 05", " ", [EndTag(Square, "6C2060E1", "")], "mkv")
    ensures AroundOk(n) && GroupTag(n) == "[gg]" && |n.tags| == 1
  {
  }

  lemma GgTitle()
    ensures "Sasami-san@Ganbaranai - 05" == DashTitle("Sasami-san@Ganbaranai", "05", "", "")
    ensures SeriesOk("Sasami-san@Ganbaranai") && EpisodeOk("05") && VersionOk("Sasami-san@Ganbaranai", "", "")
    ensures DigitsValue("05") == 5
  {
    GgTitleIs("Sasami-san@Ganbaranai - 05");
    GgSeries("Sasami-san@Ganbaranai");
    GgEpisode("05");
    assert VersionOk("Sasami-san@Ganbaranai", "", "");
  }

  lemma GgTitleIs(t: string)
    requires t == "Sasami-san@Ganbaranai - 05"
    ensures t == DashTitle("Sasami-san@Ganbaranai", "05", "", "")
  {
    assert Version("", "") == [];
    assert "Sasami-san@Ganbaranai" + " - " == "Sasami-san@Ganbaranai - ";
    assert "Sasami-san@Ganbaranai - " + "05" == "Sasami-san@Ganbaranai - 05";
  }

  lemma GgSeries(s: string)
    requires s == "Sasami-san@Ganbaranai"
    ensures SeriesOk(s)
  {
    var a, b := "Sasami", "san@Ganbaranai";
    GgSeriesSplit(s, a, b);
    GgSeriesEnds(a, b);
    GgSeriesPlainA(a);
    GgSeriesPlainB(b);
    GgSeriesNoDashA(a);
    GgSeriesNoDashB(b);
    SeriesDashed(a, "-", b);
  }

  lemma GgSeriesSplit(s: string, a: string, b: string)
    requires s == "Sasami-san@Ganbaranai" && a == "Sasami" && b == "san@Ganbaranai"
    ensures s == a + "-" + b
  {
  }

  lemma GgSeriesEnds(a: string, b: string)
    requires a == "Sasami" && b == "san@Ganbaranai"
    ensures a != [] && b != [] && !IsWhiteSpace(a[0]) && !IsWhiteSpace(b[|b| - 1])
  {
  }

  lemma GgSeriesPlainA(a: string)
    requires a == "Sasami"
    ensures Plain(a)
  {
  }

  lemma GgSeriesPlainB(b: string)
    requires b == "san@Ganbaranai"
    ensures Plain(b)
  {
  }

  lemma GgSeriesNoDashA(a: string)
    requires a == "Sasami"
    ensures NoneIn(Is('-'), a)
  {
  }

  lemma GgSeriesNoDashB(b: string)
    requires b == "san@Ganbaranai"
    ensures NoneIn(Is('-'), b)
  {
  }

  lemma GgEpisode(ds: string)
    requires ds == "05"
    ensures EpisodeOk(ds) && DigitsValue(ds) == 5
  {
    assert DigitsValue(ds[..1]) == 0;
  }

  /** "[RaX]Strawberry_Panic_-_01_[No_Dub]_(x264_ogg)_[F4EAA441].mkv": underscores for spaces, no space after the group and a tag in parentheses; group "RaX", series "Strawberry Panic", episode 1, extension ".mkv". */
  lemma RaxRow(fileName: string)
    requires fileName == "[RaX]" + "Strawberry_Panic_-_01" + "_[No_Dub]_(x264_ogg)_[F4EAA441]" + ".mkv"
    ensures ParseFansubFile(fileName) == Returned(Some(FansubFile("RaX", "Strawberry Panic", 1, ".mkv")))
  {
    var n := RaxName(fileName);
    RaxTitle();
    DashNameParsed(fileName, n, "Strawberry Panic", "01", "", "");
  }

  lemma RaxName(fileName: string) returns (n: FansubName)
    requires fileName == "[RaX]" + "Strawberry_Panic_-_01" + "_[No_Dub]_(x264_ogg)_[F4EAA441]" + ".mkv"
    ensures FrameOk(n) && ReplaceChar(fileName, '_', ' ') == Spelled(n)
    ensures n.title == DashTitle("Strawberry Panic", "01", "", "")
    ensures n.group == "RaX" && "." + n.ext == ".mkv"
  {
    n := FansubName(Square, "RaX", "", "Strawberry Panic - 01", " ", [EndTag(Square, "No Dub", " "), EndTag(Round, "x264 ogg", " "), EndTag(Square, "F4EAA441", "")], "mkv");
    RaxTitleIs(n.title);
    RaxFrame(n);
    RaxSpelled(fileName, n);
  }

  lemma RaxSpelled(fileName: string, n: FansubName)
    requires fileName == "[RaX]" + "Strawberry_Panic_-_01" + "_[No_Dub]_(x264_ogg)_[F4EAA441]" + ".mkv"
    requires n == FansubName(Square, "RaX", "", "Strawberry Panic - 01", " ", [EndTag(Square, "No Dub", " "), EndTag(Round, "x264 ogg", " "), EndTag(Square, "F4EAA441", "")], "mkv")
    ensures ReplaceChar(fileName, '_', ' ') == Spelled(n)
  {
    RaxText(n, "[RaX]" + "Strawberry Panic - 01" + " [No Dub] (x264 ogg) [F4EAA441]" + ".mkv");
    RaxUnderscores(fileName, "[RaX]" + "Strawberry Panic - 01" + " [No Dub] (x264 ogg) [F4EAA441]" + ".mkv");
  }

  lemma RaxText(n: FansubName, s: string)
    requires n == FansubName(Square, "RaX", "", "Strawberry Panic - 01", " ", [EndTag(Square, "No Dub", " "), EndTag(Round, "x264 ogg", " "), EndTag(Square, "F4EAA441", "")], "mkv")
    requires s == "[RaX]" + "Strawberry Panic - 01" + " [No Dub] (x264 ogg) [F4EAA441]" + ".mkv"
    ensures s == Spelled(n)
  {
    SpelledChunks(n);
    ThreeTags(n.tags[0], n.tags[1], n.tags[2]);
    RaxHead(n);
    RaxTag0(n.tags[0]);
    RaxTag1(n.tags[1]);
    RaxTag2(n.tags[2]);
    RaxTail(n.trail, Enclose(n.tags[0].bracket, n.tags[0].text), n.tags[0].gap, Enclose(n.tags[1].bracket, n.tags[1].text), n.tags[1].gap, Enclose(n.tags[2].bracket, n.tags[2].text), n.tags[2].gap);
  }

  lemma RaxHead(n: FansubName)
    requires n == FansubName(Square, "RaX", "", "Strawberry Panic - 01", " ", [EndTag(Square, "No Dub", " "), EndTag(Round, "x264 ogg", " "), EndTag(Square, "F4EAA441", "")], "mkv")
    ensures GroupTag(n) + n.lead == "[RaX]" && n.title == "Strawberry Panic - 01" && "." + n.ext == ".mkv"
  {
  }

  lemma RaxTag0(t: EndTag)
    requires t == EndTag(Square, "No Dub", " ")
    ensures Enclose(t.bracket, t.text) == "[No Dub]" && TagFits("[RaX]", t)
  {
    RaxTag0Enclosed(t);
    RaxTag0Plain(t.text);
    RaxTag0Differs("[RaX]", "[No Dub]");
  }

  lemma RaxTag0Enclosed(t: EndTag)
    requires t == EndTag(Square, "No Dub", " ")
    ensures Enclose(t.bracket, t.text) == "[No Dub]"
  {
  }

  lemma RaxTag0Differs(g: string, e: string)
    requires g == "[RaX]" && e == "[No Dub]"
    ensures g != e
  {
    assert |g| == 5 && |e| == 8;
  }

  lemma RaxTag0Plain(s: string)
    requires s == "No Dub"
    ensures Plain(s)
  {
  }

  lemma RaxTag1(t: EndTag)
    requires t == EndTag(Round, "x264 ogg", " ")
    ensures Enclose(t.bracket, t.text) == "(x264 ogg)" && TagFits("[RaX]", t)
  {
    RaxTag1Enclosed(t);
    RaxTag1Plain(t.text);
    RaxTag1Differs("[RaX]", "(x264 ogg)");
    RaxTag1Word(t.text);
  }

  lemma RaxTag1Enclosed(t: EndTag)
    requires t == EndTag(Round, "x264 ogg", " ")
    ensures Enclose(t.bracket, t.text) == "(x264 ogg)"
  {
  }

  lemma RaxTag1Differs(g: string, e: string)
    requires g == "[RaX]" && e == "(x264 ogg)"
    ensures g != e
  {
    assert |g| == 5 && |e| == 10;
  }

  lemma RaxTag1Word(s: string)
    requires s == "x264 ogg"
    ensures NotANumber(s)
  {
    assert !IsDigit(s[0]);
  }

  lemma RaxTag1Plain(s: string)
    requires s == "x264 ogg"
    ensures Plain(s)
  {
  }

  lemma RaxTag2(t: EndTag)
    requires t == EndTag(Square, "F4EAA441", "")
    ensures Enclose(t.bracket, t.text) == "[F4EAA441]" && TagFits("[RaX]", t)
  {
    RaxTag2Enclosed(t);
    RaxTag2Plain(t.text);
    RaxTag2Differs("[RaX]", "[F4EAA441]");
  }

  lemma RaxTag2Enclosed(t: EndTag)
    requires t == EndTag(Square, "F4EAA441", "")
    ensures Enclose(t.bracket, t.text) == "[F4EAA441]"
  {
  }

  lemma RaxTag2Differs(g: string, e: string)
    requires g == "[RaX]" && e == "[F4EAA441]"
    ensures g != e
  {
    assert |g| == 5 && |e| == 10;
  }

  lemma RaxTag2Plain(s: string)
    requires s == "F4EAA441"
    ensures Plain(s)
  {
  }

  lemma RaxTail(trail: string, e0: string, g0: string, e1: string, g1: string, e2: string, g2: string)
    requires trail == " " && e0 == "[No Dub]" && g0 == " " && e1 == "(x264 ogg)" && g1 == " " && e2 == "[F4EAA441]" && g2 == ""
    ensures trail + (e0 + g0 + e1 + g1 + e2 + g2) == " [No Dub] (x264 ogg) [F4EAA441]"
  {
  }

  lemma RaxUnderscores(fileName: string, s: string)
    requires fileName == "[RaX]" + "Strawberry_Panic_-_01" + "_[No_Dub]_(x264_ogg)_[F4EAA441]" + ".mkv"
    requires s == "[RaX]" + "Strawberry Panic - 01" + " [No Dub] (x264 ogg) [F4EAA441]" + ".mkv"
    ensures ReplaceChar(fileName, '_', ' ') == s
  {
    var c0, c1, c2, c3 := "[RaX]", "Strawberry_Panic_-_01", "_[No_Dub]_(x264_ogg)_[F4EAA441]", ".mkv";
    var d1, d2 := "Strawberry Panic - 01", " [No Dub] (x264 ogg) [F4EAA441]";
    RaxNoUnderscores(c0, c3);
    var w10, w11, w12, w13 := "Strawberry", "Panic", "-", "01";
    RaxSplit1(c1, w10, w11, w12, w13);
    RaxPlain1(w10, w11, w12, w13);
    RaxJoined1(d1, w10, w11, w12, w13);
    var w20, w21, w22, w23, w24, w25 := "", "[No", "Dub]", "(x264", "ogg)", "[F4EAA441]";
    RaxSplit2(c2, w20, w21, w22, w23, w24, w25);
    RaxPlain2(w20, w21, w22, w23, w24, w25);
    RaxJoined2(d2, w20, w21, w22, w23, w24, w25);
    ReplaceCharAbsent(c0, '_', ' ');
    ReplaceCharAbsent(c3, '_', ' ');
    ReplaceCharAbsent(w10, '_', ' ');
    UnderscoreJoin(w10, w11);
    UnderscoreJoin(w10 + "_" + w11, w12);
    UnderscoreJoin(w10 + "_" + w11 + "_" + w12, w13);
    ReplaceCharAbsent(w20, '_', ' ');
    UnderscoreJoin(w20, w21);
    UnderscoreJoin(w20 + "_" + w21, w22);
    UnderscoreJoin(w20 + "_" + w21 + "_" + w22, w23);
    UnderscoreJoin(w20 + "_" + w21 + "_" + w22 + "_" + w23, w24);
    UnderscoreJoin(w20 + "_" + w21 + "_" + w22 + "_" + w23 + "_" + w24, w25);
    UnderscoresOf(fileName, s, c0, c1, c2, c3, c0, d1, d2, c3);
  }

  lemma RaxNoUnderscores(c0: string, c3: string)
    requires c0 == "[RaX]" && c3 == ".mkv"
    ensures NoneIn(Is('_'), c0) && NoneIn(Is('_'), c3)
  {
  }

  lemma RaxSplit1(c: string, w0: string, w1: string, w2: string, w3: string)
    requires c == "Strawberry_Panic_-_01"
    requires w0 == "Strawberry" && w1 == "Panic" && w2 == "-" && w3 == "01"
    ensures c == w0 + "_" + w1 + "_" + w2 + "_" + w3
  {
  }

  lemma RaxPlain1(w0: string, w1: string, w2: string, w3: string)
    requires w0 == "Strawberry" && w1 == "Panic" && w2 == "-" && w3 == "01"
    ensures NoneIn(Is('_'), w0) && NoneIn(Is('_'), w1) && NoneIn(Is('_'), w2) && NoneIn(Is('_'), w3)
  {
  }

  lemma RaxJoined1(d: string, w0: string, w1: string, w2: string, w3: string)
    requires d == "Strawberry Panic - 01"
    requires w0 == "Strawberry" && w1 == "Panic" && w2 == "-" && w3 == "01"
    ensures d == w0 + " " + w1 + " " + w2 + " " + w3
  {
  }

  lemma RaxSplit2(c: string, w0: string, w1: string, w2: string, w3: string, w4: string, w5: string)
    requires c == "_[No_Dub]_(x264_ogg)_[F4EAA441]"
    requires w0 == "" && w1 == "[No" && w2 == "Dub]" && w3 == "(x264" && w4 == "ogg)" && w5 == "[F4EAA441]"
    ensures c == w0 + "_" + w1 + "_" + w2 + "_" + w3 + "_" + w4 + "_" + w5
  {
  }

  lemma RaxPlain2(w0: string, w1: string, w2: string, w3: string, w4: string, w5: string)
    requires w0 == "" && w1 == "[No" && w2 == "Dub]" && w3 == "(x264" && w4 == "ogg)" && w5 == "[F4EAA441]"
    ensures NoneIn(Is('_'), w0) && NoneIn(Is('_'), w1) && NoneIn(Is('_'), w2) && NoneIn(Is('_'), w3) && NoneIn(Is('_'), w4) && NoneIn(Is('_'), w5)
  {
  }

  lemma RaxJoined2(d: string, w0: string, w1: string, w2: string, w3: string, w4: string, w5: string)
    requires d == " [No Dub] (x264 ogg) [F4EAA441]"
    requires w0 == "" && w1 == "[No" && w2 == "Dub]" && w3 == "(x264" && w4 == "ogg)" && w5 == "[F4EAA441]"
    ensures d == w0 + " " + w1 + " " + w2 + " " + w3 + " " + w4 + " " + w5
  {
  }

  lemma RaxFrame(n: FansubName)
    requires n == FansubName(Square, "RaX", "", "Strawberry Panic - 01", " ", [EndTag(Square, "No Dub", " "), EndTag(Round, "x264 ogg", " "), EndTag(Square, "F4EAA441", "")], "mkv")
    ensures FrameOk(n)
  {
    RaxAround(n);
    RaxTag0(n.tags[0]);
    RaxTag1(n.tags[1]);
    RaxTag2(n.tags[2]);
    FramedThree(n);
  }

  lemma RaxAround(n: FansubName)
    requires n == FansubName(Square, "RaX", "", "Strawberry Panic - 01", " ", [EndTag(Square, "No Dub", " "), EndTag(Round, "x264 ogg", " "), EndTag(Square, "F4EAA441", "")], "mkv")
    ensures AroundOk(n) && GroupTag(n) == "[RaX]" && |n.tags| == 3
  {
  }

  lemma RaxTitle()
    ensures "Strawberry Panic - 01" == DashTitle("Strawberry Panic", "01", "", "")
    ensures SeriesOk("Strawberry Panic") && EpisodeOk("01") && VersionOk("Strawberry Panic", "", "")
    ensures DigitsValue("01") == 1
  {
    RaxTitleIs("Strawberry Panic - 01");
    RaxSeries("Strawberry Panic");
    RaxEpisode("01");
    assert VersionOk("Strawberry Panic", "", "");
  }

  lemma RaxTitleIs(t: string)
    requires t == "Strawberry Panic - 01"
    ensures t == DashTitle("Strawberry Panic", "01", "", "")
  {
    assert Version("", "") == [];
    assert "Strawberry Panic" + " - " == "Strawberry Panic - ";
    assert "Strawberry Panic - " + "01" == "Strawberry Panic - 01";
  }

  lemma RaxSeries(s: string)
    requires s == "Strawberry Panic"
    ensures SeriesOk(s)
  {
    RaxSeriesPlain(s);
    RaxSeriesNoDash(s);
    SeriesWhole(s);
  }

  lemma RaxSeriesPlain(s: string)
    requires s == "Strawberry Panic"
    ensures Plain(s)
  {
  }

  lemma RaxSeriesNoDash(s: string)
    requires s == "Strawberry Panic"
    ensures NoneIn(Is('-'), s)
  {
  }

  lemma RaxEpisode(ds: string)
    requires ds == "01"
    ensures EpisodeOk(ds) && DigitsValue(ds) == 1
  {
    assert DigitsValue(ds[..1]) == 0;
  }

  /** "(B-A)Devilman_Lady_-_01_(2E088B82).mkv": the group in parentheses; group "B-A", series "Devilman Lady", episode 1, extension ".mkv". */
  lemma BARow(fileName: string)
    requires fileName == "(B-A)" + "Devilman_Lady_-_01" + "_(2E088B82)" + ".mkv"
    ensures ParseFansubFile(fileName) == Returned(Some(FansubFile("B-A", "Devilman Lady", 1, ".mkv")))
  {
    var n := BAName(fileName);
    BATitle();
    DashNameParsed(fileName, n, "Devilman Lady", "01", "", "");
  }

  lemma BAName(fileName: string) returns (n: FansubName)
    requires fileName == "(B-A)" + "Devilman_Lady_-_01" + "_(2E088B82)" + ".mkv"
    ensures FrameOk(n) && ReplaceChar(fileName, '_', ' ') == Spelled(n)
    ensures n.title == DashTitle("Devilman Lady", "01", "", "")
    ensures n.group == "B-A" && "." + n.ext == ".mkv"
  {
    n := FansubName(Round, "B-A", "", "Devilman Lady - 01", " ", [EndTag(Round, "2E088B82", "")], "mkv");
    BATitleIs(n.title);
    BAFrame(n);
    BASpelled(fileName, n);
  }

  lemma BASpelled(fileName: string, n: FansubName)
    requires fileName == "(B-A)" + "Devilman_Lady_-_01" + "_(2E088B82)" + ".mkv"
    requires n == FansubName(Round, "B-A", "", "Devilman Lady - 01", " ", [EndTag(Round, "2E088B82", "")], "mkv")
    ensures ReplaceChar(fileName, '_', ' ') == Spelled(n)
  {
    BAText(n, "(B-A)" + "Devilman Lady - 01" + " (2E088B82)" + ".mkv");
    BAUnderscores(fileName, "(B-A)" + "Devilman Lady - 01" + " (2E088B82)" + ".mkv");
  }

  lemma BAText(n: FansubName, s: string)
    requires n == FansubName(Round, "B-A", "", "Devilman Lady - 01", " ", [EndTag(Round, "2E088B82", "")], "mkv")
    requires s == "(B-A)" + "Devilman Lady - 01" + " (2E088B82)" + ".mkv"
    ensures s == Spelled(n)
  {
    SpelledChunks(n);
    OneTag(n.tags[0]);
    BAHead(n);
    BATag0(n.tags[0]);
    BATail(n.trail, Enclose(n.tags[0].bracket, n.tags[0].text), n.tags[0].gap);
  }

  lemma BAHead(n: FansubName)
    requires n == FansubName(Round, "B-A", "", "Devilman Lady - 01", " ", [EndTag(Round, "2E088B82", "")], "mkv")
    ensures GroupTag(n) + n.lead == "(B-A)" && n.title == "Devilman Lady - 01" && "." + n.ext == ".mkv"
  {
  }

  lemma BATag0(t: EndTag)
    requires t == EndTag(Round, "2E088B82", "")
    ensures Enclose(t.bracket, t.text) == "(2E088B82)" && TagFits("(B-A)", t)
  {
    BATag0Enclosed(t);
    BATag0Plain(t.text);
    BATag0Differs("(B-A)", "(2E088B82)");
    BATag0Word(t.text);
  }

  lemma BATag0Enclosed(t: EndTag)
    requires t == EndTag(Round, "2E088B82", "")
    ensures Enclose(t.bracket, t.text) == "(2E088B82)"
  {
  }

  lemma BATag0Differs(g: string, e: string)
    requires g == "(B-A)" && e == "(2E088B82)"
    ensures g != e
  {
    assert |g| == 5 && |e| == 10;
  }

  lemma BATag0Word(s: string)
    requires s == "2E088B82"
    ensures NotANumber(s)
  {
    assert !IsDigit(s[1]);
  }

  lemma BATag0Plain(s: string)
    requires s == "2E088B82"
    ensures Plain(s)
  {
  }

  lemma BATail(trail: string, e0: string, g0: string)
    requires trail == " " && e0 == "(2E088B82)" && g0 == ""
    ensures trail + (e0 + g0) == " (2E088B82)"
  {
  }

  lemma BAUnderscores(fileName: string, s: string)
    requires fileName == "(B-A)" + "Devilman_Lady_-_01" + "_(2E088B82)" + ".mkv"
    requires s == "(B-A)" + "Devilman Lady - 01" + " (2E088B82)" + ".mkv"
    ensures ReplaceChar(fileName, '_', ' ') == s
  {
    var c0, c1, c2, c3 := "(B-A)", "Devilman_Lady_-_01", "_(2E088B82)", ".mkv";
    var d1, d2 := "Devilman Lady - 01", " (2E088B82)";
    BANoUnderscores(c0, c3);
    var w10, w11, w12, w13 := "Devilman", "Lady", "-", "01";
    BASplit1(c1, w10, w11, w12, w13);
    BAPlain1(w10, w11, w12, w13);
    BAJoined1(d1, w10, w11, w12, w13);
    var w20, w21 := "", "(2E088B82)";
    BASplit2(c2, w20, w21);
    BAPlain2(w20, w21);
    BAJoined2(d2, w20, w21);
    ReplaceCharAbsent(c0, '_', ' ');
    ReplaceCharAbsent(c3, '_', ' ');
    ReplaceCharAbsent(w10, '_', ' ');
    UnderscoreJoin(w10, w11);
    UnderscoreJoin(w10 + "_" + w11, w12);
    UnderscoreJoin(w10 + "_" + w11 + "_" + w12, w13);
    ReplaceCharAbsent(w20, '_', ' ');
    UnderscoreJoin(w20, w21);
    UnderscoresOf(fileName, s, c0, c1, c2, c3, c0, d1, d2, c3);
  }

  lemma BANoUnderscores(c0: string, c3: string)
    requires c0 == "(B-A)" && c3 == ".mkv"
    ensures NoneIn(Is('_'), c0) && NoneIn(Is('_'), c3)
  {
  }

  lemma BASplit1(c: string, w0: string, w1: string, w2: string, w3: string)
    requires c == "Devilman_Lady_-_01"
    requires w0 == "Devilman" && w1 == "Lady" && w2 == "-" && w3 == "01"
    ensures c == w0 + "_" + w1 + "_" + w2 + "_" + w3
  {
  }

  lemma BAPlain1(w0: string, w1: string, w2: string, w3: string)
    requires w0 == "Devilman" && w1 == "Lady" && w2 == "-" && w3 == "01"
    ensures NoneIn(Is('_'), w0) && NoneIn(Is('_'), w1) && NoneIn(Is('_'), w2) && NoneIn(Is('_'), w3)
  {
  }

  lemma BAJoined1(d: string, w0: string, w1: string, w2: string, w3: string)
    requires d == "Devilman Lady - 01"
    requires w0 == "Devilman" && w1 == "Lady" && w2 == "-" && w3 == "01"
    ensures d == w0 + " " + w1 + " " + w2 + " " + w3
  {
  }

  lemma BASplit2(c: string, w0: string, w1: string)
    requires c == "_(2E088B82)"
    requires w0 == "" && w1 == "(2E088B82)"
    ensures c == w0 + "_" + w1
  {
  }

  lemma BAPlain2(w0: string, w1: string)
    requires w0 == "" && w1 == "(2E088B82)"
    ensures NoneIn(Is('_'), w0) && NoneIn(Is('_'), w1)
  {
  }

  lemma BAJoined2(d: string, w0: string, w1: string)
    requires d == " (2E088B82)"
    requires w0 == "" && w1 == "(2E088B82)"
    ensures d == w0 + " " + w1
  {
  }

  lemma BAFrame(n: FansubName)
    requires n == FansubName(Round, "B-A", "", "Devilman Lady - 01", " ", [EndTag(Round, "2E088B82", "")], "mkv")
    ensures FrameOk(n)
  {
    BAAround(n);
    BATag0(n.tags[0]);
    FramedOne(n);
  }

  lemma BAAround(n: FansubName)
    requires n == FansubName(Round, "B-A", "", "Devilman Lady - 01", " ", [EndTag(Round, "2E088B82", "")], "mkv")
    ensures AroundOk(n) && GroupTag(n) == "(B-A)" && |n.tags| == 1
  {
  }

  lemma BATitle()
    ensures "Devilman Lady - 01" == DashTitle("Devilman Lady", "01", "", "")
    ensures SeriesOk("Devilman Lady") && EpisodeOk("01") && VersionOk("Devilman Lady", "", "")
    ensures DigitsValue("01") == 1
  {
    BATitleIs("Devilman Lady - 01");
    BASeries("Devilman Lady");
    BAEpisode("01");
    assert VersionOk("Devilman Lady", "", "");
  }

  lemma BATitleIs(t: string)
    requires t == "Devilman Lady - 01"
    ensures t == DashTitle("Devilman Lady", "01", "", "")
  {
    assert Version("", "") == [];
    assert "Devilman Lady" + " - " == "Devilman Lady - ";
    assert "Devilman Lady - " + "01" == "Devilman Lady - 01";
  }

  lemma BASeries(s: string)
    requires s == "Devilman Lady"
    ensures SeriesOk(s)
  {
    BASeriesPlain(s);
    BASeriesNoDash(s);
    SeriesWhole(s);
  }

  lemma BASeriesPlain(s: string)
    requires s == "Devilman Lady"
    ensures Plain(s)
  {
  }

  lemma BASeriesNoDash(s: string)
    requires s == "Devilman Lady"
    ensures NoneIn(Is('-'), s)
  {
  }

  lemma BAEpisode(ds: string)
    requires ds == "01"
    ensures EpisodeOk(ds) && DigitsValue(ds) == 1
  {
    assert DigitsValue(ds[..1]) == 0;
  }

  /** "[Anime-Koi] GJ-bu - 06v2 [h264-720p][DAC4ACFA].mkv": a version straight after the number; group "Anime-Koi", series "GJ-bu", episode 6, extension ".mkv". */
  lemma AnimeKoiVersionRow(fileName: string)
    requires fileName == "[Anime-Koi] " + "GJ-bu - 06v2" + " [h264-720p][DAC4ACFA]" + ".mkv"
    ensures ParseFansubFile(fileName) == Returned(Some(FansubFile("Anime-Koi", "GJ-bu", 6, ".mkv")))
  {
    var n := AnimeKoiVersionName(fileName);
    AnimeKoiVersionTitle();
    DashNameParsed(fileName, n, "GJ-bu", "06", "", "2");
  }

  lemma AnimeKoiVersionName(fileName: string) returns (n: FansubName)
    requires fileName == "[Anime-Koi] " + "GJ-bu - 06v2" + " [h264-720p][DAC4ACFA]" + ".mkv"
    ensures FrameOk(n) && ReplaceChar(fileName, '_', ' ') == Spelled(n)
    ensures n.title == DashTitle("GJ-bu", "06", "", "2")
    ensures n.group == "Anime-Koi" && "." + n.ext == ".mkv"
  {
    n := FansubName(Square, "Anime-Koi", " ", "GJ-bu - 06v2", " ", [EndTag(Square, "h264-720p", ""), EndTag(Square, "DAC4ACFA", "")], "mkv");
    AnimeKoiVersionTitleIs(n.title);
    AnimeKoiVersionTitlePlain(n.title);
    AnimeKoiVersionFrame(n);
    AnimeKoiVersionSpelled(fileName, n);
    UnderscoreFree(fileName, n);
  }

  lemma AnimeKoiVersionSpelled(fileName: string, n: FansubName)
    requires fileName == "[Anime-Koi] " + "GJ-bu - 06v2" + " [h264-720p][DAC4ACFA]" + ".mkv"
    requires n == FansubName(Square, "Anime-Koi", " ", "GJ-bu - 06v2", " ", [EndTag(Square, "h264-720p", ""), EndTag(Square, "DAC4ACFA", "")], "mkv")
    ensures fileName == Spelled(n)
  {
    SpelledChunks(n);
    TwoTags(n.tags[0], n.tags[1]);
    AnimeKoiVersionHead(n);
    AnimeKoiVersionTag0(n.tags[0]);
    AnimeKoiVersionTag1(n.tags[1]);
    AnimeKoiVersionTail(n.trail, Enclose(n.tags[0].bracket, n.tags[0].text), n.tags[0].gap, Enclose(n.tags[1].bracket, n.tags[1].text), n.tags[1].gap);
  }

  lemma AnimeKoiVersionHead(n: FansubName)
    requires n == FansubName(Square, "Anime-Koi", " ", "GJ-bu - 06v2", " ", [EndTag(Square, "h264-720p", ""), EndTag(Square, "DAC4ACFA", "")], "mkv")
    ensures GroupTag(n) + n.lead == "[Anime-Koi] " && n.title == "GJ-bu - 06v2" && "." + n.ext == ".mkv"
  {
  }

  lemma AnimeKoiVersionTag0(t: EndTag)
    requires t == EndTag(Square, "h264-720p", "")
    ensures Enclose(t.bracket, t.text) == "[h264-720p]" && TagFits("[Anime-Koi]", t)
  {
    AnimeKoiVersionTag0Enclosed(t);
    AnimeKoiVersionTag0Plain(t.text);
    AnimeKoiVersionTag0Differs("[Anime-Koi]", "[h264-720p]");
  }

  lemma AnimeKoiVersionTag0Enclosed(t: EndTag)
    requires t == EndTag(Square, "h264-720p", "")
    ensures Enclose(t.bracket, t.text) == "[h264-720p]"
  {
  }

  lemma AnimeKoiVersionTag0Differs(g: string, e: string)
    requires g == "[Anime-Koi]" && e == "[h264-720p]"
    ensures g != e
  {
    assert g[1] != e[1];
  }

  lemma AnimeKoiVersionTag0Plain(s: string)
    requires s == "h264-720p"
    ensures Plain(s)
  {
  }

  lemma AnimeKoiVersionTag1(t: EndTag)
    requires t == EndTag(Square, "DAC4ACFA", "")
    ensures Enclose(t.bracket, t.text) == "[DAC4ACFA]" && TagFits("[Anime-Koi]", t)
  {
    AnimeKoiVersionTag1Enclosed(t);
    AnimeKoiVersionTag1Plain(t.text);
    AnimeKoiVersionTag1Differs("[Anime-Koi]", "[DAC4ACFA]");
  }

  lemma AnimeKoiVersionTag1Enclosed(t: EndTag)
    requires t == EndTag(Square, "DAC4ACFA", "")
    ensures Enclose(t.bracket, t.text) == "[DAC4ACFA]"
  {
  }

  lemma AnimeKoiVersionTag1Differs(g: string, e: string)
    requires g == "[Anime-Koi]" && e == "[DAC4ACFA]"
    ensures g != e
  {
    assert |g| == 11 && |e| == 10;
  }

  lemma AnimeKoiVersionTag1Plain(s: string)
    requires s == "DAC4ACFA"
    ensures Plain(s)
  {
  }

  lemma AnimeKoiVersionTail(trail: string, e0: string, g0: string, e1: string, g1: string)
    requires trail == " " && e0 == "[h264-720p]" && g0 == "" && e1 == "[DAC4ACFA]" && g1 == ""
    ensures trail + (e0 + g0 + e1 + g1) == " [h264-720p][DAC4ACFA]"
  {
  }

  lemma AnimeKoiVersionFrame(n: FansubName)
    requires n == FansubName(Square, "Anime-Koi", " ", "GJ-bu - 06v2", " ", [EndTag(Square, "h264-720p", ""), EndTag(Square, "DAC4ACFA", "")], "mkv")
    ensures FrameOk(n)
  {
    AnimeKoiVersionAround(n);
    AnimeKoiVersionTag0(n.tags[0]);
    AnimeKoiVersionTag1(n.tags[1]);
    FramedTwo(n);
  }

  lemma AnimeKoiVersionAround(n: FansubName)
    requires n == FansubName(Square, "Anime-Koi", " ", "GJ-bu - 06v2", " ", [EndTag(Square, "h264-720p", ""), EndTag(Square, "DAC4ACFA", "")], "mkv")
    ensures AroundOk(n) && GroupTag(n) == "[Anime-Koi]" && |n.tags| == 2
  {
  }

  lemma AnimeKoiVersionTitlePlain(t: string)
    requires t == "GJ-bu - 06v2"
    ensures Plain(t)
  {
  }

  lemma AnimeKoiVersionTitle()
    ensures "GJ-bu - 06v2" == DashTitle("GJ-bu", "06", "", "2")
    ensures SeriesOk("GJ-bu") && EpisodeOk("06") && VersionOk("GJ-bu", "", "2")
    ensures DigitsValue("06") == 6
  {
    AnimeKoiVersionTitleIs("GJ-bu - 06v2");
    AnimeKoiVersionSeries("GJ-bu");
    AnimeKoiVersionEpisode("06");
    AnimeKoiVersionVersion("GJ-bu");
  }

  lemma AnimeKoiVersionTitleIs(t: string)
    requires t == "GJ-bu - 06v2"
    ensures t == DashTitle("GJ-bu", "06", "", "2")
  {
    assert Version("", "2") == "v2";
    assert "GJ-bu" + " - " == "GJ-bu - ";
    assert "GJ-bu - " + "06" == "GJ-bu - 06";
    assert "GJ-bu - 06" + "v2" == "GJ-bu - 06v2";
  }

  lemma AnimeKoiVersionVersion(series: string)
    requires series == "GJ-bu"
    ensures VersionOk(series, "", "2")
  {
    assert Reverse("2") == "2";
  }

  lemma AnimeKoiVersionSeries(s: string)
    requires s == "GJ-bu"
    ensures SeriesOk(s)
  {
    var a, b := "GJ", "bu";
    AnimeKoiVersionSeriesSplit(s, a, b);
    AnimeKoiVersionSeriesEnds(a, b);
    AnimeKoiVersionSeriesPlainA(a);
    AnimeKoiVersionSeriesPlainB(b);
    AnimeKoiVersionSeriesNoDashA(a);
    AnimeKoiVersionSeriesNoDashB(b);
    SeriesDashed(a, "-", b);
  }

  lemma AnimeKoiVersionSeriesSplit(s: string, a: string, b: string)
    requires s == "GJ-bu" && a == "GJ" && b == "bu"
    ensures s == a + "-" + b
  {
  }

  lemma AnimeKoiVersionSeriesEnds(a: string, b: string)
    requires a == "GJ" && b == "bu"
    ensures a != [] && b != [] && !IsWhiteSpace(a[0]) && !IsWhiteSpace(b[|b| - 1])
  {
  }

  lemma AnimeKoiVersionSeriesPlainA(a: string)
    requires a == "GJ"
    ensures Plain(a)
  {
  }

  lemma AnimeKoiVersionSeriesPlainB(b: string)
    requires b == "bu"
    ensures Plain(b)
  {
  }

  lemma AnimeKoiVersionSeriesNoDashA(a: string)
    requires a == "GJ"
    ensures NoneIn(Is('-'), a)
  {
  }

  lemma AnimeKoiVersionSeriesNoDashB(b: string)
    requires b == "bu"
    ensures NoneIn(Is('-'), b)
  {
  }

  lemma AnimeKoiVersionEpisode(ds: string)
    requires ds == "06"
    ensures EpisodeOk(ds) && DigitsValue(ds) == 6
  {
    assert DigitsValue(ds[..1]) == 0;
  }

  /** "[Lunar] Bleach - 05 v2 [F2C9454F].avi": a version after a space; group "Lunar", series "Bleach", episode 5, extension ".avi". */
  lemma LunarRow(fileName: string)
    requires fileName == "[Lunar] " + "Bleach - 05 v2" + " [F2C9454F]" + ".avi"
    ensures ParseFansubFile(fileName) == Returned(Some(FansubFile("Lunar", "Bleach", 5, ".avi")))
  {
    var n := LunarName(fileName);
    LunarTitle();
    DashNameParsed(fileName, n, "Bleach", "05", " ", "2");
  }

  lemma LunarName(fileName: string) returns (n: FansubName)
    requires fileName == "[Lunar] " + "Bleach - 05 v2" + " [F2C9454F]" + ".avi"
    ensures FrameOk(n) && ReplaceChar(fileName, '_', ' ') == Spelled(n)
    ensures n.title == DashTitle("Bleach", "05", " ", "2")
    ensures n.group == "Lunar" && "." + n.ext == ".avi"
  {
    n := FansubName(Square, "Lunar", " ", "Bleach - 05 v2", " ", [EndTag(Square, "F2C9454F", "")], "avi");
    LunarTitleIs(n.title);
    LunarTitlePlain(n.title);
    LunarFrame(n);
    LunarSpelled(fileName, n);
    UnderscoreFree(fileName, n);
  }

  lemma LunarSpelled(fileName: string, n: FansubName)
    requires fileName == "[Lunar] " + "Bleach - 05 v2" + " [F2C9454F]" + ".avi"
    requires n == FansubName(Square, "Lunar", " ", "Bleach - 05 v2", " ", [EndTag(Square, "F2C9454F", "")], "avi")
    ensures fileName == Spelled(n)
  {
    SpelledChunks(n);
    OneTag(n.tags[0]);
    LunarHead(n);
    LunarTag0(n.tags[0]);
    LunarTail(n.trail, Enclose(n.tags[0].bracket, n.tags[0].text), n.tags[0].gap);
  }

  lemma LunarHead(n: FansubName)
    requires n == FansubName(Square, "Lunar", " ", "Bleach - 05 v2", " ", [EndTag(Square, "F2C9454F", "")], "avi")
    ensures GroupTag(n) + n.lead == "[Lunar] " && n.title == "Bleach - 05 v2" && "." + n.ext == ".avi"
  {
  }

  lemma LunarTag0(t: EndTag)
    requires t == EndTag(Square, "F2C9454F", "")
    ensures Enclose(t.bracket, t.text) == "[F2C9454F]" && TagFits("[Lunar]", t)
  {
    LunarTag0Enclosed(t);
    LunarTag0Plain(t.text);
    LunarTag0Differs("[Lunar]", "[F2C9454F]");
  }

  lemma LunarTag0Enclosed(t: EndTag)
    requires t == EndTag(Square, "F2C9454F", "")
    ensures Enclose(t.bracket, t.text) == "[F2C9454F]"
  {
  }

  lemma LunarTag0Differs(g: string, e: string)
    requires g == "[Lunar]" && e == "[F2C9454F]"
    ensures g != e
  {
    assert |g| == 7 && |e| == 10;
  }

  lemma LunarTag0Plain(s: string)
    requires s == "F2C9454F"
    ensures Plain(s)
  {
  }

  lemma LunarTail(trail: string, e0: string, g0: string)
    requires trail == " " && e0 == "[F2C9454F]" && g0 == ""
    ensures trail + (e0 + g0) == " [F2C9454F]"
  {
  }

  lemma LunarFrame(n: FansubName)
    requires n == FansubName(Square, "Lunar", " ", "Bleach - 05 v2", " ", [EndTag(Square, "F2C9454F", "")], "avi")
    ensures FrameOk(n)
  {
    LunarAround(n);
    LunarTag0(n.tags[0]);
    FramedOne(n);
  }

  lemma LunarAround(n: FansubName)
    requires n == FansubName(Square, "Lunar", " ", "Bleach - 05 v2", " ", [EndTag(Square, "F2C9454F", "")], "avi")
    ensures AroundOk(n) && GroupTag(n) == "[Lunar]" && |n.tags| == 1
  {
  }

  lemma LunarTitlePlain(t: string)
    requires t == "Bleach - 05 v2"
    ensures Plain(t)
  {
  }

  lemma LunarTitle()
    ensures "Bleach - 05 v2" == DashTitle("Bleach", "05", " ", "2")
    ensures SeriesOk("Bleach") && EpisodeOk("05") && VersionOk("Bleach", " ", "2")
    ensures DigitsValue("05") == 5
  {
    LunarTitleIs("Bleach - 05 v2");
    LunarSeries("Bleach");
    LunarEpisode("05");
    LunarVersion("Bleach");
  }

  lemma LunarTitleIs(t: string)
    requires t == "Bleach - 05 v2"
    ensures t == DashTitle("Bleach", "05", " ", "2")
  {
    assert Version(" ", "2") == " v2";
    assert "Bleach" + " - " == "Bleach - ";
    assert "Bleach - " + "05" == "Bleach - 05";
    assert "Bleach - 05" + " v2" == "Bleach - 05 v2";
  }

  lemma LunarVersion(series: string)
    requires series == "Bleach"
    ensures VersionOk(series, " ", "2")
  {
    assert Reverse("2") == "2";
  }

  lemma LunarSeries(s: string)
    requires s == "Bleach"
    ensures SeriesOk(s)
  {
    LunarSeriesPlain(s);
    LunarSeriesNoDash(s);
    SeriesWhole(s);
  }

  lemma LunarSeriesPlain(s: string)
    requires s == "Bleach"
    ensures Plain(s)
  {
  }

  lemma LunarSeriesNoDash(s: string)
    requires s == "Bleach"
    ensures NoneIn(Is('-'), s)
  {
  }

  lemma LunarEpisode(ds: string)
    requires ds == "05"
    ensures EpisodeOk(ds) && DigitsValue(ds) == 5
  {
    assert DigitsValue(ds[..1]) == 0;
  }
}
