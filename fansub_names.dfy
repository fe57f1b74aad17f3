/** A fansub file name in its general shape: a group tag in square brackets or parentheses,
    the title the series and the episode are read from, a run of end tags in square brackets
    or parentheses, and an extension, as in "[Group] Series - 01 [720p][1A2B3C4D].mkv" or
    "(Group)Series - 01 (x264).mkv". The lemmas follow ParseFansubFile through such a name:
    the normalized parser does not read it, the group and the extension are read off it, and
    what the heuristics see once the extension and the tags are removed is the title. */
module FansubNames {
  import opened Text
  import opened Outcomes
  import opened Paths
  import opened Combinators
  import opened BaseGrammars
  import opened FansubFiles
  import opened FansubFileParsers
  import opened FansubProperties
  import opened FansubHeuristics
  import opened EndTags

  /** The parts of a name, once its underscores are spaces: the group tag, white space, the
      title, white space, the end tags each with the white space after it, and the extension
      after the last dot. */
  datatype FansubName = FansubName(groupBracket: Bracket, group: string, lead: string, title: string,
                                   trail: string, tags: seq<EndTag>, ext: string)

  function GroupTag(n: FansubName): string {
    Enclose(n.groupBracket, n.group)
  }

  /** The text between the group tag and the end tags. */
  function Body(n: FansubName): string {
    n.lead + n.title + n.trail
  }

  /** The name without its extension. */
  function Stem(n: FansubName): string {
    GroupTag(n) + Body(n) + TagsText(n.tags)
  }

  /** The name written out. */
  function Spelled(n: FansubName): string {
    Stem(n) + "." + n.ext
  }

  /** A title: plain text with no white space at either end. */
  predicate TitleOk(title: string) {
    title != [] && Plain(title) && !IsWhiteSpace(title[0]) && !IsWhiteSpace(title[|title| - 1])
  }

  /** Text in parentheses the normalized parser does not read as an episode "(N)". */
  predicate NotANumber(text: string) {
    text == [] || !AllIn(Digit, text)
  }

  /** The parts of a name around its title: plain text in the tags, white space around the
      title, a group tag that is none of the end tags, a non-empty extension, and no end tag
      "(N)" of digits alone. */
  predicate FrameOk(n: FansubName) {
    && Plain(n.group) && AllIn(WhiteSpace, n.lead) && AllIn(WhiteSpace, n.trail)
    && EndTagsOk(n.tags)
    && GroupTag(n) !in TagStrings(n.tags)
    && n.ext != [] && Plain(n.ext)
    && forall i :: 0 <= i < |n.tags| && n.tags[i].bracket == Round ==> NotANumber(n.tags[i].text)
  }

  /** The parts of a name, its title included. */
  predicate NameOk(n: FansubName) {
    FrameOk(n) && TitleOk(n.title)
  }

  // ---------------------------------------------------------------- the extension and the group

  /** The text between the group tag and the end tags holds no '[', '(' or path separator,
      and starts, after its white space, with the title. */
  lemma BodyFacts(n: FansubName)
    requires NameOk(n)
    ensures NoneIn(Either('[', '('), Body(n)) && NoneIn(PathSeparator, Body(n))
    ensures TrimStart(Body(n)) == n.title + n.trail
  {
    PlainFacts(n.title);
    assert NoneIn(Either('[', '('), n.lead) && NoneIn(PathSeparator, n.lead);
    assert NoneIn(Either('[', '('), n.trail) && NoneIn(PathSeparator, n.trail);
    NoneInAppend(Either('[', '('), n.lead, n.title);
    NoneInAppend(Either('[', '('), n.lead + n.title, n.trail);
    NoneInAppend(PathSeparator, n.lead, n.title);
    NoneInAppend(PathSeparator, n.lead + n.title, n.trail);
    assert Body(n) == n.lead + (n.title + n.trail);
    TrimStartIs(Body(n), n.lead, n.title + n.trail);
  }

  /** The stem holds no path separator and the extension no dot, so the name splits at the
      dot before the extension. */
  lemma NameSplit(n: FansubName)
    requires NameOk(n)
    ensures GetFileNameWithoutExtension(Spelled(n)) == Stem(n)
    ensures GetExtension(Spelled(n)) == "." + n.ext
  {
    PlainFacts(n.group);
    PlainFacts(n.ext);
    EncloseNoneIn(PathSeparator, n.groupBracket, n.group);
    BodyFacts(n);
    TagsTextNoSeparator(n.tags);
    NoneInAppend(PathSeparator, GroupTag(n), Body(n));
    NoneInAppend(PathSeparator, GroupTag(n) + Body(n), TagsText(n.tags));
    SplitAtExtension(Spelled(n), Stem(n), n.ext);
  }

  /** The group is the text of the group tag, whichever brackets it has. */
  lemma GroupRead(n: FansubName)
    requires NameOk(n)
    ensures GetFansubGroup(Spelled(n)) == n.group
  {
    var after := Body(n) + TagsText(n.tags) + "." + n.ext;
    assert Spelled(n) == GroupTag(n) + after by {
      AfterGroup(GroupTag(n), Body(n), TagsText(n.tags), ".", n.ext);
    }
    GroupOf(n.groupBracket, n.group, after);
  }

  /** The group is the text of a leading tag, whichever brackets it has. */
  lemma GroupOf(b: Bracket, group: string, after: string)
    requires Plain(group)
    ensures GetFansubGroup(Enclose(b, group) + after) == group
  {
    PlainFacts(group);
    var s := Enclose(b, group) + after;
    if b == Square {
      assert s == [] + "[" + group + "]" + after;
      GroupInSquareBrackets(s, [], group, after);
    } else {
      assert s == [] + "(" + group + ")" + after;
      GroupInParentheses(s, [], group, after);
    }
  }

  /** The name after its group tag. */
  lemma AfterGroup(g: string, body: string, tags: string, dot: string, ext: string)
    ensures g + body + tags + dot + ext == g + (body + tags + dot + ext)
  {
  }

  /** RemoveFansubTag deletes the group tag from the stem, and nothing else. */
  lemma GroupTagOff(n: FansubName)
    requires NameOk(n)
    ensures RemoveFansubTag(Stem(n)) == Body(n) + TagsText(n.tags)
  {
    BodyFacts(n);
    GroupTagDeleted(n.groupBracket, n.group, Body(n), n.tags);
  }

  /** Once the extension, the group tag and the end tags are removed and the rest is
      trimmed, the title is left. */
  lemma TitleLeft(n: FansubName)
    requires NameOk(n)
    ensures RemoveAllTagsAndExtension(Spelled(n)) == n.title
  {
    var body, gaps := Body(n), Gaps(n.tags);
    assert GetFileNameWithoutExtension(Spelled(n)) == Stem(n) by { NameSplit(n); }
    assert RemoveFansubTag(Stem(n)) == body + TagsText(n.tags) by { GroupTagOff(n); }
    assert EndTagsRemoved(body + TagsText(n.tags)) == body + gaps by {
      BodyFacts(n);
      EndTagsDeleted(body, n.tags);
    }
    BodyLeft(n);
  }

  /** The text between the group tag and the extension, once the end tags are deleted,
      trims to the title. */
  lemma BodyLeft(n: FansubName)
    requires NameOk(n)
    ensures Trim(Body(n) + Gaps(n.tags)) == n.title
  {
    var gaps := Gaps(n.tags);
    AllInAppend(WhiteSpace, n.trail, gaps);
    assert Body(n) + gaps == n.lead + n.title + (n.trail + gaps);
    TrimIs(Body(n) + gaps, n.lead, n.title, n.trail + gaps);
  }

  // ---------------------------------------------------------------- the normalized parser

  /** With no '(' in it, the series reads the whole of the text. */
  lemma SeriesToEnd(t: string)
    requires t != [] && NoneIn(Is('('), t)
    ensures Apply(AtLeastOnce(But(Any, Is('('))), t) == Matched(t, [])
  {
    assert AllIn(But(Any, Is('(')), t);
    assert t == t + [];
    ApplyRun(But(Any, Is('(')), t, t, []);
  }

  /** A normalized parse needs a '('; without one the normalized parser does not match. */
  lemma NotNormalized(s: string)
    requires NoneIn(Is('('), s)
    ensures NormalizedFileNameParser(s) == Returned(NoMatch)
  {
    var t := TrimStart(s);
    NoneInSuffix(Is('('), t, s);
    if t != [] {
      SeriesToEnd(t);
      assert EpisodeAndExtension(TrimStart([])) == NoMatch;
    }
  }

  /** A name that starts with '(' has no series in front of it. */
  lemma StartsWithParenthesis(s: string)
    requires s != [] && s[0] == '('
    ensures NormalizedFileNameParser(s) == Returned(NoMatch)
  {
    TrimStartNoWhite(s);
    NoSeriesAt(s);
  }

  /** The series run reads nothing from text that starts with '('. */
  lemma NoSeriesAt(t: string)
    requires t != [] && t[0] == '('
    ensures Apply(AtLeastOnce(But(Any, Is('('))), t) == NoMatch
  {
    assert !In(But(Any, Is('(')), t[0]);
  }

  /** A name that starts with neither white space nor '(', whose first '(' is at k and is
      followed by m digits and then by a character that is no digit, and no ')' when m is
      not 0: the series runs up to that '(', and no "(N)" follows it. */
  lemma NormalizedRejects(s: string, k: nat, m: nat)
    requires s != [] && s[0] != '(' && !IsWhiteSpace(s[0])
    requires NoNumberAt(s, k, m) && NoneIn(Is('('), s[..k])
    ensures NormalizedFileNameParser(s) == Returned(NoMatch)
  {
    SeriesUpToParenthesis(s, k);
    NoEpisodeAt(s, k, m);
    SeriesThenNoEpisode(s, s[..k], s[k..]);
  }

  /** '(' at position k, followed by m digits and then by a character that is no digit, and
      no ')' when m is not 0: what follows k is no "(N)". */
  predicate NoNumberAt(s: string, k: nat, m: nat) {
    k + 1 + m < |s| && s[k] == '(' &&
    AllIn(Digit, s[k + 1..k + 1 + m]) && !IsDigit(s[k + 1 + m]) && (m == 0 || s[k + 1 + m] != ')')
  }

  /** The same, at position k of a longer text. */
  lemma NoEpisodeAt(s: string, k: nat, m: nat)
    requires NoNumberAt(s, k, m)
    ensures EpisodeAndExtension(TrimStart(s[k..])) == NoMatch
  {
    var u := s[k..];
    assert u[0] == '(' && u[1 + m] == s[k + 1 + m];
    assert u[1..1 + m] == s[k + 1..k + 1 + m];
    NoEpisode(u, m);
    TrimStartNoWhite(u);
  }

  /** The series of a normalized name runs up to its first '('. */
  lemma SeriesUpToParenthesis(s: string, k: nat)
    requires 0 < k < |s| && !IsWhiteSpace(s[0]) && NoneIn(Is('('), s[..k]) && s[k] == '('
    ensures Apply(AtLeastOnce(But(Any, Is('('))), TrimStart(s)) == Matched(s[..k], s[k..])
  {
    var series, after := s[..k], s[k..];
    assert AllIn(But(Any, Is('(')), series) by {
      AnyButAll(Is('('), series);
    }
    assert s == series + after && after[0] == '(';
    ApplyRun(But(Any, Is('(')), s, series, after);
    TrimStartNoWhite(s);
  }

  /** A series followed by no "(N)" is no normalized name. */
  lemma SeriesThenNoEpisode(s: string, series: string, after: string)
    requires Apply(AtLeastOnce(But(Any, Is('('))), TrimStart(s)) == Matched(series, after)
    requires EpisodeAndExtension(TrimStart(after)) == NoMatch
    ensures NormalizedFileNameParser(s) == Returned(NoMatch)
  {
  }

  /** '(' followed by m digits and then by a character that is no digit, and no ')' when m
      is not 0, is no "(N)". */
  lemma NoEpisode(u: string, m: nat)
    requires 1 + m < |u| && u[0] == '('
    requires AllIn(Digit, u[1..1 + m]) && !IsDigit(u[1 + m]) && (m == 0 || u[1 + m] != ')')
    ensures EpisodeAndExtension(u) == NoMatch
  {
    var v := u[1..];
    assert Apply(OpenParenthesis, u) == Matched("(", v) by {
      assert u[..1] == "(";
    }
    if m == 0 {
      assert Apply(Number, v) == NoMatch;
    } else {
      assert Apply(Number, v) == Matched(v[..m], v[m..]) by {
        assert v == v[..m] + v[m..] && v[..m] == u[1..1 + m];
        ApplyRun(Digit, v, v[..m], v[m..]);
      }
      assert Apply(ClosedParenthesis, v[m..]) == NoMatch;
    }
  }

  /** Making underscores spaces leaves every other character where it was. */
  lemma UnderscoresKept(fileName: string, name: string)
    requires ReplaceChar(fileName, '_', ' ') == name
    ensures |fileName| == |name|
    ensures forall i :: 0 <= i < |name| ==> fileName[i] == name[i] || (fileName[i] == '_' && name[i] == ' ')
  {
  }

  /** Making underscores spaces adds no '('. */
  lemma UnderscoredNoParenthesis(fileName: string, name: string)
    requires ReplaceChar(fileName, '_', ' ') == name && NoneIn(Is('('), name)
    ensures NoneIn(Is('('), fileName)
  {
    UnderscoresKept(fileName, name);
  }

  /** The conditions of NormalizedRejects hold of the name as written when they hold of it
      with its underscores made spaces: neither side of the change is a parenthesis, a
      digit or white space that matters here. */
  lemma NormalizedRejectsUnderscored(fileName: string, name: string, k: nat, m: nat)
    requires ReplaceChar(fileName, '_', ' ') == name
    requires name != [] && name[0] != '(' && !IsWhiteSpace(name[0])
    requires NoNumberAt(name, k, m) && NoneIn(Is('('), name[..k])
    ensures NormalizedFileNameParser(fileName) == Returned(NoMatch)
  {
    UnderscoresKept(fileName, name);
    assert name[0] != ' ';
    assert forall i :: k + 1 <= i < k + 1 + m ==> name[i] == name[k + 1..k + 1 + m][i - k - 1];
    assert forall i :: 0 <= i < k ==> name[i] == name[..k][i];
    NormalizedRejects(fileName, k, m);
  }

  /** A tag in parentheses that does not hold digits alone, after text without '(': the
      first '(' is the tag's, and what follows it is no "N)". */
  lemma RoundTagAt(s: string, p: string, text: string, after: string) returns (m: nat)
    requires s == p + Enclose(Round, text) + after && NoneIn(Is('('), p)
    requires Plain(text) && NotANumber(text)
    ensures NoNumberAt(s, |p|, m) && NoneIn(Is('('), s[..|p|])
  {
    var k := |p|;
    m := Span(Digit, text);
    assert s[..k] == p;
    assert forall i :: 0 <= i <= |text| ==> s[k + 1 + i] == (text + ")")[i];
    assert s[k + 1..k + 1 + m] == text[..m];
    if m == |text| {
      assert AllIn(Digit, text);
    }
  }

  /** The first '(' of a name with a group in square brackets is that of its first end tag
      in parentheses. */
  lemma FirstParenthesis(n: FansubName) returns (k: nat, m: nat)
    requires NameOk(n) && n.groupBracket == Square && FirstRound(n.tags) < |n.tags|
    ensures NoNumberAt(Spelled(n), k, m) && NoneIn(Is('('), Spelled(n)[..k])
  {
    var r := FirstRound(n.tags);
    var t := n.tags[r];
    var p := GroupTag(n) + Body(n) + TagsText(n.tags[..r]);
    var after := t.gap + TagsText(n.tags[r + 1..]) + "." + n.ext;
    assert Spelled(n) == p + Enclose(Round, t.text) + after by {
      RoundSplit(n, r);
    }
    assert NoneIn(Is('('), p) by {
      BeforeRound(n, r);
    }
    RoundTagOk(n, r);
    k := |p|;
    m := RoundTagAt(Spelled(n), p, t.text, after);
  }

  /** An end tag in parentheses holds plain text that is not a number. */
  lemma RoundTagOk(n: FansubName, r: nat)
    requires FrameOk(n) && r < |n.tags| && n.tags[r].bracket == Round
    ensures Plain(n.tags[r].text) && NotANumber(n.tags[r].text)
  {
    assert EndTagOk(n.tags[r]);
  }

  /** A name split at its end tag r. */
  lemma RoundSplit(n: FansubName, r: nat)
    requires r < |n.tags|
    ensures Spelled(n) == GroupTag(n) + Body(n) + TagsText(n.tags[..r]) + Enclose(n.tags[r].bracket, n.tags[r].text) +
                          (n.tags[r].gap + TagsText(n.tags[r + 1..]) + "." + n.ext)
  {
    assert Spelled(n) == GroupTag(n) + Body(n) + TagsText(n.tags) + ("." + n.ext);
    TagsSplit(GroupTag(n) + Body(n), n.tags, r, "." + n.ext);
  }

  /** Text around a run of end tags, split at its tag r. */
  lemma TagsSplit(x: string, tags: seq<EndTag>, r: nat, z: string)
    requires r < |tags|
    ensures x + TagsText(tags) + z ==
            x + TagsText(tags[..r]) + Enclose(tags[r].bracket, tags[r].text) + (tags[r].gap + TagsText(tags[r + 1..]) + z)
  {
    var t := tags[r];
    var a, e, c := TagsText(tags[..r]), Enclose(t.bracket, t.text), TagsText(tags[r + 1..]);
    TagsAt(tags, r);
    RegroupAround(x, a, e, t.gap, c, z);
  }

  /** A run of end tags split at its tag r. */
  lemma TagsAt(tags: seq<EndTag>, r: nat)
    requires r < |tags|
    ensures TagsText(tags) == TagsText(tags[..r]) + (Enclose(tags[r].bracket, tags[r].text) + tags[r].gap + TagsText(tags[r + 1..]))
  {
    var rest := tags[r..];
    assert TagsText(tags) == TagsText(tags[..r]) + TagsText(rest) by {
      assert tags == tags[..r] + rest;
      TagsTextAppend(tags[..r], rest);
    }
    assert rest[0] == tags[r] && rest[1..] == tags[r + 1..];
    TagsTextCons(rest);
  }

  /** Concatenation regrouped around the piece in the middle. */
  lemma RegroupAround(x: string, a: string, e: string, g: string, c: string, z: string)
    ensures x + (a + (e + g + c)) + z == x + a + e + (g + c + z)
  {
  }

  /** Before the first end tag in parentheses of a name with a group in square brackets,
      there is no '('. */
  lemma BeforeRound(n: FansubName, r: nat)
    requires NameOk(n) && n.groupBracket == Square && r == FirstRound(n.tags)
    ensures NoneIn(Is('('), GroupTag(n) + Body(n) + TagsText(n.tags[..r]))
  {
    PlainFacts(n.group);
    EncloseNoneIn(Is('('), Square, n.group);
    BodyFacts(n);
    assert EndTagsOk(n.tags[..r]);
    SquareTagsNoParenthesis(n.tags[..r]);
    NoneInAppend(Is('('), GroupTag(n), Body(n));
    NoneInAppend(Is('('), GroupTag(n) + Body(n), TagsText(n.tags[..r]));
  }

  /** A name with a group in square brackets and no end tag in parentheses holds no '('. */
  lemma NoParenthesis(n: FansubName)
    requires NameOk(n) && n.groupBracket == Square && FirstRound(n.tags) == |n.tags|
    ensures NoneIn(Is('('), Spelled(n))
  {
    PlainFacts(n.group);
    PlainFacts(n.ext);
    EncloseNoneIn(Is('('), Square, n.group);
    BodyFacts(n);
    SquareTagsNoParenthesis(n.tags);
    NoneInAppend(Is('('), GroupTag(n), Body(n));
    NoneInAppend(Is('('), GroupTag(n) + Body(n), TagsText(n.tags));
    NoneInAppend(Is('('), Stem(n), ".");
    NoneInAppend(Is('('), Stem(n) + ".", n.ext);
  }

  /** The normalized parser reads no such name, with or without its underscores: a group in
      parentheses leaves it no series, and after a group in square brackets the first '(' is
      an end tag's, which holds no episode number. */
  lemma NameNotNormalized(fileName: string, n: FansubName)
    requires NameOk(n) && ReplaceChar(fileName, '_', ' ') == Spelled(n)
    ensures !IsNullOrWhiteSpace(fileName)
    ensures NormalizedFileNameParser(fileName) == Returned(NoMatch)
  {
    var name := Spelled(n);
    assert fileName != [] && fileName[0] == Open(n.groupBracket) by {
      UnderscoresKept(fileName, name);
      assert name[0] == GroupTag(n)[0];
    }
    if n.groupBracket == Round {
      StartsWithParenthesis(fileName);
    } else if FirstRound(n.tags) == |n.tags| {
      NoParenthesis(n);
      UnderscoredNoParenthesis(fileName, name);
      NotNormalized(fileName);
    } else {
      var k, m := FirstParenthesis(n);
      NormalizedRejectsUnderscored(fileName, name, k, m);
    }
  }

  // ---------------------------------------------------------------- the whole name

  /** ParseFansubFile on a name that, with its underscores made spaces, has the general
      shape: the group tag's text is the group, the last dot and what follows it the
      extension, and the series and the episode are what the heuristics read from the title
      alone; InvalidOperationException is thrown exactly when removing the version number
      leaves nothing of the title. */
  lemma NameRead(fileName: string, n: FansubName)
    requires NameOk(n) && ReplaceChar(fileName, '_', ' ') == Spelled(n)
    ensures RemoveAllTagsAndExtension(Spelled(n)) == n.title
    ensures ParseFansubFile(fileName).Threw? <==> RemoveVersionNumber(n.title) == []
    ensures RemoveVersionNumber(n.title) != [] ==>
      ParseFansubFile(fileName) == Returned(Some(FansubFile(n.group, GetAnimeSeriesName(Spelled(n)).value,
        GetEpisodeNumber(Spelled(n)).value, "." + n.ext)))
  {
    NameNotNormalized(fileName, n);
    ParseViaHeuristics(fileName);
    TitleLeft(n);
    GroupRead(n);
    NameSplit(n);
  }
}
