/** The titles the heuristics of ParseFansubFile read a series and an episode from, once the
    extension and the tags are gone: "series - 05", with a version "v2" or " v2" after the
    number or not, read at the last dash; "series 05" read at the last space; and a title
    with no number at either place, which is kept whole with the episode int.MinValue. */
module FansubTitles {
  import opened Text
  import opened Outcomes
  import opened Numbers
  import opened Paths
  import opened Combinators
  import opened BaseGrammars
  import opened FansubFileParsers
  import opened FansubHeuristics
  import opened EndTags

  /** A series read at a dash: plain text with single dashes and no white space at either
      end. */
  predicate SeriesOk(series: string) {
    Plain(series) && SingleSeparated('-', series) && !IsWhiteSpace(series[0]) && !IsWhiteSpace(series[|series| - 1])
  }

  /** The digits of a 32-bit episode number. */
  predicate EpisodeOk(ds: string) {
    ds != [] && AllIn(Digit, ds) && DigitsValue(ds) <= Int32Max
  }

  /** A version after the episode number: 'v' and digits, straight after the number or after
      a space; nothing when there are no digits. */
  function Version(vsep: string, vds: string): string {
    if vds == [] then [] else vsep + "v" + vds
  }

  /** A version RemoveVersionNumber removes: its digits read the same both ways (they are read
      backwards), and it is the only 'v' of the title. */
  predicate VersionOk(series: string, vsep: string, vds: string) {
    (vsep == [] || vsep == " ") && AllIn(Digit, vds) &&
    (vds != [] ==> Reverse(vds) == vds && NoneIn(Is('v'), series))
  }

  /** "series - ds", then the version. */
  function DashTitle(series: string, ds: string, vsep: string, vds: string): string {
    series + " - " + ds + Version(vsep, vds)
  }

  /** What removing the version leaves after the episode digits: the space before it. */
  function VersionGap(vsep: string, vds: string): string {
    if vds == [] then [] else vsep
  }

  // ---------------------------------------------------------------- titles read at a dash

  /** RemoveVersionNumber deletes the version of a dash title, and nothing else; a title
      without one ends in digits after a space, which are not a reversed version. */
  lemma DashTitleUnversioned(series: string, ds: string, vsep: string, vds: string)
    requires SeriesOk(series) && EpisodeOk(ds) && VersionOk(series, vsep, vds)
    ensures RemoveVersionNumber(DashTitle(series, ds, vsep, vds)) == series + " - " + ds + VersionGap(vsep, vds)
  {
    if vds == [] {
      assert DashTitle(series, ds, vsep, vds) == series + " - " + ds;
      DashNoVersion(series, ds);
    } else {
      assert DashTitle(series, ds, vsep, vds) == series + " - " + ds + vsep + "v" + vds;
      DashVersion(series, ds, vsep, vds);
    }
  }

  /** "series - ds" carries no version: backwards, its digits are followed by a space. */
  lemma DashNoVersion(series: string, ds: string)
    requires SeriesOk(series) && EpisodeOk(ds)
    ensures RemoveVersionNumber(series + " - " + ds) == series + " - " + ds
  {
    PlainFacts(series);
    assert series + " - " + ds == series + " -" + " " + ds;
    DigitsAfterSpace(series + " -", ds);
  }

  /** The version of "series - ds" and a version whose digits read the same both ways is
      deleted, and the space before it is kept. */
  lemma DashVersion(series: string, ds: string, vsep: string, vds: string)
    requires SeriesOk(series) && EpisodeOk(ds) && (vsep == [] || vsep == " ")
    requires AllIn(Digit, vds) && vds != [] && Reverse(vds) == vds && NoneIn(Is('v'), series)
    ensures RemoveVersionNumber(series + " - " + ds + vsep + "v" + vds) == series + " - " + ds + vsep
  {
    PlainFacts(series);
    DigitsArePlain(ds);
    PlainFacts(ds);
    StemNoneIn(Is('v'), series, ds, vsep);
    StemNoneIn(Is('.'), series, ds, vsep);
    StemNoneIn(PathSeparator, series, ds, vsep);
    VersionRemoved(series + " - " + ds + vsep, vds);
  }

  /** "series - ds" and a space or not hold a class neither the series nor the digits hold,
      when it holds neither a space nor a dash. */
  lemma StemNoneIn(k: CharClass, series: string, ds: string, vsep: string)
    requires NoneIn(k, series) && NoneIn(k, ds) && !In(k, ' ') && !In(k, '-')
    requires vsep == [] || vsep == " "
    ensures NoneIn(k, series + " - " + ds + vsep)
  {
    NoneInAppend(k, series, " - ");
    NoneInAppend(k, series + " - ", ds);
    NoneInAppend(k, series + " - " + ds, vsep);
  }

  /** Text ending in a space and digits carries no version number: read backwards, the
      digits are followed by the space, not by 'v'. */
  lemma DigitsAfterSpace(front: string, ds: string)
    requires NoneIn(Is('.'), front) && NoneIn(PathSeparator, front)
    requires ds != [] && AllIn(Digit, ds)
    ensures RemoveVersionNumber(front + " " + ds) == front + " " + ds
  {
    SpacedNoExtension(front, ds);
    DigitsBackwards(front, ds);
  }

  /** Read backwards, text, a space and digits start with the digits and the space. */
  lemma DigitsBackwards(front: string, ds: string)
    requires ds != [] && AllIn(Digit, ds)
    ensures VersionNumberFromReversedString(Reverse(front + " " + ds)) == NoMatch
  {
    ReversedAtSpace(front, ds);
    var rds := Reverse(ds);
    assert AllIn(Digit, rds) by {
      forall i | 0 <= i < |rds| ensures IsDigit(rds[i]) {
        assert rds[i] == ds[|ds| - 1 - i];
      }
    }
    DigitsThenSpace(rds, Reverse(front));
  }

  /** Digits followed by a space are not a reversed version number. */
  lemma DigitsThenSpace(rds: string, rest: string)
    requires rds != [] && AllIn(Digit, rds)
    ensures VersionNumberFromReversedString(rds + (" " + rest)) == NoMatch
  {
    ApplyRun(Digit, rds + (" " + rest), rds, " " + rest);
  }

  /** Text, a space and digits hold no dot and no path separator: the whole is the name. */
  lemma SpacedNoExtension(front: string, ds: string)
    requires NoneIn(Is('.'), front) && NoneIn(PathSeparator, front) && AllIn(Digit, ds)
    ensures GetFileNameWithoutExtension(front + " " + ds) == front + " " + ds
  {
    DigitsArePlain(ds);
    PlainFacts(ds);
    NoneInAppend(Is('.'), front, " ");
    NoneInAppend(Is('.'), front + " ", ds);
    NoneInAppend(PathSeparator, front, " ");
    NoneInAppend(PathSeparator, front + " ", ds);
    NoExtension(front + " " + ds);
  }

  /** Text, a space and more text, backwards. */
  lemma ReversedAtSpace(front: string, back: string)
    ensures Reverse(front + " " + back) == Reverse(back) + (" " + Reverse(front))
  {
    ReverseAppend(front + " ", back);
    ReverseAppend(front, " ");
    assert Reverse(" ") == " ";
  }

  /** "series -" and a dash-free rest has single dashes when the series has. */
  lemma DashJoined(series: string, back: string)
    requires SingleSeparated('-', series) && back != [] && NoneIn(Is('-'), back)
    ensures SingleSeparated('-', series + " -" + back)
  {
    var w := series + " -" + back;
    var n := |series|;
    assert forall i :: n + 2 <= i < |w| ==> w[i] == back[i - n - 2];
    forall i | 0 <= i < |w| - 1 && w[i] == '-' ensures w[i + 1] != '-' {
      if i < n - 1 {
        assert w[i] == series[i] && w[i + 1] == series[i + 1];
      } else if i == n - 1 {
        assert w[i] == series[i];
      }
    }
  }

  /** The series before " - " loses only that space when trimmed. */
  lemma SpaceDropped(series: string)
    requires series != [] && !IsWhiteSpace(series[0]) && !IsWhiteSpace(series[|series| - 1])
    ensures Trim(series + " ") == series
  {
    assert series + " " == [] + series + " ";
    TrimIs(series + " ", [], series, " ");
  }

  /** A space, the digits and an optional space are read as the digits' value. */
  lemma EpisodeAfterSpace(ds: string, trail: string)
    requires EpisodeOk(ds) && (trail == [] || trail == " ")
    ensures TryParseInt32(" " + ds + trail) == Some(DigitsValue(ds))
  {
    var s := " " + ds + trail;
    assert s == " " + [] + ds + trail;
    ScanIntegerIs(s, " ", [], ds, trail);
  }

  /** "series - ds", and a space or not: the dash lexer reads the episode number after the
      last dash, and the series before it, trimmed. */
  lemma DashRead(series: string, ds: string, trail: string)
    requires SeriesOk(series) && EpisodeOk(ds) && (trail == [] || trail == " ")
    ensures TryGetEpisodeNumberUsingDashDelimination(series + " - " + ds + trail) == Returned(Some(DigitsValue(ds)))
    ensures SeriesNameByDashes(series + " - " + ds + trail) == Returned(Some(series))
  {
    var w := series + " - " + ds + trail;
    var front, back := series + " ", " " + ds + trail;
    assert w == front + "-" + back && w == series + " -" + back;
    assert NoneIn(Is('-'), back) by {
      assert forall i :: 1 <= i < 1 + |ds| ==> back[i] == ds[i - 1];
    }
    DashJoined(series, back);
    EpisodeAfterSpace(ds, trail);
    DashSplit(w, front, back);
    SpaceDropped(series);
  }

  /** A title "series - ds", with a version that reads the same both ways or none: the series
      is the text before the last dash, the episode the number after it. */
  lemma DashTitleRead(name: string, series: string, ds: string, vsep: string, vds: string)
    requires RemoveAllTagsAndExtension(name) == DashTitle(series, ds, vsep, vds)
    requires SeriesOk(series) && EpisodeOk(ds) && VersionOk(series, vsep, vds)
    ensures Stripped(name) == series + " - " + ds + VersionGap(vsep, vds)
    ensures GetAnimeSeriesName(name) == Returned(series)
    ensures GetEpisodeNumber(name) == Returned(DigitsValue(ds))
  {
    DashTitleUnversioned(series, ds, vsep, vds);
    DashRead(series, ds, VersionGap(vsep, vds));
  }

  // ---------------------------------------------------------------- titles read at a space

  /** The pieces other than `x`, in order. */
  function Without(parts: seq<string>, x: string): (r: seq<string>)
    ensures |r| <= |parts|
    ensures forall i :: 0 <= i < |r| ==> r[i] != x && r[i] in parts
    ensures x !in parts ==> r == parts
  {
    if parts == [] then []
    else
      var init, last := parts[..|parts| - 1], parts[|parts| - 1];
      assert parts == init + [last];
      Without(init, x) + (if last == x then [] else [last])
  }

  /** The StringBuilder of TryGetSeriesNameUsingSpaceDelimination skips every piece equal to
      the number: it holds the other pieces, each followed by a space. */
  lemma {:induction false} SpaceTerminatedWithout(parts: seq<string>, x: string)
    ensures SpaceTerminated(parts, Some(x)) == SpaceTerminated(Without(parts, x), None)
    decreases |parts|
  {
    if parts != [] {
      var init, last := parts[..|parts| - 1], parts[|parts| - 1];
      SpaceTerminatedWithout(init, x);
      var q := Without(init, x);
      if last != x {
        var r := q + [last];
        assert Without(parts, x) == r;
        assert r[..|r| - 1] == q && r[|r| - 1] == last;
        assert SpaceTerminated(r, None) == SpaceTerminated(q, None) + (last + " ");
        assert SpaceTerminated(parts, Some(x)) == SpaceTerminated(init, Some(x)) + (last + " ");
      } else {
        assert Without(parts, x) == q;
        assert SpaceTerminated(parts, Some(x)) == SpaceTerminated(init, Some(x));
      }
    }
  }

  /** Pieces each followed by a space are the pieces joined with spaces, and a space. */
  lemma {:induction false} SpaceTerminatedJoin(q: seq<string>)
    ensures SpaceTerminated(q, None) == if q == [] then [] else Join(q, " ") + " "
    decreases |q|
  {
    if q != [] {
      var init, last := q[..|q| - 1], q[|q| - 1];
      SpaceTerminatedJoin(init);
      assert q == init + [last];
      JoinSnoc(init, last, " ");
    }
  }

  /** White space, a trimmed middle that is not empty, and white space. */
  lemma TrimParts(s: string) returns (lead: string, trail: string)
    requires !AllIn(WhiteSpace, s)
    ensures s == lead + Trim(s) + trail && Trim(s) != []
    ensures AllIn(WhiteSpace, lead) && AllIn(WhiteSpace, trail)
  {
    lead := LeadingWhite(s);
    var t := TrimStart(s);
    assert t != [];
    trail := TrailingWhite(t);
    TrimStartNoWhite(t);
    assert Trim(t) == Trim(s);
    Regroup(lead, Trim(s), trail);
  }

  /** The white space TrimStart drops. */
  lemma LeadingWhite(s: string) returns (lead: string)
    ensures s == lead + TrimStart(s) && AllIn(WhiteSpace, lead)
  {
    lead := s[..|s| - |TrimStart(s)|];
    TrimStartWhite(s);
  }

  /** The white space Trim drops at the end of text that does not start with white space. */
  lemma TrailingWhite(t: string) returns (trail: string)
    requires t != [] && !IsWhiteSpace(t[0])
    ensures t == Trim(t) + trail && Trim(t) != [] && AllIn(WhiteSpace, trail)
  {
    TrimStartNoWhite(t);
    var n := SpanEnd(WhiteSpace, t);
    trail := t[|t| - n..];
    assert Trim(t) == t[..|t| - n];
    assert t == t[..|t| - n] + trail;
  }

  /** A space after the text changes nothing once it is trimmed. */
  lemma TrimSpaceAfter(s: string)
    ensures Trim(s + " ") == Trim(s)
  {
    if AllIn(WhiteSpace, s) {
      AllInAppend(WhiteSpace, s, " ");
    } else {
      var lead, trail := TrimParts(s);
      var mid := Trim(s);
      AllInAppend(WhiteSpace, trail, " ");
      assert s + " " == lead + mid + (trail + " ");
      TrimIs(s + " ", lead, mid, trail + " ");
    }
  }

  /** A title that trims to "front ds": the episode is the number after the last space, and
      the series every other piece of the title (every piece equal to the number is dropped)
      joined with spaces and trimmed. */
  lemma SpaceSplit(w: string, front: string, ds: string)
    requires Trim(w) == front + " " + ds && EpisodeOk(ds)
    ensures TryGetEpisodeNumberUsingSpaceDelimination(w) == Some(DigitsValue(ds))
    ensures SeriesNameBySpaces(w) == Some(Trim(Join(Without(Split(front, ' '), ds), " ")))
  {
    var before := Split(front, ' ');
    var parts := before + [ds];
    assert Split(Trim(w), ' ') == parts by {
      DigitsArePlain(ds);
      SpacePieces(front, ds);
    }
    assert TryParseInt32(ds) == Some(DigitsValue(ds)) by {
      ScanDigits(ds);
    }
    assert parts[|parts| - 1] == ds && parts[..|parts| - 1] == before;
    assert NumberPiece(parts) == Some(ds);
    assert SpaceTerminated(parts, Some(ds)) == SpaceTerminated(before, Some(ds));
    SpacedSeries(before, ds);
  }

  /** The pieces of "front last": those of `front`, then the last one. */
  lemma SpacePieces(front: string, last: string)
    requires NoneIn(Is(' '), last)
    ensures Split(front + " " + last, ' ') == Split(front, ' ') + [last]
  {
    assert front + " " + last == front + [' '] + last;
    SplitLast(front, last, ' ');
  }

  /** The pieces before the number, without those equal to it, each followed by a space and
      trimmed, are those pieces joined with spaces and trimmed. */
  lemma SpacedSeries(before: seq<string>, ds: string)
    ensures Trim(SpaceTerminated(before, Some(ds))) == Trim(Join(Without(before, ds), " "))
  {
    var q := Without(before, ds);
    SpaceTerminatedWithout(before, ds);
    SpaceTerminatedJoin(q);
    if q != [] {
      TrimSpaceAfter(Join(q, " "));
    }
  }

  /** When the number is none of the pieces before it, the series is all of them: the
      title before its last space, trimmed. */
  lemma SpaceSplitWhole(w: string, front: string, ds: string)
    requires Trim(w) == front + " " + ds && EpisodeOk(ds) && ds !in Split(front, ' ')
    ensures SeriesNameBySpaces(w) == Some(Trim(front))
  {
    SpaceSplit(w, front, ds);
    SplitJoin(front, ' ');
    assert [' '] == " ";
  }

  /** The text before the number of a title read at a space: plain, without dashes and
      without white space at either end, and not starting as a number does. */
  predicate FrontOk(front: string) {
    front != [] && Plain(front) && NoneIn(Is('-'), front) && IsTrimmed(front) &&
    !IsDigit(front[0]) && front[0] != '+'
  }

  /** A title without dashes holds one line, the whole title. */
  lemma OneLine(w: string)
    requires w != [] && NoneIn(Is('-'), w)
    ensures TryGetEpisodeNumberUsingDashDelimination(w) == Returned(TryParseInt32(w))
    ensures SeriesNameByDashes(w) == Returned(if TryParseInt32(w).Some? then Some(Trim(Join([], "-"))) else None)
  {
    LinesAreSplit('-', w);
    SplitNone(w, '-');
    var lines := [w];
    assert lines[..|lines| - 1] == [];
  }

  /** A title "front ds", with no dash: no line read at a dash is a number, so the episode is
      the number after the last space and the series the pieces before it. */
  lemma SpaceTitleRead(name: string, front: string, ds: string)
    requires RemoveAllTagsAndExtension(name) == front + " " + ds
    requires FrontOk(front) && EpisodeOk(ds)
    ensures Stripped(name) == front + " " + ds
    ensures GetEpisodeNumber(name) == Returned(DigitsValue(ds))
    ensures GetAnimeSeriesName(name) == Returned(Trim(Join(Without(Split(front, ' '), ds), " ")))
  {
    var w := front + " " + ds;
    assert RemoveVersionNumber(w) == w by {
      PlainFacts(front);
      DigitsAfterSpace(front, ds);
    }
    NoNumberAtDash(front, ds);
    assert Trim(w) == w by {
      assert w[0] == front[0] && w[|w| - 1] == ds[|ds| - 1];
      TrimTrimmed(w);
    }
    SpaceSplit(w, front, ds);
  }

  /** "front ds" has no dash, and does not start as a number does: read at a dash, it holds
      no number. */
  lemma NoNumberAtDash(front: string, ds: string)
    requires FrontOk(front) && EpisodeOk(ds)
    ensures TryGetEpisodeNumberUsingDashDelimination(front + " " + ds) == Returned(None)
    ensures SeriesNameByDashes(front + " " + ds) == Returned(None)
  {
    var w := front + " " + ds;
    assert NoneIn(Is('-'), w) && w[0] == front[0] by {
      PlainFacts(front);
      DigitsArePlain(ds);
      NoneInAppend(Is('-'), front, " ");
      NoneInAppend(Is('-'), front + " ", ds);
    }
    assert TryParseInt32(w) == None by {
      assert AllIn(NumberWhite, w[..0]);
      ScanIntegerRejects(w, 0);
    }
    OneLine(w);
  }

  // ---------------------------------------------------------------- titles without a number

  /** Read at a dash, the series is there exactly when the episode number is. */
  lemma DashesAgree(w: string)
    requires w != []
    ensures SeriesNameByDashes(w).Returned? && TryGetEpisodeNumberUsingDashDelimination(w).Returned?
    ensures SeriesNameByDashes(w).value.Some? <==> TryGetEpisodeNumberUsingDashDelimination(w).value.Some?
  {
  }

  /** Read at a space, the series is there exactly when the episode number is. */
  lemma SpacesAgree(w: string)
    ensures SeriesNameBySpaces(w).Some? <==> TryGetEpisodeNumberUsingSpaceDelimination(w).Some?
  {
  }

  /** A title with no number after its last dash nor after its last space: the series is the
      whole title, and the episode int.MinValue. */
  lemma NoNumberRead(name: string)
    requires Stripped(name) != []
    requires TryGetEpisodeNumberUsingDashDelimination(Stripped(name)) == Returned(None)
    requires TryGetEpisodeNumberUsingSpaceDelimination(Stripped(name)) == None
    ensures GetAnimeSeriesName(name) == Returned(RemoveAllTagsAndExtension(name))
    ensures GetEpisodeNumber(name) == Returned(Int32Min)
  {
    DashesAgree(Stripped(name));
    SpacesAgree(Stripped(name));
    TrimTrimmed(RemoveAllTagsAndExtension(name));
  }

  /** A word that is not a number: letters and digits, starting and ending with a letter
      that is no 'v' or 'V'. */
  predicate WordOk(word: string) {
    word != [] && AllIn(LetterOrDigit, word) && IsLetter(word[0]) &&
    IsLetter(word[|word| - 1]) && word[|word| - 1] != 'v' && word[|word| - 1] != 'V'
  }

  /** "series - word ds", such as "series - SP01": read backwards, the digits are followed by
      a letter that is no 'v', so there is no version; and neither " word ds" after the last
      dash nor "word ds" after the last space is a number. */
  lemma WordTitleNoNumber(series: string, word: string, ds: string)
    requires SeriesOk(series) && WordOk(word) && AllIn(Digit, ds)
    ensures RemoveVersionNumber(series + " - " + word + ds) == series + " - " + word + ds
    ensures TryGetEpisodeNumberUsingDashDelimination(series + " - " + word + ds) == Returned(None)
    ensures TryGetEpisodeNumberUsingSpaceDelimination(series + " - " + word + ds) == None
  {
    var w := series + " - " + word + ds;
    assert w == series + " - " + (word + ds) by {
      Regroup(series + " - ", word, ds);
    }
    assert RemoveVersionNumber(w) == w by {
      WordNoVersion(series, word, ds);
    }
    WordPieceFacts(word, ds);
    assert TryGetEpisodeNumberUsingDashDelimination(w) == Returned(None) by {
      WordAtDash(series, word + ds);
    }
    assert TryGetEpisodeNumberUsingSpaceDelimination(w) == None by {
      WordAtSpace(series, word + ds);
    }
  }

  /** "series - piece", where the piece has no dash and starts with a letter: after the last
      dash there is no number. */
  lemma WordAtDash(series: string, piece: string)
    requires SeriesOk(series) && piece != [] && NoneIn(Is('-'), piece) && IsLetter(piece[0])
    ensures TryGetEpisodeNumberUsingDashDelimination(series + " - " + piece) == Returned(None)
  {
    var w := series + " - " + piece;
    var back := " " + piece;
    assert w == series + " " + "-" + back && w == series + " -" + back;
    assert NoneIn(Is('-'), back) by {
      assert forall i :: 1 <= i < |back| ==> back[i] == piece[i - 1];
    }
    DashJoined(series, back);
    assert TryParseInt32(back) == None by {
      assert AllIn(NumberWhite, back[..1]) && back[1] == piece[0];
      ScanIntegerRejects(back, 1);
    }
    DashSplit(w, series + " ", back);
  }

  /** "series - piece", where the piece has no space, starts with a letter and does not end
      in white space: after the last space there is no number. */
  lemma WordAtSpace(series: string, piece: string)
    requires SeriesOk(series) && piece != [] && NoneIn(Is(' '), piece) && IsLetter(piece[0])
    requires !IsWhiteSpace(piece[|piece| - 1])
    ensures TryGetEpisodeNumberUsingSpaceDelimination(series + " - " + piece) == None
  {
    var w, front := series + " - " + piece, series + " -";
    assert w == front + " " + piece && w == front + (" " + piece);
    assert Trim(w) == w by {
      assert front[0] == series[0];
      Ends(front, " " + piece);
    }
    assert Split(w, ' ') == Split(front, ' ') + [piece] by {
      SpacePieces(front, piece);
    }
    assert TryParseInt32(piece) == None by {
      assert AllIn(NumberWhite, piece[..0]);
      ScanIntegerRejects(piece, 0);
    }
  }

  /** Text that starts and ends with something other than white space is trimmed. */
  lemma Ends(a: string, b: string)
    requires a != [] && b != [] && !IsWhiteSpace(a[0]) && !IsWhiteSpace(b[|b| - 1])
    ensures Trim(a + b) == a + b
  {
    assert (a + b)[0] == a[0] && (a + b)[|a + b| - 1] == b[|b| - 1];
    TrimTrimmed(a + b);
  }

  /** The characters of "word ds". */
  lemma WordPieceFacts(word: string, ds: string)
    requires WordOk(word) && AllIn(Digit, ds)
    ensures Plain(word + ds) && NoneIn(Is('-'), word + ds) && NoneIn(Is(' '), word + ds)
    ensures IsLetter((word + ds)[0]) && !IsWhiteSpace((word + ds)[|word + ds| - 1])
  {
    assert AllIn(LetterOrDigit, word + ds) by {
      assert forall i :: |word| <= i < |word + ds| ==> (word + ds)[i] == ds[i - |word|];
    }
  }

  /** "series - word ds" carries no version: backwards, its digits are followed by the last
      letter of the word. */
  lemma WordNoVersion(series: string, word: string, ds: string)
    requires SeriesOk(series) && WordOk(word) && AllIn(Digit, ds)
    ensures RemoveVersionNumber(series + " - " + word + ds) == series + " - " + word + ds
  {
    var front := series + " - " + word;
    WordNoExtension(series, word, ds);
    assert front[|front| - 1] == word[|word| - 1];
    LetterBeforeDigits(front, ds);
  }

  /** "series - word ds" holds no dot and no path separator: the whole is the name. */
  lemma WordNoExtension(series: string, word: string, ds: string)
    requires SeriesOk(series) && WordOk(word) && AllIn(Digit, ds)
    ensures GetFileNameWithoutExtension(series + " - " + word + ds) == series + " - " + word + ds
  {
    PlainFacts(series);
    WordPieceFacts(word, ds);
    PlainFacts(word + ds);
    NoneInAppend(Is('.'), series, " - ");
    NoneInAppend(Is('.'), series + " - ", word + ds);
    NoneInAppend(PathSeparator, series, " - ");
    NoneInAppend(PathSeparator, series + " - ", word + ds);
    Regroup(series + " - ", word, ds);
    NoExtension(series + " - " + word + ds);
  }

  /** Read backwards, text ending in a letter other than 'v' or 'V', then digits, is no
      version number: the digits are followed by that letter. */
  lemma LetterBeforeDigits(front: string, ds: string)
    requires front != [] && IsLetter(front[|front| - 1]) && front[|front| - 1] != 'v' && front[|front| - 1] != 'V'
    requires AllIn(Digit, ds)
    ensures VersionNumberFromReversedString(Reverse(front + ds)) == NoMatch
  {
    ReverseAppend(front, ds);
    DigitsReversed(ds);
    DigitsThenLetter(Reverse(ds), Reverse(front), front[|front| - 1]);
  }

  /** Digits read backwards are digits. */
  lemma DigitsReversed(ds: string)
    requires AllIn(Digit, ds)
    ensures AllIn(Digit, Reverse(ds))
  {
    var rds := Reverse(ds);
    forall i | 0 <= i < |rds| ensures IsDigit(rds[i]) {
      assert rds[i] == ds[|ds| - 1 - i];
    }
  }

  /** Digits, or none, followed by a letter other than 'v' or 'V' are not a reversed version
      number. */
  lemma DigitsThenLetter(rds: string, rf: string, c: char)
    requires AllIn(Digit, rds) && rf != [] && rf[0] == c
    requires IsLetter(c) && c != 'v' && c != 'V'
    ensures VersionNumberFromReversedString(rds + rf) == NoMatch
  {
    if rds == [] {
      assert rds + rf == rf;
    } else {
      ApplyRun(Digit, rds + rf, rds, rf);
      assert Apply(Once(Either('v', 'V')), rf) == NoMatch;
    }
  }
}
