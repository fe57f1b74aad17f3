/** What the heuristic path of ParseFansubFile promises: the episode is the number after the
    last dash and the series what comes before it; no character class that is absent from
    the name, and is neither a space nor a dash, shows up in any field, so underscores never
    do; a name without digits gets the episode int.MinValue; and the exceptions that escape. */
module FansubHeuristics {
  import opened Text
  import opened Outcomes
  import opened Numbers
  import opened Paths
  import opened Combinators
  import opened BaseGrammars
  import opened FansubFiles
  import opened FansubFileParsers
  import opened FansubProperties

  /** The name the episode and series are read from: without its extension, its tags and its
      version number (the source's local withoutVersionNumber). */
  function Stripped(name: string): string {
    RemoveVersionNumber(RemoveAllTagsAndExtension(name))
  }

  /** A name that is not blank and that the normalized parser does not read goes through the
      heuristics: InvalidOperationException when nothing is left of it once its extension,
      tags and version number are removed (the line lexer then reads no line, and Last
      throws), otherwise the group, series, episode and extension the heuristics find. */
  lemma ParseViaHeuristics(fileName: string)
    requires !IsNullOrWhiteSpace(fileName) && NormalizedFileNameParser(fileName) == Returned(NoMatch)
    ensures var name, r := ReplaceChar(fileName, '_', ' '), ParseFansubFile(fileName);
      && (r.Threw? <==> Stripped(name) == [])
      && (r.Threw? ==> r.exception == InvalidOperationException)
      && (r.Returned? ==> (r.value.Some? &&
            r.value.value.fansubGroup == GetFansubGroup(name) &&
            GetAnimeSeriesName(name) == Returned(r.value.value.seriesName) &&
            GetEpisodeNumber(name) == Returned(r.value.value.episodeNumber) &&
            r.value.value.extension == GetExtension(name)))
  {
  }

  /** The exceptions ParseFansubFile lets out on names whose numeric characters
      (char.IsNumber) are all ASCII digits:
      OverflowException from the normalized parser, and InvalidOperationException from the
      heuristics when nothing is left of the name; a blank name never throws. */
  lemma ParseExceptions(fileName: string)
    ensures var r, n := ParseFansubFile(fileName), NormalizedFileNameParser(fileName);
      r.Threw? <==> (!IsNullOrWhiteSpace(fileName) &&
        (n.Threw? || (n == Returned(NoMatch) && Stripped(ReplaceChar(fileName, '_', ' ')) == [])))
    ensures var r, n := ParseFansubFile(fileName), NormalizedFileNameParser(fileName);
      r.Threw? ==> r.exception == if n.Threw? then OverflowException else InvalidOperationException
  {
    if !IsNullOrWhiteSpace(fileName) {
      var n := NormalizedFileNameParser(fileName);
      if n.Threw? {
        ParseViaNormalized(fileName);
      } else if n == Returned(NoMatch) {
        ParseViaHeuristics(fileName);
      } else {
        ParseViaNormalized(fileName);
      }
    }
  }

  /** A name without digits has no episode number: the episode is int.MinValue and the series
      is the whole name without its extension and tags. */
  lemma NoDigitsNoEpisode(fileName: string)
    requires !IsNullOrWhiteSpace(fileName) && NormalizedFileNameParser(fileName) == Returned(NoMatch)
    requires NoneIn(Digit, ReplaceChar(fileName, '_', ' '))
    requires Stripped(ReplaceChar(fileName, '_', ' ')) != []
    ensures var name := ReplaceChar(fileName, '_', ' ');
      ParseFansubFile(fileName) ==
        Returned(Some(FansubFile(GetFansubGroup(name), RemoveAllTagsAndExtension(name), Int32Min, GetExtension(name))))
  {
    var name := ReplaceChar(fileName, '_', ' ');
    var w := Stripped(name);
    StrippedNoneIn(Digit, name);
    DigitlessIsNoNumber(w);
    TrimTrimmed(RemoveAllTagsAndExtension(name));
    assert GetAnimeSeriesName(name) == Returned(RemoveAllTagsAndExtension(name));
    assert GetEpisodeNumber(name) == Returned(Int32Min);
    ParseViaHeuristics(fileName);
  }

  /** Text without digits holds no number, whether read at its dashes or at its spaces. */
  lemma DigitlessIsNoNumber(w: string)
    requires w != [] && NoneIn(Digit, w)
    ensures SeriesNameByDashes(w) == Returned(None)
    ensures TryGetEpisodeNumberUsingDashDelimination(w) == Returned(None)
    ensures SeriesNameBySpaces(w) == None
    ensures TryGetEpisodeNumberUsingSpaceDelimination(w) == None
  {
    var lines := LinesSeparatedBy('-', w).value;
    LinesAtLeastOne('-', w);
    LinesNoneIn(Digit, '-', w);
    assert NoneIn(Digit, lines[|lines| - 1]);
    var parts := Split(Trim(w), ' ');
    TrimNoneIn(Digit, w);
    SplitNoneIn(Digit, Trim(w), ' ');
    assert NoneIn(Digit, parts[|parts| - 1]);
  }

  // ---------------------------------------------------------------- version numbers

  /** A name ending in "v" and digits, with no other 'v', no dot and no path separator: the
      version is read from the reversed name, so its digits come out reversed, and only an
      occurrence of that reversed text is deleted. A one-digit version, or any version whose
      digits read the same both ways, is removed; any other is kept. */
  lemma VersionRemoved(stem: string, ds: string)
    requires ds != [] && AllIn(Digit, ds)
    requires NoneIn(Is('v'), stem) && NoneIn(Is('.'), stem) && NoneIn(PathSeparator, stem)
    ensures RemoveVersionNumber(stem + "v" + ds) == if Reverse(ds) == ds then stem else stem + "v" + ds
  {
    VersionRead(stem, ds);
    VersionDeleted(stem, ds);
  }

  /** The version read from such a name is 'v' and its digits reversed. */
  lemma VersionRead(stem: string, ds: string)
    requires ds != [] && AllIn(Digit, ds)
    requires NoneIn(Is('.'), stem) && NoneIn(PathSeparator, stem)
    ensures var w := stem + "v" + ds;
      VersionNumberFromReversedString(Reverse(GetFileNameWithoutExtension(w))) == Matched("v" + Reverse(ds), [])
  {
    var w := stem + "v" + ds;
    assert GetFileNameWithoutExtension(w) == w by {
      assert NoneIn(Is('.'), w) && NoneIn(PathSeparator, w) by {
        assert forall i :: |stem| <= i < |w| ==> IsDigit(w[i]) || w[i] == 'v';
      }
      NoExtension(w);
    }
    assert Reverse(w) == Reverse(ds) + ("v" + Reverse(stem)) by {
      ReverseAppend(stem + "v", ds);
      ReverseAppend(stem, "v");
      assert Reverse("v") == "v";
    }
    ReadVersion(Reverse(ds), Reverse(stem));
  }

  /** Deleting 'v' and the reversed digits from a name with no other 'v' deletes its ending
      exactly when the digits read the same both ways. */
  lemma VersionDeleted(stem: string, ds: string)
    requires NoneIn(Is('v'), stem)
    ensures RemoveAll(stem + "v" + ds, "v" + Reverse(ds)) == if Reverse(ds) == ds then stem else stem + "v" + ds
  {
    var pat := "v" + Reverse(ds);
    assert stem + "v" + ds == stem + ("v" + ds);
    RemoveAllSkip(stem, "v" + ds, pat);
    if Reverse(ds) == ds {
      RemoveAllFront(pat, []);
      assert pat + [] == "v" + ds;
    } else {
      assert ("v" + ds)[1..] == ds && pat[1..] == Reverse(ds);
      assert !OccursAt(pat, "v" + ds, 0) by {
        assert ("v" + ds)[..|pat|] == "v" + ds;
      }
      RemoveAllStep("v" + ds, pat);
      RemoveAllShort(ds, pat);
    }
  }

  /** Digits, then 'v', then anything, read backwards: the version is 'v' and the digits. */
  lemma ReadVersion(rds: string, rest: string)
    requires rds != [] && (forall i :: 0 <= i < |rds| ==> IsDigit(rds[i]))
    ensures VersionNumberFromReversedString(rds + ("v" + rest)) == Matched("v" + rds, [])
  {
    ApplyRun(Digit, rds + ("v" + rest), rds, "v" + rest);
    ApplyOnce(Either('v', 'V'), 'v', rest);
  }

  // ---------------------------------------------------------------- splitting at dashes

  /** A stripped name "front-back", with no dash at either end, no two dashes in a row and
      none in `back`: the episode is `back` read as a number, and when it is one, the series
      is `front` trimmed, with its own dashes kept. */
  lemma DashSplit(w: string, front: string, back: string)
    requires w == front + "-" + back && SingleSeparated('-', w) && NoneIn(Is('-'), back)
    ensures TryGetEpisodeNumberUsingDashDelimination(w) == Returned(TryParseInt32(back))
    ensures SeriesNameByDashes(w) ==
      Returned(if TryParseInt32(back).Some? then Some(Trim(front)) else None)
  {
    LinesAreSplit('-', w);
    SplitLast(front, back, '-');
    var lines := Split(front, '-') + [back];
    assert lines[..|lines| - 1] == Split(front, '-');
    SplitJoin(front, '-');
  }

  // ---------------------------------------------------------------- characters that never appear

  lemma NoneInSuffix(k: CharClass, r: string, s: string)
    requires IsSuffix(r, s) && NoneIn(k, s)
    ensures NoneIn(k, r)
  {
    forall i | 0 <= i < |r| ensures !In(k, r[i]) {
      assert r[i] == s[|s| - |r| + i];
    }
  }

  lemma NoneInPrefix(k: CharClass, s: string, n: nat)
    requires n <= |s| && NoneIn(k, s)
    ensures NoneIn(k, s[..n])
  {
  }

  /** The stem and the extension of a path hold only characters of the path. */
  lemma FileNamePartsNoneIn(k: CharClass, path: string)
    requires NoneIn(k, path)
    ensures NoneIn(k, GetFileNameWithoutExtension(path)) && NoneIn(k, GetExtension(path))
  {
    var name := GetFileName(path);
    NoneInSuffix(k, name, path);
    NoneInPrefix(k, name, |GetFileNameWithoutExtension(path)|);
    NoneInSuffix(k, GetExtension(path), name);
  }

  lemma {:induction false} RemoveEachNoneIn(k: CharClass, s: string, tags: seq<string>)
    requires NoEmptyTag(tags) && NoneIn(k, s)
    ensures NoneIn(k, RemoveEach(s, tags))
    decreases |tags|
  {
    if tags != [] {
      RemoveEachNoneIn(k, s, tags[..|tags| - 1]);
      RemoveAllNoneIn(k, RemoveEach(s, tags[..|tags| - 1]), tags[|tags| - 1]);
    }
  }

  /** Removing the extension, the tags and the version number brings in no character. */
  lemma StrippedNoneIn(k: CharClass, name: string)
    requires NoneIn(k, name)
    ensures NoneIn(k, RemoveAllTagsAndExtension(name)) && NoneIn(k, Stripped(name))
  {
    var stem := GetFileNameWithoutExtension(name);
    FileNamePartsNoneIn(k, name);
    var untagged := RemoveFansubTag(stem);
    assert NoneIn(k, untagged) by {
      var square := EnclosedTextWithBrackets('[', ']', stem);
      var round := EnclosedTextWithBrackets('(', ')', stem);
      if square.Matched? {
        RemoveAllNoneIn(k, stem, square.value);
      } else if round.Matched? {
        RemoveAllNoneIn(k, stem, round.value);
      }
    }
    RemoveEachNoneIn(k, untagged, GrindTags(untagged).value);
    TrimNoneIn(k, EndTagsRemoved(untagged));
    var t := RemoveAllTagsAndExtension(name);
    var version := VersionNumberFromReversedString(Reverse(GetFileNameWithoutExtension(t)));
    if version.Matched? {
      RemoveAllNoneIn(k, t, version.value);
    }
  }

  /** The lines the line lexer reads hold only characters of its input. */
  lemma LinesNoneIn(k: CharClass, c: char, s: string)
    requires NoneIn(k, s)
    ensures forall i :: 0 <= i < |LinesSeparatedBy(c, s).value| ==> NoneIn(k, LinesSeparatedBy(c, s).value[i])
  {
    KeepNoneIn(But(Any, Is(c)), k, s);
    ConcatNoneIn(k, LinesSeparatedBy(c, s).value);
  }

  lemma {:induction false} SpaceTerminatedNoneIn(k: CharClass, parts: seq<string>, except: Option<string>)
    requires !In(k, ' ') && forall i :: 0 <= i < |parts| ==> NoneIn(k, parts[i])
    ensures NoneIn(k, SpaceTerminated(parts, except))
    decreases |parts|
  {
    if parts != [] {
      var last := parts[|parts| - 1];
      SpaceTerminatedNoneIn(k, parts[..|parts| - 1], except);
      if except != Some(last) {
        NoneInAppend(k, last, " ");
      }
      NoneInAppend(k, SpaceTerminated(parts[..|parts| - 1], except),
        if except == Some(last) then [] else last + " ");
    }
  }

  /** The group is text of the name. */
  lemma GroupNoneIn(k: CharClass, name: string)
    requires NoneIn(k, name)
    ensures NoneIn(k, GetFansubGroup(name))
  {
    EnclosedTextNoneIn(k, '[', ']', name);
    EnclosedTextNoneIn(k, '(', ')', name);
  }

  lemma EnclosedTextNoneIn(k: CharClass, open: char, close: char, s: string)
    requires NoneIn(k, s)
    ensures EnclosedText(open, close, s).Matched? ==> NoneIn(k, EnclosedText(open, close, s).value)
  {
    var t := TrimStart(s);
    NoneInSuffix(k, t, s);
    var a := Apply(Once(Is(open)), t);
    if a.Matched? {
      var u := a.rest;
      assert NoneIn(k, u) by {
        forall i | 0 <= i < |u| ensures !In(k, u[i]) {
          assert u[i] == (a.value + u)[|a.value| + i];
        }
      }
      NoneInPrefix(k, u, Span(But(Any, Is(close)), u));
    }
  }

  /** The series is made of text of the stripped name, spaces and dashes. */
  lemma SeriesNoneIn(k: CharClass, name: string)
    requires NoneIn(k, name) && !In(k, ' ') && !In(k, '-')
    ensures GetAnimeSeriesName(name).Returned? ==> NoneIn(k, GetAnimeSeriesName(name).value)
  {
    var w := Stripped(name);
    var dashes := SeriesNameByDashes(w);
    if dashes.Returned? && dashes.value.Some? {
      SeriesFromDashesNoneIn(k, name);
    } else if dashes.Returned? {
      SeriesFromSpacesNoneIn(k, name);
    }
  }

  lemma SeriesFromDashesNoneIn(k: CharClass, name: string)
    requires NoneIn(k, name) && !In(k, '-')
    requires var r := SeriesNameByDashes(Stripped(name)); r.Returned? && r.value.Some?
    ensures GetAnimeSeriesName(name) == Returned(SeriesNameByDashes(Stripped(name)).value.value)
    ensures NoneIn(k, GetAnimeSeriesName(name).value)
  {
    StrippedNoneIn(k, name);
    DashSeriesNoneIn(k, Stripped(name));
  }

  lemma SeriesFromSpacesNoneIn(k: CharClass, name: string)
    requires NoneIn(k, name) && !In(k, ' ')
    requires SeriesNameByDashes(Stripped(name)) == Returned(None)
    ensures GetAnimeSeriesName(name).Returned?
    ensures NoneIn(k, GetAnimeSeriesName(name).value)
  {
    var w := Stripped(name);
    StrippedNoneIn(k, name);
    if SeriesNameBySpaces(w).Some? {
      SpaceSeriesNoneIn(k, w);
      assert GetAnimeSeriesName(name).value == SeriesNameBySpaces(w).value;
    } else {
      TrimNoneIn(k, RemoveAllTagsAndExtension(name));
      assert GetAnimeSeriesName(name).value == Trim(RemoveAllTagsAndExtension(name));
    }
  }

  /** The series read at the dashes: lines of the text joined with dashes. */
  lemma DashSeriesNoneIn(k: CharClass, w: string)
    requires NoneIn(k, w) && !In(k, '-')
    ensures var r := SeriesNameByDashes(w); r.Returned? && r.value.Some? ==> NoneIn(k, r.value.value)
  {
    var lines := LinesSeparatedBy('-', w).value;
    if lines != [] {
      var front := lines[..|lines| - 1];
      LinesNoneIn(k, '-', w);
      assert forall i :: 0 <= i < |front| ==> front[i] == lines[i];
      JoinNoneIn(k, front, "-");
      TrimNoneIn(k, Join(front, "-"));
    }
  }

  /** The series read at the spaces: pieces of the text joined with spaces. */
  lemma SpaceSeriesNoneIn(k: CharClass, w: string)
    requires NoneIn(k, w) && !In(k, ' ')
    ensures var r := SeriesNameBySpaces(w); r.Some? ==> NoneIn(k, r.value)
  {
    var parts := Split(Trim(w), ' ');
    TrimNoneIn(k, w);
    SplitNoneIn(k, Trim(w), ' ');
    SpaceTerminatedNoneIn(k, parts, NumberPiece(parts));
    TrimNoneIn(k, SpaceTerminated(parts, NumberPiece(parts)));
  }

  /** A character class absent from a name that the normalized parser does not read, and
      that holds neither a space nor a dash, is absent from every field ParseFansubFile
      gives. */
  lemma HeuristicFieldsNoneIn(k: CharClass, fileName: string)
    requires !IsNullOrWhiteSpace(fileName) && NormalizedFileNameParser(fileName) == Returned(NoMatch)
    requires NoneIn(k, ReplaceChar(fileName, '_', ' ')) && !In(k, ' ') && !In(k, '-')
    ensures var r := ParseFansubFile(fileName);
      r.Returned? ==> (r.value.Some? &&
        NoneIn(k, r.value.value.fansubGroup) && NoneIn(k, r.value.value.seriesName) &&
        NoneIn(k, r.value.value.extension))
  {
    var name := ReplaceChar(fileName, '_', ' ');
    ParseViaHeuristics(fileName);
    GroupNoneIn(k, name);
    SeriesNoneIn(k, name);
    FileNamePartsNoneIn(k, name);
  }

  /** Underscores stand for spaces: a file read by the heuristics has no underscore in its
      group, its series or its extension. */
  lemma NoUnderscores(fileName: string)
    requires !IsNullOrWhiteSpace(fileName) && NormalizedFileNameParser(fileName) == Returned(NoMatch)
    ensures var r := ParseFansubFile(fileName);
      r.Returned? ==> (r.value.Some? &&
        NoneIn(Is('_'), r.value.value.fansubGroup) && NoneIn(Is('_'), r.value.value.seriesName) &&
        NoneIn(Is('_'), r.value.value.extension))
  {
    var name := ReplaceChar(fileName, '_', ' ');
    assert NoneIn(Is('_'), name) by {
      forall i | 0 <= i < |name| ensures !In(Is('_'), name[i]) {
        assert name[i] == if fileName[i] == '_' then ' ' else fileName[i];
      }
    }
    HeuristicFieldsNoneIn(Is('_'), fileName);
  }
}
