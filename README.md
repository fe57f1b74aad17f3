# FileNameParser in Dafny

A model of the `FileNameParser` library of the Fansub Organizational Utility. The library
takes apart the file name of an anime episode released by a fansub group, such as
`[WhyNot] Mayo Chiki - 10 [D1DA2637].mkv`, into a `FansubFile`: the group (`WhyNot`), the
series (`Mayo Chiki`), the episode number (10) and the extension (`.mkv`).

The model has two layers, written as pure functions over `string` (`seq<char>`). The source
code of both layers is pure: its parsers are immutable Sprache parser values, and its
helper functions compute new strings without changing anything.

- The lexical grammar layer (`BaseGrammars`). It holds:
  - the run parsers `Underscore` and `Dash`;
  - the four bracket parsers;
  - `Line` and `Identifier`;
  - the `IdentifierUntil…` and `LineUntil…` parsers and their `…OrFullWord` / `…OrFullLine`
    variants;
  - the lexers `IdentifiersSeparatedBy…` and `LinesSeparatedBy…`.

  Sprache itself is not modelled as a library. A reply is `Matched(value, rest) | NoMatch`
  (module `Combinators`), and each combinator the grammars use (`Once`, `AtLeastOnce`,
  `Until`, `Or`, `Many`, `Token`) is written out with the semantics Sprache gives it:
  - `Or` takes the second parser when the first fails or matches without consuming;
  - `Until` consumes its terminator;
  - `Many` stops at a failure or at a match that consumes nothing.
- The file-name decomposition (`FansubFileParsers`):
  - `NormalizedFileNameParser` reads the normalized form `Series (N).ext`.
  - `ParseFansubFile` tries the normalized form first. It then falls back on the
    heuristics:
    1. read the group from the leading tag;
    2. make underscores spaces;
    3. remove the extension, the group tag and the end tags;
    4. remove a `vN` version suffix;
    5. read the episode and the series at the dashes, else at the spaces, else give the
       episode `int.MinValue`.
  - `FansubFile` is a value with structural equality (module `FansubFiles`).

The .NET library calls the parsers make are written out in modules `Text`, `Paths` and
`Numbers`. They cover `String.Trim`, `String.Replace`, `String.Split`, `Enumerable.Reverse`,
`Path.GetExtension`, `Path.GetFileNameWithoutExtension`, `int.Parse` and `int.TryParse`. A
thrown exception is a value: `Outcome<T> = Returned(value) | Threw(exception)`.

Three methods keep the loops of the source: `RemoveEndTags`,
`TryGetSeriesNameUsingDashDelimination` and `TryGetSeriesNameUsingSpaceDelimination`. Each
is proved equal to the function the rest of the model uses.

The unit tests fix the behaviour of the two layers. Their rows are lemmas in modules
`BaseGrammarsExamples` and `FansubFileParsersExamples`. Some are stated for one literal
input; others for every input of the row's shape, for instance "any text without the
separator, a separator and the rest", and then applied to the literal row.

Four modules follow `ParseFansubFile` step by step for whole names: a group tag, a title,
end tags and an extension, with spaces or underscores between the parts.
- `EndTags` describes text made of pieces, some of them bracketed tags. It proves that
  `String.Replace(tag, "")` deletes exactly the pieces spelled as the tag, that the tag
  lexer reads a run of end tags whole, that `GrindTags` returns those tags, and that
  `RemoveFansubTag` deletes the group tag alone.
- `FansubNames` proves, for every name of that frame, what the extension, the stem, the
  group and the title are, and that the normalized parser does not read the name.
- `FansubTitles` proves what `RemoveVersionNumber` and the dash and space splits give on
  three shapes of title: "series - 05" with or without a version, "front 05" without a dash,
  and "series - SP01" with no number where the heuristics look for one.
- `ParseShapes` puts these together: the file `ParseFansubFile` returns for every name of
  each shape (`DashNameParsed`, `SpaceNameParsed`, `WordNameParsed`).

Each of the fourteen file-name rows of the parser tests is a lemma
(`FansubFileParsersExamples.AhoTakuRow` and the others below). It states the file the
parser returns for the literal name, and is proved from the lemma for its shape.

Where the code and the documented behaviour of the library differ, the model follows the
code:
- `RemoveVersionNumber` deletes `v` followed by the version digits in the order it read them
  from the reversed name, which is the reverse of their order in the name. A version of
  two or more digits that does not read the same both ways is therefore not removed
  (`FansubHeuristics.VersionRemoved`).
- When neither the dashes nor the spaces give a number, `GetAnimeSeriesName` returns the
  name without its tags, trimmed, but with its version suffix still in it
  (`File Name Parser/FansubFileParsers.cs:337`).
- Two checks in the source never fire, so the model has no branch for them:
  - the dash lexer always matches;
  - `String.Split` always gives at least one piece.
- On a name that is empty once its extension, tags and version are removed, the dash lexer
  reads no line. `Enumerable.Last` then throws `InvalidOperationException` out of
  `ParseFansubFile`, and the model says so (`FansubHeuristics.ParseExceptions`).

## Model

Source cells name `BaseGrammars.cs`, `FansubFileParsers.cs` and `FansubFile.cs` of the
`File Name Parser` project, and the tests under `UnitTests/`.

| member | source | states |
|---|---|---|
| `Combinators.Apply` | BaseGrammars.cs:18-23 | `Once` reads exactly the first character when it is of the class; `AtLeastOnce` reads the longest non-empty run of the class; either matches exactly when the first character is of the class, and value followed by rest is the input |
| `Combinators.ApplyRun` | BaseGrammars.cs:18-19 | a run of the class followed by anything else is read exactly |
| `Combinators.ApplyOnce` | BaseGrammars.cs:20-23 | a character of the class is read alone, whatever follows |
| `Combinators.Until` | BaseGrammars.cs:26-43 | `item.Until(sep)` reads the longest run of items that are not separators, and matches only if a separator follows, which it consumes |
| `Combinators.OrConsumes` | BaseGrammars.cs:27 | `Or` of two parsers that consume input consumes input |
| `BaseGrammars.Line` | BaseGrammars.cs:16 | `Line` matches exactly a non-empty input and reads all of it |
| `BaseGrammars.IdentifierMatches` | BaseGrammars.cs:17 | `Identifier` matches exactly when the first character after the leading white space is a letter; it reads the longest run of letters and skips the white space after it |
| `BaseGrammars.IdentifierIs` | BaseGrammars.cs:17 | white space, a word and a non-letter: the word is read and the white space after it skipped |
| `BaseGrammars.IdentifierUntil` | BaseGrammars.cs:26-29 | `IdentifierUntil…` matches exactly when the letters at the front are followed by the separator; the value is those letters and the whole run of separators is consumed |
| `BaseGrammars.IdentifierUntilIs` | BaseGrammars.cs:26-29 | letters, a run of separators and the rest: the letters are read and the run consumed |
| `BaseGrammars.IdentifierUntilFails` | BaseGrammars.cs:26-29 | letters followed by something that is neither a letter nor the separator: no match |
| `BaseGrammars.IdentifierUntilOrFullWordMatches` | BaseGrammars.cs:27-30 | the `…OrFullWord` forms match exactly when the input starts with the separator or with white space and a letter, and read the longest run of letters |
| `BaseGrammars.WordUntilIs` | BaseGrammars.cs:27-30 | the `…OrFullWord` forms behave as the strict form when the separator follows the letters |
| `BaseGrammars.WordIdentifierIs` | BaseGrammars.cs:27-30 | the `…OrFullWord` forms fall back on `Identifier` when the word is not followed by the separator |
| `BaseGrammars.IdentifierUntilOrFullWord` | BaseGrammars.cs:27-30 | whenever the `…OrFullWord` forms match, they consume input |
| `BaseGrammars.UntilStartsWord` | BaseGrammars.cs:27-30 | a strict `IdentifierUntil…` match starts at a non-white character |
| `BaseGrammars.IdentifiersSeparatedBy` | BaseGrammars.cs:48-49 | the identifier lexer always matches, and what it leaves is the end of its input |
| `BaseGrammars.LineUntil` | BaseGrammars.cs:33-43 | `LineUntil…` matches exactly when the separator occurs; it reads everything before the first separator and consumes the separator |
| `BaseGrammars.LineUntilIs` | BaseGrammars.cs:33-43 | text without the separator followed by a separator: that text is read |
| `BaseGrammars.LineUntilOrFullLine` | BaseGrammars.cs:34-44 | the `…OrFullLine` forms match exactly a non-empty input; they behave as the strict form when the separator occurs and read the whole input otherwise |
| `BaseGrammars.LineUntilSquareBracketOrParenthesis` | BaseGrammars.cs:39-41 | reads up to the first '[' when there is one, otherwise up to the first '('; matches exactly when either occurs |
| `BaseGrammars.IdentifiersAreLetters` | BaseGrammars.cs:48-49 | the words the identifier lexer reads, put together, followed by the letters it leaves, are the letters of the input |
| `BaseGrammars.IdentifiersReadAll` | BaseGrammars.cs:48-49 | on input of words, white space and separators, in which white space after a separator leads up to a word, the lexer reads everything and its words put together are all the letters of the input |
| `BaseGrammars.IdentifiersStopAtWhiteSpace` | BaseGrammars.cs:48-49 | white space that does not lead up to a letter stops the identifier lexer before it reads anything |
| `BaseGrammars.LinesSeparatedBy` | BaseGrammars.cs:52-53 | the line lexer reads the whole input, and its lines put together are the input without its separators |
| `BaseGrammars.LinesAtLeastOne` | BaseGrammars.cs:52-53 | the line lexer reads at least one line exactly when the input is not empty |
| `BaseGrammars.LinesAreSeparated` | BaseGrammars.cs:52-53 | no line holds the separator, only the first may be empty, and it is not empty when the input does not start with a separator |
| `BaseGrammars.LinesAreSplit` | BaseGrammars.cs:53 | on input that neither starts nor ends with the separator and never doubles it, the lines are `String.Split` at the separator |
| `Text.Trim` | FansubFileParsers.cs:162 | `String.Trim` leaves no white space at either end and is no longer than its input |
| `Text.TrimStart` | FansubFileParsers.cs:55 | `String.TrimStart` leaves the end of the text that starts with a non-white character |
| `Text.TrimIs` | FansubFileParsers.cs:162 | white space, text that starts and ends with non-white characters, and white space: the text is what remains |
| `Text.TrimIdempotent` | FansubFileParsers.cs:162 | trimming twice is trimming once |
| `Text.ReplaceChar` | FansubFileParsers.cs:187 | `String.Replace('_', ' ')` changes every underscore into a space and nothing else |
| `Text.RemoveAll` | FansubFileParsers.cs:94 | `String.Replace(tag, "")` never lengthens the text, and shortens it by at least the tag when the text starts with it |
| `Text.RemoveAllAbsent` | FansubFileParsers.cs:94 | a text in which the pattern does not occur is kept |
| `Text.RemoveAllSkip` | FansubFileParsers.cs:94 | a prefix in which the pattern cannot start is kept |
| `Text.RemoveAllNoneIn` | FansubFileParsers.cs:94 | deleting occurrences brings in no character |
| `Text.Split` | FansubFileParsers.cs:263 | `String.Split(' ')` gives at least one piece, and no piece holds the separator |
| `Text.SplitJoin` | FansubFileParsers.cs:263 | joining the pieces of `Split` with the separator gives the text back |
| `Text.Reverse` | FansubFileParsers.cs:140 | the reversed text has character `i` of the text at position `|s| - 1 - i` |
| `Text.ReverseReverse` | FansubFileParsers.cs:140 | reversing twice gives the text back |
| `Paths.GetExtension` | FansubFileParsers.cs:192 | the extension is empty or a dot followed by at least one non-dot, and ends the file name |
| `Paths.GetFileName` | FansubFileParsers.cs:137 | the file name is the end of the path and has no path separator |
| `Paths.GetFileNameWithoutExtension` | FansubFileParsers.cs:137 | the stem is a prefix of the file name |
| `Paths.StemAndExtension` | FansubFileParsers.cs:159 | the stem followed by the extension is the file name, except that a final dot belongs to neither |
| `Paths.SplitAtExtension` | FansubFileParsers.cs:159 | `stem.ext` with no dot in `ext` has extension `.ext` and stem `stem` |
| `Paths.NoExtension` | FansubFileParsers.cs:137 | a name without a dot has no extension and is its own stem |
| `Numbers.DecimalValue` | FansubFileParsers.cs:60 | reading back the decimal digits of a number gives the number |
| `Numbers.Decimal` | FansubFileParsers.cs:60 | the decimal form of a number is non-empty, all digits, without a leading zero |
| `Numbers.ScanInteger` | FansubFileParsers.cs:272 | a number is read only from text with a digit, and a negative one only from text with '-' |
| `Numbers.ScanIntegerIs` | FansubFileParsers.cs:272 | white space, an optional sign, digits and white space spell the signed value of the digits |
| `Numbers.ScanIntegerRejects` | FansubFileParsers.cs:272 | a text whose first character after the white space is neither a sign nor a digit is not a number |
| `Numbers.ScanIntegerRejectsAfterDigits` | FansubFileParsers.cs:272 | digits followed by a character that is neither a digit nor white space are not a number |
| `Numbers.TryParseInt32` | FansubFileParsers.cs:272 | `int.TryParse` succeeds only in the 32-bit range, only on text with a digit, and gives a non-negative number on text without '-' |
| `Numbers.ParseInt32` | FansubFileParsers.cs:60 | `int.Parse` returns exactly when `int.TryParse` succeeds, with the same number; otherwise it throws `FormatException` on text that is not a number and `OverflowException` on a number out of range |
| `Numbers.ParseDigits` | FansubFileParsers.cs:60 | `int.Parse` of a run of digits is its value, or `OverflowException` beyond `int.MaxValue` |
| `Numbers.ParseDecimal` | FansubFileParsers.cs:60 | formatting a 32-bit non-negative number and parsing it back gives the number |
| `FansubFiles.Equals` | FansubFile.cs:79-85 | `Equals(FansubFile)` holds exactly when the four properties are equal |
| `FansubFiles.EqualsObject` | FansubFile.cs:63-72 | `Equals(object)` is false for null and for other types, and otherwise holds exactly for an equal file |
| `FansubFiles.DeepCopy` | FansubFile.cs:53-56 | the copy equals the original |
| `FansubFileParsers.EnclosedText` | FansubFileParsers.cs:19-23 | the text read between the brackets holds no closing bracket |
| `FansubFileParsers.UpToClose` | FansubFileParsers.cs:21-22 | the text read before the closing bracket holds none |
| `FansubFileParsers.EnclosedTextWithBrackets` | FansubFileParsers.cs:25-29 | the tag read keeps its opening and closing brackets |
| `FansubFileParsers.FileExtension` | FansubFileParsers.cs:46-49 | matches exactly a dot followed by a letter or digit; reads the dot and the longest run of letters and digits |
| `FansubFileParsers.NormalizedFileNameParser` | FansubFileParsers.cs:54-60 | on names whose numeric characters (`char.IsNumber`) are all ASCII digits, the only exception the normalized parser lets out is `OverflowException` from `int.Parse` |
| `FansubFileParsers.EpisodeAndExtension` | FansubFileParsers.cs:56-59 | the episode read between the parentheses is a non-empty run of digits |
| `FansubFileParsers.Tag` | FansubFileParsers.cs:65 | a tag read starts with '[' or '(' and ends with ']' or ')' |
| `FansubFileParsers.TagLexer` | FansubFileParsers.cs:64-65 | the tag lexer always matches, and no tag it reads is empty |
| `FansubFileParsers.GrindTags` | FansubFileParsers.cs:67-71 | the end-tag parser always matches, and no tag it reads is empty |
| `FansubFileParsers.EndTagsRemoved` | FansubFileParsers.cs:86-98 | deleting the end tags never lengthens the name |
| `FansubFileParsers.VersionNumberFromReversedString` | FansubFileParsers.cs:73-77 | a version read is not empty and the parser reads the rest of the line |
| `FansubFileParsers.RemoveEndTags` | FansubFileParsers.cs:86-98 | the loop that deletes each end tag in turn computes `EndTagsRemoved` |
| `FansubFileParsers.RemoveFansubTag` | FansubFileParsers.cs:105-120 | deleting the group tag never lengthens the name |
| `FansubFileParsers.RemoveVersionNumber` | FansubFileParsers.cs:134-149 | deleting the version never lengthens the name |
| `FansubFileParsers.RemoveAllTagsAndExtension` | FansubFileParsers.cs:157-163 | the name without extension and tags is trimmed and no longer than the name |
| `FansubFileParsers.Last` | FansubFileParsers.cs:291 | `Enumerable.Last` returns the last element of a non-empty sequence and throws `InvalidOperationException` on an empty one |
| `FansubFileParsers.GetFansubGroup` | FansubFileParsers.cs:204-219 | the group is the text of a bracket tag, so it lacks ']' or ')' |
| `FansubFileParsers.TryGetEpisodeNumberUsingDashDelimination` | FansubFileParsers.cs:281-293 | throws `InvalidOperationException` exactly on empty text; a number it reads is in the 32-bit range |
| `FansubFileParsers.TryGetEpisodeNumberUsingSpaceDelimination` | FansubFileParsers.cs:261-273 | a number it reads is in the 32-bit range |
| `FansubFileParsers.GetEpisodeNumber` | FansubFileParsers.cs:232-253 | throws `InvalidOperationException` exactly when nothing is left of the name once its extension, tags and version are removed; the episode is a 32-bit number |
| `FansubFileParsers.SeriesNameByDashes` | FansubFileParsers.cs:346-381 | throws `InvalidOperationException` exactly on empty text; a series it reads is trimmed |
| `FansubFileParsers.TryGetSeriesNameUsingDashDelimination` | FansubFileParsers.cs:346-381 | the StringBuilder loop, which joins the lines before the last with dashes, computes `SeriesNameByDashes` |
| `FansubFileParsers.SeriesNameBySpaces` | FansubFileParsers.cs:390-414 | a series it reads is trimmed |
| `FansubFileParsers.NumberPiece` | FansubFileParsers.cs:401-403 | the piece given is the last one, and `int.TryParse` accepts it |
| `FansubFileParsers.TryGetSeriesNameUsingSpaceDelimination` | FansubFileParsers.cs:390-427 | reports success exactly when `SeriesNameBySpaces` finds a series, and gives that series; otherwise its StringBuilder holds all the pieces, trimmed |
| `FansubFileParsers.GetAnimeSeriesName` | FansubFileParsers.cs:315-338 | throws `InvalidOperationException` exactly when nothing is left of the name once its extension, tags and version are removed; the series is trimmed |
| `FansubFileParsers.ParseFansubFile` | FansubFileParsers.cs:174-195 | gives no file (the source's null) exactly for a blank name |
| `FansubProperties.EnclosedTextIs` | FansubFileParsers.cs:19-23 | white space, an opening bracket, text without the closing bracket, the closing bracket: that text is read, and the white space after it skipped |
| `FansubProperties.EnclosedTextRejects` | FansubFileParsers.cs:19-23 | a text that does not start with the opening bracket, after its white space, has no bracket tag |
| `FansubProperties.UpToCloseIs` | FansubFileParsers.cs:21-22 | text without the closing bracket, then the closing bracket: the text is read and the bracket consumed |
| `FansubProperties.EnclosedTextMatches` | FansubFileParsers.cs:19-23 | a bracket tag matches exactly when the text, after its white space, starts with the opening bracket and the closing bracket occurs after it; the value is the text up to the first closing bracket |
| `FansubProperties.UpToCloseMatches` | FansubFileParsers.cs:21-22 | the text up to the closing bracket is read exactly when a closing bracket occurs |
| `FansubProperties.GroupInSquareBrackets` | FansubFileParsers.cs:206-209 | the group of a name that starts with `[group]` is `group`, dashes included |
| `FansubProperties.GroupInParentheses` | FansubFileParsers.cs:212-215 | the group of a name that starts with `(group)` is `group` |
| `FansubProperties.NoGroup` | FansubFileParsers.cs:218 | a name that starts with neither bracket has an empty group |
| `FansubProperties.SeriesRead` | FansubFileParsers.cs:56-57 | in a normalized name the series run reads the series and the space before '(', and trimming gives the series back |
| `FansubProperties.EpisodeAndExtensionIs` | FansubFileParsers.cs:56-59 | "(digits).ext" is read whole, as the digits and ".ext" |
| `FansubProperties.ExtensionIs` | FansubFileParsers.cs:46-49 | a dot followed by letters and digits is read whole as an extension |
| `FansubProperties.NormalizedFileNameIs` | FansubFileParsers.cs:54-60 | `Series (digits).ext` is read as group "", the series, the value of the digits and `.ext`, or throws `OverflowException` beyond `int.MaxValue` |
| `FansubProperties.NormalizedRoundTrip` | FansubFileParsers.cs:54-60 | formatting a file in the normalized form and parsing it back gives the file, through both `NormalizedFileNameParser` and `ParseFansubFile` |
| `FansubProperties.NormalizedOverflow` | FansubFileParsers.cs:60 | a normalized name whose episode exceeds `int.MaxValue` makes `ParseFansubFile` throw `OverflowException` |
| `FansubProperties.ParseViaNormalized` | FansubFileParsers.cs:181-185 | for a name that is not blank, the file or exception of the normalized parser is what `ParseFansubFile` gives |
| `FansubHeuristics.ParseViaHeuristics` | FansubFileParsers.cs:187-194 | a name the normalized parser does not read is decomposed by the heuristics on the name with its underscores made spaces; it throws exactly when nothing is left of it |
| `FansubHeuristics.ParseExceptions` | FansubFileParsers.cs:174-195 | on names whose numeric characters (`char.IsNumber`) are all ASCII digits, `ParseFansubFile` throws exactly when the normalized parser overflows, or when it does not match and nothing is left of the name; the exceptions are `OverflowException` and `InvalidOperationException` respectively |
| `FansubHeuristics.NoDigitsNoEpisode` | FansubFileParsers.cs:232-253 | a name without digits gets episode `int.MinValue`, and the series is the name without extension and tags |
| `FansubHeuristics.DigitlessIsNoNumber` | FansubFileParsers.cs:261-293 | text without digits gives no number at the dashes or at the spaces |
| `FansubHeuristics.VersionRemoved` | FansubFileParsers.cs:134-149 | a name ending in `v` and digits loses that ending exactly when the digits read the same both ways, as a one-digit version does |
| `FansubHeuristics.VersionRead` | FansubFileParsers.cs:137-142 | the version read from the reversed name is `v` and the digits reversed |
| `FansubHeuristics.VersionDeleted` | FansubFileParsers.cs:145 | deleting `v` and the reversed digits removes the ending exactly when the digits read the same both ways |
| `FansubHeuristics.DashSplit` | FansubFileParsers.cs:281-293 | text `front-back` with single dashes: the episode is `back` as a number, and when it is one, the series is `front` trimmed, with its dashes kept |
| `FansubHeuristics.StrippedNoneIn` | FansubFileParsers.cs:157-163 | removing the extension, the tags and the version number brings in no character |
| `FansubHeuristics.GroupNoneIn` | FansubFileParsers.cs:204-219 | the group holds only characters of the name |
| `FansubHeuristics.SeriesNoneIn` | FansubFileParsers.cs:315-338 | the series holds only characters of the name, spaces and dashes |
| `FansubHeuristics.HeuristicFieldsNoneIn` | FansubFileParsers.cs:187-194 | a character class absent from the name, spaces and dashes is absent from the group, the series and the extension |
| `FansubHeuristics.NoUnderscores` | FansubFileParsers.cs:187 | a file read by the heuristics has no underscore in its group, series or extension |
| `EndTags.TagRemoved` | FansubFileParsers.cs:94 | in text made of pieces where a tag can start only at a bracketed piece, `String.Replace(tag, "")` deletes exactly the pieces spelled as the tag and keeps the others in order |
| `EndTags.TagsRemoved` | FansubFileParsers.cs:91-95 | deleting the tags one after the other deletes every piece spelled as one of them and keeps the others in order |
| `EndTags.BracketsRead` | FansubFileParsers.cs:25-29 | a tag in square brackets or in parentheses is read with its brackets, and the white space after it is skipped |
| `EndTags.NoSquareAhead` | FansubFileParsers.cs:25-29 | a tag in parentheses is not read by the square-bracket tag parser |
| `EndTags.TagReadAt` | FansubFileParsers.cs:65 | a tag of either kind followed by white space and then another tag or the end is read with its brackets, and the white space is skipped |
| `EndTags.TagsLexed` | FansubFileParsers.cs:64-65 | the tag lexer reads a whole run of end tags, each with its brackets, in order, and leaves nothing |
| `EndTags.NoGroupAhead` | FansubFileParsers.cs:68 | no leading tag is read from text that starts, after its white space, with neither '[' nor '(' |
| `EndTags.UpToTags` | FansubFileParsers.cs:69 | the text run stops exactly at the first '[' or '(' |
| `EndTags.TagsGround` | FansubFileParsers.cs:67-71 | on text without '[' or '(' followed by a run of end tags, `GrindTags` returns every tag of the run, in order, with its brackets |
| `EndTags.EndTagsDeleted` | FansubFileParsers.cs:86-98 | on such text, deleting the end tags removes every tag and keeps the text and the white space between the tags |
| `EndTags.LeadingTagDeleted` | FansubFileParsers.cs:108-117 | deleting a leading tag that no end tag spells the same removes that tag only |
| `EndTags.GroupTagDeleted` | FansubFileParsers.cs:105-120 | `RemoveFansubTag` reads the leading tag, in square brackets or in parentheses, and deletes it and nothing else |
| `FansubNames.NameSplit` | FansubFileParsers.cs:192 | the extension of a name is "." and the text after its last dot, and the name without extension is everything before that dot |
| `FansubNames.GroupRead` | FansubFileParsers.cs:204-219 | the group of a name is the text of its leading tag, in square brackets or in parentheses |
| `FansubNames.GroupOf` | FansubFileParsers.cs:204-219 | the group of text that starts with a tag is the text of that tag, whatever follows |
| `FansubNames.GroupTagOff` | FansubFileParsers.cs:105-120 | `RemoveFansubTag` deletes the group tag from the name without extension and keeps the rest |
| `FansubNames.BodyLeft` | FansubFileParsers.cs:162 | the text between the group tag and the extension, without its end tags, trims to the title |
| `FansubNames.TitleLeft` | FansubFileParsers.cs:157-163 | the name without extension, group tag and end tags is exactly the title |
| `FansubNames.NotNormalized` | FansubFileParsers.cs:54-60 | a name without '(' is not read by the normalized parser |
| `FansubNames.StartsWithParenthesis` | FansubFileParsers.cs:55 | a name that starts with '(' has no series, so the normalized parser does not read it |
| `FansubNames.NoEpisode` | FansubFileParsers.cs:56-59 | '(' followed by digits and then by a character that is neither a digit nor, after at least one digit, ')' is no "(N).ext" |
| `FansubNames.NormalizedRejects` | FansubFileParsers.cs:54-60 | a name whose series runs up to its first '(' and whose "(" is not followed by digits and ')' is not read by the normalized parser |
| `FansubNames.NormalizedRejectsUnderscored` | FansubFileParsers.cs:54-60 | the normalized parser rejects a name as written when it rejects it with its underscores made spaces, by the same conditions |
| `FansubNames.NameNotNormalized` | FansubFileParsers.cs:176-185 | a name of the frame, with or without underscores, is not blank and is not read by the normalized parser |
| `FansubNames.NameRead` | FansubFileParsers.cs:174-195 | a name of the frame parses to its group, the series and episode read from its title, and "." and its extension; it throws exactly when its title is only a version |
| `FansubTitles.DashTitleUnversioned` | FansubFileParsers.cs:134-149 | `RemoveVersionNumber` keeps "series - 05", and deletes the `vN` of "series - 05vN" or "series - 05 vN" when N reads the same both ways |
| `FansubTitles.DashNoVersion` | FansubFileParsers.cs:134-149 | "series - 05" carries no version and is kept |
| `FansubTitles.DashVersion` | FansubFileParsers.cs:134-149 | a version of digits that read the same both ways is deleted from "series - 05vN", and a space before it is kept |
| `FansubTitles.DigitsAfterSpace` | FansubFileParsers.cs:134-149 | text ending in a space and digits carries no version and is kept |
| `FansubTitles.LetterBeforeDigits` | FansubFileParsers.cs:137-142 | backwards, digits followed by a letter other than 'v' or 'V' are no version |
| `FansubTitles.WordNoVersion` | FansubFileParsers.cs:134-149 | "series - SP01" carries no version and is kept |
| `FansubTitles.DashRead` | FansubFileParsers.cs:281-381 | on "series - 05", the dash split gives episode 5 and series "series", dashes inside the series kept |
| `FansubTitles.DashTitleRead` | FansubFileParsers.cs:232-338 | a name whose title is "series - 05", with or without a version, gets that series and that episode |
| `FansubTitles.Without` | FansubFileParsers.cs:406 | the pieces other than the number, each of them a piece of the input, and all of them when the number is none |
| `FansubTitles.SpaceTerminatedWithout` | FansubFileParsers.cs:405-409 | the loop that skips every piece equal to the number gives the other pieces, each followed by a space |
| `FansubTitles.SpaceTerminatedJoin` | FansubFileParsers.cs:405-412 | pieces each followed by a space are the pieces joined with spaces and one more space |
| `FansubTitles.SpaceSplit` | FansubFileParsers.cs:390-414 | on text that trims to "front 05", the space split gives episode 5 and, as series, the words of front other than "05", joined and trimmed |
| `FansubTitles.SpaceSplitWhole` | FansubFileParsers.cs:390-414 | when no word of front is the number, the series at the spaces is front trimmed |
| `FansubTitles.OneLine` | FansubFileParsers.cs:281-293 | text without a dash is one line: its episode at the dashes is `int.TryParse` of the text, and a series is found exactly then |
| `FansubTitles.NoNumberAtDash` | FansubFileParsers.cs:281-293 | "front 05" with no dash in front gives no number and no series at the dashes |
| `FansubTitles.DashesAgree` | FansubFileParsers.cs:281-381 | on non-empty text the dash split finds a series exactly when it finds an episode |
| `FansubTitles.SpacesAgree` | FansubFileParsers.cs:261-414 | the space split finds a series exactly when it finds an episode |
| `FansubTitles.SpaceTitleRead` | FansubFileParsers.cs:232-338 | a name whose title is "front 05", without a dash, gets episode 5 and the words of front other than "05" as series |
| `FansubTitles.NoNumberRead` | FansubFileParsers.cs:232-338 | when neither split finds a number, the series is the name without extension and tags, trimmed, and the episode is `int.MinValue` |
| `FansubTitles.WordTitleNoNumber` | FansubFileParsers.cs:246-250 | "series - SP01" keeps its text through version removal and gives no number at the dashes or at the spaces |
| `ParseShapes.SpelledNoUnderscore` | FansubFileParsers.cs:187 | a name with plain text in its parts has no underscore, so making underscores spaces keeps it |
| `ParseShapes.DashNameParsed` | FansubFileParsers.cs:174-195 | every name whose title is "series - 05", with or without a version, parses to (group, series, 5, ".ext") |
| `ParseShapes.SpaceNameParsed` | FansubFileParsers.cs:174-195 | every name whose title is "front 05" parses to (group, the words of front other than "05", 5, ".ext"), and to front itself as series when no word of it is "05" |
| `ParseShapes.WordNameParsed` | FansubFileParsers.cs:174-195 | every name whose title is "series - SP01" parses to (group, the whole title, `int.MinValue`, ".ext") |
| `FansubFileParsersExamples.AhoTakuRow` | UnitTests/FansubFileParsersTests.cs:14 | "[Aho-Taku] Sakurasou no Pet na Kanojo - 18 [720p-Hi10P][1D8F695D].mkv" parses to ("Aho-Taku", "Sakurasou no Pet na Kanojo", 18, ".mkv") |
| `FansubFileParsersExamples.MazuiRow` | UnitTests/FansubFileParsersTests.cs:15 | "[Mazui]_Boku_Ha_Tomodachi_Ga_Sukunai_NEXT_-_05_[12F80420].mkv" parses to ("Mazui", "Boku Ha Tomodachi Ga Sukunai NEXT", 5, ".mkv") |
| `FansubFileParsersExamples.AnimeKoiRow` | UnitTests/FansubFileParsersTests.cs:16 | "[Anime-Koi] GJ-bu - 05 [h264-720p][E533CA00].mkv" parses to ("Anime-Koi", "GJ-bu", 5, ".mkv") |
| `FansubFileParsersExamples.WhyNotRow` | UnitTests/FansubFileParsersTests.cs:17 | "[WhyNot] Mayo Chiki - 10 [D1DA2637].mkv" parses to ("WhyNot", "Mayo Chiki", 10, ".mkv") |
| `FansubFileParsersExamples.HorribleSubsRow` | UnitTests/FansubFileParsersTests.cs:18 | "[HorribleSubs] Boku no Imouto wa Osaka Okan - 01 [720p].mkv" parses to ("HorribleSubs", "Boku no Imouto wa Osaka Okan", 1, ".mkv") |
| `FansubFileParsersExamples.CommieRow` | UnitTests/FansubFileParsersTests.cs:19-20 | "[Commie] Ore no Kanojo to Osananajimi ga Shuraba Sugiru - My Girlfriend and Childhood Friend Fight Too Much - 02 [F5ECCCC2].mkv" parses to ("Commie", the title before its last dash, 2, ".mkv") |
| `FansubFileParsersExamples.DokiRow` | UnitTests/FansubFileParsersTests.cs:21-22 | "[Doki] Onii-chan Dakedo Ai Sae Areba Kankeinai yo ne - 01 (1280x720 Hi10P AAC) [B66EEF09].mkv" parses to ("Doki", "Onii-chan Dakedo Ai Sae Areba Kankeinai yo ne", 1, ".mkv") |
| `FansubFileParsersExamples.FffRow` | UnitTests/FansubFileParsersTests.cs:23 | "[FFF] Highschool DxD - SP01 [BD][1080p-FLAC][5D929653].mkv" parses to ("FFF", "Highschool DxD - SP01", `int.MinValue`, ".mkv") |
| `FansubFileParsersExamples.EveyuuRow` | UnitTests/FansubFileParsersTests.cs:24 | "[Eveyuu] Sankarea 00 [DVD Hi10P 480p H264] [4219AF02].mkv" parses to ("Eveyuu", "Sankarea", 0, ".mkv") |
| `FansubFileParsersExamples.GgRow` | UnitTests/FansubFileParsersTests.cs:25 | "[gg]_Sasami-san@Ganbaranai_-_05_[6C2060E1].mkv" parses to ("gg", "Sasami-san@Ganbaranai", 5, ".mkv") |
| `FansubFileParsersExamples.RaxRow` | UnitTests/FansubFileParsersTests.cs:26 | "[RaX]Strawberry_Panic_-_01_[No_Dub]_(x264_ogg)_[F4EAA441].mkv" parses to ("RaX", "Strawberry Panic", 1, ".mkv") |
| `FansubFileParsersExamples.BARow` | UnitTests/FansubFileParsersTests.cs:27 | "(B-A)Devilman_Lady_-_01_(2E088B82).mkv" parses to ("B-A", "Devilman Lady", 1, ".mkv") |
| `FansubFileParsersExamples.AnimeKoiVersionRow` | UnitTests/FansubFileParsersTests.cs:28 | "[Anime-Koi] GJ-bu - 06v2 [h264-720p][DAC4ACFA].mkv" parses to ("Anime-Koi", "GJ-bu", 6, ".mkv") |
| `FansubFileParsersExamples.LunarRow` | UnitTests/FansubFileParsersTests.cs:29 | "[Lunar] Bleach - 05 v2 [F2C9454F].avi" parses to ("Lunar", "Bleach", 5, ".avi") |
| `BaseGrammarsExamples.RunParserAlone` | UnitTests/BaseGrammarsTests.cs:29 | `Underscore` and `Dash` read "_" and "-" |
| `BaseGrammarsExamples.RunParserBeforeLetter` | UnitTests/BaseGrammarsTests.cs:30 | they read "_" of "_A_" and "-" of "-A-" |
| `BaseGrammarsExamples.RunParserTwice` | UnitTests/BaseGrammarsTests.cs:31 | they read all of "__" and "--" |
| `BaseGrammarsExamples.BracketParserAlone` | UnitTests/BaseGrammarsTests.cs:55-94 | the bracket parsers read their bracket alone |
| `BaseGrammarsExamples.BracketParserBeforeLetter` | UnitTests/BaseGrammarsTests.cs:56-95 | they read the first bracket of "(A(", ")A)", "[A[" and "]A]" |
| `BaseGrammarsExamples.BracketParserTwice` | UnitTests/BaseGrammarsTests.cs:57-96 | they read one bracket of "((", "))", "[[" and "]]" |
| `BaseGrammarsExamples.LineParser` | UnitTests/BaseGrammarsTests.cs:108-112 | `Line` reads each of the five rows whole, white space included |
| `BaseGrammarsExamples.IdentifierWhole` | UnitTests/BaseGrammarsTests.cs:121-125 | `Identifier` reads "name" |
| `BaseGrammarsExamples.IdentifierBeforeUnderscores` | UnitTests/BaseGrammarsTests.cs:127-131 | `Identifier` reads "name" of "name__k" |
| `BaseGrammarsExamples.UntilRow` | UnitTests/BaseGrammarsTests.cs:140-182 | letters, one separator and text not starting with it: the strict and `OrFullWord` forms read the letters |
| `BaseGrammarsExamples.IdentifierUntilLeading` | UnitTests/BaseGrammarsTests.cs:140-180 | rows "_hello" and "-hello" read "" |
| `BaseGrammarsExamples.IdentifierUntilMiddle` | UnitTests/BaseGrammarsTests.cs:141-181 | rows "hello_world" and "hello-world" read "hello" |
| `BaseGrammarsExamples.IdentifierUntilTrailing` | UnitTests/BaseGrammarsTests.cs:142-182 | rows "helloworld_" and "helloworld-" read "helloworld" |
| `BaseGrammarsExamples.IdentifierUntilOrFullWordSpace` | UnitTests/BaseGrammarsTests.cs:156-183 | the `OrFullWord` forms read "hello" of "hello world" |
| `BaseGrammarsExamples.LineRow` | UnitTests/BaseGrammarsTests.cs:195-316 | text without the separator, a separator and the rest: the strict and `OrFullLine` forms read the text |
| `BaseGrammarsExamples.LineUntilLeading` | UnitTests/BaseGrammarsTests.cs:195-313 | rows with a leading separator read "" |
| `BaseGrammarsExamples.LineUntilMiddle` | UnitTests/BaseGrammarsTests.cs:196-314 | rows "hello?world" read "hello" |
| `BaseGrammarsExamples.LineUntilTrailing` | UnitTests/BaseGrammarsTests.cs:197-316 | rows "helloworld?" read "helloworld" and rows "hello world?" read "hello world", by the strict and the `OrFullLine` forms |
| `BaseGrammarsExamples.LineUntilOrFullLineWhole` | UnitTests/BaseGrammarsTests.cs:212-241 | the `OrFullLine` forms read "hello world" whole |
| `BaseGrammarsExamples.LineUntilOrFullLineTrailingSpace` | UnitTests/BaseGrammarsTests.cs:213-317 | the `OrFullLine` forms read "hello world " whole |
| `BaseGrammarsExamples.WholeLineRow` | UnitTests/BaseGrammarsTests.cs:212-317 | the `OrFullLine` forms read any non-empty text without the separator whole |
| `BaseGrammarsExamples.BracketLineRow` | UnitTests/BaseGrammarsTests.cs:281-288 | `LineUntilSquareBracketOrParenthesis` reads the text before the only bracket |
| `BaseGrammarsExamples.SquareBracketOrParenthesisLeading` | UnitTests/BaseGrammarsTests.cs:281-285 | rows "(hello" and "[hello" read "" |
| `BaseGrammarsExamples.SquareBracketOrParenthesisMiddle` | UnitTests/BaseGrammarsTests.cs:282-286 | rows "hello(world" and "hello[world" read "hello" |
| `BaseGrammarsExamples.SquareBracketOrParenthesisTrailing` | UnitTests/BaseGrammarsTests.cs:283-288 | rows "helloworld(" and "helloworld[" read "helloworld", and rows "hello world(" and "hello world[" read "hello world" |
| `BaseGrammarsExamples.LinesAround` | UnitTests/BaseGrammarsTests.cs:385-416 | the lines of two texts around one separator, put together, are the two texts |
| `BaseGrammarsExamples.LinesAfterSeparator` | UnitTests/BaseGrammarsTests.cs:385-411 | rows "_hello world" and "-hello world" give "hello world" |
| `BaseGrammarsExamples.LinesAroundSpacedSeparator` | UnitTests/BaseGrammarsTests.cs:386-412 | rows " hello _ world" and " hello - world" give " hello  world" |
| `BaseGrammarsExamples.LinesWithoutSeparator` | UnitTests/BaseGrammarsTests.cs:387-413 | row "hello world" gives itself |
| `BaseGrammarsExamples.LinesBeforeSeparator` | UnitTests/BaseGrammarsTests.cs:388-414 | rows "hello world_" and "hello world-" give "hello world" |
| `BaseGrammarsExamples.LinesAfterSeparators` | UnitTests/BaseGrammarsTests.cs:389-415 | rows "_hello_world" and "-hello-world" give "helloworld" |
| `BaseGrammarsExamples.LinesSplitBySeparator` | UnitTests/BaseGrammarsTests.cs:390-416 | rows "hello_world" and "hello-world" give "helloworld" |
| `BaseGrammarsExamples.ReadAll` | UnitTests/BaseGrammarsTests.cs:330-362 | input of words, white space and separators, where white space after a separator leads up to a word, gives all its letters |
| `BaseGrammarsExamples.WordsAfterSeparator` | UnitTests/BaseGrammarsTests.cs:330-357 | rows "_hello world" and "-hello world", for any two words, give the two words |
| `BaseGrammarsExamples.WordsAroundSpacedSeparator` | UnitTests/BaseGrammarsTests.cs:331-358 | rows " hello _ world" and " hello - world", for any two words, give the two words |
| `BaseGrammarsExamples.WordsSplitBySpace` | UnitTests/BaseGrammarsTests.cs:332-359 | row "hello world", for any two words, gives the two words |
| `BaseGrammarsExamples.WordsBeforeSeparator` | UnitTests/BaseGrammarsTests.cs:333-360 | rows "hello world_" and "hello world-", for any two words, give the two words |
| `BaseGrammarsExamples.WordsAfterSeparators` | UnitTests/BaseGrammarsTests.cs:334-361 | rows "_hello_world" and "-hello-world", for any two words, give the two words |
| `BaseGrammarsExamples.WordsSplitBySeparator` | UnitTests/BaseGrammarsTests.cs:335-362 | rows "hello_world" and "hello-world", for any two words, give the two words |
| `FansubFileParsersExamples.NormalizedRow` | UnitTests/FansubFileParsersTests.cs:47-55 | a series of letters and dashes followed by " (1).mkv" is read as group "", that series, episode 1 and ".mkv" |
| `FansubFileParsersExamples.NormalizedHello` | UnitTests/FansubFileParsersTests.cs:47 | "Hello (1).mkv" is read as ("", "Hello", 1, ".mkv") |
| `FansubFileParsersExamples.NormalizedHelloKitty` | UnitTests/FansubFileParsersTests.cs:48 | "Hello-kitty (1).mkv" is read as ("", "Hello-kitty", 1, ".mkv") |

## Left out

- Character classes: letters and digits are ASCII only. `char.IsLetter` (`Parse.Letter`),
  `char.IsDigit` (`Parse.Digit`) and `char.IsNumber` (`Parse.Numeric`, and so `Parse.Number`)
  also accept other Unicode characters. `char.IsNumber` is the widest of these: it also holds
  '½', '²', 'Ⅻ' and the full-width digits. The model therefore also differs on where
  `LineUntilDigit` (`BaseGrammars.cs:43`) stops on such characters. White space is
  `char.IsWhiteSpace` in full.
- `FansubFileParsers.NormalizedFileNameParser`: `FormatException` on non-ASCII numeric
  characters is not modelled. `Parse.Number` reads every `char.IsNumber` character, so in
  `Show (½).mkv` or `Show (１).mkv` the parser matches `(½)` or `(１)`. `int.Parse` accepts
  only ASCII digits and throws `FormatException` (`FansubFileParsers.cs:60`). The model's
  numeric characters are ASCII digits, so it gives no match there instead. The contract holds
  for names whose numeric characters (`char.IsNumber`) are all ASCII digits.
- `FansubHeuristics.ParseExceptions`: `FormatException` on non-ASCII numeric characters is not
  modelled. It passes from the normalized parser out of `ParseFansubFile`
  (`FansubFileParsers.cs:181-185`). The stated exceptions and throw condition hold for names
  whose numeric characters (`char.IsNumber`) are all ASCII digits.
- `int.Parse` and `int.TryParse` follow `NumberStyles.Integer` with the invariant culture:
  white space, an optional sign, ASCII digits and white space. Culture-specific signs and
  digits are not modelled. Trailing '\0' characters, which .NET also accepts after the
  number ("12\0" reads as 12), are not modelled either: a file name cannot hold NUL.
- A null file name is not modelled; strings are never null. `ParseFansubFile` returns
  `None` where the source returns null for a blank name.
- `Path.GetExtension` and `Path.GetFileNameWithoutExtension` split at '\\', '/' and ':'.
  The `ArgumentException` they throw on invalid path characters is not modelled.
- `FansubFile.GetHashCode` is left out: string hash codes are not specified by .NET.
- The test harness (MSTest, `Assert`, the StringBuilder loops of the tests) is not
  modelled. The tests compare the concatenation of the lexers' tokens, and the model states
  that concatenation with `Concat`.
- The directory walking, file moving and console output of the command-line program are
  I/O and are left out.
- Where a parser matches, the model gives the value and the rest of the input. Sprache's
  reply also carries positions and error messages, which the library never reads.
- `BaseGrammars.IdentifiersReadAll`: states a sufficient condition for the identifier lexer
  to read all of its input, not an exact one. `IdentifiersStopAtWhiteSpace` states the case
  in which it stops early.
- `Text.Keep`: its contract states only a length bound. What it keeps is stated by the
  lemmas about it (`KeepAppend`, `KeepAll`, `KeepNone`).
- `FansubFileParsers.Tag`: its contract states only the brackets a tag starts and ends
  with. What it reads is stated by `EndTags.TagReadAt` and `EndTags.BracketsRead`.
- `FansubFileParsers.TagLexer`: its contract states only that it matches with no empty tag.
  What it reads from a run of tags is stated by `EndTags.TagsLexed`.
- `FansubFileParsers.GrindTags`: its contract states only that it matches with no empty tag.
  The tags it returns are stated by `EndTags.TagsGround`.
- `FansubFileParsers.EndTagsRemoved`: its contract states only a length bound. What it
  removes is stated by `EndTags.EndTagsDeleted`, `EndTags.TagsRemoved` and
  `EndTags.TagRemoved`.
- `FansubFileParsers.RemoveFansubTag`: its contract states only a length bound. What it
  removes is stated by `EndTags.GroupTagDeleted` and `FansubNames.GroupTagOff`.
- `FansubFileParsers.RemoveVersionNumber`: its contract states only a length bound. What it
  removes is stated by `FansubHeuristics.VersionRemoved`, `FansubTitles.DashTitleUnversioned`,
  `FansubTitles.DigitsAfterSpace` and `FansubTitles.WordNoVersion`.
- `FansubFileParsers.RemoveAllTagsAndExtension`: its contract states only that the result is
  trimmed and no longer than the name. What it leaves is stated by `FansubNames.TitleLeft`.
- `FansubFileParsers.TryGetEpisodeNumberUsingSpaceDelimination`: its contract states only the
  32-bit range. The number it reads is stated by `FansubTitles.SpaceSplit` and
  `FansubTitles.SpacesAgree`.
- `FansubFileParsers.SeriesNameBySpaces`: its contract states only that the series is trimmed.
  The series it reads is stated by `FansubTitles.SpaceSplit` and `FansubTitles.SpaceSplitWhole`.
- `FansubFileParsers.TryGetSeriesNameUsingSpaceDelimination`: its contract ties the loop to
  `SeriesNameBySpaces` and no more. What that series is is stated by `FansubTitles.SpaceSplit`.
- `FansubFileParsers.GetEpisodeNumber`: its contract states only when it throws and the
  32-bit range. The episode is stated by `FansubTitles.DashTitleRead`,
  `FansubTitles.SpaceTitleRead` and `FansubTitles.NoNumberRead`.
- `FansubFileParsers.GetAnimeSeriesName`: its contract states only when it throws and that
  the series is trimmed. The series is stated by `FansubTitles.DashTitleRead`,
  `FansubTitles.SpaceTitleRead` and `FansubTitles.NoNumberRead`.
- `FansubFileParsers.ParseFansubFile`: its contract states only when it returns no file. The
  file it returns is stated by `FansubProperties.ParseViaNormalized`,
  `FansubHeuristics.ParseViaHeuristics`, `FansubNames.NameRead` and the `ParseShapes`
  lemmas, for names of the shapes they describe, not for every name.
- `FansubFiles.Equals`: `Equals(FansubFile)` dereferences its argument
  (`File Name Parser/FansubFile.cs:81`) and throws `NullReferenceException` on null. The
  model has no null file, so that exception is not modelled.
