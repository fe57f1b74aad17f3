/** The tags of a fansub file name: bracketed text such as "[720p]" or "(x264 ogg)". A name
    is written here as a sequence of pieces, plain text and tags, and the lemmas say what
    the tag lexers read from such a name and what deleting its tags leaves of it. */
module EndTags {
  import opened Text
  import opened Combinators
  import opened FansubFileParsers
  import opened FansubProperties

  /** The characters no part of a name holds: the brackets and parentheses tags are read by,
      the dot before the extension, path separators, and the underscore, which
      ParseFansubFile makes a space before the heuristics run. */
  predicate Special(c: char) {
    c == '[' || c == ']' || c == '(' || c == ')' || c == '.' || c == '_' || In(PathSeparator, c)
  }

  /** Text that holds no special character. */
  predicate Plain(s: string) {
    forall i :: 0 <= i < |s| ==> !Special(s[i])
  }

  /** The characters plain text lacks, one class at a time. */
  lemma PlainFacts(s: string)
    requires Plain(s)
    ensures NoneIn(Is('['), s) && NoneIn(Is(']'), s) && NoneIn(Is('('), s) && NoneIn(Is(')'), s)
    ensures NoneIn(Either('[', '('), s) && NoneIn(Either('[', ']'), s)
    ensures NoneIn(Is('.'), s) && NoneIn(PathSeparator, s) && NoneIn(Is('_'), s)
  {
  }

  /** Digits are none of the characters a name is taken apart at. */
  lemma DigitsArePlain(ds: string)
    requires AllIn(Digit, ds)
    ensures Plain(ds) && NoneIn(Is('-'), ds) && NoneIn(Is(' '), ds) && NoneIn(Is('v'), ds)
    ensures NoneIn(WhiteSpace, ds)
  {
  }

  /** Plain text joined to plain text is plain. */
  lemma PlainAppend(a: string, b: string)
    requires Plain(a) && Plain(b)
    ensures Plain(a + b)
  {
    forall i | 0 <= i < |a + b| ensures !Special((a + b)[i]) {
      if i >= |a| {
        assert (a + b)[i] == b[i - |a|];
      }
    }
  }

  // ---------------------------------------------------------------- tags

  /** Square brackets or parentheses. */
  datatype Bracket = Square | Round

  function Open(b: Bracket): char {
    if b == Square then '[' else '('
  }

  function Close(b: Bracket): char {
    if b == Square then ']' else ')'
  }

  /** "[text]" or "(text)": the spelling of a tag. */
  function Enclose(b: Bracket, text: string): (t: string)
    ensures |t| == |text| + 2 && t[0] == Open(b) && t[|t| - 1] == Close(b) && t[1..|t| - 1] == text
  {
    [Open(b)] + text + [Close(b)]
  }

  /** A tag: an opening bracket or parenthesis, plain text, and a closing one. */
  predicate IsTag(t: string) {
    |t| >= 2 && (t[0] == '[' || t[0] == '(') && (t[|t| - 1] == ']' || t[|t| - 1] == ')') &&
    Plain(t[1..|t| - 1])
  }

  /** Two different tags differ at a position both of them have: the closing character of
      the shorter one faces plain text in the longer one. */
  lemma TagMismatch(a: string, t: string) returns (j: nat)
    requires IsTag(a) && IsTag(t) && a != t
    ensures j < |a| && j < |t| && a[j] != t[j]
  {
    if |a| == |t| {
      assert exists i :: 0 <= i < |a| && a[i] != t[i];
      var i :| 0 <= i < |a| && a[i] != t[i];
      j := i;
    } else if |a| < |t| {
      j := |a| - 1;
      assert t[j] == t[1..|t| - 1][j - 1];
    } else {
      j := |t| - 1;
      assert a[j] == a[1..|a| - 1][j - 1];
    }
  }

  /** After its first character a tag holds no character a tag starts with. */
  lemma TagTail(a: string, c: char)
    requires IsTag(a) && (c == '[' || c == '(')
    ensures NoneIn(Is(c), a[1..])
  {
    forall i | 0 <= i < |a| - 1 ensures a[1..][i] != c {
      if i < |a| - 2 {
        assert a[1..][i] == a[1..|a| - 1][i];
      }
    }
  }

  // ---------------------------------------------------------------- pieces

  /** A piece of a name: text between tags, or a tag. */
  datatype Piece = Chunk(text: string) | Bracketed(bracket: Bracket, text: string)

  function Spelling(p: Piece): string {
    match p
    case Chunk(t) => t
    case Bracketed(b, t) => Enclose(b, t)
  }

  /** The text the pieces spell, one after the other. */
  function Spell(ps: seq<Piece>): string {
    if ps == [] then [] else Spelling(ps[0]) + Spell(ps[1..])
  }

  /** Text between tags holds no '[' or '(', and a tag holds plain text, so a tag can start
      only where a bracketed piece does. */
  predicate PieceOk(p: Piece) {
    match p
    case Chunk(t) => NoneIn(Either('[', '('), t)
    case Bracketed(_, t) => Plain(t)
  }

  predicate PiecesOk(ps: seq<Piece>) {
    forall i :: 0 <= i < |ps| ==> PieceOk(ps[i])
  }

  /** A piece deleted with the tags of a list: a tag spelled as one of them. */
  predicate Dropped(p: Piece, tags: seq<string>) {
    p.Bracketed? && Spelling(p) in tags
  }

  /** The pieces left once every tag spelled as one of `tags` is deleted. */
  function Kept(ps: seq<Piece>, tags: seq<string>): (r: seq<Piece>)
    ensures |r| <= |ps|
  {
    if ps == [] then []
    else (if Dropped(ps[0], tags) then [] else [ps[0]]) + Kept(ps[1..], tags)
  }

  /** One piece, then the others. */
  lemma SpellCons(p: Piece, ps: seq<Piece>)
    ensures Spell([p] + ps) == Spelling(p) + Spell(ps)
    ensures Kept([p] + ps, []) == [p] + Kept(ps, [])
  {
    assert ([p] + ps)[1..] == ps;
  }

  /** Deleting tags from one piece, then the others. */
  lemma KeptCons(p: Piece, ps: seq<Piece>, tags: seq<string>)
    ensures Kept([p] + ps, tags) == (if Dropped(p, tags) then [] else [p]) + Kept(ps, tags)
  {
    assert ([p] + ps)[1..] == ps;
  }

  /** Deleting no tag keeps every piece. */
  lemma {:induction false} KeptNothing(ps: seq<Piece>)
    ensures Kept(ps, []) == ps
    decreases |ps|
  {
    if ps != [] {
      KeptNothing(ps[1..]);
      SpellCons(ps[0], ps[1..]);
      assert [ps[0]] + ps[1..] == ps;
    }
  }

  /** Deleting tags keeps the other pieces as they were. */
  lemma {:induction false} KeptOk(ps: seq<Piece>, tags: seq<string>)
    requires PiecesOk(ps)
    ensures PiecesOk(Kept(ps, tags))
    decreases |ps|
  {
    if ps != [] {
      KeptOk(ps[1..], tags);
      var head := if ps[0].Bracketed? && Spelling(ps[0]) in tags then [] else [ps[0]];
      assert PieceOk(ps[0]);
      assert Kept(ps, tags) == head + Kept(ps[1..], tags);
    }
  }

  /** Deleting the tags of a list, then one more tag, deletes the tags of the longer list. */
  lemma {:induction false} KeptTwice(ps: seq<Piece>, tags: seq<string>, t: string)
    ensures Kept(Kept(ps, tags), [t]) == Kept(ps, tags + [t])
    decreases |ps|
  {
    if ps != [] {
      var p, k := ps[0], Kept(ps[1..], tags);
      KeptTwice(ps[1..], tags, t);
      assert ps == [p] + ps[1..];
      KeptCons(p, ps[1..], tags);
      KeptCons(p, ps[1..], tags + [t]);
      assert Dropped(p, tags + [t]) <==> Dropped(p, tags) || Dropped(p, [t]);
      if !Dropped(p, tags) {
        KeptCons(p, k, [t]);
        assert Kept(ps, tags) == [p] + k;
        assert Kept(Kept(ps, tags), [t]) == (if Dropped(p, [t]) then [] else [p]) + Kept(k, [t]);
        assert Kept(ps, tags + [t]) == (if Dropped(p, [t]) then [] else [p]) + Kept(ps[1..], tags + [t]);
      } else {
        assert Kept(ps, tags) == k;
        assert Kept(ps, tags + [t]) == Kept(ps[1..], tags + [t]);
      }
    }
  }

  /** Deleting a tag from the text the pieces spell deletes exactly the pieces spelled as
      that tag: it can start nowhere else. */
  lemma {:induction false} TagRemoved(ps: seq<Piece>, t: string)
    requires PiecesOk(ps) && IsTag(t)
    ensures RemoveAll(Spell(ps), t) == Spell(Kept(ps, [t]))
    decreases |ps|
  {
    if ps == [] {
      RemoveAllShort([], t);
    } else {
      var p, rest := ps[0], Spell(ps[1..]);
      TagRemoved(ps[1..], t);
      assert PieceOk(p);
      match p
      case Chunk(c) =>
        assert NoneIn(Is(t[0]), c);
        assert Spell(ps) == c + rest && !Dropped(p, [t]);
        assert ps == [p] + ps[1..];
        KeptCons(p, ps[1..], [t]);
        SpellCons(p, Kept(ps[1..], [t]));
        RemoveAllSkip(c, rest, t);
      case Bracketed(b, text) =>
        var a := Enclose(b, text);
        assert Spell(ps) == a + rest;
        assert ps == [p] + ps[1..];
        KeptCons(p, ps[1..], [t]);
        if a == t {
          assert Dropped(p, [t]);
          assert Kept(ps, [t]) == Kept(ps[1..], [t]);
          RemoveAllFront(t, rest);
        } else {
          assert !Dropped(p, [t]);
          assert IsTag(a);
          var j := TagMismatch(a, t);
          TagTail(a, t[0]);
          RemoveAllSkipMismatch(a, rest, t, j);
          SpellCons(p, Kept(ps[1..], [t]));
        }
    }
  }

  /** RemoveEach, which deletes the tags one after the other, deletes from the pieces every
      tag of the list. */
  lemma {:induction false} TagsRemoved(ps: seq<Piece>, tags: seq<string>)
    requires PiecesOk(ps) && forall i :: 0 <= i < |tags| ==> IsTag(tags[i])
    ensures NoEmptyTag(tags)
    ensures RemoveEach(Spell(ps), tags) == Spell(Kept(ps, tags))
    decreases |tags|
  {
    if tags == [] {
      KeptNothing(ps);
    } else {
      var n := |tags| - 1;
      var before, t := tags[..n], tags[n];
      assert before + [t] == tags;
      assert forall i :: 0 <= i < |before| ==> before[i] == tags[i];
      TagsRemoved(ps, before);
      assert t != [] && NoEmptyTag(tags);
      assert RemoveEach(Spell(ps), tags) == RemoveAll(RemoveEach(Spell(ps), before), t);
      KeptOk(ps, before);
      TagRemoved(Kept(ps, before), t);
      KeptTwice(ps, before, t);
    }
  }

  // ---------------------------------------------------------------- end tags

  /** An end tag and the white space after it. */
  datatype EndTag = EndTag(bracket: Bracket, text: string, gap: string)

  predicate EndTagOk(t: EndTag) {
    Plain(t.text) && AllIn(WhiteSpace, t.gap)
  }

  predicate EndTagsOk(tags: seq<EndTag>) {
    forall i :: 0 <= i < |tags| ==> EndTagOk(tags[i])
  }

  /** Each tag, then the white space after it. */
  function Pieces(tags: seq<EndTag>): seq<Piece> {
    if tags == [] then []
    else [Bracketed(tags[0].bracket, tags[0].text), Chunk(tags[0].gap)] + Pieces(tags[1..])
  }

  /** The text of a run of end tags. */
  function TagsText(tags: seq<EndTag>): string {
    Spell(Pieces(tags))
  }

  /** The tags as the lexer reads them: each with its brackets. */
  function TagStrings(tags: seq<EndTag>): (r: seq<string>)
    ensures |r| == |tags|
    ensures forall i :: 0 <= i < |tags| ==> r[i] == Enclose(tags[i].bracket, tags[i].text)
  {
    if tags == [] then [] else [Enclose(tags[0].bracket, tags[0].text)] + TagStrings(tags[1..])
  }

  /** The white space between and after the tags. */
  function Gaps(tags: seq<EndTag>): (r: string)
    ensures EndTagsOk(tags) ==> AllIn(WhiteSpace, r)
  {
    if tags == [] then []
    else
      var r := tags[0].gap + Gaps(tags[1..]);
      assert EndTagsOk(tags) ==> EndTagOk(tags[0]) && EndTagsOk(tags[1..]);
      r
  }

  /** A run of tags is its first tag, the white space after it, and the other tags. */
  lemma TagsTextCons(tags: seq<EndTag>)
    requires tags != []
    ensures TagsText(tags) == Enclose(tags[0].bracket, tags[0].text) + tags[0].gap + TagsText(tags[1..])
    ensures TagsText(tags)[0] == Open(tags[0].bracket)
  {
    var b, c, rest := Bracketed(tags[0].bracket, tags[0].text), Chunk(tags[0].gap), Pieces(tags[1..]);
    assert ([b, c] + rest)[1..] == [c] + rest;
    SpellCons(c, rest);
  }

  lemma {:induction false} PiecesAreOk(tags: seq<EndTag>)
    requires EndTagsOk(tags)
    ensures PiecesOk(Pieces(tags))
    decreases |tags|
  {
    if tags != [] {
      PiecesAreOk(tags[1..]);
      assert EndTagOk(tags[0]);
      var head := [Bracketed(tags[0].bracket, tags[0].text), Chunk(tags[0].gap)];
      assert PieceOk(head[0]) && PieceOk(head[1]);
      assert Pieces(tags) == head + Pieces(tags[1..]);
    }
  }

  /** A tag is read with its brackets, and the white space after it is skipped. */
  lemma BracketsRead(b: Bracket, text: string, after: string)
    requires Plain(text)
    ensures EnclosedTextWithBrackets(Open(b), Close(b), Enclose(b, text) + after) ==
            Matched(Enclose(b, text), TrimStart(after))
  {
    var s := Enclose(b, text) + after;
    assert s == [] + [Open(b)] + text + [Close(b)] + after;
    assert NoneIn(Is(Close(b)), text);
    EnclosedTextIs(Open(b), Close(b), s, [], text, after);
  }

  /** A tag in parentheses is not read as one in square brackets. */
  lemma NoSquareAhead(text: string, after: string)
    ensures EnclosedTextWithBrackets('[', ']', Enclose(Round, text) + after) == NoMatch
  {
    var s := Enclose(Round, text) + after;
    TrimStartNoWhite(s);
    EnclosedTextRejects('[', ']', s);
  }

  /** Text without '[' or '(' followed by a run of tags is made of well-formed pieces. */
  lemma ChunkThenRun(body: string, tags: seq<EndTag>)
    requires NoneIn(Either('[', '('), body) && EndTagsOk(tags)
    ensures PiecesOk([Chunk(body)] + Pieces(tags))
  {
    var x := Pieces(tags);
    PiecesAreOk(tags);
    assert PieceOk(Chunk(body));
    assert forall i :: 1 <= i < |[Chunk(body)] + x| ==> ([Chunk(body)] + x)[i] == x[i - 1];
  }

  /** Every end tag is read as a tag. */
  lemma TagStringsAreTags(tags: seq<EndTag>)
    requires EndTagsOk(tags)
    ensures forall i :: 0 <= i < |tags| ==> IsTag(TagStrings(tags)[i])
  {
    forall i | 0 <= i < |tags| ensures IsTag(TagStrings(tags)[i]) {
      assert EndTagOk(tags[i]);
    }
  }

  /** The tag reader reads a tag and skips the white space after it. */
  lemma TagReadAt(t: EndTag, rest: string)
    requires EndTagOk(t) && (rest == [] || rest[0] == '[' || rest[0] == '(')
    ensures Tag(Enclose(t.bracket, t.text) + t.gap + rest) == Matched(Enclose(t.bracket, t.text), rest)
  {
    var e, after := Enclose(t.bracket, t.text), t.gap + rest;
    assert e + t.gap + rest == e + after;
    TrimStartIs(after, t.gap, rest);
    BracketsRead(t.bracket, t.text, after);
    if t.bracket == Round {
      NoSquareAhead(t.text, after);
    }
  }

  /** The tag lexer reads a whole run of tags, each with its brackets. */
  lemma {:induction false} TagsLexed(tags: seq<EndTag>)
    requires EndTagsOk(tags)
    ensures TagLexer(TagsText(tags)) == Matched(TagStrings(tags), [])
    decreases |tags|
  {
    if tags == [] {
      assert Tag([]) == NoMatch;
    } else {
      var tail := tags[1..];
      assert EndTagOk(tags[0]) && EndTagsOk(tail);
      TagsTextCons(tags);
      if tail != [] {
        TagsTextCons(tail);
      }
      TagReadAt(tags[0], TagsText(tail));
      TagsLexed(tail);
    }
  }

  /** Leading white space is skipped in front of text that does not start with it too. */
  lemma TrimStartAppend(a: string, x: string)
    requires TrimStart(a) != []
    ensures TrimStart(a + x) == TrimStart(a) + x
  {
    var p := Span(WhiteSpace, a);
    SpanIs(WhiteSpace, a + x, p) by {
      assert (a + x)[..p] == a[..p];
      assert (a + x)[p] == a[p];
    }
    assert (a + x)[p..] == a[p..] + x;
  }

  /** No group tag is read in front of text that starts, after white space, with neither
      '[' nor '('. */
  lemma NoGroupAhead(body: string, x: string)
    requires NoneIn(Either('[', '('), body) && TrimStart(body) != []
    ensures EnclosedText('[', ']', body + x) == NoMatch
  {
    TrimStartAppend(body, x);
    assert TrimStart(body + x)[0] == body[|body| - |TrimStart(body)|];
    EnclosedTextRejects('[', ']', body + x);
  }

  /** The text before the first '[' or '(' is the text without them. */
  lemma UpToTags(body: string, x: string)
    requires NoneIn(Either('[', '('), body) && (x == [] || x[0] == '[' || x[0] == '(')
    ensures Span(But(Any, Either('[', '(')), body + x) == |body|
  {
    AnyButAll(Either('[', '('), body);
    SpanIs(But(Any, Either('[', '(')), body + x, |body|) by {
      assert (body + x)[..|body|] == body;
      assert |x| > 0 ==> (body + x)[|body|] == x[0];
    }
  }

  /** GrindTags on text without '[' or '(', not all white space, followed by a run of tags:
      no group tag is read in front, and the lexer reads every tag of the run. */
  lemma TagsGround(body: string, tags: seq<EndTag>)
    requires NoneIn(Either('[', '('), body) && TrimStart(body) != [] && EndTagsOk(tags)
    ensures GrindTags(body + TagsText(tags)).value == TagStrings(tags)
  {
    var x := TagsText(tags);
    NoGroupAhead(body, x);
    if tags != [] {
      TagsTextCons(tags);
    }
    UpToTags(body, x);
    assert (body + x)[|body|..] == x;
    TagsLexed(tags);
  }

  /** Deleting every tag of the run from the run leaves the white space between them. */
  lemma {:induction false} RunKept(tags: seq<EndTag>, strings: seq<string>)
    requires forall i :: 0 <= i < |tags| ==> Enclose(tags[i].bracket, tags[i].text) in strings
    ensures Spell(Kept(Pieces(tags), strings)) == Gaps(tags)
    decreases |tags|
  {
    if tags != [] {
      var b, c, rest := Bracketed(tags[0].bracket, tags[0].text), Chunk(tags[0].gap), Pieces(tags[1..]);
      assert ([b, c] + rest)[1..] == [c] + rest;
      assert ([c] + rest)[1..] == rest;
      assert Kept([b, c] + rest, strings) == [c] + Kept(rest, strings);
      SpellCons(c, Kept(rest, strings));
      RunKept(tags[1..], strings);
    }
  }

  /** Deleting tags the run does not hold leaves the run as it is. */
  lemma {:induction false} RunUntouched(tags: seq<EndTag>, strings: seq<string>)
    requires forall i :: 0 <= i < |tags| ==> Enclose(tags[i].bracket, tags[i].text) !in strings
    ensures Kept(Pieces(tags), strings) == Pieces(tags)
    decreases |tags|
  {
    if tags != [] {
      var b, c, rest := Bracketed(tags[0].bracket, tags[0].text), Chunk(tags[0].gap), Pieces(tags[1..]);
      assert ([b, c] + rest)[1..] == [c] + rest;
      assert ([c] + rest)[1..] == rest;
      RunUntouched(tags[1..], strings);
    }
  }

  /** RemoveEndTags on text without '[' or '(', not all white space, followed by a run of
      tags: every tag is deleted and the white space between them is left. */
  lemma EndTagsDeleted(body: string, tags: seq<EndTag>)
    requires NoneIn(Either('[', '('), body) && TrimStart(body) != [] && EndTagsOk(tags)
    ensures EndTagsRemoved(body + TagsText(tags)) == body + Gaps(tags)
  {
    var strings, x := TagStrings(tags), Pieces(tags);
    TagsGround(body, tags);
    var ps := [Chunk(body)] + x;
    SpellCons(Chunk(body), x);
    ChunkThenRun(body, tags);
    TagStringsAreTags(tags);
    TagsRemoved(ps, strings);
    KeptCons(Chunk(body), x, strings);
    SpellCons(Chunk(body), Kept(x, strings));
    RunKept(tags, strings);
  }

  /** Deleting a leading tag the run does not hold deletes only that tag. */
  lemma LeadingTagDeleted(g: Bracket, group: string, body: string, tags: seq<EndTag>)
    requires Plain(group) && NoneIn(Either('[', '('), body) && EndTagsOk(tags)
    requires Enclose(g, group) !in TagStrings(tags)
    ensures RemoveAll(Enclose(g, group) + body + TagsText(tags), Enclose(g, group)) == body + TagsText(tags)
  {
    var e, x := Enclose(g, group), Pieces(tags);
    var rest := [Chunk(body)] + x;
    var ps := [Bracketed(g, group)] + rest;
    TagThenRun(g, group, body, tags);
    TagRemoved(ps, e);
    KeptCons(Bracketed(g, group), rest, [e]);
    assert Kept(ps, [e]) == Kept(rest, [e]);
    KeptCons(Chunk(body), x, [e]);
    assert forall i :: 0 <= i < |tags| ==> Enclose(tags[i].bracket, tags[i].text) !in [e] by {
      assert forall i :: 0 <= i < |tags| ==> TagStrings(tags)[i] == Enclose(tags[i].bracket, tags[i].text);
    }
    RunUntouched(tags, [e]);
    assert Kept(rest, [e]) == rest;
    SpellCons(Chunk(body), x);
  }

  /** A tag, text without '[' or '(', and a run of end tags, as pieces. */
  lemma TagThenRun(g: Bracket, group: string, body: string, tags: seq<EndTag>)
    requires Plain(group) && NoneIn(Either('[', '('), body) && EndTagsOk(tags)
    ensures var ps := [Bracketed(g, group)] + ([Chunk(body)] + Pieces(tags));
      PiecesOk(ps) && Spell(ps) == Enclose(g, group) + body + TagsText(tags)
  {
    var x := Pieces(tags);
    var rest := [Chunk(body)] + x;
    var ps := [Bracketed(g, group)] + rest;
    SpellCons(Bracketed(g, group), rest);
    SpellCons(Chunk(body), x);
    PiecesAreOk(tags);
    assert PieceOk(ps[0]) && PieceOk(ps[1]);
    assert forall i :: 2 <= i < |ps| ==> ps[i] == x[i - 2];
  }

  /** RemoveFansubTag on a group tag, text without '[' or '(', and a run of end tags that
      does not hold the group tag: the group tag is read, whichever its brackets, and only
      it is deleted. */
  lemma GroupTagDeleted(g: Bracket, group: string, body: string, tags: seq<EndTag>)
    requires Plain(group) && NoneIn(Either('[', '('), body) && EndTagsOk(tags)
    requires Enclose(g, group) !in TagStrings(tags)
    ensures RemoveFansubTag(Enclose(g, group) + body + TagsText(tags)) == body + TagsText(tags)
  {
    var e, after := Enclose(g, group), body + TagsText(tags);
    assert e + body + TagsText(tags) == e + after;
    BracketsRead(g, group, after);
    if g == Round {
      NoSquareAhead(group, after);
    }
    LeadingTagDeleted(g, group, body, tags);
  }
  // ---------------------------------------------------------------- characters of a run

  /** One run of tags after another. */
  lemma {:induction false} TagsTextAppend(a: seq<EndTag>, b: seq<EndTag>)
    ensures TagsText(a + b) == TagsText(a) + TagsText(b)
    decreases |a|
  {
    if a == [] {
      assert a + b == b;
    } else {
      var head := Enclose(a[0].bracket, a[0].text) + a[0].gap;
      TagsTextCons(a + b);
      assert (a + b)[0] == a[0] && (a + b)[1..] == a[1..] + b;
      TagsTextAppend(a[1..], b);
      TagsTextCons(a);
      Regroup(head, TagsText(a[1..]), TagsText(b));
    }
  }

  /** A tag holds its brackets and the characters of its text. */
  lemma EncloseNoneIn(k: CharClass, b: Bracket, text: string)
    requires NoneIn(k, text) && !In(k, Open(b)) && !In(k, Close(b))
    ensures NoneIn(k, Enclose(b, text))
  {
    NoneInAppend(k, [Open(b)], text);
    NoneInAppend(k, [Open(b)] + text, [Close(b)]);
  }

  /** A run of tags holds the characters of its tags and of the white space between them. */
  lemma {:induction false} TagsTextNoneIn(k: CharClass, tags: seq<EndTag>)
    requires forall i :: 0 <= i < |tags| ==>
      NoneIn(k, Enclose(tags[i].bracket, tags[i].text)) && NoneIn(k, tags[i].gap)
    ensures NoneIn(k, TagsText(tags))
    decreases |tags|
  {
    if tags != [] {
      var e := Enclose(tags[0].bracket, tags[0].text);
      TagsTextCons(tags);
      TagsTextNoneIn(k, tags[1..]);
      NoneInAppend(k, e, tags[0].gap);
      NoneInAppend(k, e + tags[0].gap, TagsText(tags[1..]));
    }
  }

  /** A run of tags holds no path separator. */
  lemma TagsTextNoSeparator(tags: seq<EndTag>)
    requires EndTagsOk(tags)
    ensures NoneIn(PathSeparator, TagsText(tags))
  {
    forall i | 0 <= i < |tags|
      ensures NoneIn(PathSeparator, Enclose(tags[i].bracket, tags[i].text)) && NoneIn(PathSeparator, tags[i].gap)
    {
      assert EndTagOk(tags[i]);
      EncloseNoneIn(PathSeparator, tags[i].bracket, tags[i].text);
    }
    TagsTextNoneIn(PathSeparator, tags);
  }

  /** A run of tags in square brackets holds no '('. */
  lemma SquareTagsNoParenthesis(tags: seq<EndTag>)
    requires EndTagsOk(tags) && forall i :: 0 <= i < |tags| ==> tags[i].bracket == Square
    ensures NoneIn(Is('('), TagsText(tags))
  {
    forall i | 0 <= i < |tags|
      ensures NoneIn(Is('('), Enclose(tags[i].bracket, tags[i].text)) && NoneIn(Is('('), tags[i].gap)
    {
      assert EndTagOk(tags[i]);
      EncloseNoneIn(Is('('), tags[i].bracket, tags[i].text);
    }
    TagsTextNoneIn(Is('('), tags);
  }

  /** The first tag of a run in parentheses, or the length of the run when there is none. */
  function FirstRound(tags: seq<EndTag>): (r: nat)
    ensures r <= |tags|
    ensures forall j :: 0 <= j < r ==> tags[j].bracket == Square
    ensures r < |tags| ==> tags[r].bracket == Round
  {
    if tags == [] || tags[0].bracket == Round then 0
    else
      var r := 1 + FirstRound(tags[1..]);
      assert tags[0].bracket == Square;
      assert forall j :: 1 <= j < r ==> tags[j] == tags[1..][j - 1];
      r
  }
}
