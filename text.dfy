/** Characters and the handful of .NET string operations the parsers rely on
    (String.Trim, String.Replace, String.Split, Enumerable.Reverse, ...),
    each written out over `seq<char>`. */
module Text {

  /** The character classes the grammars test characters against. */
  datatype CharClass =
    | Any                             // Parse.AnyChar
    | Letter                          // Parse.Letter (char.IsLetter, ASCII letters only)
    | Digit                           // Parse.Digit and Parse.Numeric (char.IsDigit, char.IsNumber; ASCII digits only)
    | LetterOrDigit                   // Parse.LetterOrDigit
    | WhiteSpace                      // Parse.WhiteSpace and String.Trim (char.IsWhiteSpace)
    | NumberWhite                     // the white space int.TryParse skips around a number
    | Is(c: char)                     // Parse.Char(c)
    | Either(a: char, b: char)        // a test for one of two characters
    | PathSeparator                   // '\\', '/' and ':', where System.IO.Path splits a path
    | But(k: CharClass, e: CharClass) // characters of k that are not in e (Except, CharExcept)

  predicate IsLetter(c: char) { 'A' <= c <= 'Z' || 'a' <= c <= 'z' }

  predicate IsDigit(c: char) { '0' <= c <= '9' }

  /** char.IsWhiteSpace: the Unicode separators plus U+0009..U+000D and U+0085. */
  predicate IsWhiteSpace(c: char) {
    || c == ' ' || '\t' <= c <= '\r' || c == '\U{0085}' || c == '\U{00A0}' || c == '\U{1680}'
    || '\U{2000}' <= c <= '\U{200A}' || c == '\U{2028}' || c == '\U{2029}' || c == '\U{202F}'
    || c == '\U{205F}' || c == '\U{3000}'
  }

  /** The white space NumberStyles.AllowLeadingWhite/AllowTrailingWhite accept. */
  predicate IsNumberWhite(c: char) { c == ' ' || '\t' <= c <= '\r' }

  predicate In(k: CharClass, c: char) {
    match k
    case Any => true
    case Letter => IsLetter(c)
    case Digit => IsDigit(c)
    case LetterOrDigit => IsLetter(c) || IsDigit(c)
    case WhiteSpace => IsWhiteSpace(c)
    case NumberWhite => IsNumberWhite(c)
    case Is(d) => c == d
    case Either(a, b) => c == a || c == b
    case PathSeparator => c == '\\' || c == '/' || c == ':'
    case But(k1, e) => In(k1, c) && !In(e, c)
  }

  /** Every character of `s` belongs to `k`. */
  predicate AllIn(k: CharClass, s: string) {
    forall i :: 0 <= i < |s| ==> In(k, s[i])
  }

  /** No character of `s` belongs to `k`. */
  predicate NoneIn(k: CharClass, s: string) {
    forall i :: 0 <= i < |s| ==> !In(k, s[i])
  }

  lemma AllInAppend(k: CharClass, a: string, b: string)
    requires AllIn(k, a) && AllIn(k, b)
    ensures AllIn(k, a + b)
  {
    assert forall i :: |a| <= i < |a + b| ==> (a + b)[i] == b[i - |a|];
  }

  lemma NoneInAppend(k: CharClass, a: string, b: string)
    requires NoneIn(k, a) && NoneIn(k, b)
    ensures NoneIn(k, a + b)
  {
    assert forall i :: |a| <= i < |a + b| ==> (a + b)[i] == b[i - |a|];
  }

  // ---------------------------------------------------------------- spans

  /** Membership in "any character but those of `e`". */
  lemma InAnyBut(e: CharClass, c: char)
    ensures In(But(Any, e), c) <==> !In(e, c)
  {
  }

  /** Putting a character in front of a string made of three parts. */
  lemma ConsSplit(c: char, u: string, a: string, d: char, b: string)
    requires u == a + [d] + b
    ensures [c] + u == [c] + a + [d] + b
  {
    assert [c] + (a + [d] + b) == [c] + a + [d] + b;
  }

  /** Regrouping a string made of a leading part and four more. */
  lemma LeadSplit(lead: string, b: string, c: string, d: string, e: string)
    ensures lead + b + c + d + e == lead + (b + c + d + e)
  {
  }

  /** Three parts regrouped. */
  lemma Regroup(a: string, b: string, c: string)
    ensures a + b + c == a + (b + c)
  {
  }

  /** Five parts, the last three grouped. */
  lemma RegroupTail(a: string, b: string, c: string, d: string, e: string)
    ensures a + b + c + d + e == a + b + (c + d + e)
  {
  }

  /** A string is its prefix followed by the rest. */
  lemma SplitAt(s: string, v: string, a: string, b: string)
    requires |v| <= |s| && v == s[..|v|] && a + b == s[|v|..]
    ensures s == v + a + b
  {
    assert s == s[..|v|] + s[|v|..];
  }

  /** A string is what precedes its suffix `e`, then `e`. */
  lemma SuffixSplit(m: string, e: string)
    requires IsSuffix(e, m)
    ensures m == m[..|m| - |e|] + e
  {
  }

  /** The letters of white space, a word, white space and `rest` are the word and the
      letters of `rest`. */
  lemma KeepWordBefore(s: string, w1: string, v: string, m: string, w2: string, rest: string)
    requires s == w1 + v + m && m == w2 + rest
    requires AllIn(WhiteSpace, w1) && AllIn(Letter, v) && AllIn(WhiteSpace, w2)
    ensures Keep(Letter, s) == v + Keep(Letter, rest)
  {
    WhiteSpaceNoLetter(w1);
    WhiteSpaceNoLetter(w2);
    assert s == [] + w1 + (v + m);
    KeepThree(Letter, [], w1, v + m);
    assert v + m == v + w2 + rest;
    KeepThree(Letter, v, w2, rest);
  }

  /** White space holds no letters. */
  lemma WhiteSpaceNoLetter(w: string)
    requires AllIn(WhiteSpace, w)
    ensures NoneIn(Letter, w)
  {
    forall i | 0 <= i < |w| ensures !In(Letter, w[i]) {
      assert IsWhiteSpace(w[i]);
    }
  }

  /** A string of characters outside `e` holds none of `e`, and the other way round. */
  lemma AnyButAll(e: CharClass, s: string)
    ensures AllIn(But(Any, e), s) <==> NoneIn(e, s)
  {
    forall i | 0 <= i < |s| ensures In(But(Any, e), s[i]) <==> !In(e, s[i]) {
      InAnyBut(e, s[i]);
    }
  }

  /** A string made of characters of `e` holds none outside `e`. */
  lemma AnyButNone(e: CharClass, s: string)
    requires AllIn(e, s)
    ensures NoneIn(But(Any, e), s)
  {
    forall i | 0 <= i < |s| ensures !In(But(Any, e), s[i]) {
      InAnyBut(e, s[i]);
    }
  }

  /** `r` is what is left of `s` after some prefix has been consumed. */
  predicate IsSuffix(r: string, s: string) {
    |r| <= |s| && r == s[|s| - |r|..]
  }

  lemma SuffixTrans(a: string, b: string, c: string)
    requires IsSuffix(a, b) && IsSuffix(b, c)
    ensures IsSuffix(a, c)
  {
    assert c[|c| - |b|..][|b| - |a|..] == c[|c| - |a|..];
  }

  /** `v` is the longest prefix of `s` made only of characters of `k`. */
  predicate IsLongestPrefix(k: CharClass, v: string, s: string) {
    |v| <= |s| && v == s[..|v|] && AllIn(k, v) && (|v| < |s| ==> !In(k, s[|v|]))
  }

  /** Length of the longest prefix of `s` whose characters all belong to `k`. */
  function Span(k: CharClass, s: string): (n: nat)
    ensures n <= |s|
    ensures forall i :: 0 <= i < n ==> In(k, s[i])
    ensures n < |s| ==> !In(k, s[n])
  {
    if s == [] || !In(k, s[0]) then 0 else 1 + Span(k, s[1..])
  }

  /** The two properties of Span determine it. */
  lemma SpanIs(k: CharClass, s: string, p: nat)
    requires p <= |s| && AllIn(k, s[..p]) && (p < |s| ==> !In(k, s[p]))
    ensures Span(k, s) == p
  {
  }

  /** Length of the longest suffix of `s` whose characters all belong to `k`. */
  function SpanEnd(k: CharClass, s: string): (n: nat)
    ensures n <= |s|
    ensures forall i :: |s| - n <= i < |s| ==> In(k, s[i])
    ensures n < |s| ==> !In(k, s[|s| - n - 1])
  {
    if s == [] || !In(k, s[|s| - 1]) then 0 else 1 + SpanEnd(k, s[..|s| - 1])
  }

  lemma SpanEndIs(k: CharClass, s: string, p: nat)
    requires p <= |s| && AllIn(k, s[|s| - p..]) && (p < |s| ==> !In(k, s[|s| - p - 1]))
    ensures SpanEnd(k, s) == p
  {
    var n := SpanEnd(k, s);
    if n < p {
      assert s[|s| - p..][p - n - 1] == s[|s| - n - 1];
    }
  }

  /** The characters after the last character of `e` hold none of `e`, and the character
      before them, if any, is in `e`. */
  lemma LastRun(e: CharClass, s: string, n: nat)
    requires n == SpanEnd(But(Any, e), s)
    ensures NoneIn(e, s[|s| - n..])
    ensures n < |s| ==> In(e, s[|s| - n - 1])
  {
    var tail := s[|s| - n..];
    forall j | 0 <= j < |tail| ensures !In(e, tail[j]) {
      InAnyBut(e, s[|s| - n + j]);
    }
    if n < |s| {
      InAnyBut(e, s[|s| - n - 1]);
    }
  }

  /** The two properties of LastRun determine the run. */
  lemma LastRunIs(e: CharClass, s: string, n: nat)
    requires n <= |s| && NoneIn(e, s[|s| - n..]) && (n < |s| ==> In(e, s[|s| - n - 1]))
    ensures SpanEnd(But(Any, e), s) == n
  {
    AnyButAll(e, s[|s| - n..]);
    if n < |s| {
      InAnyBut(e, s[|s| - n - 1]);
    }
    SpanEndIs(But(Any, e), s, n);
  }

  // ---------------------------------------------------------------- trimming

  /** String.TrimStart(): drops the leading white space. */
  function TrimStart(s: string): (r: string)
    ensures IsSuffix(r, s)
    ensures r == [] || !IsWhiteSpace(r[0])
  {
    s[Span(WhiteSpace, s)..]
  }

  /** What TrimStart drops is white space. */
  lemma TrimStartWhite(s: string)
    ensures AllIn(WhiteSpace, s[..|s| - |TrimStart(s)|])
  {
  }

  /** A string that does not start with white space is its own TrimStart. */
  lemma TrimStartNoWhite(s: string)
    requires s == [] || !IsWhiteSpace(s[0])
    ensures TrimStart(s) == s
  {
    SpanIs(WhiteSpace, s, 0);
  }

  /** White space in front of a string that starts with something else is dropped. */
  lemma TrimStartIs(s: string, lead: string, t: string)
    requires s == lead + t && AllIn(WhiteSpace, lead) && (t == [] || !IsWhiteSpace(t[0]))
    ensures TrimStart(s) == t
  {
    SpanIs(WhiteSpace, s, |lead|) by {
      assert s[..|lead|] == lead;
      assert |lead| < |s| ==> s[|lead|] == t[0];
    }
    assert s[|lead|..] == t;
  }

  /** No white space at either end. */
  predicate IsTrimmed(s: string) {
    s == [] || (!IsWhiteSpace(s[0]) && !IsWhiteSpace(s[|s| - 1]))
  }

  /** String.Trim(): drops the leading and the trailing white space. */
  function Trim(s: string): (r: string)
    ensures IsTrimmed(r)
    ensures |r| <= |s|
    ensures AllIn(WhiteSpace, s) ==> r == []
  {
    var t := TrimStart(s);
    var r := t[..|t| - SpanEnd(WhiteSpace, t)];
    assert r != [] ==> r[0] == t[0];
    assert AllIn(WhiteSpace, s) ==> t == [] by {
      if t != [] { assert s[|s| - |t|] == t[0]; }
    }
    r
  }

  /** Trim is determined by any split of `s` into white space, a trimmed middle, and white space. */
  lemma TrimIs(s: string, lead: string, mid: string, trail: string)
    requires s == lead + mid + trail
    requires AllIn(WhiteSpace, lead) && AllIn(WhiteSpace, trail)
    requires mid != [] && !IsWhiteSpace(mid[0]) && !IsWhiteSpace(mid[|mid| - 1])
    ensures Trim(s) == mid
  {
    SpanIs(WhiteSpace, s, |lead|) by {
      assert s[..|lead|] == lead;
      assert s[|lead|] == mid[0];
    }
    var t := TrimStart(s);
    assert t == mid + trail;
    SpanEndIs(WhiteSpace, t, |trail|) by {
      assert t[|t| - |trail|..] == trail;
      assert t[|t| - |trail| - 1] == mid[|mid| - 1];
    }
    assert t[..|t| - |trail|] == mid;
  }

  /** Trimming an all-white-space string gives the empty string. */
  lemma TrimAllWhite(s: string)
    requires AllIn(WhiteSpace, s)
    ensures Trim(s) == []
  {
  }

  /** A trimmed string is its own trim: Trim is idempotent. */
  lemma TrimIdempotent(s: string)
    ensures Trim(Trim(s)) == Trim(s)
  {
    TrimTrimmed(Trim(s));
  }

  /** A string without white space at either end is its own trim. */
  lemma TrimTrimmed(t: string)
    requires IsTrimmed(t)
    ensures Trim(t) == t
  {
    if t != [] {
      assert t == [] + t + [];
      TrimIs(t, [], t, []);
    }
  }

  /** String.IsNullOrWhiteSpace on a non-null string. */
  predicate IsNullOrWhiteSpace(s: string) {
    AllIn(WhiteSpace, s)
  }

  // ---------------------------------------------------------------- replacing

  /** String.Replace(char, char): every `a` becomes `b`. */
  function ReplaceChar(s: string, a: char, b: char): (r: string)
    ensures |r| == |s|
    ensures forall i :: 0 <= i < |s| ==> r[i] == (if s[i] == a then b else s[i])
  {
    if s == [] then [] else [if s[0] == a then b else s[0]] + ReplaceChar(s[1..], a, b)
  }

  /** ReplaceChar distributes over concatenation. */
  lemma ReplaceCharAppend(s: string, t: string, a: char, b: char)
    ensures ReplaceChar(s + t, a, b) == ReplaceChar(s, a, b) + ReplaceChar(t, a, b)
  {
    var l, r := ReplaceChar(s + t, a, b), ReplaceChar(s, a, b) + ReplaceChar(t, a, b);
    assert forall i :: 0 <= i < |l| ==> l[i] == r[i] by {
      forall i | 0 <= i < |l| ensures l[i] == r[i] {
        if i >= |s| { assert (s + t)[i] == t[i - |s|]; }
      }
    }
  }

  /** A string without `a` is left as it is. */
  lemma ReplaceCharAbsent(s: string, a: char, b: char)
    requires NoneIn(Is(a), s)
    ensures ReplaceChar(s, a, b) == s
  {
  }

  /** `pat` occurs in `s` at position `i`. */
  predicate OccursAt(pat: string, s: string, i: nat) {
    i + |pat| <= |s| && s[i..i + |pat|] == pat
  }

  /** String.Replace(pat, string.Empty): deletes every occurrence of `pat`, scanning from the
      left and resuming after each deleted occurrence. */
  function RemoveAll(s: string, pat: string): (r: string)
    requires pat != []
    ensures |r| <= |s|
    ensures OccursAt(pat, s, 0) ==> |r| <= |s| - |pat|
    decreases |s|
  {
    if |s| < |pat| then s
    else if s[..|pat|] == pat then RemoveAll(s[|pat|..], pat)
    else [s[0]] + RemoveAll(s[1..], pat)
  }

  /** A string in which `pat` does not occur is kept as it is. */
  lemma {:induction false} RemoveAllAbsent(s: string, pat: string)
    requires pat != [] && forall i: nat :: !OccursAt(pat, s, i)
    ensures RemoveAll(s, pat) == s
    decreases |s|
  {
    if |s| >= |pat| {
      assert !OccursAt(pat, s, 0);
      forall i: nat ensures !OccursAt(pat, s[1..], i) {
        if OccursAt(pat, s[1..], i) {
          assert s[1..][i..i + |pat|] == s[i + 1..i + 1 + |pat|];
          assert OccursAt(pat, s, i + 1);
        }
      }
      RemoveAllAbsent(s[1..], pat);
    }
  }

  /** Deleting `pat` from a string that starts with it deletes that occurrence first. */
  lemma RemoveAllFront(pat: string, t: string)
    requires pat != []
    ensures RemoveAll(pat + t, pat) == RemoveAll(t, pat)
  {
    assert (pat + t)[..|pat|] == pat;
    assert (pat + t)[|pat|..] == t;
  }

  /** Where `pat` does not start at the front, the first character is kept. */
  lemma RemoveAllStep(s: string, pat: string)
    requires pat != [] && s != [] && !OccursAt(pat, s, 0)
    ensures RemoveAll(s, pat) == [s[0]] + RemoveAll(s[1..], pat)
  {
  }

  /** A prefix in which `pat` cannot start is kept as it is. */
  lemma {:induction false} RemoveAllSkip(a: string, t: string, pat: string)
    requires pat != [] && NoneIn(Is(pat[0]), a)
    ensures RemoveAll(a + t, pat) == a + RemoveAll(t, pat)
    decreases |a|
  {
    if a == [] {
      assert a + t == t;
    } else {
      var s, r := a + t, RemoveAll(t, pat);
      MismatchAtFront(a, t, pat, 0);
      RemoveAllStep(s, pat);
      assert s[0] == a[0] && s[1..] == a[1..] + t;
      RemoveAllSkip(a[1..], t, pat);
      Regroup([a[0]], a[1..], r);
      assert [a[0]] + a[1..] == a;
    }
  }

  /** A prefix `a` in which `pat` can start only at position 0, where it does not occur
      because of a mismatch at `j`, is kept as it is. */
  lemma RemoveAllSkipMismatch(a: string, t: string, pat: string, j: nat)
    requires pat != [] && a != [] && NoneIn(Is(pat[0]), a[1..])
    requires j < |a| && j < |pat| && a[j] != pat[j]
    ensures RemoveAll(a + t, pat) == a + RemoveAll(t, pat)
  {
    var s, b, r := a + t, a[1..], RemoveAll(t, pat);
    MismatchAtFront(a, t, pat, j);
    RemoveAllStep(s, pat);
    assert s[0] == a[0] && s[1..] == b + t;
    RemoveAllSkip(b, t, pat);
    Regroup([a[0]], b, r);
    assert [a[0]] + b == a;
  }

  lemma MismatchAtFront(a: string, t: string, pat: string, j: nat)
    requires j < |a| && j < |pat| && a[j] != pat[j]
    ensures !OccursAt(pat, a + t, 0)
  {
    var s := a + t;
    if |s| >= |pat| {
      assert s[..|pat|][j] == a[j];
    }
  }

  /** A string shorter than `pat` is kept as it is. */
  lemma RemoveAllShort(s: string, pat: string)
    requires pat != [] && |s| < |pat|
    ensures RemoveAll(s, pat) == s
  {
  }

  // ---------------------------------------------------------------- splitting and joining

  /** String.Split(c): the pieces between the occurrences of `c`, empty ones included. */
  function Split(s: string, c: char): (parts: seq<string>)
    ensures |parts| >= 1
    ensures forall i :: 0 <= i < |parts| ==> NoneIn(Is(c), parts[i])
    decreases |s|
  {
    var n := Span(But(Any, Is(c)), s);
    if n == |s| then [s] else [s[..n]] + Split(s[n + 1..], c)
  }

  /** String.Join(sep, parts). */
  function Join(parts: seq<string>, sep: string): string {
    if parts == [] then []
    else if |parts| == 1 then parts[0]
    else parts[0] + sep + Join(parts[1..], sep)
  }

  /** Joining one more piece. */
  lemma {:induction false} JoinSnoc(p: seq<string>, x: string, sep: string)
    ensures Join(p + [x], sep) == if p == [] then x else Join(p, sep) + sep + x
    decreases |p|
  {
    if |p| == 1 {
      assert (p + [x])[1..] == [x];
    } else if |p| > 1 {
      assert (p + [x])[1..] == p[1..] + [x];
      JoinSnoc(p[1..], x, sep);
    }
  }

  /** Split and Join are inverse: joining the pieces with `c` gives back the string. */
  lemma {:induction false} SplitJoin(s: string, c: char)
    ensures Join(Split(s, c), [c]) == s
    decreases |s|
  {
    var n := Span(But(Any, Is(c)), s);
    if n < |s| {
      InAnyBut(Is(c), s[n]);
      assert s[n] == c;
      var rest := Split(s[n + 1..], c);
      assert Split(s, c) == [s[..n]] + rest;
      assert ([s[..n]] + rest)[1..] == rest;
      SplitJoin(s[n + 1..], c);
      assert s == s[..n] + [c] + s[n + 1..];
    }
  }

  /** Splitting a string without `c` gives the string alone. */
  lemma SplitNone(s: string, c: char)
    requires NoneIn(Is(c), s)
    ensures Split(s, c) == [s]
  {
    SpanIs(But(Any, Is(c)), s, |s|);
  }

  /** Splitting at the first `c`. */
  lemma SplitFirst(a: string, t: string, c: char)
    requires NoneIn(Is(c), a)
    ensures Split(a + [c] + t, c) == [a] + Split(t, c)
  {
    var s := a + [c] + t;
    SpanIs(But(Any, Is(c)), s, |a|) by {
      assert s[..|a|] == a;
    }
    assert s[..|a|] == a;
    assert s[|a| + 1..] == t;
  }

  /** Splitting before a last piece without `c`: the pieces of the front, then that piece. */
  lemma {:induction false} SplitLast(a: string, b: string, c: char)
    requires NoneIn(Is(c), b)
    ensures Split(a + [c] + b, c) == Split(a, c) + [b]
    decreases |a|
  {
    var n := Span(But(Any, Is(c)), a);
    if n == |a| {
      AnyButAll(Is(c), a);
      SplitFirst(a, b, c);
      SplitNone(b, c);
      SplitNone(a, c);
    } else {
      var v, t := a[..n], a[n + 1..];
      InAnyBut(Is(c), a[n]);
      AnyButAll(Is(c), v);
      assert a == v + [c] + t;
      assert Split(a + [c] + b, c) == [v] + Split(t + [c] + b, c) by {
        RegroupTail(v, [c], t, [c], b);
        SplitFirst(v, t + [c] + b, c);
      }
      assert Split(a, c) == [v] + Split(t, c) by {
        SplitFirst(v, t, c);
      }
      SplitLast(t, b, c);
      assert [v] + Split(t, c) + [b] == [v] + (Split(t, c) + [b]);
    }
  }

  /** The concatenation of all the pieces. */
  function Concat(parts: seq<string>): string {
    if parts == [] then [] else parts[0] + Concat(parts[1..])
  }

  lemma ConcatCons(v: string, tail: seq<string>)
    ensures Concat([v] + tail) == v + Concat(tail)
  {
    assert ([v] + tail)[1..] == tail;
  }

  lemma ConcatAppend(p: seq<string>, q: seq<string>)
    ensures Concat(p + q) == Concat(p) + Concat(q)
  {
    if p == [] {
      assert p + q == q;
    } else {
      assert (p + q)[1..] == p[1..] + q;
      ConcatAppend(p[1..], q);
    }
  }

  /** The characters of `s` that belong to `k`, in order. */
  function Keep(k: CharClass, s: string): (r: string)
    ensures |r| <= |s|
  {
    if s == [] then [] else (if In(k, s[0]) then [s[0]] else []) + Keep(k, s[1..])
  }

  lemma {:induction false} KeepAppend(k: CharClass, a: string, b: string)
    ensures Keep(k, a + b) == Keep(k, a) + Keep(k, b)
    decreases |a|
  {
    if a == [] {
      assert a + b == b;
    } else {
      var h := if In(k, a[0]) then [a[0]] else [];
      assert Keep(k, a + b) == h + Keep(k, a[1..] + b) by {
        assert (a + b)[0] == a[0];
        assert (a + b)[1..] == a[1..] + b;
      }
      KeepAppend(k, a[1..], b);
      Regroup(h, Keep(k, a[1..]), Keep(k, b));
    }
  }

  /** Keep over a kept part, a dropped part and the rest. */
  lemma KeepThree(k: CharClass, a: string, b: string, c: string)
    requires AllIn(k, a) && NoneIn(k, b)
    ensures Keep(k, a + b + c) == a + Keep(k, c)
  {
    KeepAppend(k, a + b, c);
    KeepAppend(k, a, b);
    KeepAll(k, a);
    KeepNone(k, b);
  }

  lemma {:induction false} KeepAll(k: CharClass, s: string)
    requires AllIn(k, s)
    ensures Keep(k, s) == s
    decreases |s|
  {
    if s != [] {
      KeepAll(k, s[1..]);
    }
  }

  lemma {:induction false} KeepNone(k: CharClass, s: string)
    requires NoneIn(k, s)
    ensures Keep(k, s) == []
    decreases |s|
  {
    if s != [] {
      KeepNone(k, s[1..]);
    }
  }

  // ---------------------------------------------------------------- reversing

  /** Enumerable.Reverse over the characters of a string. */
  function Reverse(s: string): (r: string)
    ensures |r| == |s|
    ensures forall i :: 0 <= i < |s| ==> r[i] == s[|s| - 1 - i]
  {
    if s == [] then [] else Reverse(s[1..]) + [s[0]]
  }

  /** Reversing twice gives the string back. */
  lemma ReverseReverse(s: string)
    ensures Reverse(Reverse(s)) == s
  {
  }

  lemma ReverseAppend(a: string, b: string)
    ensures Reverse(a + b) == Reverse(b) + Reverse(a)
  {
    var l, r := Reverse(a + b), Reverse(b) + Reverse(a);
    assert |l| == |r|;
    forall i | 0 <= i < |l| ensures l[i] == r[i] {
      if i < |b| {
        assert (a + b)[|a + b| - 1 - i] == b[|b| - 1 - i];
      } else {
        assert (a + b)[|a + b| - 1 - i] == a[|a| - 1 - (i - |b|)];
      }
    }
  }

  // ---------------------------------------------------------------- characters that never appear

  /** Deleting occurrences of a pattern brings in no character. */
  lemma {:induction false} RemoveAllNoneIn(k: CharClass, s: string, pat: string)
    requires pat != [] && NoneIn(k, s)
    ensures NoneIn(k, RemoveAll(s, pat))
    decreases |s|
  {
    if |s| >= |pat| {
      if s[..|pat|] == pat {
        RemoveAllNoneIn(k, s[|pat|..], pat);
      } else {
        RemoveAllNoneIn(k, s[1..], pat);
        NoneInAppend(k, [s[0]], RemoveAll(s[1..], pat));
      }
    }
  }

  /** Trimming brings in no character. */
  lemma TrimNoneIn(k: CharClass, s: string)
    requires NoneIn(k, s)
    ensures NoneIn(k, Trim(s))
  {
    var t := TrimStart(s);
    assert Trim(s) == t[..|t| - SpanEnd(WhiteSpace, t)];
  }

  /** Keeping some characters brings in no other. */
  lemma {:induction false} KeepNoneIn(k: CharClass, e: CharClass, s: string)
    requires NoneIn(e, s)
    ensures NoneIn(e, Keep(k, s))
  {
    if s != [] {
      KeepNoneIn(k, e, s[1..]);
      NoneInAppend(e, if In(k, s[0]) then [s[0]] else [], Keep(k, s[1..]));
    }
  }

  /** A concatenation holds no character of `k` exactly when none of its pieces does. */
  lemma {:induction false} ConcatNoneIn(k: CharClass, parts: seq<string>)
    ensures NoneIn(k, Concat(parts)) <==> forall i :: 0 <= i < |parts| ==> NoneIn(k, parts[i])
  {
    if parts != [] {
      ConcatNoneIn(k, parts[1..]);
      PiecesNoneIn(k, parts[0], Concat(parts[1..]));
      assert forall i :: 1 <= i < |parts| ==> parts[i] == parts[1..][i - 1];
    }
  }

  /** A joined string holds no character of `k` exactly when none of its pieces does,
      provided the separator holds none. */
  lemma {:induction false} JoinNoneIn(k: CharClass, parts: seq<string>, sep: string)
    requires NoneIn(k, sep)
    ensures NoneIn(k, Join(parts, sep)) <==> forall i :: 0 <= i < |parts| ==> NoneIn(k, parts[i])
  {
    if |parts| > 1 {
      JoinNoneIn(k, parts[1..], sep);
      PiecesNoneIn(k, parts[0] + sep, Join(parts[1..], sep));
      PiecesNoneIn(k, parts[0], sep);
      assert forall i :: 1 <= i < |parts| ==> parts[i] == parts[1..][i - 1];
    }
  }

  /** The pieces of a split hold only characters of the string split. */
  lemma SplitNoneIn(k: CharClass, s: string, c: char)
    requires NoneIn(k, s)
    ensures forall i :: 0 <= i < |Split(s, c)| ==> NoneIn(k, Split(s, c)[i])
  {
    if In(k, c) {
      assert NoneIn(Is(c), s);
      SplitNone(s, c);
    } else {
      SplitJoin(s, c);
      JoinNoneIn(k, Split(s, c), [c]);
    }
  }

  /** a + b holds no character of `k` exactly when neither a nor b does. */
  lemma PiecesNoneIn(k: CharClass, a: string, b: string)
    ensures NoneIn(k, a + b) <==> NoneIn(k, a) && NoneIn(k, b)
  {
    if NoneIn(k, a + b) {
      assert forall i :: 0 <= i < |a| ==> a[i] == (a + b)[i];
      assert forall i :: 0 <= i < |b| ==> b[i] == (a + b)[|a| + i];
    } else if NoneIn(k, a) && NoneIn(k, b) {
      NoneInAppend(k, a, b);
    }
  }
}
