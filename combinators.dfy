/** The parser-combinator vocabulary the grammars are written in, as plain functions from
    the input to a reply: a value and the unconsumed input, or no match. */
module Combinators {
  import opened Text

  /** What applying a parser gives: the value read and the input left over, or no match. */
  datatype Reply<T> = Matched(value: T, rest: string) | NoMatch

  /** A parser reading characters of one class, as text: Once() reads exactly one,
      AtLeastOnce() reads the longest non-empty run. */
  datatype CharParser = Once(k: CharClass) | AtLeastOnce(k: CharClass)

  /** Applies a character parser to the front of `s`. */
  function Apply(p: CharParser, s: string): (r: Reply<string>)
    ensures r.Matched? <==> s != [] && In(p.k, s[0])
    ensures r.Matched? ==> r.value != [] && r.value + r.rest == s
    ensures r.Matched? && p.Once? ==> r.value == [s[0]]
    ensures r.Matched? && p.AtLeastOnce? ==> IsLongestPrefix(p.k, r.value, s)
  {
    if s == [] || !In(p.k, s[0]) then NoMatch
    else
      var n := if p.Once? then 1 else Span(p.k, s);
      assert s[..n] + s[n..] == s;
      Matched(s[..n], s[n..])
  }

  /** AtLeastOnce(k) on a run of `k` followed by something else reads exactly the run. */
  lemma ApplyRun(k: CharClass, s: string, v: string, rest: string)
    requires s == v + rest && v != [] && AllIn(k, v) && (rest == [] || !In(k, rest[0]))
    ensures Apply(AtLeastOnce(k), s) == Matched(v, rest)
  {
    SpanIs(k, s, |v|) by {
      assert s[..|v|] == v;
      assert |v| < |s| ==> s[|v|] == rest[0];
    }
    assert s[..|v|] == v && s[|v|..] == rest;
  }

  /** Once(k) on a character of `k` reads that character. */
  lemma ApplyOnce(k: CharClass, c: char, rest: string)
    requires In(k, c)
    ensures Apply(Once(k), [c] + rest) == Matched([c], rest)
  {
    assert ([c] + rest)[1..] == rest;
  }

  /** item.Except(sep).Many() followed by sep (Sprache's Until), as text: the characters of
      `item` read up to the first place `sep` matches; `sep` is then consumed, and the
      reply fails when `sep` does not match there. */
  function Until(item: CharClass, sep: CharParser, s: string): (r: Reply<string>)
    ensures r.Matched? ==> IsLongestPrefix(But(item, sep.k), r.value, s)
    ensures r.Matched? ==> |r.value| < |s| && In(sep.k, s[|r.value|])
    ensures r.Matched? ==> r.rest == Apply(sep, s[|r.value|..]).rest
    ensures r.NoMatch? ==>
      var n := Span(But(item, sep.k), s); n == |s| || !In(sep.k, s[n])
  {
    var n := Span(But(item, sep.k), s);
    match Apply(sep, s[n..])
    case NoMatch => NoMatch
    case Matched(_, rest) => Matched(s[..n], rest)
  }

  /** first.Or(second), given the replies of both parsers at input `s`: the second parser
      is used when the first fails, and also when the first matched without consuming
      anything and the second matches. */
  function Or<T>(first: Reply<T>, second: Reply<T>, s: string): Reply<T> {
    if first.NoMatch? then second
    else if |first.rest| == |s| && second.Matched? then second
    else first
  }

  /** A reply that, when it matches, has consumed input and left a suffix of `s`. */
  predicate Consumes<T>(r: Reply<T>, s: string) {
    r.Matched? ==> |r.rest| < |s| && IsSuffix(r.rest, s)
  }

  /** Or keeps the progress both of its alternatives make. */
  lemma OrConsumes<T>(first: Reply<T>, second: Reply<T>, s: string)
    requires Consumes(first, s) && Consumes(second, s)
    ensures Consumes(Or(first, second, s), s)
  {
  }

  /** The trailing half of Token(): the white space after a match is consumed too. */
  function SkipWhiteSpaceAfter<T>(r: Reply<T>): Reply<T> {
    match r
    case NoMatch => NoMatch
    case Matched(v, rest) => Matched(v, TrimStart(rest))
  }
}
