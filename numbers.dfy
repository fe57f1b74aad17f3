/** Decimal numbers: int.Parse and int.TryParse with NumberStyles.Integer, and the decimal
    formatting of a non-negative number. */
module Numbers {
  import opened Text
  import opened Outcomes

  /** int.MinValue, the episode number of a file whose episode could not be found. */
  const Int32Min: int := -0x8000_0000
  /** int.MaxValue */
  const Int32Max: int := 0x7FFF_FFFF

  predicate IsInt32(v: int) { Int32Min <= v <= Int32Max }

  function DigitValue(c: char): nat
    requires IsDigit(c)
  {
    c as int - '0' as int
  }

  /** The value of a string of decimal digits, most significant first. */
  function DigitsValue(ds: string): nat
    requires AllIn(Digit, ds)
    decreases |ds|
  {
    if ds == [] then 0 else DigitsValue(ds[..|ds| - 1]) * 10 + DigitValue(ds[|ds| - 1])
  }

  /** Int32.ToString() of a non-negative number: its decimal digits without leading zeros. */
  function Decimal(n: nat): (ds: string)
    ensures ds != [] && AllIn(Digit, ds)
    ensures |ds| > 1 ==> ds[0] != '0'
  {
    var d := [(n % 10 + '0' as int) as char];
    if n < 10 then d
    else
      var hi := Decimal(n / 10);
      assert (hi + d)[0] == hi[0];
      hi + d
  }

  /** Reading back the decimal digits of a number gives the number. */
  lemma {:induction false} DecimalValue(n: nat)
    ensures DigitsValue(Decimal(n)) == n
  {
    if n >= 10 {
      DecimalValue(n / 10);
      var ds := Decimal(n);
      assert ds[..|ds| - 1] == Decimal(n / 10);
    }
  }

  /** The number a string spells in the NumberStyles.Integer syntax: optional leading white
      space, an optional sign, one or more decimal digits, optional trailing white space.
      The value is not yet range-checked. */
  function ScanInteger(s: string): (r: Option<int>)
    ensures r.Some? ==> !NoneIn(Digit, s)
    ensures r.Some? && r.value < 0 ==> !NoneIn(Is('-'), s)
  {
    var lead := Span(NumberWhite, s);
    var r := ScanSigned(s[lead..]);
    assert r.Some? && r.value < 0 ==> s[lead] == '-';
    assert r.Some? ==> exists i :: 0 <= i < |s| - lead && In(Digit, s[lead..][i]);
    r
  }

  /** An optional sign, then digits and trailing white space. */
  function ScanSigned(t: string): (r: Option<int>)
    ensures r.Some? ==> exists i :: 0 <= i < |t| && In(Digit, t[i])
    ensures r.Some? && r.value < 0 ==> t != [] && t[0] == '-'
  {
    var sign := SignLength(t);
    var m := ScanUnsigned(t[sign..]);
    assert m.Some? ==> In(Digit, t[sign]);
    match m
    case None => None
    case Some(magnitude) => Some(if sign == 1 && t[0] == '-' then -(magnitude as int) else magnitude)
  }

  /** The length of the sign at the front of `t`: 1 for '-' or '+', otherwise 0. */
  function SignLength(t: string): (n: nat)
    ensures n <= |t|
  {
    if t != [] && (t[0] == '-' || t[0] == '+') then 1 else 0
  }

  /** Digits followed by white space only, as a magnitude. */
  function ScanUnsigned(u: string): (r: Option<nat>)
    ensures r.Some? ==> u != [] && IsDigit(u[0])
  {
    var d := Span(Digit, u);
    if d == 0 || !AllIn(NumberWhite, u[d..]) then None else Some(DigitsValue(u[..d]))
  }

  lemma ScanUnsignedIs(u: string, ds: string, trail: string)
    requires u == ds + trail && ds != [] && AllIn(Digit, ds) && AllIn(NumberWhite, trail)
    ensures ScanUnsigned(u) == Some(DigitsValue(ds))
  {
    assert u[..|ds|] == ds && u[|ds|..] == trail;
    assert |ds| < |u| ==> u[|ds|] == trail[0];
    SpanIs(Digit, u, |ds|);
  }

  /** The characterization of ScanInteger: white space, sign, digits, white space. */
  lemma {:induction false} ScanIntegerIs(s: string, lead: string, sign: string, ds: string, trail: string)
    requires s == lead + sign + ds + trail
    requires AllIn(NumberWhite, lead) && AllIn(NumberWhite, trail)
    requires sign == [] || sign == "-" || sign == "+"
    requires ds != [] && AllIn(Digit, ds)
    ensures ScanInteger(s) == Some(if sign == "-" then -(DigitsValue(ds) as int) else DigitsValue(ds))
  {
    var t := sign + ds + trail;
    assert s == lead + t;
    WhiteThenOther(s, lead, t);
    ScanSignedIs(t, sign, ds, trail);
  }

  /** A plain run of digits is read as its value. */
  lemma ScanDigits(ds: string)
    requires ds != [] && AllIn(Digit, ds)
    ensures ScanInteger(ds) == Some(DigitsValue(ds))
  {
    ScanIntegerIs(ds, [], [], ds, []);
  }

  /** int.Parse of a plain run of digits: its value, or OverflowException beyond 32 bits. */
  lemma ParseDigits(ds: string)
    requires ds != [] && AllIn(Digit, ds)
    ensures ParseInt32(ds) ==
      if DigitsValue(ds) <= Int32Max then Returned(DigitsValue(ds)) else Threw(OverflowException)
  {
    ScanDigits(ds);
  }

  lemma ScanSignedIs(t: string, sign: string, ds: string, trail: string)
    requires t == sign + ds + trail
    requires AllIn(NumberWhite, trail)
    requires sign == [] || sign == "-" || sign == "+"
    requires ds != [] && AllIn(Digit, ds)
    ensures ScanSigned(t) == Some(if sign == "-" then -(DigitsValue(ds) as int) else DigitsValue(ds))
  {
    ScanUnsignedIs(ds + trail, ds, trail);
    Regroup(sign, ds, trail);
    SignedValue(t, sign, ds + trail, DigitsValue(ds));
  }

  /** A sign in front of a magnitude makes it negative exactly when it is '-'. */
  lemma SignedValue(t: string, sign: string, u: string, m: nat)
    requires t == sign + u && (sign == [] || sign == "-" || sign == "+")
    requires ScanUnsigned(u) == Some(m)
    ensures ScanSigned(t) == Some(if sign == "-" then -(m as int) else m)
  {
    if sign == [] {
      assert t == u;
      assert SignLength(t) == 0 by { assert IsDigit(u[0]); }
    } else {
      assert t[0] == sign[0] && t[1..] == u;
      assert SignLength(t) == 1;
    }
  }

  lemma WhiteThenOther(s: string, lead: string, t: string)
    requires s == lead + t && AllIn(NumberWhite, lead)
    requires t != [] && !IsNumberWhite(t[0])
    ensures Span(NumberWhite, s) == |lead| && s[|lead|..] == t
  {
    assert s[..|lead|] == lead;
    assert s[|lead|] == t[0];
    SpanIs(NumberWhite, s, |lead|);
  }

  /** A string whose first character after the leading white space is neither a sign nor a
      digit is not a number. */
  lemma ScanIntegerRejects(s: string, p: nat)
    requires p < |s| && AllIn(NumberWhite, s[..p])
    requires !IsNumberWhite(s[p]) && !IsDigit(s[p]) && s[p] != '-' && s[p] != '+'
    ensures ScanInteger(s) == None
  {
    SpanIs(NumberWhite, s, p);
  }

  /** A string of digits followed, after optional white space, by a character that is
      neither white space nor a digit is not a number. */
  lemma ScanIntegerRejectsAfterDigits(s: string, ds: string, p: nat)
    requires |ds| < p < |s| && s[..|ds|] == ds && ds != [] && AllIn(Digit, ds)
    requires AllIn(NumberWhite, s[|ds|..p]) && !IsNumberWhite(s[p])
    requires !IsDigit(s[|ds|])
    ensures ScanInteger(s) == None
  {
    SpanIs(NumberWhite, s, 0);
    SpanIs(Digit, s, |ds|);
    assert s[|ds|..][p - |ds|] == s[p];
  }

  /** int.TryParse(s, out n): the number `s` spells, if it fits in 32 bits. */
  function TryParseInt32(s: string): (r: Option<int>)
    ensures r.Some? ==> IsInt32(r.value)
    ensures r.Some? ==> !NoneIn(Digit, s)
    ensures r.Some? && NoneIn(Is('-'), s) ==> r.value >= 0
  {
    match ScanInteger(s)
    case None => None
    case Some(v) => if IsInt32(v) then Some(v) else None
  }

  /** int.Parse(s): the number `s` spells; FormatException when it is not a number and
      OverflowException when it does not fit in 32 bits. */
  function ParseInt32(s: string): (r: Outcome<int>)
    ensures r.Returned? <==> TryParseInt32(s).Some?
    ensures r.Returned? ==> r.value == TryParseInt32(s).value
    ensures r.Threw? ==> r.exception == (if ScanInteger(s).None? then FormatException else OverflowException)
  {
    match ScanInteger(s)
    case None => Threw(FormatException)
    case Some(v) => if IsInt32(v) then Returned(v) else Threw(OverflowException)
  }

  /** Formatting a 32-bit non-negative number and parsing it back gives the number. */
  lemma ParseDecimal(n: nat)
    requires n <= Int32Max
    ensures ParseInt32(Decimal(n)) == Returned(n)
    ensures TryParseInt32(Decimal(n)) == Some(n)
  {
    DecimalValue(n);
    ScanIntegerIs(Decimal(n), [], [], Decimal(n), []) by {
      assert Decimal(n) == [] + [] + Decimal(n) + [];
    }
  }
}
