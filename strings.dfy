/** The few `str` operations of Rust's standard library that the core relies on,
    over `string` (a sequence of Unicode scalar values). */
module Strings {
  import opened Wrappers

  /** Rust's `char::is_whitespace`: the Unicode White_Space property. */
  predicate IsWhitespace(c: char) {
    ('\U{9}' <= c <= '\U{D}') || c == ' ' || c == '\U{85}' || c == '\U{A0}' || c == '\U{1680}'
    || ('\U{2000}' <= c <= '\U{200A}') || c == '\U{2028}' || c == '\U{2029}' || c == '\U{202F}'
    || c == '\U{205F}' || c == '\U{3000}'
  }

  predicate AllWhitespace(s: string) {
    forall k :: 0 <= k < |s| ==> IsWhitespace(s[k])
  }

  /** Neither end of `s` is whitespace. */
  predicate IsTrimmed(s: string) {
    |s| == 0 || (!IsWhitespace(s[0]) && !IsWhitespace(s[|s| - 1]))
  }

  /** Length of the leading whitespace run. */
  function LeadingWhitespace(s: string): (i: nat)
    ensures i <= |s|
    ensures AllWhitespace(s[..i])
    ensures i < |s| ==> !IsWhitespace(s[i])
  {
    if |s| == 0 || !IsWhitespace(s[0]) then 0 else 1 + LeadingWhitespace(s[1..])
  }

  /** Index at which the trailing whitespace run starts. */
  function TrailingWhitespace(s: string): (j: nat)
    ensures j <= |s|
    ensures AllWhitespace(s[j..])
    ensures 0 < j ==> !IsWhitespace(s[j - 1])
  {
    if |s| == 0 || !IsWhitespace(s[|s| - 1]) then |s| else TrailingWhitespace(s[..|s| - 1])
  }

  /** Rust's `str::trim`. */
  function Trim(s: string): (r: string)
    ensures IsTrimmed(r)
    ensures |r| <= |s|
    ensures IsTrimmed(s) ==> r == s
    ensures r == [] <==> AllWhitespace(s)
  {
    var t := s[LeadingWhitespace(s)..];
    t[..TrailingWhitespace(t)]
  }

  /** Rust's `str::find(c)`: the first position of `c`. */
  function IndexOf(s: string, c: char): (r: Option<nat>)
    ensures r.Some? ==> r.value < |s| && s[r.value] == c && c !in s[..r.value]
    ensures r.None? <==> c !in s
  {
    if |s| == 0 then None
    else if s[0] == c then Some(0)
    else match IndexOf(s[1..], c)
      case None => None
      case Some(i) => Some(i + 1)
  }

  /** Rust's `str::split_once(c)`: the text before and after the first `c`. */
  function SplitOnce(s: string, c: char): (r: Option<(string, string)>)
    ensures r.None? <==> c !in s
    ensures r.Some? ==> s == r.value.0 + [c] + r.value.1 && c !in r.value.0
  {
    match IndexOf(s, c)
    case None => None
    case Some(i) =>
      assert s == s[..i] + [c] + s[i + 1..];
      Some((s[..i], s[i + 1..]))
  }

  /** The split is at the first `c`, whatever follows it. */
  lemma SplitFirst(n: string, c: char, v: string)
    requires c !in n
    ensures SplitOnce(n + [c] + v, c) == Some((n, v))
  {
    var s := n + [c] + v;
    var i := IndexOf(s, c).value;
    assert s[..|n|] == n && s[|n|] == c;
    assert s[..|n| + 1][|n|] == c;
    if i < |n| {
      assert false;
    } else if i > |n| {
      assert false;
    }
    assert s[i + 1..] == v;
  }

  predicate StartsWith(s: string, c: char) {
    |s| > 0 && s[0] == c
  }

  predicate EndsWith(s: string, c: char) {
    |s| > 0 && s[|s| - 1] == c
  }

  predicate HasPrefix(s: string, prefix: string) {
    |prefix| <= |s| && s[..|prefix|] == prefix
  }

  predicate HasSuffix(s: string, suffix: string) {
    |suffix| <= |s| && s[|s| - |suffix|..] == suffix
  }

  /** Rust's `strip_suffix(c).unwrap_or(s)`: drops one trailing `c`, if there is one. */
  function StripSuffixOr(s: string, c: char): (r: string)
    ensures EndsWith(s, c) ==> r + [c] == s
    ensures !EndsWith(s, c) ==> r == s
  {
    if EndsWith(s, c) then s[..|s| - 1] else s
  }

  /** The last `/`-separated component of a path. */
  function FileName(path: string): (r: string)
    ensures '/' !in r
    ensures HasSuffix(path, r)
    ensures '/' !in path ==> r == path
  {
    if |path| == 0 then ""
    else if path[|path| - 1] == '/' then ""
    else
      var rest := FileName(path[..|path| - 1]);
      assert path[..|path| - 1][|path[..|path| - 1]| - |rest|..] == rest;
      assert path[|path| - |rest| - 1..] == path[..|path| - 1][|path| - 1 - |rest|..] + [path[|path| - 1]];
      rest + [path[|path| - 1]]
  }

  /** A string as Rust's Debug format prints it (escapes are not modelled). */
  function Quoted(s: string): string {
    "\"" + s + "\""
  }

  /** The decimal digits of `n`, as Rust's `{}` formats an unsigned integer. */
  function NatToString(n: nat): (r: string)
    ensures |r| > 0 && forall k :: 0 <= k < |r| ==> '0' <= r[k] <= '9'
  {
    var d := ['0' + (n % 10) as char];
    if n < 10 then d else NatToString(n / 10) + d
  }

  /** Whitespace in front of a non-blank start is exactly the leading run. */
  lemma {:induction false} LeadingOfPadded(w: string, x: string)
    requires AllWhitespace(w) && |x| > 0 && !IsWhitespace(x[0])
    ensures LeadingWhitespace(w + x) == |w|
  {
    if |w| > 0 {
      assert (w + x)[1..] == w[1..] + x;
      LeadingOfPadded(w[1..], x);
    } else {
      assert w + x == x;
    }
  }

  /** Whitespace after a non-blank end is exactly the trailing run. */
  lemma {:induction false} TrailingOfPadded(x: string, w: string)
    requires AllWhitespace(w) && |x| > 0 && !IsWhitespace(x[|x| - 1])
    ensures TrailingWhitespace(x + w) == |x|
  {
    if |w| > 0 {
      assert (x + w)[..|x + w| - 1] == x + w[..|w| - 1];
      TrailingOfPadded(x, w[..|w| - 1]);
    } else {
      assert x + w == x;
    }
  }

  /** Trimming removes exactly the whitespace around a trimmed, non-empty text. */
  lemma TrimPadded(w1: string, s: string, w2: string)
    requires AllWhitespace(w1) && AllWhitespace(w2) && |s| > 0 && IsTrimmed(s)
    ensures Trim(w1 + s + w2) == s
  {
    assert w1 + s + w2 == w1 + (s + w2);
    LeadingOfPadded(w1, s + w2);
    assert (w1 + s + w2)[|w1|..] == s + w2;
    TrailingOfPadded(s, w2);
    assert (s + w2)[..|s|] == s;
  }

  // ----- `u16::from_str` -----

  /** The error texts of Rust's `ParseIntError`. */
  const EmptyIntError := "cannot parse integer from empty string"
  const InvalidDigitError := "invalid digit found in string"
  const OverflowError := "number too large to fit in target type"

  const U16Max: nat := 0xFFFF

  predicate IsDigit(c: char) {
    '0' <= c <= '9'
  }

  predicate AllDigits(s: string) {
    forall k :: 0 <= k < |s| ==> IsDigit(s[k])
  }

  function DigitValue(c: char): (d: nat)
    requires IsDigit(c)
    ensures d < 10
  {
    c as int - '0' as int
  }

  /** The number the decimal digits `ds` spell. */
  function DecimalValue(ds: string): nat
    requires AllDigits(ds)
  {
    if |ds| == 0 then 0 else DecimalValue(ds[..|ds| - 1]) * 10 + DigitValue(ds[|ds| - 1])
  }

  /** The checked loop of `u16::from_str` after reading `ds` left to right: each character
      is first checked to be a digit, then the running value times ten plus that digit is
      checked to fit. */
  function ParseDigits(ds: string): (r: Result<nat>)
    ensures r.Ok? ==> r.value <= U16Max
  {
    if |ds| == 0 then Ok(0)
    else
      var v :- ParseDigits(ds[..|ds| - 1]);
      var c := ds[|ds| - 1];
      if !IsDigit(c) then Err(InvalidDigitError)
      else if v * 10 + DigitValue(c) > U16Max then Err(OverflowError)
      else Ok(v * 10 + DigitValue(c))
  }

  /** The digits `u16::from_str` reads: all of `s` but an optional leading `+`. */
  function UnsignedDigits(s: string): string {
    if |s| > 0 && s[0] == '+' then s[1..] else s
  }

  /** Rust's `str::parse::<u16>()`: an optional `+`, then at least one decimal digit, and a
      value that fits in 16 bits. */
  function ParseU16(s: string): (r: Result<nat>)
    ensures r.Ok? ==> r.value <= U16Max
  {
    if |s| == 0 then Err(EmptyIntError)
    else if |s| == 1 && (s[0] == '+' || s[0] == '-') then Err(InvalidDigitError)
    else ParseDigits(UnsignedDigits(s))
  }

  /** Reading digits succeeds exactly when they are all digits and spell a 16-bit value,
      and then yields that value. */
  lemma {:induction false} ParseDigitsValue(ds: string)
    ensures ParseDigits(ds).Ok? <==> AllDigits(ds) && DecimalValue(ds) <= U16Max
    ensures ParseDigits(ds).Ok? ==> ParseDigits(ds).value == DecimalValue(ds)
  {
    if |ds| > 0 {
      var init := ds[..|ds| - 1];
      ParseDigitsValue(init);
      assert forall k :: 0 <= k < |init| ==> init[k] == ds[k];
      if AllDigits(ds) {
        assert DecimalValue(init) <= DecimalValue(ds);
      }
    }
  }

  /** `parse::<u16>()` accepts exactly an optional `+` followed by a non-empty run of digits
      whose value fits in 16 bits. */
  lemma ParseU16Accepts(s: string)
    ensures ParseU16(s).Ok? <==>
      var ds := UnsignedDigits(s);
      |ds| > 0 && AllDigits(ds) && DecimalValue(ds) <= U16Max
    ensures ParseU16(s).Ok? ==> ParseU16(s).value == DecimalValue(UnsignedDigits(s))
  {
    ParseDigitsValue(UnsignedDigits(s));
  }

  /** The digits `NatToString` writes spell the number back. */
  lemma {:induction false} DecimalOfNatToString(n: nat)
    ensures AllDigits(NatToString(n)) && DecimalValue(NatToString(n)) == n
  {
    if n >= 10 {
      DecimalOfNatToString(n / 10);
      var s := NatToString(n);
      assert s[..|s| - 1] == NatToString(n / 10);
    }
  }

  /** Formatting a 16-bit value and parsing it back gives the value. */
  lemma ParseU16Format(n: nat)
    requires n <= U16Max
    ensures ParseU16(NatToString(n)) == Ok(n)
  {
    DecimalOfNatToString(n);
    ParseDigitsValue(NatToString(n));
  }
}
