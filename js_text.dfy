/** The two pieces of JavaScript string behaviour the relay relies on:
    `String.prototype.trim` and the rendering of a non-negative integer
    inside a template literal (`${n}`). */
module JsText {

  // ---------------------------------------------------------------------
  // Whitespace and trim
  // ---------------------------------------------------------------------

  /** The characters `trim` removes: ECMAScript WhiteSpace (TAB, VT, FF,
      ZWNBSP and every Unicode "Zs" space separator) and LineTerminator
      (LF, CR, LS, PS). */
  predicate IsJsSpace(c: char)
  {
    || c == '\t' || c == '\n' || c == '\U{000B}' || c == '\U{000C}' || c == '\r'
    || c == ' ' || c == '\U{00A0}' || c == '\U{1680}'
    || ('\U{2000}' <= c <= '\U{200A}')
    || c == '\U{2028}' || c == '\U{2029}' || c == '\U{202F}' || c == '\U{205F}'
    || c == '\U{3000}' || c == '\U{FEFF}'
  }

  ghost predicate AllSpace(s: string)
  {
    SpaceBetween(s, 0, |s|)
  }

  /** Every character of `s` in `[from, to)` is whitespace. */
  ghost predicate SpaceBetween(s: string, from: int, to: int)
  {
    forall k :: from <= k < to && 0 <= k < |s| ==> IsJsSpace(s[k])
  }

  /** Neither end of `s` is whitespace. */
  ghost predicate IsTrimmed(s: string)
  {
    s == [] || (!IsJsSpace(s[0]) && !IsJsSpace(s[|s| - 1]))
  }

  /** The length of the whitespace run at the start of `s`. */
  function LeadCount(s: string): (n: nat)
    ensures n <= |s|
    ensures SpaceBetween(s, 0, n)
    ensures n < |s| ==> !IsJsSpace(s[n])
  {
    if s != [] && IsJsSpace(s[0]) then 1 + LeadCount(s[1..]) else 0
  }

  /** The length of the whitespace run at the end of `s`. */
  function TrailCount(s: string): (n: nat)
    ensures n <= |s|
    ensures SpaceBetween(s, |s| - n, |s|)
    ensures n < |s| ==> !IsJsSpace(s[|s| - 1 - n])
  {
    if s != [] && IsJsSpace(s[|s| - 1]) then 1 + TrailCount(s[..|s| - 1]) else 0
  }

  /** `s.trim()`: `s` with its leading and trailing whitespace removed.
      The result is the part of `s` between a whitespace prefix and a
      whitespace suffix, and has no whitespace at either end. */
  function Trim(s: string): (r: string)
    ensures IsTrimmed(r)
    ensures LeadCount(s) + |r| <= |s|
    ensures r == s[LeadCount(s)..LeadCount(s) + |r|]
    ensures SpaceBetween(s, 0, LeadCount(s)) && SpaceBetween(s, LeadCount(s) + |r|, |s|)
  {
    var lead := LeadCount(s);
    var t := s[lead..];
    var trail := TrailCount(t);
    var r := t[..|t| - trail];
    assert r != [] ==> r[0] == s[lead] && r[|r| - 1] == t[|t| - 1 - trail];
    r
  }

  /** Trim is determined by its contract: whenever `s` splits into a
      whitespace prefix, a trimmed middle and a whitespace suffix, the
      middle is `Trim(s)`. */
  lemma {:induction false} TrimUnique(x: string, r: string, y: string)
    requires AllSpace(x) && AllSpace(y) && IsTrimmed(r)
    ensures Trim(x + r + y) == r
  {
    var s := x + r + y;
    var lead := LeadCount(s);
    if r == [] {
      assert AllSpace(s);
    } else {
      assert s[|x|] == r[0];
      assert lead == |x|;
      var t := s[lead..];
      assert t == r + y;
      var trail := TrailCount(t);
      assert t[|r| - 1] == r[|r| - 1];
      assert trail == |y|;
    }
  }

  lemma TrimIdempotent(s: string)
    ensures Trim(Trim(s)) == Trim(s)
  {
    var r := Trim(s);
    assert r == [] + r + [];
    TrimUnique([], r, []);
  }

  /** A trimmed string is its own trim. */
  lemma TrimOfTrimmed(s: string)
    requires IsTrimmed(s)
    ensures Trim(s) == s
  {
    assert s == [] + s + [];
    TrimUnique([], s, []);
  }

  /** Trimming gives the empty string exactly for whitespace-only input. */
  lemma TrimEmptyIff(s: string)
    ensures Trim(s) == [] <==> AllSpace(s)
  {
    if AllSpace(s) {
      assert s == s + [] + [];
      TrimUnique(s, [], []);
    }
  }

  // ---------------------------------------------------------------------
  // Decimal rendering of non-negative integers
  // ---------------------------------------------------------------------

  predicate IsDigit(c: char)
  {
    '0' <= c <= '9'
  }

  ghost predicate AllDigits(s: string)
  {
    forall k :: 0 <= k < |s| ==> IsDigit(s[k])
  }

  function DigitChar(d: nat): (c: char)
    requires d < 10
    ensures IsDigit(c)
  {
    (48 + d) as char
  }

  function DigitValue(c: char): (d: nat)
    requires IsDigit(c)
    ensures d < 10
  {
    c as int - 48
  }

  /** `${n}` for an integer-valued number `n >= 0` below 10^21: its
      decimal digits, with no sign and no leading zero. */
  function Decimal(n: nat): (r: string)
    ensures |r| >= 1 && AllDigits(r)
    ensures r[0] == '0' ==> n == 0
  {
    if n < 10 then [DigitChar(n)]
    else Decimal(n / 10) + [DigitChar(n % 10)]
  }

  /** The value of a string of decimal digits (the partner of Decimal). */
  function DecimalValue(s: string): nat
    requires AllDigits(s)
  {
    if s == [] then 0
    else DecimalValue(s[..|s| - 1]) * 10 + DigitValue(s[|s| - 1])
  }

  /** Reading back a rendered number gives the number. */
  lemma {:induction false} DecimalRoundTrip(n: nat)
    ensures DecimalValue(Decimal(n)) == n
  {
    if n >= 10 {
      DecimalRoundTrip(n / 10);
      var s := Decimal(n);
      assert s[..|s| - 1] == Decimal(n / 10);
    }
  }

  /** Different numbers render differently. */
  lemma DecimalInjective(m: nat, n: nat)
    requires Decimal(m) == Decimal(n)
    ensures m == n
  {
    DecimalRoundTrip(m);
    DecimalRoundTrip(n);
  }
}
