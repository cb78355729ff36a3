/** The few JavaScript string operations the calculator relies on:
    `trim`, ASCII `toUpperCase`, and `parseInt` with no radix argument. */
module Text {
  import opened Basics

  /** The white space and line terminators that `String.prototype.trim` and
      `parseInt` skip. */
  predicate IsSpace(c: char) {
    || c == ' ' || c == '\t' || c == '\n' || c == '\r' || c == '\U{B}' || c == '\U{C}'
    || c == '\U{A0}' || c == '\U{1680}' || ('\U{2000}' <= c <= '\U{200A}')
    || c == '\U{2028}' || c == '\U{2029}' || c == '\U{202F}' || c == '\U{205F}'
    || c == '\U{3000}' || c == '\U{FEFF}'
  }

  /** `s` with its leading white space removed. */
  function TrimStart(s: string): (r: string)
    ensures |r| <= |s| && r == s[|s| - |r|..]
    ensures |r| == 0 || !IsSpace(r[0])
    ensures forall k :: 0 <= k < |s| - |r| ==> IsSpace(s[k])
  {
    if |s| > 0 && IsSpace(s[0]) then TrimStart(s[1..]) else s
  }

  /** `s` with its trailing white space removed. */
  function TrimEnd(s: string): (r: string)
    ensures |r| <= |s| && r == s[..|r|]
    ensures |r| == 0 || !IsSpace(r[|r| - 1])
    ensures forall k :: |r| <= k < |s| ==> IsSpace(s[k])
  {
    if |s| > 0 && IsSpace(s[|s| - 1]) then TrimEnd(s[..|s| - 1]) else s
  }

  /** Neither the first nor the last character is white space. */
  predicate NoSurroundingSpace(s: string) {
    |s| == 0 || (!IsSpace(s[0]) && !IsSpace(s[|s| - 1]))
  }

  /** `String.prototype.trim`: the contiguous middle of `s` left after removing
      white space from both ends. */
  function Trim(s: string): (r: string)
    ensures NoSurroundingSpace(r)
    ensures |r| <= |s|
    ensures exists a :: TrimmedAt(s, a, r)
  {
    var front := TrimStart(s);
    var r := TrimEnd(front);
    assert |r| > 0 ==> r[0] == front[0];
    TrimmedAtSlice(s, front, r);
    r
  }

  lemma TrimmedAtSlice(s: string, front: string, r: string)
    requires |front| <= |s| && front == s[|s| - |front|..]
    requires forall k :: 0 <= k < |s| - |front| ==> IsSpace(s[k])
    requires |r| <= |front| && r == front[..|r|]
    requires forall k :: |r| <= k < |front| ==> IsSpace(front[k])
    ensures TrimmedAt(s, |s| - |front|, r)
  {
    var a := |s| - |front|;
    assert r == s[a..a + |r|];
    forall k | a + |r| <= k < |s|
      ensures IsSpace(s[k])
    {
      assert s[k] == front[k - a];
    }
  }

  /** `r` is the slice of `s` starting at `a`, and everything outside the
      slice is white space. */
  predicate TrimmedAt(s: string, a: int, r: string) {
    && 0 <= a <= a + |r| <= |s|
    && r == s[a..a + |r|]
    && (forall k :: 0 <= k < a ==> IsSpace(s[k]))
    && (forall k :: a + |r| <= k < |s| ==> IsSpace(s[k]))
  }

  /** A string already free of surrounding white space is its own trim. */
  lemma TrimmedIsFixed(s: string)
    requires NoSurroundingSpace(s)
    ensures Trim(s) == s
  {
  }

  /** ASCII letters map to upper case; every other character is kept. */
  function UpperChar(c: char): (u: char)
    ensures 'a' <= c <= 'z' ==> 'A' <= u <= 'Z' && u as int - 'A' as int == c as int - 'a' as int
    ensures !('a' <= c <= 'z') ==> u == c
    ensures !('a' <= u <= 'z')
    ensures IsSpace(u) <==> IsSpace(c)
  {
    if 'a' <= c <= 'z' then (c as int - 32) as char else c
  }

  /** No lower-case ASCII letter anywhere. */
  predicate NoLowerCase(s: string) {
    forall k :: 0 <= k < |s| ==> !('a' <= s[k] <= 'z')
  }

  /** ASCII `toUpperCase`: letter by letter, keeping the length and which
      characters are white space. */
  function ToUpper(s: string): (r: string)
    ensures |r| == |s|
    ensures forall k :: 0 <= k < |s| ==> r[k] == UpperChar(s[k])
    ensures NoLowerCase(r)
    ensures NoSurroundingSpace(s) ==> NoSurroundingSpace(r)
  {
    var r := seq(|s|, k requires 0 <= k < |s| => UpperChar(s[k]));
    assert |r| > 0 ==> r[0] == UpperChar(s[0]) && r[|r| - 1] == UpperChar(s[|s| - 1]);
    r
  }

  // ---------------------------------------------------------------------------
  // parseInt

  /** The value of `c` as a digit in any radix up to 36; 36 for a character
      that is a digit in none. */
  function DigitValue(c: char): (d: nat)
    ensures d <= 36
    ensures d < 10 <==> '0' <= c <= '9'
  {
    if '0' <= c <= '9' then c as int - '0' as int
    else if 'a' <= c <= 'z' then c as int - 'a' as int + 10
    else if 'A' <= c <= 'Z' then c as int - 'A' as int + 10
    else 36
  }

  predicate IsDigit(c: char, radix: nat) {
    DigitValue(c) < radix
  }

  /** The length of the longest prefix of `s` made of digits of `radix`. */
  function DigitRun(s: string, radix: nat): (n: nat)
    ensures n <= |s|
    ensures forall k :: 0 <= k < n ==> IsDigit(s[k], radix)
    ensures n == |s| || !IsDigit(s[n], radix)
  {
    if |s| > 0 && IsDigit(s[0], radix) then 1 + DigitRun(s[1..], radix) else 0
  }

  lemma NatProduct(a: int, b: int)
    requires a >= 0 && b >= 0
    ensures a * b >= 0
  {
  }

  /** The number written by the digits `s`, most significant first. */
  function DigitsValue(s: string, radix: nat): nat
    requires forall k :: 0 <= k < |s| ==> IsDigit(s[k], radix)
  {
    if |s| == 0 then 0
    else
      var front := s[..|s| - 1];
      assert forall k :: 0 <= k < |front| ==> IsDigit(front[k], radix) by {
        assert forall k :: 0 <= k < |front| ==> front[k] == s[k];
      }
      var high: int := DigitsValue(front, radix);
      var base: int := radix;
      assert high * base >= 0 by {
        NatProduct(high, base);
      }
      high * base + DigitValue(s[|s| - 1])
  }

  /** The digits after any sign: a `0x` or `0X` prefix switches to radix 16,
      and the longest run of digits of the radix is read. `None` when that run
      is empty. */
  function ParseMagnitude(u: string): (r: Option<nat>)
    ensures |u| == 0 ==> r.None?
    ensures r.None? <==>
      || |u| == 0
      || !IsDigit(u[0], 10)
      || (HexStart(u) && (|u| == 2 || !IsDigit(u[2], 16)))
  {
    var hex := HexStart(u);
    var radix := if hex then 16 else 10;
    var body := if hex then u[2..] else u;
    var n := DigitRun(body, radix);
    if n == 0 then None
    else
      assert forall k :: 0 <= k < n ==> body[..n][k] == body[k];
      Some(DigitsValue(body[..n], radix))
  }

  /** `u` opens with the `0x` or `0X` prefix. */
  predicate HexStart(u: string) {
    |u| >= 2 && u[0] == '0' && (u[1] == 'x' || u[1] == 'X')
  }

  /** `t` without the one sign character it may start with. */
  function Unsigned(t: string): (u: string)
    ensures |t| > 0 && (t[0] == '-' || t[0] == '+') ==> u == t[1..]
    ensures !(|t| > 0 && (t[0] == '-' || t[0] == '+')) ==> u == t
  {
    if |t| > 0 && (t[0] == '-' || t[0] == '+') then t[1..] else t
  }

  /** After the leading white space and an optional sign, `s` continues with a
      decimal digit. */
  predicate StartsWithNumber(s: string) {
    var u := Unsigned(TrimStart(s));
    |u| > 0 && '0' <= u[0] <= '9'
  }

  /** `parseInt(s)` with no radix: skip leading white space, take an optional
      sign, then read the magnitude. `None` stands for `NaN`. */
  function ParseInt(s: string): (r: Option<int>)
    ensures |TrimStart(s)| == 0 ==> r.None?
  {
    ParseSigned(TrimStart(s))
  }

  /** The optional sign and the magnitude, read from the first character. */
  function ParseSigned(t: string): (r: Option<int>)
    ensures |t| == 0 ==> r.None?
  {
    var negative := |t| > 0 && t[0] == '-';
    match ParseMagnitude(Unsigned(t))
    case None => None
    case Some(v) => var n: int := v; Some(if negative then -n else n)
  }

  /** Text that does not continue with a decimal digit after its white space
      and sign reads as `NaN`; text that does, and has no `0x` prefix there,
      reads as a number. */
  lemma NoNumberReadsNaN(s: string)
    ensures !StartsWithNumber(s) ==> ParseInt(s).None?
    ensures StartsWithNumber(s) && !HexStart(Unsigned(TrimStart(s))) ==> ParseInt(s).Some?
  {
    var u := Unsigned(TrimStart(s));
    assert ParseInt(s).None? <==> ParseMagnitude(u).None?;
  }

  /** A non-empty run of decimal digits parses to the number it writes; a
      leading `0` never starts a hexadecimal prefix here because `x` is not a
      decimal digit. */
  lemma ParseIntOfDigits(s: string)
    requires |s| > 0 && forall k :: 0 <= k < |s| ==> '0' <= s[k] <= '9'
    ensures ParseInt(s) == Some(DigitsValue(s, 10))
  {
    assert TrimStart(s) == s by {
      DigitIsNotSpace(s[0]);
    }
    assert ParseMagnitude(s) == Some(DigitsValue(s, 10)) by {
      MagnitudeOfDigits(s);
    }
    assert !(s[0] == '-' || s[0] == '+');
  }

  lemma DigitIsNotSpace(c: char)
    requires '0' <= c <= '9'
    ensures !IsSpace(c)
  {
  }

  lemma MagnitudeOfDigits(s: string)
    requires |s| > 0 && forall k :: 0 <= k < |s| ==> '0' <= s[k] <= '9'
    ensures ParseMagnitude(s) == Some(DigitsValue(s, 10))
  {
    assert !(|s| >= 2 && s[0] == '0' && (s[1] == 'x' || s[1] == 'X'));
    assert forall k :: 0 <= k < |s| ==> IsDigit(s[k], 10);
    assert DigitRun(s, 10) == |s|;
    assert s[..|s|] == s;
  }

  /** The digit run stops exactly at the first character that is not a digit. */
  lemma {:induction false} DigitRunStops(u: string, n: nat, radix: nat)
    requires n <= |u| && forall k :: 0 <= k < n ==> IsDigit(u[k], radix)
    requires n == |u| || !IsDigit(u[n], radix)
    ensures DigitRun(u, radix) == n
  {
    if n > 0 {
      DigitRunStops(u[1..], n - 1, radix);
    }
  }

  predicate DecimalDigits(d: string) {
    |d| > 0 && forall k :: 0 <= k < |d| ==> '0' <= d[k] <= '9'
  }

  /** Reading stops at the first character that is neither a digit nor the
      `x` of a hexadecimal prefix: whatever follows the digits is ignored. */
  lemma TrailingTextIgnored(d: string, x: string)
    requires DecimalDigits(d)
    requires |x| > 0 && !('0' <= x[0] <= '9') && x[0] != 'x' && x[0] != 'X'
    ensures ParseInt(d + x) == ParseInt(d)
  {
    var u := d + x;
    assert u[0] == d[0];
    assert TrimStart(u) == u by {
      DigitIsNotSpace(u[0]);
    }
    assert !(u[0] == '-' || u[0] == '+');
    assert !(|u| >= 2 && u[0] == '0' && (u[1] == 'x' || u[1] == 'X')) by {
      if |d| >= 2 {
        assert u[1] == d[1];
      } else {
        assert u[1] == x[0];
      }
    }
    assert DigitRun(u, 10) == |d| by {
      assert forall k :: 0 <= k < |d| ==> u[k] == d[k];
      assert u[|d|] == x[0];
      DigitRunStops(u, |d|, 10);
    }
    assert u[..|d|] == d;
    ParseIntOfDigits(d);
    MagnitudeOfDigits(d);
  }

  /** White space in front is skipped: it never changes the number read. */
  lemma LeadingSpaceIgnored(c: char, s: string)
    requires IsSpace(c)
    ensures ParseInt([c] + s) == ParseInt(s)
  {
    assert TrimStart([c] + s) == TrimStart(s) by {
      assert ([c] + s)[1..] == s;
    }
    ReadsFromFirstNonSpace([c] + s, s);
  }

  /** `parseInt` looks only at what follows the leading white space. */
  lemma ReadsFromFirstNonSpace(x: string, y: string)
    requires TrimStart(x) == TrimStart(y)
    ensures ParseInt(x) == ParseInt(y)
  {
  }

  /** A reading with its sign flipped; `NaN` stays `NaN`. */
  function Negated(r: Option<int>): Option<int> {
    if r.None? then None else Some(-r.value)
  }

  /** A magnitude as a reading. */
  function AsReading(m: Option<nat>): Option<int> {
    if m.None? then None else Some(m.value as int)
  }

  /** A leading minus negates whatever the rest reads as; a rest that does not
      read stays unread. */
  lemma MinusNegates(u: string)
    requires |u| > 0 && !IsSpace(u[0]) && u[0] != '-' && u[0] != '+'
    ensures ParseInt("-" + u) == Negated(ParseInt(u))
  {
    var t := "-" + u;
    assert t[0] == '-' && t[1..] == u;
    UnsignedMagnitude(u);
    NegatedMagnitude(t);
  }

  /** With no white space or sign in front, `parseInt` reads the magnitude. */
  lemma UnsignedMagnitude(u: string)
    requires |u| > 0 && !IsSpace(u[0]) && u[0] != '-' && u[0] != '+'
    ensures ParseInt(u) == AsReading(ParseMagnitude(u))
  {
    ReadsWhole(u);
    SignedPlain(u);
  }

  /** With a minus in front, `parseInt` reads the negated magnitude of the rest. */
  lemma NegatedMagnitude(t: string)
    requires |t| > 0 && t[0] == '-'
    ensures ParseInt(t) == Negated(AsReading(ParseMagnitude(t[1..])))
  {
    ReadsWhole(t);
    SignedMinus(t);
  }

  /** A string that does not start with white space is read from its first character. */
  lemma ReadsWhole(t: string)
    requires |t| > 0 && !IsSpace(t[0])
    ensures ParseInt(t) == ParseSigned(t)
  {
    assert TrimStart(t) == t;
  }

  lemma SignedMinus(t: string)
    requires |t| > 0 && t[0] == '-'
    ensures ParseSigned(t) == Negated(AsReading(ParseMagnitude(t[1..])))
  {
  }

  lemma SignedPlain(u: string)
    requires |u| > 0 && u[0] != '-' && u[0] != '+'
    ensures ParseSigned(u) == AsReading(ParseMagnitude(u))
  {
  }

  /** A leading plus changes nothing. */
  lemma PlusDigits(d: string)
    requires DecimalDigits(d)
    ensures ParseInt("+" + d) == Some(DigitsValue(d, 10))
  {
    var t := "+" + d;
    assert TrimStart(t) == t by {
      assert t[0] == '+';
    }
    assert ParseSigned(t) == AsReading(ParseMagnitude(d)) by {
      assert t[1..] == d;
    }
    MagnitudeOfDigits(d);
  }

  predicate HexDigits(h: string) {
    |h| > 0 && forall k :: 0 <= k < |h| ==> IsDigit(h[k], 16)
  }

  /** A `0x` prefix switches to hexadecimal. */
  lemma HexPrefix(h: string)
    requires HexDigits(h)
    ensures ParseInt("0x" + h) == Some(DigitsValue(h, 16))
  {
    var u := "0x" + h;
    assert TrimStart(u) == u by {
      DigitIsNotSpace(u[0]);
    }
    assert u[2..] == h;
    DigitRunStops(h, |h|, 16);
    assert h[..|h|] == h;
  }

  /** The decimal numeral of `n`, without leading zeros. */
  function Decimal(n: nat): (s: string)
    ensures |s| > 0 && forall k :: 0 <= k < |s| ==> '0' <= s[k] <= '9'
  {
    var last := ['0' + ((n % 10) as char)];
    if n < 10 then last else Decimal(n / 10) + last
  }

  /** Reading a numeral back gives the number. */
  lemma {:induction false} DecimalRoundTrip(n: nat)
    ensures DigitsValue(Decimal(n), 10) == n
  {
    var s := Decimal(n);
    if n >= 10 {
      DecimalRoundTrip(n / 10);
      assert s[..|s| - 1] == Decimal(n / 10);
    }
  }

  /** `parseInt` inverts the decimal numeral. */
  lemma ParseIntRoundTrip(n: nat)
    ensures ParseInt(Decimal(n)) == Some(n)
  {
    ParseIntOfDigits(Decimal(n));
    DecimalRoundTrip(n);
  }

  /** Leading zeros do not change the number a run of digits writes. */
  lemma {:induction false} LeadingZeroIgnored(s: string, radix: nat)
    requires radix > 0 && forall k :: 0 <= k < |s| ==> IsDigit(s[k], radix)
    ensures DigitsValue("0" + s, radix) == DigitsValue(s, radix)
  {
    if |s| > 0 {
      var z := "0" + s;
      assert z[..|z| - 1] == "0" + s[..|s| - 1];
      LeadingZeroIgnored(s[..|s| - 1], radix);
    }
  }
}
