/** The input checks of the bot: JavaScript's `String.prototype.trim`, the UTF-16
    `length` it is compared against, `parseInt(text, 10)`, and the two validators
    built on them (`validateString`, `validateAge`). */
module Validation {
  import opened Wrappers

  /** The code points ECMAScript counts as WhiteSpace or LineTerminator; `trim`
      removes them at both ends and `parseInt` skips them at the front. */
  predicate IsSpace(c: char) {
    c == '\t' || c == '\n' || c == '\U{000B}' || c == '\U{000C}' || c == '\r' || c == ' '
    || c == '\U{00A0}' || c == '\U{1680}' || ('\U{2000}' <= c <= '\U{200A}')
    || c == '\U{2028}' || c == '\U{2029}' || c == '\U{202F}' || c == '\U{205F}'
    || c == '\U{3000}' || c == '\U{FEFF}'
  }

  /** Drops the leading white space; what is left is a suffix of `s`. */
  function TrimStart(s: string): (r: string)
    ensures |r| <= |s| && r == s[|s| - |r|..]
    ensures forall i :: 0 <= i < |s| - |r| ==> IsSpace(s[i])
    ensures r != [] ==> !IsSpace(r[0])
    decreases |s|
  {
    if |s| > 0 && IsSpace(s[0]) then TrimStart(s[1..]) else s
  }

  /** Drops the trailing white space; what is left is a prefix of `s`. */
  function TrimEnd(s: string): (r: string)
    ensures |r| <= |s| && r == s[..|r|]
    ensures forall i :: |r| <= i < |s| ==> IsSpace(s[i])
    ensures r != [] ==> !IsSpace(r[|r| - 1])
    decreases |s|
  {
    if |s| > 0 && IsSpace(s[|s| - 1]) then TrimEnd(s[..|s| - 1]) else s
  }

  /** JavaScript's `s.trim()`. */
  function Trim(s: string): (r: string)
    ensures |r| <= |s|
    ensures r != [] ==> !IsSpace(r[0]) && !IsSpace(r[|r| - 1])
  {
    TrimEnd(TrimStart(s))
  }

  /** The offset in `s` at which `Trim(s)` starts. */
  function TrimOffset(s: string): nat {
    |s| - |TrimStart(s)|
  }

  /** `Trim(s)` is the slice of `s` between its first and last non-white-space
      character: everything before and after it is white space. */
  lemma TrimIsSlice(s: string)
    ensures TrimOffset(s) + |Trim(s)| <= |s|
    ensures Trim(s) == s[TrimOffset(s)..TrimOffset(s) + |Trim(s)|]
    ensures forall i :: 0 <= i < TrimOffset(s) ==> IsSpace(s[i])
    ensures forall i :: TrimOffset(s) + |Trim(s)| <= i < |s| ==> IsSpace(s[i])
  {
    TrimSlice(s);
    TrimTail(s);
  }

  lemma TrimSlice(s: string)
    ensures TrimOffset(s) + |Trim(s)| <= |s|
    ensures Trim(s) == s[TrimOffset(s)..TrimOffset(s) + |Trim(s)|]
  {
    var t := TrimStart(s);
    var a := TrimOffset(s);
    var r := TrimEnd(t);
    assert r == Trim(s);
    assert t == s[a..] && r == t[..|r|];
    PrefixOfSuffix(s, a, |r|);
  }

  lemma PrefixOfSuffix(s: string, a: nat, n: nat)
    requires a + n <= |s|
    ensures s[a..][..n] == s[a..a + n]
  {
  }

  lemma TrimTail(s: string)
    ensures TrimOffset(s) + |Trim(s)| <= |s|
    ensures forall i :: TrimOffset(s) + |Trim(s)| <= i < |s| ==> IsSpace(s[i])
  {
    var t := TrimStart(s);
    var a := TrimOffset(s);
    var r := TrimEnd(t);
    assert r == Trim(s);
    assert t == s[a..];
    forall i | a + |r| <= i < |s|
      ensures IsSpace(s[i])
    {
      assert s[i] == t[i - a];
    }
  }

  /** Trimming twice trims nothing more. */
  lemma TrimIdempotent(s: string)
    ensures Trim(Trim(s)) == Trim(s)
  {
    var r := Trim(s);
    assert TrimStart(r) == r;
    assert TrimEnd(r) == r;
  }

  /** JavaScript strings are sequences of UTF-16 code units: a code point beyond
      the Basic Multilingual Plane counts twice in `length`. */
  function Utf16Units(c: char): nat {
    if c >= '\U{10000}' then 2 else 1
  }

  function Utf16Length(s: string): nat {
    if s == [] then 0 else Utf16Units(s[0]) + Utf16Length(s[1..])
  }

  lemma {:induction false} Utf16LengthBounds(s: string, k: nat)
    requires k < |s|
    ensures Utf16Length(s) >= |s|
    ensures Utf16Units(s[k]) == 2 ==> Utf16Length(s) >= |s| + 1
  {
    if |s| > 1 {
      Utf16LengthBounds(s[1..], if k == 0 then 0 else k - 1);
    }
  }

  /** `validateString`: a string whose trimmed `length` exceeds 1. */
  predicate ValidString(s: string) {
    Utf16Length(Trim(s)) > 1
  }

  /** Two non-white-space characters, or one that takes two UTF-16 code units. */
  predicate TwoUnitsOfText(s: string) {
    (exists i, j :: 0 <= i < j < |s| && !IsSpace(s[i]) && !IsSpace(s[j]))
    || (exists i :: 0 <= i < |s| && !IsSpace(s[i]) && Utf16Units(s[i]) == 2)
  }

  lemma ValidStringHasText(s: string)
    requires ValidString(s)
    ensures TwoUnitsOfText(s)
  {
    var r := Trim(s);
    var a := TrimOffset(s);
    TrimIsSlice(s);
    if |r| >= 2 {
      assert s[a] == r[0] && s[a + |r| - 1] == r[|r| - 1];
    } else {
      assert |r| == 1;
      assert Utf16Length(r) == Utf16Units(r[0]);
      assert s[a] == r[0];
    }
  }

  lemma TwoCharsMakeValidString(s: string, i: nat, j: nat)
    requires i < j < |s| && !IsSpace(s[i]) && !IsSpace(s[j])
    ensures ValidString(s)
  {
    var r := Trim(s);
    TrimIsSlice(s);
    assert TrimOffset(s) <= i && j < TrimOffset(s) + |r|;
    Utf16LengthBounds(r, 0);
  }

  lemma WideCharMakesValidString(s: string, i: nat)
    requires i < |s| && !IsSpace(s[i]) && Utf16Units(s[i]) == 2
    ensures ValidString(s)
  {
    var r := Trim(s);
    var a := TrimOffset(s);
    TrimIsSlice(s);
    assert a <= i < a + |r|;
    assert r[i - a] == s[i];
    Utf16LengthBounds(r, i - a);
  }

  lemma TextMakesValidString(s: string)
    requires TwoUnitsOfText(s)
    ensures ValidString(s)
  {
    if exists i, j :: 0 <= i < j < |s| && !IsSpace(s[i]) && !IsSpace(s[j]) {
      var i, j :| 0 <= i < j < |s| && !IsSpace(s[i]) && !IsSpace(s[j]);
      TwoCharsMakeValidString(s, i, j);
    } else {
      var i :| 0 <= i < |s| && !IsSpace(s[i]) && Utf16Units(s[i]) == 2;
      WideCharMakesValidString(s, i);
    }
  }

  /** A string passes `validateString` exactly when it holds two non-white-space
      characters, or one that takes two UTF-16 code units (an emoji, say). */
  lemma ValidStringCharacterized(s: string)
    ensures ValidString(s) <==> TwoUnitsOfText(s)
  {
    if ValidString(s) { ValidStringHasText(s); }
    if TwoUnitsOfText(s) { TextMakesValidString(s); }
  }

  /** Trimming keeps a string valid. */
  lemma TrimmedStaysValid(s: string)
    requires ValidString(s)
    ensures ValidString(Trim(s)) && Trim(s) != []
  {
    TrimIdempotent(s);
  }

  /** `validateAge`: a number from 16 to 45 inclusive; `None` is a missing age or NaN. */
  predicate ValidAge(a: Option<int>) {
    a.Some? && 16 <= a.value <= 45
  }

  predicate IsDigit(c: char) {
    '0' <= c <= '9'
  }

  /** The length of the run of decimal digits `s` starts with. */
  function DigitRun(s: string): (n: nat)
    ensures n <= |s|
    ensures forall i :: 0 <= i < n ==> IsDigit(s[i])
    ensures n < |s| ==> !IsDigit(s[n])
  {
    if |s| > 0 && IsDigit(s[0]) then 1 + DigitRun(s[1..]) else 0
  }

  predicate AllDigits(d: string) {
    forall i :: 0 <= i < |d| ==> IsDigit(d[i])
  }

  /** The value of a string of decimal digits, most significant first. */
  function DigitsValue(d: string): nat
    requires AllDigits(d)
  {
    if d == [] then 0 else 10 * DigitsValue(d[..|d| - 1]) + (d[|d| - 1] as int - '0' as int)
  }

  /** The digits-only part of `parseInt`: the value of the run of decimal digits
      `u` starts with, or `None` (NaN) when it does not start with a digit. */
  function ParseDigits(u: string): Option<nat> {
    var n := DigitRun(u);
    if n == 0 then None else Some(DigitsValue(u[..n]))
  }

  /** `parseInt(s, 10)`: skip leading white space, take an optional sign, then the
      longest run of decimal digits; no digit at all gives NaN (`None`). Anything
      after the digits is ignored, so "17 years" reads as 17. */
  function ParseInt(s: string): Option<int> {
    var t := TrimStart(s);
    if |t| > 0 && t[0] == '-' then
      match ParseDigits(t[1..])
      case None => None
      case Some(v) => Some(-(v as int))
    else if |t| > 0 && t[0] == '+' then
      match ParseDigits(t[1..])
      case None => None
      case Some(v) => Some(v)
    else
      match ParseDigits(t)
      case None => None
      case Some(v) => Some(v)
  }

  /** The decimal numeral of a natural number, as `String(n)` writes it. */
  function Decimal(n: nat): (d: string)
    ensures |d| >= 1 && AllDigits(d)
  {
    if n < 10 then [('0' as int + n) as char]
    else Decimal(n / 10) + [('0' as int + n % 10) as char]
  }

  lemma {:induction false} DecimalValue(n: nat)
    ensures DigitsValue(Decimal(n)) == n
  {
    if n >= 10 {
      DecimalValue(n / 10);
      var d := Decimal(n);
      assert d[..|d| - 1] == Decimal(n / 10);
    }
  }

  lemma {:induction false} DigitRunOfNumeral(d: string, rest: string)
    requires AllDigits(d)
    requires rest == [] || !IsDigit(rest[0])
    ensures DigitRun(d + rest) == |d|
  {
    if d != [] {
      assert (d + rest)[1..] == d[1..] + rest;
      DigitRunOfNumeral(d[1..], rest);
    }
  }

  lemma ParseDigitsReadsDecimal(n: nat, rest: string)
    requires rest == [] || !IsDigit(rest[0])
    ensures ParseDigits(Decimal(n) + rest) == Some(n)
  {
    var d := Decimal(n);
    DigitRunOfNumeral(d, rest);
    assert (d + rest)[..|d|] == d;
    DecimalValue(n);
  }

  /** `parseInt` reads back what `String(n)` writes, whatever non-digit text follows. */
  lemma ParseIntReadsDecimal(n: nat, rest: string)
    requires rest == [] || !IsDigit(rest[0])
    ensures ParseInt(Decimal(n) + rest) == Some(n)
  {
    var s := Decimal(n) + rest;
    assert s[0] == Decimal(n)[0];
    assert !IsSpace(s[0]);
    assert TrimStart(s) == s;
    assert s[0] != '-' && s[0] != '+';
    ParseDigitsReadsDecimal(n, rest);
  }

  /** ... and with a minus sign in front it reads the negated value. */
  lemma ParseIntReadsNegative(n: nat, rest: string)
    requires rest == [] || !IsDigit(rest[0])
    ensures ParseInt("-" + Decimal(n) + rest) == Some(-(n as int))
  {
    var s := "-" + Decimal(n) + rest;
    assert s[0] == '-' && !IsSpace('-');
    assert TrimStart(s) == s;
    assert s[1..] == Decimal(n) + rest;
    ParseDigitsReadsDecimal(n, rest);
    assert ParseDigits(s[1..]) == Some(n);
  }

  lemma OneDigitValue(d: string)
    requires AllDigits(d) && |d| <= 1
    ensures DigitsValue(d) <= 9
  {
    if |d| == 1 {
      assert d[..0] == [];
    }
  }

  /** A value of at least 10 takes two digits, and digits are not white space. */
  lemma TwoDigitsForTen(u: string)
    requires ParseDigits(u).Some? && ParseDigits(u).value >= 10
    ensures |u| >= 2 && !IsSpace(u[0]) && !IsSpace(u[1])
  {
    var n := DigitRun(u);
    if n <= 1 {
      OneDigitValue(u[..n]);
      assert false;
    }
    assert IsDigit(u[0]) && IsDigit(u[1]);
  }

  /** Every text the age step accepts would also pass `validateString`: a valid
      age has two digits, and digits are not white space. */
  lemma AgeTextIsValidString(s: string)
    requires ValidAge(ParseInt(s))
    ensures ValidString(s)
  {
    var t := TrimStart(s);
    var k := |s| - |t|;
    assert t == s[k..];
    var off := if |t| > 0 && (t[0] == '-' || t[0] == '+') then k + 1 else k;
    var u := s[off..];
    assert ParseDigits(u).Some? && ParseDigits(u).value >= 10 by {
      if |t| > 0 && (t[0] == '-' || t[0] == '+') { assert u == t[1..]; } else { assert u == t; }
    }
    TwoDigitsForTen(u);
    assert s[off] == u[0] && s[off + 1] == u[1];
    ValidStringCharacterized(s);
  }

  /** A text message as the handlers look at it: `text.trim()`, the verdict of
      `validateString(text)` and the value of `parseInt(text, 10)`. */
  datatype Reading = Reading(trimmed: string, valid: bool, number: Option<int>)

  function Read(text: string): Reading
  {
    Reading(Trim(text), ValidString(text), ParseInt(text))
  }

  /** What the handlers rely on about a reading: a valid text trims to a valid,
      non-empty string, and a text that parses to a valid age is valid. */
  predicate WellRead(m: Reading) {
    (m.valid ==> m.trimmed != [] && ValidString(m.trimmed))
    && (ValidAge(m.number) ==> m.valid)
  }

  lemma ReadIsWellRead(text: string)
    ensures WellRead(Read(text))
  {
    if ValidString(text) { TrimmedStaysValid(text); }
    if ValidAge(ParseInt(text)) { AgeTextIsValidString(text); }
  }
}
