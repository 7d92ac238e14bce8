/**
 * The string primitives of the JavaScript and Python runtimes that the
 * models below rely on: decimal rendering of integers, `padStart(2, '0')`,
 * `.length` in UTF-16 code units, `trim()`, `parseInt` and the integer part
 * of `Number(string)`.
 */
module Strings {
  import opened Wrappers

  predicate IsDigit(c: char) { '0' <= c <= '9' }

  predicate AllDigits(s: string) { forall i :: 0 <= i < |s| ==> IsDigit(s[i]) }

  function DigitValue(c: char): (d: nat)
    requires IsDigit(c)
    ensures d < 10
  {
    (c as int) - ('0' as int)
  }

  function DigitChar(d: nat): (c: char)
    requires d < 10
    ensures IsDigit(c) && DigitValue(c) == d
  {
    (('0' as int) + d) as char
  }

  /** Decimal rendering of a natural number, without leading zeros. */
  function NatToDecimal(n: nat): (s: string)
    ensures |s| >= 1 && AllDigits(s)
    ensures |s| > 1 ==> s[0] != '0'
    decreases n
  {
    if n < 10 then [DigitChar(n)] else NatToDecimal(n / 10) + [DigitChar(n % 10)]
  }

  /** The number a string of decimal digits denotes (leading zeros allowed). */
  function DecimalValue(s: string): nat
    requires AllDigits(s)
    decreases |s|
  {
    if s == [] then 0 else DecimalValue(s[..|s| - 1]) * 10 + DigitValue(s[|s| - 1])
  }

  /** Rendering a number in decimal and reading it back gives the number. */
  lemma {:induction false} DecimalRoundTrip(n: nat)
    ensures DecimalValue(NatToDecimal(n)) == n
    decreases n
  {
    if n >= 10 {
      var s := NatToDecimal(n);
      assert s[..|s| - 1] == NatToDecimal(n / 10);
      DecimalRoundTrip(n / 10);
    }
  }

  /** Leading zeros do not change the value of a digit string. */
  lemma {:induction false} LeadingZeroValue(s: string)
    requires AllDigits(s)
    ensures AllDigits("0" + s) && DecimalValue("0" + s) == DecimalValue(s)
    decreases |s|
  {
    if s != [] {
      var t := "0" + s;
      assert t[..|t| - 1] == "0" + s[..|s| - 1];
      LeadingZeroValue(s[..|s| - 1]);
    }
  }

  /** Decimal rendering is injective: equal strings come from equal numbers. */
  lemma DecimalInjective(m: nat, n: nat)
    requires NatToDecimal(m) == NatToDecimal(n)
    ensures m == n
  {
    DecimalRoundTrip(m);
    DecimalRoundTrip(n);
  }

  /** JavaScript `String(i)` for an integer-valued number. */
  function IntToString(i: int): (s: string)
    ensures |s| >= 1
    ensures i >= 0 ==> s == NatToDecimal(i)
    ensures i < 0 ==> s == "-" + NatToDecimal(-i)
  {
    if i < 0 then "-" + NatToDecimal(-i) else NatToDecimal(i)
  }

  /** `s.padStart(2, '0')` for a string of at most two UTF-16 units per char. */
  function Pad2(s: string): (r: string)
    ensures |s| >= 2 ==> r == s
    ensures |s| < 2 ==> |r| == 2 && r[2 - |s|..] == s
    ensures forall i :: 0 <= i < |r| - |s| ==> r[i] == '0'
  {
    if |s| == 0 then "00" else if |s| == 1 then "0" + s else s
  }

  /** A zero-padded decimal rendering still reads back as the number. */
  lemma Pad2Value(n: nat)
    ensures AllDigits(Pad2(NatToDecimal(n)))
    ensures DecimalValue(Pad2(NatToDecimal(n))) == n
  {
    var s := NatToDecimal(n);
    DecimalRoundTrip(n);
    if |s| == 1 { LeadingZeroValue(s); }
  }

  /** A number below 100 has at most two digits, so `Pad2` gives exactly two. */
  lemma SmallDecimal(n: nat)
    requires n < 100
    ensures |NatToDecimal(n)| <= 2
    ensures |Pad2(NatToDecimal(n))| == 2
  {
    if n >= 10 { assert NatToDecimal(n) == NatToDecimal(n / 10) + [DigitChar(n % 10)]; }
  }

  /** JavaScript `.length`: characters outside the Basic Multilingual Plane count twice. */
  function Utf16Length(s: string): (n: nat)
    ensures |s| <= n <= 2 * |s|
  {
    if s == [] then 0 else (if s[0] as int > 0xFFFF then 2 else 1) + Utf16Length(s[1..])
  }

  /** Only the empty string has no UTF-16 units. */
  lemma Utf16LengthOfEmpty(s: string)
    ensures Utf16Length(s) == 0 <==> s == []
  {
  }

  /** A string with no character outside the Basic Multilingual Plane has as many UTF-16 units as characters. */
  lemma {:induction false} Utf16LengthOfBmp(s: string)
    requires forall i :: 0 <= i < |s| ==> s[i] as int <= 0xFFFF
    ensures Utf16Length(s) == |s|
  {
    if s != [] {
      assert forall i :: 0 <= i < |s[1..]| ==> s[1..][i] == s[i + 1];
      Utf16LengthOfBmp(s[1..]);
    }
  }

  /** The characters JavaScript's `trim` and `parseInt` skip (WhiteSpace and LineTerminator). */
  predicate IsJsWhitespace(c: char) {
    var k := c as int;
    k == 9 || k == 10 || k == 11 || k == 12 || k == 13 || k == 32 || k == 160 ||
    k == 5760 || (8192 <= k <= 8202) || k == 8232 || k == 8233 || k == 8239 ||
    k == 8287 || k == 12288 || k == 65279
  }

  function TrimStart(s: string): (r: string)
    ensures |r| <= |s| && r == s[|s| - |r|..]
    ensures r == [] || !IsJsWhitespace(r[0])
  {
    if s != [] && IsJsWhitespace(s[0]) then TrimStart(s[1..]) else s
  }

  function TrimEnd(s: string): (r: string)
    ensures |r| <= |s| && r == s[..|r|]
    ensures r == [] || !IsJsWhitespace(r[|r| - 1])
  {
    if s != [] && IsJsWhitespace(s[|s| - 1]) then TrimEnd(s[..|s| - 1]) else s
  }

  /** JavaScript `s.trim()`. */
  function Trim(s: string): (r: string)
    ensures |r| <= |s|
    ensures r == [] || (!IsJsWhitespace(r[0]) && !IsJsWhitespace(r[|r| - 1]))
  {
    TrimEnd(TrimStart(s))
  }

  /** Everything `TrimStart` drops is whitespace. */
  lemma {:induction false} TrimStartDropsWhitespace(s: string)
    ensures forall i :: 0 <= i < |s| - |TrimStart(s)| ==> IsJsWhitespace(s[i])
  {
    if s != [] && IsJsWhitespace(s[0]) {
      TrimStartDropsWhitespace(s[1..]);
      forall i | 0 <= i < |s| - |TrimStart(s)|
        ensures IsJsWhitespace(s[i])
      {
        if i > 0 {
          assert s[i] == s[1..][i - 1];
        }
      }
    }
  }

  /** Everything `TrimEnd` drops is whitespace. */
  lemma {:induction false} TrimEndDropsWhitespace(s: string)
    ensures forall i :: |TrimEnd(s)| <= i < |s| ==> IsJsWhitespace(s[i])
  {
    if s != [] && IsJsWhitespace(s[|s| - 1]) {
      var p := s[..|s| - 1];
      TrimEndDropsWhitespace(p);
      forall i | |TrimEnd(s)| <= i < |s|
        ensures IsJsWhitespace(s[i])
      {
        if i < |s| - 1 {
          assert s[i] == p[i];
        }
      }
    }
  }

  /**
   * `Trim` keeps one contiguous run of the string and drops only
   * whitespace before and after it.
   */
  lemma TrimDropsOnlyWhitespace(s: string)
    ensures var lead, r := |s| - |TrimStart(s)|, Trim(s);
      && lead + |r| <= |s|
      && r == s[lead..lead + |r|]
      && (forall i :: 0 <= i < lead ==> IsJsWhitespace(s[i]))
      && (forall i :: lead + |r| <= i < |s| ==> IsJsWhitespace(s[i]))
  {
    TrimStartDropsWhitespace(s);
    TrimIsSlice(s);
    TrimDropsTrailingWhitespace(s);
  }

  lemma {:induction false} TrimIsSlice(s: string)
    ensures var lead, r := |s| - |TrimStart(s)|, Trim(s);
      lead + |r| <= |s| && r == s[lead..lead + |r|]
  {
    PrefixOfSuffix(s, TrimStart(s), Trim(s));
  }

  lemma PrefixOfSuffix(s: string, t: string, r: string)
    requires |t| <= |s| && t == s[|s| - |t|..] && |r| <= |t| && r == t[..|r|]
    ensures |s| - |t| + |r| <= |s| && r == s[|s| - |t|..|s| - |t| + |r|]
  {
  }

  lemma TrimDropsTrailingWhitespace(s: string)
    ensures var lead, r := |s| - |TrimStart(s)|, Trim(s);
      forall i :: lead + |r| <= i < |s| ==> IsJsWhitespace(s[i])
  {
    var t := TrimStart(s);
    var lead := |s| - |t|;
    var r := TrimEnd(t);
    assert Trim(s) == r;
    TrimEndDropsWhitespace(t);
    forall i | lead + |r| <= i < |s|
      ensures IsJsWhitespace(s[i])
    {
      assert s[i] == t[i - lead];
    }
  }

  /** Trimming a string that neither starts nor ends with whitespace leaves it alone. */
  lemma TrimNoWhitespace(s: string)
    requires s == [] || (!IsJsWhitespace(s[0]) && !IsJsWhitespace(s[|s| - 1]))
    ensures Trim(s) == s
  {
  }

  /** The longest prefix of `s` made of decimal digits. */
  function DigitPrefix(s: string): (r: string)
    ensures AllDigits(r) && r <= s
    ensures |r| < |s| ==> !IsDigit(s[|r|])
  {
    if s != [] && IsDigit(s[0]) then [s[0]] + DigitPrefix(s[1..]) else []
  }

  lemma {:induction false} DigitPrefixOfDigits(s: string)
    requires AllDigits(s)
    ensures DigitPrefix(s) == s
    decreases |s|
  {
    if s != [] { DigitPrefixOfDigits(s[1..]); }
  }

  predicate IsHexDigit(c: char) { IsDigit(c) || ('a' <= c <= 'f') || ('A' <= c <= 'F') }

  function HexDigitValue(c: char): (d: nat)
    requires IsHexDigit(c)
    ensures d < 16
  {
    if IsDigit(c) then DigitValue(c)
    else if 'a' <= c <= 'f' then (c as int) - ('a' as int) + 10
    else (c as int) - ('A' as int) + 10
  }

  function HexPrefix(s: string): (r: string)
    ensures r <= s && forall i :: 0 <= i < |r| ==> IsHexDigit(r[i])
  {
    if s != [] && IsHexDigit(s[0]) then [s[0]] + HexPrefix(s[1..]) else []
  }

  function HexValue(s: string): nat
    requires forall i :: 0 <= i < |s| ==> IsHexDigit(s[i])
    decreases |s|
  {
    if s == [] then 0 else HexValue(s[..|s| - 1]) * 16 + HexDigitValue(s[|s| - 1])
  }

  /** Splits off one optional leading sign: the sign's factor and the rest. */
  function SplitSign(t: string): (r: (int, string))
    ensures r.0 == 1 || r.0 == -1
    ensures |r.1| <= |t|
  {
    if t != [] && t[0] == '-' then (-1, t[1..])
    else if t != [] && t[0] == '+' then (1, t[1..])
    else (1, t)
  }

  /** The digits `parseInt` reads after the sign: a `0x`/`0X` prefix selects radix 16. */
  function ParseUnsigned(rest: string): (r: Option<nat>)
    ensures rest != [] && AllDigits(rest) && (|rest| > 1 ==> rest[0] != '0') ==> r == Some(DecimalValue(rest))
  {
    if |rest| >= 2 && rest[0] == '0' && (rest[1] == 'x' || rest[1] == 'X') then
      var ds := HexPrefix(rest[2..]);
      if ds == [] then None else Some(HexValue(ds))
    else
      var ds := DigitPrefix(rest);
      DigitPrefixOfDigitsIf(rest);
      if ds == [] then None else Some(DecimalValue(ds))
  }

  lemma DigitPrefixOfDigitsIf(s: string)
    ensures AllDigits(s) ==> DigitPrefix(s) == s
  {
    if AllDigits(s) { DigitPrefixOfDigits(s); }
  }

  /**
   * JavaScript `parseInt(s)` without a radix: skip leading whitespace, one
   * optional sign, then a `0x`/`0X` prefix selects radix 16; the longest run
   * of digits that follows is the value, and no digits at all is NaN (None).
   */
  function ParseInt(s: string): Option<int> {
    var split := SplitSign(TrimStart(s));
    match ParseUnsigned(split.1)
    case None => None
    case Some(v) => Some(split.0 * v)
  }

  /** `parseInt` reads back every integer that `String` writes. */
  lemma ParseIntOfIntToString(i: int)
    ensures ParseInt(IntToString(i)) == Some(i)
  {
    var n: nat := if i < 0 then -i else i;
    var d := NatToDecimal(n);
    DecimalRoundTrip(n);
    assert ParseUnsigned(d) == Some(n);
    var s := IntToString(i);
    TrimStartNonBlank(s);
    SplitSignOfIntToString(i);
  }

  lemma TrimStartNonBlank(s: string)
    requires s != [] && !IsJsWhitespace(s[0])
    ensures TrimStart(s) == s
  {
  }

  lemma SplitSignOfIntToString(i: int)
    ensures SplitSign(IntToString(i)) == (if i < 0 then (-1, NatToDecimal(-i)) else (1, NatToDecimal(i)))
  {
    if i >= 0 {
      var d := NatToDecimal(i);
      assert IsDigit(d[0]);
    }
  }

  /**
   * The integer part of JavaScript `Number(s)`: after trimming, the empty
   * string is 0 and an optionally signed run of decimal digits is its value;
   * anything else is None (NaN, or a value this model does not represent).
   */
  function StringToNumber(s: string): Option<int> {
    NumericLiteral(Trim(s))
  }

  /** The value of an already trimmed string, as `StringToNumber` reads it. */
  function NumericLiteral(t: string): Option<int> {
    if t == [] then Some(0)
    else
      var (sign, rest) := SplitSign(t);
      if rest != [] && AllDigits(rest) then Some(sign * DecimalValue(rest)) else None
  }

  /** `Number` reads back every integer that `String` writes. */
  lemma StringToNumberOfIntToString(i: int)
    ensures StringToNumber(IntToString(i)) == Some(i)
  {
    DecimalRoundTrip(if i < 0 then -i else i);
    SplitSignOfIntToString(i);
    assert NumericLiteral(IntToString(i)) == Some(i);
    IntToStringIsTrimmed(i);
  }

  /** `String(i)` has no surrounding whitespace. */
  lemma IntToStringIsTrimmed(i: int)
    ensures Trim(IntToString(i)) == IntToString(i)
  {
    var s, d := IntToString(i), NatToDecimal(if i < 0 then -i else i);
    assert IsDigit(d[0]) && IsDigit(d[|d| - 1]);
    assert s[|s| - 1] == d[|d| - 1];
    assert s[0] == '-' || s[0] == d[0];
    TrimNoWhitespace(s);
  }

  /** Trimming twice is trimming once. */
  lemma TrimIdempotent(s: string)
    ensures Trim(Trim(s)) == Trim(s)
  {
    TrimNoWhitespace(Trim(s));
  }

  /** The digit run of `d + rest` is `d` when `rest` does not continue it. */
  lemma {:induction false} DigitPrefixConcat(d: string, rest: string)
    requires AllDigits(d) && (rest == [] || !IsDigit(rest[0]))
    ensures DigitPrefix(d + rest) == d
    decreases |d|
  {
    if d != [] {
      assert (d + rest)[1..] == d[1..] + rest;
      DigitPrefixConcat(d[1..], rest);
    }
  }

  /** `parseInt` reads the leading number of a string and ignores whatever follows its digits. */
  lemma ParseIntLeadingDigits(n: nat, rest: string)
    requires n >= 1 && (rest == [] || !IsDigit(rest[0]))
    ensures ParseInt(NatToDecimal(n) + rest) == Some(n)
  {
    var d := NatToDecimal(n);
    var s := d + rest;
    assert d[0] != '0' by {
      if |d| == 1 { assert DecimalValue(d) == DigitValue(d[0]) by { assert d[..0] == []; } DecimalRoundTrip(n); }
    }
    assert IsDigit(s[0]) && s[0] == d[0];
    TrimStartNonBlank(s);
    assert SplitSign(s) == (1, s);
    DigitPrefixConcat(d, rest);
    DecimalRoundTrip(n);
  }

  /** Lower-casing of ASCII letters; every other character is kept. */
  function AsciiLowerChar(c: char): char {
    if 'A' <= c <= 'Z' then (c as int + 32) as char else c
  }

  function AsciiLower(s: string): string {
    if s == [] then [] else [AsciiLowerChar(s[0])] + AsciiLower(s[1..])
  }

  /** Lower-casing works character by character and keeps the length. */
  lemma {:induction false} AsciiLowerChars(s: string)
    ensures |AsciiLower(s)| == |s|
    ensures forall i :: 0 <= i < |s| ==> AsciiLower(s)[i] == AsciiLowerChar(s[i])
  {
    if s != [] {
      AsciiLowerChars(s[1..]);
      var r := AsciiLower(s);
      assert r == [AsciiLowerChar(s[0])] + AsciiLower(s[1..]);
      forall i | 1 <= i < |s| ensures r[i] == AsciiLowerChar(s[i]) {
        assert r[i] == AsciiLower(s[1..])[i - 1];
        assert s[1..][i - 1] == s[i];
      }
    }
  }

  /** Python `s.endswith(suffix)`, JavaScript `s.endsWith(suffix)`. */
  predicate EndsWith(s: string, suffix: string) {
    |suffix| <= |s| && s[|s| - |suffix|..] == suffix
  }

  lemma EndsWithConcat(s: string, suffix: string)
    ensures EndsWith(s + suffix, suffix)
  {
    assert (s + suffix)[|s|..] == suffix;
  }

  /** `needle` occurs as a contiguous part of `hay` (Python `in`, JavaScript `includes`). */
  predicate Contains(hay: string, needle: string)
    decreases |hay|
  {
    needle <= hay || (hay != [] && Contains(hay[1..], needle))
  }

  /** A needle placed anywhere inside a concatenation is contained in it. */
  lemma {:induction false} ContainsInMiddle(a: string, needle: string, b: string)
    ensures Contains(a + needle + b, needle)
    decreases |a|
  {
    if a == [] {
      assert needle <= a + needle + b;
    } else {
      assert (a + needle + b)[1..] == a[1..] + needle + b;
      ContainsInMiddle(a[1..], needle, b);
    }
  }

  /** What a string contains, any string that ends with it contains too. */
  lemma {:induction false} ContainsWithin(a: string, x: string, needle: string)
    requires Contains(x, needle)
    ensures Contains(a + x, needle)
    decreases |a|
  {
    if a == [] {
      assert a + x == x;
    } else {
      assert (a + x)[1..] == a[1..] + x;
      ContainsWithin(a[1..], x, needle);
    }
  }
}
