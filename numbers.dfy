/**
 * Number parsing and printing as the sources use them: JavaScript `parseInt` (with and without
 * an explicit radix of 10), Java `Integer.parseInt`, `Number.prototype.toString` on integers,
 * and the ten `.replace` calls that turn Eastern Arabic digits into ASCII digits.
 */
module Numbers {
  import opened Wrappers
  import opened Text

  const Int32Min: int := -0x8000_0000
  const Int32Max: int := 0x7FFF_FFFF

  predicate IsAsciiDigit(c: char) {
    '0' <= c <= '9'
  }

  /** U+0660 .. U+0669, ARABIC-INDIC DIGIT ZERO .. NINE. */
  predicate IsEasternDigit(c: char) {
    '٠' <= c <= '٩'
  }

  /** The value of `c` as a digit in base 10 or 16, if it is one. */
  function DigitIn(c: char, radix: nat): (d: Option<nat>)
    ensures d.Some? ==> d.value < radix
    ensures radix == 10 ==> (d.Some? <==> IsAsciiDigit(c))
  {
    if '0' <= c <= '9' && (c as int) - ('0' as int) < radix then Some((c as int) - ('0' as int))
    else if radix == 16 && 'a' <= c <= 'f' then Some((c as int) - ('a' as int) + 10)
    else if radix == 16 && 'A' <= c <= 'F' then Some((c as int) - ('A' as int) + 10)
    else None
  }

  /** Length of the longest prefix of `s` made of digits in `radix`. */
  function DigitPrefix(s: string, radix: nat): (n: nat)
    ensures n <= |s|
    ensures forall k :: 0 <= k < n ==> DigitIn(s[k], radix).Some?
    ensures n < |s| ==> DigitIn(s[n], radix).None?
  {
    if s == [] || DigitIn(s[0], radix).None? then 0 else 1 + DigitPrefix(s[1..], radix)
  }

  /** The value of a string of digits, most significant digit first. */
  function DigitsValue(s: string, radix: nat): nat
    requires forall k :: 0 <= k < |s| ==> DigitIn(s[k], radix).Some?
  {
    if s == [] then 0
    else DigitsValue(s[..|s| - 1], radix) * radix + DigitIn(s[|s| - 1], radix).value
  }

  /**
   * `parseInt(s)` when `hexPrefix` (no radix argument: a `0x` prefix switches to base 16) and
   * `parseInt(s, 10)` otherwise. `None` stands for `NaN`.
   */
  function JsParseInt(s: string, hexPrefix: bool): (r: Option<int>)
    ensures r.Some? ==> exists k :: 0 <= k < |s| && IsAsciiDigit(s[k])
  {
    var t := s[SpaceRun(Js, s)..];
    if |t| > 0 && (t[0] == '-' || t[0] == '+') then
      match JsMagnitude(t[1..], hexPrefix)
      case Some(m) => assert t[1..][0] in s; Some(if t[0] == '-' then 0 - m as int else m as int)
      case None => None
    else
      var r := JsMagnitude(t, hexPrefix);
      assert r.Some? ==> t[0] in s;
      r
  }

  /** The unsigned part of `parseInt`: an optional `0x` prefix (without a radix), then the longest digit prefix. */
  function JsMagnitude(u: string, hexPrefix: bool): (r: Option<nat>)
    ensures r.Some? ==> |u| > 0 && IsAsciiDigit(u[0])
  {
    var hex := hexPrefix && |u| >= 2 && u[0] == '0' && (u[1] == 'x' || u[1] == 'X');
    var radix := if hex then 16 else 10;
    var v := if hex then u[2..] else u;
    var n := DigitPrefix(v, radix);
    if n == 0 then None else Some(DigitsValue(v[..n], radix))
  }

  predicate AllAsciiDigits(t: string) {
    forall k :: 0 <= k < |t| ==> IsAsciiDigit(t[k])
  }

  /** Java `Integer.parseInt(s)`; `None` stands for `NumberFormatException`. */
  function JavaParseInt(s: string): (r: Option<int>)
    ensures r.Some? ==> Int32Min <= r.value <= Int32Max
    ensures r.Some? ==> |s| > 0 && (forall k :: 0 < k < |s| ==> IsAsciiDigit(s[k])) && IsAsciiDigit(s[|s| - 1])
  {
    if s == [] then None
    else
      var negative := s[0] == '-';
      var body := if s[0] == '-' || s[0] == '+' then s[1..] else s;
      if body == [] || !AllAsciiDigits(body) then None
      else
        var m: int := DigitsValue(body, 10);
        var v := if negative then -m else m;
        if Int32Min <= v <= Int32Max then Some(v) else None
  }

  function DigitChar(d: nat): (c: char)
    requires d < 10
    ensures IsAsciiDigit(c) && DigitIn(c, 10) == Some(d)
  {
    ((d + '0' as int) as char)
  }

  /** Decimal digits of `n` without leading zeros (`n.toString()` for `n >= 0`). */
  function NatToString(n: nat): (s: string)
    ensures |s| > 0
    ensures forall k :: 0 <= k < |s| ==> IsAsciiDigit(s[k])
    ensures DigitsValue(s, 10) == n
  {
    if n < 10 then [DigitChar(n)]
    else
      var s := NatToString(n / 10) + [DigitChar(n % 10)];
      assert s[..|s| - 1] == NatToString(n / 10);
      s
  }

  /** `n.toString()` on an integer-valued number. */
  function IntToString(n: int): string {
    if n < 0 then "-" + NatToString(-n) else NatToString(n)
  }

  /** `x.toString()` where `None` stands for `NaN`. */
  function NumberToString(x: Option<int>): string {
    match x
    case Some(n) => IntToString(n)
    case None => "NaN"
  }

  /** Printing an integer and parsing it back, with or without a radix, gives it back. */
  lemma {:induction false} ParsePrintedInt(n: int, hexPrefix: bool)
    ensures JsParseInt(IntToString(n), hexPrefix) == Some(n)
  {
    var d := NatToString(if n < 0 then -n else n);
    DigitsMagnitude(d, hexPrefix);
    if n < 0 {
      ParseSigned(d, hexPrefix);
    } else {
      ParseUnsigned(d, hexPrefix);
    }
  }

  lemma ParseSigned(d: string, hexPrefix: bool)
    requires |d| > 0 && JsMagnitude(d, hexPrefix).Some?
    ensures JsParseInt("-" + d, hexPrefix) == Some(0 - JsMagnitude(d, hexPrefix).value as int)
  {
    var s := "-" + d;
    assert !IsSpace(Js, s[0]);
    assert SpaceRun(Js, s) == 0;
    assert s[0..][1..] == d;
  }

  lemma ParseUnsigned(d: string, hexPrefix: bool)
    requires |d| > 0 && IsAsciiDigit(d[0]) && JsMagnitude(d, hexPrefix).Some?
    ensures JsParseInt(d, hexPrefix) == Some(JsMagnitude(d, hexPrefix).value as int)
  {
    assert !IsSpace(Js, d[0]);
    assert SpaceRun(Js, d) == 0;
    assert d[0..] == d;
  }

  lemma DigitPrefixAll(d: string)
    requires forall k :: 0 <= k < |d| ==> IsAsciiDigit(d[k])
    ensures DigitPrefix(d, 10) == |d|
  {
  }

  /** `s.replace(a, b)` with a global pattern for a single character. */
  function ReplaceChar(s: string, a: char, b: char): (r: string)
    ensures |r| == |s|
    ensures forall k :: 0 <= k < |s| ==> r[k] == (if s[k] == a then b else s[k])
  {
    seq(|s|, k requires 0 <= k < |s| => if s[k] == a then b else s[k])
  }

  function EasternDigit(d: nat): char
    requires d < 10
  {
    (d + '٠' as int) as char
  }

  /** The replace chain `٠→0`, `١→1`, ..., `٩→9`, applied from digit `d` on. */
  function ReplaceEasternFrom(s: string, d: nat): string
    requires d <= 10
    decreases 10 - d
  {
    if d == 10 then s else ReplaceEasternFrom(ReplaceChar(s, EasternDigit(d), DigitChar(d)), d + 1)
  }

  /** The ten `.replace` calls at the start of both `parseArabicNumber` implementations. */
  function EasternToAscii(s: string): string {
    ReplaceEasternFrom(s, 0)
  }

  function AsciiOfEastern(c: char): char {
    if IsEasternDigit(c) then ((c as int) - ('٠' as int) + ('0' as int)) as char else c
  }

  lemma {:induction false} ReplaceEasternFromPointwise(s: string, d: nat)
    requires d <= 10
    requires forall k :: 0 <= k < |s| ==> !IsEasternDigit(s[k]) || (s[k] as int) - ('٠' as int) >= d
    ensures |ReplaceEasternFrom(s, d)| == |s|
    ensures forall k :: 0 <= k < |s| ==> ReplaceEasternFrom(s, d)[k] == AsciiOfEastern(s[k])
    decreases 10 - d
  {
    if d < 10 {
      var t := ReplaceChar(s, EasternDigit(d), DigitChar(d));
      ReplaceEasternFromPointwise(t, d + 1);
      forall k | 0 <= k < |s| ensures AsciiOfEastern(t[k]) == AsciiOfEastern(s[k]) {
      }
    }
  }

  /** The replace chain maps each Eastern Arabic digit to its ASCII digit and keeps every other character. */
  lemma EasternToAsciiPointwise(s: string)
    ensures |EasternToAscii(s)| == |s|
    ensures forall k :: 0 <= k < |s| ==> EasternToAscii(s)[k] == AsciiOfEastern(s[k])
  {
    ReplaceEasternFromPointwise(s, 0);
  }

  /** The replacement turns exactly the digits of either script into ASCII digits and keeps every other character. */
  lemma AsciiOfEasternDigit(c: char)
    ensures IsAsciiDigit(AsciiOfEastern(c)) <==> IsAsciiDigit(c) || IsEasternDigit(c)
    ensures !IsEasternDigit(c) ==> AsciiOfEastern(c) == c
  {
  }

  predicate IsNumeral(s: string) {
    forall k :: 0 <= k < |s| ==> IsAsciiDigit(s[k]) || IsEasternDigit(s[k])
  }

  /** The decimal value of a string of digits in which each digit may be ASCII or Eastern Arabic. */
  function NumeralValue(s: string): nat
    requires IsNumeral(s)
  {
    if s == [] then 0
    else
      var c := s[|s| - 1];
      NumeralValue(s[..|s| - 1]) * 10 + (if IsAsciiDigit(c) then (c as int) - ('0' as int) else (c as int) - ('٠' as int))
  }

  /** Mapping Eastern digits to ASCII keeps the value of a numeral. */
  lemma {:induction false} NumeralValueOfAscii(s: string, t: string)
    requires IsNumeral(s) && |t| == |s|
    requires forall k :: 0 <= k < |s| ==> t[k] == AsciiOfEastern(s[k])
    ensures forall k :: 0 <= k < |t| ==> DigitIn(t[k], 10).Some?
    ensures DigitsValue(t, 10) == NumeralValue(s)
  {
    if s != [] {
      NumeralValueOfAscii(s[..|s| - 1], t[..|t| - 1]);
    }
  }

  /** A non-empty run of ASCII digits is its own trim and parses to its value. */
  lemma AsciiNumeralParses(t: string)
    requires |t| > 0 && forall k :: 0 <= k < |t| ==> IsAsciiDigit(t[k])
    ensures Trim(Js, t) == t
    ensures JsParseInt(t, true) == Some(DigitsValue(t, 10))
  {
    AsciiNumeralTrim(Js, t);
    AsciiNumeralValue(t);
  }

  lemma AsciiNumeralTrim(e: Engine, t: string)
    requires |t| > 0 && forall k :: 0 <= k < |t| ==> IsAsciiDigit(t[k])
    ensures Trim(e, t) == t
  {
    assert LeadingTrimmable(e, t) == 0;
    assert TrailingTrimmable(e, t) == 0;
    assert t[0..] == t;
    assert t[..|t|] == t;
  }

  lemma AsciiNumeralValue(t: string)
    requires |t| > 0 && forall k :: 0 <= k < |t| ==> IsAsciiDigit(t[k])
    ensures JsParseInt(t, true) == Some(DigitsValue(t, 10))
  {
    assert SpaceRun(Js, t) == 0;
    assert t[0..] == t;
    assert IsAsciiDigit(t[0]);
    DigitsMagnitude(t, true);
  }

  lemma DigitsMagnitude(t: string, hexPrefix: bool)
    requires |t| > 0 && forall k :: 0 <= k < |t| ==> IsAsciiDigit(t[k])
    ensures JsMagnitude(t, hexPrefix) == Some(DigitsValue(t, 10))
  {
    if |t| >= 2 {
      assert IsAsciiDigit(t[1]);
    }
    DigitPrefixAll(t);
    assert t[..|t|] == t;
  }

  /** A non-empty run of ASCII digits within the `int` range is accepted by `Integer.parseInt`. */
  lemma AsciiJavaParses(t: string)
    requires |t| > 0 && forall k :: 0 <= k < |t| ==> IsAsciiDigit(t[k])
    requires DigitsValue(t, 10) <= Int32Max
    ensures JavaParseInt(t) == Some(DigitsValue(t, 10 as nat))
  {
    assert IsAsciiDigit(t[0]);
  }
}
