/**
 * The hex colour parse of the sheet writer (`_hex_to_color` and `_hex_to_rgb_color`, which differ
 * only in the message of the missing-`#` error). Components are kept as the integers `int(..., 16)`
 * gives; the division by 255.0 for the API is not modelled.
 */
module Colour {
  import opened Wrappers
  import opened Text

  /** A colour as the integers parsed from its three hexadecimal fields. */
  datatype Rgb = Rgb(red: int, green: int, blue: int)

  /** The values one field can parse to: two digits give at most 255, a minus sign and one digit
      at least -15. */
  predicate FieldRange(c: Rgb) {
    -15 <= c.red <= 255 && -15 <= c.green <= 255 && -15 <= c.blue <= 255
  }

  const ColorMessage: string := "Color must be hex like #RRGGBB"
  const RgbColorMessage: string := "Color must start with '#' like #RRGGBB"
  const FieldMessage: string := "invalid literal for int() with base 16"

  const FieldPrefix: string := FieldMessage + ": "

  /** A lower-case hexadecimal digit, as `repr` writes `\xNN`. */
  function LowerHexDigit(v: nat): (c: char)
    requires v < 16
    ensures IsHexDigit(c) && HexDigitValue(c) == v
  {
    if v < 10 then ('0' as int + v) as char else ('a' as int + v - 10) as char
  }

  /** One character inside a `repr` quoted with `q`: backslash, the quote, `\n`, `\r` and `\t` get
      their escapes, the other non-printable characters below U+0100 `\xNN`, everything else stands
      as is. */
  function EscapeChar(c: char, q: char): (e: string)
    ensures |e| >= 1
    ensures |e| == 1 <==> e == [c]
  {
    if c == '\\' then ['\\', '\\']
    else if c == q then ['\\', q]
    else if c == '\n' then ['\\', 'n']
    else if c == '\r' then ['\\', 'r']
    else if c == '\t' then ['\\', 't']
    else if c < ' ' || ('\U{7f}' <= c <= '\U{a0}') || c == '\U{ad}' then ['\\', 'x', LowerHexDigit(c as int / 16), LowerHexDigit(c as int % 16)]
    else [c]
  }

  function Escaped(t: string, q: char): (e: string)
    ensures |e| >= |t|
  {
    if t == [] then [] else EscapeChar(t[0], q) + Escaped(t[1..], q)
  }

  /** Python's `repr` of a string: single quotes, or double quotes when the text holds a single
      quote and no double quote. */
  function Repr(t: string): (r: string)
    ensures |r| >= |t| + 2 && r[0] == r[|r| - 1] && (r[0] == '\'' || r[0] == '"')
  {
    var q := if '\'' in t && '"' !in t then '"' else '\'';
    [q] + Escaped(t, q) + [q]
  }

  /** The `ValueError` text of `int(t, 16)` for a text it refuses. */
  function FieldError(t: string): (m: string)
    ensures StartsWith(m, FieldPrefix)
  {
    FieldPrefix + Repr(t)
  }

  /** `int(t, 16)` on a field of at most two characters, as the slices `x[0:2]`, `x[2:4]`, `x[4:6]`
      are: surrounding whitespace is dropped, and what is left must be one or two hexadecimal digits
      or a sign followed by one digit. */
  function ParseField(t: string): (v: Option<int>)
    requires |t| <= 2
    ensures v.Some? ==> -15 <= v.value <= 255
  {
    ParseStripped(Strip(t))
  }

  /** `int(u, 16)` on an already stripped field of at most two characters. */
  function ParseStripped(u: string): (v: Option<int>)
    ensures v.Some? ==> -15 <= v.value <= 255
    ensures v.Some? ==> 1 <= |u| <= 2
  {
    if |u| == 1 && IsHexDigit(u[0]) then Some(HexDigitValue(u[0]))
    else if |u| == 2 && IsHexDigit(u[0]) && IsHexDigit(u[1]) then Some(16 * HexDigitValue(u[0]) + HexDigitValue(u[1]))
    else if |u| == 2 && u[0] == '+' && IsHexDigit(u[1]) then Some(HexDigitValue(u[1]))
    else if |u| == 2 && u[0] == '-' && IsHexDigit(u[1]) then Some(-(HexDigitValue(u[1]) as int))
    else None
  }

  /** `"".join(c * 2 for c in s)`. */
  function Doubled(s: string): (d: string)
    ensures |d| == 2 * |s|
  {
    if s == [] then [] else [s[0], s[0]] + Doubled(s[1..])
  }

  /** The shared parse: strip, require `#`, expand a three-digit form, then read the three fields. */
  function ParseHex(x: string, noHashMessage: string): (r: Result<Rgb>)
    ensures r.Failure? ==> r.message == noHashMessage || StartsWith(r.message, FieldPrefix)
    ensures r.Success? ==> FieldRange(r.value)
  {
    var t := Strip(x);
    if !StartsWith(t, "#") then Failure(noHashMessage)
    else
      var h := t[1..];
      ParseFields(if |h| == 3 then Doubled(h) else h)
  }

  /** The three fields `digits[0:2]`, `digits[2:4]` and `digits[4:6]`, read in that order: the
      first one `int()` refuses is named in the error. */
  function ParseFields(digits: string): (r: Result<Rgb>)
    ensures r.Failure? ==> StartsWith(r.message, FieldPrefix)
    ensures r.Success? ==> FieldRange(r.value)
  {
    var red := ParseField(Slice(digits, 0, 2));
    var green := ParseField(Slice(digits, 2, 4));
    var blue := ParseField(Slice(digits, 4, 6));
    if red.Some? && green.Some? && blue.Some? then Success(Rgb(red.value, green.value, blue.value))
    else Failure(FieldError(FirstRefused(digits)))
  }

  /** The first of the three fields that `int()` refuses, in the order red, green, blue. */
  function FirstRefused(digits: string): (f: string)
    ensures |f| <= 2
  {
    if ParseField(Slice(digits, 0, 2)).None? then Slice(digits, 0, 2)
    else if ParseField(Slice(digits, 2, 4)).None? then Slice(digits, 2, 4)
    else Slice(digits, 4, 6)
  }

  /** `_hex_to_color`. */
  function HexToColor(x: string): (r: Result<Rgb>)
    ensures r.Failure? ==> r.message == ColorMessage || StartsWith(r.message, FieldPrefix)
    ensures r.Success? ==> FieldRange(r.value)
  {
    ParseHex(x, ColorMessage)
  }

  /** `_hex_to_rgb_color`. */
  function HexToRgbColor(x: string): (r: Result<Rgb>)
    ensures r.Failure? ==> r.message == RgbColorMessage || StartsWith(r.message, FieldPrefix)
    ensures r.Success? ==> FieldRange(r.value)
    ensures r.Success? <==> HexToColor(x).Success?
    ensures r.Success? ==> r.value == HexToColor(x).value
    ensures r.Failure? ==> (r.message == RgbColorMessage <==> HexToColor(x).message == ColorMessage)
    ensures r.Failure? && r.message != RgbColorMessage ==> r.message == HexToColor(x).message
  {
    ParseHex(x, RgbColorMessage)
  }

  /** The value of two hexadecimal digits. */
  function PairValue(a: char, b: char): (v: nat)
    requires IsHexDigit(a) && IsHexDigit(b)
    ensures v < 256
  {
    16 * HexDigitValue(a) + HexDigitValue(b)
  }

  /** The two upper-case digits of a value below 256. */
  function Hex2(v: nat): (s: string)
    requires v < 256
    ensures |s| == 2 && IsHexDigit(s[0]) && IsHexDigit(s[1]) && PairValue(s[0], s[1]) == v
  {
    [HexDigit(v / 16), HexDigit(v % 16)]
  }

  /** `#RRGGBB` for a colour whose components are below 256. */
  function Format(c: Rgb): (s: string)
    requires 0 <= c.red < 256 && 0 <= c.green < 256 && 0 <= c.blue < 256
    ensures |s| == 7
  {
    "#" + Hex2(c.red) + Hex2(c.green) + Hex2(c.blue)
  }

  /** A text without quotes, backslashes or non-printable characters is shown in single quotes. */
  lemma {:induction false} ReprPlain(t: string)
    requires forall i :: 0 <= i < |t| ==> ' ' <= t[i] <= '~' && t[i] != '\'' && t[i] != '\\'
    ensures Repr(t) == "'" + t + "'"
  {
    PlainEscaped(t);
  }

  lemma {:induction false} PlainEscaped(t: string)
    requires forall i :: 0 <= i < |t| ==> ' ' <= t[i] <= '~' && t[i] != '\'' && t[i] != '\\'
    ensures Escaped(t, '\'') == t
  {
    if t != [] {
      PlainEscaped(t[1..]);
    }
  }

  /** The fields succeed together, and otherwise the error names the first one `int()` refuses,
      in the order red, green, blue. */
  lemma FieldErrorOrder(digits: string)
    ensures ParseFields(digits).Success? <==> && ParseField(Slice(digits, 0, 2)).Some?
                                              && ParseField(Slice(digits, 2, 4)).Some?
                                              && ParseField(Slice(digits, 4, 6)).Some?
    ensures ParseField(Slice(digits, 0, 2)).None? ==> ParseFields(digits) == Failure(FieldError(Slice(digits, 0, 2)))
    ensures ParseField(Slice(digits, 0, 2)).Some? && ParseField(Slice(digits, 2, 4)).None? ==>
              ParseFields(digits) == Failure(FieldError(Slice(digits, 2, 4)))
    ensures ParseField(Slice(digits, 0, 2)).Some? && ParseField(Slice(digits, 2, 4)).Some?
            && ParseField(Slice(digits, 4, 6)).None? ==>
              ParseFields(digits) == Failure(FieldError(Slice(digits, 4, 6)))
  {
  }

  /** A first field `int()` refuses is named in the error: `#zz0000` gives
      "invalid literal for int() with base 16: 'zz'". */
  lemma BadRedField(h: string)
    requires |h| == 6 && !IsSpace(h[5])
    requires ' ' < h[0] <= '~' && ' ' < h[1] <= '~'
    requires h[0] != '\'' && h[1] != '\'' && h[0] != '\\' && h[1] != '\\'
    requires !IsHexDigit(h[0]) && h[0] != '+' && h[0] != '-'
    ensures HexToColor("#" + h) == Failure(FieldError(h[..2]))
    ensures Repr(h[..2]) == "'" + h[..2] + "'"
  {
    assert !IsSpace(h[0]) && !IsSpace(h[1]);
    RedRefused(h);
    PlainPair(h);
    HashTrimmed(h);
  }

  /** Two printable characters other than quote and backslash are shown in single quotes. */
  lemma PlainPair(h: string)
    requires |h| >= 2 && ' ' <= h[0] <= '~' && ' ' <= h[1] <= '~'
    requires h[0] != '\'' && h[1] != '\'' && h[0] != '\\' && h[1] != '\\'
    ensures Repr(h[..2]) == "'" + h[..2] + "'"
  {
    var u := h[..2];
    assert u[0] == h[0] && u[1] == h[1];
    ReprPlain(u);
  }

  /** A red field `int()` refuses is the one the error names. */
  lemma RedRefused(h: string)
    requires |h| >= 2 && !IsSpace(h[0]) && !IsSpace(h[1]) && !IsHexDigit(h[0]) && h[0] != '+' && h[0] != '-'
    ensures ParseFields(h) == Failure(FieldError(h[..2]))
  {
    var u := Slice(h, 0, 2);
    assert u == h[..2];
    RefusedPair(u);
    FieldErrorOrder(h);
  }

  /** After `#`, a text with no trailing whitespace that is not three characters long goes to the
      field reader as it is. */
  lemma HashTrimmed(h: string)
    requires h != [] && |h| != 3 && !IsSpace(h[|h| - 1])
    ensures HexToColor("#" + h) == ParseFields(h)
  {
    var x := "#" + h;
    assert x[0] == '#' && x[|x| - 1] == h[|h| - 1];
    StripOfTrimmed(x);
    assert x[1..] == h;
  }

  /** A pair of non-whitespace characters starting with neither a digit nor a sign is refused. */
  lemma RefusedPair(u: string)
    requires |u| == 2 && !IsSpace(u[0]) && !IsSpace(u[1]) && !IsHexDigit(u[0]) && u[0] != '+' && u[0] != '-'
    ensures ParseField(u).None?
  {
    StripOfTrimmed(u);
    StrippedRefused(u);
  }

  /** A stripped pair starting with neither a digit nor a sign is refused. */
  lemma StrippedRefused(u: string)
    requires |u| == 2 && !IsHexDigit(u[0]) && u[0] != '+' && u[0] != '-'
    ensures ParseStripped(u).None?
  {
  }

  /** An input that is not `#...` once stripped is refused with the function's own message. */
  lemma NoHashFails(x: string)
    requires !StartsWith(Strip(x), "#")
    ensures HexToColor(x) == Failure(ColorMessage)
    ensures HexToRgbColor(x) == Failure(RgbColorMessage)
  {
  }

  /** Every character is a hexadecimal digit. */
  predicate AllHexDigits(s: string) {
    forall i :: 0 <= i < |s| ==> IsHexDigit(s[i])
  }

  /** `#` followed by digits is its own stripped form. */
  lemma StripHash(h: string)
    requires AllHexDigits(h)
    ensures Strip("#" + h) == "#" + h
  {
    var x := "#" + h;
    assert x[0] == '#';
    if h != [] {
      assert x[|x| - 1] == h[|h| - 1];
    }
    StripOfTrimmed(x);
  }

  /** Two digits read as one field without change. */
  lemma PairField(a: char, b: char)
    requires IsHexDigit(a) && IsHexDigit(b)
    ensures ParseField([a, b]) == Some(PairValue(a, b))
  {
    assert !IsSpace(a) && !IsSpace(b);
    StripPair(a, b);
    StrippedPair(a, b);
  }

  /** Two non-whitespace characters are their own stripped form. */
  lemma StripPair(a: char, b: char)
    requires !IsSpace(a) && !IsSpace(b)
    ensures Strip([a, b]) == [a, b]
  {
    StripOfTrimmed([a, b]);
  }

  /** Two stripped digits read as their pair value. */
  lemma StrippedPair(a: char, b: char)
    requires IsHexDigit(a) && IsHexDigit(b)
    ensures ParseStripped([a, b]) == Some(PairValue(a, b))
  {
  }

  /** Six digits give the values of their three pairs, each in [0, 256). */
  lemma SixDigits(h: string)
    requires |h| == 6 && AllHexDigits(h)
    ensures HexToColor("#" + h) == Success(Rgb(PairValue(h[0], h[1]), PairValue(h[2], h[3]), PairValue(h[4], h[5])))
  {
    HashDigits(h);
    SixFields(h);
  }

  /** After `#`, digits go to the field reader, a three-digit form doubled. */
  lemma HashDigits(h: string)
    requires AllHexDigits(h)
    ensures HexToColor("#" + h) == ParseFields(if |h| == 3 then Doubled(h) else h)
  {
    StripHash(h);
    assert ("#" + h)[1..] == h;
  }

  /** The three fields of six digits are the three digit pairs. */
  lemma SixFields(h: string)
    requires |h| == 6 && AllHexDigits(h)
    ensures ParseFields(h) == Success(Rgb(PairValue(h[0], h[1]), PairValue(h[2], h[3]), PairValue(h[4], h[5])))
  {
    assert Slice(h, 0, 2) == [h[0], h[1]];
    assert Slice(h, 2, 4) == [h[2], h[3]];
    assert Slice(h, 4, 6) == [h[4], h[5]];
    PairField(h[0], h[1]);
    PairField(h[2], h[3]);
    PairField(h[4], h[5]);
  }

  /** Round trip: formatting a colour and parsing it back gives the colour. */
  lemma FormatRoundTrip(c: Rgb)
    requires 0 <= c.red < 256 && 0 <= c.green < 256 && 0 <= c.blue < 256
    ensures HexToColor(Format(c)) == Success(c)
  {
    var h := Hex2(c.red) + Hex2(c.green) + Hex2(c.blue);
    assert Format(c) == "#" + h;
    assert AllHexDigits(h);
    SixDigits(h);
  }

  /** The three-digit form `#abc` reads as `#aabbcc`: each component is 17 times its digit. */
  lemma ShortForm(h: string)
    requires |h| == 3 && AllHexDigits(h)
    ensures HexToColor("#" + h) == HexToColor("#" + Doubled(h))
    ensures HexToColor("#" + h) == Success(Rgb(17 * HexDigitValue(h[0]), 17 * HexDigitValue(h[1]), 17 * HexDigitValue(h[2])))
  {
    var long := Doubled(h);
    DoubledDigits(h);
    HashDigits(h);
    HashDigits(long);
    SixFields(long);
    SamePair(h[0]);
    SamePair(h[1]);
    SamePair(h[2]);
  }

  /** A doubled digit is worth 17 times the digit. */
  lemma SamePair(a: char)
    requires IsHexDigit(a)
    ensures PairValue(a, a) == 17 * HexDigitValue(a)
  {
  }

  /** Doubling keeps digits digits, each one twice in place. */
  lemma {:induction false} DoubledDigits(h: string)
    requires AllHexDigits(h)
    ensures AllHexDigits(Doubled(h))
    ensures forall i :: 0 <= i < |Doubled(h)| ==> Doubled(h)[i] == h[i / 2]
  {
    if h != [] {
      DoubledDigits(h[1..]);
      var d := Doubled(h);
      assert d == [h[0], h[0]] + Doubled(h[1..]);
      forall i | 2 <= i < |d|
        ensures d[i] == h[i / 2]
      {
        assert d[i] == Doubled(h[1..])[i - 2];
        assert (i - 2) / 2 == i / 2 - 1;
      }
    }
  }

  /** Characters after the sixth digit are ignored, as the slices stop at 6. */
  lemma ExtraCharactersIgnored(h: string)
    requires |h| >= 7 && AllHexDigits(h[..6]) && !IsSpace(h[|h| - 1])
    ensures HexToColor("#" + h) == HexToColor("#" + h[..6])
  {
    var x := "#" + h;
    assert x[|x| - 1] == h[|h| - 1];
    StripOfTrimmed(x);
    assert x[1..] == h;
    StripHash(h[..6]);
    assert ("#" + h[..6])[1..] == h[..6];
    assert Slice(h, 0, 2) == Slice(h[..6], 0, 2);
    assert Slice(h, 2, 4) == Slice(h[..6], 2, 4);
    assert Slice(h, 4, 6) == Slice(h[..6], 4, 6);
  }

  /** `int()` accepts a sign, so `#-a+b-c` parses, with negative components. */
  lemma SignedFieldsAccepted(a: char, b: char, c: char)
    requires IsHexDigit(a) && IsHexDigit(b) && IsHexDigit(c)
    ensures HexToColor("#" + ['-', a, '+', b, '-', c]) == Success(Rgb(-(HexDigitValue(a) as int), HexDigitValue(b), -(HexDigitValue(c) as int)))
  {
    var h := ['-', a, '+', b, '-', c];
    var x := "#" + h;
    assert x[|x| - 1] == c;
    StripOfTrimmed(x);
    assert x[1..] == h;
    SignedFields(a, b, c);
  }

  /** Three sign-digit fields read as the three signed digits. */
  lemma SignedFields(a: char, b: char, c: char)
    requires IsHexDigit(a) && IsHexDigit(b) && IsHexDigit(c)
    ensures ParseFields(['-', a, '+', b, '-', c]) == Success(Rgb(-(HexDigitValue(a) as int), HexDigitValue(b), -(HexDigitValue(c) as int)))
  {
    var h := ['-', a, '+', b, '-', c];
    assert Slice(h, 0, 2) == ['-', a] && Slice(h, 2, 4) == ['+', b] && Slice(h, 4, 6) == ['-', c];
    SignedPair('-', a);
    SignedPair('+', b);
    SignedPair('-', c);
  }

  /** A sign and a digit read as the signed digit. */
  lemma SignedPair(sign: char, d: char)
    requires (sign == '-' || sign == '+') && IsHexDigit(d)
    ensures ParseField([sign, d]) == Some(if sign == '-' then -(HexDigitValue(d) as int) else HexDigitValue(d))
  {
    StripPair(sign, d);
    StrippedSigned(sign, d);
  }

  /** A stripped sign and digit read as the signed digit. */
  lemma StrippedSigned(sign: char, d: char)
    requires (sign == '-' || sign == '+') && IsHexDigit(d)
    ensures ParseStripped([sign, d]) == Some(if sign == '-' then -(HexDigitValue(d) as int) else HexDigitValue(d))
  {
  }
}


