/**
 * The contrast picker of the weather widget: a background colour written as
 * `#RRGGBB` is decoded into three channels, their weighted luminance is
 * compared against 128, and black or white is chosen as the text colour.
 *
 * Luminance is kept exact by scaling the weights 0.2126, 0.7152 and 0.0722
 * by 10000, so the source's test `luminance > 128` becomes
 * `2126 r + 7152 g + 722 b > 1280000`.
 */
module Contrast {

  /** The characters that a radix-16 `parseInt` reads as a digit. */
  predicate IsHexDigit(c: char) {
    ('0' <= c <= '9') || ('a' <= c <= 'f') || ('A' <= c <= 'F')
  }

  /** The digits of the canonical upper-case spelling. */
  predicate IsUpperHexDigit(c: char) {
    ('0' <= c <= '9') || ('A' <= c <= 'F')
  }

  function DigitValue(c: char): (v: nat)
    requires IsHexDigit(c)
    ensures v < 16
  {
    if '0' <= c <= '9' then c as int - '0' as int
    else if 'a' <= c <= 'f' then c as int - 'a' as int + 10
    else c as int - 'A' as int + 10
  }

  /** The upper-case digit of a value below 16. */
  function DigitChar(v: nat): (c: char)
    requires v < 16
    ensures IsUpperHexDigit(c)
  {
    if v < 10 then ('0' as int + v) as char else ('A' as int + v - 10) as char
  }

  lemma DigitCharValue(v: nat)
    requires v < 16
    ensures DigitValue(DigitChar(v)) == v
  {
  }

  lemma DigitValueChar(c: char)
    requires IsUpperHexDigit(c)
    ensures DigitChar(DigitValue(c)) == c
  {
  }

  /** `parseInt(s, 16)` of a two-digit slice. */
  function ParseByte(s: string): (n: nat)
    requires |s| == 2 && IsHexDigit(s[0]) && IsHexDigit(s[1])
    ensures n < 256
  {
    16 * DigitValue(s[0]) + DigitValue(s[1])
  }

  /** Two-digit upper-case hexadecimal spelling of a channel value. */
  function FormatByte(n: nat): (s: string)
    requires n < 256
    ensures |s| == 2 && IsUpperHexDigit(s[0]) && IsUpperHexDigit(s[1])
  {
    [DigitChar(n / 16), DigitChar(n % 16)]
  }

  lemma ParseFormatByte(n: nat)
    requires n < 256
    ensures ParseByte(FormatByte(n)) == n
  {
    DigitCharValue(n / 16);
    DigitCharValue(n % 16);
  }

  lemma FormatParseByte(s: string)
    requires |s| == 2 && IsUpperHexDigit(s[0]) && IsUpperHexDigit(s[1])
    ensures FormatByte(ParseByte(s)) == s
  {
    var hi, lo := DigitValue(s[0]), DigitValue(s[1]);
    DigitValueChar(s[0]);
    DigitValueChar(s[1]);
    assert (16 * hi + lo) / 16 == hi && (16 * hi + lo) % 16 == lo;
  }

  /**
   * What the decoder reads: the six characters at positions 1 to 6 are
   * hexadecimal digits. The character at position 0 (the `#`) and anything
   * after position 6 are never looked at.
   */
  predicate Decodable(hex: string) {
    |hex| >= 7 && forall i | 1 <= i < 7 :: IsHexDigit(hex[i])
  }

  /** The canonical spelling: `#` followed by six upper-case digits. */
  predicate IsCanonical(hex: string) {
    |hex| == 7 && hex[0] == '#' && forall i | 1 <= i < 7 :: IsUpperHexDigit(hex[i])
  }

  /** A colour string the decoder can read. */
  type HexColour = s: string | Decodable(s) witness "#000000"

  datatype Rgb = Rgb(red: nat, green: nat, blue: nat)

  predicate InRange(c: Rgb) {
    c.red < 256 && c.green < 256 && c.blue < 256
  }

  /** The three channels, from `slice(1, 3)`, `slice(3, 5)` and `slice(5, 7)`. */
  function Decode(hex: string): (c: Rgb)
    requires Decodable(hex)
    ensures InRange(c)
  {
    Rgb(ParseByte(hex[1..3]), ParseByte(hex[3..5]), ParseByte(hex[5..7]))
  }

  function Encode(c: Rgb): (hex: string)
    requires InRange(c)
    ensures IsCanonical(hex) && Decodable(hex)
  {
    "#" + FormatByte(c.red) + FormatByte(c.green) + FormatByte(c.blue)
  }

  /** Decoding inverts the two-digit encoding of each channel. */
  lemma DecodeEncode(c: Rgb)
    requires InRange(c)
    ensures Decode(Encode(c)) == c
  {
    var hex := Encode(c);
    assert hex[1..3] == FormatByte(c.red);
    assert hex[3..5] == FormatByte(c.green);
    assert hex[5..7] == FormatByte(c.blue);
    ParseFormatByte(c.red);
    ParseFormatByte(c.green);
    ParseFormatByte(c.blue);
  }

  /** A canonical colour string is the encoding of what it decodes to. */
  lemma EncodeDecode(hex: string)
    requires IsCanonical(hex)
    ensures Decodable(hex) && Encode(Decode(hex)) == hex
  {
    FormatParseByte(hex[1..3]);
    FormatParseByte(hex[3..5]);
    FormatParseByte(hex[5..7]);
    assert hex == [hex[0]] + hex[1..3] + hex[3..5] + hex[5..7];
  }

  /** Luminance scaled by 10000, in exact integers. */
  function Luminance(c: Rgb): (l: nat)
    ensures InRange(c) ==> l <= 2550000
  {
    2126 * c.red + 7152 * c.green + 722 * c.blue
  }

  /** The source's formula `0.2126 r + 0.7152 g + 0.0722 b`, over exact reals. */
  function SourceLuminance(c: Rgb): (l: real)
    ensures InRange(c) ==> 0.0 <= l <= 255.0
  {
    0.2126 * c.red as real + 0.7152 * c.green as real + 0.0722 * c.blue as real
  }

  /** `luminance > 128`, scaled by 10000. */
  const Threshold: nat := 1280000

  const Black: string := "#000000"
  const White: string := "#FFFFFF"

  lemma ScaledLuminanceIsExact(c: Rgb)
    ensures Luminance(c) as real == 10000.0 * SourceLuminance(c)
    ensures Luminance(c) > Threshold <==> SourceLuminance(c) > 128.0
  {
  }

  /**
   * `calculateContrast`: black text on a background brighter than 128,
   * white text otherwise.
   */
  function CalculateContrast(hex: string): (fg: string)
    requires Decodable(hex)
    ensures fg == Black || fg == White
    ensures fg == Black <==> SourceLuminance(Decode(hex)) > 128.0
  {
    ScaledLuminanceIsExact(Decode(hex));
    if Luminance(Decode(hex)) > Threshold then Black else White
  }

  /** Black and white backgrounds get the opposite text colour. */
  lemma ContrastOfExtremes()
    ensures CalculateContrast(Black) == White
    ensures CalculateContrast(White) == Black
  {
    assert Decode(Black) == Rgb(0, 0, 0);
    assert Decode(White) == Rgb(255, 255, 255);
  }

  /**
   * The comparison is strict: mid grey has luminance exactly 128 and gets
   * white text.
   */
  lemma ExactBoundaryIsWhite()
    ensures Decodable("#808080")
    ensures SourceLuminance(Decode("#808080")) == 128.0
    ensures CalculateContrast("#808080") == White
  {
    assert Decode("#808080") == Rgb(128, 128, 128);
  }

  /** The widget's default background `#4A90E2` calls for black text. */
  lemma DefaultBackgroundIsLight()
    ensures Decodable("#4A90E2")
    ensures CalculateContrast("#4A90E2") == Black
  {
    assert Decode("#4A90E2") == Rgb(74, 144, 226);
  }

  /** A background at least as bright in every channel keeps black text. */
  lemma ContrastMonotone(dark: string, light: string)
    requires Decodable(dark) && Decodable(light)
    requires Decode(dark).red <= Decode(light).red
    requires Decode(dark).green <= Decode(light).green
    requires Decode(dark).blue <= Decode(light).blue
    ensures CalculateContrast(dark) == Black ==> CalculateContrast(light) == Black
  {
  }

  /** The upper-case spelling of a lower-case digit. */
  function UpperCase(c: char): (u: char)
    requires 'a' <= c <= 'f'
    ensures 'A' <= u <= 'F'
  {
    ((c as int) - 32) as char
  }

  /** A lower-case digit has the value of its upper-case spelling. */
  lemma LowerMatchesUpper(c: char)
    requires 'a' <= c <= 'f'
    ensures DigitValue(c) == DigitValue(UpperCase(c))
  {
  }

  /**
   * Strings that differ only in the case of their digits decode alike and
   * get the same contrast.
   */
  lemma DecodeIgnoresCase(a: string, b: string)
    requires Decodable(a) && |b| >= 7
    requires forall i | 1 <= i < 7 :: b[i] == a[i] || ('a' <= a[i] <= 'f' && b[i] == UpperCase(a[i]))
    ensures Decodable(b) && Decode(a) == Decode(b) && CalculateContrast(a) == CalculateContrast(b)
  {
    forall i | 1 <= i < 7
      ensures IsHexDigit(b[i]) && DigitValue(a[i]) == DigitValue(b[i])
    {
      if b[i] != a[i] {
        LowerMatchesUpper(a[i]);
      }
    }
    assert DigitValue(a[1..3][0]) == DigitValue(b[1..3][0]) && DigitValue(a[1..3][1]) == DigitValue(b[1..3][1]);
    assert DigitValue(a[3..5][0]) == DigitValue(b[3..5][0]) && DigitValue(a[3..5][1]) == DigitValue(b[3..5][1]);
    assert DigitValue(a[5..7][0]) == DigitValue(b[5..7][0]) && DigitValue(a[5..7][1]) == DigitValue(b[5..7][1]);
  }
}
