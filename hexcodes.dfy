/**
 * Hexadecimal colour codes: Python's `int(chunk, 16)` on the short chunks
 * the colour helpers slice out, `hex_to_rgb` and the `rgb_to_hex` that
 * formats summary colours.
 */
module HexCodes {
  import opened Common

  /** An integer triple such as `hex_to_rgb` returns. */
  datatype IntRgb = IntRgb(r: int, g: int, b: int)

  /** The squared Euclidean distance of two integer triples. */
  function Dist2(a: IntRgb, b: IntRgb): int
  {
    (a.r - b.r) * (a.r - b.r) + (a.g - b.g) * (a.g - b.g) + (a.b - b.b) * (a.b - b.b)
  }

  /** Value of one hexadecimal digit, either case. */
  function HexDigit(c: char): (d: Option<nat>)
    ensures d.Some? ==> d.value < 16
  {
    if '0' <= c <= '9' then Some(c as int - '0' as int)
    else if 'a' <= c <= 'f' then Some(c as int - 'a' as int + 10)
    else if 'A' <= c <= 'F' then Some(c as int - 'A' as int + 10)
    else None
  }

  /** Value of a non-empty run of hexadecimal digits, or None. */
  function HexDigitsValue(ds: string): (v: Option<nat>)
    ensures v.Some? ==> |ds| > 0
  {
    if |ds| == 0 then None
    else
      var last := HexDigit(ds[|ds| - 1]);
      if last.None? then None
      else if |ds| == 1 then last
      else match HexDigitsValue(ds[..|ds| - 1])
        case None => None
        case Some(high) => Some(high * 16 + last.value)
  }

  /**
   * Python's `int(s, 16)` as it applies to the one- and two-character
   * chunks sliced out of colour strings: surrounding whitespace is ignored,
   * one leading sign is accepted, and the rest must be hexadecimal digits;
   * anything else raises `ValueError`, modelled as None.
   */
  function ParseHexInt(s: string): (v: Option<int>)
  {
    var t := Strip(s);
    if |t| > 0 && (t[0] == '+' || t[0] == '-') then
      match HexDigitsValue(t[1..])
      case None => None
      case Some(n) =>
        var v: int := n;
        Some(if t[0] == '-' then -v else v)
    else
      match HexDigitsValue(t)
      case None => None
      case Some(n) => Some(n)
  }

  /** Python's `s[i:i+2]` (clipped to the end of the string). */
  function Chunk(s: string, i: nat): (c: string)
    ensures |c| <= 2
  {
    if i >= |s| then "" else if i + 2 <= |s| then s[i..i + 2] else s[i..]
  }

  /** `hex_color.lstrip('#')`: drops every leading '#'. */
  function LStripHash(s: string): (r: string)
    ensures |r| > 0 ==> r[0] != '#'
  {
    if |s| > 0 && s[0] == '#' then LStripHash(s[1..]) else s
  }

  /** The three-digit shorthand `"abc"` becomes `"aabbcc"`. */
  function ExpandShorthand(h: string): (r: string)
  {
    if |h| == 3 then [h[0], h[0], h[1], h[1], h[2], h[2]] else h
  }

  /**
   * `hex_to_rgb`: strips leading '#', expands three-digit shorthand and
   * parses the chunks at 0, 2 and 4. A chunk that is empty or not a
   * number raises `ValueError` in the source, modelled as None.
   */
  function HexToRgb(hexColor: string): (r: Option<IntRgb>)
  {
    var h := ExpandShorthand(LStripHash(hexColor));
    match (ParseHexInt(Chunk(h, 0)), ParseHexInt(Chunk(h, 2)), ParseHexInt(Chunk(h, 4)))
    case (Some(r), Some(g), Some(b)) => Some(IntRgb(r, g, b))
    case _ => None
  }

  /** Upper-case hexadecimal digit for 0..15. */
  function HexChar(d: nat): (c: char)
    requires d < 16
  {
    "0123456789ABCDEF"[d]
  }

  /** Upper-case hexadecimal numeral of `n`, without leading zeros. */
  function HexUpper(n: nat): (s: string)
    ensures |s| > 0
    decreases n
  {
    if n < 16 then [HexChar(n)] else HexUpper(n / 16) + [HexChar(n % 16)]
  }

  /** Python's `format(n, '02X')`: at least two characters, zero-padded after any sign. */
  function Format02X(n: int): (s: string)
    ensures |s| >= 2
  {
    if n >= 16 then HexUpper(n)
    else if n >= 0 then ['0', HexChar(n)]
    else "-" + HexUpper(-n)
  }

  /** `rgb_to_hex(rgb)`: `'#{:02X}{:02X}{:02X}'.format(*rgb)`. */
  function RgbToHex(c: IntRgb): (s: string)
  {
    "#" + Format02X(c.r) + Format02X(c.g) + Format02X(c.b)
  }

  lemma HexCharRoundTrip(d: nat)
    requires d < 16
    ensures HexDigit(HexChar(d)) == Some(d)
    ensures !IsSpace(HexChar(d)) && HexChar(d) != '+' && HexChar(d) != '-' && HexChar(d) != '#'
  {
  }

  /** Every byte value formats as exactly two hexadecimal digits. */
  lemma {:induction false} Format02XOfByte(n: int)
    requires 0 <= n < 256
    ensures Format02X(n) == [HexChar(n / 16), HexChar(n % 16)]
  {
    if n >= 16 {
      assert HexUpper(n / 16) == [HexChar(n / 16)];
    }
  }

  /** Two digits produced by the formatter parse back to the byte. */
  lemma {:induction false} ParseFormattedByte(n: int)
    requires 0 <= n < 256
    ensures |Format02X(n)| == 2
    ensures ParseHexInt(Format02X(n)) == Some(n)
  {
    Format02XOfByte(n);
    var s := Format02X(n);
    HexCharRoundTrip(n / 16);
    HexCharRoundTrip(n % 16);
    StripNoSpace(s);
    assert s[..1] == [HexChar(n / 16)];
    assert HexDigitsValue(s[..1]) == Some(n / 16);
  }

  /** A string without whitespace is left alone by `strip()`. */
  lemma {:induction false} StripNoSpace(s: string)
    requires forall i :: 0 <= i < |s| ==> !IsSpace(s[i])
    ensures Strip(s) == s
  {
    assert LStrip(s) == s;
    assert RStrip(s) == s;
  }

  /** The three chunks of a six-character code are its consecutive pairs. */
  lemma SixChunks(x: string, y: string, z: string)
    requires |x| == 2 && |y| == 2 && |z| == 2
    ensures Chunk(x + y + z, 0) == x && Chunk(x + y + z, 2) == y && Chunk(x + y + z, 4) == z
  {
    var h := x + y + z;
    assert h[0..2] == x;
    assert h[2..4] == y;
    assert h[4..6] == z;
  }

  /** `hex_to_rgb` on '#' followed by three two-character chunks parses exactly those chunks. */
  lemma {:induction false} HexToRgbOfSix(x: string, y: string, z: string)
    requires |x| == 2 && |y| == 2 && |z| == 2 && x[0] != '#'
    ensures HexToRgb("#" + x + y + z) ==
      match (ParseHexInt(x), ParseHexInt(y), ParseHexInt(z))
      case (Some(r), Some(g), Some(b)) => Some(IntRgb(r, g, b))
      case _ => None
  {
    var h := x + y + z;
    var s := "#" + x + y + z;
    assert s == "#" + h && s[1..] == h;
    assert LStripHash(h) == h;
    assert LStripHash(s) == h;
    assert ExpandShorthand(h) == h;
    SixChunks(x, y, z);
  }

  /**
   * Round trip of the two summary helpers: formatting a byte triple with
   * `rgb_to_hex` and reading it back with `hex_to_rgb` returns the triple.
   */
  lemma {:induction false} HexRoundTrip(r: int, g: int, b: int)
    requires 0 <= r < 256 && 0 <= g < 256 && 0 <= b < 256
    ensures |RgbToHex(IntRgb(r, g, b))| == 7
    ensures HexToRgb(RgbToHex(IntRgb(r, g, b))) == Some(IntRgb(r, g, b))
  {
    var x, y, z := Format02X(r), Format02X(g), Format02X(b);
    ParseFormattedByte(r);
    ParseFormattedByte(g);
    ParseFormattedByte(b);
    Format02XOfByte(r);
    HexCharRoundTrip(r / 16);
    assert RgbToHex(IntRgb(r, g, b)) == "#" + x + y + z;
    HexToRgbOfSix(x, y, z);
  }

  /** The three-digit shorthand reads as its doubled six-digit form. */
  lemma ShorthandReadsDoubled(a: char, b: char, c: char)
    requires a != '#'
    ensures HexToRgb([a, b, c]) == HexToRgb([a, a, b, b, c, c])
  {
    assert LStripHash([a, b, c]) == [a, b, c];
    assert LStripHash([a, a, b, b, c, c]) == [a, a, b, b, c, c];
  }

  /** A chunk that parses is at most 255 and at least -15: two characters hold at most two digits. */
  lemma {:induction false} ParsedChunkRange(s: string)
    requires |s| <= 2
    requires ParseHexInt(s).Some?
    ensures -15 <= ParseHexInt(s).value <= 255
  {
    var t := Strip(s);
    if |t| > 0 && (t[0] == '+' || t[0] == '-') {
      var u := t[1..];
      assert |u| <= 1;
      assert HexDigitsValue(u).value < 16;
    } else {
      if |t| == 2 {
        assert HexDigitsValue(t[..1]).value < 16;
      }
    }
  }

  /** A signed chunk such as "-f" is accepted by `int(s, 16)` and is negative. */
  lemma SignedChunkIsNegative()
    ensures ParseHexInt("-f") == Some(-15)
  {
    SignedPairValue("-f");
  }

  /** Two hexadecimal digits read as one byte. */
  lemma PairValue(z: string)
    requires |z| == 2 && HexDigit(z[0]).Some? && HexDigit(z[1]).Some?
    ensures ParseHexInt(z) == Some(HexDigit(z[0]).value * 16 + HexDigit(z[1]).value)
  {
    DigitNotSpace(z[0]);
    DigitNotSpace(z[1]);
    assert forall i :: 0 <= i < |z| ==> !IsSpace(z[i]) by {
      forall i | 0 <= i < |z|
        ensures !IsSpace(z[i])
      {
        assert i == 0 || i == 1;
      }
    }
    StripNoSpace(z);
    HexDigitsPair(z);
  }

  lemma DigitNotSpace(c: char)
    requires HexDigit(c).Some?
    ensures !IsSpace(c) && c != '+' && c != '-'
  {
  }

  lemma HexDigitsPair(z: string)
    requires |z| == 2 && HexDigit(z[0]).Some? && HexDigit(z[1]).Some?
    ensures HexDigitsValue(z) == Some(HexDigit(z[0]).value * 16 + HexDigit(z[1]).value)
  {
    assert z[..1] == [z[0]];
    assert HexDigitsValue(z[..1]) == HexDigit(z[0]);
  }

  /** A minus sign and one hexadecimal digit read as that digit negated. */
  lemma SignedPairValue(z: string)
    requires |z| == 2 && z[0] == '-' && HexDigit(z[1]).Some?
    ensures ParseHexInt(z) == Some(-(HexDigit(z[1]).value as int))
  {
    StripNoSpace(z);
    assert z[1..] == [z[1]];
  }
}
