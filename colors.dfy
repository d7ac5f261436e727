/**
 * Colour values of the contrast engine (`ColorDetector.unpack_color`,
 * `get_dominant_background_color`, `_rgb_float_to_int`): colours with real
 * channels in [0,1], 8-bit pixels, and the loosely typed values the PDF
 * layer hands over as colours.
 */
module Colors {
  import opened Common
  import opened Tally
  import opened HexCodes

  /** A colour as the engine keeps it: three channels, nominally in [0,1]. */
  datatype Color = Color(r: real, g: real, b: real)

  const White := Color(1.0, 1.0, 1.0)
  const Black := Color(0.0, 0.0, 0.0)

  predicate InUnitCube(c: Color)
  {
    0.0 <= c.r <= 1.0 && 0.0 <= c.g <= 1.0 && 0.0 <= c.b <= 1.0
  }

  /** `sum(color)`, used by the near-colour tests. */
  function Sum(c: Color): real
  {
    c.r + c.g + c.b
  }

  type Byte = x: int | 0 <= x < 256

  /** An 8-bit RGB triple: a rendered pixel, or a colour after `_rgb_float_to_int`. */
  datatype Rgb8 = Rgb8(r: Byte, g: Byte, b: Byte)

  /** `[c[0]/255, c[1]/255, c[2]/255]` for a pixel. */
  function PixelColor(p: Rgb8): (c: Color)
    ensures InUnitCube(c)
  {
    Color(p.r as real / 255.0, p.g as real / 255.0, p.b as real / 255.0)
  }

  // ---------------------------------------------------------------------
  // Dominant colour
  // ---------------------------------------------------------------------

  /** `tuple(int(c * 255) for c in color)`: the 8-bit bucket of a colour. */
  function Bucket(c: Color): IntRgb
  {
    IntRgb(Trunc(c.r * 255.0), Trunc(c.g * 255.0), Trunc(c.b * 255.0))
  }

  function Buckets(cs: seq<Color>): (bs: seq<IntRgb>)
    ensures |bs| == |cs|
    ensures forall i :: 0 <= i < |cs| ==> bs[i] == Bucket(cs[i])
  {
    seq(|cs|, i requires 0 <= i < |cs| => Bucket(cs[i]))
  }

  /** `[c / 255.0 for c in bucket]`. */
  function FromBucket(b: IntRgb): Color
  {
    Color(b.r as real / 255.0, b.g as real / 255.0, b.b as real / 255.0)
  }

  /**
   * `get_dominant_background_color`: the most frequent bucket, first-seen
   * on ties, converted back to [0,1]; white for no colours at all.
   */
  function DominantColor(cs: seq<Color>): Color
  {
    if |cs| == 0 then White
    else
      var bs := Buckets(cs);
      FromBucket(bs[FirstMost(bs)])
  }

  lemma BucketOfBucket(b: IntRgb)
    ensures Bucket(FromBucket(b)) == b
  {
    assert (b.r as real / 255.0) * 255.0 == b.r as real;
    assert (b.g as real / 255.0) * 255.0 == b.g as real;
    assert (b.b as real / 255.0) * 255.0 == b.b as real;
  }

  /** A sampled pixel lands in its own bucket. */
  lemma BucketOfPixel(p: Rgb8)
    ensures Bucket(PixelColor(p)) == IntRgb(p.r, p.g, p.b)
    ensures FromBucket(IntRgb(p.r, p.g, p.b)) == PixelColor(p)
  {
    BucketOfBucket(IntRgb(p.r, p.g, p.b));
  }

  /**
   * The dominant colour is a bucket of the input that no other bucket
   * outnumbers, and among equally frequent buckets it is the one seen
   * first; an empty input gives white.
   */
  lemma DominantColorIsFirstMostCommon(cs: seq<Color>)
    ensures |cs| == 0 ==> DominantColor(cs) == White
    ensures |cs| > 0 ==>
      var bs := Buckets(cs);
      var d := Bucket(DominantColor(cs));
      && d in bs
      && DominantColor(cs) == FromBucket(d)
      && (forall j :: 0 <= j < |bs| ==> Count(bs, bs[j]) <= Count(bs, d))
      && (forall j :: 0 <= j < |bs| && Count(bs, bs[j]) == Count(bs, d) ==> d in bs[..j + 1])
  {
    if |cs| > 0 {
      var bs := Buckets(cs);
      var k := FirstMost(bs);
      FirstMostIsFirstMost(bs);
      BucketOfBucket(bs[k]);
      var d := bs[k];
      forall j | 0 <= j < |bs| && Count(bs, bs[j]) == Count(bs, d)
        ensures d in bs[..j + 1]
      {
        assert k <= j;
        assert bs[..j + 1][k] == d;
      }
    }
  }

  /** If every sampled colour falls in one bucket, that bucket is the answer. */
  lemma DominantOfUniform(cs: seq<Color>, b: IntRgb)
    requires |cs| > 0
    requires forall i :: 0 <= i < |cs| ==> Bucket(cs[i]) == b
    ensures DominantColor(cs) == FromBucket(b)
  {
  }

  /** `[[c[0]/255, c[1]/255, c[2]/255] for c in pixels]`. */
  function PixelColors(ps: seq<Rgb8>): (cs: seq<Color>)
    ensures |cs| == |ps|
    ensures forall i :: 0 <= i < |ps| ==> cs[i] == PixelColor(ps[i])
  {
    seq(|ps|, i requires 0 <= i < |ps| => PixelColor(ps[i]))
  }

  /** The dominant colour of sampled pixels is the colour of one of those pixels. */
  lemma DominantOfPixels(ps: seq<Rgb8>)
    requires |ps| > 0
    ensures exists i :: 0 <= i < |ps| && DominantColor(PixelColors(ps)) == PixelColor(ps[i])
  {
    var cs := PixelColors(ps);
    DominantColorIsFirstMostCommon(cs);
    var bs := Buckets(cs);
    var d := Bucket(DominantColor(cs));
    var i :| 0 <= i < |bs| && bs[i] == d;
    BucketOfPixel(ps[i]);
  }

  /**
   * `get_dominant_background_color` as the source runs it: a list of
   * buckets, then `Counter(...).most_common(1)`.
   */
  method GetDominantBackgroundColor(colors: seq<Color>) returns (r: Color)
    ensures r == DominantColor(colors)
  {
    var tuples: seq<IntRgb> := [];
    for i := 0 to |colors|
      invariant |tuples| == i
      invariant forall m :: 0 <= m < i ==> tuples[m] == Bucket(colors[m])
    {
      tuples := tuples + [Bucket(colors[i])];
    }
    assert tuples == Buckets(colors);
    if |tuples| == 0 {
      return White;
    }
    var k, hits := MostCommon(tuples);
    r := FromBucket(tuples[k]);
  }

  // ---------------------------------------------------------------------
  // unpack_color
  // ---------------------------------------------------------------------

  /** One element of a list given as a colour: a number, or something `float()` rejects. */
  datatype Scalar = Num(x: real) | NotNumber

  /** The shapes a colour arrives in from the PDF layer. */
  datatype ColorValue =
    | NoneValue
    | ListValue(items: seq<Scalar>)
    | IntValue(n: int)
    | FloatValue(x: real)
    | StrValue(s: string)
    | OtherValue

  /** Python truthiness of such a value (`if not fill: ...`). */
  predicate Truthy(v: ColorValue)
  {
    match v
    case NoneValue => false
    case ListValue(items) => |items| > 0
    case IntValue(n) => n != 0
    case FloatValue(x) => x != 0.0
    case StrValue(s) => |s| > 0
    case OtherValue => true
  }

  /** A colour written back as a three-element list. */
  function AsList(c: Color): ColorValue
  {
    ListValue([Num(c.r), Num(c.g), Num(c.b)])
  }

  function Grey(x: real): Color
  {
    Color(x, x, x)
  }

  /** `0xRRGGBB`: bytes 2, 1 and 0 of a packed integer, over 255. */
  function Packed(n: nat): (c: Color)
    ensures InUnitCube(c)
  {
    Color(((n / 0x10000) % 256) as real / 255.0, ((n / 0x100) % 256) as real / 255.0, (n % 256) as real / 255.0)
  }

  /**
   * The channels of a hex string: one leading '#' removed, exactly six
   * characters, each pair read by `int(pair, 16)`.
   */
  function HexChannels(s: string): (r: Option<IntRgb>)
  {
    var h := if |s| > 0 && s[0] == '#' then s[1..] else s;
    if |h| != 6 then None
    else match (ParseHexInt(h[0..2]), ParseHexInt(h[2..4]), ParseHexInt(h[4..6]))
      case (Some(r), Some(g), Some(b)) => Some(IntRgb(r, g, b))
      case _ => None
  }

  /** Every case of `unpack_color` except strings. */
  function UnpackNonString(v: ColorValue): Option<Color>
    requires !v.StrValue?
  {
    match v
    case ListValue(items) =>
      if |items| >= 3 && items[0].Num? && items[1].Num? && items[2].Num?
      then Some(Color(Clamp01(items[0].x), Clamp01(items[1].x), Clamp01(items[2].x)))
      else None
    case IntValue(n) =>
      if n > 1 then Some(Packed(n)) else Some(Grey(Clamp01(n as real)))
    case FloatValue(x) => Some(Grey(Clamp01(x)))
    case _ => None
  }

  /** The hex branch as written: each parsed channel over 255. */
  function ScaledHex(hc: Option<IntRgb>): Option<Color>
  {
    match hc
    case Some(h) => Some(Color(h.r as real / 255.0, h.g as real / 255.0, h.b as real / 255.0))
    case None => None
  }

  /** The hex branch clamped into [0,1]. */
  function ClampedHex(hc: Option<IntRgb>): Option<Color>
  {
    match hc
    case Some(h) => Some(Color(Clamp01(h.r as real / 255.0), Clamp01(h.g as real / 255.0), Clamp01(h.b as real / 255.0)))
    case None => None
  }

  /**
   * `unpack_color` exactly as written: the hex branch divides the parsed
   * channel by 255 without clamping, so a signed chunk such as "-f" (which
   * `int(chunk, 16)` accepts) yields a channel below 0.
   */
  function UnpackColorAsWritten(v: ColorValue): Option<Color>
  {
    if v.StrValue? then ScaledHex(HexChannels(v.s)) else UnpackNonString(v)
  }

  /**
   * `unpack_color` with the hex branch clamped like every other branch,
   * so that every colour it returns lies in [0,1]. The rest of the model
   * uses this one.
   */
  function UnpackColor(v: ColorValue): Option<Color>
  {
    if v.StrValue? then ClampedHex(HexChannels(v.s)) else UnpackNonString(v)
  }

  /** Every colour `unpack_color` returns has its channels in [0,1]. */
  lemma UnpackInUnitCube(v: ColorValue)
    requires UnpackColor(v).Some?
    ensures InUnitCube(UnpackColor(v).value)
  {
  }

  /**
   * The list cases: three or more numeric elements give the first three
   * clamped; fewer than three give None; a non-numeric one of the first
   * three gives None instead of an exception.
   */
  lemma UnpackList(items: seq<Scalar>)
    ensures |items| < 3 ==> UnpackColor(ListValue(items)) == None
    ensures |items| >= 3 && (NotNumber in items[..3]) ==> UnpackColor(ListValue(items)) == None
    ensures |items| >= 3 && NotNumber !in items[..3] ==>
      UnpackColor(ListValue(items)) == Some(Color(Clamp01(items[0].x), Clamp01(items[1].x), Clamp01(items[2].x)))
  {
    if |items| >= 3 {
      assert items[..3] == [items[0], items[1], items[2]];
    }
  }

  /** Re-unpacking a colour written back as a list gives the same colour. */
  lemma UnpackIdempotent(v: ColorValue)
    requires UnpackColor(v).Some?
    ensures UnpackColor(AsList(UnpackColor(v).value)) == UnpackColor(v)
  {
    UnpackInUnitCube(v);
  }

  /**
   * Integers: 1 (and every integer below it) is a grey level, so
   * `unpack_color(1)` is white, not the packed colour 0x000001; above 1 only
   * the low 24 bits count.
   */
  lemma UnpackInt(n: int, k: nat)
    ensures UnpackColor(IntValue(1)) == Some(White)
    ensures UnpackColor(IntValue(0)) == Some(Black)
    ensures n > 1 ==> UnpackColor(IntValue(n + k * 0x1000000)) == UnpackColor(IntValue(n))
  {
    if n > 1 {
      PackedLow24(n, k);
    }
  }

  /** Only the low 24 bits of a packed integer make its colour. */
  lemma PackedLow24(n: nat, k: nat)
    ensures Packed(n + k * 0x1000000) == Packed(n)
  {
    Shift16(n, k * 256);
    Shift8(n / 0x10000, k);
    Shift8(n, k * 0x10000);
    Shift8(n / 0x100, k * 256);
  }

  lemma Shift8(a: int, j: int)
    ensures (a + 256 * j) / 256 == a / 256 + j && (a + 256 * j) % 256 == a % 256
  {
  }

  lemma Shift16(a: int, j: int)
    ensures (a + 0x10000 * j) / 0x10000 == a / 0x10000 + j
  {
  }

  /** Values that are not colours give None rather than raising. */
  lemma UnpackRejects(s: string)
    ensures UnpackColor(NoneValue) == None && UnpackColor(OtherValue) == None
    ensures HexChannels(s).None? ==> UnpackColor(StrValue(s)) == None
  {
  }

  /**
   * The discrepancy of the hex branch as written: "-f0000" passes the
   * six-character test, `int("-f", 16)` is -15, and the returned red channel
   * is -15/255, outside [0,1]; writing it back as a list and unpacking again
   * clamps it, so the as-written function is not idempotent there.
   */
  lemma AsWrittenSignedHexLeavesUnitRange(s: string)
    requires HexChannels(s) == Some(IntRgb(-15, 0, 0))
    ensures UnpackColorAsWritten(StrValue(s)).Some?
    ensures UnpackColorAsWritten(StrValue(s)).value == Color(-15.0 / 255.0, 0.0, 0.0)
    ensures !InUnitCube(UnpackColorAsWritten(StrValue(s)).value)
    ensures UnpackColorAsWritten(AsList(UnpackColorAsWritten(StrValue(s)).value)) == Some(Black)
  {
    UnpackHexAsWritten(s);
    ReunpackNegativeRed(Color(-15.0 / 255.0, 0.0, 0.0));
  }

  lemma UnpackHexAsWritten(s: string)
    ensures UnpackColorAsWritten(StrValue(s)) == ScaledHex(HexChannels(s))
  {
  }

  lemma ReunpackNegativeRed(c: Color)
    requires c == Color(-15.0 / 255.0, 0.0, 0.0)
    ensures !InUnitCube(c)
    ensures UnpackColorAsWritten(AsList(c)) == Some(Black)
  {
    var v := AsList(c);
    assert !v.StrValue?;
    assert UnpackNonString(v) == Some(Color(Clamp01(c.r), Clamp01(c.g), Clamp01(c.b)));
  }

  /** `unpack_color`'s hex test on '#'-less six characters reads exactly their three pairs. */
  lemma {:induction false} HexChannelsOfSix(x: string, y: string, z: string)
    requires |x| == 2 && |y| == 2 && |z| == 2 && x[0] != '#'
    ensures HexChannels(x + y + z) ==
      match (ParseHexInt(x), ParseHexInt(y), ParseHexInt(z))
      case (Some(r), Some(g), Some(b)) => Some(IntRgb(r, g, b))
      case _ => None
  {
    var h := x + y + z;
    assert h[0..2] == x && h[2..4] == y && h[4..6] == z;
  }

  lemma HexChannelsOfSignedRed(s: string)
    requires |s| == 6 && s[0] == '-' && s[1] == 'f' && s[2] == '0' && s[3] == '0' && s[4] == '0' && s[5] == '0'
    ensures HexChannels(s) == Some(IntRgb(-15, 0, 0))
  {
    SignedPair(s);
    ZeroPair(s, 2);
    ZeroPair(s, 4);
    HexChannelsOfParsed(s, -15, 0, 0);
  }

  lemma SignedPair(s: string)
    requires |s| >= 2 && s[0] == '-' && s[1] == 'f'
    ensures ParseHexInt(s[0..2]) == Some(-15)
  {
    SignedPairValue(s[0..2]);
  }

  lemma ZeroPair(s: string, i: nat)
    requires i + 2 <= |s| && s[i] == '0' && s[i + 1] == '0'
    ensures ParseHexInt(s[i..i + 2]) == Some(0)
  {
    PairValue(s[i..i + 2]);
  }

  /** Six characters not starting with '#' whose pairs parse give those three channels. */
  lemma HexChannelsOfParsed(s: string, r: int, g: int, b: int)
    requires |s| == 6 && s[0] != '#'
    requires ParseHexInt(s[0..2]) == Some(r) && ParseHexInt(s[2..4]) == Some(g) && ParseHexInt(s[4..6]) == Some(b)
    ensures HexChannels(s) == Some(IntRgb(r, g, b))
  {
  }

  // ---------------------------------------------------------------------
  // _rgb_float_to_int
  // ---------------------------------------------------------------------

  /** Python's `round(x)` on a real: nearest integer, halves to the even one. */
  function RoundHalfEven(x: real): (n: int)
    ensures -0.5 <= n as real - x <= 0.5
    ensures n as real - x == 0.5 || x - n as real == 0.5 ==> n % 2 == 0
  {
    var f := x.Floor;
    var d := x - f as real;
    if d < 0.5 then f
    else if d > 0.5 then f + 1
    else if f % 2 == 0 then f
    else f + 1
  }

  /** `max(0, min(255, n))`. */
  function ClampByte(n: int): (b: Byte)
    ensures 0 <= n < 256 ==> b == n
  {
    if n < 0 then 0 else if n > 255 then 255 else n
  }

  /** `_rgb_float_to_int`: each channel times 255, rounded half-to-even, clamped to a byte. */
  function RgbFloatToInt(c: Color): Rgb8
  {
    Rgb8(ClampByte(RoundHalfEven(c.r * 255.0)), ClampByte(RoundHalfEven(c.g * 255.0)), ClampByte(RoundHalfEven(c.b * 255.0)))
  }

  /** For a channel in [0,1] the byte is within half a step of `c * 255`. */
  lemma RgbFloatToIntNearest(c: Color)
    requires InUnitCube(c)
    ensures Abs(RgbFloatToInt(c).r as real - c.r * 255.0) <= 0.5
    ensures Abs(RgbFloatToInt(c).g as real - c.g * 255.0) <= 0.5
    ensures Abs(RgbFloatToInt(c).b as real - c.b * 255.0) <= 0.5
  {
    ByteOfChannel(c.r);
    ByteOfChannel(c.g);
    ByteOfChannel(c.b);
  }

  lemma ByteOfChannel(x: real)
    requires 0.0 <= x <= 1.0
    ensures 0 <= RoundHalfEven(x * 255.0) <= 255
    ensures ClampByte(RoundHalfEven(x * 255.0)) == RoundHalfEven(x * 255.0)
  {
  }

  /** A pixel's colour converts back to the same pixel. */
  lemma RgbFloatToIntOfPixel(p: Rgb8)
    ensures RgbFloatToInt(PixelColor(p)) == p
  {
    assert (p.r as real / 255.0) * 255.0 == p.r as real;
    assert (p.g as real / 255.0) * 255.0 == p.g as real;
    assert (p.b as real / 255.0) * 255.0 == p.b as real;
  }
}
