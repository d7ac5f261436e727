/**
 * Pixel sampling of `ColorDetector` (`sample_pixels`, `sample_sleeve`,
 * `sample_bg_inside_span`, the pixel path of `get_text_color`) over a pixel
 * grid. Rendering a clip of the page is a parameter: a `Renderer` maps a
 * clip rectangle and a zoom factor to the rendered image, or to `None` when
 * rendering raises.
 */
module Sampling {
  import opened Common
  import opened Tally
  import opened HexCodes
  import opened Colors
  import opened Geometry

  /** A rendered pixmap: `width` columns and one sequence of pixels per row. */
  datatype Raster = Raster(width: nat, rows: seq<seq<Rgb8>>)

  predicate WellFormed(r: Raster)
  {
    forall y :: 0 <= y < |r.rows| ==> |r.rows[y]| == r.width
  }

  type Image = r: Raster | WellFormed(r) witness Raster(0, [])

  function Height(im: Image): nat
  {
    |im.rows|
  }

  /** `img.getpixel((x, y))`. */
  function Pixel(im: Image, x: nat, y: nat): Rgb8
    requires x < im.width && y < Height(im)
  {
    im.rows[y][x]
  }

  /** `page.get_pixmap(matrix=fitz.Matrix(zoom, zoom), clip=rect)`, `None` when it raises. */
  type Renderer = (Rect, nat) -> Option<Image>

  // ---------------------------------------------------------------------
  // Filtered row-major scan
  // ---------------------------------------------------------------------

  /** The per-pixel tests the samplers apply while scanning an image. */
  datatype PixelFilter =
    | OutsideInset(inset: int)          // sleeve mask: not inside the inclusive rectangle [inset, w - inset] x [inset, h - inset]
    | FarFrom(txt: IntRgb, dist: int)   // Manhattan distance from `txt` larger than `dist`
    | AwayFromSum(bgSum: real, gap: real) // channel sum differs from `bgSum` by more than `gap`

  predicate Keep(f: PixelFilter, w: int, h: int, x: int, y: int, p: Rgb8)
  {
    match f
    case OutsideInset(m) => !(m <= x <= w - m && m <= y <= h - m)
    case FarFrom(t, d) => IntAbs(p.r - t.r) + IntAbs(p.g - t.g) + IntAbs(p.b - t.b) > d
    case AwayFromSum(s, gap) => Abs(Sum(PixelColor(p)) - s) > gap
  }

  /** Kept pixels among the first `n` of row `y`. */
  function KeptInRow(im: Image, f: PixelFilter, y: nat, n: nat): seq<Rgb8>
    requires y < Height(im) && n <= im.width
  {
    if n == 0 then []
    else
      var p := Pixel(im, n - 1, y);
      KeptInRow(im, f, y, n - 1) + (if Keep(f, im.width, Height(im), n - 1, y, p) then [p] else [])
  }

  /** Kept pixels of the first `m` rows, row by row. */
  function KeptRows(im: Image, f: PixelFilter, m: nat): seq<Rgb8>
    requires m <= Height(im)
  {
    if m == 0 then [] else KeptRows(im, f, m - 1) + KeptInRow(im, f, m - 1, im.width)
  }

  /** `[px for px in img (row-major) if keep(px)]`. */
  function Kept(im: Image, f: PixelFilter): seq<Rgb8>
  {
    KeptRows(im, f, Height(im))
  }

  lemma {:induction false} KeptInRowMembers(im: Image, f: PixelFilter, y: nat, n: nat, p: Rgb8)
    requires y < Height(im) && n <= im.width
    ensures p in KeptInRow(im, f, y, n) <==>
      exists x: nat :: x < n && Pixel(im, x, y) == p && Keep(f, im.width, Height(im), x, y, p)
  {
    if n > 0 {
      KeptInRowMembers(im, f, y, n - 1, p);
    }
  }

  lemma {:induction false} KeptRowsMembers(im: Image, f: PixelFilter, m: nat, p: Rgb8)
    requires m <= Height(im)
    ensures p in KeptRows(im, f, m) <==>
      exists x: nat, y: nat :: x < im.width && y < m && Pixel(im, x, y) == p && Keep(f, im.width, Height(im), x, y, p)
  {
    if m > 0 {
      KeptRowsMembers(im, f, m - 1, p);
      KeptInRowMembers(im, f, m - 1, im.width, p);
      if p in KeptInRow(im, f, m - 1, im.width) {
        var x: nat :| x < im.width && Pixel(im, x, m - 1) == p && Keep(f, im.width, Height(im), x, m - 1, p);
        assert x < im.width && m - 1 < m && Pixel(im, x, m - 1) == p;
      }
    }
  }

  /** The scan keeps exactly the pixels of the image that pass the filter. */
  lemma KeptMembers(im: Image, f: PixelFilter, p: Rgb8)
    ensures p in Kept(im, f) <==>
      exists x: nat, y: nat :: x < im.width && y < Height(im) && Pixel(im, x, y) == p && Keep(f, im.width, Height(im), x, y, p)
  {
    KeptRowsMembers(im, f, Height(im), p);
  }

  /** With a filter that looks only at the pixel value, every kept pixel passes it. */
  lemma KeptPassFilter(im: Image, f: PixelFilter, i: int)
    requires !f.OutsideInset? && 0 <= i < |Kept(im, f)|
    ensures Keep(f, 0, 0, 0, 0, Kept(im, f)[i])
  {
    KeptMembers(im, f, Kept(im, f)[i]);
  }

  /** Scans the image row by row, collecting the pixels the filter keeps. */
  method CollectPixels(im: Image, f: PixelFilter) returns (ps: seq<Rgb8>)
    ensures ps == Kept(im, f)
  {
    ps := [];
    var y := 0;
    while y < Height(im)
      invariant 0 <= y <= Height(im)
      invariant ps == KeptRows(im, f, y)
    {
      var x := 0;
      while x < im.width
        invariant 0 <= x <= im.width
        invariant ps == KeptRows(im, f, y) + KeptInRow(im, f, y, x)
      {
        var p := im.rows[y][x];
        if Keep(f, im.width, Height(im), x, y, p) {
          ps := ps + [p];
        }
        x := x + 1;
      }
      y := y + 1;
    }
  }

  // ---------------------------------------------------------------------
  // Border ring (`sample_pixels`)
  // ---------------------------------------------------------------------

  /** Top and bottom pixels of the first `n` columns, pairwise. */
  function TopBottom(im: Image, n: nat): seq<Rgb8>
    requires Height(im) > 0 && n <= im.width
  {
    if n == 0 then [] else TopBottom(im, n - 1) + [Pixel(im, n - 1, 0), Pixel(im, n - 1, Height(im) - 1)]
  }

  /** Left and right pixels of the first `n` rows, pairwise. */
  function LeftRight(im: Image, n: nat): seq<Rgb8>
    requires im.width > 0 && n <= Height(im)
  {
    if n == 0 then [] else LeftRight(im, n - 1) + [Pixel(im, 0, n - 1), Pixel(im, im.width - 1, n - 1)]
  }

  /** The 1-pixel frame in the order `sample_pixels` visits it. */
  function BorderRing(im: Image): seq<Rgb8>
    requires im.width > 0 && Height(im) > 0
  {
    TopBottom(im, im.width) + LeftRight(im, Height(im))
  }

  predicate OnBorder(im: Image, x: nat, y: nat)
  {
    x < im.width && y < Height(im) && (x == 0 || x == im.width - 1 || y == 0 || y == Height(im) - 1)
  }

  /** A pixel of the top-and-bottom part of the ring comes from the first or last row. */
  lemma {:induction false} TopBottomSource(im: Image, n: nat, p: Rgb8) returns (x: nat)
    requires Height(im) > 0 && n <= im.width && p in TopBottom(im, n)
    ensures x < n && (Pixel(im, x, 0) == p || Pixel(im, x, Height(im) - 1) == p)
  {
    if p in TopBottom(im, n - 1) {
      x := TopBottomSource(im, n - 1, p);
    } else {
      x := n - 1;
    }
  }

  lemma {:induction false} TopBottomHas(im: Image, n: nat, x: nat)
    requires Height(im) > 0 && x < n <= im.width
    ensures Pixel(im, x, 0) in TopBottom(im, n) && Pixel(im, x, Height(im) - 1) in TopBottom(im, n)
  {
    if x < n - 1 {
      TopBottomHas(im, n - 1, x);
    }
  }

  /** A pixel of the left-and-right part of the ring comes from the first or last column. */
  lemma {:induction false} LeftRightSource(im: Image, n: nat, p: Rgb8) returns (y: nat)
    requires im.width > 0 && n <= Height(im) && p in LeftRight(im, n)
    ensures y < n && (Pixel(im, 0, y) == p || Pixel(im, im.width - 1, y) == p)
  {
    if p in LeftRight(im, n - 1) {
      y := LeftRightSource(im, n - 1, p);
    } else {
      y := n - 1;
    }
  }

  lemma {:induction false} LeftRightHas(im: Image, n: nat, y: nat)
    requires im.width > 0 && y < n <= Height(im)
    ensures Pixel(im, 0, y) in LeftRight(im, n) && Pixel(im, im.width - 1, y) in LeftRight(im, n)
  {
    if y < n - 1 {
      LeftRightHas(im, n - 1, y);
    }
  }

  /** The ring holds exactly the pixels on the image's frame. */
  lemma BorderRingMembers(im: Image, p: Rgb8)
    requires im.width > 0 && Height(im) > 0
    ensures |BorderRing(im)| == 2 * im.width + 2 * Height(im)
    ensures p in BorderRing(im) <==> exists x: nat, y: nat :: OnBorder(im, x, y) && Pixel(im, x, y) == p
  {
    RingLength(im);
    if p in TopBottom(im, im.width) {
      var x := TopBottomSource(im, im.width, p);
      if Pixel(im, x, 0) == p {
        assert OnBorder(im, x, 0);
      } else {
        assert OnBorder(im, x, Height(im) - 1);
      }
    } else if p in LeftRight(im, Height(im)) {
      var y := LeftRightSource(im, Height(im), p);
      if Pixel(im, 0, y) == p {
        assert OnBorder(im, 0, y);
      } else {
        assert OnBorder(im, im.width - 1, y);
      }
    }
    if exists x: nat, y: nat :: OnBorder(im, x, y) && Pixel(im, x, y) == p {
      var x: nat, y: nat :| OnBorder(im, x, y) && Pixel(im, x, y) == p;
      if x == 0 || x == im.width - 1 {
        LeftRightHas(im, Height(im), y);
      } else {
        TopBottomHas(im, im.width, x);
      }
    }
  }

  /** The length part of `BorderRingMembers`: the frame has 2w + 2h entries. */
  lemma RingLength(im: Image)
    requires im.width > 0 && Height(im) > 0
    ensures |BorderRing(im)| == 2 * im.width + 2 * Height(im)
  {
    TopBottomLength(im, im.width);
    LeftRightLength(im, Height(im));
  }

  lemma TopBottomLength(im: Image, n: nat)
    requires Height(im) > 0 && n <= im.width
    ensures |TopBottom(im, n)| == 2 * n
  {
  }

  lemma LeftRightLength(im: Image, n: nat)
    requires im.width > 0 && n <= Height(im)
    ensures |LeftRight(im, n)| == 2 * n
  {
  }

  /** Collects the frame: top and bottom rows column by column, then left and right columns row by row. */
  method BorderPixels(im: Image) returns (ring: seq<Rgb8>)
    requires im.width > 0 && Height(im) > 0
    ensures ring == BorderRing(im)
  {
    ring := [];
    for x := 0 to im.width
      invariant ring == TopBottom(im, x)
    {
      ring := ring + [im.rows[0][x], im.rows[Height(im) - 1][x]];
    }
    for y := 0 to Height(im)
      invariant ring == TopBottom(im, im.width) + LeftRight(im, y)
    {
      ring := ring + [im.rows[y][0], im.rows[y][im.width - 1]];
    }
  }

  /**
   * `sample_pixels(page, bbox)`: the dominant colour of the frame of the
   * clip rendered at zoom 2; white for a clip without extent, a failed
   * render or an empty image.
   */
  function BorderColor(render: Renderer, bbox: Rect): Color
  {
    if bbox.x1 - bbox.x0 <= 0.0 || bbox.y1 - bbox.y0 <= 0.0 then White
    else match render(bbox, 2)
      case None => White
      case Some(im) =>
        if im.width == 0 || Height(im) == 0 then White
        else DominantColor(PixelColors(BorderRing(im)))
  }

  method SamplePixels(render: Renderer, bbox: Rect) returns (c: Color)
    ensures c == BorderColor(render, bbox)
  {
    if bbox.x1 - bbox.x0 <= 0.0 || bbox.y1 - bbox.y0 <= 0.0 {
      return White;
    }
    var pix := render(bbox, 2);
    if pix.None? {
      return White;
    }
    var im := pix.value;
    if im.width == 0 || Height(im) == 0 {
      return White;
    }
    var ring := BorderPixels(im);
    var colors: seq<Color> := [];
    for i := 0 to |ring|
      invariant colors == PixelColors(ring[..i])
    {
      colors := colors + [PixelColor(ring[i])];
    }
    assert ring[..|ring|] == ring;
    c := GetDominantBackgroundColor(colors);
  }

  /**
   * The border sample is always a colour in the unit cube; when the whole
   * frame of the rendered clip is one pixel value, it is that pixel's colour.
   */
  lemma BorderColorOfUniformFrame(render: Renderer, bbox: Rect, im: Image, c: Rgb8)
    requires bbox.x1 - bbox.x0 > 0.0 && bbox.y1 - bbox.y0 > 0.0
    requires render(bbox, 2) == Some(im) && im.width > 0 && Height(im) > 0
    requires forall x: nat, y: nat :: OnBorder(im, x, y) ==> Pixel(im, x, y) == c
    ensures BorderColor(render, bbox) == PixelColor(c)
  {
    var ring := BorderRing(im);
    forall i | 0 <= i < |ring|
      ensures Bucket(PixelColors(ring)[i]) == IntRgb(c.r, c.g, c.b)
    {
      BorderRingMembers(im, ring[i]);
      BucketOfPixel(ring[i]);
    }
    BorderRingMembers(im, c);
    DominantOfUniform(PixelColors(ring), IntRgb(c.r, c.g, c.b));
    BucketOfPixel(c);
  }

  /** Whatever happens, the border sample is a colour of the frame or white. */
  lemma BorderColorIsFramePixel(render: Renderer, bbox: Rect)
    ensures var c := BorderColor(render, bbox);
      c == White ||
      exists im: Image, x: nat, y: nat :: render(bbox, 2) == Some(im) && OnBorder(im, x, y) && c == PixelColor(Pixel(im, x, y))
  {
    if bbox.x1 - bbox.x0 > 0.0 && bbox.y1 - bbox.y0 > 0.0 && render(bbox, 2).Some? {
      var im := render(bbox, 2).value;
      if im.width > 0 && Height(im) > 0 {
        var ring := BorderRing(im);
        DominantOfPixels(ring);
        var i :| 0 <= i < |ring| && BorderColor(render, bbox) == PixelColor(ring[i]);
        BorderRingMembers(im, ring[i]);
      }
    }
  }

  // ---------------------------------------------------------------------
  // Sleeve (`sample_sleeve`)
  // ---------------------------------------------------------------------

  /** `margin_pt`: the sleeve reaches 5 points beyond the span. */
  const SleeveMargin: real := 5.0

  /** `margin_pt * zoom` at zoom 2: the inset, in pixels, of the masked-out inner rectangle. */
  const SleeveInset: int := 10

  /** The pixels `sample_sleeve` counts: the rendered sleeve minus its masked inner rectangle. */
  function SleevePixels(im: Image): seq<Rgb8>
  {
    Kept(im, OutsideInset(SleeveInset))
  }

  /** `hits / len(pixels) >= 0.9`, in exact arithmetic. */
  predicate Agrees(ps: seq<Rgb8>, p: Rgb8)
  {
    10 * Count(ps, p) >= 9 * |ps|
  }

  /**
   * `sample_sleeve(page, bbox)`: the most common pixel of the sleeve when it
   * makes up at least 90% of the sleeve, otherwise `None`.
   */
  function SleeveColor(render: Renderer, bbox: Rect): Option<Color>
  {
    match render(Inflate(bbox, SleeveMargin), 2)
    case None => None
    case Some(im) =>
      var ps := SleevePixels(im);
      if |ps| == 0 then None
      else
        var top := ps[FirstMost(ps)];
        if Agrees(ps, top) then Some(PixelColor(top)) else None
  }

  method SampleSleeve(render: Renderer, bbox: Rect) returns (r: Option<Color>)
    ensures r == SleeveColor(render, bbox)
  {
    var pix := render(Inflate(bbox, SleeveMargin), 2);
    if pix.None? {
      return None;
    }
    var ps := CollectPixels(pix.value, OutsideInset(SleeveInset));
    if |ps| == 0 {
      return None;
    }
    var k, hits := MostCommon(ps);
    if 10 * hits >= 9 * |ps| {
      r := Some(PixelColor(ps[k]));
    } else {
      r := None;
    }
  }

  /**
   * The sleeve yields a colour exactly when one pixel value covers at least
   * 90% of the sleeve, and the colour is then that pixel's.
   */
  lemma SleeveColorIsSupermajority(render: Renderer, bbox: Rect, im: Image, p: Rgb8)
    requires render(Inflate(bbox, SleeveMargin), 2) == Some(im)
    ensures var ps := SleevePixels(im);
      |ps| > 0 && Agrees(ps, p) ==> SleeveColor(render, bbox) == Some(PixelColor(p))
    ensures var ps := SleevePixels(im);
      SleeveColor(render, bbox).Some? ==>
        exists q :: q in ps && Agrees(ps, q) && SleeveColor(render, bbox) == Some(PixelColor(q))
  {
    var ps := SleevePixels(im);
    if |ps| > 0 && Agrees(ps, p) {
      SupermajorityIsFirstMost(ps, p);
    }
    if |ps| > 0 {
      var top := ps[FirstMost(ps)];
      assert top in ps;
    }
  }

  // ---------------------------------------------------------------------
  // Background inside the span (`sample_bg_inside_span`)
  // ---------------------------------------------------------------------

  /** `txt = [int(c * 255) for c in text_color]`. */
  function TextBucket(text: Color): IntRgb
  {
    Bucket(text)
  }

  /** Pixels further than 50 (Manhattan, 8-bit) from the text colour. */
  function NonTextPixels(im: Image, text: Color): seq<Rgb8>
  {
    Kept(im, FarFrom(TextBucket(text), 50))
  }

  /**
   * `sample_bg_inside_span(page, bbox, text_color)`: rendered at zoom 3, the
   * dominant colour of the pixels far from the text colour, provided there
   * are at least 10 of them.
   */
  function InsideBackground(render: Renderer, bbox: Rect, text: Color): Option<Color>
  {
    match render(bbox, 3)
    case None => None
    case Some(im) =>
      if im.width == 0 || Height(im) == 0 then None
      else
        var ps := NonTextPixels(im, text);
        if |ps| < 10 then None else Some(DominantColor(PixelColors(ps)))
  }

  method SampleBgInsideSpan(render: Renderer, bbox: Rect, text: Color) returns (r: Option<Color>)
    ensures r == InsideBackground(render, bbox, text)
  {
    var pix := render(bbox, 3);
    if pix.None? || pix.value.width == 0 || Height(pix.value) == 0 {
      return None;
    }
    var txt := TextBucket(text);
    var candidates := CollectPixels(pix.value, FarFrom(txt, 50));
    if |candidates| < 10 {
      return None;
    }
    var c := GetDominantBackgroundColor(PixelColors(candidates));
    r := Some(c);
  }

  /**
   * A background found inside the span is the colour of a pixel more than 50
   * away from the text colour, chosen among at least 10 such pixels.
   */
  lemma InsideBackgroundAvoidsText(render: Renderer, bbox: Rect, text: Color)
    requires InsideBackground(render, bbox, text).Some?
    ensures exists im: Image :: render(bbox, 3) == Some(im) && |NonTextPixels(im, text)| >= 10
    ensures exists p: Rgb8 ::
      && InsideBackground(render, bbox, text) == Some(PixelColor(p))
      && Keep(FarFrom(TextBucket(text), 50), 0, 0, 0, 0, p)
  {
    var im := render(bbox, 3).value;
    var ps := NonTextPixels(im, text);
    DominantOfPixels(ps);
    var i :| 0 <= i < |ps| && DominantColor(PixelColors(ps)) == PixelColor(ps[i]);
    KeptPassFilter(im, FarFrom(TextBucket(text), 50), i);
  }

  // ---------------------------------------------------------------------
  // Text colour (`get_text_color`)
  // ---------------------------------------------------------------------

  /** Pixels whose channel sum differs from the background's by more than 0.3. */
  function TextPixels(im: Image, bg: Color): seq<Rgb8>
  {
    Kept(im, AwayFromSum(Sum(bg), 0.3))
  }

  /**
   * The pixel path of `get_text_color`: rendered at zoom 2, the dominant
   * colour of the pixels unlike the background. `sum(None)` raises, so a
   * missing background gives `None`, as do a failed render and no such pixel.
   */
  function PixelTextColor(render: Renderer, bbox: Rect, bg: Option<Color>): Option<Color>
  {
    if bg.None? then None
    else match render(bbox, 2)
      case None => None
      case Some(im) =>
        var ps := TextPixels(im, bg.value);
        if |ps| == 0 then None else Some(DominantColor(PixelColors(ps)))
  }

  /** `get_text_color`: the span's metadata colour when it unpacks, else the pixel path. */
  function TextColor(render: Renderer, bbox: Rect, metadata: ColorValue, bg: Option<Color>): Option<Color>
  {
    match UnpackColor(metadata)
    case Some(c) => Some(c)
    case None => PixelTextColor(render, bbox, bg)
  }

  /**
   * Metadata wins whenever it unpacks; otherwise a text colour comes from a
   * pixel whose channel sum is more than 0.3 away from the background's, and
   * there is none without a background.
   */
  lemma TextColorSources(render: Renderer, bbox: Rect, metadata: ColorValue, bg: Option<Color>)
    ensures UnpackColor(metadata).Some? ==> TextColor(render, bbox, metadata, bg) == UnpackColor(metadata)
    ensures UnpackColor(metadata).None? && bg.None? ==> TextColor(render, bbox, metadata, bg).None?
    ensures UnpackColor(metadata).None? && TextColor(render, bbox, metadata, bg).Some? ==>
      bg.Some? && exists p: Rgb8 ::
        && TextColor(render, bbox, metadata, bg) == Some(PixelColor(p))
        && Abs(Sum(PixelColor(p)) - Sum(bg.value)) > 0.3
  {
    if UnpackColor(metadata).None? && TextColor(render, bbox, metadata, bg).Some? {
      var im := render(bbox, 2).value;
      var ps := TextPixels(im, bg.value);
      DominantOfPixels(ps);
      var i :| 0 <= i < |ps| && DominantColor(PixelColors(ps)) == PixelColor(ps[i]);
      KeptPassFilter(im, AwayFromSum(Sum(bg.value), 0.3), i);
    }
  }

  /**
   * The part of `ColorDetector` that carries state from span to span: the
   * last colour `get_text_color` took from metadata and from pixels.
   */
  class ColorDetector {
    var lastPixelSample: Option<Color>
    var lastMetadataSample: Option<Color>

    constructor ()
      ensures lastPixelSample == None && lastMetadataSample == None
    {
      lastPixelSample := None;
      lastMetadataSample := None;
    }

    /** `get_text_color`, recording which source produced the colour. */
    method GetTextColor(render: Renderer, bbox: Rect, metadata: ColorValue, bg: Option<Color>) returns (c: Option<Color>)
      modifies this
      ensures c == TextColor(render, bbox, metadata, bg)
      ensures lastMetadataSample == (if UnpackColor(metadata).Some? then c else old(lastMetadataSample))
      ensures lastPixelSample == (if UnpackColor(metadata).None? && c.Some? then c else old(lastPixelSample))
    {
      var color := UnpackColor(metadata);
      if color.Some? {
        lastMetadataSample := color;
        return color;
      }
      if bg.None? {
        return None;
      }
      var pix := render(bbox, 2);
      if pix.None? {
        return None;
      }
      var colors := CollectPixels(pix.value, AwayFromSum(Sum(bg.value), 0.3));
      if |colors| == 0 {
        return None;
      }
      var text := GetDominantBackgroundColor(PixelColors(colors));
      lastPixelSample := Some(text);
      c := Some(text);
    }
  }
}
