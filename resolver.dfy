/**
 * The per-span part of `check_color_contrast`: find what lies behind a
 * text span by searching the background stack from the top, fall back to
 * pixel sampling and to thick stroke bars, settle the text colour, flag a
 * possible stroked fake background, re-check the background from the
 * raster, and grade the contrast against WCAG 2.1.
 */
module Resolver {
  import opened Common
  import opened HexCodes
  import opened Colors
  import opened Contrast
  import opened Geometry
  import opened Sampling
  import opened Records
  import opened Stack

  // ---------------------------------------------------------------------
  // Span properties
  // ---------------------------------------------------------------------

  /** `span.get("color")`: the metadata colour, `None` when absent. */
  function SpanColor(s: Span): ColorValue
  {
    if s.color.Some? then s.color.value else NoneValue
  }

  /** `span.get("color", 0)`. */
  function SpanColorOrZero(s: Span): ColorValue
  {
    if s.color.Some? then s.color.value else IntValue(0)
  }

  predicate StartsWith(s: string, p: string)
  {
    |p| <= |s| && s[..|p|] == p
  }

  /** Stripped text the checker does not grade: blank, or one of its own annotations. */
  predicate IsMarker(t: string)
  {
    || |t| == 0
    || StartsWith(t, "Color Contrast:")
    || StartsWith(t, "\U{2705}")
    || StartsWith(t, "\U{274C}")
  }

  /** `span.get("size", 12)`. */
  function FontSize(s: Span): real
  {
    if s.size.Some? then s.size.value else 12.0
  }

  /** `bool(flags & 2**2)`: bit 2 of the (two's complement) flags marks bold text. */
  predicate IsBold(s: Span)
  {
    (s.flags / 4) % 2 == 1
  }

  /** Large text in the sense of WCAG 2.1: at least 18 points, or at least 14 points and bold. */
  predicate IsLargeText(s: Span)
  {
    FontSize(s) >= 18.0 || (FontSize(s) >= 14.0 && IsBold(s))
  }

  /** Bit 2 decides boldness, whatever the other bits and the sign are. */
  lemma BoldIsBitTwo(q: int, r: int)
    requires 0 <= r < 4
    ensures ((8 * q + 4 + r) / 4) % 2 == 1
    ensures ((8 * q + r) / 4) % 2 == 0
  {
    assert 8 * q + 4 + r == 4 * (2 * q + 1) + r;
    assert 8 * q + r == 4 * (2 * q) + r;
  }

  // ---------------------------------------------------------------------
  // Searching the background stack
  // ---------------------------------------------------------------------

  datatype Search = NotFound | Found(bg: Option<Color>) | Raised

  /** How a path or stroke entry qualifies as lying behind the span. */
  predicate Covers(orect: Rect, span: Rect)
  {
    Contains(orect, span, 1.0) || OverlapRatio(orect, span) > 0.5 || OverlapRatio(span, orect) > 0.5
  }

  /** `abs(sum(a) - sum(b)) < 0.05`: the channel sums nearly agree (the colours themselves need not). */
  predicate NearSum(a: Color, b: Color)
  {
    Abs(Sum(a) - Sum(b)) < 0.05
  }

  /**
   * A path or stroke entry with colour `cand`: passed over when it does not
   * cover the span or its colour sums like the text's; otherwise it ends the
   * search. `sum(None)` raises when the text colour is missing.
   */
  function ProbeShape(orect: Rect, cand: Option<Color>, span: Rect, text: Option<Color>): Option<Search>
  {
    if !Covers(orect, span) then None
    else if cand.None? then Some(Found(None))
    else if text.None? then Some(Raised)
    else if NearSum(cand.value, text.value) then None
    else Some(Found(cand))
  }

  /** One iteration of the search: `None` goes on to the entry below. */
  function Probe(render: Renderer, c: Candidate, span: Rect, text: Option<Color>): Option<Search>
  {
    match c
    case ImageCand(orect, _) =>
      if OverlapRatio(orect, span) > 0.9 then Some(Found(Some(BorderColor(render, Intersect(orect, span))))) else None
    case PathCand(orect, cand) => ProbeShape(orect, cand, span, text)
    case StrokeCand(orect, stroke) => ProbeShape(orect, Some(stroke), span, text)
  }

  /** `for obj in reversed(bg_stack)`: the first entry from the top that answers. */
  function SearchStack(render: Renderer, stack: seq<Candidate>, span: Rect, text: Option<Color>): Search
    decreases |stack|
  {
    if |stack| == 0 then NotFound
    else match Probe(render, stack[|stack| - 1], span, text)
      case Some(s) => s
      case None => SearchStack(render, stack[..|stack| - 1], span, text)
  }

  /** The loop body of the search, sampling an image's frame with `sample_pixels`. */
  method ProbeEntry(render: Renderer, c: Candidate, span: Rect, text: Option<Color>) returns (p: Option<Search>)
    ensures p == Probe(render, c, span, text)
  {
    match c
    case ImageCand(orect, _) =>
      if OverlapRatio(orect, span) > 0.9 {
        var col := SamplePixels(render, Intersect(orect, span));
        p := Some(Found(Some(col)));
      } else {
        p := None;
      }
    case PathCand(orect, cand) =>
      p := ProbeShape(orect, cand, span, text);
    case StrokeCand(orect, stroke) =>
      p := ProbeShape(orect, Some(stroke), span, text);
  }

  method FindBackground(render: Renderer, stack: seq<Candidate>, span: Rect, text: Option<Color>) returns (s: Search)
    ensures s == SearchStack(render, stack, span, text)
  {
    var i := |stack|;
    assert stack[..i] == stack;
    while i > 0
      invariant 0 <= i <= |stack|
      invariant SearchStack(render, stack[..i], span, text) == SearchStack(render, stack, span, text)
    {
      assert stack[..i][..i - 1] == stack[..i - 1];
      var p := ProbeEntry(render, stack[i - 1], span, text);
      if p.Some? {
        return p.value;
      }
      i := i - 1;
    }
    return NotFound;
  }

  /** The search ends at the topmost entry that answers, whatever lies below it. */
  lemma {:induction false} SearchTopmost(render: Renderer, stack: seq<Candidate>, span: Rect, text: Option<Color>, k: int)
    requires 0 <= k < |stack| && Probe(render, stack[k], span, text).Some?
    requires forall j :: k < j < |stack| ==> Probe(render, stack[j], span, text).None?
    ensures SearchStack(render, stack, span, text) == Probe(render, stack[k], span, text).value
    decreases |stack|
  {
    var n := |stack| - 1;
    if k < n {
      var pre := stack[..n];
      assert forall j :: k < j < |pre| ==> pre[j] == stack[j];
      SearchTopmost(render, pre, span, text, k);
    }
  }

  /** The search finds nothing exactly when no entry answers. */
  lemma {:induction false} SearchNotFound(render: Renderer, stack: seq<Candidate>, span: Rect, text: Option<Color>)
    ensures SearchStack(render, stack, span, text) == NotFound <==>
      forall k :: 0 <= k < |stack| ==> Probe(render, stack[k], span, text).None?
    decreases |stack|
  {
    if |stack| > 0 {
      var n := |stack| - 1;
      var pre := stack[..n];
      SearchNotFound(render, pre, span, text);
      assert forall k :: 0 <= k < n ==> pre[k] == stack[k];
    }
  }

  /** Where a search answers, the entry that answered: the topmost one that does. */
  lemma {:induction false} SearchSource(render: Renderer, stack: seq<Candidate>, span: Rect, text: Option<Color>) returns (k: int)
    requires SearchStack(render, stack, span, text) != NotFound
    ensures 0 <= k < |stack|
    ensures Probe(render, stack[k], span, text) == Some(SearchStack(render, stack, span, text))
    ensures forall j :: k < j < |stack| ==> Probe(render, stack[j], span, text).None?
    decreases |stack|
  {
    var n := |stack| - 1;
    if Probe(render, stack[n], span, text).Some? {
      k := n;
    } else {
      var pre := stack[..n];
      k := SearchSource(render, pre, span, text);
      assert pre[k] == stack[k];
      assert forall j :: k < j < n ==> pre[j] == stack[j];
    }
  }

  /** The search can only raise for a span whose own colour does not unpack. */
  lemma SearchRaisesWithoutTextColor(render: Renderer, stack: seq<Candidate>, span: Rect, text: Option<Color>)
    requires SearchStack(render, stack, span, text) == Raised
    ensures text.None?
  {
    var k := SearchSource(render, stack, span, text);
  }

  /**
   * A background taken from the stack is either the frame colour of an image
   * that covers more than 90% of the span or of itself, or the colour of a
   * shape that covers the span and does not sum like the text colour.
   */
  lemma FoundBehindSpan(render: Renderer, stack: seq<Candidate>, span: Rect, text: Option<Color>, c: Color) returns (k: int)
    requires SearchStack(render, stack, span, text) == Found(Some(c))
    ensures 0 <= k < |stack|
    ensures stack[k].ImageCand? ==>
      OverlapRatio(stack[k].bbox, span) > 0.9 && c == BorderColor(render, Intersect(stack[k].bbox, span))
    ensures !stack[k].ImageCand? ==>
      Covers(stack[k].bbox, span) && text.Some? && !NearSum(c, text.value)
  {
    k := SearchSource(render, stack, span, text);
  }

  // ---------------------------------------------------------------------
  // Fallbacks for the background
  // ---------------------------------------------------------------------

  /** `sample_sleeve(page, span_rect) or sample_pixels(page, span_rect)`: always a colour. */
  function SampledBackground(render: Renderer, span: Rect): Color
  {
    match SleeveColor(render, span)
    case Some(c) => c
    case None => BorderColor(render, span)
  }

  /** The index of the first stroke box within 5 points of the span, or `|boxes|`. */
  function FirstHit(boxes: seq<StrokeBox>, span: Rect): (k: nat)
    ensures k <= |boxes|
    ensures k < |boxes| ==> BboxIntersects(span, boxes[k].bbox, 5.0)
    ensures forall j :: 0 <= j < k ==> !BboxIntersects(span, boxes[j].bbox, 5.0)
  {
    if |boxes| == 0 then 0
    else if BboxIntersects(span, boxes[0].bbox, 5.0) then 0
    else 1 + FirstHit(boxes[1..], span)
  }

  method FindStrokeBox(boxes: seq<StrokeBox>, span: Rect) returns (k: nat)
    ensures k == FirstHit(boxes, span)
  {
    k := 0;
    while k < |boxes| && !BboxIntersects(span, boxes[k].bbox, 5.0)
      invariant k <= |boxes|
      invariant forall j :: 0 <= j < k ==> !BboxIntersects(span, boxes[j].bbox, 5.0)
    {
      k := k + 1;
    }
    FirstHitUnique(boxes, span, k);
  }

  /** The first-hit index is the only one with nothing closer before it. */
  lemma FirstHitUnique(boxes: seq<StrokeBox>, span: Rect, k: nat)
    requires k <= |boxes|
    requires k < |boxes| ==> BboxIntersects(span, boxes[k].bbox, 5.0)
    requires forall j :: 0 <= j < k ==> !BboxIntersects(span, boxes[j].bbox, 5.0)
    ensures k == FirstHit(boxes, span)
  {
    var h := FirstHit(boxes, span);
  }

  /**
   * The stroke-bar fallback: when the background sums like the text
   * colour, the colour of the first stroke box near the span replaces it
   * (and may fail to unpack). The `not bg_color` half of the test never
   * holds, since the sampled background is always a colour.
   */
  function BarBackground(boxes: seq<StrokeBox>, span: Rect, bg: Color, text: Option<Color>): Option<Color>
  {
    if text.Some? && NearSum(bg, text.value) && FirstHit(boxes, span) < |boxes|
    then UnpackColor(boxes[FirstHit(boxes, span)].color)
    else Some(bg)
  }

  // ---------------------------------------------------------------------
  // Text colour
  // ---------------------------------------------------------------------

  /** `get_text_color(...)`, then `unpack_color(span.get("color", 0))`, then black. */
  function SpanTextColor(render: Renderer, s: Span, bbox: Rect, bg: Option<Color>): Color
  {
    match TextColor(render, bbox, SpanColor(s), bg)
    case Some(c) => c
    case None =>
      match UnpackColor(SpanColorOrZero(s))
      case Some(c) => c
      case None => Black
  }

  /**
   * The metadata colour wins when it unpacks; when `get_text_color` finds
   * nothing, the second fallback can only produce black, so the text colour
   * is black.
   */
  lemma SpanTextColorSources(render: Renderer, s: Span, bbox: Rect, bg: Option<Color>)
    ensures UnpackColor(SpanColor(s)).Some? ==> SpanTextColor(render, s, bbox, bg) == UnpackColor(SpanColor(s)).value
    ensures TextColor(render, bbox, SpanColor(s), bg).None? ==> SpanTextColor(render, s, bbox, bg) == Black
  {
    if TextColor(render, bbox, SpanColor(s), bg).None? && s.color.None? {
      assert UnpackColor(IntValue(0)) == Some(Grey(0.0));
    }
  }

  // ---------------------------------------------------------------------
  // Stroked-shape flag
  // ---------------------------------------------------------------------

  /**
   * `[int(c * 255) for c in scol[:3]]` indexed at 0, 1 and 2: defined for a
   * list whose first three elements are numbers; `None` where Python raises.
   */
  function StrokeRgb(v: ColorValue): Option<IntRgb>
  {
    if v.ListValue? && |v.items| >= 3 && v.items[0].Num? && v.items[1].Num? && v.items[2].Num?
    then Some(IntRgb(Trunc(v.items[0].x * 255.0), Trunc(v.items[1].x * 255.0), Trunc(v.items[2].x * 255.0)))
    else None
  }

  /** `dist > 150`, squared. */
  predicate FarFromText(rgb: IntRgb, text: Color)
  {
    Dist2(rgb, Bucket(text)) > 22500
  }

  /**
   * The stroked-shape test: scanning the stroke boxes near the span in
   * order, one whose colour is more than 150 from the text colour is found
   * before a colour that cannot be read aborts the scan.
   */
  function StrokedShape(boxes: seq<StrokeBox>, span: Rect, text: Color): bool
  {
    if |boxes| == 0 then false
    else if !BboxIntersects(span, boxes[0].bbox, 5.0) then StrokedShape(boxes[1..], span, text)
    else match StrokeRgb(boxes[0].color)
      case None => false
      case Some(rgb) => FarFromText(rgb, text) || StrokedShape(boxes[1..], span, text)
  }

  method ScanStrokedShapes(boxes: seq<StrokeBox>, span: Rect, text: Color) returns (flagged: bool)
    ensures flagged == StrokedShape(boxes, span, text)
  {
    var i := 0;
    while i < |boxes|
      invariant 0 <= i <= |boxes|
      invariant StrokedShape(boxes[i..], span, text) == StrokedShape(boxes, span, text)
    {
      assert boxes[i..][1..] == boxes[i + 1..];
      if BboxIntersects(span, boxes[i].bbox, 5.0) {
        var rgb := StrokeRgb(boxes[i].color);
        if rgb.None? {
          return false;
        }
        if FarFromText(rgb.value, text) {
          return true;
        }
      }
      i := i + 1;
    }
    return false;
  }

  /** A flag always rests on a readable stroke box near the span whose colour is far from the text's. */
  lemma {:induction false} StrokedShapeWitness(boxes: seq<StrokeBox>, span: Rect, text: Color) returns (k: int)
    requires StrokedShape(boxes, span, text)
    ensures 0 <= k < |boxes| && BboxIntersects(span, boxes[k].bbox, 5.0)
    ensures StrokeRgb(boxes[k].color).Some? && FarFromText(StrokeRgb(boxes[k].color).value, text)
  {
    if BboxIntersects(span, boxes[0].bbox, 5.0) && FarFromText(StrokeRgb(boxes[0].color).value, text) {
      k := 0;
    } else {
      var k' := StrokedShapeWitness(boxes[1..], span, text);
      k := k' + 1;
    }
  }

  /** When every box near the span has a readable colour, a far one among them is always flagged. */
  lemma {:induction false} StrokedShapeComplete(boxes: seq<StrokeBox>, span: Rect, text: Color, k: int)
    requires forall j :: 0 <= j < |boxes| && BboxIntersects(span, boxes[j].bbox, 5.0) ==> StrokeRgb(boxes[j].color).Some?
    requires 0 <= k < |boxes| && BboxIntersects(span, boxes[k].bbox, 5.0)
    requires FarFromText(StrokeRgb(boxes[k].color).value, text)
    ensures StrokedShape(boxes, span, text)
  {
    if k > 0 && !(BboxIntersects(span, boxes[0].bbox, 5.0) && FarFromText(StrokeRgb(boxes[0].color).value, text)) {
      var rest := boxes[1..];
      assert forall j :: 0 <= j < |rest| ==> rest[j] == boxes[j + 1];
      StrokedShapeComplete(rest, span, text, k - 1);
    }
  }

  // ---------------------------------------------------------------------
  // Re-checking the background from the raster
  // ---------------------------------------------------------------------

  /** The three `manual_check_reason` messages. */
  datatype Reason =
    | StrokedShapeBehindText  // "Possible stroked shape behind text (fake background). Review manually."
    | UpdatedLowContrast      // "Background updated by pixel sampling (metadata likely incorrect)."
    | UpdatedMismatch         // "Background updated by pixel sampling (metadata mismatch)."

  /** The background, its contrast ratio and the review reason as they evolve. */
  datatype Verdict = Verdict(bg: Color, ratio: real, reason: Option<Reason>)

  /** `sum(abs(a[i] - b[i]) for i in range(3))`. */
  function Delta(a: Color, b: Color): real
  {
    Abs(a.r - b.r) + Abs(a.g - b.g) + Abs(a.b - b.b)
  }

  /** `if not manual_reason: manual_reason = ...`: an earlier reason is kept. */
  function KeepReason(r: Option<Reason>, fallback: Reason): Option<Reason>
  {
    if r.Some? then r else Some(fallback)
  }

  /**
   * First re-check, for low contrast (under 4.0) or large text: adopt the
   * background sampled inside the span when it differs and raises the ratio.
   */
  function ResampleLow(pow: PowerCurve, large: bool, text: Color, sampled: Option<Color>, v: Verdict): Verdict
  {
    if (v.ratio < 4.0 || large) && sampled.Some? && sampled.value != v.bg
      && ContrastOf(pow, text, sampled.value).ratio > v.ratio
    then Verdict(sampled.value, ContrastOf(pow, text, sampled.value).ratio, KeepReason(v.reason, UpdatedLowContrast))
    else v
  }

  /** Second re-check, always: adopt the sampled background when it differs by more than 0.15 in total. */
  function ResampleMismatch(pow: PowerCurve, text: Color, sampled: Option<Color>, v: Verdict): Verdict
  {
    if sampled.Some? && Delta(sampled.value, v.bg) > 0.15
    then Verdict(sampled.value, ContrastOf(pow, text, sampled.value).ratio, KeepReason(v.reason, UpdatedMismatch))
    else v
  }

  /** The first re-check never lowers the ratio, and what it adopts is the sample. */
  lemma ResampleLowRaises(pow: PowerCurve, large: bool, text: Color, sampled: Option<Color>, v: Verdict)
    ensures ResampleLow(pow, large, text, sampled, v).ratio >= v.ratio
    ensures ResampleLow(pow, large, text, sampled, v) == v ||
      (sampled.Some? && ResampleLow(pow, large, text, sampled, v).bg == sampled.value && sampled.value != v.bg)
    ensures !large && v.ratio >= 4.0 ==> ResampleLow(pow, large, text, sampled, v) == v
  {
  }

  /**
   * After the second re-check the background is within 0.15 of the
   * sample, whenever there is one.
   */
  lemma ResampleMismatchAgrees(pow: PowerCurve, text: Color, s: Color, v: Verdict)
    ensures Delta(s, ResampleMismatch(pow, text, Some(s), v).bg) <= 0.15
  {
    if Delta(s, v.bg) > 0.15 {
      assert Delta(s, s) == 0.0;
    }
  }

  /** Both re-checks keep the ratio equal to the contrast of the text and the current background. */
  lemma ResampleConsistent(pow: PowerCurve, large: bool, text: Color, sampled: Option<Color>, v: Verdict)
    requires v.ratio == ContrastOf(pow, text, v.bg).ratio
    ensures var v1 := ResampleLow(pow, large, text, sampled, v);
      v1.ratio == ContrastOf(pow, text, v1.bg).ratio
    ensures var v2 := ResampleMismatch(pow, text, sampled, v);
      v2.ratio == ContrastOf(pow, text, v2.bg).ratio
  {
  }

  /** A reason once set is never replaced, and a new one appears only with a new background. */
  lemma ResampleReasons(pow: PowerCurve, large: bool, text: Color, sampled: Option<Color>, v: Verdict)
    ensures v.reason.Some? ==> ResampleLow(pow, large, text, sampled, v).reason == v.reason
    ensures v.reason.Some? ==> ResampleMismatch(pow, text, sampled, v).reason == v.reason
    ensures ResampleLow(pow, large, text, sampled, v).reason != v.reason ==>
      ResampleLow(pow, large, text, sampled, v).reason == Some(UpdatedLowContrast)
    ensures ResampleMismatch(pow, text, sampled, v).reason != v.reason ==>
      ResampleMismatch(pow, text, sampled, v).reason == Some(UpdatedMismatch)
  {
  }

  // ---------------------------------------------------------------------
  // The whole span
  // ---------------------------------------------------------------------

  /** The result record of a graded span. */
  datatype SpanResult = SpanResult(
    text: string,
    ratio: real,
    isLarge: bool,
    passesAA: bool,
    passesAAA: bool,
    fontSize: real,
    isBold: bool,
    bbox: Rect,
    color: Color,
    bgcolor: Color,
    manualReason: Option<Reason>,
    pixelSample: Option<Color>,
    metadataSample: Option<Color>,
    page: int)

  /** Skipped by the text or bbox filter, abandoned by an exception, or graded. */
  datatype Outcome = Skipped | Failed | Reported(result: SpanResult)

  /** The detector's `last_pixel_sample` and `last_metadata_sample`. */
  datatype Samples = Samples(pixel: Option<Color>, metadata: Option<Color>)

  /** The caches after `get_text_color` returned `found` for the given metadata colour. */
  function SamplesAfterText(metadata: ColorValue, found: Option<Color>, before: Samples): Samples
  {
    Samples(
      if UnpackColor(metadata).None? && found.Some? then found else before.pixel,
      if UnpackColor(metadata).Some? then found else before.metadata)
  }

  /** The caches after a span: only a graded span has been through `get_text_color`. */
  function SamplesAfter(o: Outcome, before: Samples): Samples
  {
    if o.Reported? then Samples(o.result.pixelSample, o.result.metadataSample) else before
  }

  /** Everything about a page that the spans are resolved against. */
  datatype PageContext = PageContext(
    pow: PowerCurve,
    render: Renderer,
    stack: seq<Candidate>,
    boxes: seq<StrokeBox>,
    pageNum: nat)

  predicate PassesAA(ratio: real, large: bool)
  {
    if large then ratio >= 3.0 else ratio >= 4.5
  }

  predicate PassesAAA(ratio: real, large: bool)
  {
    if large then ratio >= 4.5 else ratio >= 7.0
  }

  /** The background before the stroke-bar fallback: the stack's answer, else the sampled one. */
  function FirstBackground(render: Renderer, stack: seq<Candidate>, span: Rect, text: Option<Color>): Color
  {
    var search := SearchStack(render, stack, span, text);
    if search.Found? && search.bg.Some? then search.bg.value else SampledBackground(render, span)
  }

  /** The verdict before the two re-checks: white when no background survived. */
  function InitialVerdict(ctx: PageContext, span: Rect, text: Color, bg: Option<Color>): Verdict
  {
    var bg0 := if bg.Some? then bg.value else White;
    Verdict(bg0, ContrastOf(ctx.pow, text, bg0).ratio,
      if StrokedShape(ctx.boxes, span, text) then Some(StrokedShapeBehindText) else None)
  }

  /** The verdict after both re-checks against the background sampled inside the span. */
  function FinalVerdict(ctx: PageContext, large: bool, span: Rect, text: Color, bg: Option<Color>): Verdict
  {
    var sampled := InsideBackground(ctx.render, span, text);
    ResampleMismatch(ctx.pow, text, sampled, ResampleLow(ctx.pow, large, text, sampled, InitialVerdict(ctx, span, text, bg)))
  }

  /** The report of a span that reached grading, with background `bg` after both fallbacks. */
  function ReportOf(ctx: PageContext, s: Span, span: Rect, bg: Option<Color>, before: Samples): SpanResult
  {
    var fg := SpanTextColor(ctx.render, s, span, bg);
    var large := IsLargeText(s);
    var v := FinalVerdict(ctx, large, span, fg, bg);
    var samples := SamplesAfterText(SpanColor(s), TextColor(ctx.render, span, SpanColor(s), bg), before);
    SpanResult(
      Strip(s.text), v.ratio, large, PassesAA(v.ratio, large), PassesAAA(v.ratio, large),
      FontSize(s), IsBold(s), span, fg, v.bg, v.reason, samples.pixel, samples.metadata, ctx.pageNum + 1)
  }

  /** One span of the page, given the detector's caches before it. */
  function Resolve(ctx: PageContext, s: Span, before: Samples): Outcome
  {
    if IsMarker(Strip(s.text)) || s.bbox.None? then Skipped
    else
      var span := s.bbox.value;
      var meta := UnpackColor(SpanColor(s));
      if SearchStack(ctx.render, ctx.stack, span, meta).Raised? then Failed
      else Reported(ReportOf(ctx, s, span, BarBackground(ctx.boxes, span, FirstBackground(ctx.render, ctx.stack, span, meta), meta), before))
  }

  /** `sample_sleeve(...) or sample_pixels(...)`. */
  method SampleBackground(render: Renderer, span: Rect) returns (c: Color)
    ensures c == SampledBackground(render, span)
  {
    var sleeve := SampleSleeve(render, span);
    if sleeve.Some? {
      c := sleeve.value;
    } else {
      c := SamplePixels(render, span);
    }
  }

  /** The stack search and both background fallbacks; `raised` when the search raised. */
  method SpanBackground(ctx: PageContext, span: Rect, meta: Option<Color>) returns (raised: bool, bg: Option<Color>)
    ensures raised == SearchStack(ctx.render, ctx.stack, span, meta).Raised?
    ensures !raised ==> bg == BarBackground(ctx.boxes, span, FirstBackground(ctx.render, ctx.stack, span, meta), meta)
  {
    var search := FindBackground(ctx.render, ctx.stack, span, meta);
    if search.Raised? {
      return true, None;
    }
    raised := false;
    var found: Color;
    if search.Found? && search.bg.Some? {
      found := search.bg.value;
    } else {
      found := SampleBackground(ctx.render, span);
    }
    bg := Some(found);
    if meta.Some? && NearSum(found, meta.value) {
      var k := FindStrokeBox(ctx.boxes, span);
      if k < |ctx.boxes| {
        bg := UnpackColor(ctx.boxes[k].color);
      }
    }
  }

  /** From the first contrast to the final one: the stroked-shape scan and the two re-checks. */
  method Regrade(ctx: PageContext, large: bool, span: Rect, fg: Color, bg: Option<Color>) returns (v: Verdict)
    ensures v == FinalVerdict(ctx, large, span, fg, bg)
  {
    var bgc := if bg.Some? then bg.value else White;
    var ratio := ContrastOf(ctx.pow, fg, bgc).ratio;
    var flagged := ScanStrokedShapes(ctx.boxes, span, fg);
    var reason: Option<Reason> := if flagged then Some(StrokedShapeBehindText) else None;
    ghost var v0 := Verdict(bgc, ratio, reason);
    assert v0 == InitialVerdict(ctx, span, fg, bg);
    if ratio < 4.0 || large {
      var sampled := SampleBgInsideSpan(ctx.render, span, fg);
      if sampled.Some? && sampled.value != bgc {
        var alt := ContrastOf(ctx.pow, fg, sampled.value).ratio;
        if alt > ratio {
          bgc, ratio := sampled.value, alt;
          reason := KeepReason(reason, UpdatedLowContrast);
        }
      }
    }
    ghost var sample := InsideBackground(ctx.render, span, fg);
    assert Verdict(bgc, ratio, reason) == ResampleLow(ctx.pow, large, fg, sample, v0);
    var sampled := SampleBgInsideSpan(ctx.render, span, fg);
    if sampled.Some? && Delta(sampled.value, bgc) > 0.15 {
      bgc, ratio := sampled.value, ContrastOf(ctx.pow, fg, sampled.value).ratio;
      reason := KeepReason(reason, UpdatedMismatch);
    }
    v := Verdict(bgc, ratio, reason);
  }

  /** The text colour with both fallbacks; `get_text_color` updates the caches. */
  method SpanForeground(render: Renderer, detector: ColorDetector, s: Span, span: Rect, bg: Option<Color>) returns (fg: Color)
    modifies detector
    ensures fg == SpanTextColor(render, s, span, bg)
    ensures Samples(detector.lastPixelSample, detector.lastMetadataSample) ==
      SamplesAfterText(SpanColor(s), TextColor(render, span, SpanColor(s), bg), old(Samples(detector.lastPixelSample, detector.lastMetadataSample)))
  {
    var tc := detector.GetTextColor(render, span, SpanColor(s), bg);
    if tc.Some? {
      fg := tc.value;
    } else {
      var u := UnpackColor(SpanColorOrZero(s));
      fg := if u.Some? then u.value else Black;
    }
  }

  /** Grading a span whose background is known: text colour, re-checks, caches. */
  method GradeSpan(ctx: PageContext, detector: ColorDetector, s: Span, span: Rect, bg: Option<Color>) returns (r: SpanResult)
    modifies detector
    ensures r == ReportOf(ctx, s, span, bg, old(Samples(detector.lastPixelSample, detector.lastMetadataSample)))
    ensures Samples(detector.lastPixelSample, detector.lastMetadataSample) == Samples(r.pixelSample, r.metadataSample)
  {
    var fg := SpanForeground(ctx.render, detector, s, span, bg);
    var large := IsLargeText(s);
    var v := Regrade(ctx, large, span, fg, bg);
    r := SpanResult(
      Strip(s.text), v.ratio, large, PassesAA(v.ratio, large), PassesAAA(v.ratio, large),
      FontSize(s), IsBold(s), span, fg, v.bg, v.reason,
      detector.lastPixelSample, detector.lastMetadataSample, ctx.pageNum + 1);
  }

  /** The body of the span loop: the detector's caches are updated by `get_text_color`. */
  method CheckSpan(ctx: PageContext, detector: ColorDetector, s: Span) returns (o: Outcome)
    modifies detector
    ensures o == Resolve(ctx, s, old(Samples(detector.lastPixelSample, detector.lastMetadataSample)))
    ensures Samples(detector.lastPixelSample, detector.lastMetadataSample) ==
      SamplesAfter(o, old(Samples(detector.lastPixelSample, detector.lastMetadataSample)))
  {
    var text := Strip(s.text);
    if IsMarker(text) || s.bbox.None? {
      return Skipped;
    }
    var span := s.bbox.value;
    var meta := UnpackColor(SpanColor(s));
    var raised, bg := SpanBackground(ctx, span, meta);
    if raised {
      return Failed;
    }
    var r := GradeSpan(ctx, detector, s, span, bg);
    o := Reported(r);
  }

  // ---------------------------------------------------------------------
  // Properties of a span's outcome
  // ---------------------------------------------------------------------

  /** A span is skipped exactly when its stripped text is blank or an annotation, or it has no bbox. */
  lemma SkippedExactly(ctx: PageContext, s: Span, before: Samples)
    ensures Resolve(ctx, s, before).Skipped? <==> IsMarker(Strip(s.text)) || s.bbox.None?
  {
  }

  /** A span is abandoned only when its own colour does not unpack and a shape behind it has a colour. */
  lemma FailsOnlyWithoutSpanColor(ctx: PageContext, s: Span, before: Samples)
    requires Resolve(ctx, s, before).Failed?
    ensures UnpackColor(SpanColor(s)).None?
  {
    SearchRaisesWithoutTextColor(ctx.render, ctx.stack, s.bbox.value, UnpackColor(SpanColor(s)));
  }

  /** The report of a graded span, whatever background the fallbacks left. */
  lemma ReportGraded(ctx: PageContext, s: Span, span: Rect, bg: Option<Color>, before: Samples)
    ensures var r := ReportOf(ctx, s, span, bg, before);
      && r.ratio == ContrastOf(ctx.pow, r.color, r.bgcolor).ratio
      && 1.0 <= r.ratio <= 21.0
  {
    var fg := SpanTextColor(ctx.render, s, span, bg);
    var large := IsLargeText(s);
    var sampled := InsideBackground(ctx.render, span, fg);
    var v0 := InitialVerdict(ctx, span, fg, bg);
    ResampleConsistent(ctx.pow, large, fg, sampled, v0);
    var v1 := ResampleLow(ctx.pow, large, fg, sampled, v0);
    ResampleConsistent(ctx.pow, large, fg, sampled, v1);
    var v2 := ResampleMismatch(ctx.pow, fg, sampled, v1);
    ContrastBounds(ctx.pow, fg, v2.bg);
  }

  /**
   * A graded span carries its stripped, non-blank text and its page number
   * counted from 1; its ratio is the contrast of the reported colours and
   * lies in [1, 21]; the pass flags are the WCAG thresholds for its size.
   */
  lemma ReportedIsGraded(ctx: PageContext, s: Span, before: Samples)
    requires Resolve(ctx, s, before).Reported?
    ensures var r := Resolve(ctx, s, before).result;
      && r.text == Strip(s.text) && |r.text| > 0
      && r.page == ctx.pageNum + 1
      && r.ratio == ContrastOf(ctx.pow, r.color, r.bgcolor).ratio
      && 1.0 <= r.ratio <= 21.0
      && (r.passesAA <==> r.ratio >= (if r.isLarge then 3.0 else 4.5))
      && (r.passesAAA <==> r.ratio >= (if r.isLarge then 4.5 else 7.0))
      && (r.passesAAA ==> r.passesAA)
      && (r.isLarge <==> r.fontSize >= 18.0 || (r.fontSize >= 14.0 && r.isBold))
  {
    var span := s.bbox.value;
    var meta := UnpackColor(SpanColor(s));
    var bg := BarBackground(ctx.boxes, span, FirstBackground(ctx.render, ctx.stack, span, meta), meta);
    assert Resolve(ctx, s, before).result == ReportOf(ctx, s, span, bg, before);
    ReportGraded(ctx, s, span, bg, before);
  }

  /** The colours of the report of a graded span, whatever background the fallbacks left. */
  lemma ReportColors(ctx: PageContext, s: Span, span: Rect, bg: Option<Color>, before: Samples)
    ensures var r := ReportOf(ctx, s, span, bg, before);
      UnpackColor(SpanColor(s)).Some? ==> r.color == UnpackColor(SpanColor(s)).value
    ensures var r := ReportOf(ctx, s, span, bg, before);
      InsideBackground(ctx.render, span, r.color).Some? ==>
        Delta(InsideBackground(ctx.render, span, r.color).value, r.bgcolor) <= 0.15
  {
    SpanTextColorSources(ctx.render, s, span, bg);
    var fg := SpanTextColor(ctx.render, s, span, bg);
    var sampled := InsideBackground(ctx.render, span, fg);
    if sampled.Some? {
      var v1 := ResampleLow(ctx.pow, IsLargeText(s), fg, sampled, InitialVerdict(ctx, span, fg, bg));
      ResampleMismatchAgrees(ctx.pow, fg, sampled.value, v1);
    }
  }

  /**
   * The reported text colour is the span's metadata colour whenever that
   * unpacks, and the reported background is within 0.15 of the background
   * sampled inside the span whenever there is one.
   */
  lemma ReportedColors(ctx: PageContext, s: Span, before: Samples)
    requires Resolve(ctx, s, before).Reported?
    ensures var r := Resolve(ctx, s, before).result;
      UnpackColor(SpanColor(s)).Some? ==> r.color == UnpackColor(SpanColor(s)).value
    ensures var r := Resolve(ctx, s, before).result;
      InsideBackground(ctx.render, r.bbox, r.color).Some? ==>
        Delta(InsideBackground(ctx.render, r.bbox, r.color).value, r.bgcolor) <= 0.15
  {
    var span := s.bbox.value;
    var meta := UnpackColor(SpanColor(s));
    var bg := BarBackground(ctx.boxes, span, FirstBackground(ctx.render, ctx.stack, span, meta), meta);
    assert Resolve(ctx, s, before).result == ReportOf(ctx, s, span, bg, before);
    ReportColors(ctx, s, span, bg, before);
  }
}
