# Colour-contrast engine of the RN contrast checker

This project models the engine that grades text contrast in a PDF, and the
helpers around it. The engine decides, for every text span of every page, its
text colour and the background colour behind it. It then computes their WCAG 2.1
contrast ratio and whether the span passes AA and AAA. Afterwards the results
are flattened into one list and summarised into colour pairs. The model
is Dafny; the original is `rn_contrast_checker_app.py`.

The modules follow the program's structure:

- `Common`: the `Option` type, clamping, truncation and `str.strip`.
- `Tally`: `Counter.most_common(1)`, i.e. the first value with the highest count.
- `HexCodes`: `int(s, 16)`, the `{:02X}` format, `rgb_to_hex` and `hex_to_rgb`.
- `Colors`:
  - `unpack_color` over every shape a colour value can take;
  - `get_dominant_background_color`;
  - `_rgb_float_to_int` with Python's round-half-to-even.
- `Contrast`: `calculate_relative_luminance` and `calculate_contrast_ratio`.
- `Geometry`: `_rect_area`, `_rect_contains`, `_rect_overlap_ratio`, `Rect &` and `_bbox_intersects`.
- `Sampling`: the raster samplers of `ColorDetector`:
  - `sample_pixels` (the 1-pixel frame);
  - `sample_sleeve`;
  - `sample_bg_inside_span`;
  - `get_text_color`, together with its two sample caches, as a class.

  Rendering a clip of the page is a parameter, `Renderer`. It returns the
  image, or `None` where PyMuPDF would raise.
- `Records`: the records that PyMuPDF hands the engine (drawings, path items, images, blocks, lines, spans).
- `Stack`: the per-page background stack (`bg_stack`) and the legacy `stroke_boxes` list. Each is built by loops that stop at the first exception.
- `Resolver`: the treatment of one span, i.e. the body of the span loop of `check_color_contrast`:
  1. skip the span or fail it;
  2. search the stack from the top;
  3. use the sleeve/frame fallback;
  4. use the stroke-bar fallback;
  5. resolve the text colour;
  6. flag stroked shapes;
  7. resample at low contrast and on a mismatch;
  8. grade the span.
- `Pages`:
  - the loops of `check_color_contrast` over pages, blocks, lines and spans, carrying the detector's sample caches from span to span;
  - `_flatten_results`.
- `Summary`: `summarise_colour_pairs`:
  - greedy colour clustering (`cluster_colors`);
  - the group-by on cluster pairs with its aggregates;
  - the AA flag;
  - the sort by worst ratio.
- `Text`: `clean_text_for_pdf`, `get_user_initials` and `is_large_document`.

Each loop of the source is a `method` with loop invariants. Each is proved
equal to a specification function. The properties the source promises are
lemmas about those functions.

## Model

| member | source | states |
|---|---|---|
| Tally.MostCommon | rn_contrast_checker_app.py:887-891 | returns the first index holding a value of maximal count, and that count |
| Tally.CountAll | rn_contrast_checker_app.py:887 | `Counter(s)` has exactly the elements of `s` as keys, each mapped to its number of occurrences |
| Tally.FirstMostIsFirstMost | rn_contrast_checker_app.py:891 | the winner of `most_common(1)` has a maximal count and no earlier value ties it |
| Tally.FirstMostUnique | rn_contrast_checker_app.py:891 | the first-most-common index is unique |
| Tally.SupermajorityIsFirstMost | rn_contrast_checker_app.py:1078-1081 | a value holding at least 90% of a sample is the one `most_common` returns |
| HexCodes.HexRoundTrip | rn_contrast_checker_app.py:2452-2453 | `hex_to_rgb(rgb_to_hex(rgb)) == rgb` for every byte triple, and the code has 7 characters |
| HexCodes.ParseFormattedByte | rn_contrast_checker_app.py:2453 | `int(format(n, "02X"), 16) == n` for every byte |
| HexCodes.Format02XOfByte | rn_contrast_checker_app.py:2453 | a byte formats as its two hex digits, high first |
| HexCodes.HexToRgbOfSix | rn_contrast_checker_app.py:2812-2817 | a '#' and six characters parse as three two-character chunks, failing when any chunk fails |
| HexCodes.ShorthandReadsDoubled | rn_contrast_checker_app.py:2815-2816 | a three-character code reads as each character doubled |
| HexCodes.ParsedChunkRange | rn_contrast_checker_app.py:867-869 | a chunk of at most two characters that `int(_, 16)` accepts lies in [-15, 255] |
| HexCodes.SignedChunkIsNegative | rn_contrast_checker_app.py:867 | `int("-f", 16)` is -15: a signed chunk is accepted |
| Colors.PixelColor | rn_contrast_checker_app.py:929 | a pixel divided by 255 lies in the unit cube |
| Colors.Packed | rn_contrast_checker_app.py:850-855 | a packed 0xRRGGBB integer unpacks into the unit cube |
| Colors.UnpackInUnitCube | rn_contrast_checker_app.py:832-877 | every colour `unpack_color` returns has its channels in [0,1] |
| Colors.UnpackList | rn_contrast_checker_app.py:843-848 | lists: fewer than 3 elements or a non-number among the first three give None, otherwise the first three clamped |
| Colors.UnpackInt | rn_contrast_checker_app.py:849-860 | 1 is white and 0 is black; an integer above 1 is read modulo 2^24 |
| Colors.UnpackRejects | rn_contrast_checker_app.py:861-877 | `None`, other objects and malformed hex strings give None |
| Colors.UnpackIdempotent | rn_contrast_checker_app.py:832-877 | unpacking an unpacked colour written back as a list gives it back |
| Colors.UnpackColor | rn_contrast_checker_app.py:832-877 | `unpack_color`: None, a list or tuple, an integer, a float, a hex string or another object, each by its branch, into the unit cube |
| Colors.UnpackColorAsWritten | rn_contrast_checker_app.py:832-877 | `unpack_color` with the hex branch exactly as written, unclamped |
| Colors.HexChannelsOfSix | rn_contrast_checker_app.py:863-870 | a six-character string is read as three two-character chunks |
| Colors.HexChannelsOfParsed | rn_contrast_checker_app.py:863-870 | six characters not starting with '#' whose three pairs parse give exactly those three channels |
| Colors.UnpackHexAsWritten | rn_contrast_checker_app.py:861-873 | the string branch as written divides the parsed channels by 255 without clamping |
| Colors.HexChannelsOfSignedRed | rn_contrast_checker_app.py:863-870 | "-f0000" passes the length check and parses to channels (-15, 0, 0) |
| Colors.AsWrittenSignedHexLeavesUnitRange | rn_contrast_checker_app.py:863-872 | as written, "-f0000" unpacks to a red channel of -15/255, outside [0,1], and unpacking that again gives black |
| Colors.ReunpackNegativeRed | rn_contrast_checker_app.py:843-847 | a colour with a negative channel lies outside the unit cube and re-unpacks to black |
| Colors.Buckets | rn_contrast_checker_app.py:884 | one `int(c * 255)` triple per colour, in order |
| Colors.BucketOfPixel | rn_contrast_checker_app.py:884 | truncating a pixel's `c / 255 * 255` gives the pixel back |
| Colors.DominantColorIsFirstMostCommon | rn_contrast_checker_app.py:879-894 | white when there are no colours; otherwise the first truncated triple of maximal count, over 255 |
| Colors.DominantColor | rn_contrast_checker_app.py:879-894 | `get_dominant_background_color`: the most frequent truncated triple, first-seen on ties, over 255; white for no colours |
| Colors.DominantOfUniform | rn_contrast_checker_app.py:879-894 | colours that share one triple give that triple |
| Colors.DominantOfPixels | rn_contrast_checker_app.py:879-894 | the dominant colour of sampled pixels is one of those pixels |
| Colors.GetDominantBackgroundColor | rn_contrast_checker_app.py:879-894 | the counting loop returns the dominant colour |
| Colors.RoundHalfEven | rn_contrast_checker_app.py:2821 | `round` gives the nearest integer, the even one on a tie |
| Colors.RgbFloatToIntNearest | rn_contrast_checker_app.py:2819-2821 | each byte is within 0.5 of the channel times 255 |
| Colors.ByteOfChannel | rn_contrast_checker_app.py:2821 | a channel in [0,1] rounds into [0,255], so the clamp does nothing |
| Colors.RgbFloatToIntOfPixel | rn_contrast_checker_app.py:2819-2821 | converting a pixel over 255 back to bytes gives the pixel |
| Contrast.Adjust | rn_contrast_checker_app.py:986-997 | a linearised channel lies in [0,1] |
| Contrast.LuminanceInUnitRange | rn_contrast_checker_app.py:974-999 | relative luminance lies in [0,1] |
| Contrast.LuminanceOfBlackAndWhite | rn_contrast_checker_app.py:974-999 | black has luminance 0 and white has luminance 1 |
| Contrast.ContrastRatioDefined | rn_contrast_checker_app.py:1013-1015 | a ratio exists exactly when both colours do |
| Contrast.ContrastRatio | rn_contrast_checker_app.py:1001-1040 | `calculate_contrast_ratio`: None when a colour is missing, otherwise the ratio and its four flags |
| Contrast.ContrastSymmetric | rn_contrast_checker_app.py:1018-1026 | the ratio does not depend on argument order |
| Contrast.ContrastBounds | rn_contrast_checker_app.py:1018-1026 | every ratio lies in [1, 21] |
| Contrast.LuminanceRatioBounds | rn_contrast_checker_app.py:1022-1026 | (lighter + 0.05) / (darker + 0.05) lies in [1, 21] for luminances in [0,1] |
| Contrast.ContrastWithSelf | rn_contrast_checker_app.py:1026 | a colour against itself has ratio 1 |
| Contrast.ContrastFlags | rn_contrast_checker_app.py:1029-1032 | the four flags are the 4.5, 3, 7 and 4.5 thresholds, with AAA implying AA |
| Contrast.BlackOnWhite | rn_contrast_checker_app.py:1001-1040 | black on white, in either order, is 21 and passes everything |
| Geometry.Area | rn_contrast_checker_app.py:773-775 | an area is never negative |
| Geometry.Intersect | rn_contrast_checker_app.py:797 | `r1 & r2` clamped to a well-ordered rectangle, the intended reading of the intersection (MuPDF leaves it inverted; see Findings) |
| Geometry.IntersectSymmetric | rn_contrast_checker_app.py:797 | `r1 & r2 == r2 & r1` |
| Geometry.OverlapRatioZero | rn_contrast_checker_app.py:793-800 | degenerate or separated rectangles overlap 0 |
| Geometry.OverlapRatioSymmetric | rn_contrast_checker_app.py:788-801 | the overlap ratio does not depend on argument order |
| Geometry.OverlapRatio | rn_contrast_checker_app.py:788-801 | the intended `_rect_overlap_ratio`, with the intersection clamped (see Findings): 0 for a degenerate rectangle or an intersection without area, otherwise the intersection's area over the smaller area |
| Geometry.OverlapRatioInUnitRange | rn_contrast_checker_app.py:788-801 | the overlap ratio lies in [0,1] |
| Geometry.IntersectionAreaBound | rn_contrast_checker_app.py:797-801 | an intersection has no more area than either rectangle |
| Geometry.ContainsMonotone | rn_contrast_checker_app.py:778-785 | containment with a margin holds with any larger margin |
| Geometry.ContainedOverlapsFully | rn_contrast_checker_app.py:778-801 | a proper rectangle inside another overlaps it with ratio 1 |
| Geometry.BboxIntersectsProps | rn_contrast_checker_app.py:1258-1264 | `_bbox_intersects` is symmetric and monotone in the margin |
| Geometry.RawOverlapOfDiagonalPair | rn_contrast_checker_app.py:788-801 | two proper rectangles apart on both axes overlap 0 when the intersection is clamped, but a positive ratio when it is left inverted |
| Geometry.RawOverlapExample | rn_contrast_checker_app.py:788-801 | with the inverted intersection, (0,0,10,10) and (20,20,30,30) overlap with ratio 1; clamped, 0 |
| Geometry.OverlapImpliesBboxIntersects | rn_contrast_checker_app.py:1258-1264 | rectangles with an intersection of positive area are within any margin of each other |
| Sampling.KeptMembers | rn_contrast_checker_app.py:1073 | a filtered row-major scan keeps exactly the pixels that pass the filter |
| Sampling.KeptPassFilter | rn_contrast_checker_app.py:956-960 | every pixel kept by a value filter passes it |
| Sampling.CollectPixels | rn_contrast_checker_app.py:1073 | the nested scan loop collects the filtered pixels in row-major order |
| Sampling.BorderRingMembers | rn_contrast_checker_app.py:915-923 | the frame has 2w + 2h entries, and holds exactly the pixels on the image's border |
| Sampling.BorderPixels | rn_contrast_checker_app.py:915-923 | the two loops collect the frame in the source's order |
| Sampling.SamplePixels | rn_contrast_checker_app.py:899-936 | `sample_pixels` returns the border colour: white on a degenerate box, empty image or render failure, else the frame's dominant colour |
| Sampling.BorderColor | rn_contrast_checker_app.py:899-936 | `sample_pixels`: white for a clip without extent, a failed render or an empty image; otherwise the dominant colour of the 1-pixel frame at zoom 2 |
| Sampling.BorderColorOfUniformFrame | rn_contrast_checker_app.py:899-931 | a frame of one colour gives that colour |
| Sampling.BorderColorIsFramePixel | rn_contrast_checker_app.py:899-936 | the result is white or the colour of a pixel on the frame |
| Sampling.SampleSleeve | rn_contrast_checker_app.py:1051-1086 | `sample_sleeve` returns the sleeve colour as specified |
| Sampling.SleeveColor | rn_contrast_checker_app.py:1051-1086 | `sample_sleeve`: the most common sleeve pixel when it covers at least 90% of the sleeve, else None |
| Sampling.SleeveColorIsSupermajority | rn_contrast_checker_app.py:1073-1082 | a colour held by at least 90% of the sleeve is returned; any returned colour is such a colour |
| Sampling.SampleBgInsideSpan | rn_contrast_checker_app.py:1088-1126 | `sample_bg_inside_span` returns the inside background as specified |
| Sampling.InsideBackground | rn_contrast_checker_app.py:1088-1126 | `sample_bg_inside_span`: at zoom 3, the dominant colour of the pixels far from the text, given at least 10 of them |
| Sampling.InsideBackgroundAvoidsText | rn_contrast_checker_app.py:1104-1122 | a result needs at least 10 pixels far from the text, and is itself more than 50 from the text colour |
| Sampling.TextColorSources | rn_contrast_checker_app.py:938-972 | the metadata colour wins when it unpacks; with neither it nor a background nothing is found; a sampled colour's sum differs from the background's by more than 0.3 |
| Sampling.TextColor | rn_contrast_checker_app.py:938-972 | `get_text_color`: the metadata colour when it unpacks, else the dominant colour of the pixels that differ from the background |
| Sampling.ColorDetector.constructor | rn_contrast_checker_app.py:820-830 | both sample caches start empty |
| Sampling.ColorDetector.GetTextColor | rn_contrast_checker_app.py:938-972 | returns the text colour, and updates exactly the cache of the path that produced it |
| Stack.RunAppend | rn_contrast_checker_app.py:1145-1201 | a loop inside `try` keeps what it collected before the first exception and looks no further |
| Stack.RunEntryAdded | rn_contrast_checker_app.py:1145-1201 | every collected entry was added by one of the records |
| Stack.ScanRecords | rn_contrast_checker_app.py:1145-1201 | the loop collects the run of the records and reports whether one raised |
| Stack.StrokeItems | rn_contrast_checker_app.py:1169-1170 | `items or [None]` always yields at least one item |
| Stack.DrawingEntries | rn_contrast_checker_app.py:1148-1199 | the loop body for one drawing adds the entries of its steps |
| Stack.CollectDrawings | rn_contrast_checker_app.py:1147-1199 | the drawings loop collects each drawing's entries in turn, keeping what it had at the first exception |
| Stack.BuildBackgroundStack | rn_contrast_checker_app.py:1144-1232 | builds `bg_stack` from drawings, then images, then vector blocks |
| Stack.BackgroundStack | rn_contrast_checker_app.py:1144-1232 | `bg_stack`: the entries of the drawings, then the images, then the vector blocks, each part cut at its first exception |
| Stack.StrokeStepKeeps | rn_contrast_checker_app.py:1180-1199 | a stroke item is kept as its padded box and colour only with area, thinness and a colour; it raises exactly on a padded box with area but no extent |
| Stack.PadDegenerate | rn_contrast_checker_app.py:1184-1188 | flat boxes grow by half the stroke width vertically, zero-width ones horizontally, others not at all |
| Stack.HairlineKept | rn_contrast_checker_app.py:1180-1199 | every flat segment of length L > 0 with a colour, stroked at any width 0 < sw <= L/4, is kept as its box padded by sw/2 above and below, so the `sw < 6` test has no effect |
| Stack.DrawingsStepAdmissible | rn_contrast_checker_app.py:1148-1199 | every entry a drawing adds has area, and a stroke entry is thin |
| Stack.StackAdmissible | rn_contrast_checker_app.py:1144-1232 | every entry of `bg_stack` has area, and every stroke entry is thin |
| Stack.LegacyDrawingEntries | rn_contrast_checker_app.py:1241-1252 | the loop body for one drawing adds its stroke boxes |
| Stack.CollectStrokeBoxes | rn_contrast_checker_app.py:1238-1255 | builds `stroke_boxes`, emptied when the loop raises |
| Stack.StrokeBoxes | rn_contrast_checker_app.py:1238-1255 | `stroke_boxes`: the boxes of wide stroke drawings, or nothing when the loop raises |
| Stack.StrokeBoxesHaveExtent | rn_contrast_checker_app.py:1250-1252 | every stroke box has non-zero width and height |
| Stack.NullWidthEmptiesStrokeBoxes | rn_contrast_checker_app.py:1244-1255 | a stroke drawing with width `None` anywhere empties the list |
| Stack.NullWidthRaises | rn_contrast_checker_app.py:1244-1245 | comparing a `None` width with 2 raises |
| Stack.HairlinesContributeNoBox | rn_contrast_checker_app.py:1244-1246 | drawings no wider than 2 points contribute nothing |
| Resolver.BoldIsBitTwo | rn_contrast_checker_app.py:1285-1286 | boldness is bit 2 of the flags, whatever the other bits and the sign are |
| Resolver.ProbeEntry | rn_contrast_checker_app.py:1298-1314 | one iteration of the stack search, as specified |
| Resolver.FindBackground | rn_contrast_checker_app.py:1296-1314 | the loop over `reversed(bg_stack)` gives the search result |
| Resolver.SearchTopmost | rn_contrast_checker_app.py:1297-1314 | the search ends at the topmost answering entry, whatever lies below |
| Resolver.SearchNotFound | rn_contrast_checker_app.py:1296-1314 | nothing is found exactly when no entry answers |
| Resolver.SearchSource | rn_contrast_checker_app.py:1297-1314 | a result comes from an answering entry with nothing answering above it |
| Resolver.SearchRaisesWithoutTextColor | rn_contrast_checker_app.py:1306 | the search raises only for a span whose colour does not unpack |
| Resolver.FoundBehindSpan | rn_contrast_checker_app.py:1299-1313 | a found background is an image's frame colour at overlap > 0.9, or a covering shape's colour that does not sum like the text |
| Resolver.FirstHit | rn_contrast_checker_app.py:1330-1333 | the index of the first stroke box within 5 points of the span |
| Resolver.FindStrokeBox | rn_contrast_checker_app.py:1330-1333 | the loop returns that first index |
| Resolver.FirstHitUnique | rn_contrast_checker_app.py:1330-1333 | any index with the first-hit property is the first hit |
| Resolver.SpanTextColorSources | rn_contrast_checker_app.py:1338-1344 | the metadata colour wins when it unpacks; when `get_text_color` finds nothing the text is black |
| Resolver.ScanStrokedShapes | rn_contrast_checker_app.py:1398-1411 | the scan flags a stroked shape as specified |
| Resolver.StrokedShapeWitness | rn_contrast_checker_app.py:1401-1409 | a flag rests on a readable nearby stroke more than 150 from the text colour |
| Resolver.StrokedShapeComplete | rn_contrast_checker_app.py:1401-1409 | when every nearby stroke colour is readable, a far one is always flagged |
| Resolver.ResampleLowRaises | rn_contrast_checker_app.py:1419-1430 | low-contrast resampling never lowers the ratio, only adopts a different sampled colour, and is off for normal text at ratio 4 or more |
| Resolver.ResampleMismatchAgrees | rn_contrast_checker_app.py:1437-1447 | after the mismatch check, the background is within 0.15 of the sample |
| Resolver.ResampleConsistent | rn_contrast_checker_app.py:1419-1447 | both resampling steps keep the ratio equal to the contrast of text and background |
| Resolver.ResampleReasons | rn_contrast_checker_app.py:1429-1447 | an earlier manual-review reason is kept; a new one names the step that changed the background |
| Resolver.SampleBackground | rn_contrast_checker_app.py:1316-1318 | the sleeve colour, or else the frame colour |
| Resolver.SpanBackground | rn_contrast_checker_app.py:1293-1335 | reports whether the search raised, and otherwise the background after the sleeve and bar fallbacks |
| Resolver.Regrade | rn_contrast_checker_app.py:1352-1451 | the final verdict after both resampling steps |
| Resolver.SpanForeground | rn_contrast_checker_app.py:1337-1344 | the text colour with its fallbacks, and the caches `get_text_color` leaves |
| Resolver.GradeSpan | rn_contrast_checker_app.py:1337-1475 | the report of a span with a known background, and the caches after it |
| Resolver.CheckSpan | rn_contrast_checker_app.py:1272-1492 | the outcome of one span, and the detector's caches after it |
| Resolver.Resolve | rn_contrast_checker_app.py:1272-1492 | one span: skipped, failed, or its report, with the caches after it |
| Resolver.SkippedExactly | rn_contrast_checker_app.py:1273-1280 | a span is skipped exactly when its stripped text is blank or an annotation, or it has no bbox |
| Resolver.FailsOnlyWithoutSpanColor | rn_contrast_checker_app.py:1306 | a span can fail only when its metadata colour does not unpack |
| Resolver.ReportedIsGraded | rn_contrast_checker_app.py:1283-1475 | a report carries the stripped text, page + 1, the contrast of its colours in [1,21], AA/AAA at the large-text thresholds, and the large-text rule |
| Resolver.ReportGraded | rn_contrast_checker_app.py:1419-1451 | whatever background the fallbacks left, the reported ratio is the contrast of the reported colours and lies in [1,21] |
| Resolver.ReportedColors | rn_contrast_checker_app.py:1337-1447 | the metadata text colour is reported when it unpacks; the reported background is within 0.15 of the inside sample |
| Resolver.ReportColors | rn_contrast_checker_app.py:1337-1447 | whatever background the fallbacks left, an unpacking metadata colour is the reported text colour, and the reported background is within 0.15 of the inside sample |
| Pages.PageSpansMembers | rn_contrast_checker_app.py:1266-1271 | the spans of a page are exactly those of the lines of its text blocks |
| Pages.LineSpansMembers | rn_contrast_checker_app.py:1270-1271 | the spans of some lines are exactly those of each line |
| Pages.FeedAllAppend | rn_contrast_checker_app.py:1266-1271 | processing two runs of spans in turn is processing their concatenation |
| Pages.FeedSpan | rn_contrast_checker_app.py:1272-1492 | one span appends its report, if any, and updates the caches |
| Pages.CheckLine | rn_contrast_checker_app.py:1271-1492 | the span loop of a line |
| Pages.CheckLines | rn_contrast_checker_app.py:1270-1492 | the line loop of a block |
| Pages.CheckPage | rn_contrast_checker_app.py:1266-1492 | the block loop of a page |
| Pages.FeedAllGraded | rn_contrast_checker_app.py:1266-1486 | earlier results stay; at most one result per span is added, each graded |
| Pages.ResolvingGraded | rn_contrast_checker_app.py:1449-1484 | every reported span is graded for its page |
| Pages.CheckPageOf | rn_contrast_checker_app.py:1137-1498 | one page: its stack, its stroke boxes, its spans |
| Pages.CheckColorContrast | rn_contrast_checker_app.py:1128-1500 | `contrast_results` as specified, and `pdf_results` their flattening |
| Pages.CheckDocPages | rn_contrast_checker_app.py:1494-1498 | one report per page, numbered from 0 |
| Pages.CheckDoc | rn_contrast_checker_app.py:1136-1498 | the page loop: each page checked in order, the detector's caches carried from page to page |
| Pages.CheckDocReportAt | rn_contrast_checker_app.py:1136-1498 | the report of page i is that page checked from the sample caches the earlier pages left |
| Pages.PageRunGraded | rn_contrast_checker_app.py:1266-1486 | a page has at most one result per span, each on that page with a ratio in [1,21] and AAA only with AA |
| Pages.CheckDocResults | rn_contrast_checker_app.py:1136-1498 | a page has at most one result per span, each on page i + 1 with a ratio in [1,21], passing AAA only if it passes AA |
| Pages.FlattenResults | rn_contrast_checker_app.py:1592-1608 | `_flatten_results` concatenates the pages' results in order |
| Pages.FlattenMembers | rn_contrast_checker_app.py:1600-1608 | a result is flattened exactly when it belongs to some page |
| Pages.FlatResultsGraded | rn_contrast_checker_app.py:1600-1608 | every flattened result has a page number in 1..pages and a ratio in [1,21] |
| Summary.FirstNear | rn_contrast_checker_app.py:2597-2601 | the first cluster within the threshold, or none |
| Summary.ClusterAll | rn_contrast_checker_app.py:2592-2605 | one label per colour |
| Summary.ClusterAllWellClustered | rn_contrast_checker_app.py:2592-2605 | every colour is near its cluster and no nearer one comes before it; the representatives are pairwise apart; each is the first colour of its cluster |
| Summary.AssignLabelsNear | rn_contrast_checker_app.py:2595-2604 | one more colour keeps every label near and first |
| Summary.AssignRepsApart | rn_contrast_checker_app.py:2602-2603 | a new representative is far from all earlier ones |
| Summary.AssignRepsFirst | rn_contrast_checker_app.py:2602-2604 | each representative remains the first colour with its label |
| Summary.NearestCluster | rn_contrast_checker_app.py:2597-2601 | the inner loop finds the first near cluster exactly when there is one |
| Summary.ClusterColors | rn_contrast_checker_app.py:2592-2605 | the clustering loop gives the specified representatives and labels |
| Summary.FindGroup | rn_contrast_checker_app.py:2618 | the first group with a key, or none |
| Summary.AggregatesAbsorb | rn_contrast_checker_app.py:2618-2624 | absorbing a row of a group keeps its count, min, max, first colours and first non-empty text right |
| Summary.AggregatesOpen | rn_contrast_checker_app.py:2618-2624 | a new key's group aggregates its one row |
| Summary.AddRowAggregates | rn_contrast_checker_app.py:2618-2624 | adding a row keeps every group's aggregates right |
| Summary.GroupRowsGroupedBy | rn_contrast_checker_app.py:2617-2625 | one group per key present, keys distinct, each aggregating exactly the rows with its key |
| Summary.GroupRowsCount | rn_contrast_checker_app.py:2621 | the counts add up to the number of rows |
| Summary.TableCountOfGroups | rn_contrast_checker_app.py:2621-2630 | a table with one row per group, each carrying its group's count, has the groups' total count |
| Summary.Insert | rn_contrast_checker_app.py:2633 | inserting adds the row to the multiset and keeps the order by worst ratio |
| Summary.SortByWorst | rn_contrast_checker_app.py:2633 | the result is a permutation sorted by worst ratio |
| Summary.TableCountSorted | rn_contrast_checker_app.py:2633 | sorting keeps the total count |
| Summary.TableCountPerm | rn_contrast_checker_app.py:2633 | reordering the rows of a table keeps its total count |
| Summary.Paired | rn_contrast_checker_app.py:2569-2580 | keeps only rows with both colours |
| Summary.CollectRows | rn_contrast_checker_app.py:2568-2583 | the list loop keeps the rows with both colours |
| Summary.SummariseColourPairs | rn_contrast_checker_app.py:2541-2642 | the summary table and the text-colour representatives as specified |
| Summary.Summarise | rn_contrast_checker_app.py:2541-2642 | `summarise_colour_pairs` on a list: the sorted table of clustered colour pairs and the text-colour representatives |
| Summary.TableOfRows | rn_contrast_checker_app.py:2617-2633 | the counts of the sorted table add up to the rows; each row has worst <= best, count > 0 and AA iff worst >= 4.5 |
| Summary.SummaryRowOfGroup | rn_contrast_checker_app.py:2618-2630 | every table row has worst <= best, a positive count and AA iff worst >= 4.5 |
| Summary.SummaryTable | rn_contrast_checker_app.py:2617-2633 | the table is sorted, counts every row with both colours once, and flags AA by the worst ratio |
| Summary.SummaryClusters | rn_contrast_checker_app.py:2607-2642 | both clusterings are well formed; the returned clusters are the text-colour representatives |
| Text.ReplacementShape | rn_contrast_checker_app.py:717-745 | every replaced character is non-ASCII and is replaced by ASCII |
| Text.CleanCharAscii | rn_contrast_checker_app.py:749-756 | each character becomes ASCII, and an ASCII one stays itself |
| Text.CleanedIsAscii | rn_contrast_checker_app.py:747-758 | the cleaned text is pure ASCII |
| Text.CleanedFixesAscii | rn_contrast_checker_app.py:747-758 | ASCII text is unchanged |
| Text.CleanedIdempotent | rn_contrast_checker_app.py:747-758 | cleaning twice is cleaning once |
| Text.CleanedAppend | rn_contrast_checker_app.py:748-756 | cleaning works character by character: it distributes over concatenation |
| Text.CleanTextForPdf | rn_contrast_checker_app.py:709-758 | `None` gives the empty string, otherwise the cleaned text |
| Text.Cleaned | rn_contrast_checker_app.py:747-758 | the cleaning loop: each character replaced, kept when ASCII, or `_` |
| Text.WordsShape | rn_contrast_checker_app.py:165 | `split()` gives non-empty words without whitespace that together hold every non-space character |
| Text.WordsOfWord | rn_contrast_checker_app.py:165 | a single word splits into itself |
| Text.StripKeepsWords | rn_contrast_checker_app.py:165 | `strip()` before `split()` changes nothing |
| Text.WordsSplitAtSpace | rn_contrast_checker_app.py:165 | `split()` breaks at every whitespace character: the words of a + [c] + b are those of a, then those of b |
| Text.WordsNonEmpty | rn_contrast_checker_app.py:165 | a string with a non-space character has a non-empty first word |
| Text.FirstWordStart | rn_contrast_checker_app.py:165-167 | the first word starts at the first non-space character |
| Text.LastWordOf | rn_contrast_checker_app.py:165-167 | text holding a word, a whitespace, a word `w` and then only whitespace splits into at least two words, the last being `w` |
| Text.UserInitials | rn_contrast_checker_app.py:160-171 | `get_user_initials`: the bust emoji for an empty or missing name, otherwise the initials of the words of the stripped name |
| Text.InitialsFirst | rn_contrast_checker_app.py:160-171 | a name with a non-space character has a first initial, the upper-cased first non-space character |
| Text.InitialsLast | rn_contrast_checker_app.py:165-167 | with two or more words, there are two initials and the second is the upper-cased first letter of the last word |
| Text.InitialsOneWord | rn_contrast_checker_app.py:168-169 | a stripped name without whitespace gives its first two characters, upper-cased |
| Text.InitialsShape | rn_contrast_checker_app.py:160-171 | the initials are the bust emoji, two letters, or the one letter of a one-letter single word |
| Text.BlankNameInitials | rn_contrast_checker_app.py:162-171 | an all-blank name gives the bust emoji |
| Text.LargeDocumentByPagesOrDensity | rn_contrast_checker_app.py:2063-2074 | no answer for zero pages; otherwise large exactly when over 20 pages or over 250 KiB a page, so the 5 MiB test never decides |
| Text.IsLargeDocument | rn_contrast_checker_app.py:2063-2074 | `is_large_document`: no answer for an empty document, otherwise over 20 pages, over 5 MiB, or over 250 KiB a page |

## Left out

- Rendering, text extraction and image decoding by PyMuPDF and Pillow. These are parameters: a `Renderer`, plus the page's drawings, images and blocks given as records.
- Floating point: channels, ratios and areas are exact reals. The curve `x ** 2.4` is a parameter that maps [0,1] into [0,1] and 1 to 1. `round` is exact round-half-to-even.
- `hits / len(pixels) >= 0.9` and `dist > 150` are compared exactly: as `10 * hits >= 9 * n` and as a squared distance above 22500. Likewise the clustering test `norm <= rgb_thresh` is `dist² <= rgb_thresh²` on integers.
- Pillow's `draw.rectangle` with an inverted inner rectangle (a sleeve image narrower than 20 pixels): the model keeps every pixel. Pillow versions differ on this.
- Truthiness of a `fitz.Rect` in `if not bbox` is not modelled: a span's bbox is either absent or a rectangle.
- A span whose `size` key is present but `None` is not modelled; `size` is either absent (12) or a number.
- Not modelled:
  - strings that `float()` accepts inside a colour list;
  - non-ASCII digits accepted by `int(_, 16)`;
  - integers too large for `** 0.5`.
- The edge-ring `fake_bg_detected` block (lines 1361-1393) is computed but never read, so it has no effect on any result; it is not modelled. So are the constant `'confidence': 'HIGH'`, the always-true `all([...])` test and the dead `if not ratio_result` test.
- The second definition of `rgb_to_hex` (line 1585) is shadowed by the one at line 2452 and is not modelled.
- `_flatten_results`: the branch for an input that is already flat, and the filling in of a missing `page` key, cannot arise for the reports `check_color_contrast` produces. They are not modelled.
- `summarise_colour_pairs`:
  - The DataFrame input path is not modelled; the list path is.
  - `DataFrame.groupby` orders groups by key, and `sort_values` uses an unstable quicksort. The model keeps groups in first-seen order and sorts stably. Its contracts therefore state only that the table is sorted and a permutation, not the order among ties.
- Geometry.OverlapRatio: the engine (`Resolver.Covers`, `Resolver.Probe`, `Resolver.Resolve`, `Pages.CheckDoc`) uses the overlap ratio with the intersection clamped. The program as written leaves the intersection of rectangles that are apart on both axes inverted and can give them a positive ratio, even one above 1: a span at (20,20,30,30) and a filled path at (0,0,10,10) overlap with ratio 1.0. On such inputs the program takes the shape's colour as the background, while the model passes over the shape and falls back to sampling around the span. `Geometry.OverlapRatioInUnitRange` holds only for the clamped ratio; the as-written ratio is `Geometry.RawOverlapRatio` (see Findings).
- Colors.UnpackColor: the engine is modelled on the clamped form of the hex-string branch; the branch as written is `Colors.UnpackColorAsWritten` (see Findings). This changes nothing the engine computes, because PyMuPDF gives span colours as integers and drawing colours as float tuples, never as strings.
- Text.Upper: upper-cases ASCII letters only; Unicode case mapping is not modelled.
- Text.CleanTextForPdf: `str(text)` of a non-string argument is not modelled; the input is a string or `None`.
- Authentication, the Streamlit user interface, report and PDF/Excel generation, and everything outside the functions named above are not part of this model.

## Findings

| source | as written | input that shows it | evidently intended | confidence | as-written member | corrected member |
|---|---|---|---|---|---|---|
| rn_contrast_checker_app.py:863-872 | the hex branch of `unpack_color` returns `int(chunk, 16) / 255.0` unclamped, and `int` accepts a signed chunk | the string "-f0000" unpacks to red -15/255, outside [0,1], which every other branch guarantees | every unpacked channel lies in [0,1], as the list and scalar branches ensure by clamping | not executed | Colors.AsWrittenSignedHexLeavesUnitRange | Colors.UnpackInUnitCube |
| rn_contrast_checker_app.py:788-801 | `fitz.Rect(r1 & r2)` of disjoint rectangles is left inverted by MuPDF, and `_rect_area` multiplies two negative extents into a positive area | (0,0,10,10) and (20,20,30,30): the inverted intersection (20,20,10,10) has area 100, so the ratio is 1.0 and `ov > 0.5` at line 1301 accepts a shape far from the span | rectangles that do not meet overlap 0 | plausible, depending on PyMuPDF's `&`; not executed | Geometry.RawOverlapOfDiagonalPair | Geometry.OverlapRatioZero |
