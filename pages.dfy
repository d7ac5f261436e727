/**
 * `check_color_contrast(doc)`: for each page, build the background stack
 * and the legacy stroke boxes, then resolve every span of every text
 * line, in reading order, with one detector shared by the whole document.
 */
module Pages {
  import opened Common
  import opened Colors
  import opened Contrast
  import opened Sampling
  import opened Records
  import opened Stack
  import opened Resolver

  /** What the checker reads from one page: its text blocks, drawings, images, and its renderer. */
  datatype Page = Page(blocks: seq<Block>, drawings: seq<Drawing>, images: seq<ImageRef>, render: Renderer)

  /** One entry of `contrast_results`: the page index, from 0, and its graded spans. */
  datatype PageReport = PageReport(page: nat, results: seq<SpanResult>)

  // ---------------------------------------------------------------------
  // Reading order
  // ---------------------------------------------------------------------

  function LineSpans(ls: seq<Line>): seq<Span>
  {
    if |ls| == 0 then [] else LineSpans(ls[..|ls| - 1]) + ls[|ls| - 1].spans
  }

  /** A block without `"lines"` (an image block) contributes no span. */
  function BlockSpans(b: Block): seq<Span>
  {
    if b.lines.Some? then LineSpans(b.lines.value) else []
  }

  /** The spans of a page in the order the three nested loops visit them. */
  function PageSpans(bs: seq<Block>): seq<Span>
  {
    if |bs| == 0 then [] else PageSpans(bs[..|bs| - 1]) + BlockSpans(bs[|bs| - 1])
  }

  /** The spans visited are exactly those of the lines of the blocks that have lines. */
  lemma {:induction false} PageSpansMembers(bs: seq<Block>, s: Span)
    ensures s in PageSpans(bs) <==>
      exists i, j :: 0 <= i < |bs| && bs[i].lines.Some? && 0 <= j < |bs[i].lines.value| && s in bs[i].lines.value[j].spans
    decreases |bs|
  {
    if |bs| > 0 {
      var n := |bs| - 1;
      PageSpansMembers(bs[..n], s);
      assert PageSpans(bs) == PageSpans(bs[..n]) + BlockSpans(bs[n]);
      if bs[n].lines.Some? {
        LineSpansMembers(bs[n].lines.value, s);
      }
      if s in PageSpans(bs[..n]) {
        var i, j :| 0 <= i < n && bs[..n][i].lines.Some? && 0 <= j < |bs[..n][i].lines.value| && s in bs[..n][i].lines.value[j].spans;
        assert bs[..n][i] == bs[i];
      }
      if exists i, j :: 0 <= i < |bs| && bs[i].lines.Some? && 0 <= j < |bs[i].lines.value| && s in bs[i].lines.value[j].spans {
        var i, j :| 0 <= i < |bs| && bs[i].lines.Some? && 0 <= j < |bs[i].lines.value| && s in bs[i].lines.value[j].spans;
        if i < n {
          assert bs[..n][i] == bs[i];
        }
      }
    }
  }

  lemma {:induction false} LineSpansMembers(ls: seq<Line>, s: Span)
    ensures s in LineSpans(ls) <==> exists j :: 0 <= j < |ls| && s in ls[j].spans
    decreases |ls|
  {
    if |ls| > 0 {
      var n := |ls| - 1;
      LineSpansMembers(ls[..n], s);
      assert LineSpans(ls) == LineSpans(ls[..n]) + ls[n].spans;
      if s in LineSpans(ls[..n]) {
        var j :| 0 <= j < n && s in ls[..n][j].spans;
        assert ls[..n][j] == ls[j];
      }
      if exists j :: 0 <= j < |ls| && s in ls[j].spans {
        var j :| 0 <= j < |ls| && s in ls[j].spans;
        if j < n {
          assert ls[..n][j] == ls[j];
        }
      }
    }
  }

  // ---------------------------------------------------------------------
  // One page
  // ---------------------------------------------------------------------

  /** The graded spans so far and the detector's caches. */
  datatype Progress = Progress(results: seq<SpanResult>, samples: Samples)

  /** The per-span step of a page, as a function of the span and the caches before it. */
  function Resolving(ctx: PageContext): (Span, Samples) -> Outcome
  {
    (s, before) => Resolve(ctx, s, before)
  }

  /** One span: a graded span is appended; the caches move on as `get_text_color` left them. */
  function Feed(step: (Span, Samples) -> Outcome, p: Progress, s: Span): Progress
  {
    var o := step(s, p.samples);
    Progress(if o.Reported? then p.results + [o.result] else p.results, SamplesAfter(o, p.samples))
  }

  function FeedAll(step: (Span, Samples) -> Outcome, p: Progress, spans: seq<Span>): Progress
  {
    if |spans| == 0 then p else Feed(step, FeedAll(step, p, spans[..|spans| - 1]), spans[|spans| - 1])
  }

  lemma FeedAllSnoc(step: (Span, Samples) -> Outcome, p: Progress, a: seq<Span>, x: Span)
    ensures FeedAll(step, p, a + [x]) == Feed(step, FeedAll(step, p, a), x)
  {
    assert (a + [x])[..|a|] == a;
  }

  lemma FeedAllNext(step: (Span, Samples) -> Outcome, p: Progress, spans: seq<Span>, k: int)
    requires 0 <= k < |spans|
    ensures FeedAll(step, p, spans[..k + 1]) == Feed(step, FeedAll(step, p, spans[..k]), spans[k])
  {
    assert spans[..k + 1] == spans[..k] + [spans[k]];
    FeedAllSnoc(step, p, spans[..k], spans[k]);
  }

  lemma {:induction false} FeedAllAppend(step: (Span, Samples) -> Outcome, p: Progress, a: seq<Span>, b: seq<Span>)
    ensures FeedAll(step, p, a + b) == FeedAll(step, FeedAll(step, p, a), b)
    decreases |b|
  {
    if |b| == 0 {
      assert a + b == a;
    } else {
      var n := |b| - 1;
      FeedAllAppend(step, p, a, b[..n]);
      assert (a + b)[..|a + b| - 1] == a + b[..n];
    }
  }

  ghost function Cache(d: ColorDetector): Samples
    reads d
  {
    Samples(d.lastPixelSample, d.lastMetadataSample)
  }

  /** One iteration of the span loop: the span is resolved and a graded one is kept. */
  method FeedSpan(ctx: PageContext, detector: ColorDetector, s: Span, results: seq<SpanResult>) returns (results': seq<SpanResult>)
    modifies detector
    ensures Progress(results', Cache(detector)) == Feed(Resolving(ctx), old(Progress(results, Cache(detector))), s)
  {
    var o := CheckSpan(ctx, detector, s);
    results' := if o.Reported? then results + [o.result] else results;
  }

  /** The span loop of one line. */
  method CheckLine(ctx: PageContext, detector: ColorDetector, spans: seq<Span>, results: seq<SpanResult>) returns (results': seq<SpanResult>)
    modifies detector
    ensures Progress(results', Cache(detector)) == FeedAll(Resolving(ctx), old(Progress(results, Cache(detector))), spans)
  {
    ghost var step := Resolving(ctx);
    ghost var p0 := Progress(results, Cache(detector));
    results' := results;
    var k := 0;
    while k < |spans|
      invariant 0 <= k <= |spans|
      invariant Progress(results', Cache(detector)) == FeedAll(step, p0, spans[..k])
    {
      FeedAllNext(step, p0, spans, k);
      results' := FeedSpan(ctx, detector, spans[k], results');
      k := k + 1;
    }
    assert spans[..k] == spans;
  }

  /** The line loop of one block that has lines. */
  method CheckLines(ctx: PageContext, detector: ColorDetector, lines: seq<Line>, results: seq<SpanResult>) returns (results': seq<SpanResult>)
    modifies detector
    ensures Progress(results', Cache(detector)) == FeedAll(Resolving(ctx), old(Progress(results, Cache(detector))), LineSpans(lines))
  {
    ghost var step := Resolving(ctx);
    ghost var p0 := Progress(results, Cache(detector));
    results' := results;
    var j := 0;
    while j < |lines|
      invariant 0 <= j <= |lines|
      invariant Progress(results', Cache(detector)) == FeedAll(step, p0, LineSpans(lines[..j]))
    {
      assert lines[..j + 1][..j] == lines[..j];
      FeedAllAppend(step, p0, LineSpans(lines[..j]), lines[j].spans);
      results' := CheckLine(ctx, detector, lines[j].spans, results');
      j := j + 1;
    }
    assert lines[..j] == lines;
  }

  /** The block loop of one page. */
  method CheckPage(ctx: PageContext, detector: ColorDetector, blocks: seq<Block>) returns (results: seq<SpanResult>)
    modifies detector
    ensures Progress(results, Cache(detector)) == FeedAll(Resolving(ctx), Progress([], old(Cache(detector))), PageSpans(blocks))
  {
    ghost var step := Resolving(ctx);
    ghost var p0 := Progress([], Cache(detector));
    results := [];
    var i := 0;
    while i < |blocks|
      invariant 0 <= i <= |blocks|
      invariant Progress(results, Cache(detector)) == FeedAll(step, p0, PageSpans(blocks[..i]))
    {
      assert blocks[..i + 1][..i] == blocks[..i];
      FeedAllAppend(step, p0, PageSpans(blocks[..i]), BlockSpans(blocks[i]));
      if blocks[i].lines.Some? {
        results := CheckLines(ctx, detector, blocks[i].lines.value, results);
      }
      i := i + 1;
    }
    assert blocks[..i] == blocks;
  }

  /** What every graded span of page index `n` satisfies. */
  predicate Graded(r: SpanResult, pageNum: nat)
  {
    r.page == pageNum + 1 && 1.0 <= r.ratio <= 21.0 && (r.passesAAA ==> r.passesAA)
  }

  /**
   * A page adds at most one result per span and keeps what came before;
   * when every graded outcome of the step is graded for the page, so is
   * everything the page adds.
   */
  lemma {:induction false} FeedAllGraded(step: (Span, Samples) -> Outcome, pageNum: nat, p: Progress, spans: seq<Span>)
    requires forall s, before :: step(s, before).Reported? ==> Graded(step(s, before).result, pageNum)
    ensures var q := FeedAll(step, p, spans);
      && |p.results| <= |q.results| <= |p.results| + |spans|
      && q.results[..|p.results|] == p.results
      && forall i :: |p.results| <= i < |q.results| ==> Graded(q.results[i], pageNum)
    decreases |spans|
  {
    if |spans| > 0 {
      var n := |spans| - 1;
      FeedAllGraded(step, pageNum, p, spans[..n]);
      var prev := FeedAll(step, p, spans[..n]);
      assert FeedAll(step, p, spans) == Feed(step, prev, spans[n]);
    }
  }

  /** Every span the resolver grades on a page is graded for that page. */
  lemma ResolvingGraded(ctx: PageContext)
    ensures forall s, before :: Resolving(ctx)(s, before).Reported? ==> Graded(Resolving(ctx)(s, before).result, ctx.pageNum)
  {
    forall s, before | Resolve(ctx, s, before).Reported?
      ensures Graded(Resolve(ctx, s, before).result, ctx.pageNum)
    {
      ReportedIsGraded(ctx, s, before);
    }
  }

  // ---------------------------------------------------------------------
  // The document
  // ---------------------------------------------------------------------

  /** The context page `n` is resolved in: its stack and stroke boxes as the page loop builds them. */
  function Context(pow: PowerCurve, pg: Page, n: nat): PageContext
  {
    PageContext(pow, pg.render, BackgroundStack(pg.drawings, pg.images, pg.blocks), StrokeBoxes(pg.drawings), n)
  }

  /** Page index `n` resolved from the given caches. */
  function PageRun(pow: PowerCurve, pg: Page, n: nat, before: Samples): Progress
  {
    FeedAll(Resolving(Context(pow, pg, n)), Progress([], before), PageSpans(pg.blocks))
  }

  /** `contrast_results` so far and the detector's caches. */
  datatype DocProgress = DocProgress(reports: seq<PageReport>, samples: Samples)

  /** The pages in order, each run by `run` from the caches the page before it left. */
  function DocRun(run: (Page, nat, Samples) -> Progress, doc: seq<Page>): DocProgress
  {
    if |doc| == 0 then DocProgress([], Samples(None, None))
    else
      var n := |doc| - 1;
      var prev := DocRun(run, doc[..n]);
      var p := run(doc[n], n, prev.samples);
      DocProgress(prev.reports + [PageReport(n, p.results)], p.samples)
  }

  function Runner(pow: PowerCurve): (Page, nat, Samples) -> Progress
  {
    (pg: Page, n: nat, before: Samples) => PageRun(pow, pg, n, before)
  }

  /** The document loop: the pages in order, the detector's caches carried from page to page. */
  function CheckDoc(pow: PowerCurve, doc: seq<Page>): DocProgress
  {
    DocRun(Runner(pow), doc)
  }

  /** `pdf_results`: every page's results, in page order. */
  function Flatten(reports: seq<PageReport>): seq<SpanResult>
  {
    if |reports| == 0 then [] else Flatten(reports[..|reports| - 1]) + reports[|reports| - 1].results
  }

  /** The body of the page loop: build the stack and the stroke boxes, then check the spans. */
  method CheckPageOf(pow: PowerCurve, pg: Page, n: nat, detector: ColorDetector) returns (results: seq<SpanResult>)
    modifies detector
    ensures Progress(results, Cache(detector)) == PageRun(pow, pg, n, old(Cache(detector)))
  {
    var stack := BuildBackgroundStack(pg.drawings, pg.images, pg.blocks);
    var boxes := CollectStrokeBoxes(pg.drawings);
    var ctx := PageContext(pow, pg.render, stack, boxes, n);
    assert ctx == Context(pow, pg, n);
    results := CheckPage(ctx, detector, pg.blocks);
  }

  /** One more page: its report is appended, and `pdf_results` grows by its results. */
  lemma CheckDocNext(pow: PowerCurve, doc: seq<Page>, n: int, reports: seq<PageReport>, results: seq<SpanResult>)
    requires 0 <= n < |doc|
    ensures CheckDoc(pow, doc[..n + 1]) ==
      var prev := CheckDoc(pow, doc[..n]);
      DocProgress(prev.reports + [PageReport(n, PageRun(pow, doc[n], n, prev.samples).results)], PageRun(pow, doc[n], n, prev.samples).samples)
    ensures Flatten(reports + [PageReport(n, results)]) == Flatten(reports) + results
  {
    DocRunNext(Runner(pow), doc, n);
    assert (reports + [PageReport(n, results)])[..|reports|] == reports;
  }

  lemma DocRunNext(run: (Page, nat, Samples) -> Progress, doc: seq<Page>, n: int)
    requires 0 <= n < |doc|
    ensures DocRun(run, doc[..n + 1]) ==
      var prev := DocRun(run, doc[..n]);
      DocProgress(prev.reports + [PageReport(n, run(doc[n], n, prev.samples).results)], run(doc[n], n, prev.samples).samples)
  {
    assert doc[..n + 1][..n] == doc[..n];
  }

  method CheckColorContrast(pow: PowerCurve, doc: seq<Page>) returns (contrastResults: seq<PageReport>, pdfResults: seq<SpanResult>)
    ensures contrastResults == CheckDoc(pow, doc).reports
    ensures pdfResults == Flatten(contrastResults)
  {
    var detector := new ColorDetector();
    contrastResults, pdfResults := [], [];
    var n := 0;
    while n < |doc|
      invariant 0 <= n <= |doc| && |contrastResults| == n
      invariant CheckDoc(pow, doc[..n]) == DocProgress(contrastResults, Cache(detector))
      invariant pdfResults == Flatten(contrastResults)
    {
      var results := CheckPageOf(pow, doc[n], n, detector);
      CheckDocNext(pow, doc, n, contrastResults, results);
      contrastResults := contrastResults + [PageReport(n, results)];
      pdfResults := pdfResults + results;
      n := n + 1;
    }
    assert doc[..n] == doc;
  }

  /** One report per page, the `n`-th for page index `n`. */
  lemma CheckDocPages(pow: PowerCurve, doc: seq<Page>)
    ensures |CheckDoc(pow, doc).reports| == |doc|
    ensures forall i :: 0 <= i < |doc| ==> CheckDoc(pow, doc).reports[i].page == i
  {
    DocRunPages(Runner(pow), doc);
  }

  lemma {:induction false} DocRunPages(run: (Page, nat, Samples) -> Progress, doc: seq<Page>)
    ensures |DocRun(run, doc).reports| == |doc|
    ensures forall i :: 0 <= i < |doc| ==> DocRun(run, doc).reports[i].page == i
    decreases |doc|
  {
    if |doc| > 0 {
      DocRunPages(run, doc[..|doc| - 1]);
    }
  }

  /**
   * The results of page index `i` all say page `i + 1`, there are at most
   * as many as the page has spans, and each has a ratio in [1, 21] and
   * passes AAA only if it passes AA.
   */
  lemma {:induction false} CheckDocResults(pow: PowerCurve, doc: seq<Page>, i: int)
    requires 0 <= i < |doc|
    ensures i < |CheckDoc(pow, doc).reports| &&
      var rs := CheckDoc(pow, doc).reports[i].results;
      && |rs| <= |PageSpans(doc[i].blocks)|
      && forall k :: 0 <= k < |rs| ==> Graded(rs[k], i)
  {
    CheckDocReportAt(pow, doc, i);
    PageRunGraded(pow, doc[i], i, CheckDoc(pow, doc[..i]).samples);
  }

  /** The report of page index `i` is that page resolved from the caches the pages before it left. */
  lemma CheckDocReportAt(pow: PowerCurve, doc: seq<Page>, i: int)
    requires 0 <= i < |doc|
    ensures i < |CheckDoc(pow, doc).reports|
    ensures CheckDoc(pow, doc).reports[i].results == PageRun(pow, doc[i], i, CheckDoc(pow, doc[..i]).samples).results
  {
    DocRunReportAt(Runner(pow), doc, i);
  }

  lemma {:induction false} DocRunReportAt(run: (Page, nat, Samples) -> Progress, doc: seq<Page>, i: int)
    requires 0 <= i < |doc|
    ensures i < |DocRun(run, doc).reports|
    ensures DocRun(run, doc).reports[i].results == run(doc[i], i, DocRun(run, doc[..i]).samples).results
    decreases |doc|
  {
    var n := |doc| - 1;
    DocRunPages(run, doc[..n]);
    if i < n {
      DocRunReportAt(run, doc[..n], i);
      assert doc[..n][i] == doc[i];
      assert doc[..n][..i] == doc[..i];
    } else {
      assert doc[..n] == doc[..i];
    }
  }

  /** A page has at most one result per span, each graded for that page. */
  lemma PageRunGraded(pow: PowerCurve, pg: Page, n: nat, before: Samples)
    ensures var rs := PageRun(pow, pg, n, before).results;
      && |rs| <= |PageSpans(pg.blocks)|
      && forall k :: 0 <= k < |rs| ==> Graded(rs[k], n)
  {
    ResolvingGraded(Context(pow, pg, n));
    FeedAllGraded(Resolving(Context(pow, pg, n)), n, Progress([], before), PageSpans(pg.blocks));
  }

  /**
   * `_flatten_results`: the nested page reports become one list, page by
   * page. Every graded span already carries its `page`, so none is filled in.
   */
  method FlattenResults(contrastResults: seq<PageReport>) returns (flattened: seq<SpanResult>)
    ensures flattened == Flatten(contrastResults)
  {
    if |contrastResults| == 0 {
      return [];
    }
    flattened := [];
    var i := 0;
    while i < |contrastResults|
      invariant 0 <= i <= |contrastResults|
      invariant flattened == Flatten(contrastResults[..i])
    {
      var blocks := contrastResults[i].results;
      ghost var before := flattened;
      var j := 0;
      while j < |blocks|
        invariant 0 <= j <= |blocks|
        invariant flattened == before + blocks[..j]
      {
        assert blocks[..j + 1] == blocks[..j] + [blocks[j]];
        flattened := flattened + [blocks[j]];
        j := j + 1;
      }
      assert blocks[..j] == blocks;
      assert contrastResults[..i + 1][..i] == contrastResults[..i];
      i := i + 1;
    }
    assert contrastResults[..i] == contrastResults;
  }

  /** A result is in the flat list exactly when it is among some page's results. */
  lemma {:induction false} FlattenMembers(reports: seq<PageReport>, r: SpanResult)
    ensures r in Flatten(reports) <==> exists i :: 0 <= i < |reports| && r in reports[i].results
    decreases |reports|
  {
    if |reports| > 0 {
      var n := |reports| - 1;
      FlattenMembers(reports[..n], r);
      assert Flatten(reports) == Flatten(reports[..n]) + reports[n].results;
      if r in Flatten(reports[..n]) {
        var i :| 0 <= i < n && r in reports[..n][i].results;
        assert reports[..n][i] == reports[i];
      }
      if exists i :: 0 <= i < |reports| && r in reports[i].results {
        var i :| 0 <= i < |reports| && r in reports[i].results;
        if i < n {
          assert reports[..n][i] == reports[i];
        }
      }
    }
  }

  /** Every result of the flat list names a page of the document and has a ratio in [1, 21]. */
  lemma {:induction false} FlatResultsGraded(pow: PowerCurve, doc: seq<Page>, r: SpanResult)
    requires r in Flatten(CheckDoc(pow, doc).reports)
    ensures 1 <= r.page <= |doc| && 1.0 <= r.ratio <= 21.0
  {
    var reports := CheckDoc(pow, doc).reports;
    FlattenMembers(reports, r);
    CheckDocPages(pow, doc);
    var i :| 0 <= i < |reports| && r in reports[i].results;
    CheckDocResults(pow, doc, i);
  }
}
