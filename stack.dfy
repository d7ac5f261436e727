/**
 * The background compositing stack `check_color_contrast` builds for each
 * page: filled paths and thin stroke items from the vector drawings, then
 * image placements, then the vector ("type 4") blocks of the text
 * dictionary, in painting order; and the legacy list of thick stroke
 * boxes. Each loop sits in a `try` whose `except` keeps what was collected
 * before the exception (or, for the stroke boxes, empties the list).
 */
module Stack {
  import opened Common
  import opened Colors
  import opened Geometry
  import opened Records

  /** What one record contributes to a list: nothing, one entry, or an exception that ends the loop. */
  datatype Step<T> = Skip | Add(entry: T) | Raise

  /** The entries added before the first exception. */
  function Run<T>(steps: seq<Step<T>>): (r: seq<T>)
    ensures |r| <= |steps|
  {
    if |steps| == 0 then []
    else match steps[0]
      case Raise => []
      case Skip => Run(steps[1..])
      case Add(x) => [x] + Run(steps[1..])
  }

  /** Whether some step raises. */
  predicate Raises<T>(steps: seq<Step<T>>)
  {
    |steps| > 0 && (steps[0].Raise? || Raises(steps[1..]))
  }

  /** A step that raises makes the whole sequence raise. */
  lemma {:induction false} RaisesAt<T>(steps: seq<Step<T>>, i: int)
    requires 0 <= i < |steps| && steps[i].Raise?
    ensures Raises(steps)
  {
    if i > 0 {
      assert steps[1..][i - 1] == steps[i];
      RaisesAt(steps[1..], i - 1);
    }
  }

  /** A run stops at the first exception: what follows it is never looked at. */
  lemma {:induction false} RunAppend<T>(a: seq<Step<T>>, b: seq<Step<T>>)
    ensures Run(a + b) == if Raises(a) then Run(a) else Run(a) + Run(b)
    ensures Raises(a + b) <==> Raises(a) || Raises(b)
  {
    if |a| == 0 {
      assert a + b == b;
    } else {
      assert (a + b)[0] == a[0];
      assert (a + b)[1..] == a[1..] + b;
      RunAppend(a[1..], b);
      if a[0].Add? && !Raises(a) {
        var x := a[0].entry;
        assert [x] + (Run(a[1..]) + Run(b)) == [x] + Run(a[1..]) + Run(b);
      }
    }
  }

  /** Every entry of a run was added by one of the steps. */
  lemma {:induction false} RunEntryAdded<T>(steps: seq<Step<T>>, k: int)
    requires 0 <= k < |Run(steps)|
    ensures exists i :: 0 <= i < |steps| && steps[i] == Add(Run(steps)[k])
  {
    if steps[0].Add? && k == 0 {
      assert steps[0] == Add(Run(steps)[0]);
    } else {
      var k' := if steps[0].Add? then k - 1 else k;
      RunEntryAdded(steps[1..], k');
      var i :| 0 <= i < |steps[1..]| && steps[1..][i] == Add(Run(steps[1..])[k']);
      assert steps[i + 1] == Add(Run(steps)[k]);
    }
  }

  /** Handles one step while scanning: appends an added entry, notes an exception. */
  method Apply<T>(s: Step<T>, acc: seq<T>) returns (acc': seq<T>, raised: bool)
    ensures acc' == (if s.Add? then acc + [s.entry] else acc) && raised == s.Raise?
  {
    match s
    case Raise =>
      acc', raised := acc, true;
    case Skip =>
      acc', raised := acc, false;
    case Add(x) =>
      acc', raised := acc + [x], false;
  }

  /** Unfolds a run at position `j`. */
  lemma RunAt<T>(steps: seq<Step<T>>, j: int)
    requires 0 <= j < |steps|
    ensures Run(steps[j..]) ==
      match steps[j]
      case Raise => []
      case Skip => Run(steps[j + 1..])
      case Add(x) => [x] + Run(steps[j + 1..])
    ensures Raises(steps[j..]) <==> steps[j].Raise? || Raises(steps[j + 1..])
  {
    assert steps[j..] == [steps[j]] + steps[j + 1..];
    RunAppend([steps[j]], steps[j + 1..]);
    assert [steps[j]][1..] == [];
    if steps[j].Raise? {
      assert [steps[j]][0].Raise?;
    }
  }

  /** One turn of a scanning loop: what was collected, then the rest of the run, is still the whole run. */
  lemma ScanTurn<T>(steps: seq<Step<T>>, j: int, acc: seq<T>)
    requires 0 <= j < |steps|
    requires Run(steps) == acc + Run(steps[j..]) && (Raises(steps) <==> Raises(steps[j..]))
    ensures steps[j].Raise? ==> acc == Run(steps) && Raises(steps)
    ensures !steps[j].Raise? ==>
      var acc' := if steps[j].Add? then acc + [steps[j].entry] else acc;
      Run(steps) == acc' + Run(steps[j + 1..]) && (Raises(steps) <==> Raises(steps[j + 1..]))
  {
    RunAt(steps, j);
    match steps[j]
    case Raise =>
      AppendEmpty(acc);
    case Skip =>
    case Add(x) =>
      AppendAssoc(acc, [x], Run(steps[j + 1..]));
  }

  lemma AppendEmpty<T>(a: seq<T>)
    ensures a + [] == a
  {
  }

  lemma AppendAssoc<T>(a: seq<T>, b: seq<T>, c: seq<T>)
    ensures a + (b + c) == a + b + c
  {
  }

  /** The step each record of a list produces. */
  function Steps<X, T>(xs: seq<X>, step: X -> Step<T>): (r: seq<Step<T>>)
    ensures |r| == |xs|
    ensures forall i :: 0 <= i < |xs| ==> r[i] == step(xs[i])
  {
    seq(|xs|, i requires 0 <= i < |xs| => step(xs[i]))
  }

  /** A `for` loop inside a `try`: handles the records in order until one raises. */
  method ScanRecords<X, T>(xs: seq<X>, step: X -> Step<T>) returns (acc: seq<T>, raised: bool)
    ensures acc == Run(Steps(xs, step)) && raised == Raises(Steps(xs, step))
  {
    ghost var steps := Steps(xs, step);
    acc, raised := [], false;
    var j := 0;
    while j < |xs| && !raised
      invariant 0 <= j <= |xs|
      invariant !raised ==> Run(steps) == acc + Run(steps[j..]) && (Raises(steps) <==> Raises(steps[j..]))
      invariant raised ==> acc == Run(steps) && Raises(steps)
    {
      ScanTurn(steps, j, acc);
      acc, raised := Apply(step(xs[j]), acc);
      j := j + 1;
    }
    if !raised {
      assert steps[j..] == [];
    }
  }

  /** The steps of each record in turn, for a loop whose records each contribute several steps. */
  function Concat<X, T>(xs: seq<X>, f: X -> seq<Step<T>>): seq<Step<T>>
  {
    if |xs| == 0 then [] else f(xs[0]) + Concat(xs[1..], f)
  }

  /**
   * One turn of a loop over records that each contribute several steps:
   * record `i` either raises, and so does the loop, or adds its entries
   * before those of the records after it.
   */
  lemma ConcatTurn<X, T>(xs: seq<X>, f: X -> seq<Step<T>>, i: int, acc: seq<T>)
    requires 0 <= i < |xs|
    requires Run(Concat(xs, f)) == acc + Run(Concat(xs[i..], f))
    requires Raises(Concat(xs, f)) <==> Raises(Concat(xs[i..], f))
    ensures Raises(f(xs[i])) ==> Raises(Concat(xs, f)) && Run(Concat(xs, f)) == acc + Run(f(xs[i]))
    ensures !Raises(f(xs[i])) ==>
      && Run(Concat(xs, f)) == acc + Run(f(xs[i])) + Run(Concat(xs[i + 1..], f))
      && (Raises(Concat(xs, f)) <==> Raises(Concat(xs[i + 1..], f)))
  {
    ConcatAt(xs, f, i);
    RunTurn(Concat(xs, f), acc, f(xs[i]), Concat(xs[i + 1..], f));
  }

  lemma ConcatAt<X, T>(xs: seq<X>, f: X -> seq<Step<T>>, i: int)
    requires 0 <= i < |xs|
    ensures Concat(xs[i..], f) == f(xs[i]) + Concat(xs[i + 1..], f)
  {
    assert xs[i..][1..] == xs[i + 1..];
  }

  /** What a loop still has to run, `first` then `rest`, either raises within `first` or runs all of `first`. */
  lemma RunTurn<T>(whole: seq<Step<T>>, acc: seq<T>, first: seq<Step<T>>, rest: seq<Step<T>>)
    requires Run(whole) == acc + Run(first + rest) && (Raises(whole) <==> Raises(first + rest))
    ensures Raises(first) ==> Raises(whole) && Run(whole) == acc + Run(first)
    ensures !Raises(first) ==> Run(whole) == acc + Run(first) + Run(rest) && (Raises(whole) <==> Raises(rest))
  {
    RunAppend(first, rest);
    if !Raises(first) {
      assert acc + (Run(first) + Run(rest)) == acc + Run(first) + Run(rest);
    }
  }

  /** Every step of a concatenation is one of the steps of one record. */
  lemma {:induction false} ConcatStepFrom<X, T>(xs: seq<X>, f: X -> seq<Step<T>>, i: int)
    requires 0 <= i < |Concat(xs, f)|
    ensures exists j, m :: 0 <= j < |xs| && 0 <= m < |f(xs[j])| && Concat(xs, f)[i] == f(xs[j])[m]
  {
    var first, rest := f(xs[0]), Concat(xs[1..], f);
    if i < |first| {
      assert Concat(xs, f)[i] == f(xs[0])[i];
    } else {
      ConcatStepFrom(xs[1..], f, i - |first|);
      var j, m :| 0 <= j < |xs[1..]| && 0 <= m < |f(xs[1..][j])| && rest[i - |first|] == f(xs[1..][j])[m];
      assert Concat(xs, f)[i] == f(xs[j + 1])[m];
    }
  }

  /** A record whose steps raise makes the whole loop raise, wherever it stands. */
  lemma {:induction false} ConcatRaises<X, T>(xs: seq<X>, f: X -> seq<Step<T>>, j: int)
    requires 0 <= j < |xs| && Raises(f(xs[j]))
    ensures Raises(Concat(xs, f))
  {
    RunAppend(f(xs[0]), Concat(xs[1..], f));
    if j > 0 {
      assert xs[1..][j - 1] == xs[j];
      ConcatRaises(xs[1..], f, j - 1);
    }
  }

  // ---------------------------------------------------------------------
  // Stack entries
  // ---------------------------------------------------------------------

  /** An entry of `bg_stack`: a `'path'` (colour possibly unresolvable), a `'stroke'`, or an `'image'`. */
  datatype Candidate =
    | PathCand(bbox: Rect, color: Option<Color>)
    | StrokeCand(bbox: Rect, stroke: Color)
    | ImageCand(bbox: Rect, xref: int)

  /** `draw.get('width', 0) or 0`. */
  function GlobalWidth(w: Field<real>): real
  {
    if w.Given? then w.value else 0.0
  }

  /** `it.get('width', sw_global) or sw_global`. */
  function ItemWidth(w: Option<real>, swGlobal: real): real
  {
    if w.Some? && w.value != 0.0 then w.value else swGlobal
  }

  /** `a or b` on two unpacked colours. */
  function OrElse(a: Option<Color>, b: Option<Color>): Option<Color>
  {
    if a.Some? then a else b
  }

  /** `items or [None]` after `draw.get('items') or []`. */
  function StrokeItems(items: Field<seq<PathItem>>): (r: seq<Option<PathItem>>)
    ensures |r| > 0
  {
    if items.Given? && |items.value| > 0
    then seq(|items.value|, i requires 0 <= i < |items.value| => Some(items.value[i]))
    else [None]
  }

  /** Inflates a degenerate stroke box: a flat one by `sw/2` up and down, else a zero-width one left and right. */
  function Pad(b: Rect, sw: real): Rect
  {
    if Height(b) == 0.0 then Rect(b.x0, b.y0 - sw / 2.0, b.x1, b.y1 + sw / 2.0)
    else if Width(b) == 0.0 then Rect(b.x0 - sw / 2.0, b.y0, b.x1 + sw / 2.0, b.y1)
    else b
  }

  /** `min(w, h) / max(w, h) <= 0.25`, written without the division. */
  predicate Thin(r: Rect)
  {
    Min(Width(r), Height(r)) <= 0.25 * Max(Width(r), Height(r))
  }

  /**
   * One stroke item: pad the box, drop it if it has no area, raise
   * (division by zero) if it has area but neither width nor height, drop it
   * if it is not thin or has no colour. The `sw < 6` test has an empty
   * branch and plays no part.
   */
  function StrokeStep(b: Rect, sw: real, col: Option<Color>): Step<Candidate>
  {
    var p := Pad(b, sw);
    if Area(p) == 0.0 then Skip
    else
      var w, h := Width(p), Height(p);
      if Max(w, h) == 0.0 then Raise
      else if Min(w, h) / Max(w, h) > 0.25 then Skip
      else if col.None? then Skip
      else Add(StrokeCand(p, col.value))
  }

  /**
   * One entry of `items or [None]` of a stroke drawing. A falsy entry (`None`
   * or `{}`) takes the drawing's rect, width and colour; `.get` on a tuple
   * raises, and so does `_rect_from` of a missing `bbox`.
   */
  function ItemStep(rect: Rect, it: Option<PathItem>, swGlobal: real, colGlobal: Option<Color>): Step<Candidate>
  {
    match it
    case None => StrokeStep(rect, swGlobal, colGlobal)
    case Some(ItemEmpty) => StrokeStep(rect, swGlobal, colGlobal)
    case Some(ItemTuple) => Raise
    case Some(ItemRecord(bbox, _, w, stroke)) =>
      if bbox.None? then Raise
      else StrokeStep(bbox.value, ItemWidth(w, swGlobal), OrElse(UnpackColor(stroke), colGlobal))
  }

  /** The item handler of one stroke drawing: its width and stroke colour are the fallbacks. */
  function ItemStepper(rect: Rect, sw: real, col: Option<Color>): Option<PathItem> -> Step<Candidate>
  {
    it => ItemStep(rect, it, sw, col)
  }

  function StrokeSteps(rect: Rect, its: seq<Option<PathItem>>, sw: real, col: Option<Color>): seq<Step<Candidate>>
  {
    Steps(its, ItemStepper(rect, sw, col))
  }

  /** The steps one drawing contributes; a missing `rect` raises before its type is looked at. */
  function DrawingSteps(d: Drawing): seq<Step<Candidate>>
  {
    if d.rect.None? then [Raise]
    else
      var rect := d.rect.value;
      match d.kind
      case FillPath =>
        if Area(rect) == 0.0 || !Truthy(d.fill) then [] else [Add(PathCand(rect, UnpackColor(d.fill)))]
      case StrokePath => StrokeSteps(rect, StrokeItems(d.items), GlobalWidth(d.width), UnpackColor(d.stroke))
      case OtherPath => []
  }

  function DrawingsSteps(ds: seq<Drawing>): seq<Step<Candidate>>
  {
    Concat(ds, DrawingSteps)
  }

  /** An image is kept when its bbox could be read and has area. */
  function ImageStep(im: ImageRef): Step<Candidate>
  {
    if im.bbox.None? || Area(im.bbox.value) == 0.0 then Skip else Add(ImageCand(im.bbox.value, im.xref))
  }

  function ImagesSteps(ims: seq<ImageRef>): seq<Step<Candidate>>
  {
    Steps(ims, ImageStep)
  }

  /** `blk.get('color') or blk.get('stroke') or blk.get('fill')`. */
  function BlockColor(b: Block): ColorValue
  {
    if Truthy(b.color) then b.color else if Truthy(b.stroke) then b.stroke else b.fill
  }

  /** A type-4 block with area and a truthy colour becomes a `'path'` entry; a missing bbox raises. */
  function BlockStep(b: Block): Step<Candidate>
  {
    if b.btype != 4 then Skip
    else if b.bbox.None? then Raise
    else if Area(b.bbox.value) == 0.0 || !Truthy(BlockColor(b)) then Skip
    else Add(PathCand(b.bbox.value, UnpackColor(BlockColor(b))))
  }

  function BlocksSteps(bs: seq<Block>): seq<Step<Candidate>>
  {
    Steps(bs, BlockStep)
  }

  /** `bg_stack`: drawings, then images, then vector blocks, each part cut at its first exception. */
  function BackgroundStack(ds: seq<Drawing>, ims: seq<ImageRef>, bs: seq<Block>): seq<Candidate>
  {
    Run(DrawingsSteps(ds)) + Run(ImagesSteps(ims)) + Run(BlocksSteps(bs))
  }

  /** The body of the drawings loop for one drawing. */
  method DrawingEntries(d: Drawing) returns (added: seq<Candidate>, raised: bool)
    ensures added == Run(DrawingSteps(d)) && raised == Raises(DrawingSteps(d))
  {
    if d.rect.None? {
      assert DrawingSteps(d)[0].Raise?;
      return [], true;
    }
    var rect := d.rect.value;
    match d.kind
    case FillPath =>
      if Area(rect) == 0.0 || !Truthy(d.fill) {
        return [], false;
      }
      added, raised := Apply(Add(PathCand(rect, UnpackColor(d.fill))), []);
    case StrokePath =>
      added, raised := ScanRecords(StrokeItems(d.items), ItemStepper(rect, GlobalWidth(d.width), UnpackColor(d.stroke)));
    case OtherPath =>
      return [], false;
  }

  /** The drawings loop: each drawing's entries in turn, abandoned (keeping what it collected) at the first exception. */
  method CollectDrawings(ds: seq<Drawing>) returns (stack: seq<Candidate>)
    ensures stack == Run(DrawingsSteps(ds))
  {
    ghost var steps := DrawingsSteps(ds);
    stack := [];
    var raised := false;
    var i := 0;
    while i < |ds| && !raised
      invariant 0 <= i <= |ds|
      invariant !raised ==>
        && Run(steps) == stack + Run(Concat(ds[i..], DrawingSteps))
        && (Raises(steps) <==> Raises(Concat(ds[i..], DrawingSteps)))
      invariant raised ==> stack == Run(steps)
    {
      ConcatTurn(ds, DrawingSteps, i, stack);
      var added;
      added, raised := DrawingEntries(ds[i]);
      stack := stack + added;
      i := i + 1;
    }
    if !raised {
      assert ds[i..] == [];
    }
  }

  /** Builds `bg_stack` the way the page loop does: drawings, then images, then vector blocks. */
  method BuildBackgroundStack(ds: seq<Drawing>, ims: seq<ImageRef>, bs: seq<Block>) returns (stack: seq<Candidate>)
    ensures stack == BackgroundStack(ds, ims, bs)
  {
    var fromDrawings := CollectDrawings(ds);
    var fromImages, _ := ScanRecords(ims, ImageStep);
    var fromBlocks, _ := ScanRecords(bs, BlockStep);
    stack := fromDrawings + fromImages + fromBlocks;
  }

  // ---------------------------------------------------------------------
  // Properties of the stack
  // ---------------------------------------------------------------------

  /** What every stack entry satisfies: it has area, and a stroke entry is thin. */
  predicate Admissible(c: Candidate)
  {
    Area(c.bbox) > 0.0 && (c.StrokeCand? ==> Thin(c.bbox))
  }

  /**
   * A stroke item is kept exactly as its padded box with its colour, and
   * only when that box has area, is thin and the colour resolved.
   */
  lemma StrokeStepKeeps(b: Rect, sw: real, col: Option<Color>)
    ensures StrokeStep(b, sw, col).Add? ==>
      && col.Some?
      && StrokeStep(b, sw, col).entry == StrokeCand(Pad(b, sw), col.value)
      && Admissible(StrokeStep(b, sw, col).entry)
    ensures Area(Pad(b, sw)) == 0.0 || col.None? ==> !StrokeStep(b, sw, col).Add?
    ensures StrokeStep(b, sw, col).Raise? <==> Area(Pad(b, sw)) > 0.0 && Width(Pad(b, sw)) == 0.0 && Height(Pad(b, sw)) == 0.0
  {
    var p := Pad(b, sw);
    var w, h := Width(p), Height(p);
    if Area(p) > 0.0 && Max(w, h) > 0.0 {
      var lo, hi := Min(w, h), Max(w, h);
      if lo / hi <= 0.25 {
        RatioBound(lo, hi, 0.25);
      }
    }
  }

  /** A flat stroke item is padded by half the stroke width above and below; a zero-width one, left and right. */
  lemma PadDegenerate(b: Rect, sw: real)
    ensures Height(b) == 0.0 ==> Pad(b, sw) == Rect(b.x0, b.y0 - sw / 2.0, b.x1, b.y1 + sw / 2.0)
    ensures Height(b) != 0.0 && Width(b) == 0.0 ==> Pad(b, sw) == Rect(b.x0 - sw / 2.0, b.y0, b.x1 + sw / 2.0, b.y1)
    ensures Height(b) != 0.0 && Width(b) != 0.0 ==> Pad(b, sw) == b
  {
  }

  /**
   * Thin strokes are not rejected: a flat segment of length `L` with a
   * colour, stroked at any width up to `L / 4` (below 6 points or not), is
   * kept as the segment padded by half the width above and below.
   */
  lemma HairlineKept(b: Rect, sw: real, c: Color)
    requires b.y1 == b.y0 && b.x1 - b.x0 > 0.0 && 0.0 < sw <= (b.x1 - b.x0) / 4.0
    ensures StrokeStep(b, sw, Some(c)) == Add(StrokeCand(Rect(b.x0, b.y0 - sw / 2.0, b.x1, b.y1 + sw / 2.0), c))
  {
    var len := b.x1 - b.x0;
    var p := Rect(b.x0, b.y0 - sw / 2.0, b.x1, b.y1 + sw / 2.0);
    assert Pad(b, sw) == p;
    assert Width(p) == len && Height(p) == sw;
    assert Area(p) == len * sw > 0.0;
    assert Max(len, sw) == len && Min(len, sw) == sw;
    QuotientBetween(sw, len, 0.0, 0.25);
  }

  lemma {:induction false} DrawingStepAdmissible(d: Drawing, i: int)
    requires 0 <= i < |DrawingSteps(d)| && DrawingSteps(d)[i].Add?
    ensures Admissible(DrawingSteps(d)[i].entry)
  {
    if d.kind.StrokePath? {
      var rect, its := d.rect.value, StrokeItems(d.items);
      var sw, col := GlobalWidth(d.width), UnpackColor(d.stroke);
      assert DrawingSteps(d)[i] == ItemStep(rect, its[i], sw, col);
      match its[i]
      case None => StrokeStepKeeps(rect, sw, col);
      case Some(ItemEmpty) => StrokeStepKeeps(rect, sw, col);
      case Some(ItemTuple) =>
      case Some(ItemRecord(bbox, _, w, stroke)) =>
        StrokeStepKeeps(bbox.value, ItemWidth(w, sw), OrElse(UnpackColor(stroke), col));
    }
  }

  lemma DrawingsStepAdmissible(ds: seq<Drawing>, i: int)
    requires 0 <= i < |DrawingsSteps(ds)| && DrawingsSteps(ds)[i].Add?
    ensures Admissible(DrawingsSteps(ds)[i].entry)
  {
    ConcatStepFrom(ds, DrawingSteps, i);
    var j, m :| 0 <= j < |ds| && 0 <= m < |DrawingSteps(ds[j])| && DrawingsSteps(ds)[i] == DrawingSteps(ds[j])[m];
    DrawingStepAdmissible(ds[j], m);
  }

  /** Where an index of three concatenated lists lands. */
  lemma ThreeIndex<T>(a: seq<T>, b: seq<T>, c: seq<T>, k: int)
    requires 0 <= k < |a| + |b| + |c|
    ensures k < |a| ==> (a + b + c)[k] == a[k]
    ensures |a| <= k < |a| + |b| ==> (a + b + c)[k] == b[k - |a|]
    ensures |a| + |b| <= k ==> (a + b + c)[k] == c[k - |a| - |b|]
  {
  }

  lemma DrawingsRunAdmissible(ds: seq<Drawing>, k: int)
    requires 0 <= k < |Run(DrawingsSteps(ds))|
    ensures Admissible(Run(DrawingsSteps(ds))[k])
  {
    var steps := DrawingsSteps(ds);
    RunEntryAdded(steps, k);
    var i :| 0 <= i < |steps| && steps[i] == Add(Run(steps)[k]);
    DrawingsStepAdmissible(ds, i);
  }

  lemma ImagesRunAdmissible(ims: seq<ImageRef>, k: int)
    requires 0 <= k < |Run(ImagesSteps(ims))|
    ensures Admissible(Run(ImagesSteps(ims))[k])
  {
    var steps := ImagesSteps(ims);
    RunEntryAdded(steps, k);
    var i :| 0 <= i < |steps| && steps[i] == Add(Run(steps)[k]);
    assert steps[i] == ImageStep(ims[i]);
  }

  lemma BlocksRunAdmissible(bs: seq<Block>, k: int)
    requires 0 <= k < |Run(BlocksSteps(bs))|
    ensures Admissible(Run(BlocksSteps(bs))[k])
  {
    var steps := BlocksSteps(bs);
    RunEntryAdded(steps, k);
    var i :| 0 <= i < |steps| && steps[i] == Add(Run(steps)[k]);
    assert steps[i] == BlockStep(bs[i]);
  }

  /** Every entry of a list is admissible. */
  predicate AllAdmissible(s: seq<Candidate>)
  {
    forall k :: 0 <= k < |s| ==> Admissible(s[k])
  }

  lemma DrawingsAllAdmissible(ds: seq<Drawing>)
    ensures AllAdmissible(Run(DrawingsSteps(ds)))
  {
    forall k | 0 <= k < |Run(DrawingsSteps(ds))|
      ensures Admissible(Run(DrawingsSteps(ds))[k])
    {
      DrawingsRunAdmissible(ds, k);
    }
  }

  lemma ImagesAllAdmissible(ims: seq<ImageRef>)
    ensures AllAdmissible(Run(ImagesSteps(ims)))
  {
    forall k | 0 <= k < |Run(ImagesSteps(ims))|
      ensures Admissible(Run(ImagesSteps(ims))[k])
    {
      ImagesRunAdmissible(ims, k);
    }
  }

  lemma BlocksAllAdmissible(bs: seq<Block>)
    ensures AllAdmissible(Run(BlocksSteps(bs)))
  {
    forall k | 0 <= k < |Run(BlocksSteps(bs))|
      ensures Admissible(Run(BlocksSteps(bs))[k])
    {
      BlocksRunAdmissible(bs, k);
    }
  }

  lemma AllAdmissibleConcat(a: seq<Candidate>, b: seq<Candidate>, c: seq<Candidate>)
    requires AllAdmissible(a) && AllAdmissible(b) && AllAdmissible(c)
    ensures AllAdmissible(a + b + c)
  {
    forall k | 0 <= k < |a + b + c|
      ensures Admissible((a + b + c)[k])
    {
      ThreeIndex(a, b, c, k);
    }
  }

  /** Every entry of `bg_stack` has a positive area, and every stroke entry is thin. */
  lemma StackAdmissible(ds: seq<Drawing>, ims: seq<ImageRef>, bs: seq<Block>)
    ensures AllAdmissible(BackgroundStack(ds, ims, bs))
  {
    DrawingsAllAdmissible(ds);
    ImagesAllAdmissible(ims);
    BlocksAllAdmissible(bs);
    AllAdmissibleConcat(Run(DrawingsSteps(ds)), Run(ImagesSteps(ims)), Run(BlocksSteps(bs)));
  }

  // ---------------------------------------------------------------------
  // Legacy stroke boxes
  // ---------------------------------------------------------------------

  /** An entry of `stroke_boxes`: a box and the drawing's colour value as given. */
  datatype StrokeBox = StrokeBox(bbox: Rect, color: ColorValue)

  /** `drawing.get("color", (1, 1, 1))`. */
  function LegacyColor(d: Drawing): ColorValue
  {
    if d.color.Some? then d.color.value else ListValue([Num(1.0), Num(1.0), Num(1.0)])
  }

  /** `item.get("bbox") or item.get("rect")`, kept when both extents are non-zero; `{}` gives `None` and adds nothing. */
  function LegacyItemStep(it: PathItem, color: ColorValue): Step<StrokeBox>
  {
    match it
    case ItemTuple => Raise
    case ItemEmpty => Skip
    case ItemRecord(bbox, rect, _, _) =>
      var b := if bbox.Some? then bbox else rect;
      if b.Some? && b.value.x1 - b.value.x0 != 0.0 && b.value.y1 - b.value.y0 != 0.0
      then Add(StrokeBox(b.value, color))
      else Skip
  }

  function LegacyStepper(color: ColorValue): PathItem -> Step<StrokeBox>
  {
    it => LegacyItemStep(it, color)
  }

  /**
   * Only stroke drawings wider than 2 contribute; a `None` width (compared
   * with 2) or `None` items (iterated) raise.
   */
  function LegacyDrawingSteps(d: Drawing): seq<Step<StrokeBox>>
  {
    if !d.kind.StrokePath? then []
    else match d.width
      case Null => [Raise]
      case Missing => []
      case Given(w) =>
        if w <= 2.0 then []
        else match d.items
          case Missing => []
          case Null => [Raise]
          case Given(its) => Steps(its, LegacyStepper(LegacyColor(d)))
  }

  function LegacySteps(ds: seq<Drawing>): seq<Step<StrokeBox>>
  {
    Concat(ds, LegacyDrawingSteps)
  }

  /** `stroke_boxes`: the boxes collected, or none at all when the loop raised. */
  function StrokeBoxes(ds: seq<Drawing>): seq<StrokeBox>
  {
    var steps := LegacySteps(ds);
    if Raises(steps) then [] else Run(steps)
  }

  /** The body of the stroke-box loop for one drawing. */
  method LegacyDrawingEntries(d: Drawing) returns (added: seq<StrokeBox>, raised: bool)
    ensures added == Run(LegacyDrawingSteps(d)) && raised == Raises(LegacyDrawingSteps(d))
  {
    if !d.kind.StrokePath? {
      return [], false;
    }
    match d.width
    case Null =>
      assert LegacyDrawingSteps(d)[0].Raise?;
      return [], true;
    case Missing =>
      return [], false;
    case Given(w) =>
      if w <= 2.0 {
        return [], false;
      }
      match d.items
      case Missing =>
        return [], false;
      case Null =>
        assert LegacyDrawingSteps(d)[0].Raise?;
        return [], true;
      case Given(its) =>
        added, raised := ScanRecords(its, LegacyStepper(LegacyColor(d)));
  }

  method CollectStrokeBoxes(ds: seq<Drawing>) returns (boxes: seq<StrokeBox>)
    ensures boxes == StrokeBoxes(ds)
  {
    ghost var steps := LegacySteps(ds);
    boxes := [];
    var raised := false;
    var i := 0;
    while i < |ds| && !raised
      invariant 0 <= i <= |ds|
      invariant !raised ==>
        && Run(steps) == boxes + Run(Concat(ds[i..], LegacyDrawingSteps))
        && (Raises(steps) <==> Raises(Concat(ds[i..], LegacyDrawingSteps)))
      invariant raised ==> Raises(steps)
    {
      ConcatTurn(ds, LegacyDrawingSteps, i, boxes);
      var added;
      added, raised := LegacyDrawingEntries(ds[i]);
      boxes := boxes + added;
      i := i + 1;
    }
    if raised {
      boxes := [];
    } else {
      assert ds[i..] == [];
    }
  }

  lemma LegacyDrawingStepHasExtent(d: Drawing, m: int)
    requires 0 <= m < |LegacyDrawingSteps(d)| && LegacyDrawingSteps(d)[m].Add?
    ensures var b := LegacyDrawingSteps(d)[m].entry.bbox; b.x1 - b.x0 != 0.0 && b.y1 - b.y0 != 0.0
  {
  }

  lemma LegacyStepHasExtent(ds: seq<Drawing>, i: int)
    requires 0 <= i < |LegacySteps(ds)| && LegacySteps(ds)[i].Add?
    ensures var b := LegacySteps(ds)[i].entry.bbox; b.x1 - b.x0 != 0.0 && b.y1 - b.y0 != 0.0
  {
    ConcatStepFrom(ds, LegacyDrawingSteps, i);
    var j, m :| 0 <= j < |ds| && 0 <= m < |LegacyDrawingSteps(ds[j])| && LegacySteps(ds)[i] == LegacyDrawingSteps(ds[j])[m];
    LegacyDrawingStepHasExtent(ds[j], m);
  }

  /** Every stroke box has non-zero width and height. */
  lemma StrokeBoxesHaveExtent(ds: seq<Drawing>, k: int)
    requires 0 <= k < |StrokeBoxes(ds)|
    ensures var b := StrokeBoxes(ds)[k].bbox; b.x1 - b.x0 != 0.0 && b.y1 - b.y0 != 0.0
  {
    RunEntryAdded(LegacySteps(ds), k);
    var i :| 0 <= i < |LegacySteps(ds)| && LegacySteps(ds)[i] == Add(StrokeBoxes(ds)[k]);
    LegacyStepHasExtent(ds, i);
  }

  /** A stroke drawing whose width is `None` empties the whole list, wherever it stands. */
  lemma {:induction false} NullWidthEmptiesStrokeBoxes(ds: seq<Drawing>, j: int)
    requires 0 <= j < |ds| && ds[j].kind.StrokePath? && ds[j].width.Null?
    ensures StrokeBoxes(ds) == []
  {
    NullWidthRaises(ds, j);
  }

  lemma NullWidthRaises(ds: seq<Drawing>, j: int)
    requires 0 <= j < |ds| && ds[j].kind.StrokePath? && ds[j].width.Null?
    ensures Raises(LegacySteps(ds))
  {
    assert LegacyDrawingSteps(ds[j])[0].Raise?;
    ConcatRaises(ds, LegacyDrawingSteps, j);
  }

  /** Stroke drawings no wider than 2 points contribute no box. */
  lemma HairlinesContributeNoBox(d: Drawing)
    requires d.width.Given? && d.width.value <= 2.0
    ensures LegacyDrawingSteps(d) == []
  {
  }
}
