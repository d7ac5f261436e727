/**
 * The PyMuPDF results the engine reads, as plain records: vector drawings
 * (`page.get_drawings()`), image placements (`page.get_images()` with
 * `page.get_image_bbox`) and the text dictionary (`page.get_text("dict")`).
 * A key that may be absent is an `Option` or a `Field`; a colour value is
 * kept as given, to be read by `unpack_color`.
 */
module Records {
  import opened Common
  import opened Colors
  import opened Geometry

  /** `draw['type']`: `'fill'`, `'stroke'`, or anything else (such as `'fs'`). */
  datatype DrawKind = FillPath | StrokePath | OtherPath

  /**
   * One entry of a drawing's `items`, as the engine reads it: a non-empty
   * mapping with optional `bbox`, `rect`, `width` and `stroke` keys, the
   * empty mapping `{}` (which is falsy), or something without `.get`
   * (PyMuPDF's own item tuples), on which `.get` raises.
   */
  datatype PathItem =
    | ItemRecord(bbox: Option<Rect>, rect: Option<Rect>, width: Option<real>, stroke: ColorValue)
    | ItemEmpty
    | ItemTuple

  /**
   * A vector drawing. `fill` and `stroke` are `NoneValue` when absent;
   * `color` is `None` when the key is absent.
   */
  datatype Drawing = Drawing(
    kind: DrawKind,
    rect: Option<Rect>,
    fill: ColorValue,
    stroke: ColorValue,
    color: Option<ColorValue>,
    width: Field<real>,
    items: Field<seq<PathItem>>)

  /** An image reference and the outcome of `page.get_image_bbox(xref)` (`None` when it raises). */
  datatype ImageRef = ImageRef(xref: int, bbox: Option<Rect>)

  /**
   * A text span. `color` is `None` when the key is absent, `size` too
   * (then 12 is used); `text` is `""` when absent.
   */
  datatype Span = Span(text: string, bbox: Option<Rect>, size: Option<real>, flags: int, color: Option<ColorValue>)

  datatype Line = Line(spans: seq<Span>)

  /**
   * A block of the text dictionary. `lines` is `None` when the block has no
   * `lines` key (image and vector blocks); colour keys are `NoneValue` when absent.
   */
  datatype Block = Block(
    btype: int,
    bbox: Option<Rect>,
    color: ColorValue,
    stroke: ColorValue,
    fill: ColorValue,
    lines: Option<seq<Line>>)
}
