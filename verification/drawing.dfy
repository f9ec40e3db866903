/**
 * The raster images of the application, described by what is drawn on them.
 * Pixels are not modelled: a canvas is its mode, size, background colour and
 * the draw operations issued on it, in order.
 */
module Drawing {
  import opened Fonts

  /** A colour as the source writes it, `#RRGGBB`. */
  type Color = string

  datatype Mode = RGB | RGBA

  /** An axis-aligned box with corners (x0, y0) and (x1, y1). */
  datatype Box = Box(x0: int, y0: int, x1: int, y1: int)

  /** Width and height of the bounding box of a string drawn in a font. */
  datatype Extent = Extent(width: nat, height: nat)

  /** The library's text measurement, `textbbox`, taken as given. */
  type Measure = (Font, string) -> Extent

  /**
   * One drawing call. Text anchors may be half-pixels (the source divides
   * widths by two in floating point), so a text op records TWICE its anchor:
   * it is drawn at (x2 / 2, y2 / 2).
   */
  datatype DrawOp =
    | Ellipse(box: Box, outline: Color, lineWidth: nat)
    | Rectangle(box: Box, fill: Color)
    | Text(x2: int, y2: int, text: string, fill: Color, font: Font)

  /** An image and what is drawn on it. Sizes are natural: the library refuses to create an image of negative size. */
  datatype Canvas = Canvas(mode: Mode, width: nat, height: nat, background: Color, ops: seq<DrawOp>)

  /** `b` is non-empty and lies in the rectangle [left, right] x [top, bottom]. */
  predicate BoxWithin(b: Box, left: int, top: int, right: int, bottom: int) {
    left <= b.x0 < b.x1 <= right && top <= b.y0 < b.y1 <= bottom
  }
}
