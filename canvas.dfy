/** The drawing surface as the controller sees it: a value that strokes and
    fills extend, snapshots that encode it, and the mapping from page
    coordinates to canvas coordinates. Rasterisation itself is not modelled. */
module Canvas {

  datatype Point = Point(x: int, y: int)

  /** The pixels of the canvas, described by how they were produced.
      `Transparent` is a freshly sized canvas, `Filled` a clear followed by a
      fill with one colour, `Stroked` the current path stroked over what was
      there with the context's stroke style and line width. */
  datatype Surface =
    | Transparent
    | Filled(color: string)
    | Stroked(under: Surface, style: string, width: nat, path: seq<Point>)

  /** An encoded image of the whole surface (a data URL). The controller
      stores and restores these but never looks inside. */
  datatype Snapshot = DataUrl(image: Surface)

  /** Encoding the canvas (`toDataURL`). */
  function Capture(s: Surface): (d: Snapshot)
    ensures Decode(d) == s
  {
    DataUrl(s)
  }

  /** Decoding a snapshot and drawing it over a cleared canvas. */
  function Decode(d: Snapshot): Surface
  {
    d.image
  }

  /** A pointer event: the page coordinates of the mouse, or of the first
      touch point of a touch event. */
  datatype PointerEvent =
    | Mouse(pageX: int, pageY: int)
    | Touch(pageX: int, pageY: int)

  /** Page coordinates translated into canvas coordinates: the canvas's
      on-screen origin and the page scroll offset are both subtracted. */
  function CanvasCoords(e: PointerEvent, origin: Point, scroll: Point): (p: Point)
    ensures p.x + origin.x + scroll.x == e.pageX
    ensures p.y + origin.y + scroll.y == e.pageY
  {
    Point(e.pageX - origin.x - scroll.x, e.pageY - origin.y - scroll.y)
  }

  /** A page coordinate is a viewport coordinate plus the scroll offset, so
      the canvas point is the viewport point minus the canvas's viewport
      origin, whatever the page is scrolled by. */
  lemma CoordsIgnoreScroll(clientX: int, clientY: int, origin: Point, scroll: Point)
    ensures CanvasCoords(Mouse(clientX + scroll.x, clientY + scroll.y), origin, scroll)
         == Point(clientX - origin.x, clientY - origin.y)
  {
  }
}
