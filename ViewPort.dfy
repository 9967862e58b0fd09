/**
 * The client's viewport: the translation between absolute world coordinates
 * and canvas coordinates, keeping the player's own position at the centre of
 * the canvas.
 */
module ViewPort {
  import opened Wrappers
  import C = Constants

  datatype Point = Point(x: int, y: int)

  /** Half the canvas size: the canvas coordinates of its centre. */
  const HalfWidth: int := C.CanvasWidth / 2
  const HalfHeight: int := C.CanvasHeight / 2

  class ViewPort {
    /**
     * The absolute coordinates of the viewport's centre. None stands for the
     * empty array the viewport starts with, before the first update.
     */
    var selfCoords: Option<Point>

    constructor ()
      ensures selfCoords == None
    {
      selfCoords := None;
    }

    /** Re-centres the viewport on the given absolute position. */
    method Update(x: int, y: int)
      modifies this
      ensures selfCoords == Some(Point(x, y))
    {
      selfCoords := Some(Point(x, y));
    }

    /**
     * Converts absolute coordinates to canvas coordinates. Before the first
     * update the translation is undefined (the source computes NaN), which is
     * None here.
     */
    function ToCanvasCoords(coords: Point): (r: Option<Point>)
      reads this
      ensures r.Some? <==> selfCoords.Some?
    {
      match selfCoords
      case None => None
      case Some(self) =>
        var translateX := self.x - HalfWidth;
        var translateY := self.y - HalfHeight;
        Some(Point(coords.x - translateX, coords.y - translateY))
    }

    /** Converts canvas coordinates back to absolute coordinates. */
    function ToAbsoluteCoords(coords: Point): (r: Option<Point>)
      reads this
      ensures r.Some? <==> selfCoords.Some?
    {
      match selfCoords
      case None => None
      case Some(self) =>
        var translateX := self.x - HalfWidth;
        var translateY := self.y - HalfHeight;
        Some(Point(coords.x + translateX, coords.y + translateY))
    }
  }

  /** Canvas coordinates then absolute coordinates give back the starting point. */
  lemma AbsoluteOfCanvas(v: ViewPort, c: Point)
    requires v.selfCoords.Some?
    ensures v.ToAbsoluteCoords(v.ToCanvasCoords(c).value) == Some(c)
  {
  }

  /** Absolute coordinates then canvas coordinates give back the starting point. */
  lemma CanvasOfAbsolute(v: ViewPort, c: Point)
    requires v.selfCoords.Some?
    ensures v.ToCanvasCoords(v.ToAbsoluteCoords(c).value) == Some(c)
  {
  }

  /** The player's own position is drawn at the canvas centre (400, 300). */
  lemma SelfAtCanvasCentre(v: ViewPort)
    requires v.selfCoords.Some?
    ensures v.ToCanvasCoords(v.selfCoords.value) == Some(Point(400, 300))
  {
  }

  /** Both conversions are translations: they preserve the difference of two points. */
  lemma ConversionsPreserveDifferences(v: ViewPort, a: Point, b: Point)
    requires v.selfCoords.Some?
    ensures var ca, cb := v.ToCanvasCoords(a).value, v.ToCanvasCoords(b).value;
            ca.x - cb.x == a.x - b.x && ca.y - cb.y == a.y - b.y
    ensures var aa, ab := v.ToAbsoluteCoords(a).value, v.ToAbsoluteCoords(b).value;
            aa.x - ab.x == a.x - b.x && aa.y - ab.y == a.y - b.y
  {
  }
}
