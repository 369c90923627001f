/** Points and the two coordinate systems of the editor: grid units, in which
    the polygon and the data points live (y grows upward), and canvas pixels,
    in which pointer events arrive and drawing happens (y grows downward).
    Coordinates are exact reals. */
module Geometry {

  /** A position, in grid units or in canvas pixels according to use. */
  datatype Point = Point(x: real, y: real)

  /** Canvas pixel position to grid position, parameterised by the size of one
      grid cell in pixels and the canvas height; the y axis is flipped. Reading
      the result back through GridToCanvas gives the canvas position again. */
  function CanvasToGrid(gridSize: real, canvasHeight: real, c: Point): (g: Point)
    requires gridSize != 0.0
    ensures GridToCanvas(gridSize, canvasHeight, g) == c
  {
    Point(c.x / gridSize, (canvasHeight - c.y) / gridSize)
  }

  /** Grid position to canvas pixel position, the inverse of CanvasToGrid: for a
      non-zero cell size each grid coordinate is recovered from the result by
      dividing the pixel offset (from the left edge, from the bottom edge). */
  function GridToCanvas(gridSize: real, canvasHeight: real, g: Point): (c: Point)
    ensures gridSize != 0.0 ==> g.x == c.x / gridSize && g.y == (canvasHeight - c.y) / gridSize
  {
    Point(g.x * gridSize, canvasHeight - g.y * gridSize)
  }

  /** The grid-to-canvas-to-grid round trip is the identity. */
  lemma GridRoundTrip(gridSize: real, canvasHeight: real, g: Point)
    requires gridSize != 0.0
    ensures CanvasToGrid(gridSize, canvasHeight, GridToCanvas(gridSize, canvasHeight, g)) == g
  {
  }

  /** Two canvas positions map to the same grid position only if they are equal. */
  lemma CanvasToGridInjective(gridSize: real, canvasHeight: real, c1: Point, c2: Point)
    requires gridSize != 0.0
    requires CanvasToGrid(gridSize, canvasHeight, c1) == CanvasToGrid(gridSize, canvasHeight, c2)
    ensures c1 == c2
  {
    assert GridToCanvas(gridSize, canvasHeight, CanvasToGrid(gridSize, canvasHeight, c1)) == c1;
  }

  /** Squared Euclidean distance; compared against a squared radius, this
      replaces the square root of the distance without changing any outcome. */
  function DistanceSquared(a: Point, b: Point): (d: real)
    ensures d >= 0.0
    ensures a == b ==> d == 0.0
  {
    SquareFacts(b.x - a.x);
    SquareFacts(b.y - a.y);
    (b.x - a.x) * (b.x - a.x) + (b.y - a.y) * (b.y - a.y)
  }

  /** A square is non-negative, and positive away from zero. */
  lemma SquareFacts(r: real)
    ensures r * r >= 0.0
    ensures r != 0.0 ==> r * r > 0.0
  {
    if r > 0.0 {
      PositiveSquare(r);
    } else if r < 0.0 {
      PositiveSquare(-r);
      assert r * r == (-r) * (-r);
    }
  }

  lemma PositiveSquare(r: real)
    requires r > 0.0
    ensures r * r > 0.0
  {
  }
}
