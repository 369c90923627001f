# Polygon editor over a grid — a Dafny model

The program is a browser page that lets a user trace a polygon on a
coordinate grid. Each click on the canvas places a vertex. Once there are at
least three vertices, a click within 10 pixels of the first vertex closes the
shape. A batch of data points (random, or supplied by a caller) is then
classified as inside or outside the closed polygon with the even-odd
ray-casting test. This project models that logic and proves properties of it.

- `geometry.dfy`, module `Geometry`: points, and the two coordinate maps
  between canvas pixels (y grows downward) and grid units (y grows upward).
- `raycast.dfy`, module `RayCast`: the point-in-polygon loop, proved equal to
  a specification. The specification says a point is inside when the polygon
  has at least three vertices and the set of crossed edges has odd size. The
  module also proves that a point beyond the polygon's extent is outside, that
  every point strictly inside an axis-aligned rectangle is inside, and checks
  worked cases on a square, including its boundary.
- `editor.dfy`, module `Editor`: the editor. It holds the closing-gesture
  proximity test, the hint choice, and the inside/outside count. Class
  `ShapeEditor` has the page's state variables as fields and one method per
  event handler. Its invariant `Valid()` says four things:
  - the cell size is positive;
  - a closed shape has at least three vertices;
  - the hover flag is raised only on an open shape with at least three
    vertices;
  - the hint shown is the hint for the current state.

  Every handler keeps this invariant. Two client methods at the end of the
  file replay two scenarios using only the handlers' contracts. In the
  first, a triangle is closed by a click near its first vertex, and a later
  click is ignored. In the second, two coincident vertices cannot close a
  shape.

Coordinates are exact reals. The source compares `sqrt(dx² + dy²) <= 10`;
the model compares `dx² + dy² <= 100`, which decides the same since the
radius is not negative. Pointer handlers take canvas positions as their
parameters. The page computes these from the mouse event and the canvas
rectangle. The random numbers of the test-data button are a parameter too.

## Model

| member | source | states |
|---|---|---|
| `Geometry.CanvasToGrid` | script.js:81-86 | maps a canvas position to grid units with the y axis flipped; mapping the result back with GridToCanvas gives the original canvas position (cell size non-zero) |
| `Geometry.GridToCanvas` | script.js:90-95 | maps a grid position to canvas pixels; with a non-zero cell size, each grid coordinate is recovered from the pixel result |
| `Geometry.GridRoundTrip` | script.js:81-95 | grid → canvas → grid is the identity for a non-zero cell size |
| `Geometry.CanvasToGridInjective` | script.js:81-86 | two different canvas positions never map to the same grid position |
| `Geometry.DistanceSquared` | script.js:275-277 | the squared distance is non-negative and is zero for equal points |
| `RayCast.CrossingRightOfAnEndpoint` | script.js:266 | the edge test `Crosses`: a crossed edge has exactly one endpoint strictly above the point and at least one endpoint strictly right of it |
| `RayCast.CrossesSymmetric` | script.js:266 | the edge test gives the same answer whichever endpoint is taken as i and which as j |
| `RayCast.IsPointInPolygon` | script.js:251-271 | the loop over edges (j, i), with j starting at the last vertex, returns exactly `Inside`: false for fewer than three vertices, otherwise odd parity of the set of crossed edges under the strict one-sided tie-break |
| `RayCast.CrossingCountIsCardinality` | script.js:260-269 | the number of crossings the loop counts over the first k edges is the size of the set of crossed edges among them |
| `RayCast.InsideByCount` | script.js:252-270 | `Inside` holds iff the polygon has at least three vertices and the crossing count is odd |
| `RayCast.IntersectionBetweenEndpoints` | script.js:266 | where an edge straddling the ray's height meets that height, its x lies between the edge's endpoint x-coordinates; the division has a non-zero divisor there |
| `RayCast.StraddleParity` | script.js:260-266 | the parity of the straddling edges among the first k depends only on the heights of vertex 0, vertex k-1 and the last vertex |
| `RayCast.StraddlesEven` | script.js:260-266 | going once around the polygon, the number of edges straddling any height is even |
| `RayCast.CrossingsAreStraddlesWhenRightOf` | script.js:266 | with every vertex strictly right of the point, the crossed edges are exactly the straddling ones |
| `RayCast.OutsideBeyondExtent` | script.js:251-271 | a point is outside if every vertex is strictly right of it, at or left of it, at or below it, or strictly above it |
| `RayCast.RectangleInterior` | script.js:251-271 | every point strictly inside an axis-aligned rectangle (any corners with lo < hi on both axes) is inside |
| `RayCast.SquareCases` | script.js:266 | on the square (0,0),(4,0),(4,4),(0,4): (2,2) and the left-edge point (0,2) are inside; (5,5) and the right-edge point (4,2) are outside (every strictly interior point of the square is inside by `SquareInterior`, the square instance of `RectangleInterior`) |
| `Editor.IsNearFirstPoint` | script.js:281-287 | nothing is near while there is no vertex; the first vertex's own canvas position is near it |
| `Editor.NearFirstPointBounds` | script.js:281-287 | nothing is near when there is no vertex; a position near the first vertex is within 10 pixels of it on each axis; a position within 7 pixels on both axes is always near |
| `Editor.ClickOnFirstVertexIsNear` | script.js:281-287 | a click exactly where the first vertex was placed counts as near it |
| `Editor.HintFor` | script.js:294-312 | the hint is hidden iff the shape is closed or has no vertex; "place more" iff open with 1–2 vertices, naming 3 − count; "click the red point" iff open, at least three vertices and hovering |
| `Editor.NatToString` | script.js:302 | the decimal text of the remaining count: a non-empty string of digits whose value, read back with DigitsValue, is that count |
| `Editor.HintText` | script.js:294-312 | a hint has text iff it is not hidden |
| `Editor.HintTable` | script.js:294-312 | the exact text for each state: none when closed or empty, "Place at least 2 / 1 more point(s) to create a shape" for 1 / 2 vertices, the two closing messages for at least three vertices, with and without hover |
| `Editor.InsideCount` | script.js:221-236 | the number of data points drawn as inside is at most the number of data points |
| `Editor.NoneInside` | script.js:225 | the inside count is zero iff no data point is inside a closed shape |
| `Editor.AllInside` | script.js:225 | the inside count equals the number of data points iff every point is inside the polygon and (when there is a point) the shape is closed |
| `Editor.OpenShapeHasNothingInside` | script.js:225 | while the shape is open, or has fewer than three vertices, no data point is inside |
| `Editor.ShapeEditor.constructor` | script.js:8-22 | start-up state: 600 × 400 canvas, 50-pixel cells, no vertex, no data, open, no hover, no pointer, hint hidden |
| `Editor.ShapeEditor.UpdateHint` | script.js:291-312 | sets the shown hint to the hint of the current state |
| `Editor.ShapeEditor.MouseMove` | script.js:318-346 | stores the pointer position; hover becomes open ∧ at least three vertices ∧ near the first vertex; the hint is recomputed exactly when hover changed and the invariant still holds; the shape, data and dimensions are unchanged |
| `Editor.ShapeEditor.MouseLeave` | script.js:350-358 | clears the pointer position and the hover flag, refreshes the hint, changes nothing else |
| `Editor.ShapeEditor.IsClosingClick` | script.js:370 | a closing click requires an open shape with at least three vertices, and lies within 10 pixels of the first vertex on each axis |
| `Editor.ShapeEditor.Click` | script.js:362-386 | on a closed shape nothing changes. A closing click (open, at least three vertices, near the first vertex) closes the shape, clears hover and keeps the vertices. Any other click appends exactly the click's grid position, whose canvas position is the click. The invariant "closed ⇒ at least three vertices" is kept |
| `Editor.ShapeEditor.ApplyDimensions` | script.js:390-411 | takes the new width, height and cell size (cell size positive), empties vertices and data, reopens the shape, and clears hover, pointer and hint |
| `Editor.ShapeEditor.Clear` | script.js:415-428 | the same reset as ApplyDimensions, keeping the dimensions |
| `Editor.ShapeEditor.MaxX` | script.js:436 | the grid's width in cells: times the cell size it gives the canvas width, and it is non-negative for a non-negative width |
| `Editor.ShapeEditor.MaxY` | script.js:437 | the grid's height in cells: times the cell size it gives the canvas height, and it is non-negative for a non-negative height |
| `Editor.ShapeEditor.GenerateTestData` | script.js:433-445 | replaces the data with 50 points; point k is random pair k in [0,1)² scaled by width/cellSize and height/cellSize; with a positive canvas size, every point lies in [0, width/cellSize) × [0, height/cellSize) |
| `Editor.ShapeEditor.ProcessDataPoints` | script.js:451-454 | replaces the data points by the given ones, changing nothing else |
| `Editor.ShapeEditor.CountDataPoints` | script.js:220-243 | the counting loop returns InsideCount (closed ∧ inside the polygon) as the inside count; inside + outside is the number of data points; inside is 0 while the shape is open |

## Left out

- Drawing: `initCanvas`, `drawGrid`, `render`, `drawFilledShape`, `drawLines`, `drawPreviewLine`, `drawPoints` and the drawing calls inside `drawDataPoints`. They only draw state; they never change it.
- Page access: element lookups, text and CSS-class updates, the axis labels of `updateAxisLabels`, the "Mouse Position" text with two decimals, and the display of the point counts. `CountDataPoints` returns the two counts instead of writing them into the page.
- The conversion from mouse-event coordinates to canvas coordinates (`getBoundingClientRect`). The handlers take canvas coordinates as parameters.
- Registering the event listeners, and exporting `processDataPoints` on `window`. This is wiring only.
- `Math.random`: `GenerateTestData` takes its 50 pairs of samples in [0, 1) as a parameter.
- `ApplyDimensions`: takes already parsed integers and requires a positive cell size. The source does not check the fields. With a cell size of 0 or less, the source hangs whenever the width or the height is non-negative: the grid-drawing loops of `drawGrid` (script.js:40 and 47) never end. With both negative it keeps running with a non-positive cell size, and later clicks store infinite, NaN or mirrored grid coordinates (script.js:83-84); the model does not represent that state. An empty or non-numeric field makes `parseInt` return NaN; the model has no NaN.
- IEEE-754 doubles, with their rounding, NaN and infinities, and `Math.sqrt`. The model uses exact reals and compares squared distances. Because of rounding, the round trips are exact only in the model.
- `RectangleInterior`: proves "strictly inside means inside" only for axis-aligned rectangles, not for every convex polygon. The general statement needs half-plane and orientation lemmas (each edge seen from an interior point turns the same way); the parity specification does not provide them. What is proved about general polygons is the converse direction beyond the extent (`OutsideBeyondExtent`).
- `ProcessDataPoints`: the source keeps a reference to the caller's array (script.js:452), so a later change by the caller shows up at the next redraw. The model stores a copy (a `seq`), so this aliasing is not captured.
- `DistanceSquared`: states that equal points are at distance zero but not the converse (zero distance only for equal points). The solver does not close that nonlinear step over reals; the closing test only relies on the forward direction and the bounds of `NearFirstPointBounds`.
