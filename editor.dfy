/** The polygon editor: the vertices placed so far, whether the shape has been
    closed, the hover state of the closing gesture, the last pointer position,
    the data points to classify, the grid dimensions and the hint shown to the
    user. Pointer handlers take canvas pixel positions; vertices and data
    points are kept in grid units. */
module Editor {
  import opened Geometry
  import opened RayCast

  datatype Option<T> = None | Some(value: T)

  /** Radius, in canvas pixels, around the first vertex within which a click
      closes the shape. */
  const FIRST_POINT_CLICK_RADIUS: real := 10.0

  /** Number of points the test-data generator produces. */
  const TEST_DATA_COUNT: nat := 50

  // ----- Closing gesture -----

  /** Whether a canvas position lies within the click radius of the first
      vertex's canvas position; false while there is no vertex. Squared
      distances are compared, which decides the same as comparing distances. */
  function IsNearFirstPoint(points: seq<Point>, gridSize: real, canvasHeight: real, canvasPos: Point): (near: bool)
    ensures near ==> |points| > 0
    ensures |points| > 0 && canvasPos == GridToCanvas(gridSize, canvasHeight, points[0]) ==> near
  {
    |points| > 0 &&
    DistanceSquared(canvasPos, GridToCanvas(gridSize, canvasHeight, points[0]))
      <= FIRST_POINT_CLICK_RADIUS * FIRST_POINT_CLICK_RADIUS
  }

  /** What "near" means along each axis: being near forces both offsets from
      the first vertex into [-10, 10], and offsets both within [-7, 7] are
      always near (7 * 7 + 7 * 7 <= 10 * 10). */
  lemma NearFirstPointBounds(points: seq<Point>, gridSize: real, canvasHeight: real, canvasPos: Point)
    ensures |points| == 0 ==> !IsNearFirstPoint(points, gridSize, canvasHeight, canvasPos)
    ensures IsNearFirstPoint(points, gridSize, canvasHeight, canvasPos) ==>
      var first := GridToCanvas(gridSize, canvasHeight, points[0]);
      -10.0 <= canvasPos.x - first.x <= 10.0 && -10.0 <= canvasPos.y - first.y <= 10.0
    ensures |points| > 0 ==>
      var first := GridToCanvas(gridSize, canvasHeight, points[0]);
      -7.0 <= canvasPos.x - first.x <= 7.0 && -7.0 <= canvasPos.y - first.y <= 7.0 ==>
      IsNearFirstPoint(points, gridSize, canvasHeight, canvasPos)
  {
    if |points| > 0 {
      var first := GridToCanvas(gridSize, canvasHeight, points[0]);
      var dx, dy := first.x - canvasPos.x, first.y - canvasPos.y;
      SquareFacts(dx);
      SquareFacts(dy);
      if IsNearFirstPoint(points, gridSize, canvasHeight, canvasPos) {
        assert DistanceSquared(canvasPos, first) == dx * dx + dy * dy;
        assert dx * dx <= 10.0 * 10.0 && dy * dy <= 10.0 * 10.0;
        SquareBoundsRoot(dx, 10.0);
        SquareBoundsRoot(dy, 10.0);
      }
      if -7.0 <= dx <= 7.0 && -7.0 <= dy <= 7.0 {
        RootBoundsSquare(dx, 7.0);
        RootBoundsSquare(dy, 7.0);
      }
    }
  }

  lemma SquareBoundsRoot(r: real, b: real)
    requires b > 0.0 && r * r <= b * b
    ensures -b <= r <= b
  {
    if r > b {
      ProductOfPositives(r - b, r + b);
    } else if r < -b {
      ProductOfPositives(-r - b, -r + b);
    }
  }

  lemma RootBoundsSquare(r: real, b: real)
    requires -b <= r <= b
    ensures r * r <= b * b
  {
    ProductOfNonNegatives(b - r, b + r);
    assert b * b - r * r == (b - r) * (b + r);
  }

  lemma ProductOfPositives(a: real, b: real)
    requires a > 0.0 && b > 0.0
    ensures a * b > 0.0
  {
  }

  lemma ProductOfNonNegatives(a: real, b: real)
    requires a >= 0.0 && b >= 0.0
    ensures a * b >= 0.0
  {
  }

  /** A click exactly where the first vertex was placed is near it. */
  lemma ClickOnFirstVertexIsNear(points: seq<Point>, gridSize: real, canvasHeight: real, canvasPos: Point)
    requires gridSize != 0.0
    requires |points| > 0 && points[0] == CanvasToGrid(gridSize, canvasHeight, canvasPos)
    ensures IsNearFirstPoint(points, gridSize, canvasHeight, canvasPos)
  {
  }

  // ----- Hint -----

  /** Which hint the editor shows. */
  datatype Hint =
    | Hidden
    | PlaceMore(remaining: nat)  // fewer than three vertices placed
    | ClickRedPoint              // the pointer hovers over the first vertex
    | ClickFirstPoint            // enough vertices, pointer elsewhere

  /** The hint for a state of the editor. */
  function HintFor(isShapeClosed: bool, count: nat, isHoveringFirstPoint: bool): (h: Hint)
    ensures h.Hidden? <==> isShapeClosed || count == 0
    ensures h.PlaceMore? <==> !isShapeClosed && 0 < count < 3
    ensures h.PlaceMore? ==> h.remaining + count == 3
    ensures h.ClickRedPoint? <==> !isShapeClosed && count >= 3 && isHoveringFirstPoint
  {
    if isShapeClosed then Hidden
    else if count == 0 then Hidden
    else if count < 3 then PlaceMore(3 - count)
    else if isHoveringFirstPoint then ClickRedPoint
    else ClickFirstPoint
  }

  /** Decimal notation of a natural number; reading the digits back gives the
      number. */
  function NatToString(n: nat): (s: string)
    ensures |s| >= 1
    ensures IsDigits(s)
    ensures DigitsValue(s) == n
  {
    if n < 10 then ["0123456789"[n]]
    else NatToString(n / 10) + ["0123456789"[n % 10]]
  }

  /** The characters '0' .. '9'. */
  predicate IsDigits(s: string)
  {
    forall k :: 0 <= k < |s| ==> '0' <= s[k] <= '9'
  }

  /** The number a string of decimal digits denotes. */
  function DigitsValue(s: string): nat
    requires IsDigits(s)
  {
    if s == [] then 0
    else DigitsValue(s[..|s| - 1]) * 10 + (s[|s| - 1] as int - '0' as int)
  }

  /** The text of a hint; None while the hint is hidden. */
  function HintText(h: Hint): (text: Option<string>)
    ensures text.None? <==> h.Hidden?
  {
    match h
    case Hidden => None
    case PlaceMore(remaining) =>
      Some("Place at least " + NatToString(remaining) + " more point(s) to create a shape")
    case ClickRedPoint => Some("Click the red point to close the shape!")
    case ClickFirstPoint => Some("Click on the red (first) point to close the shape")
  }

  /** The text shown in each state, with the strings written out. */
  lemma HintTable(count: nat, hovering: bool)
    ensures HintText(HintFor(true, count, hovering)) == None
    ensures HintText(HintFor(false, 0, hovering)) == None
    ensures HintText(HintFor(false, 1, hovering)) == Some("Place at least " + "2" + " more point(s) to create a shape")
    ensures HintText(HintFor(false, 2, hovering)) == Some("Place at least " + "1" + " more point(s) to create a shape")
    ensures count >= 3 ==> HintText(HintFor(false, count, true)) == Some("Click the red point to close the shape!")
    ensures count >= 3 ==>
      HintText(HintFor(false, count, false)) == Some("Click on the red (first) point to close the shape")
  {
    assert NatToString(2) == "2";
    assert NatToString(1) == "1";
  }

  // ----- Classification of the data points -----

  /** The number of data points drawn as inside: a point counts only when the
      shape is closed and the point is inside the polygon. */
  ghost function InsideCount(dataPoints: seq<Point>, polygon: seq<Point>, isShapeClosed: bool): (n: nat)
    ensures n <= |dataPoints|
  {
    if dataPoints == [] then 0
    else
      var last := dataPoints[|dataPoints| - 1];
      InsideCount(dataPoints[..|dataPoints| - 1], polygon, isShapeClosed) +
        (if isShapeClosed && Inside(polygon, last) then 1 else 0)
  }

  /** No point counts as inside exactly when no point is inside a closed shape. */
  lemma {:induction false} NoneInside(dataPoints: seq<Point>, polygon: seq<Point>, isShapeClosed: bool)
    ensures InsideCount(dataPoints, polygon, isShapeClosed) == 0 <==>
      forall k :: 0 <= k < |dataPoints| ==> !(isShapeClosed && Inside(polygon, dataPoints[k]))
  {
    if dataPoints != [] {
      var init := dataPoints[..|dataPoints| - 1];
      NoneInside(init, polygon, isShapeClosed);
      assert forall k :: 0 <= k < |init| ==> init[k] == dataPoints[k];
    }
  }

  /** Every point counts as inside exactly when every point is inside the
      polygon and, if there is any point, the shape is closed. */
  lemma {:induction false} AllInside(dataPoints: seq<Point>, polygon: seq<Point>, isShapeClosed: bool)
    ensures InsideCount(dataPoints, polygon, isShapeClosed) == |dataPoints| <==>
      (dataPoints == [] || isShapeClosed) && forall k :: 0 <= k < |dataPoints| ==> Inside(polygon, dataPoints[k])
  {
    if dataPoints != [] {
      var init := dataPoints[..|dataPoints| - 1];
      AllInside(init, polygon, isShapeClosed);
      assert forall k :: 0 <= k < |init| ==> init[k] == dataPoints[k];
    }
  }

  /** While the shape is open, or has fewer than three vertices, nothing is inside. */
  lemma OpenShapeHasNothingInside(dataPoints: seq<Point>, polygon: seq<Point>, isShapeClosed: bool)
    requires !isShapeClosed || |polygon| < 3
    ensures InsideCount(dataPoints, polygon, isShapeClosed) == 0
  {
    NoneInside(dataPoints, polygon, isShapeClosed);
  }

  /** A sample in [0, 1) scaled by a positive extent lies in [0, extent). */
  lemma ScaledSampleInRange(u: real, extent: real)
    requires 0.0 <= u < 1.0 && extent > 0.0
    ensures 0.0 <= u * extent < extent
  {
    assert extent - u * extent == (1.0 - u) * extent;
    assert (1.0 - u) * extent > 0.0;
  }

  /** Points scaled from samples in [0, 1) by positive extents lie in the
      rectangle the extents span. */
  lemma ScaledSamplesInRange(random: seq<(real, real)>, maxX: real, maxY: real, scaled: seq<Point>)
    requires maxX > 0.0 && maxY > 0.0 && |scaled| <= |random|
    requires forall k :: 0 <= k < |random| ==> 0.0 <= random[k].0 < 1.0 && 0.0 <= random[k].1 < 1.0
    requires forall k :: 0 <= k < |scaled| ==> scaled[k] == Point(random[k].0 * maxX, random[k].1 * maxY)
    ensures forall k :: 0 <= k < |scaled| ==> 0.0 <= scaled[k].x < maxX && 0.0 <= scaled[k].y < maxY
  {
    forall k | 0 <= k < |scaled|
      ensures 0.0 <= scaled[k].x < maxX && 0.0 <= scaled[k].y < maxY
    {
      ScaledSampleInRange(random[k].0, maxX);
      ScaledSampleInRange(random[k].1, maxY);
    }
  }

  // ----- The editor -----

  class ShapeEditor {
    /** Vertices in placement order, in grid units. */
    var points: seq<Point>
    /** Last pointer position in canvas pixels; None once the pointer has left. */
    var currentMousePos: Option<Point>
    var isShapeClosed: bool
    /** Points to classify, in grid units. */
    var dataPoints: seq<Point>
    var isHoveringFirstPoint: bool
    /** Pixels per grid cell. */
    var gridSize: int
    var canvasWidth: int
    var canvasHeight: int
    /** The hint last shown. */
    var hint: Hint

    /** The editor's invariant: a closed shape has at least three vertices, the
        hover flag is only raised on an open shape that can be closed, and the
        hint shown is the one for the current state. */
    ghost predicate Valid()
      reads this
    {
      gridSize > 0 &&
      (isShapeClosed ==> |points| >= 3) &&
      (isHoveringFirstPoint ==> !isShapeClosed && |points| >= 3) &&
      hint == HintFor(isShapeClosed, |points|, isHoveringFirstPoint)
    }

    /** The grid position of a canvas position under the current dimensions. */
    function ToGrid(canvasPos: Point): Point
      reads this
      requires gridSize > 0
    {
      CanvasToGrid(gridSize as real, canvasHeight as real, canvasPos)
    }

    /** The canvas position of a grid position under the current dimensions. */
    function ToCanvas(gridPos: Point): Point
      reads this
    {
      GridToCanvas(gridSize as real, canvasHeight as real, gridPos)
    }

    /** Whether a click at this canvas position closes the shape. */
    predicate IsClosingClick(canvasPos: Point): (closing: bool)
      reads this
      ensures closing ==> !isShapeClosed && |points| >= 3
      ensures closing ==>
        var first := ToCanvas(points[0]);
        -10.0 <= canvasPos.x - first.x <= 10.0 && -10.0 <= canvasPos.y - first.y <= 10.0
    {
      NearFirstPointBounds(points, gridSize as real, canvasHeight as real, canvasPos);
      !isShapeClosed && |points| >= 3 &&
      IsNearFirstPoint(points, gridSize as real, canvasHeight as real, canvasPos)
    }

    /** Extent of the grid, in grid units. */
    function MaxX(): (m: real)
      reads this
      requires gridSize > 0
      ensures m * gridSize as real == canvasWidth as real
      ensures canvasWidth >= 0 ==> m >= 0.0
    {
      canvasWidth as real / gridSize as real
    }

    function MaxY(): (m: real)
      reads this
      requires gridSize > 0
      ensures m * gridSize as real == canvasHeight as real
      ensures canvasHeight >= 0 ==> m >= 0.0
    {
      canvasHeight as real / gridSize as real
    }

    /** The start-up state: a 600 x 400 canvas with 50-pixel cells, nothing
        placed, and the hint hidden. */
    constructor ()
      ensures Valid()
      ensures points == [] && dataPoints == [] && !isShapeClosed
      ensures !isHoveringFirstPoint && currentMousePos == None
      ensures gridSize == 50 && canvasWidth == 600 && canvasHeight == 400
      ensures hint == Hidden
    {
      points := [];
      currentMousePos := None;
      isShapeClosed := false;
      dataPoints := [];
      isHoveringFirstPoint := false;
      gridSize := 50;
      canvasWidth := 600;
      canvasHeight := 400;
      hint := Hidden;
    }

    /** Recomputes the hint from the current state. */
    method UpdateHint()
      modifies this`hint
      ensures hint == HintFor(isShapeClosed, |points|, isHoveringFirstPoint)
    {
      hint := HintFor(isShapeClosed, |points|, isHoveringFirstPoint);
    }

    /** Pointer moved to a canvas position: remember it and recompute the hover
        flag; the hint is recomputed only when the flag changes, and stays
        correct because nothing else it depends on changes here. */
    method MouseMove(canvasX: real, canvasY: real) returns (hintUpdated: bool)
      requires Valid()
      modifies this
      ensures Valid()
      ensures currentMousePos == Some(Point(canvasX, canvasY))
      ensures isHoveringFirstPoint == (!isShapeClosed && |points| >= 3 &&
        IsNearFirstPoint(points, gridSize as real, canvasHeight as real, Point(canvasX, canvasY)))
      ensures hintUpdated == (isHoveringFirstPoint != old(isHoveringFirstPoint))
      ensures !hintUpdated ==> hint == old(hint)
      ensures points == old(points) && isShapeClosed == old(isShapeClosed) && dataPoints == old(dataPoints)
      ensures gridSize == old(gridSize) && canvasWidth == old(canvasWidth) && canvasHeight == old(canvasHeight)
    {
      currentMousePos := Some(Point(canvasX, canvasY));
      var wasHovering := isHoveringFirstPoint;
      isHoveringFirstPoint := !isShapeClosed && |points| >= 3 &&
        IsNearFirstPoint(points, gridSize as real, canvasHeight as real, Point(canvasX, canvasY));
      hintUpdated := wasHovering != isHoveringFirstPoint;
      if hintUpdated {
        UpdateHint();
      }
    }

    /** Pointer left the canvas: forget its position and drop the hover flag. */
    method MouseLeave()
      requires Valid()
      modifies this
      ensures Valid()
      ensures currentMousePos == None && !isHoveringFirstPoint
      ensures points == old(points) && isShapeClosed == old(isShapeClosed) && dataPoints == old(dataPoints)
      ensures gridSize == old(gridSize) && canvasWidth == old(canvasWidth) && canvasHeight == old(canvasHeight)
    {
      currentMousePos := None;
      isHoveringFirstPoint := false;
      UpdateHint();
    }

    /** Click at a canvas position. On a closed shape nothing changes. On an
        open shape of at least three vertices, a click near the first vertex
        closes the shape (and places no vertex); any other click appends the
        click's grid position as the new last vertex. */
    method Click(canvasX: real, canvasY: real)
      requires Valid()
      modifies this
      ensures Valid()
      ensures old(isShapeClosed) ==> unchanged(this)
      ensures old(IsClosingClick(Point(canvasX, canvasY))) ==>
        isShapeClosed && !isHoveringFirstPoint && points == old(points)
      ensures !old(isShapeClosed) && !old(IsClosingClick(Point(canvasX, canvasY))) ==>
        !isShapeClosed && isHoveringFirstPoint == old(isHoveringFirstPoint) &&
        points == old(points) + [old(ToGrid(Point(canvasX, canvasY)))] &&
        ToCanvas(points[|points| - 1]) == Point(canvasX, canvasY)
      ensures currentMousePos == old(currentMousePos) && dataPoints == old(dataPoints)
      ensures gridSize == old(gridSize) && canvasWidth == old(canvasWidth) && canvasHeight == old(canvasHeight)
    {
      if isShapeClosed {
        return;
      }
      var clickPos := Point(canvasX, canvasY);
      if |points| >= 3 && IsNearFirstPoint(points, gridSize as real, canvasHeight as real, clickPos) {
        isShapeClosed := true;
        isHoveringFirstPoint := false;
        UpdateHint();
        return;
      }
      var gridPos := CanvasToGrid(gridSize as real, canvasHeight as real, clickPos);
      points := points + [gridPos];
      UpdateHint();
    }

    /** The "Apply Dimensions" button: take the new (already parsed) canvas and
        cell sizes and reset the shape, the data points and the pointer state. */
    method ApplyDimensions(width: int, height: int, size: int)
      requires Valid()
      requires size > 0
      modifies this
      ensures Valid()
      ensures canvasWidth == width && canvasHeight == height && gridSize == size
      ensures points == [] && dataPoints == [] && !isShapeClosed
      ensures !isHoveringFirstPoint && currentMousePos == None && hint == Hidden
    {
      canvasWidth := width;
      canvasHeight := height;
      gridSize := size;
      points := [];
      dataPoints := [];
      isShapeClosed := false;
      isHoveringFirstPoint := false;
      currentMousePos := None;
      UpdateHint();
    }

    /** The "Clear Shape" button: reset the shape, the data points and the
        pointer state, keeping the dimensions. */
    method Clear()
      requires Valid()
      modifies this
      ensures Valid()
      ensures points == [] && dataPoints == [] && !isShapeClosed
      ensures !isHoveringFirstPoint && currentMousePos == None && hint == Hidden
      ensures gridSize == old(gridSize) && canvasWidth == old(canvasWidth) && canvasHeight == old(canvasHeight)
    {
      points := [];
      dataPoints := [];
      isShapeClosed := false;
      isHoveringFirstPoint := false;
      currentMousePos := None;
      UpdateHint();
    }

    /** The "Generate Test Data" button: replace the data points by
        TEST_DATA_COUNT points, the k-th scaling the k-th pair of random samples
        in [0, 1) by the grid's extent; with a positive canvas size every point
        lies inside the grid. */
    method GenerateTestData(random: seq<(real, real)>)
      requires Valid()
      requires |random| == TEST_DATA_COUNT
      requires forall k :: 0 <= k < |random| ==> 0.0 <= random[k].0 < 1.0 && 0.0 <= random[k].1 < 1.0
      modifies this
      ensures Valid()
      ensures |dataPoints| == TEST_DATA_COUNT
      ensures forall k :: 0 <= k < |dataPoints| ==>
        dataPoints[k] == Point(random[k].0 * MaxX(), random[k].1 * MaxY())
      ensures canvasWidth > 0 && canvasHeight > 0 ==> forall k :: 0 <= k < |dataPoints| ==>
        0.0 <= dataPoints[k].x < MaxX() && 0.0 <= dataPoints[k].y < MaxY()
      ensures points == old(points) && isShapeClosed == old(isShapeClosed)
      ensures isHoveringFirstPoint == old(isHoveringFirstPoint) && currentMousePos == old(currentMousePos)
      ensures gridSize == old(gridSize) && canvasWidth == old(canvasWidth) && canvasHeight == old(canvasHeight)
    {
      dataPoints := [];
      var maxX := canvasWidth as real / gridSize as real;
      var maxY := canvasHeight as real / gridSize as real;
      var i := 0;
      while i < TEST_DATA_COUNT
        modifies this`dataPoints
        invariant 0 <= i <= TEST_DATA_COUNT
        invariant |dataPoints| == i
        invariant forall k :: 0 <= k < i ==> dataPoints[k] == Point(random[k].0 * maxX, random[k].1 * maxY)
      {
        dataPoints := dataPoints + [Point(random[i].0 * maxX, random[i].1 * maxY)];
        i := i + 1;
      }
      if canvasWidth > 0 && canvasHeight > 0 {
        ScaledSamplesInRange(random, maxX, maxY, dataPoints);
      }
    }

    /** The programmatic entry point: classify the given points. */
    method ProcessDataPoints(data: seq<Point>)
      requires Valid()
      modifies this
      ensures Valid()
      ensures dataPoints == data
      ensures points == old(points) && isShapeClosed == old(isShapeClosed)
      ensures isHoveringFirstPoint == old(isHoveringFirstPoint) && currentMousePos == old(currentMousePos)
      ensures gridSize == old(gridSize) && canvasWidth == old(canvasWidth) && canvasHeight == old(canvasHeight)
    {
      dataPoints := data;
    }

    /** The counts shown beside the canvas: how many data points are drawn as
        inside and how many as outside. Every point is one or the other, and
        while the shape is open none is inside. */
    method CountDataPoints() returns (insideCount: nat, outsideCount: nat)
      ensures insideCount == InsideCount(dataPoints, points, isShapeClosed)
      ensures insideCount + outsideCount == |dataPoints|
      ensures !isShapeClosed ==> insideCount == 0
    {
      insideCount, outsideCount := 0, 0;
      var k := 0;
      while k < |dataPoints|
        invariant 0 <= k <= |dataPoints|
        invariant insideCount == InsideCount(dataPoints[..k], points, isShapeClosed)
        invariant insideCount + outsideCount == k
      {
        var isInside := false;
        if isShapeClosed {
          isInside := IsPointInPolygon(dataPoints[k], points);
        }
        assert dataPoints[..k + 1][..k] == dataPoints[..k];
        if isInside {
          insideCount := insideCount + 1;
        } else {
          outsideCount := outsideCount + 1;
        }
        k := k + 1;
      }
      assert dataPoints[..k] == dataPoints;
      if !isShapeClosed {
        OpenShapeHasNothingInside(dataPoints, points, isShapeClosed);
      }
    }
  }

  // ----- Scenarios, from the editor's contracts alone -----

  /** Three clicks place a triangle; a data point injected while the shape is
      open is drawn outside; a click 5 and 3 pixels from the first vertex
      closes the shape; a later click changes nothing. */
  method CloseTriangleScenario()
  {
    var e := new ShapeEditor();
    e.Click(100.0, 100.0);
    e.Click(300.0, 100.0);
    e.Click(200.0, 300.0);
    assert e.points == [Point(2.0, 6.0), Point(6.0, 6.0), Point(4.0, 2.0)] && !e.isShapeClosed;
    e.ProcessDataPoints([Point(1.0, 1.0)]);
    var inside, outside := e.CountDataPoints();
    assert inside == 0 && outside == 1;
    e.Click(105.0, 103.0);
    assert e.isShapeClosed && |e.points| == 3;
    var closed := e.points;
    e.Click(400.0, 50.0);
    assert e.isShapeClosed && e.points == closed;
  }

  /** With only two vertices, both at the same place, a click on them places a
      third vertex instead of closing the shape. */
  method TwoVerticesCannotCloseScenario()
  {
    var e := new ShapeEditor();
    e.Click(0.0, 400.0);
    e.Click(0.0, 400.0);
    e.Click(0.0, 400.0);
    assert !e.isShapeClosed && e.points == [Point(0.0, 0.0), Point(0.0, 0.0), Point(0.0, 0.0)];
  }
}
