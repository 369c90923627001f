/** The even-odd (ray-casting) point-in-polygon test. A horizontal ray runs
    from the query point toward +x; every polygon edge it crosses toggles the
    answer. The polygon is always treated as closed: the edge ending at vertex
    i starts at vertex i - 1, and the edge ending at vertex 0 starts at the
    last vertex. */
module RayCast {
  import opened Geometry

  /** Index of the vertex before vertex i, wrapping around. */
  function Prev(i: nat, n: nat): (j: nat)
    requires i < n
    ensures j < n
  {
    if i == 0 then n - 1 else i - 1
  }

  /** Whether the ray from p crosses the edge from b to a. Exactly one endpoint
      must lie strictly above p (this strict comparison on one side only is the
      tie-break that keeps a vertex shared by two edges from being counted
      twice), and p must lie strictly left of where the edge meets the ray's
      height. The division happens only once the first conjunct has shown that
      a.y and b.y differ. */
  predicate Crosses(p: Point, a: Point, b: Point)
  {
    (a.y > p.y) != (b.y > p.y) && p.x < (b.x - a.x) * (p.y - a.y) / (b.y - a.y) + a.x
  }

  /** A crossed edge straddles the ray's height and has an endpoint strictly
      right of p. */
  lemma CrossingRightOfAnEndpoint(p: Point, a: Point, b: Point)
    requires Crosses(p, a, b)
    ensures (a.y > p.y) != (b.y > p.y)
    ensures p.x < a.x || p.x < b.x
  {
    IntersectionBetweenEndpoints(p, a, b);
    var ix := (b.x - a.x) * (p.y - a.y) / (b.y - a.y) + a.x;
    assert p.x < ix;
  }

  /** The test does not depend on the direction in which the edge is walked. */
  lemma CrossesSymmetric(p: Point, a: Point, b: Point)
    ensures Crosses(p, a, b) == Crosses(p, b, a)
  {
    if (a.y > p.y) != (b.y > p.y) {
      var d := b.y - a.y;
      var u := (b.x - a.x) * (p.y - a.y) / d;
      var v := (a.x - b.x) * (p.y - b.y) / (-d);
      assert u * d == (b.x - a.x) * (p.y - a.y);
      assert v * d == (b.x - a.x) * (p.y - b.y);
      assert (u - v) * d == (b.x - a.x) * d;
      assert u - v == b.x - a.x;
    }
  }

  /** Whether the ray from p crosses the edge ending at vertex i. */
  predicate EdgeCrosses(polygon: seq<Point>, p: Point, i: nat)
    requires i < |polygon|
  {
    Crosses(p, polygon[i], polygon[Prev(i, |polygon|)])
  }

  /** The number of crossed edges among those ending at vertices 0 .. k - 1. */
  function CrossingCount(polygon: seq<Point>, p: Point, k: nat): (c: nat)
    requires k <= |polygon|
    ensures c <= k
  {
    if k == 0 then 0
    else CrossingCount(polygon, p, k - 1) + (if EdgeCrosses(polygon, p, k - 1) then 1 else 0)
  }

  /** The set of (indices of end vertices of) crossed edges among the first k. */
  ghost function CrossedEdgesBelow(polygon: seq<Point>, p: Point, k: nat): set<nat>
    requires k <= |polygon|
  {
    set i: nat | i < k && EdgeCrosses(polygon, p, i)
  }

  /** All crossed edges of the polygon. */
  ghost function CrossedEdges(polygon: seq<Point>, p: Point): set<nat>
  {
    CrossedEdgesBelow(polygon, p, |polygon|)
  }

  /** The specification of the test: a polygon of fewer than three vertices
      contains nothing; otherwise p is inside iff the ray crosses an odd number
      of edges. */
  ghost predicate Inside(polygon: seq<Point>, p: Point)
  {
    |polygon| >= 3 && |CrossedEdges(polygon, p)| % 2 == 1
  }

  /** The recursive count is the size of the set of crossed edges. */
  lemma {:induction false} CrossingCountIsCardinality(polygon: seq<Point>, p: Point, k: nat)
    requires k <= |polygon|
    ensures |CrossedEdgesBelow(polygon, p, k)| == CrossingCount(polygon, p, k)
  {
    if k == 0 {
      assert CrossedEdgesBelow(polygon, p, 0) == {};
    } else {
      CrossingCountIsCardinality(polygon, p, k - 1);
      var below := CrossedEdgesBelow(polygon, p, k - 1);
      var last: set<nat> := if EdgeCrosses(polygon, p, k - 1) then {k - 1} else {};
      assert CrossedEdgesBelow(polygon, p, k) == below + last;
      assert below !! last;
    }
  }

  /** Inside, stated with the recursive count. */
  lemma InsideByCount(polygon: seq<Point>, p: Point)
    ensures Inside(polygon, p) <==> |polygon| >= 3 && CrossingCount(polygon, p, |polygon|) % 2 == 1
  {
    CrossingCountIsCardinality(polygon, p, |polygon|);
  }

  /** The ray-casting loop: edge (j, i) with j starting at the last vertex and
      then trailing i by one; each crossing flips the answer. */
  method IsPointInPolygon(point: Point, polygon: seq<Point>) returns (inside: bool)
    ensures inside == Inside(polygon, point)
    ensures |polygon| < 3 ==> !inside
  {
    if |polygon| < 3 {
      return false;
    }
    inside := false;
    var x, y := point.x, point.y;
    var i, j := 0, |polygon| - 1;
    while i < |polygon|
      invariant 0 <= i <= |polygon|
      invariant j == if i == 0 then |polygon| - 1 else i - 1
      invariant inside == (CrossingCount(polygon, point, i) % 2 == 1)
    {
      var xi, yi := polygon[i].x, polygon[i].y;
      var xj, yj := polygon[j].x, polygon[j].y;
      var intersect := (yi > y) != (yj > y) && x < (xj - xi) * (y - yi) / (yj - yi) + xi;
      EdgeTestMatches(polygon, point, i, j, x, y, xi, yi, xj, yj);
      ParityStep(polygon, point, i, inside, intersect);
      if intersect {
        inside := !inside;
      }
      j, i := i, i + 1;
    }
    InsideByCount(polygon, point);
  }

  /** Taking edge i into account flips the parity exactly when it is crossed. */
  lemma ParityStep(polygon: seq<Point>, p: Point, i: nat, before: bool, crossed: bool)
    requires i < |polygon|
    requires before == (CrossingCount(polygon, p, i) % 2 == 1)
    requires crossed == EdgeCrosses(polygon, p, i)
    ensures (before != crossed) == (CrossingCount(polygon, p, i + 1) % 2 == 1)
  {
  }

  /** The loop's test on edge (j, i), written over the extracted
      coordinates, is the crossing predicate of the specification. */
  lemma EdgeTestMatches(polygon: seq<Point>, point: Point, i: nat, j: nat,
                        x: real, y: real, xi: real, yi: real, xj: real, yj: real)
    requires i < |polygon| && j == Prev(i, |polygon|)
    requires x == point.x && y == point.y
    requires xi == polygon[i].x && yi == polygon[i].y && xj == polygon[j].x && yj == polygon[j].y
    ensures ((yi > y) != (yj > y) && x < (xj - xi) * (y - yi) / (yj - yi) + xi) == EdgeCrosses(polygon, point, i)
  {
  }

  // ----- Where an edge meets the ray's height -----

  /** The ray's height strictly separates the edge's end heights in the sense
      of the tie-break: one end above, the other at or below. */
  predicate Straddles(polygon: seq<Point>, p: Point, i: nat)
    requires i < |polygon|
  {
    (polygon[i].y > p.y) != (polygon[Prev(i, |polygon|)].y > p.y)
  }

  /** The fraction along an edge at which it meets the ray's height lies in
      [0, 1], whether the edge runs upward or downward. */
  lemma FractionInUnitInterval(num: real, den: real)
    requires (0.0 <= num < den) || (den <= num < 0.0)
    ensures 0.0 <= num / den <= 1.0
  {
    if den > 0.0 {
      PositiveFraction(num, den);
    } else {
      assert num / den == (-num) / (-den);
      PositiveFraction(-num, -den);
    }
  }

  lemma PositiveFraction(num: real, den: real)
    requires 0.0 <= num <= den && den > 0.0
    ensures 0.0 <= num / den <= 1.0
  {
    assert num / den * den == num;
  }

  /** Scaling by a fraction in [0, 1] stays between 0 and the scaled value. */
  lemma ScaleBetween(d: real, t: real)
    requires 0.0 <= t <= 1.0
    ensures (0.0 <= d * t <= d) || (d <= d * t <= 0.0)
  {
    if d >= 0.0 {
      assert d * t >= 0.0;
      assert d * (1.0 - t) >= 0.0;
    } else {
      assert (-d) * t >= 0.0;
      assert (-d) * (1.0 - t) >= 0.0;
    }
  }

  /** A straddling edge meets the ray's height at an x between its endpoints. */
  lemma IntersectionBetweenEndpoints(p: Point, a: Point, b: Point)
    requires (a.y > p.y) != (b.y > p.y)
    ensures var ix := (b.x - a.x) * (p.y - a.y) / (b.y - a.y) + a.x;
      (a.x <= ix <= b.x) || (b.x <= ix <= a.x)
  {
    var t := (p.y - a.y) / (b.y - a.y);
    FractionInUnitInterval(p.y - a.y, b.y - a.y);
    assert (b.x - a.x) * (p.y - a.y) / (b.y - a.y) == (b.x - a.x) * t;
    ScaleBetween(b.x - a.x, t);
  }

  // ----- Points beyond the polygon's extent -----

  /** Every vertex lies strictly right of p. */
  ghost predicate AllRightOf(polygon: seq<Point>, p: Point)
  {
    forall k :: 0 <= k < |polygon| ==> polygon[k].x > p.x
  }

  /** Every vertex lies at or left of p. */
  ghost predicate AllAtOrLeftOf(polygon: seq<Point>, p: Point)
  {
    forall k :: 0 <= k < |polygon| ==> polygon[k].x <= p.x
  }

  /** Every vertex lies at or below p. */
  ghost predicate AllAtOrBelow(polygon: seq<Point>, p: Point)
  {
    forall k :: 0 <= k < |polygon| ==> polygon[k].y <= p.y
  }

  /** Every vertex lies strictly above p. */
  ghost predicate AllAbove(polygon: seq<Point>, p: Point)
  {
    forall k :: 0 <= k < |polygon| ==> polygon[k].y > p.y
  }

  /** With both endpoints strictly right of p, the edge is crossed exactly
      when it straddles the ray's height. */
  lemma CrossesIffStraddlesWhenRightOf(p: Point, a: Point, b: Point)
    requires a.x > p.x && b.x > p.x
    ensures Crosses(p, a, b) == ((a.y > p.y) != (b.y > p.y))
  {
    if (a.y > p.y) != (b.y > p.y) {
      IntersectionBetweenEndpoints(p, a, b);
      var ix := (b.x - a.x) * (p.y - a.y) / (b.y - a.y) + a.x;
      assert ix > p.x;
    }
  }

  /** With both endpoints at or left of p, the edge is not crossed. */
  lemma NoCrossingWhenAtOrLeftOf(p: Point, a: Point, b: Point)
    requires a.x <= p.x && b.x <= p.x
    ensures !Crosses(p, a, b)
  {
    if (a.y > p.y) != (b.y > p.y) {
      IntersectionBetweenEndpoints(p, a, b);
      var ix := (b.x - a.x) * (p.y - a.y) / (b.y - a.y) + a.x;
      assert ix <= p.x;
    }
  }

  /** The number of straddling edges among those ending at vertices 0 .. k - 1. */
  function StraddleCount(polygon: seq<Point>, p: Point, k: nat): (c: nat)
    requires k <= |polygon|
    ensures c <= k
  {
    if k == 0 then 0
    else StraddleCount(polygon, p, k - 1) + (if Straddles(polygon, p, k - 1) then 1 else 0)
  }

  /** The parity of the straddling edges among the first k telescopes: it is
      fixed by the heights of vertex 0, vertex k - 1 and the last vertex. */
  lemma {:induction false} StraddleParity(polygon: seq<Point>, p: Point, k: nat)
    requires 1 <= k <= |polygon|
    ensures var n := |polygon|;
      var above0, aboveK, aboveLast := polygon[0].y > p.y, polygon[k - 1].y > p.y, polygon[n - 1].y > p.y;
      (StraddleCount(polygon, p, k) % 2 == 1) == ((above0 != aboveLast) != (aboveK != above0))
  {
    if k > 1 {
      StraddleParity(polygon, p, k - 1);
    }
  }

  /** Going once around the polygon, the boundary passes the ray's height an
      even number of times. */
  lemma StraddlesEven(polygon: seq<Point>, p: Point)
    requires |polygon| >= 1
    ensures StraddleCount(polygon, p, |polygon|) % 2 == 0
  {
    StraddleParity(polygon, p, |polygon|);
  }

  /** With every vertex strictly right of p, the crossed edges are exactly the
      straddling ones. */
  lemma {:induction false} CrossingsAreStraddlesWhenRightOf(polygon: seq<Point>, p: Point, k: nat)
    requires k <= |polygon|
    requires AllRightOf(polygon, p)
    ensures CrossingCount(polygon, p, k) == StraddleCount(polygon, p, k)
  {
    if k > 0 {
      CrossingsAreStraddlesWhenRightOf(polygon, p, k - 1);
      var j := Prev(k - 1, |polygon|);
      CrossesIffStraddlesWhenRightOf(p, polygon[k - 1], polygon[j]);
    }
  }

  /** If no edge among the first k is crossed, the count is zero. */
  lemma {:induction false} NoCrossingCountsZero(polygon: seq<Point>, p: Point, k: nat)
    requires k <= |polygon|
    requires forall i :: 0 <= i < k ==> !EdgeCrosses(polygon, p, i)
    ensures CrossingCount(polygon, p, k) == 0
  {
    if k > 0 {
      NoCrossingCountsZero(polygon, p, k - 1);
    }
  }

  /** A point beyond the polygon's extent is outside: every vertex strictly
      right of it (each crossing is then matched by a crossing back), every
      vertex at or left of it, every vertex at or below it, or every vertex
      strictly above it. The strict and non-strict sides follow the tie-break. */
  lemma OutsideBeyondExtent(polygon: seq<Point>, p: Point)
    requires AllRightOf(polygon, p) || AllAtOrLeftOf(polygon, p) || AllAtOrBelow(polygon, p) || AllAbove(polygon, p)
    ensures !Inside(polygon, p)
  {
    InsideByCount(polygon, p);
    var n := |polygon|;
    if n >= 3 {
      if AllRightOf(polygon, p) {
        CrossingsAreStraddlesWhenRightOf(polygon, p, n);
        StraddlesEven(polygon, p);
      } else {
        forall i | 0 <= i < n
          ensures !EdgeCrosses(polygon, p, i)
        {
          if AllAtOrLeftOf(polygon, p) {
            NoCrossingWhenAtOrLeftOf(p, polygon[i], polygon[Prev(i, n)]);
          }
        }
        NoCrossingCountsZero(polygon, p, n);
      }
    }
  }

  // ----- Worked cases -----

  /** The square with corners (0,0), (4,0), (4,4), (0,4). */
  function Square(): seq<Point>
  {
    [Point(0.0, 0.0), Point(4.0, 0.0), Point(4.0, 4.0), Point(0.0, 4.0)]
  }

  /** The axis-aligned rectangle with lower-left corner lo and upper-right
      corner hi, listed counter-clockwise from lo. */
  function Rectangle(lo: Point, hi: Point): seq<Point>
  {
    [lo, Point(hi.x, lo.y), hi, Point(lo.x, hi.y)]
  }

  /** Every point strictly inside a rectangle is inside: of its four edges the
      ray crosses only the right-hand one. */
  lemma RectangleInterior(lo: Point, hi: Point, p: Point)
    requires lo.x < p.x < hi.x && lo.y < p.y < hi.y
    ensures Inside(Rectangle(lo, hi), p)
  {
    var r := Rectangle(lo, hi);
    InsideByCount(r, p);
    assert (r[3].x - r[0].x) * (p.y - r[0].y) / (r[3].y - r[0].y) + r[0].x == lo.x;
    assert !EdgeCrosses(r, p, 0);
    assert !EdgeCrosses(r, p, 1);
    assert (r[1].x - r[2].x) * (p.y - r[2].y) / (r[1].y - r[2].y) + r[2].x == hi.x;
    assert EdgeCrosses(r, p, 2);
    assert !EdgeCrosses(r, p, 3);
    assert CrossingCount(r, p, 1) == 0;
    assert CrossingCount(r, p, 2) == 0;
    assert CrossingCount(r, p, 3) == 1;
    assert CrossingCount(r, p, 4) == 1;
  }

  /** Every point strictly inside the square is inside. */
  lemma SquareInterior(p: Point)
    requires 0.0 < p.x < 4.0 && 0.0 < p.y < 4.0
    ensures Inside(Square(), p)
  {
    assert Square() == Rectangle(Point(0.0, 0.0), Point(4.0, 4.0));
    RectangleInterior(Point(0.0, 0.0), Point(4.0, 4.0), p);
  }

  /** The centre is inside, a point beyond the corner is outside, and on the
      boundary the tie-break decides: the left edge counts as inside, the right
      edge as outside. */
  lemma SquareCases()
    ensures Inside(Square(), Point(2.0, 2.0))
    ensures !Inside(Square(), Point(5.0, 5.0))
    ensures Inside(Square(), Point(0.0, 2.0))
    ensures !Inside(Square(), Point(4.0, 2.0))
  {
    InsideByCount(Square(), Point(2.0, 2.0));
    InsideByCount(Square(), Point(5.0, 5.0));
    InsideByCount(Square(), Point(0.0, 2.0));
    InsideByCount(Square(), Point(4.0, 2.0));
  }
}
