// Line segments, rays, segment-segment intersection and boundary objects
// (the `game` package, game/objects.go).
//
// float64 arithmetic is read as exact real arithmetic. The trigonometric
// functions of Go's math package are not given a meaning here: they are the
// fields of a `Math` value that every caller passes in, so no proof can rely
// on anything about them beyond what a lemma states as its own requirement.
module Geometry {

  /** math.Cos, math.Sin, math.Atan2 and math.Hypot, left uninterpreted. */
  datatype Math = Math(
    Cos: real -> real,
    Sin: real -> real,
    Atan2: (real, real) -> real,
    Hypot: (real, real) -> real)

  /** A segment from (X1, Y1) to (X2, Y2). */
  datatype Line = Line(X1: real, Y1: real, X2: real, Y2: real)

  /** A point, the source's `[2]float64`. */
  datatype Vertex = Vertex(X: real, Y: real)

  function Start(l: Line): Vertex { Vertex(l.X1, l.Y1) }

  function End(l: Line): Vertex { Vertex(l.X2, l.Y2) }

  function SquaredLength(l: Line): real
  {
    (l.X2 - l.X1) * (l.X2 - l.X1) + (l.Y2 - l.Y1) * (l.Y2 - l.Y1)
  }

  /** A probe of the given length from (x, y) in direction `angle`. */
  function NewRay(m: Math, x: real, y: real, length: real, angle: real): (r: Line)
    ensures Start(r) == Vertex(x, y)
  {
    Line(x, y, x + length * m.Cos(angle), y + length * m.Sin(angle))
  }

  /** A ray really has the requested length whenever cos and sin of its angle
      lie on the unit circle (which the model does not assume in general). */
  lemma NewRayLength(m: Math, x: real, y: real, length: real, angle: real)
    requires m.Cos(angle) * m.Cos(angle) + m.Sin(angle) * m.Sin(angle) == 1.0
    ensures SquaredLength(NewRay(m, x, y, length, angle)) == length * length
  {
    var c, s := m.Cos(angle), m.Sin(angle);
    var r := NewRay(m, x, y, length, angle);
    assert r.X2 - r.X1 == length * c && r.Y2 - r.Y1 == length * s;
    calc {
      SquaredLength(r);
      (length * c) * (length * c) + (length * s) * (length * s);
      length * length * (c * c + s * s);
      length * length;
    }
  }

  /** The direction of a segment, atan2(dy, dx). */
  function Angle(m: Math, l: Line): real
  {
    m.Atan2(l.Y2 - l.Y1, l.X2 - l.X1)
  }

  /** The angle depends only on the direction vector: moving both endpoints by
      the same offset keeps it. */
  lemma AngleOfTranslation(m: Math, l: Line, dx: real, dy: real)
    ensures Angle(m, Line(l.X1 + dx, l.Y1 + dy, l.X2 + dx, l.Y2 + dy)) == Angle(m, l)
  {
    assert (l.X2 + dx) - (l.X1 + dx) == l.X2 - l.X1;
    assert (l.Y2 + dy) - (l.Y1 + dy) == l.Y2 - l.Y1;
  }

  // ---------------------------------------------------------------------
  // Boundary chains

  /** Every segment ends where the next one starts, and the last one ends
      where the first one starts. */
  ghost predicate ClosedChain(walls: seq<Line>)
  {
    && |walls| > 0
    && (forall i, j :: 0 <= i < |walls| - 1 && j == i + 1 ==> End(walls[i]) == Start(walls[j]))
    && End(walls[|walls| - 1]) == Start(walls[0])
  }

  /** The four sides of the axis-aligned rectangle with corner (x, y), width
      w and height h, walked from (x, y) up the left side and round. */
  function Rect(x: real, y: real, w: real, h: real): (r: seq<Line>)
    ensures |r| == 4 && ClosedChain(r)
    ensures Start(r[0]) == Vertex(x, y)
    ensures End(r[0]) == Vertex(x, y + h) && End(r[1]) == Vertex(x + w, y + h) && End(r[2]) == Vertex(x + w, y)
  {
    [ Line(x, y, x, y + h),
      Line(x, y + h, x + w, y + h),
      Line(x + w, y + h, x + w, y),
      Line(x + w, y, x, y) ]
  }

  // ---------------------------------------------------------------------
  // Segment-segment intersection

  /** The cross product of the two direction vectors; zero for parallel or
      collinear segments. */
  function Denom(l1: Line, l2: Line): real
  {
    (l1.X1 - l1.X2) * (l2.Y1 - l2.Y2) - (l1.Y1 - l1.Y2) * (l2.X1 - l2.X2)
  }

  function TNum(l1: Line, l2: Line): real
  {
    (l1.X1 - l2.X1) * (l2.Y1 - l2.Y2) - (l1.Y1 - l2.Y1) * (l2.X1 - l2.X2)
  }

  function UNum(l1: Line, l2: Line): real
  {
    -((l1.X1 - l1.X2) * (l1.Y1 - l2.Y1) - (l1.Y1 - l1.Y2) * (l1.X1 - l2.X1))
  }

  /** The direction vector of l. */
  function DX(l: Line): real { l.X2 - l.X1 }

  function DY(l: Line): real { l.Y2 - l.Y1 }

  /** The point at parameter t along l: t = 0 is its start, t = 1 its end. */
  function PointAt(l: Line, t: real): Vertex
  {
    Vertex(l.X1 + t * DX(l), l.Y1 + t * DY(l))
  }

  /** p lies on the closed segment l, at parameter t. */
  ghost predicate OnSegmentAt(l: Line, t: real, p: Vertex)
  {
    0.0 <= t <= 1.0 && PointAt(l, t) == p
  }

  /** Parametric intersection of two segments: the crossing point and true,
      or (0, 0, false). Parallel and collinear pairs (denominator 0) never
      intersect, not even when they overlap. */
  function Intersection(l1: Line, l2: Line): (r: (real, real, bool))
    ensures Denom(l1, l2) == 0.0 ==> !r.2
    ensures !r.2 ==> r.0 == 0.0 && r.1 == 0.0
  {
    var denom := Denom(l1, l2);
    if denom == 0.0 then (0.0, 0.0, false)
    else
      var t := TNum(l1, l2) / denom;
      if t > 1.0 || t < 0.0 then (0.0, 0.0, false)
      else
        var u := UNum(l1, l2) / denom;
        if u > 1.0 || u < 0.0 then (0.0, 0.0, false)
        else var p := PointAt(l1, t); (p.X, p.Y, true)
  }

  /** Soundness: a reported intersection lies on both closed segments, at
      parameters t and u in [0, 1] (endpoints included). */
  lemma IntersectionOnBoth(l1: Line, l2: Line)
    requires Intersection(l1, l2).2
    ensures Denom(l1, l2) != 0.0
    ensures var r := Intersection(l1, l2);
            && OnSegmentAt(l1, TNum(l1, l2) / Denom(l1, l2), Vertex(r.0, r.1))
            && OnSegmentAt(l2, UNum(l1, l2) / Denom(l1, l2), Vertex(r.0, r.1))
  {
    IntersectionPoint(l1, l2);
    SolutionOnBoth(l1, l2);
  }

  /** What the nested tests of Intersection establish when it succeeds. */
  lemma IntersectionPoint(l1: Line, l2: Line)
    requires Intersection(l1, l2).2
    ensures Denom(l1, l2) != 0.0
    ensures 0.0 <= TNum(l1, l2) / Denom(l1, l2) <= 1.0 && 0.0 <= UNum(l1, l2) / Denom(l1, l2) <= 1.0
    ensures var r := Intersection(l1, l2); Vertex(r.0, r.1) == PointAt(l1, TNum(l1, l2) / Denom(l1, l2))
  {
  }

  /** For non-parallel lines the parametric solution (t, u) names the same
      point on both. */
  lemma SolutionOnBoth(l1: Line, l2: Line)
    requires Denom(l1, l2) != 0.0
    ensures PointAt(l1, TNum(l1, l2) / Denom(l1, l2)) == PointAt(l2, UNum(l1, l2) / Denom(l1, l2))
  {
    CoordinateSolution(l1.X1, l1.Y1, l1.X2, l1.Y2, l2.X1, l2.Y1, l2.X2, l2.Y2,
                       DX(l1), DY(l1), DX(l2), DY(l2), Denom(l1, l2), TNum(l1, l2), UNum(l1, l2));
  }

  /** The same in coordinates, with r = (rx, ry) and s = (sx, sy) the two
      direction vectors. */
  lemma CoordinateSolution(x1: real, y1: real, x2: real, y2: real, x3: real, y3: real, x4: real, y4: real,
                           rx: real, ry: real, sx: real, sy: real, d: real, tn: real, un: real)
    requires rx == x2 - x1 && ry == y2 - y1 && sx == x4 - x3 && sy == y4 - y3
    requires d == (x1 - x2) * (y3 - y4) - (y1 - y2) * (x3 - x4) && d != 0.0
    requires tn == (x1 - x3) * (y3 - y4) - (y1 - y3) * (x3 - x4)
    requires un == -((x1 - x2) * (y1 - y3) - (y1 - y2) * (x1 - x3))
    ensures x1 + (tn / d) * rx == x3 + (un / d) * sx
    ensures y1 + (tn / d) * ry == y3 + (un / d) * sy
  {
    CrossProducts(x1, y1, x2, y2, x3, y3, x4, y4);
    DivideOut(x1, x3, tn, un, rx, sx, d);
    DivideOut(y1, y3, tn, un, ry, sy, d);
  }

  /** The 2D identity cross(r, s) w == cross(w, s) r + cross(r, w) s behind
      the parametric solution, for w the offset between the two starts. */
  lemma CrossProducts(x1: real, y1: real, x2: real, y2: real, x3: real, y3: real, x4: real, y4: real)
    ensures var d := (x1 - x2) * (y3 - y4) - (y1 - y2) * (x3 - x4);
            var tn := (x1 - x3) * (y3 - y4) - (y1 - y3) * (x3 - x4);
            var un := -((x1 - x2) * (y1 - y3) - (y1 - y2) * (x1 - x3));
            && (x1 - x3) * d + tn * (x2 - x1) - un * (x4 - x3) == 0.0
            && (y1 - y3) * d + tn * (y2 - y1) - un * (y4 - y3) == 0.0
  {
  }

  lemma DivideOut(a: real, b: real, tn: real, un: real, r: real, s: real, d: real)
    requires d != 0.0
    requires (a - b) * d + tn * r - un * s == 0.0
    ensures a + (tn / d) * r == b + (un / d) * s
  {
    var t, u := tn / d, un / d;
    assert t * d == tn && u * d == un;
    assert (a + t * r - (b + u * s)) * d == (a - b) * d + tn * r - un * s;
  }

  /** If the parametric equations have a solution (t0, u0), the numerators
      are t0 and u0 times the denominator. */
  lemma SolvedNumerators(x1: real, y1: real, x2: real, y2: real, x3: real, y3: real, x4: real, y4: real,
                         rx: real, ry: real, sx: real, sy: real, t0: real, u0: real)
    requires rx == x2 - x1 && ry == y2 - y1 && sx == x4 - x3 && sy == y4 - y3
    requires x1 + t0 * rx == x3 + u0 * sx
    requires y1 + t0 * ry == y3 + u0 * sy
    ensures var d := (x1 - x2) * (y3 - y4) - (y1 - y2) * (x3 - x4);
            && (x1 - x3) * (y3 - y4) - (y1 - y3) * (x3 - x4) == t0 * d
            && -((x1 - x2) * (y1 - y3) - (y1 - y2) * (x1 - x3)) == u0 * d
  {
    var d := (x1 - x2) * (y3 - y4) - (y1 - y2) * (x3 - x4);
    var ex, ey := x1 + t0 * (x2 - x1) - x3, y1 + t0 * (y2 - y1) - y3;
    assert ex == u0 * (x4 - x3) && ey == u0 * (y4 - y3);
    assert (x1 - x3) * (y3 - y4) - (y1 - y3) * (x3 - x4) - t0 * d == (y3 - y4) * ex - (x3 - x4) * ey;
    assert (y3 - y4) * (u0 * (x4 - x3)) - (x3 - x4) * (u0 * (y4 - y3)) == 0.0;
    var fx, fy := x3 + u0 * (x4 - x3) - x1, y3 + u0 * (y4 - y3) - y1;
    assert fx == t0 * (x2 - x1) && fy == t0 * (y2 - y1);
    assert -((x1 - x2) * (y1 - y3) - (y1 - y2) * (x1 - x3)) - u0 * d == (x1 - x2) * fy - (y1 - y2) * fx;
    assert (x1 - x2) * (t0 * (y2 - y1)) - (y1 - y2) * (t0 * (x2 - x1)) == 0.0;
  }

  /** Completeness: two non-parallel segments that share a point at
      parameters t0 and u0 in [0, 1] are reported as intersecting there. */
  lemma IntersectionFindsCommonPoint(l1: Line, l2: Line, t0: real, u0: real)
    requires Denom(l1, l2) != 0.0
    requires 0.0 <= t0 <= 1.0 && 0.0 <= u0 <= 1.0
    requires PointAt(l1, t0) == PointAt(l2, u0)
    ensures Intersection(l1, l2) == (PointAt(l1, t0).X, PointAt(l1, t0).Y, true)
  {
    var d := Denom(l1, l2);
    SolvedNumerators(l1.X1, l1.Y1, l1.X2, l1.Y2, l2.X1, l2.Y1, l2.X2, l2.Y2,
                     DX(l1), DY(l1), DX(l2), DY(l2), t0, u0);
    ExactQuotient(TNum(l1, l2), d, t0);
    ExactQuotient(UNum(l1, l2), d, u0);
  }

  lemma ExactQuotient(n: real, d: real, q: real)
    requires d != 0.0 && n == q * d
    ensures n / d == q
  {
  }

  /** Whether two segments intersect does not depend on which is passed
      first. */
  lemma IntersectionSymmetric(l1: Line, l2: Line)
    ensures Intersection(l1, l2).2 == Intersection(l2, l1).2
  {
    if Intersection(l1, l2).2 {
      IntersectsSwapped(l1, l2);
    } else if Intersection(l2, l1).2 {
      IntersectsSwapped(l2, l1);
    }
  }

  lemma IntersectsSwapped(l1: Line, l2: Line)
    requires Intersection(l1, l2).2
    ensures Intersection(l2, l1).2
  {
    IntersectionOnBoth(l1, l2);
    var d := Denom(l1, l2);
    assert Denom(l2, l1) == -d;
    IntersectionFindsCommonPoint(l2, l1, UNum(l1, l2) / d, TNum(l1, l2) / d);
  }

  /** Collinear segments that overlap on [1, 2] x {0} are not reported. */
  lemma CollinearOverlapIsNoHit()
    ensures PointAt(Line(0.0, 0.0, 2.0, 0.0), 0.75) == PointAt(Line(1.0, 0.0, 3.0, 0.0), 0.25)
    ensures !Intersection(Line(0.0, 0.0, 2.0, 0.0), Line(1.0, 0.0, 3.0, 0.0)).2
  {
    var l1, l2 := Line(0.0, 0.0, 2.0, 0.0), Line(1.0, 0.0, 3.0, 0.0);
    assert DX(l1) == 2.0 && DY(l1) == 0.0 && DX(l2) == 2.0 && DY(l2) == 0.0;
    assert PointAt(l1, 0.75) == Vertex(0.0 + 0.75 * 2.0, 0.0 + 0.75 * 0.0);
    assert PointAt(l2, 0.25) == Vertex(1.0 + 0.25 * 2.0, 0.0 + 0.25 * 0.0);
    assert Denom(l1, l2) == (0.0 - 2.0) * (0.0 - 0.0) - (0.0 - 0.0) * (1.0 - 3.0) == 0.0;
  }

  // ---------------------------------------------------------------------
  // Objects (obstacle and hitbox outlines) and their vertices

  /** A chain of walls; the source only ever builds objects with Rect. */
  datatype Object = Object(Walls: seq<Line>)

  /** The end point of every wall, in order. */
  function Ends(walls: seq<Line>): (r: seq<Vertex>)
    ensures |r| == |walls|
    ensures forall i :: 0 <= i < |walls| ==> r[i] == End(walls[i])
  {
    seq(|walls|, i requires 0 <= i < |walls| => End(walls[i]))
  }

  /** The vertex sequence of a non-empty chain: every wall's end point, then
      the first wall's start point only if BOTH of its coordinates differ
      from the last end point (the source tests `&&` where "differs" would
      be `||`). */
  function PointsOf(walls: seq<Line>): (r: seq<Vertex>)
    requires |walls| > 0
    ensures |r| == |walls| || |r| == |walls| + 1
    ensures r[..|walls|] == Ends(walls)
    ensures |r| == |walls| + 1 <==>
              Start(walls[0]).X != End(walls[|walls| - 1]).X &&
              Start(walls[0]).Y != End(walls[|walls| - 1]).Y
    ensures |r| == |walls| + 1 ==> r[|walls|] == Start(walls[0])
  {
    var points := Ends(walls);
    var p := Start(walls[0]);
    if p.X != points[|points| - 1].X && p.Y != points[|points| - 1].Y then points + [p]
    else points
  }

  /** Object.Points: collects the end points in a loop, then appends the
      first start point under the condition above. An empty chain is a
      run-time panic in the source (index out of range). */
  method Points(o: Object) returns (points: seq<Vertex>)
    requires |o.Walls| > 0
    ensures points == PointsOf(o.Walls)
  {
    points := [];
    for i := 0 to |o.Walls|
      invariant points == Ends(o.Walls[..i])
    {
      points := points + [End(o.Walls[i])];
    }
    assert o.Walls[..|o.Walls|] == o.Walls;
    var p := Start(o.Walls[0]);
    if p.X != points[|points| - 1].X && p.Y != points[|points| - 1].Y {
      points := points + [p];
    }
  }

  /** A closed chain yields exactly its end points: the closing vertex is
      not repeated. */
  lemma ClosedChainPoints(walls: seq<Line>)
    requires ClosedChain(walls)
    ensures PointsOf(walls) == Ends(walls)
  {
    assert Start(walls[0]) == End(walls[|walls| - 1]);
  }

  /** A rectangle has exactly its four corners as vertices. */
  lemma RectPoints(x: real, y: real, w: real, h: real)
    ensures PointsOf(Rect(x, y, w, h)) == [Vertex(x, y + h), Vertex(x + w, y + h), Vertex(x + w, y), Vertex(x, y)]
  {
    var r := Rect(x, y, w, h);
    ClosedChainPoints(r);
  }

  /** The `&&` test drops the start of an open chain whose start shares one
      coordinate with its last end point: this single vertical wall yields
      only its top end. */
  lemma OpenChainStartDropped()
    ensures PointsOf([Line(0.0, 0.0, 0.0, 5.0)]) == [Vertex(0.0, 5.0)]
  {
  }
}
