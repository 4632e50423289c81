// The visibility sweep of the client (castRays in main.go): two probes are
// cast just past every vertex of every object, each probe is cut at its
// nearest wall crossing, and the resulting rays are sorted by angle.
module Visibility {
  import opened Geometry

  const ScreenWidth: real := 1600.0
  const ScreenHeight: real := 900.0

  /** The two angular offsets at which probes pass a vertex. */
  const Offsets: seq<real> := [-0.001, 0.001]

  /** Squared distance from the eye (cx, cy) to p. */
  function D2(cx: real, cy: real, p: Vertex): real
  {
    (cx - p.X) * (cx - p.X) + (cy - p.Y) * (cy - p.Y)
  }

  /** Every object has at least one wall (Object.Points panics otherwise). */
  ghost predicate HasWalls(objects: seq<Object>)
  {
    forall i :: 0 <= i < |objects| ==> |objects[i].Walls| > 0
  }

  /** The probe length: the screen diagonal. */
  function RayLength(m: Math): real
  {
    m.Hypot(ScreenWidth, ScreenHeight)
  }

  // ---------------------------------------------------------------------
  // Wall crossings of one probe

  /** Where ray crosses the first n walls, in wall order. */
  function WallHits(ray: Line, walls: seq<Line>, n: nat): (r: seq<Vertex>)
    requires n <= |walls|
    ensures |r| <= n
  {
    if n == 0 then []
    else
      var hit := Intersection(ray, walls[n - 1]);
      WallHits(ray, walls, n - 1) + (if hit.2 then [Vertex(hit.0, hit.1)] else [])
  }

  /** The crossings listed are exactly the points where ray meets one of the
      first n walls. */
  lemma {:induction false} WallHitsMembers(ray: Line, walls: seq<Line>, n: nat)
    requires n <= |walls|
    ensures forall p :: p in WallHits(ray, walls, n) <==>
              exists k :: 0 <= k < n && Intersection(ray, walls[k]) == (p.X, p.Y, true)
  {
    if n > 0 {
      WallHitsMembers(ray, walls, n - 1);
      var hit := Intersection(ray, walls[n - 1]);
      assert hit.2 ==> hit == (Vertex(hit.0, hit.1).X, Vertex(hit.0, hit.1).Y, true);
    }
  }

  /** Where ray crosses the walls of the first n objects, object by object. */
  function ObjectHits(ray: Line, objects: seq<Object>, n: nat): seq<Vertex>
    requires n <= |objects|
  {
    if n == 0 then []
    else ObjectHits(ray, objects, n - 1) + WallHits(ray, objects[n - 1].Walls, |objects[n - 1].Walls|)
  }

  /** The crossings listed are exactly the points where ray meets a wall of
      one of the first n objects. */
  lemma {:induction false} ObjectHitsMembers(ray: Line, objects: seq<Object>, n: nat)
    requires n <= |objects|
    ensures forall p :: p in ObjectHits(ray, objects, n) <==>
              exists i, k :: 0 <= i < n && 0 <= k < |objects[i].Walls| &&
                             Intersection(ray, objects[i].Walls[k]) == (p.X, p.Y, true)
  {
    if n > 0 {
      ObjectHitsMembers(ray, objects, n - 1);
      WallHitsMembers(ray, objects[n - 1].Walls, |objects[n - 1].Walls|);
    }
  }

  /** Every crossing of every wall of every object, in that order. */
  function AllHits(ray: Line, objects: seq<Object>): seq<Vertex>
  {
    ObjectHits(ray, objects, |objects|)
  }

  /** The collecting loops of one probe. */
  method CollectHits(ray: Line, objects: seq<Object>) returns (points: seq<Vertex>)
    ensures points == AllHits(ray, objects)
  {
    points := [];
    for i := 0 to |objects|
      invariant points == ObjectHits(ray, objects, i)
    {
      var walls := objects[i].Walls;
      for j := 0 to |walls|
        invariant points == ObjectHits(ray, objects, i) + WallHits(ray, walls, j)
      {
        var hit := Intersection(ray, walls[j]);
        if hit.2 {
          points := points + [Vertex(hit.0, hit.1)];
        }
      }
    }
  }

  // ---------------------------------------------------------------------
  // The nearest crossing

  /** The argmin the loop below computes over the first n points: the n-th
      point replaces the best of the others only when strictly nearer. */
  function NearestUpTo(cx: real, cy: real, points: seq<Vertex>, n: nat): (i: nat)
    requires 0 < n <= |points|
    ensures i < n
  {
    if n == 1 then 0
    else
      var best := NearestUpTo(cx, cy, points, n - 1);
      if D2(cx, cy, points[n - 1]) < D2(cx, cy, points[best]) then n - 1 else best
  }

  /** The index of the point nearest the eye (see NearestIsFirstMinimum). */
  function Nearest(cx: real, cy: real, points: seq<Vertex>): (i: nat)
    requires |points| > 0
    ensures i < |points|
  {
    NearestUpTo(cx, cy, points, |points|)
  }

  /** Among the first n points, NearestUpTo picks one nearest the eye, and the
      earliest among equals. */
  lemma {:induction false} NearestUpToIsFirstMinimum(cx: real, cy: real, points: seq<Vertex>, n: nat)
    requires 0 < n <= |points|
    ensures var i := NearestUpTo(cx, cy, points, n);
            && (forall k :: 0 <= k < n ==> D2(cx, cy, points[i]) <= D2(cx, cy, points[k]))
            && (forall k :: 0 <= k < i ==> D2(cx, cy, points[k]) > D2(cx, cy, points[i]))
  {
    if n > 1 {
      NearestUpToIsFirstMinimum(cx, cy, points, n - 1);
    }
  }

  /** The argmin loop: minI stays 0 for no points. The source starts `min`
      at +Inf; here `seen` is false exactly while it still would be. */
  method NearestIndex(cx: real, cy: real, points: seq<Vertex>) returns (minI: nat)
    ensures points == [] ==> minI == 0
    ensures points != [] ==> minI == Nearest(cx, cy, points)
  {
    var min := 0.0;
    var seen := false;
    minI := 0;
    for i := 0 to |points|
      invariant seen <==> i > 0
      invariant !seen ==> minI == 0
      invariant seen ==> minI == NearestUpTo(cx, cy, points, i) && min == D2(cx, cy, points[minI])
    {
      var d2 := D2(cx, cy, points[i]);
      if !seen || d2 < min {
        min := d2;
        minI := i;
        seen := true;
      }
    }
  }

  // ---------------------------------------------------------------------
  // The rays

  /** One probe at `angle`: no ray when it crosses nothing, else the ray
      from the eye to its nearest crossing. */
  function Probe(m: Math, cx: real, cy: real, rayLength: real, angle: real, objects: seq<Object>): (r: seq<Line>)
    ensures |r| <= 1
    ensures forall k :: 0 <= k < |r| ==> Start(r[k]) == Vertex(cx, cy)
  {
    var hits := AllHits(NewRay(m, cx, cy, rayLength, angle), objects);
    if hits == [] then []
    else
      var p := hits[Nearest(cx, cy, hits)];
      [Line(cx, cy, p.X, p.Y)]
  }

  /** A probe yields a ray iff it crosses some wall; the ray leaves the eye,
      ends on a wall the probe crosses, and no crossing is nearer the eye. */
  lemma ProbeIsNearestHit(m: Math, cx: real, cy: real, rayLength: real, angle: real, objects: seq<Object>)
    ensures var ray := NewRay(m, cx, cy, rayLength, angle);
            var r := Probe(m, cx, cy, rayLength, angle, objects);
            && |r| <= 1
            && (r != [] <==> exists i, k :: 0 <= i < |objects| && 0 <= k < |objects[i].Walls| &&
                                            Intersection(ray, objects[i].Walls[k]).2)
            && (r != [] ==>
                  && Start(r[0]) == Vertex(cx, cy)
                  && (exists i, k :: 0 <= i < |objects| && 0 <= k < |objects[i].Walls| &&
                                     Intersection(ray, objects[i].Walls[k]) == (r[0].X2, r[0].Y2, true))
                  && forall i, k :: 0 <= i < |objects| && 0 <= k < |objects[i].Walls| &&
                                    Intersection(ray, objects[i].Walls[k]).2 ==>
                                      D2(cx, cy, End(r[0])) <=
                                      D2(cx, cy, Vertex(Intersection(ray, objects[i].Walls[k]).0,
                                                        Intersection(ray, objects[i].Walls[k]).1)))
  {
    var ray := NewRay(m, cx, cy, rayLength, angle);
    var hits := AllHits(ray, objects);
    ObjectHitsMembers(ray, objects, |objects|);
    forall i, k | 0 <= i < |objects| && 0 <= k < |objects[i].Walls| && Intersection(ray, objects[i].Walls[k]).2
      ensures Vertex(Intersection(ray, objects[i].Walls[k]).0, Intersection(ray, objects[i].Walls[k]).1) in hits
    {
      var h := Intersection(ray, objects[i].Walls[k]);
      assert h == (Vertex(h.0, h.1).X, Vertex(h.0, h.1).Y, true);
    }
    if hits != [] {
      var p := hits[Nearest(cx, cy, hits)];
      NearestUpToIsFirstMinimum(cx, cy, hits, |hits|);
      assert p in hits;
      forall q | q in hits
        ensures D2(cx, cy, p) <= D2(cx, cy, q)
      {
        var j :| 0 <= j < |hits| && hits[j] == q;
      }
    }
  }

  /** The probes at `angle` plus each of the first n offsets. */
  function Fan(m: Math, cx: real, cy: real, rayLength: real, angle: real, offsets: seq<real>, n: nat, objects: seq<Object>): (r: seq<Line>)
    requires n <= |offsets|
    ensures |r| <= n
    ensures forall k :: 0 <= k < |r| ==> Start(r[k]) == Vertex(cx, cy)
  {
    if n == 0 then []
    else Fan(m, cx, cy, rayLength, angle, offsets, n - 1, objects) + Probe(m, cx, cy, rayLength, angle + offsets[n - 1], objects)
  }

  /** The direction from the eye to p. */
  function Bearing(m: Math, cx: real, cy: real, p: Vertex): real
  {
    Angle(m, Line(cx, cy, p.X, p.Y))
  }

  /** The rays cast past each of the first n points, in order: both probes
      past each. */
  function VertexRays(m: Math, cx: real, cy: real, rayLength: real, points: seq<Vertex>, n: nat, objects: seq<Object>): (r: seq<Line>)
    requires n <= |points|
    ensures |r| <= 2 * n
    ensures forall k :: 0 <= k < |r| ==> Start(r[k]) == Vertex(cx, cy)
  {
    if n == 0 then []
    else
      VertexRays(m, cx, cy, rayLength, points, n - 1, objects) +
      Fan(m, cx, cy, rayLength, Bearing(m, cx, cy, points[n - 1]), Offsets, |Offsets|, objects)
  }

  /** The number of vertices of the first n objects, as Object.Points lists
      them. */
  function VertexCount(objects: seq<Object>, n: nat): nat
    requires n <= |objects| && HasWalls(objects)
  {
    if n == 0 then 0
    else VertexCount(objects, n - 1) + |PointsOf(objects[n - 1].Walls)|
  }

  /** The rays cast past the vertices of the first n objects; the probes are
      cut by the walls of all objects. */
  function ObjectRays(m: Math, cx: real, cy: real, rayLength: real, objects: seq<Object>, n: nat): (r: seq<Line>)
    requires n <= |objects| && HasWalls(objects)
    ensures |r| <= 2 * VertexCount(objects, n)
    ensures forall k :: 0 <= k < |r| ==> Start(r[k]) == Vertex(cx, cy)
  {
    if n == 0 then []
    else
      var points := PointsOf(objects[n - 1].Walls);
      ObjectRays(m, cx, cy, rayLength, objects, n - 1) +
      VertexRays(m, cx, cy, rayLength, points, |points|, objects)
  }

  /** The rays before sorting. */
  function UnsortedRays(m: Math, cx: real, cy: real, objects: seq<Object>): seq<Line>
    requires HasWalls(objects)
  {
    ObjectRays(m, cx, cy, RayLength(m), objects, |objects|)
  }

  // ---------------------------------------------------------------------
  // Sorting by angle

  ghost predicate SortedByAngle(m: Math, rays: seq<Line>)
  {
    forall i, j :: 0 <= i < j < |rays| ==> Angle(m, rays[i]) <= Angle(m, rays[j])
  }

  /** Inserts r before the first ray of `sorted` whose angle is not smaller. */
  function InsertByAngle(m: Math, r: Line, sorted: seq<Line>): (s: seq<Line>)
    requires SortedByAngle(m, sorted)
    ensures SortedByAngle(m, s)
    ensures |s| == |sorted| + 1
    ensures multiset(s) == multiset(sorted) + multiset{r}
    ensures s[0] == r || (|sorted| > 0 && s[0] == sorted[0])
    decreases |sorted|
  {
    if sorted == [] || Angle(m, r) <= Angle(m, sorted[0]) then
      ConsSorted(m, r, sorted);
      [r] + sorted
    else
      var rest := InsertByAngle(m, r, sorted[1..]);
      assert sorted == [sorted[0]] + sorted[1..];
      ConsSorted(m, sorted[0], rest);
      [sorted[0]] + rest
  }

  /** A ray whose angle is at most that of the head of a sorted list can go
      in front of it. */
  lemma ConsSorted(m: Math, x: Line, s: seq<Line>)
    requires SortedByAngle(m, s)
    requires s == [] || Angle(m, x) <= Angle(m, s[0])
    ensures SortedByAngle(m, [x] + s)
  {
    var t := [x] + s;
    forall i, j | 0 <= i < j < |t|
      ensures Angle(m, t[i]) <= Angle(m, t[j])
    {
      if i == 0 {
        assert t[j] == s[j - 1];
      } else {
        assert t[i] == s[i - 1] && t[j] == s[j - 1];
      }
    }
  }

  /** The rays in ascending order of angle: the same rays, reordered. */
  function SortByAngle(m: Math, rays: seq<Line>): (s: seq<Line>)
    ensures SortedByAngle(m, s)
    ensures |s| == |rays|
    ensures multiset(s) == multiset(rays)
    decreases |rays|
  {
    if rays == [] then []
    else
      assert rays == [rays[0]] + rays[1..];
      InsertByAngle(m, rays[0], SortByAngle(m, rays[1..]))
  }

  // ---------------------------------------------------------------------
  // castRays

  /** The sweep: for every vertex of every object, probes at its bearing
      minus and plus 0.001, each cut at its nearest crossing; then the rays
      sorted by angle. Every ray leaves the eye, and there are at most two
      per vertex. */
  method CastRays(m: Math, cx: real, cy: real, objects: seq<Object>) returns (rays: seq<Line>)
    requires HasWalls(objects)
    ensures rays == SortByAngle(m, UnsortedRays(m, cx, cy, objects))
    ensures SortedByAngle(m, rays)
    ensures |rays| <= 2 * VertexCount(objects, |objects|)
    ensures forall k :: 0 <= k < |rays| ==> Start(rays[k]) == Vertex(cx, cy)
  {
    var unsorted := CastAll(m, cx, cy, objects);
    rays := SortByAngle(m, unsorted);
    SortKeepsStarts(m, cx, cy, unsorted);
  }

  /** Sorting keeps every ray, so it keeps the rays' common start. */
  lemma SortKeepsStarts(m: Math, cx: real, cy: real, rays: seq<Line>)
    requires forall k :: 0 <= k < |rays| ==> Start(rays[k]) == Vertex(cx, cy)
    ensures forall k :: 0 <= k < |SortByAngle(m, rays)| ==> Start(SortByAngle(m, rays)[k]) == Vertex(cx, cy)
  {
    var s := SortByAngle(m, rays);
    forall k | 0 <= k < |s|
      ensures Start(s[k]) == Vertex(cx, cy)
    {
      assert s[k] in multiset(rays);
    }
  }

  /** The loop over the objects, before sorting. */
  method CastAll(m: Math, cx: real, cy: real, objects: seq<Object>) returns (rays: seq<Line>)
    requires HasWalls(objects)
    ensures rays == UnsortedRays(m, cx, cy, objects)
  {
    var rayLength := m.Hypot(ScreenWidth, ScreenHeight);
    rays := [];
    for i := 0 to |objects|
      invariant rays == ObjectRays(m, cx, cy, rayLength, objects, i)
    {
      var points := Points(objects[i]);
      rays := CastPast(m, cx, cy, rayLength, points, objects, rays);
    }
  }

  /** The loop over the vertices of one object, appending to `rays`. */
  method CastPast(m: Math, cx: real, cy: real, rayLength: real, points: seq<Vertex>, objects: seq<Object>, rays: seq<Line>)
    returns (rays': seq<Line>)
    ensures rays' == rays + VertexRays(m, cx, cy, rayLength, points, |points|, objects)
  {
    rays' := rays;
    for j := 0 to |points|
      invariant rays' == rays + VertexRays(m, cx, cy, rayLength, points, j, objects)
    {
      var p := points[j];
      var angle := Angle(m, Line(cx, cy, p.X, p.Y));
      ghost var before := rays';
      rays' := CastFan(m, cx, cy, rayLength, angle, objects, rays');
      Associative(rays, VertexRays(m, cx, cy, rayLength, points, j, objects),
                  Fan(m, cx, cy, rayLength, angle, Offsets, |Offsets|, objects));
    }
  }

  /** The loop over the two offsets past one vertex, appending to `rays`. */
  method CastFan(m: Math, cx: real, cy: real, rayLength: real, angle: real, objects: seq<Object>, rays: seq<Line>)
    returns (rays': seq<Line>)
    ensures rays' == rays + Fan(m, cx, cy, rayLength, angle, Offsets, |Offsets|, objects)
  {
    rays' := rays;
    var offsets := [-0.001, 0.001];
    for k := 0 to |offsets|
      invariant rays' == rays + Fan(m, cx, cy, rayLength, angle, offsets, k, objects)
    {
      var ray := NewRay(m, cx, cy, rayLength, angle + offsets[k]);
      var hits := CollectHits(ray, objects);
      var minI := NearestIndex(cx, cy, hits);
      ghost var fan := Fan(m, cx, cy, rayLength, angle, offsets, k, objects);
      ghost var probe := Probe(m, cx, cy, rayLength, angle + offsets[k], objects);
      if minI < |hits| {
        rays' := rays' + [Line(cx, cy, hits[minI].X, hits[minI].Y)];
        assert probe == [Line(cx, cy, hits[minI].X, hits[minI].Y)];
      } else {
        assert probe == [];
      }
      FanStep(m, cx, cy, rayLength, angle, offsets, k, objects);
      Associative(rays, fan, probe);
    }
    assert offsets == Offsets;
  }

  lemma FanStep(m: Math, cx: real, cy: real, rayLength: real, angle: real, offsets: seq<real>, k: nat, objects: seq<Object>)
    requires k < |offsets|
    ensures Fan(m, cx, cy, rayLength, angle, offsets, k + 1, objects) ==
            Fan(m, cx, cy, rayLength, angle, offsets, k, objects) + Probe(m, cx, cy, rayLength, angle + offsets[k], objects)
  {
  }

  lemma Associative<T>(a: seq<T>, b: seq<T>, c: seq<T>)
    ensures (a + b) + c == a + (b + c)
  {
  }
}
