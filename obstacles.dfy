// Circle-versus-rectangle collision against the static obstacles
// (main.go: Obstacle, circleRectCollision, collidesWithObstacles).
module Obstacles {

  /** An axis-aligned rectangle with corner (X, Y). */
  datatype Obstacle = Obstacle(X: real, Y: real, Width: real, Height: real)

  /** math.Max and math.Min on ordinary numbers. */
  function Max(a: real, b: real): real { if a >= b then a else b }

  function Min(a: real, b: real): real { if a <= b then a else b }

  function SquaredDistance(x1: real, y1: real, x2: real, y2: real): real
  {
    (x1 - x2) * (x1 - x2) + (y1 - y2) * (y1 - y2)
  }

  /** The centre clamped into the rectangle, one axis at a time. */
  function ClosestX(cx: real, rect: Obstacle): real
  {
    Max(rect.X, Min(cx, rect.X + rect.Width))
  }

  function ClosestY(cy: real, rect: Obstacle): real
  {
    Max(rect.Y, Min(cy, rect.Y + rect.Height))
  }

  ghost predicate InRect(px: real, py: real, rect: Obstacle)
  {
    rect.X <= px <= rect.X + rect.Width && rect.Y <= py <= rect.Y + rect.Height
  }

  /** True when the circle comes strictly closer than `radius` to the clamped
      point; touching at exactly `radius` is not a collision. */
  predicate CircleRectCollision(cx: real, cy: real, radius: real, rect: Obstacle)
  {
    var closestX := ClosestX(cx, rect);
    var closestY := ClosestY(cy, rect);
    var dx := cx - closestX;
    var dy := cy - closestY;
    dx * dx + dy * dy < radius * radius
  }

  /** True as soon as one obstacle collides, scanning in order. */
  function CollidesWithObstacles(x: real, y: real, radius: real, obstacles: seq<Obstacle>): (r: bool)
    ensures r <==> exists i :: 0 <= i < |obstacles| && CircleRectCollision(x, y, radius, obstacles[i])
  {
    if obstacles == [] then false
    else if CircleRectCollision(x, y, radius, obstacles[0]) then true
    else
      var rest := CollidesWithObstacles(x, y, radius, obstacles[1..]);
      assert forall i :: 1 <= i < |obstacles| ==> obstacles[i] == obstacles[1..][i - 1];
      rest
  }

  /** Clamping into [lo, hi] gives the nearest point of that interval. */
  lemma ClampIsNearest(c: real, lo: real, hi: real, p: real)
    requires lo <= hi && lo <= p <= hi
    ensures lo <= Max(lo, Min(c, hi)) <= hi
    ensures (c - Max(lo, Min(c, hi))) * (c - Max(lo, Min(c, hi))) <= (c - p) * (c - p)
  {
    var q := Max(lo, Min(c, hi));
    if c < lo {
      assert q == lo && c - p <= c - q < 0.0;
      SquareGrows(q - c, p - c);
    } else if c > hi {
      assert q == hi && 0.0 < c - q <= c - p;
      SquareGrows(c - q, c - p);
    } else {
      assert q == c;
    }
  }

  lemma SquareGrows(a: real, b: real)
    requires 0.0 <= a <= b
    ensures a * a <= b * b
  {
    assert a * a <= a * b <= b * b;
  }

  /** For a rectangle of non-negative size the clamped point lies in it and
      no point of the rectangle is nearer the centre. */
  lemma ClosestIsNearest(cx: real, cy: real, rect: Obstacle, px: real, py: real)
    requires rect.Width >= 0.0 && rect.Height >= 0.0
    ensures InRect(ClosestX(cx, rect), ClosestY(cy, rect), rect)
    ensures InRect(px, py, rect) ==>
              SquaredDistance(cx, cy, ClosestX(cx, rect), ClosestY(cy, rect)) <= SquaredDistance(cx, cy, px, py)
  {
    if InRect(px, py, rect) {
      ClampIsNearest(cx, rect.X, rect.X + rect.Width, px);
      ClampIsNearest(cy, rect.Y, rect.Y + rect.Height, py);
    } else {
      ClampIsNearest(cx, rect.X, rect.X + rect.Width, rect.X);
      ClampIsNearest(cy, rect.Y, rect.Y + rect.Height, rect.Y);
    }
  }

  /** The collision test is exact: the circle collides iff some point of the
      rectangle lies strictly inside it. */
  lemma CollisionIffOverlap(cx: real, cy: real, radius: real, rect: Obstacle)
    requires rect.Width >= 0.0 && rect.Height >= 0.0
    ensures CircleRectCollision(cx, cy, radius, rect) <==>
              exists px, py :: InRect(px, py, rect) && SquaredDistance(cx, cy, px, py) < radius * radius
  {
    var qx, qy := ClosestX(cx, rect), ClosestY(cy, rect);
    ClosestIsNearest(cx, cy, rect, qx, qy);
    assert CircleRectCollision(cx, cy, radius, rect) <==> SquaredDistance(cx, cy, qx, qy) < radius * radius;
    if CircleRectCollision(cx, cy, radius, rect) {
      assert InRect(qx, qy, rect) && SquaredDistance(cx, cy, qx, qy) < radius * radius;
    }
    forall px, py | InRect(px, py, rect) && SquaredDistance(cx, cy, px, py) < radius * radius
      ensures CircleRectCollision(cx, cy, radius, rect)
    {
      ClosestIsNearest(cx, cy, rect, px, py);
    }
  }

  /** A circle whose edge just touches a side does not collide. */
  lemma TouchingIsNoCollision()
    ensures !CircleRectCollision(15.0, 5.0, 5.0, Obstacle(0.0, 0.0, 10.0, 10.0))
  {
  }
}
