// Players and their bullets (player/player.go). Both are updated in place
// through pointers, so both are classes.
module Entities {
  import opened Geometry

  const MaxHealth: int := 100
  const PlayerSpeed: real := 1.0
  const PlayerSprintSpeedFactor: real := 1.7
  const BulletSpeed: real := 80.0
  /** 200 ms, in nanoseconds. */
  const ShootCooldown: int := 200_000_000
  /** The box bullets are kept in; Player.Update writes these bounds as
      literals rather than using the screen size. */
  const FieldWidth: real := 1600.0
  const FieldHeight: real := 900.0

  /** The keyboard and mouse state sampled during one tick. */
  datatype Input = Input(
    KeyShiftLeft: bool, KeyW: bool, KeyS: bool, KeyA: bool, KeyD: bool,
    MouseLeft: bool, CursorX: int, CursorY: int)

  ghost predicate Distinct<T>(s: seq<T>)
  {
    forall i, j :: 0 <= i < j < |s| ==> s[i] != s[j]
  }

  /** The closed box [0, width] x [0, height]. */
  ghost predicate InBox(x: real, y: real, width: real, height: real)
  {
    0.0 <= x <= width && 0.0 <= y <= height
  }

  class Bullet {
    const OwnerID: string
    var X: real
    var Y: real
    var EndX: real
    var EndY: real
    const Direction: real
    const Velocity: real

    constructor (ownerID: string, x: real, y: real, endX: real, endY: real, direction: real, velocity: real)
      ensures OwnerID == ownerID && X == x && Y == y && EndX == endX && EndY == endY
      ensures Direction == direction && Velocity == velocity
    {
      OwnerID, X, Y, EndX, EndY := ownerID, x, y, endX, endY;
      Direction, Velocity := direction, velocity;
    }

    /** One tick of flight: both ends move by the same step along
        Direction, Velocity long. */
    method Update(m: Math)
      modifies this
      ensures PositionOf(this) == old(MovedOnce(m, this))
    {
      var dx := m.Cos(Direction) * Velocity;
      var dy := m.Sin(Direction) * Velocity;
      X := X + dx;
      Y := Y + dy;
      EndX := EndX + dx;
      EndY := EndY + dy;
    }

    function OutOfBounds(width: real, height: real): (r: bool)
      reads this
      ensures r <==> !InBox(X, Y, width, height)
    {
      X < 0.0 || X > width || Y < 0.0 || Y > height
    }

    function Line(): (r: Geometry.Line)
      reads this
      ensures Start(r) == Vertex(X, Y) && End(r) == Vertex(EndX, EndY)
    {
      Geometry.Line(X, Y, EndX, EndY)
    }
  }

  /** The hit box of a player at (x, y): a quarter of the sprite size,
      centred on the player. */
  function HitBoxAt(x: real, y: real, spriteDx: int, spriteDy: int): (o: Object)
    ensures |o.Walls| == 4 && ClosedChain(o.Walls)
    ensures var w, h := spriteDx as real * 0.25, spriteDy as real * 0.25;
            && Start(o.Walls[0]) == Vertex(x - w / 2.0, y - h / 2.0)
            && End(o.Walls[0]) == Vertex(x - w / 2.0, y + h / 2.0)
            && End(o.Walls[1]) == Vertex(x + w / 2.0, y + h / 2.0)
            && End(o.Walls[2]) == Vertex(x + w / 2.0, y - h / 2.0)
  {
    var dx := spriteDx as real * 0.25;
    var dy := spriteDy as real * 0.25;
    Object(Rect(x - dx / 2.0, y - dy / 2.0, dx, dy))
  }

  /** A bullet's two ends, as a value. */
  datatype Position = Position(X: real, Y: real, EndX: real, EndY: real)

  function PositionOf(b: Bullet): Position
    reads b
  {
    Position(b.X, b.Y, b.EndX, b.EndY)
  }

  /** How far one call of Bullet.Update moves b along each axis. */
  function StepX(m: Math, b: Bullet): real { m.Cos(b.Direction) * b.Velocity }

  function StepY(m: Math, b: Bullet): real { m.Sin(b.Direction) * b.Velocity }

  /** Where b is after one more call of Bullet.Update. */
  function MovedOnce(m: Math, b: Bullet): Position
    reads b
  {
    Position(b.X + StepX(m, b), b.Y + StepY(m, b), b.EndX + StepX(m, b), b.EndY + StepY(m, b))
  }

  /** Bullet.Update moves both ends by the same step, so the bullet keeps
      its shape, whatever the trigonometry. */
  lemma MovedOnceKeepsShape(m: Math, b: Bullet)
    ensures var p := MovedOnce(m, b);
            && p.X - b.X == p.EndX - b.EndX && p.Y - b.Y == p.EndY - b.EndY
            && p.EndX - p.X == b.EndX - b.X && p.EndY - p.Y == b.EndY - b.Y
  {
  }

  /** On the unit circle the step is Velocity long. */
  lemma MovedOnceDistance(m: Math, b: Bullet)
    requires m.Cos(b.Direction) * m.Cos(b.Direction) + m.Sin(b.Direction) * m.Sin(b.Direction) == 1.0
    ensures var p := MovedOnce(m, b);
            (p.X - b.X) * (p.X - b.X) + (p.Y - b.Y) * (p.Y - b.Y) == b.Velocity * b.Velocity
  {
    var c, s, v := m.Cos(b.Direction), m.Sin(b.Direction), b.Velocity;
    assert (c * v) * (c * v) + (s * v) * (s * v) == (c * c + s * s) * (v * v);
  }

  /** The bullets of bs still inside the field after one more call of
      Bullet.Update, in their original order. */
  ghost function Survivors(m: Math, bs: seq<Bullet>): seq<Bullet>
    reads bs
  {
    if bs == [] then []
    else
      var p := MovedOnce(m, bs[0]);
      (if InBox(p.X, p.Y, FieldWidth, FieldHeight) then [bs[0]] else []) + Survivors(m, bs[1..])
  }

  /** A bullet survives iff it is one of bs and its moved start is in the field. */
  lemma {:induction false} SurvivorsMembers(m: Math, bs: seq<Bullet>)
    ensures forall b :: b in Survivors(m, bs) <==>
              b in bs && InBox(MovedOnce(m, b).X, MovedOnce(m, b).Y, FieldWidth, FieldHeight)
  {
    if bs != [] {
      SurvivorsMembers(m, bs[1..]);
      assert forall b :: b in bs <==> b == bs[0] || b in bs[1..];
    }
  }

  lemma SurvivorsOfOne(m: Math, b: Bullet)
    ensures Survivors(m, [b]) == if InBox(MovedOnce(m, b).X, MovedOnce(m, b).Y, FieldWidth, FieldHeight) then [b] else []
  {
    assert [b][1..] == [];
  }

  /** Survival is decided bullet by bullet, so survivors keep their order. */
  lemma {:induction false} SurvivorsAppend(m: Math, a: seq<Bullet>, b: seq<Bullet>)
    ensures Survivors(m, a + b) == Survivors(m, a) + Survivors(m, b)
  {
    if a == [] {
      assert a + b == b;
    } else {
      assert (a + b)[0] == a[0] && (a + b)[1..] == a[1..] + b;
      SurvivorsAppend(m, a[1..], b);
    }
  }

  /** Dropping bullets keeps them pairwise distinct. */
  lemma {:induction false} SurvivorsDistinct(m: Math, bs: seq<Bullet>)
    requires Distinct(bs)
    ensures Distinct(Survivors(m, bs))
  {
    if bs != [] {
      SurvivorsDistinct(m, bs[1..]);
      SurvivorsMembers(m, bs[1..]);
      assert bs[0] !in bs[1..];
    }
  }

  /** The movement speed for this tick. */
  function Speed(input: Input): (s: real)
    ensures s == PlayerSpeed || s == PlayerSpeed * PlayerSprintSpeedFactor
    ensures s == 1.7 <==> input.KeyShiftLeft
  {
    if input.KeyShiftLeft then PlayerSpeed * PlayerSprintSpeedFactor else PlayerSpeed
  }

  /** The step along one axis: back for `negative`, forward for `positive`. */
  function Axis(negative: bool, positive: bool, speed: real): (d: real)
    ensures negative == positive ==> d == 0.0
    ensures negative && !positive ==> d == -speed
    ensures positive && !negative ==> d == speed
  {
    (if negative then 0.0 - speed else 0.0) + (if positive then speed else 0.0)
  }

  /** A step is one of -s, 0, s; opposite keys (or none) give 0. */
  lemma AxisStep(negative: bool, positive: bool, speed: real)
    requires speed > 0.0
    ensures var d := Axis(negative, positive, speed); d == -speed || d == 0.0 || d == speed
    ensures Axis(negative, positive, speed) == 0.0 <==> negative == positive
    ensures Axis(negative, positive, speed) > 0.0 <==> positive && !negative
  {
  }

  /** The random recoil angle added to a shot, from a uniform draw in [0, 1). */
  function Recoil(rnd: real): (r: real)
    ensures 0.0 <= rnd < 1.0 ==> -0.05 <= r < 0.05
  {
    (rnd - 0.5) / 10.0
  }

  /** The angle from (x, y) toward the cursor. */
  function Aim(m: Math, input: Input, x: real, y: real): real
  {
    m.Atan2(input.CursorY as real - y, input.CursorX as real - x)
  }

  /** A shot is taken iff fire is held and strictly more than the cooldown
      has passed since the last shot. */
  predicate Fires(input: Input, now: int, lastShot: int)
  {
    input.MouseLeft && now - lastShot > ShootCooldown
  }

  class Player {
    const ID: string
    var X: real
    var Y: real
    var Angle: real
    var Health: int
    var Bullets: seq<Bullet>
    /** Time of the last shot, in nanoseconds; 0 means never. */
    var lastShot: int

    ghost predicate Valid()
      reads this
    {
      Distinct(Bullets)
    }

    /** NewPlayer. */
    constructor (id: string, x: real, y: real)
      ensures ID == id && X == x && Y == y && Angle == 0.0
      ensures Health == MaxHealth && Bullets == [] && lastShot == 0
      ensures Valid()
    {
      ID, X, Y, Angle := id, x, y, 0.0;
      Health, Bullets, lastShot := MaxHealth, [], 0;
    }

    /** The hit box, drawn around the player's position. */
    function HitBox(spriteDx: int, spriteDy: int): (o: Object)
      reads this
      ensures o == HitBoxAt(X, Y, spriteDx, spriteDy)
      ensures |o.Walls| == 4 && ClosedChain(o.Walls)
      ensures var w, h := spriteDx as real * 0.25, spriteDy as real * 0.25;
              && Start(o.Walls[0]) == Vertex(X - w / 2.0, Y - h / 2.0)
              && End(o.Walls[0]) == Vertex(X - w / 2.0, Y + h / 2.0)
              && End(o.Walls[1]) == Vertex(X + w / 2.0, Y + h / 2.0)
              && End(o.Walls[2]) == Vertex(X + w / 2.0, Y - h / 2.0)
    {
      HitBoxAt(X, Y, spriteDx, spriteDy)
    }

    /** Appends one fresh bullet leaving from the player along Angle plus
        recoil; everything else is as it was. */
    method Shoot(m: Math, rnd: real)
      requires Valid()
      modifies this
      ensures Valid()
      ensures |Bullets| == |old(Bullets)| + 1 && Bullets[..|old(Bullets)|] == old(Bullets)
      ensures var b := Bullets[|old(Bullets)|];
              && fresh(b) && b.OwnerID == ID && b.Velocity == BulletSpeed
              && b.Direction == Angle + Recoil(rnd)
              && b.Line() == NewRay(m, X, Y, BulletSpeed, b.Direction)
      ensures X == old(X) && Y == old(Y) && Angle == old(Angle)
      ensures Health == old(Health) && lastShot == old(lastShot)
    {
      var angleRecoil := Recoil(rnd);
      var bullet := new Bullet(ID, X, Y,
        X + m.Cos(Angle + angleRecoil) * BulletSpeed,
        Y + m.Sin(Angle + angleRecoil) * BulletSpeed,
        Angle + angleRecoil, BulletSpeed);
      Bullets := Bullets + [bullet];
    }

    /** One tick of the local player. A dead player is left as it is.
        Otherwise the player moves (or stays put when `hitsObstacle`),
        aims at the cursor, shoots when the trigger is held and the
        cooldown has passed, and then every bullet, the new one included,
        moves once; those that leave the field are dropped. `fired` holds
        the bullet shot this tick, if any. */
    method Update(hitsObstacle: bool, input: Input, now: int, rnd: real, m: Math)
      returns (ghost fired: seq<Bullet>)
      requires Valid()
      modifies this, Bullets
      ensures Valid() && Health == old(Health)
      ensures old(Health) <= 0 ==>
                && X == old(X) && Y == old(Y) && Angle == old(Angle)
                && lastShot == old(lastShot) && Bullets == old(Bullets) && fired == []
                && forall b :: b in old(Bullets) ==> unchanged(b)
      ensures old(Health) > 0 && hitsObstacle ==> X == old(X) && Y == old(Y)
      ensures old(Health) > 0 && !hitsObstacle ==>
                && X == old(X) + Axis(input.KeyA, input.KeyD, Speed(input))
                && Y == old(Y) + Axis(input.KeyW, input.KeyS, Speed(input))
      ensures old(Health) > 0 ==>
                && Angle == Aim(m, input, X, Y)
                && lastShot == (if Fires(input, now, old(lastShot)) then now else old(lastShot))
                && |fired| == (if Fires(input, now, old(lastShot)) then 1 else 0)
      ensures fired != [] ==>
                var b := fired[0];
                && fresh(b) && b.OwnerID == ID && b.Velocity == BulletSpeed
                && b.Direction == Angle + Recoil(rnd)
                && PositionOf(b) == Shifted(NewRay(m, X, Y, BulletSpeed, b.Direction), StepX(m, b), StepY(m, b))
      ensures old(Health) > 0 ==>
                && (forall b :: b in old(Bullets) ==> PositionOf(b) == old(MovedOnce(m, b)))
                && Bullets == old(Survivors(m, Bullets)) + (if fired != [] && !fired[0].OutOfBounds(FieldWidth, FieldHeight) then fired else [])
                && forall b :: b in Bullets ==> !b.OutOfBounds(FieldWidth, FieldHeight)
    {
      fired := [];
      if Health <= 0 {
        return;
      }
      Steer(hitsObstacle, input, m);
      fired := FireAndSweep(input, now, rnd, m);
    }

    /** The bullet part of Update: maybe one shot, then the sweep that moves
        every bullet once and drops those out of the field. */
    method FireAndSweep(input: Input, now: int, rnd: real, m: Math) returns (ghost fired: seq<Bullet>)
      requires Valid()
      modifies this, Bullets
      ensures Valid()
      ensures X == old(X) && Y == old(Y) && Angle == old(Angle) && Health == old(Health)
      ensures lastShot == (if Fires(input, now, old(lastShot)) then now else old(lastShot))
      ensures |fired| == (if Fires(input, now, old(lastShot)) then 1 else 0)
      ensures fired != [] ==>
                var b := fired[0];
                && fresh(b) && b.OwnerID == ID && b.Velocity == BulletSpeed
                && b.Direction == Angle + Recoil(rnd)
                && PositionOf(b) == Shifted(NewRay(m, X, Y, BulletSpeed, b.Direction), StepX(m, b), StepY(m, b))
      ensures forall b :: b in old(Bullets) ==> PositionOf(b) == old(MovedOnce(m, b))
      ensures Bullets == old(Survivors(m, Bullets)) + (if fired != [] && !fired[0].OutOfBounds(FieldWidth, FieldHeight) then fired else [])
      ensures forall b :: b in Bullets ==> !b.OutOfBounds(FieldWidth, FieldHeight)
    {
      fired := ShootIfReady(input, now, rnd, m);
      ghost var before := old(Bullets);
      assert Survivors(m, Bullets) == old(Survivors(m, Bullets)) + Survivors(m, fired) by {
        SurvivorsAppend(m, before, fired);
      }
      ghost var next: Position, kept: seq<Bullet>;
      if fired != [] {
        var b := fired[0];
        assert fired == [b];
        SurvivorsOfOne(m, b);
        next, kept := MovedOnce(m, b), Survivors(m, fired);
        assert next == Shifted(NewRay(m, X, Y, BulletSpeed, b.Direction), StepX(m, b), StepY(m, b));
      }
      MoveBullets(m);
      if fired != [] {
        var b := fired[0];
        assert PositionOf(b) == next;
        assert kept == (if b.OutOfBounds(FieldWidth, FieldHeight) then [] else [b]);
      }
    }

    /** The movement and aiming part of Update. */
    method Steer(hitsObstacle: bool, input: Input, m: Math)
      modifies this
      ensures hitsObstacle ==> X == old(X) && Y == old(Y)
      ensures !hitsObstacle ==>
                && X == old(X) + Axis(input.KeyA, input.KeyD, Speed(input))
                && Y == old(Y) + Axis(input.KeyW, input.KeyS, Speed(input))
      ensures Angle == Aim(m, input, X, Y)
      ensures Health == old(Health) && lastShot == old(lastShot) && Bullets == old(Bullets)
    {
      var moveX, moveY := 0.0, 0.0;
      var movementSpeed := PlayerSpeed;
      if input.KeyShiftLeft {
        movementSpeed := movementSpeed * PlayerSprintSpeedFactor;
      }
      if input.KeyW {
        moveY := moveY - movementSpeed;
      }
      if input.KeyS {
        moveY := moveY + movementSpeed;
      }
      if input.KeyA {
        moveX := moveX - movementSpeed;
      }
      if input.KeyD {
        moveX := moveX + movementSpeed;
      }

      X := X + moveX;
      if hitsObstacle {
        X := X - moveX;
      }
      Y := Y + moveY;
      if hitsObstacle {
        Y := Y - moveY;
      }

      Angle := Aim(m, input, X, Y);
    }

    /** The shooting part of Update: one shot when fire is held and the
        cooldown has passed, which also restarts the cooldown. */
    method ShootIfReady(input: Input, now: int, rnd: real, m: Math) returns (ghost fired: seq<Bullet>)
      requires Valid()
      modifies this
      ensures Valid() && Bullets == old(Bullets) + fired
      ensures |fired| == (if Fires(input, now, old(lastShot)) then 1 else 0)
      ensures lastShot == (if Fires(input, now, old(lastShot)) then now else old(lastShot))
      ensures fired != [] ==>
                var b := fired[0];
                && fresh(b) && b.OwnerID == ID && b.Velocity == BulletSpeed
                && b.Direction == Angle + Recoil(rnd)
                && b.Line() == NewRay(m, X, Y, BulletSpeed, b.Direction)
      ensures X == old(X) && Y == old(Y) && Angle == old(Angle) && Health == old(Health)
    {
      fired := [];
      if input.MouseLeft && now - lastShot > ShootCooldown {
        Shoot(m, rnd);
        fired := [Bullets[|old(Bullets)|]];
        assert Bullets == old(Bullets) + fired;
        lastShot := now;
      }
    }

    /** The bullet sweep of Update: every bullet moves once and those that
        left the field are dropped. */
    method MoveBullets(m: Math)
      requires Valid()
      modifies this, Bullets
      ensures Valid() && Bullets == old(Survivors(m, Bullets))
      ensures forall b :: b in old(Bullets) ==> PositionOf(b) == old(MovedOnce(m, b))
      ensures forall b :: b in Bullets ==> !b.OutOfBounds(FieldWidth, FieldHeight)
      ensures X == old(X) && Y == old(Y) && Angle == old(Angle)
      ensures Health == old(Health) && lastShot == old(lastShot)
    {
      ghost var all := Bullets;
      ghost var survivors := Survivors(m, all);
      assert Distinct(survivors) by {
        SurvivorsDistinct(m, all);
      }
      assert forall j :: 0 <= j < |survivors| ==>
               survivors[j] in all && InBox(MovedOnce(m, survivors[j]).X, MovedOnce(m, survivors[j]).Y, FieldWidth, FieldHeight) by {
        SurvivorsMembers(m, all);
      }
      var bullets := Sweep(m, Bullets);
      Bullets := bullets;
      forall j | 0 <= j < |bullets|
        ensures !bullets[j].OutOfBounds(FieldWidth, FieldHeight)
      {
        var k :| 0 <= k < |all| && all[k] == bullets[j];
        assert PositionOf(all[k]) == old(MovedOnce(m, all[k]));
      }
    }
  }

  /** The loop of the sweep, from the last bullet to the first: each bullet
      moves once and is cut out of the list if it is then out of bounds. */
  method Sweep(m: Math, all: seq<Bullet>) returns (bullets: seq<Bullet>)
    requires Distinct(all)
    modifies set b | b in all
    ensures bullets == old(Survivors(m, all))
    ensures forall k :: 0 <= k < |all| ==> PositionOf(all[k]) == old(MovedOnce(m, all[k]))
  {
    bullets := all;
    ghost var kept: seq<Bullet> := [];
    var i := |bullets| - 1;
    assert bullets == all[..i + 1] + kept;
    while i >= 0
      invariant -1 <= i < |all|
      invariant bullets == all[..i + 1] + kept
      invariant kept == old(Survivors(m, all[i + 1..]))
      invariant forall k :: 0 <= k <= i ==> unchanged(all[k])
      invariant forall k :: i < k < |all| ==> PositionOf(all[k]) == old(MovedOnce(m, all[k]))
      decreases i
    {
      var bullet := bullets[i];
      assert bullet == all[i];
      bullet.Update(m);
      assert all[i..][0] == bullet && all[i..][1..] == all[i + 1..];
      if bullet.OutOfBounds(FieldWidth, FieldHeight) {
        CutOut(all, kept, i);
        bullets := bullets[..i] + bullets[i + 1..];
      } else {
        KeepIn(all, kept, i);
        kept := [bullet] + kept;
      }
      i := i - 1;
    }
    assert all[..0] == [] && all[0..] == all;
  }

  /** Cutting element i out of a[..i + 1] + k leaves a[..i] + k. */
  lemma CutOut<T>(a: seq<T>, k: seq<T>, i: int)
    requires 0 <= i < |a|
    ensures var s := a[..i + 1] + k; s[..i] + s[i + 1..] == a[..i] + k
  {
    var s := a[..i + 1] + k;
    assert s[..i] == a[..i];
    assert s[i + 1..] == k;
  }

  /** Keeping element i: a[..i + 1] + k is a[..i] + ([a[i]] + k). */
  lemma KeepIn<T>(a: seq<T>, k: seq<T>, i: int)
    requires 0 <= i < |a|
    ensures a[..i + 1] + k == a[..i] + ([a[i]] + k)
  {
    assert a[..i + 1] == a[..i] + [a[i]];
  }

  /** A ray's ends shifted by (dx, dy). */
  function Shifted(l: Geometry.Line, dx: real, dy: real): Position
  {
    Position(l.X1 + dx, l.Y1 + dy, l.X2 + dx, l.Y2 + dy)
  }

  /** A shot ends BulletSpeed away from where it starts, along its direction. */
  lemma ShotLength(m: Math, b: Bullet)
    requires m.Cos(b.Direction) * m.Cos(b.Direction) + m.Sin(b.Direction) * m.Sin(b.Direction) == 1.0
    requires b.Velocity == BulletSpeed && b.Line() == NewRay(m, b.X, b.Y, BulletSpeed, b.Direction)
    ensures SquaredLength(b.Line()) == BulletSpeed * BulletSpeed
  {
    NewRayLength(m, b.X, b.Y, BulletSpeed, b.Direction);
  }
}
