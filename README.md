# A verified model of the shooter's game core

This project models the client side of a small networked top-down
shooter written in Go. The model covers four parts:

- **Geometry** (`game/objects.go`): line segments, rays, rectangles, the
  segment intersection test and the vertex list of an object.
- **Entities** (`player/player.go`): the `Player` and `Bullet` classes.
  A player is steered by key state and aims at the cursor. It fires with
  a cooldown and random recoil, and moves its bullets while dropping the
  ones that leave the 1600 x 900 field.
- **Obstacles and visibility** (`main.go`): the circle–rectangle
  collision test, and `castRays`. `castRays` casts two probes past every
  object vertex, keeps the nearest hit of each probe and sorts the rays
  by angle.
- **Client** (`main.go`): the `Game` tick. It tests the local player
  against the obstacles, updates the player, runs hit detection against
  every live remote player and then reports the player's state. It also
  models how the event listener merges a decoded `PlayerUpdate` or
  `PlayerHit` into the game's state.

Go's `float64` is modelled as `real`. `math.Cos`, `math.Sin`,
`math.Atan2` and `math.Hypot` are fields of a `Math` value that every
caller passes in, so no property of trigonometry is assumed. The same
goes for key state, the cursor, the clock (integer nanoseconds) and the
random draw: each is a parameter of the tick.

Some behaviour is modelled as written:

- The tick tests the obstacles at the player's position *before* the
  move. A blocked move is therefore reverted only when the player
  already overlapped an obstacle.
- An incoming hit clamps a remote player's health at 0, but it lowers
  the local player's health without clamping.
- A bullet hit costs the target 50 health, but the hit event reports a
  damage of 20.

Contracts and lemmas state each of these: `Client.Game.Update` and
`Client.StepIntoObstacle` the first, `Client.LocalHealthUnclamped` the
second, and `Client.Game.Strike` and `Client.TurnsHits` the third.

## Model

| member | source | states |
|---|---|---|
| Geometry.NewRay | game/objects.go:11-18 | the ray starts at the given point |
| Geometry.NewRayLength | game/objects.go:11-18 | when cos²+sin² = 1 the ray's squared length is length² |
| Geometry.Angle | game/objects.go:20-22 | no contract of its own: the direction of a segment, atan2 of its extent; what it promises is stated by AngleOfTranslation |
| Geometry.AngleOfTranslation | game/objects.go:20-22 | a segment's angle does not change when both ends are translated by the same offset |
| Geometry.Rect | game/objects.go:24-31 | exactly four walls that form a closed chain (each end is the next start, the last end is the first start), starting at (x, y) through the corners (x, y+h), (x+w, y+h), (x+w, y) |
| Geometry.Intersection | game/objects.go:33-56 | a zero denominator (parallel or collinear segments) is never a hit; a miss returns (0, 0) |
| Geometry.IntersectionOnBoth | game/objects.go:43-55 | a hit has a non-zero denominator and its point lies on both segments at parameters t, u in [0, 1] |
| Geometry.IntersectionPoint | game/objects.go:43-55 | a hit has t and u in [0, 1] with both ends included, and its point is l1's start plus t times l1's direction |
| Geometry.SolutionOnBoth | game/objects.go:35-55 | with a non-zero denominator, the point at t on l1 equals the point at u on l2 |
| Geometry.IntersectionFindsCommonPoint | game/objects.go:33-56 | completeness: if two non-parallel segments share a point at parameters in [0, 1], Intersection returns that point with true |
| Geometry.IntersectionSymmetric | game/objects.go:33-56 | whether two segments intersect does not depend on their order |
| Geometry.IntersectsSwapped | game/objects.go:33-56 | a hit of l1 on l2 is a hit of l2 on l1 |
| Geometry.CollinearOverlapIsNoHit | game/objects.go:39-41 | example: two particular overlapping collinear segments are reported as not intersecting (the general fact is Intersection's zero-denominator clause) |
| Geometry.Ends | game/objects.go:66-68 | one vertex per wall: the wall's end, in order |
| Geometry.PointsOf | game/objects.go:62-74 | for non-empty walls: the first len(walls) vertices are the walls' ends; the first wall's start is appended as vertex len(walls), giving len+1 vertices, iff both its x and its y differ from the last end |
| Geometry.Points | game/objects.go:62-74 | the loop builds exactly PointsOf(walls) |
| Geometry.ClosedChainPoints | game/objects.go:69-72 | a closed chain gets no extra vertex |
| Geometry.RectPoints | game/objects.go:62-74 | a Rect yields exactly its four corners |
| Geometry.OpenChainStartDropped | game/objects.go:69-72 | example: a particular open chain whose start shares an x with its last end loses that start (the general fact is PointsOf's if-and-only-if) |
| Obstacles.CircleRectCollision | main.go:83-89 | no contract of its own: the squared distance from the centre to the clamped point is strictly below radius²; CollisionIffOverlap and ClosestIsNearest state what it means |
| Obstacles.CollidesWithObstacles | main.go:74-81 | true iff some obstacle collides with the circle, so an empty list is false |
| Obstacles.ClampIsNearest | main.go:84-85 | the clamped coordinate lies in the interval and is at least as close as any point of it |
| Obstacles.ClosestIsNearest | main.go:83-89 | the clamped point lies in the rectangle and is the point of the rectangle nearest the centre |
| Obstacles.CollisionIffOverlap | main.go:83-89 | a collision happens iff some point of the rectangle is strictly closer than the radius |
| Obstacles.TouchingIsNoCollision | main.go:88 | example: a particular circle that exactly touches a rectangle does not collide (the general fact is the strict comparison in CircleRectCollision) |
| Entities.Bullet.constructor | player/player.go:243-251 | each field holds the given value |
| Entities.Bullet.Update | player/player.go:255-262 | the bullet moves by one step: both ends shift by (cos d * v, sin d * v) |
| Entities.Bullet.OutOfBounds | player/player.go:264-266 | true iff the start lies outside the closed box [0, w] x [0, h] |
| Entities.Bullet.Line | player/player.go:268-275 | the segment from the bullet's start to its end |
| Entities.HitBoxAt | player/player.go:59-69 | the axis-aligned rectangle centred on (x, y) whose width and height are 0.25 times the sprite size: four walls in a closed chain through the corners (x-w/2, y-h/2), (x-w/2, y+h/2), (x+w/2, y+h/2), (x+w/2, y-h/2) |
| Entities.MovedOnceKeepsShape | player/player.go:255-262 | for any trigonometry, a move translates both ends by the same offset and keeps the segment's extent |
| Entities.MovedOnceDistance | player/player.go:255-262 | when cos² + sin² = 1 at the bullet's direction, a move covers a distance equal to the velocity |
| Entities.SurvivorsMembers | player/player.go:204-210 | a bullet survives iff it was present and its moved start is inside the 1600 x 900 field |
| Entities.SurvivorsOfOne | player/player.go:204-210 | a single bullet survives iff its moved start is in the field |
| Entities.SurvivorsAppend | player/player.go:204-210 | survival is decided per bullet, so the survivors of a concatenation are the concatenation of the survivors |
| Entities.SurvivorsDistinct | player/player.go:208 | removal keeps distinct bullets distinct |
| Entities.Speed | player/player.go:163-167 | the speed is 1.0, or 1.7 exactly when left shift is held |
| Entities.AxisStep | player/player.go:169-180 | each axis moves by -s, 0 or +s; opposite keys cancel; the move is positive iff only the positive key is held |
| Entities.Axis | player/player.go:169-180 | the two keys of one axis: none or both give 0, only the negative one gives -speed, only the positive one gives +speed |
| Entities.Aim | player/player.go:194-196 | no contract of its own: atan2 from the given position to the cursor; Player.Steer, Player.Update and Game.Update state that the new angle is this |
| Entities.Fires | player/player.go:199 | no contract of its own: fire is held and strictly more than ShootCooldown (200 ms) has passed since the last shot; Player.ShootIfReady and Player.Update state the shot and the lastShot reset by it |
| Entities.Recoil | player/player.go:242 | a uniform draw in [0, 1) gives a recoil in [-0.05, 0.05) |
| Entities.Player.constructor | player/player.go:71-82 | NewPlayer: the given id and position, angle 0, health 100, no bullets, never shot |
| Entities.Player.HitBox | player/player.go:59-69 | exactly HitBoxAt at the player's position: the axis-aligned rectangle centred on the player, with sides 0.25 times the sprite size, all four corners stated |
| Entities.Player.Shoot | player/player.go:241-253 | appends exactly one fresh bullet and leaves the others in place; the new bullet is owned by the player, has speed 80 and direction angle + recoil, and its line is the 80-long ray from the player |
| Entities.Player.Update | player/player.go:157-211 | a dead player changes nothing; otherwise the move is undone exactly when an obstacle is hit, the angle aims at the cursor, a shot fires and lastShot resets iff fire is held past the cooldown, every old bullet moves one step, the bullets left are the in-field survivors in order followed by the new shot if it is in the field, and none is out of bounds |
| Entities.Player.Steer | player/player.go:162-196 | moves by the key axes unless an obstacle is hit, then aims at the cursor |
| Entities.Player.ShootIfReady | player/player.go:198-202 | fires exactly one bullet and sets lastShot to now iff fire is held past the cooldown |
| Entities.Player.FireAndSweep | player/player.go:198-210 | the shot (if any) followed by the bullet sweep: old bullets move once, the survivors keep their order, and the new shot is kept iff its moved start is in the field |
| Entities.Player.MoveBullets | player/player.go:204-210 | every bullet moves once; those still in the field remain in order; none left is out of bounds |
| Entities.Sweep | player/player.go:205-210 | the backwards loop leaves exactly the survivors in their order and moves every bullet once |
| Entities.ShotLength | player/player.go:247-250 | a freshly shot bullet's line is BulletSpeed long |
| Visibility.WallHits | main.go:108-112 | at most one hit per wall |
| Visibility.WallHitsMembers | main.go:108-112 | a point is collected iff the ray intersects one of the walls there |
| Visibility.ObjectHitsMembers | main.go:106-113 | a point is collected iff the ray intersects some wall of some object there |
| Visibility.CollectHits | main.go:103-113 | the nested loops collect exactly AllHits |
| Visibility.NearestUpTo | main.go:116-124 | the index is within the scanned prefix |
| Visibility.Nearest | main.go:116-124 | the index is within the points |
| Visibility.NearestUpToIsFirstMinimum | main.go:116-124 | the chosen point is no farther than any other, and every earlier point is strictly farther (the first minimum wins ties) |
| Visibility.NearestIndex | main.go:115-124 | the scan returns the first nearest index, or 0 when there are no points |
| Visibility.Probe | main.go:103-127 | at most one ray, starting at the centre; ProbeIsNearestHit states which |
| Visibility.ProbeIsNearestHit | main.go:103-127 | a probe adds a ray iff it hits some wall; that ray starts at the centre and ends at a hit point no farther than any other hit |
| Visibility.Fan | main.go:102-128 | at most one ray per offset, each from the centre |
| Visibility.VertexRays | main.go:98-129 | at most two rays per vertex, each from the centre |
| Visibility.ObjectRays | main.go:96-130 | at most twice the total vertex count, each ray from the centre |
| Visibility.InsertByAngle | main.go:131-133 | insertion into a list sorted by angle stays sorted and adds exactly the one ray |
| Visibility.SortByAngle | main.go:131-133 | the result is sorted by ascending angle and is a permutation of the input |
| Visibility.CastRays | main.go:91-135 | the rays, sorted by angle, a permutation of the unsorted casts, at most twice the vertex count, all starting at the centre |
| Visibility.SortKeepsStarts | main.go:131-133 | sorting keeps every ray starting at the centre |
| Visibility.CastAll | main.go:96-130 | the loop over objects builds exactly the unsorted ray list |
| Visibility.CastPast | main.go:98-129 | the loop over vertices appends exactly the vertex rays |
| Visibility.CastFan | main.go:102-128 | the loop over the two offsets appends exactly the fan of probes |
| Visibility.FanStep | main.go:102-128 | one more offset appends that offset's probe |
| Client.Clamp | main.go:167-169 | the result is non-negative, never below the input, and equal to it when the input is non-negative |
| Client.HitsBox | main.go:163-174 | a bullet hits iff some hitbox wall intersects its line |
| Client.CrossesIgnoresOrder | main.go:156-163 | the hit test does not depend on wall order, so the hitbox sort cannot change the outcome |
| Client.ShotsOf | main.go:164 | each bullet's recorded line is its Line() |
| Client.Missed | main.go:154-175 | the bullets left are no more than before |
| Client.MissedMembers | main.go:154-175 | a bullet is left iff it was there and its line crosses no hitbox |
| Client.MissedSubset | main.go:171 | hit detection only removes bullets |
| Client.MissedDistinct | main.go:171 | removal keeps distinct bullets distinct |
| Client.MissedThenMissed | main.go:150-176 | sweeping one target after the others equals sweeping against all the boxes at once |
| Client.MissedNoBox | main.go:151-153 | a skipped target (no box) removes no bullet |
| Client.MissedStep | main.go:154-173 | the backwards loop's step: bullet i is dropped iff its line crosses the box, in front of what is already kept |
| Client.ClampStep | main.go:166-169 | n clamped hits of 50 followed by one more equal one clamped hit of 50(n+1) |
| Client.NewRecord | main.go:333-335 | a record first heard of: the update's id and position, full health, no bullets |
| Client.Merge | main.go:327-361 | keeps the local id; a hit never adds or removes a record; an update keeps the local health and adds only the update's id, unless it is the local id |
| Client.MergeKeepsFiled | main.go:332-341 | every record stays filed under its own id |
| Client.UpdateReplacesRecord | main.go:332-341 | a foreign update replaces position, angle, health and bullets wholesale and keeps the id |
| Client.UpdateIdempotent | main.go:327-341 | applying the same update twice equals applying it once |
| Client.OwnUpdateIgnored | main.go:327-329 | an update from the local id changes nothing |
| Client.UnknownHitIgnored | main.go:352-360 | a hit on an unknown remote id that is not the local id changes nothing |
| Client.HitTwice | main.go:352-357 | the same hit applied twice subtracts twice, clamped at 0 |
| Client.LocalHealthUnclamped | main.go:352-360 | a hit larger than the local health drives the local health below 0, while a remote record under the same id stays at 0 or above |
| Client.MergeKeepsOthers | main.go:327-361 | an event changes no other remote record |
| Client.HitLeavesHealthNonNegative | main.go:352-357 | a hit on a known remote player leaves its health at 0 or above, and never above its old value unless that was negative |
| Client.HitsCommute | main.go:351-361 | two hits give the same state in either order |
| Client.UpdatesCommute | main.go:331-341 | updates from different ids give the same state in either order |
| Client.Target | main.go:151 | no contract of its own: a remote record takes part in hit detection iff its health is above 0 and its id is not the local id; Box, StruckBounds and TurnsHits state the consequences |
| Client.Box | main.go:151-156 | a live foreign player has a four-wall closed hitbox; the local player and dead players have none |
| Client.Boxes | main.go:150-156 | one box per player, in the iteration order |
| Client.Struck | main.go:166-169 | the same players after the hits are counted |
| Client.StruckNothing | main.go:149-177 | no hits leave every record as it was |
| Client.StruckUntouched | main.go:150-153 | a player with no hits keeps its record |
| Client.StruckStep | main.go:163-174 | adding one target's hits changes only that target's record |
| Client.StruckBounds | main.go:150-169 | only health changes; a target ends between 0 and its old health; a dead player or the local id is unchanged |
| Client.Repeat | main.go:170 | n copies of the same hit event |
| Client.Turn | main.go:150-176 | one target's turn keeps the set of player ids |
| Client.Turns | main.go:150-176 | all targets' turns keep the set of player ids |
| Client.TurnsSnoc | main.go:150-176 | the turns of a longer prefix are one more turn |
| Client.TurnsUntouched | main.go:150-153 | a player outside the order is never changed |
| Client.TurnsBullets | main.go:149-177 | the bullets left are exactly those whose line crosses no target's hitbox, in their order |
| Client.TurnsHits | main.go:149-177 | one hit event per removed bullet; each reports damage 20 and names a live foreign player |
| Client.TurnsStruck | main.go:149-177 | each player's record loses 50 per hit event that names it, clamped at 0 |
| Client.TurnStruck | main.go:163-174 | one target's turn keeps the records equal to Struck of the hits so far |
| Client.TurnsReport | main.go:149-177 | everything hit detection promises from the starting state: the bullets left are exactly those whose line crosses no target's box (a subset, in order), one hit of 20 per bullet gone naming a target, each record struck by the hits naming it, and every non-target record unchanged |
| Client.HitEvents | main.go:170 | one hit event per hit, in order |
| Client.StepIntoObstacle | main.go:141 | example: a player at (20.5, 5) pressing A, clear of the obstacle (0, 0, 10, 10) at the test position, steps to x = 19.5 and into it, because the test is taken before the move |
| Client.Game.constructor | main.go:450-471 | the local player at the screen centre with full health and no bullets, with the given remote players and obstacles |
| Client.Game.CheckBulletCollisions | main.go:149-177 | the loop over the map order ends in exactly the state of Turns: the bullets, records and hit events that TurnsBullets, TurnsStruck and TurnsHits describe |
| Client.Game.Visit | main.go:150-176 | one remote player's turn: skipped when dead or local, otherwise struck |
| Client.Game.Strike | main.go:154-175 | the backwards loop removes exactly the bullets that cross the victim's box, emits one hit of 20 per removed bullet, and lowers the victim's health by 50 per hit, clamped at 0 |
| Client.Game.ApplyEvent | main.go:327-361 | applying a decoded event changes the game state exactly as Merge |
| Client.Game.Update | main.go:137-147 | the tick: the obstacle test is taken at the position before the move; a dead player keeps position, angle, lastShot, its bullet list and every bullet's position; a live one moves by the key axes unless that test hit, aims at the cursor, fires iff fire is held past the cooldown (the new shot starting at the player, BulletSpeed long along angle plus recoil, already moved once) and keeps the in-field survivors plus the new shot; hit detection then runs on those bullets with exactly the outcome of Turns (bullets that cross no target's box, records struck by the hits, non-targets unchanged, one hit of 20 per bullet gone naming a target); the events are those hits followed by the player's own state |
| Client.Game.Report | main.go:144-145 | hit detection then the update event: the bullets and records become those of Turns (Missed against the targets' boxes, Struck by the hits), non-targets are unchanged, each hit is one of 20 naming a target, and the events are exactly the hit events followed by the player's state |

## Left out

- Networking, JSON encoding and decoding, the listener goroutine and the
  mutex are not modelled. Each merge and each tick is one sequential
  step. `sendEvent` becomes the list of events a tick returns.
- `server/main.go` (entirely commented out) and `startServer` (a TCP
  relay) are not part of this model.
- Rendering (`Draw`, `rayVertices`, `Layout`, sprites, window setup) is
  not modelled. The sprite size enters the hitbox as two integer
  parameters.
- Key state, the cursor, the clock and `rand.Float64` are parameters.
  `time.Since(lastShot)` is `now - lastShot` in nanoseconds, with Go's
  zero time as 0.
- Trigonometry, `math.Hypot` and IEEE rounding are not modelled. The
  functions come from a `Math` parameter and arithmetic is over the
  reals, so no result is claimed to be float-exact.
- Go's `int` width is not modelled. Health is an unbounded integer.
- `UpdateOnObstacle` is not modelled because it adds zero moves and
  changes nothing. The commented-out old `Update` is dead code.
- The hard-coded NPC map, `NewObstacles` and argument parsing in `main`
  are configuration. The `Game` constructor takes the remote players and
  obstacles as parameters.
- The `sort.Slice` calls are not modelled as Go's sort.
  - In `castRays`, the sort is modelled as an insertion sort. Go's sort
    is not stable, so for rays with equal angles only some permutation
    is promised.
  - In `checkBulletCollisions`, the hitbox sort and `distance` are not
    modelled. That sort reorders a slice that is never read afterwards.
    `CrossesIgnoresOrder` shows that wall order cannot change a hit in
    any case.
- Client.Game.CheckBulletCollisions: Go iterates the map in random
  order. The order is a parameter that lists every id once.
- Client.Game.CheckBulletCollisions: remote players are value records
  that the loop replaces, not shared `*Player` pointers. In-place update
  through an alias is not modelled, and no reference to a remote player
  leaves the map.
- Client.Game.Strike: the victim's hitbox is computed once per victim,
  not once per bullet. Its walls depend only on the victim's position,
  which the loop does not change.
- Client.Missed: a bullet with no recorded line counts as a miss. The
  model never passes such a bullet.
- Client.Game.Update and Entities.Player.Update are split into helper
  methods along the source's phases. `castRays` is split the same way.
- Entities.Player.Update: for a dead player the bullets are not moved,
  as in the source. So "no bullet out of bounds" is stated only for a
  live player.
- Geometry.NewRay: the contract states only the start. The end,
  (x + length·cos a, y + length·sin a), is left to the function's
  transparent body so that the contract does not restate it;
  NewRayLength states the ray's length.
- Geometry.Points: `Object.Points` indexes the first wall and so panics
  on an object without walls. The model requires at least one wall
  (`Geometry.PointsOf`, `Geometry.Points`, and `HasWalls` in
  `Visibility.CastRays`) instead of modelling the panic.
- Client.Game.Update: the update event is marshalled to JSON when it is
  sent, so it is a copy of the bullets at that moment. The model's event
  holds references to the live `Bullet` objects, whose positions later
  ticks change. Its contents match what is sent only at the end of the
  tick that returns it.
