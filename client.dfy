// The client's game state (main.go): the local player, the remote players
// by id, the obstacles; hit detection for the local player's bullets, the
// merge of events received from the relay, and the tick that ties the
// player's update to hit detection.
module Client {
  import opened Geometry
  import opened Entities
  import Obstacles
  import Visibility

  /** Health a hit takes from its target on the shooter's screen. */
  const HitDamage: int := 50
  /** Damage written into the hit event sent to the relay. */
  const ReportedDamage: int := 20
  /** Radius of the local player in the tick's obstacle test. */
  const CollisionRadius: real := 10.0

  /** A player's state as broadcast by its own client. */
  datatype PlayerUpdate = PlayerUpdate(ID: string, X: real, Y: real, Angle: real, Health: int, Bullets: seq<Bullet>)

  /** A report that a player was shot. */
  datatype PlayerHit = PlayerHit(VictimID: string, Damage: int)

  /** An event as it arrives, already decoded. */
  datatype Event = UpdateEvent(Update: PlayerUpdate) | HitEvent(Hit: PlayerHit)

  /** Negative health is raised to 0. */
  function Clamp(h: int): (r: int)
    ensures r >= 0 && r >= h
    ensures h >= 0 ==> r == h
  {
    if h < 0 then 0 else h
  }

  // ---------------------------------------------------------------------
  // Hit detection

  /** Some wall of a hit box crosses the shot. */
  ghost predicate Crosses(walls: seq<Line>, shot: Line)
  {
    exists k :: 0 <= k < |walls| && Intersection(walls[k], shot).2
  }

  /** The scan over the hit box's walls, stopping at the first one that
      crosses the shot. */
  method HitsBox(walls: seq<Line>, shot: Line) returns (hit: bool)
    ensures hit <==> Crosses(walls, shot)
  {
    hit := false;
    for k := 0 to |walls|
      invariant !hit
      invariant forall j :: 0 <= j < k ==> !Intersection(walls[j], shot).2
    {
      var crossing := Intersection(walls[k], shot);
      if crossing.2 {
        hit := true;
        return;
      }
    }
  }

  /** Whether a shot hits a box does not depend on the order of its walls,
      so reordering the walls first cannot change the outcome. */
  lemma CrossesIgnoresOrder(a: seq<Line>, b: seq<Line>, shot: Line)
    requires multiset(a) == multiset(b)
    ensures Crosses(a, shot) <==> Crosses(b, shot)
  {
    if Crosses(a, shot) {
      CrossesCarries(a, b, shot);
    }
    if Crosses(b, shot) {
      CrossesCarries(b, a, shot);
    }
  }

  lemma CrossesCarries(a: seq<Line>, b: seq<Line>, shot: Line)
    requires multiset(a) == multiset(b)
    requires exists k :: 0 <= k < |a| && Intersection(a[k], shot).2
    ensures exists j :: 0 <= j < |b| && Intersection(b[j], shot).2
  {
    var k :| 0 <= k < |a| && Intersection(a[k], shot).2;
    assert a[k] in multiset(b);
    var j :| 0 <= j < |b| && b[j] == a[k];
  }

  /** Some box in the list crosses the shot. */
  ghost predicate CrossesAny(boxes: seq<seq<Line>>, shot: Line)
  {
    |boxes| > 0 && (CrossesAny(boxes[..|boxes| - 1], shot) || Crosses(boxes[|boxes| - 1], shot))
  }

  /** Every bullet's line, as it was when the map was taken. */
  ghost function ShotsOf(bs: seq<Bullet>): (r: map<Bullet, Line>)
    reads set b | b in bs
    ensures forall b :: b in bs ==> b in r && r[b] == b.Line()
  {
    map b | b in bs :: b.Line()
  }

  /** The line recorded for b crosses one of the boxes; a bullet with no
      recorded line crosses nothing. */
  ghost predicate Stopped(boxes: seq<seq<Line>>, shots: map<Bullet, Line>, b: Bullet)
  {
    b in shots && CrossesAny(boxes, shots[b])
  }

  /** The bullets whose line crosses none of the boxes, in their order. */
  ghost function Missed(boxes: seq<seq<Line>>, bs: seq<Bullet>, shots: map<Bullet, Line>): (r: seq<Bullet>)
    ensures |r| <= |bs|
  {
    if bs == [] then []
    else (if Stopped(boxes, shots, bs[0]) then [] else [bs[0]]) + Missed(boxes, bs[1..], shots)
  }

  /** A bullet is kept exactly when it was there and crosses no box. */
  lemma {:induction false} MissedMembers(boxes: seq<seq<Line>>, bs: seq<Bullet>, shots: map<Bullet, Line>)
    ensures forall b :: b in Missed(boxes, bs, shots) <==> b in bs && !Stopped(boxes, shots, b)
  {
    if bs != [] {
      MissedMembers(boxes, bs[1..], shots);
      assert bs == [bs[0]] + bs[1..];
    }
  }

  lemma {:induction false} MissedSubset(boxes: seq<seq<Line>>, bs: seq<Bullet>, shots: map<Bullet, Line>)
    ensures forall b :: b in Missed(boxes, bs, shots) ==> b in bs
  {
    if bs != [] {
      MissedSubset(boxes, bs[1..], shots);
    }
  }

  lemma {:induction false} MissedDistinct(boxes: seq<seq<Line>>, bs: seq<Bullet>, shots: map<Bullet, Line>)
    requires Distinct(bs)
    ensures Distinct(Missed(boxes, bs, shots))
  {
    if bs != [] {
      MissedDistinct(boxes, bs[1..], shots);
      MissedSubset(boxes, bs[1..], shots);
      assert bs[0] !in bs[1..];
    }
  }

  /** Sweeping the bullets against one more box after the others is
      sweeping them against all the boxes at once. */
  lemma {:induction false} MissedThenMissed(boxes: seq<seq<Line>>, walls: seq<Line>, bs: seq<Bullet>, shots: map<Bullet, Line>)
    ensures Missed([walls], Missed(boxes, bs, shots), shots) == Missed(boxes + [walls], bs, shots)
  {
    if bs != [] {
      MissedThenMissed(boxes, walls, bs[1..], shots);
      var b := bs[0];
      if b in shots {
        CrossesAnySnoc(boxes, walls, shots[b]);
        CrossesAnyOne(walls, shots[b]);
      }
      var rest := Missed(boxes, bs[1..], shots);
      if Stopped(boxes, shots, b) {
        assert Missed(boxes, bs, shots) == rest;
        assert Missed(boxes + [walls], bs, shots) == Missed(boxes + [walls], bs[1..], shots);
      } else {
        assert Missed(boxes, bs, shots) == [b] + rest;
        MissedCons(walls, b, rest, shots);
        assert Missed(boxes + [walls], bs, shots) ==
               (if Stopped([walls], shots, b) then [] else [b]) + Missed(boxes + [walls], bs[1..], shots);
      }
    }
  }

  lemma MissedCons(walls: seq<Line>, b: Bullet, rest: seq<Bullet>, shots: map<Bullet, Line>)
    ensures Missed([walls], [b] + rest, shots) ==
            (if Stopped([walls], shots, b) then [] else [b]) + Missed([walls], rest, shots)
  {
    assert ([b] + rest)[0] == b && ([b] + rest)[1..] == rest;
  }

  /** A box without walls stops no bullet. */
  lemma {:induction false} MissedNoBox(bs: seq<Bullet>, shots: map<Bullet, Line>)
    ensures Missed([[]], bs, shots) == bs && Missed([], bs, shots) == bs
  {
    if bs != [] {
      MissedNoBox(bs[1..], shots);
      if bs[0] in shots {
        CrossesAnyOne([], shots[bs[0]]);
      }
      assert bs == [bs[0]] + bs[1..];
    }
  }

  /** Missed against one box, unfolded once at position i. */
  lemma MissedStep(walls: seq<Line>, bs: seq<Bullet>, i: nat, shots: map<Bullet, Line>)
    requires i < |bs| && bs[i] in shots
    ensures Missed([walls], bs[i..], shots) ==
            (if Crosses(walls, shots[bs[i]]) then [] else [bs[i]]) + Missed([walls], bs[i + 1..], shots)
  {
    assert bs[i..][0] == bs[i] && bs[i..][1..] == bs[i + 1..];
    CrossesAnyOne(walls, shots[bs[i]]);
  }

  lemma CrossesAnyOne(walls: seq<Line>, shot: Line)
    ensures CrossesAny([walls], shot) <==> Crosses(walls, shot)
  {
    assert [walls][..0] == [];
  }

  lemma CrossesAnySnoc(boxes: seq<seq<Line>>, walls: seq<Line>, shot: Line)
    ensures CrossesAny(boxes + [walls], shot) <==> CrossesAny(boxes, shot) || Crosses(walls, shot)
  {
    assert (boxes + [walls])[..|boxes|] == boxes;
  }

  /** The number of hit events naming `id`. */
  function Count(hits: seq<PlayerHit>, id: string): (n: nat)
    ensures n <= |hits|
  {
    if hits == [] then 0
    else (if hits[0].VictimID == id then 1 else 0) + Count(hits[1..], id)
  }

  lemma {:induction false} CountAppend(a: seq<PlayerHit>, b: seq<PlayerHit>, id: string)
    ensures Count(a + b, id) == Count(a, id) + Count(b, id)
  {
    if a != [] {
      CountAppend(a[1..], b, id);
      assert (a + b)[0] == a[0] && (a + b)[1..] == a[1..] + b;
      assert Count(a + b, id) == (if a[0].VictimID == id then 1 else 0) + Count(a[1..] + b, id);
    } else {
      assert a + b == b;
    }
  }

  /** Hits that all name one victim count for it alone. */
  lemma {:induction false} CountSame(hits: seq<PlayerHit>, victim: string, id: string)
    requires forall k :: 0 <= k < |hits| ==> hits[k].VictimID == victim
    ensures Count(hits, id) == if id == victim then |hits| else 0
  {
    if hits != [] {
      CountSame(hits[1..], victim, id);
    }
  }

  /** Health after n hits of HitDamage each, clamped after every hit:
      one clamp at the end gives the same. */
  lemma ClampStep(h: int, n: nat)
    ensures Clamp(Clamp(h - HitDamage * n) - HitDamage) == Clamp(h - HitDamage * (n + 1))
  {
  }

  // ---------------------------------------------------------------------
  // The game

  /** A remote player as the client holds it (the fields of a Player that
      an update carries), as a value. */
  datatype Record = Record(ID: string, X: real, Y: real, Angle: real, Health: int, Bullets: seq<Bullet>)

  /** NewPlayer, for a remote player first heard of. */
  function NewRecord(id: string, x: real, y: real): (r: Record)
    ensures r.ID == id && r.X == x && r.Y == y && r.Health == MaxHealth && r.Bullets == []
  {
    Record(id, x, y, 0.0, MaxHealth, [])
  }

  /** Every record is filed under its own id. */
  ghost predicate Filed(players: map<string, Record>)
  {
    forall id :: id in players ==> players[id].ID == id
  }

  /** What the merge reads and writes: the local player's id and health and
      the remote players' records by id. */
  datatype Board = Board(LocalID: string, LocalHealth: int, Remote: map<string, Record>)

  /** Applies one decoded event. An update from the local player's own id
      is ignored; any other update creates its record if missing and then
      replaces all of its fields but the id. A hit lowers a known remote
      victim's health, clamped at 0, and the local player's health,
      unclamped, when the victim is the local id; an unknown id gains no
      record. */
  function Merge(b: Board, e: Event): (r: Board)
    ensures r.LocalID == b.LocalID
    ensures e.HitEvent? ==> r.Remote.Keys == b.Remote.Keys
    ensures e.UpdateEvent? ==> r.LocalHealth == b.LocalHealth
    ensures e.UpdateEvent? ==>
              r.Remote.Keys == if e.Update.ID == b.LocalID then b.Remote.Keys else b.Remote.Keys + {e.Update.ID}
  {
    match e
    case UpdateEvent(u) =>
      if u.ID == b.LocalID then b
      else
        var p := if u.ID in b.Remote then b.Remote[u.ID] else NewRecord(u.ID, u.X, u.Y);
        b.(Remote := b.Remote[u.ID := p.(X := u.X, Y := u.Y, Angle := u.Angle, Health := u.Health, Bullets := u.Bullets)])
    case HitEvent(h) =>
      var remote :=
        if h.VictimID in b.Remote then
          var p := b.Remote[h.VictimID];
          b.Remote[h.VictimID := p.(Health := Clamp(p.Health - h.Damage))]
        else b.Remote;
      var local := if h.VictimID == b.LocalID then b.LocalHealth - h.Damage else b.LocalHealth;
      Board(b.LocalID, local, remote)
  }

  /** Records stay filed under their own ids whatever arrives. */
  lemma MergeKeepsFiled(b: Board, e: Event)
    requires Filed(b.Remote)
    ensures Filed(Merge(b, e).Remote)
  {
  }

  /** An update for another id leaves that id's record holding what the
      update says, under its own id. */
  lemma UpdateReplacesRecord(b: Board, u: PlayerUpdate)
    requires u.ID != b.LocalID && Filed(b.Remote)
    ensures var r := Merge(b, UpdateEvent(u));
            && u.ID in r.Remote
            && r.Remote[u.ID] == Record(u.ID, u.X, u.Y, u.Angle, u.Health, u.Bullets)
  {
  }

  /** Applying the same update twice is applying it once. */
  lemma UpdateIdempotent(b: Board, u: PlayerUpdate)
    ensures Merge(Merge(b, UpdateEvent(u)), UpdateEvent(u)) == Merge(b, UpdateEvent(u))
  {
    if u.ID != b.LocalID {
      var once := Merge(b, UpdateEvent(u));
      assert Merge(once, UpdateEvent(u)).Remote == once.Remote;
    }
  }

  /** An update from the local player's own id changes nothing. */
  lemma OwnUpdateIgnored(b: Board, u: PlayerUpdate)
    requires u.ID == b.LocalID
    ensures Merge(b, UpdateEvent(u)) == b
  {
  }

  /** A hit on an id nobody holds changes nothing. */
  lemma UnknownHitIgnored(b: Board, h: PlayerHit)
    requires h.VictimID !in b.Remote && h.VictimID != b.LocalID
    ensures Merge(b, HitEvent(h)) == b
  {
  }

  /** The same hit applied twice subtracts its damage twice: from the local
      player with no floor, from a remote player clamped at 0. */
  lemma HitTwice(b: Board, h: PlayerHit)
    requires h.Damage >= 0
    ensures var r := Merge(Merge(b, HitEvent(h)), HitEvent(h));
            && r.LocalHealth == (if h.VictimID == b.LocalID then b.LocalHealth - 2 * h.Damage else b.LocalHealth)
            && (h.VictimID in b.Remote ==>
                  r.Remote[h.VictimID] == b.Remote[h.VictimID].(Health := Clamp(b.Remote[h.VictimID].Health - 2 * h.Damage)))
  {
  }

  /** The local player's health is never clamped: a large enough hit takes
      it below 0, where a remote player's would stop at 0. */
  lemma LocalHealthUnclamped(b: Board, h: PlayerHit)
    requires h.VictimID == b.LocalID && h.Damage > b.LocalHealth
    ensures Merge(b, HitEvent(h)).LocalHealth < 0
    ensures h.VictimID in b.Remote ==> Merge(b, HitEvent(h)).Remote[h.VictimID].Health >= 0
  {
  }

  /** An event leaves every record other than the one it names as it was. */
  lemma MergeKeepsOthers(b: Board, e: Event, id: string)
    requires id in b.Remote
    requires id != (if e.UpdateEvent? then e.Update.ID else e.Hit.VictimID)
    ensures id in Merge(b, e).Remote && Merge(b, e).Remote[id] == b.Remote[id]
  {
  }

  /** A hit of non-negative damage never leaves a remote player with
      negative health, whatever it had. */
  lemma HitLeavesHealthNonNegative(b: Board, h: PlayerHit)
    requires h.VictimID in b.Remote && h.Damage >= 0
    ensures Merge(b, HitEvent(h)).Remote[h.VictimID].Health >= 0
    ensures Merge(b, HitEvent(h)).Remote[h.VictimID].Health <= b.Remote[h.VictimID].Health || b.Remote[h.VictimID].Health < 0
  {
  }

  /** Hits of non-negative damage reach the same board in either order. */
  lemma HitsCommute(b: Board, h1: PlayerHit, h2: PlayerHit)
    requires h1.Damage >= 0 && h2.Damage >= 0
    ensures Merge(Merge(b, HitEvent(h1)), HitEvent(h2)) == Merge(Merge(b, HitEvent(h2)), HitEvent(h1))
  {
    var v1, v2 := h1.VictimID, h2.VictimID;
    if v1 != v2 && v1 in b.Remote && v2 in b.Remote {
      var p1, p2 := b.Remote[v1], b.Remote[v2];
      var q1, q2 := p1.(Health := Clamp(p1.Health - h1.Damage)), p2.(Health := Clamp(p2.Health - h2.Damage));
      assert b.Remote[v1 := q1][v2 := q2] == b.Remote[v2 := q2][v1 := q1];
    }
  }

  /** Updates for different ids reach the same board in either order. */
  lemma UpdatesCommute(b: Board, u1: PlayerUpdate, u2: PlayerUpdate)
    requires u1.ID != u2.ID
    ensures Merge(Merge(b, UpdateEvent(u1)), UpdateEvent(u2)) == Merge(Merge(b, UpdateEvent(u2)), UpdateEvent(u1))
  {
    if u1.ID != b.LocalID && u2.ID != b.LocalID {
      var p1 := if u1.ID in b.Remote then b.Remote[u1.ID] else NewRecord(u1.ID, u1.X, u1.Y);
      var p2 := if u2.ID in b.Remote then b.Remote[u2.ID] else NewRecord(u2.ID, u2.X, u2.Y);
      var r1 := p1.(X := u1.X, Y := u1.Y, Angle := u1.Angle, Health := u1.Health, Bullets := u1.Bullets);
      var r2 := p2.(X := u2.X, Y := u2.Y, Angle := u2.Angle, Health := u2.Health, Bullets := u2.Bullets);
      assert b.Remote[u1.ID := r1][u2.ID := r2] == b.Remote[u2.ID := r2][u1.ID := r1];
    }
  }

  // ---------------------------------------------------------------------
  // Hit detection against the remote players, as values

  /** A remote player the local bullets can hit: alive, and not carrying the
      local id. */
  predicate Target(r: Record, localID: string)
  {
    r.Health > 0 && r.ID != localID
  }

  /** The hit box of a target; no walls for anyone else. */
  function Box(r: Record, localID: string, spriteDx: int, spriteDy: int): (walls: seq<Line>)
    ensures Target(r, localID) ==> |walls| == 4 && ClosedChain(walls)
    ensures !Target(r, localID) ==> walls == []
  {
    if Target(r, localID) then HitBoxAt(r.X, r.Y, spriteDx, spriteDy).Walls else []
  }

  /** The box of each id in `order`, in that order. */
  function Boxes(players: map<string, Record>, localID: string, order: seq<string>, spriteDx: int, spriteDy: int): (r: seq<seq<Line>>)
    requires forall t :: 0 <= t < |order| ==> order[t] in players
    ensures |r| == |order|
    ensures forall t :: 0 <= t < |order| ==> r[t] == Box(players[order[t]], localID, spriteDx, spriteDy)
  {
    if order == [] then []
    else Boxes(players, localID, order[..|order| - 1], spriteDx, spriteDy) + [Box(players[order[|order| - 1]], localID, spriteDx, spriteDy)]
  }

  /** A record after n hits: a target loses HitDamage per hit, clamped at
      0; anyone else is as it was. */
  function HitRecord(r: Record, localID: string, n: nat): Record
  {
    if Target(r, localID) then r.(Health := Clamp(r.Health - HitDamage * n)) else r
  }

  /** The records after the hits, each hit by the hits naming it. */
  function Struck(players: map<string, Record>, localID: string, hits: seq<PlayerHit>): (r: map<string, Record>)
    ensures r.Keys == players.Keys
  {
    map id | id in players :: HitRecord(players[id], localID, Count(hits, id))
  }

  /** No hits, no change. */
  lemma StruckNothing(players: map<string, Record>, localID: string)
    ensures Struck(players, localID, []) == players
  {
    assert forall id :: id in players ==> Struck(players, localID, [])[id] == players[id];
  }

  /** A record no hit names is as it was. */
  lemma StruckUntouched(players: map<string, Record>, localID: string, hits: seq<PlayerHit>, id: string)
    requires id in players && Count(hits, id) == 0
    ensures Struck(players, localID, hits)[id] == players[id]
  {
  }

  /** One more target's hits, all naming it, change its record alone. */
  lemma StruckStep(players: map<string, Record>, localID: string, hits: seq<PlayerHit>, id: string, more: seq<PlayerHit>)
    requires id in players && Count(hits, id) == 0
    requires forall k :: 0 <= k < |more| ==> more[k].VictimID == id
    ensures Struck(players, localID, hits + more) ==
            Struck(players, localID, hits)[id := HitRecord(players[id], localID, |more|)]
  {
    var l, r := Struck(players, localID, hits + more), Struck(players, localID, hits)[id := HitRecord(players[id], localID, |more|)];
    forall x | x in players
      ensures l[x] == r[x]
    {
      CountAppend(hits, more, x);
      CountSame(more, id, x);
    }
    assert l.Keys == r.Keys;
  }

  /** Hits never raise a record's health, never take a target's below 0,
      and leave everything but health alone. */
  lemma StruckBounds(players: map<string, Record>, localID: string, hits: seq<PlayerHit>, id: string)
    requires id in players
    ensures var before, after := players[id], Struck(players, localID, hits)[id];
            && after == before.(Health := after.Health)
            && (Target(before, localID) ==> 0 <= after.Health <= before.Health)
            && (!Target(before, localID) ==> after == before)
            && (Count(hits, id) == 0 ==> after == before)
  {
  }

  /** Where checkBulletCollisions stands: the local bullets still flying,
      the remote records and the hits reported so far. */
  datatype Tally = Tally(Bullets: seq<Bullet>, Players: map<string, Record>, Hits: seq<PlayerHit>)

  /** n copies of one hit. */
  function Repeat(h: PlayerHit, n: nat): (r: seq<PlayerHit>)
    ensures |r| == n && forall k :: 0 <= k < n ==> r[k] == h
  {
    seq(n, _ => h)
  }

  /** One remote player's turn in checkBulletCollisions: skipped unless it
      is a target; otherwise every bullet whose line crosses its hit box is
      gone, it loses HitDamage per such bullet (clamped at 0), and each such
      bullet is reported as one hit of ReportedDamage on it. */
  ghost function Turn(s: Tally, id: string, localID: string, spriteDx: int, spriteDy: int, shots: map<Bullet, Line>): (r: Tally)
    requires id in s.Players
    ensures r.Players.Keys == s.Players.Keys
  {
    var p := s.Players[id];
    if !Target(p, localID) then s
    else
      var kept := Missed([Box(p, localID, spriteDx, spriteDy)], s.Bullets, shots);
      var n := |s.Bullets| - |kept|;
      Tally(kept, s.Players[id := p.(Health := Clamp(p.Health - HitDamage * n))],
            s.Hits + Repeat(PlayerHit(p.ID, ReportedDamage), n))
  }

  /** The turns of the remote players in `order`, one after the other. */
  ghost function Turns(s: Tally, order: seq<string>, localID: string, spriteDx: int, spriteDy: int, shots: map<Bullet, Line>): (r: Tally)
    requires forall t :: 0 <= t < |order| ==> order[t] in s.Players
    ensures r.Players.Keys == s.Players.Keys
  {
    if order == [] then s
    else Turn(Turns(s, order[..|order| - 1], localID, spriteDx, spriteDy, shots), order[|order| - 1], localID, spriteDx, spriteDy, shots)
  }

  /** Unfolds Turns once at the end of a prefix of `order`. */
  lemma TurnsSnoc(s: Tally, order: seq<string>, t: nat, localID: string, spriteDx: int, spriteDy: int, shots: map<Bullet, Line>)
    requires t < |order| && forall j :: 0 <= j < |order| ==> order[j] in s.Players
    ensures Turns(s, order[..t + 1], localID, spriteDx, spriteDy, shots) ==
            Turn(Turns(s, order[..t], localID, spriteDx, spriteDy, shots), order[t], localID, spriteDx, spriteDy, shots)
  {
    assert order[..t + 1][..t] == order[..t];
  }

  /** A record whose id has not had its turn is as it was. */
  lemma {:induction false} TurnsUntouched(s: Tally, order: seq<string>, localID: string, spriteDx: int, spriteDy: int,
                                          shots: map<Bullet, Line>, id: string)
    requires forall t :: 0 <= t < |order| ==> order[t] in s.Players
    requires id in s.Players && id !in order
    ensures Turns(s, order, localID, spriteDx, spriteDy, shots).Players[id] == s.Players[id]
  {
    if order != [] {
      var last := |order| - 1;
      assert order == order[..last] + [order[last]];
      TurnsUntouched(s, order[..last], localID, spriteDx, spriteDy, shots, id);
    }
  }

  /** After the turns, the bullets left are those whose line crosses no
      target's hit box, each target's box taken as it stood at the start. */
  lemma {:induction false} TurnsBullets(bs: seq<Bullet>, players: map<string, Record>, order: seq<string>, localID: string,
                                        spriteDx: int, spriteDy: int, shots: map<Bullet, Line>)
    requires Distinct(order) && forall t :: 0 <= t < |order| ==> order[t] in players
    ensures Turns(Tally(bs, players, []), order, localID, spriteDx, spriteDy, shots).Bullets ==
            Missed(Boxes(players, localID, order, spriteDx, spriteDy), bs, shots)
  {
    var s := Tally(bs, players, []);
    if order == [] {
      MissedNoBox(bs, shots);
    } else {
      var last := |order| - 1;
      var front, id := order[..last], order[last];
      assert order == front + [id];
      TurnsBullets(bs, players, front, localID, spriteDx, spriteDy, shots);
      TurnsUntouched(s, front, localID, spriteDx, spriteDy, shots, id);
      var boxes := Boxes(players, localID, front, spriteDx, spriteDy);
      var box := Box(players[id], localID, spriteDx, spriteDy);
      assert Boxes(players, localID, order, spriteDx, spriteDy) == boxes + [box];
      MissedThenMissed(boxes, box, bs, shots);
      if !Target(players[id], localID) {
        MissedNoBox(Missed(boxes, bs, shots), shots);
      }
    }
  }

  /** Every hit reported names a target of the starting records, by the id
      it is filed under, at ReportedDamage; there is one hit per bullet
      gone. */
  lemma {:induction false} TurnsHits(bs: seq<Bullet>, players: map<string, Record>, order: seq<string>, localID: string,
                                     spriteDx: int, spriteDy: int, shots: map<Bullet, Line>)
    requires Filed(players) && Distinct(order) && forall t :: 0 <= t < |order| ==> order[t] in players
    ensures var r := Turns(Tally(bs, players, []), order, localID, spriteDx, spriteDy, shots);
            && |r.Hits| == |bs| - |r.Bullets|
            && forall k :: 0 <= k < |r.Hits| ==>
                 && r.Hits[k].Damage == ReportedDamage
                 && r.Hits[k].VictimID in order
                 && Target(players[r.Hits[k].VictimID], localID)
  {
    if order != [] {
      var s := Tally(bs, players, []);
      var last := |order| - 1;
      var front, id := order[..last], order[last];
      assert order == front + [id];
      TurnsHits(bs, players, front, localID, spriteDx, spriteDy, shots);
      TurnsUntouched(s, front, localID, spriteDx, spriteDy, shots, id);
      var before := Turns(s, front, localID, spriteDx, spriteDy, shots);
      var r := Turn(before, id, localID, spriteDx, spriteDy, shots);
      assert forall k :: 0 <= k < |before.Hits| ==> before.Hits[k].VictimID in front;
      assert forall k :: |before.Hits| <= k < |r.Hits| ==> r.Hits[k].VictimID == id;
    }
  }

  /** Each record after the turns is its starting record struck by the hits
      naming it; nothing else changes. */
  lemma {:induction false} TurnsStruck(bs: seq<Bullet>, players: map<string, Record>, order: seq<string>, localID: string,
                                       spriteDx: int, spriteDy: int, shots: map<Bullet, Line>)
    requires Filed(players) && Distinct(order) && forall t :: 0 <= t < |order| ==> order[t] in players
    ensures var r := Turns(Tally(bs, players, []), order, localID, spriteDx, spriteDy, shots);
            r.Players == Struck(players, localID, r.Hits)
  {
    var s := Tally(bs, players, []);
    if order == [] {
      StruckNothing(players, localID);
    } else {
      var last := |order| - 1;
      var front, id := order[..last], order[last];
      assert order == front + [id];
      TurnsStruck(bs, players, front, localID, spriteDx, spriteDy, shots);
      TurnsHits(bs, players, front, localID, spriteDx, spriteDy, shots);
      TurnsUntouched(s, front, localID, spriteDx, spriteDy, shots, id);
      var before := Turns(s, front, localID, spriteDx, spriteDy, shots);
      CountNone(before.Hits, id);
      TurnStruck(players, localID, before, id, spriteDx, spriteDy, shots);
    }
  }

  /** One turn keeps each record equal to its starting record struck by the
      hits naming it. */
  lemma TurnStruck(players: map<string, Record>, localID: string, before: Tally, id: string,
                   spriteDx: int, spriteDy: int, shots: map<Bullet, Line>)
    requires Filed(players) && id in players && before.Players == Struck(players, localID, before.Hits)
    requires Count(before.Hits, id) == 0 && before.Players[id] == players[id]
    ensures var r := Turn(before, id, localID, spriteDx, spriteDy, shots);
            r.Players == Struck(players, localID, r.Hits)
  {
    var r := Turn(before, id, localID, spriteDx, spriteDy, shots);
    var more := r.Hits[|before.Hits|..];
    assert r.Hits == before.Hits + more;
    StruckStep(players, localID, before.Hits, id, more);
    StruckUntouched(players, localID, before.Hits, id);
  }

  /** Everything hit detection promises, from the starting bullets and
      records alone: the bullets left are those whose line crosses no
      target's box, one hit of ReportedDamage is reported per bullet gone,
      each naming a target, and each record is its starting record struck
      by the hits naming it, so a record that is no target is unchanged. */
  lemma TurnsReport(bs: seq<Bullet>, players: map<string, Record>, order: seq<string>, localID: string,
                    spriteDx: int, spriteDy: int, shots: map<Bullet, Line>)
    requires Filed(players) && Distinct(order) && forall t :: 0 <= t < |order| ==> order[t] in players
    ensures var r := Turns(Tally(bs, players, []), order, localID, spriteDx, spriteDy, shots);
            && r.Bullets == Missed(Boxes(players, localID, order, spriteDx, spriteDy), bs, shots)
            && (forall b :: b in r.Bullets ==> b in bs)
            && |r.Hits| == |bs| - |r.Bullets|
            && (forall k :: 0 <= k < |r.Hits| ==>
                  && r.Hits[k].Damage == ReportedDamage && r.Hits[k].VictimID in players
                  && Target(players[r.Hits[k].VictimID], localID))
            && r.Players == Struck(players, localID, r.Hits)
            && forall id :: id in players && !Target(players[id], localID) ==> r.Players[id] == players[id]
  {
    var r := Turns(Tally(bs, players, []), order, localID, spriteDx, spriteDy, shots);
    TurnsBullets(bs, players, order, localID, spriteDx, spriteDy, shots);
    MissedSubset(Boxes(players, localID, order, spriteDx, spriteDy), bs, shots);
    TurnsHits(bs, players, order, localID, spriteDx, spriteDy, shots);
    TurnsStruck(bs, players, order, localID, spriteDx, spriteDy, shots);
    forall id | id in players && !Target(players[id], localID)
      ensures r.Players[id] == players[id]
    {
      StruckBounds(players, localID, r.Hits, id);
    }
  }

  /** The hit events sent for the hits, in order. */
  function HitEvents(hits: seq<PlayerHit>): (r: seq<Event>)
    ensures |r| == |hits| && forall k :: 0 <= k < |hits| ==> r[k] == HitEvent(hits[k])
  {
    seq(|hits|, k requires 0 <= k < |hits| => HitEvent(hits[k]))
  }

  /** Hits that never name an id count 0 for it. */
  lemma {:induction false} CountNone(hits: seq<PlayerHit>, id: string)
    requires forall k :: 0 <= k < |hits| ==> hits[k].VictimID != id
    ensures Count(hits, id) == 0
  {
    if hits != [] {
      CountNone(hits[1..], id);
    }
  }

  /** The tick tests the obstacles where the player stands before moving,
      so a player clear of an obstacle can step into it: one step left from
      (20.5, 5) ends 9.5 from a 10 x 10 box, inside the collision radius. */
  lemma StepIntoObstacle()
    ensures var box := [Obstacles.Obstacle(0.0, 0.0, 10.0, 10.0)];
            var left := Input(false, false, false, true, false, false, 0, 0);
            var x := 20.5 + Axis(left.KeyA, left.KeyD, Speed(left));
            && !Obstacles.CollidesWithObstacles(20.5, 5.0, CollisionRadius, box)
            && x == 19.5
            && Obstacles.CollidesWithObstacles(x, 5.0, CollisionRadius, box)
  {
  }

  class Game {
    var player: Player
    /** The remote players by id. No reference to a remote player escapes
        the map, so each is held as a value that the methods replace. */
    var players: map<string, Record>
    var obstacles: seq<Obstacles.Obstacle>

    ghost predicate Valid()
      reads this, player
    {
      player.Valid() && Filed(players)
    }

    /** A game with the local player at the centre of the screen and the
        given remote players. */
    constructor (playerID: string, players: map<string, Record>, obstacles: seq<Obstacles.Obstacle>)
      requires Filed(players)
      ensures Valid() && fresh(player)
      ensures player.ID == playerID && player.X == Visibility.ScreenWidth / 2.0 && player.Y == Visibility.ScreenHeight / 2.0
      ensures player.Health == MaxHealth && player.Bullets == []
      ensures this.players == players && this.obstacles == obstacles
    {
      player := new Player(playerID, Visibility.ScreenWidth / 2.0, Visibility.ScreenHeight / 2.0);
      this.players := players;
      this.obstacles := obstacles;
    }

    /** What an event can change: the local player's health and the remote
        records. */
    ghost function Snapshot(): Board
      reads this, player
    {
      Board(player.ID, player.Health, players)
    }

    /** checkBulletCollisions: the remote players take their turns in
        `order`, Go's map order, which lists every id once. */
    method CheckBulletCollisions(order: seq<string>, spriteDx: int, spriteDy: int) returns (hits: seq<PlayerHit>)
      requires Valid()
      requires Distinct(order) && (forall t :: 0 <= t < |order| ==> order[t] in players)
      requires forall id :: id in players ==> id in order
      modifies this`players, player`Bullets
      ensures Valid()
      ensures Tally(player.Bullets, players, hits) ==
              Turns(Tally(old(player.Bullets), old(players), []), order, player.ID, spriteDx, spriteDy, old(ShotsOf(player.Bullets)))
    {
      hits := [];
      ghost var shots := ShotsOf(player.Bullets);
      ghost var start := Tally(player.Bullets, players, []);
      ghost var local := player.ID;
      for t := 0 to |order|
        invariant Valid()
        invariant Tally(player.Bullets, players, hits) == Turns(start, order[..t], local, spriteDx, spriteDy, shots)
        invariant forall b :: b in player.Bullets ==> b in shots && b.Line() == shots[b]
      {
        TurnsSnoc(start, order, t, local, spriteDx, spriteDy, shots);
        hits := Visit(order[t], spriteDx, spriteDy, shots, hits);
      }
      assert order[..|order|] == order;
    }

    /** One remote player's turn, on the game's state; `hits` are the hits
        reported before it. */
    method Visit(id: string, spriteDx: int, spriteDy: int, ghost shots: map<Bullet, Line>, hits: seq<PlayerHit>)
      returns (hits': seq<PlayerHit>)
      requires Valid() && id in players
      requires forall b :: b in player.Bullets ==> b in shots && b.Line() == shots[b]
      modifies this`players, player`Bullets
      ensures Valid()
      ensures forall b :: b in player.Bullets ==> b in old(player.Bullets)
      ensures Tally(player.Bullets, players, hits') ==
              Turn(Tally(old(player.Bullets), old(players), hits), id, player.ID, spriteDx, spriteDy, shots)
    {
      var other := players[id];
      if other.Health > 0 && other.ID != player.ID {
        var struck, after := Strike(other, spriteDx, spriteDy, shots);
        players := players[id := after];
        hits' := hits + struck;
      } else {
        hits' := hits;
      }
    }

    /** The backwards loop over the local bullets for one target; `shots`
        holds the bullets' lines. Each bullet whose line crosses the
        target's hit box is cut out and reported, and the target's health
        goes down by HitDamage, clamped at 0 after each hit. */
    method Strike(victim: Record, spriteDx: int, spriteDy: int, ghost shots: map<Bullet, Line>)
      returns (hits: seq<PlayerHit>, after: Record)
      requires player.Valid() && Target(victim, player.ID)
      requires forall b :: b in player.Bullets ==> b in shots && b.Line() == shots[b]
      modifies player`Bullets
      ensures player.Valid()
      ensures player.Bullets == Missed([Box(victim, player.ID, spriteDx, spriteDy)], old(player.Bullets), shots)
      ensures hits == Repeat(PlayerHit(victim.ID, ReportedDamage), |old(player.Bullets)| - |player.Bullets|)
      ensures after == victim.(Health := Clamp(victim.Health - HitDamage * |hits|))
      ensures forall b :: b in player.Bullets ==> b in old(player.Bullets)
    {
      ghost var all := player.Bullets;
      var walls := HitBoxAt(victim.X, victim.Y, spriteDx, spriteDy).Walls;
      ghost var kept: seq<Bullet> := [];
      hits := [];
      var health := victim.Health;
      var i := |player.Bullets| - 1;
      assert player.Bullets == all[..i + 1] + kept;
      while i >= 0
        invariant -1 <= i < |all|
        invariant player.Bullets == all[..i + 1] + kept
        invariant kept == Missed([walls], all[i + 1..], shots)
        invariant |hits| == |all| - |player.Bullets|
        invariant forall k :: 0 <= k < |hits| ==> hits[k] == PlayerHit(victim.ID, ReportedDamage)
        invariant health == Clamp(victim.Health - HitDamage * |hits|)
        decreases i
      {
        var bullet := player.Bullets[i];
        assert bullet == all[i] && bullet in all;
        MissedStep(walls, all, i, shots);
        var hit := HitsBox(walls, bullet.Line());
        if hit {
          ClampStep(victim.Health, |hits|);
          health := health - HitDamage;
          if health < 0 {
            health := 0;
          }
          hits := hits + [PlayerHit(victim.ID, ReportedDamage)];
          CutOut(all, kept, i);
          player.Bullets := player.Bullets[..i] + player.Bullets[i + 1..];
        } else {
          KeepIn(all, kept, i);
          kept := [bullet] + kept;
        }
        i := i - 1;
      }
      assert all[..0] == [] && all[0..] == all;
      MissedDistinct([walls], all, shots);
      MissedSubset([walls], all, shots);
      after := victim.(Health := health);
    }

    /** The merge of one decoded event into the game (the body of the
        listener's loop after decoding). */
    method ApplyEvent(e: Event)
      requires Valid()
      modifies this`players, player`Health
      ensures Valid()
      ensures Snapshot() == Merge(old(Snapshot()), e)
    {
      MergeKeepsFiled(Snapshot(), e);
      match e
      case UpdateEvent(u) =>
        if u.ID == player.ID {
          return;
        }
        var p: Record;
        if u.ID in players {
          p := players[u.ID];
        } else {
          p := NewRecord(u.ID, u.X, u.Y);
        }
        players := players[u.ID := p.(X := u.X, Y := u.Y, Angle := u.Angle, Health := u.Health, Bullets := u.Bullets)];
      case HitEvent(h) =>
        if h.VictimID in players {
          var victim := players[h.VictimID];
          var health := victim.Health - h.Damage;
          if health < 0 {
            health := 0;
          }
          players := players[h.VictimID := victim.(Health := health)];
        }
        if h.VictimID == player.ID {
          player.Health := player.Health - h.Damage;
        }
    }

    /** One tick: the obstacle test at the player's position before it
        moves, the player's own update (which reverts the move when that
        test hit), hit detection over the bullets the update left, then
        the events: one per hit, and the player's state last. */
    method Update(input: Input, now: int, rnd: real, m: Math, order: seq<string>, spriteDx: int, spriteDy: int)
      returns (events: seq<Event>, ghost fired: seq<Bullet>, ghost moved: seq<Bullet>, hits: seq<PlayerHit>, ghost shots: map<Bullet, Line>)
      requires Valid()
      requires Distinct(order) && (forall t :: 0 <= t < |order| ==> order[t] in players)
      requires forall id :: id in players ==> id in order
      modifies this`players, player, player.Bullets
      ensures Valid() && player.Health == old(player.Health)
      // the player's own update
      ensures old(player.Health) <= 0 ==>
                && player.X == old(player.X) && player.Y == old(player.Y) && player.Angle == old(player.Angle)
                && player.lastShot == old(player.lastShot) && moved == old(player.Bullets) && fired == []
                && forall b :: b in old(player.Bullets) ==> PositionOf(b) == old(PositionOf(b))
      ensures var blocked := old(Obstacles.CollidesWithObstacles(player.X, player.Y, CollisionRadius, obstacles));
              old(player.Health) > 0 && blocked ==> player.X == old(player.X) && player.Y == old(player.Y)
      ensures var blocked := old(Obstacles.CollidesWithObstacles(player.X, player.Y, CollisionRadius, obstacles));
              old(player.Health) > 0 && !blocked ==>
                && player.X == old(player.X) + Axis(input.KeyA, input.KeyD, Speed(input))
                && player.Y == old(player.Y) + Axis(input.KeyW, input.KeyS, Speed(input))
      ensures old(player.Health) > 0 ==>
                && player.Angle == Aim(m, input, player.X, player.Y)
                && player.lastShot == (if Fires(input, now, old(player.lastShot)) then now else old(player.lastShot))
                && |fired| == (if Fires(input, now, old(player.lastShot)) then 1 else 0)
                && (forall b :: b in old(player.Bullets) ==> PositionOf(b) == old(MovedOnce(m, b)))
                && moved == old(Survivors(m, player.Bullets)) +
                            (if fired != [] && !fired[0].OutOfBounds(FieldWidth, FieldHeight) then fired else [])
                && forall b :: b in moved ==> !b.OutOfBounds(FieldWidth, FieldHeight)
      ensures fired != [] ==>
                var b := fired[0];
                && fresh(b) && b.OwnerID == player.ID && b.Velocity == BulletSpeed
                && b.Direction == player.Angle + Recoil(rnd)
                && PositionOf(b) == Shifted(NewRay(m, player.X, player.Y, BulletSpeed, b.Direction), StepX(m, b), StepY(m, b))
      // hit detection over the bullets the update left, each with the
      // line it had when detection began
      ensures forall b :: b in moved ==> b in shots && shots[b] == b.Line()
      ensures Tally(player.Bullets, players, hits) ==
              Turns(Tally(moved, old(players), []), order, player.ID, spriteDx, spriteDy, shots)
      ensures player.Bullets == Missed(Boxes(old(players), player.ID, order, spriteDx, spriteDy), moved, shots)
      ensures players == Struck(old(players), player.ID, hits)
      ensures forall id :: id in old(players) && !Target(old(players)[id], player.ID) ==> players[id] == old(players)[id]
      ensures |hits| == |moved| - |player.Bullets|
      ensures forall k :: 0 <= k < |hits| ==>
                && hits[k].Damage == ReportedDamage && hits[k].VictimID in old(players)
                && Target(old(players)[hits[k].VictimID], player.ID)
      // the events sent
      ensures events ==
              HitEvents(hits) + [UpdateEvent(PlayerUpdate(player.ID, player.X, player.Y, player.Angle, player.Health, player.Bullets))]
    {
      var collides := Obstacles.CollidesWithObstacles(player.X, player.Y, CollisionRadius, obstacles);
      fired := player.Update(collides, input, now, rnd, m);
      moved := player.Bullets;
      ghost var x, y, angle := player.X, player.Y, player.Angle;
      shots := ShotsOf(moved);
      events, hits := Report(order, spriteDx, spriteDy);
      assert player.X == x && player.Y == y && player.Angle == angle;
    }

    /** Hit detection and the events the tick sends: one per hit, then the
        local player's state. */
    method Report(order: seq<string>, spriteDx: int, spriteDy: int) returns (events: seq<Event>, hits: seq<PlayerHit>)
      requires Valid()
      requires Distinct(order) && (forall t :: 0 <= t < |order| ==> order[t] in players)
      requires forall id :: id in players ==> id in order
      modifies this`players, player`Bullets
      ensures Valid()
      ensures Tally(player.Bullets, players, hits) ==
              Turns(Tally(old(player.Bullets), old(players), []), order, player.ID, spriteDx, spriteDy, old(ShotsOf(player.Bullets)))
      ensures player.Bullets == Missed(Boxes(old(players), player.ID, order, spriteDx, spriteDy), old(player.Bullets), old(ShotsOf(player.Bullets)))
      ensures players == Struck(old(players), player.ID, hits)
      ensures forall id :: id in old(players) && !Target(old(players)[id], player.ID) ==> players[id] == old(players)[id]
      ensures |hits| == |old(player.Bullets)| - |player.Bullets|
      ensures forall k :: 0 <= k < |hits| ==>
                && hits[k].Damage == ReportedDamage && hits[k].VictimID in old(players)
                && Target(old(players)[hits[k].VictimID], player.ID)
      ensures events ==
              HitEvents(hits) + [UpdateEvent(PlayerUpdate(player.ID, player.X, player.Y, player.Angle, player.Health, player.Bullets))]
    {
      ghost var moved, shots, before := player.Bullets, ShotsOf(player.Bullets), players;
      hits := CheckBulletCollisions(order, spriteDx, spriteDy);
      TurnsReport(moved, before, order, player.ID, spriteDx, spriteDy, shots);
      events := HitEvents(hits) + [UpdateEvent(PlayerUpdate(player.ID, player.X, player.Y, player.Angle, player.Health, player.Bullets))];
    }
  }
}
