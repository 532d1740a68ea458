/**
 Concrete frames of the physics system, worked out on the model: the
 player moving through an empty canvas, the edge of the canvas region,
 two entities stalled by predicted overlap, item pickup, and an entity
 moving into the kept rectangle of an entity that could not move.
 */
module Scenarios {
  import opened Rects
  import opened Components
  import opened Ecs
  import opened Physics
  import opened Keyboard
  import opened Game

  /** The canvas of the 350 by 350 window spans -175 to 175 on both axes. */
  lemma CanvasBounds()
    ensures CanvasRect(350, 350) == Rect(-175, -175, 350, 350)
  {
    assert ClampSize(350) / 2 == 175;
  }

  /** At the player speed, 50 ms move an entity 10 units to the right. */
  lemma RightStep(a: Rect)
    ensures Shift(a, Velocity(PlayerMovementSpeed, Right), 50) == Offset(a, 10, 0)
  {
    assert PlayerMovementSpeed * 50 as real == 10.0;
  }

  /** At the player speed, 50 ms move an entity 10 units to the left. */
  lemma LeftStep(a: Rect)
    ensures Shift(a, Velocity(PlayerMovementSpeed, Left), 50) == Offset(a, -10, 0)
  {
    assert -PlayerMovementSpeed * 50 as real == -10.0;
  }

  /** The destinations of a world with one or two moving entities, 0 and 1. */
  lemma OneDestination(a: Rect, va: Velocity, ms: nat)
    ensures Destinations(map[0 := Position(a)], map[0 := va], ms) == map[0 := Shift(a, va, ms)]
  {
  }

  lemma TwoDestinations(a: Rect, b: Rect, va: Velocity, vb: Velocity, ms: nat)
    ensures Destinations(map[0 := Position(a), 1 := Position(b)], map[0 := va, 1 := vb], ms)
         == map[0 := Shift(a, va, ms), 1 := Shift(b, vb, ms)]
  {
  }

  /** Two entities whose destinations meet are the whole stalled set. */
  lemma BothStalled(d: map<Entity, Rect>, x: Entity, y: Entity)
    requires d.Keys == {x, y} && x != y && HasIntersection(d[x], d[y])
    ensures StalledSet(d) == {x, y}
  {
    assert Collides(d, x, y);
    StallSymmetric(d, x, y);
  }

  /** A stalled entity, or one whose destination leaves the canvas, keeps
      its Position. */
  lemma Stays(positions: map<Entity, Position>, d: map<Entity, Rect>, stalled: set<Entity>, canvas: Rect, e: Entity)
    requires e in positions
    requires e in stalled || (e in d && !ContainsRect(canvas, d[e]))
    ensures Committed(positions, d, stalled, canvas)[e] == positions[e]
  {
  }

  /** An entity that is not stalled and whose destination lies inside the
      canvas takes its destination. */
  lemma MovesOn(positions: map<Entity, Position>, d: map<Entity, Rect>, stalled: set<Entity>, canvas: Rect, e: Entity)
    requires e in positions && e in d && e !in stalled && ContainsRect(canvas, d[e])
    ensures Committed(positions, d, stalled, canvas)[e] == Position(d[e])
  {
  }

  /** The player's 26 by 36 sprite centred on the canvas origin. */
  lemma PlayerStartsCentred()
    ensures FromCenter(0, 0, 26, 36) == Rect(-13, -18, 26, 36)
  {
    assert ClampSize(26) / 2 == 13 && ClampSize(36) / 2 == 18;
  }

  /** The player in the middle of an empty 350 by 350 canvas, moving right
      at the player speed for 50 ms, ends centred on (10, 0). */
  lemma PlayerMovesRight()
    ensures var start := Rect(-13, -18, 26, 36);
      var positions := map[0 := Position(start)];
      var velocities := map[0 := Velocity(PlayerMovementSpeed, Right)];
      var d := Destinations(positions, velocities, 50);
      var r := Committed(positions, d, StalledSet(d), CanvasRect(350, 350));
      r[0] == Position(Offset(start, 10, 0)) && Center(r[0].rect) == (10, 0)
  {
    var start := Rect(-13, -18, 26, 36);
    var v := Velocity(PlayerMovementSpeed, Right);
    OneDestination(start, v, 50);
    RightStep(start);
    var positions := map[0 := Position(start)];
    var d := Destinations(positions, map[0 := v], 50);
    LoneEntityNotStalled(d, 0);
    CanvasBounds();
    MovesOn(positions, d, {}, CanvasRect(350, 350), 0);
  }

  /** A destination that touches the right edge of the canvas is inside it
      and the entity moves; one that passes the edge by a single unit is
      not, and the entity stays where it was. */
  lemma CanvasEdge()
    ensures var velocities := map[0 := Velocity(PlayerMovementSpeed, Right)];
      var touching := map[0 := Position(Rect(139, 0, 26, 36))];
      var beyond := map[0 := Position(Rect(140, 0, 26, 36))];
      var d1 := Destinations(touching, velocities, 50);
      var d2 := Destinations(beyond, velocities, 50);
      && d1[0].Right() == CanvasRect(350, 350).Right() && d2[0].Right() == CanvasRect(350, 350).Right() + 1
      && Committed(touching, d1, StalledSet(d1), CanvasRect(350, 350))[0] == Position(d1[0])
      && Committed(beyond, d2, StalledSet(d2), CanvasRect(350, 350))[0] == beyond[0]
  {
    var v := Velocity(PlayerMovementSpeed, Right);
    var a, b := Rect(139, 0, 26, 36), Rect(140, 0, 26, 36);
    OneDestination(a, v, 50);
    OneDestination(b, v, 50);
    RightStep(a);
    RightStep(b);
    var touching, beyond := map[0 := Position(a)], map[0 := Position(b)];
    var d1 := Destinations(touching, map[0 := v], 50);
    var d2 := Destinations(beyond, map[0 := v], 50);
    LoneEntityNotStalled(d1, 0);
    LoneEntityNotStalled(d2, 0);
    CanvasBounds();
    MovesOn(touching, d1, {}, CanvasRect(350, 350), 0);
    Stays(beyond, d2, {}, CanvasRect(350, 350), 0);
  }

  /** Two entities walking toward each other at the player speed for 50 ms
      whose destinations meet both stay where they are. */
  lemma ApproachStalls(a: Rect, b: Rect)
    requires HasIntersection(Offset(a, 10, 0), Offset(b, -10, 0))
    ensures var positions := map[0 := Position(a), 1 := Position(b)];
      var velocities := map[0 := Velocity(PlayerMovementSpeed, Right), 1 := Velocity(PlayerMovementSpeed, Left)];
      var d := Destinations(positions, velocities, 50);
      var r := Committed(positions, d, StalledSet(d), CanvasRect(350, 350));
      && d == map[0 := Offset(a, 10, 0), 1 := Offset(b, -10, 0)]
      && HasIntersection(d[0], d[1])
      && StalledSet(d) == {0, 1}
      && r[0] == positions[0] && r[1] == positions[1]
  {
    var vr, vl := Velocity(PlayerMovementSpeed, Right), Velocity(PlayerMovementSpeed, Left);
    TwoDestinations(a, b, vr, vl, 50);
    RightStep(a);
    LeftStep(b);
    var positions := map[0 := Position(a), 1 := Position(b)];
    var d := Destinations(positions, map[0 := vr, 1 := vl], 50);
    Stays(positions, d, {0, 1}, CanvasRect(350, 350), 0);
    Stays(positions, d, {0, 1}, CanvasRect(350, 350), 1);
    BothStalled(d, 0, 1);
  }

  /** Two entities 15 units apart walking toward each other: their
      rectangles do not touch now but would after the move, so both stay
      where they are. */
  lemma PredictedOverlapStallsBoth()
    ensures var a, b := Rect(0, 0, 10, 10), Rect(25, 0, 10, 10);
      var positions := map[0 := Position(a), 1 := Position(b)];
      var velocities := map[0 := Velocity(PlayerMovementSpeed, Right), 1 := Velocity(PlayerMovementSpeed, Left)];
      var d := Destinations(positions, velocities, 50);
      var r := Committed(positions, d, StalledSet(d), CanvasRect(350, 350));
      && !HasIntersection(a, b)
      && HasIntersection(d[0], d[1])
      && StalledSet(d) == {0, 1}
      && r[0] == positions[0] && r[1] == positions[1]
  {
    var a, b := Rect(0, 0, 10, 10), Rect(25, 0, 10, 10);
    assert HasIntersection(Offset(a, 10, 0), Offset(b, -10, 0));
    ApproachStalls(a, b);
  }

  /** With every velocity at rest the destinations are the positions. */
  lemma FourAtRest(a: Rect, b: Rect, c: Rect, e: Rect, v: Velocity, ms: nat)
    requires v.speed == 0.0
    ensures Destinations(map[0 := Position(a), 1 := Position(b), 2 := Position(c), 3 := Position(e)],
                         map[0 := v, 1 := v, 2 := v, 3 := v], ms)
         == map[0 := a, 1 := b, 2 := c, 3 := e]
  {
    ShiftAtRest(a, v, ms);
    ShiftAtRest(b, v, ms);
    ShiftAtRest(c, v, ms);
    ShiftAtRest(e, v, ms);
  }

  /** Pickup on fixed destinations: item 1 meets the player 0 and is
      deleted; item 2 meets only the enemy 3, so it is stalled but stays. */
  lemma PickupOnDestinations()
    ensures var d := map[0 := Rect(0, 0, 26, 36), 1 := Rect(20, 30, 12, 23), 2 := Rect(100, 100, 12, 23), 3 := Rect(105, 110, 32, 36)];
      PickupSet(d, {1, 2}, {0}) == {1} && 2 in StalledSet(d)
  {
    var a, b, c, e := Rect(0, 0, 26, 36), Rect(20, 30, 12, 23), Rect(100, 100, 12, 23), Rect(105, 110, 32, 36);
    assert HasIntersection(b, a) && HasIntersection(c, e);
    assert !HasIntersection(c, a) && !HasIntersection(c, b);
    var d := map[0 := a, 1 := b, 2 := c, 3 := e];
    assert d.Keys == {0, 1, 2, 3};
    assert d[0] == a && d[1] == b && d[2] == c && d[3] == e;
    ItemMeetingPlayerPickedUp(d, {1, 2}, {0}, 1, 0);
    ItemMeetingOnlyEnemy(d, {1, 2}, {0}, 2, 3);
  }

  /** The same world with every entity at the initial (resting) velocity:
      by the next frame the pickup outcome is as above. */
  lemma PickupByPlayerOnly()
    ensures var positions := map[
        0 := Position(Rect(0, 0, 26, 36)), 1 := Position(Rect(20, 30, 12, 23)),
        2 := Position(Rect(100, 100, 12, 23)), 3 := Position(Rect(105, 110, 32, 36))];
      var velocities := map[0 := InitialVelocity, 1 := InitialVelocity, 2 := InitialVelocity, 3 := InitialVelocity];
      var d := Destinations(positions, velocities, 50);
      && PickupSet(d, {1, 2}, {0}) == {1}
      && 2 in StalledSet(d)
  {
    FourAtRest(Rect(0, 0, 26, 36), Rect(20, 30, 12, 23), Rect(100, 100, 12, 23), Rect(105, 110, 32, 36), InitialVelocity, 50);
    PickupOnDestinations();
  }

  /** Stalling compares destinations only: an entity blocked by the canvas
      edge keeps its rectangle, and an entity following it can move into
      that rectangle, so the two overlap after the frame although neither
      was stalled. */
  lemma MoverCanOverlapBlocked()
    ensures var a, b := Rect(140, 0, 26, 36), Rect(110, 0, 26, 36);
      var positions := map[0 := Position(a), 1 := Position(b)];
      var velocities := map[0 := Velocity(PlayerMovementSpeed, Right), 1 := Velocity(PlayerMovementSpeed, Right)];
      var d := Destinations(positions, velocities, 50);
      var r := Committed(positions, d, StalledSet(d), CanvasRect(350, 350));
      && !HasIntersection(a, b)
      && StalledSet(d) == {}
      && r[0] == positions[0] && r[1] == Position(d[1])
      && HasIntersection(r[0].rect, r[1].rect)
  {
    var a, b := Rect(140, 0, 26, 36), Rect(110, 0, 26, 36);
    var v := Velocity(PlayerMovementSpeed, Right);
    TwoDestinations(a, b, v, v, 50);
    RightStep(a);
    RightStep(b);
    var positions := map[0 := Position(a), 1 := Position(b)];
    var d := Destinations(positions, map[0 := v, 1 := v], 50);
    assert !HasIntersection(d[0], d[1]) && !HasIntersection(d[1], d[0]);
    assert StalledSet(d) == {};
    CanvasBounds();
    Stays(positions, d, {}, CanvasRect(350, 350), 0);
    MovesOn(positions, d, {}, CanvasRect(350, 350), 1);
  }
}
