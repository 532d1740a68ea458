/**
 The physics system (src/physics.rs): predict each moving entity's next
 rectangle, stall every entity whose prediction overlaps another's, move
 the others that stay inside the canvas region, and delete the items whose
 prediction overlaps another item or the keyboard-controlled entity.

 The source iterates a hash map, whose order is unspecified; the model takes
 that order as a sequence of (entity, rectangle) entries and proves that the
 stalled and picked-up sets do not depend on it.
 */
module Physics {
  import opened Rects
  import opened Components
  import opened Ecs

  /** An entry of the destinations map, as its iterator yields it. */
  type Entry = (Entity, Rect)

  // ---------------------------------------------------------------------
  // Prediction

  /** Rust's `f64 as i32`: truncation toward zero (saturation at the i32
      bounds is not modelled). */
  function Trunc(r: real): (n: int)
    ensures 0.0 <= r ==> 0 <= n && n as real <= r < n as real + 1.0
    ensures r <= 0.0 ==> n <= 0 && n as real - 1.0 < r <= n as real
  {
    if r >= 0.0 then r.Floor else -((-r).Floor)
  }

  lemma TruncOdd(r: real)
    ensures Trunc(-r) == -Trunc(r)
  {
  }

  /** The per-frame movement `(speed * ms) as i32` of the source: the signed
      product of speed and elapsed milliseconds, truncated toward zero. */
  function Displacement(speed: real, ms: nat): (n: int)
  {
    Trunc(speed * ms as real)
  }

  /** `shift`: offset the rectangle along the velocity's direction by the
      displacement; Left and Up negate the speed before multiplying. */
  function Shift(pos: Rect, vel: Velocity, ms: nat): (r: Rect)
    ensures r.w == pos.w && r.h == pos.h
    ensures vel.direction == Left || vel.direction == Right ==> r.y == pos.y
    ensures vel.direction == Up || vel.direction == Down ==> r.x == pos.x
  {
    match vel.direction
    case Left => Offset(pos, Displacement(-vel.speed, ms), 0)
    case Right => Offset(pos, Displacement(vel.speed, ms), 0)
    case Up => Offset(pos, 0, Displacement(-vel.speed, ms))
    case Down => Offset(pos, 0, Displacement(vel.speed, ms))
  }

  /** No drift: at speed zero, or when no time has elapsed, the predicted
      rectangle is the current one. */
  lemma ShiftAtRest(pos: Rect, vel: Velocity, ms: nat)
    requires vel.speed == 0.0 || ms == 0
    ensures Shift(pos, vel, ms) == pos
  {
  }

  /** Opposite directions at the same speed move by exactly opposite offsets. */
  lemma ShiftOpposite(pos: Rect, speed: real, ms: nat)
    ensures Shift(pos, Velocity(speed, Left), ms).x - pos.x
         == -(Shift(pos, Velocity(speed, Right), ms).x - pos.x)
    ensures Shift(pos, Velocity(speed, Up), ms).y - pos.y
         == -(Shift(pos, Velocity(speed, Down), ms).y - pos.y)
  {
    var p := speed * ms as real;
    assert -speed * ms as real == -p;
    TruncOdd(p);
    assert Displacement(-speed, ms) == -Displacement(speed, ms);
  }

  /** A non-negative speed moves Right and Down by a non-negative amount,
      Left and Up by a non-positive one; the distance is speed times the
      elapsed milliseconds rounded down to a whole unit. */
  lemma ShiftBounded(pos: Rect, vel: Velocity, ms: nat)
    requires vel.speed >= 0.0
    ensures var r := Shift(pos, vel, ms);
      var dx, dy := r.x - pos.x, r.y - pos.y;
      && (vel.direction == Right ==> 0 <= dx && dx as real <= vel.speed * ms as real < dx as real + 1.0)
      && (vel.direction == Left ==> dx <= 0 && -dx as real <= vel.speed * ms as real < -dx as real + 1.0)
      && (vel.direction == Down ==> 0 <= dy && dy as real <= vel.speed * ms as real < dy as real + 1.0)
      && (vel.direction == Up ==> dy <= 0 && -dy as real <= vel.speed * ms as real < -dy as real + 1.0)
  {
    var p := vel.speed * ms as real;
    assert 0.0 <= p;
    assert -vel.speed * ms as real == -p;
    TruncOdd(p);
    assert Displacement(-vel.speed, ms) == -Displacement(vel.speed, ms);
  }

  /** The destinations map: one predicted rectangle per entity that has both
      a Position and a Velocity. */
  function Destinations(positions: map<Entity, Position>, velocities: map<Entity, Velocity>, ms: nat)
    : (d: map<Entity, Rect>)
    ensures d.Keys == positions.Keys * velocities.Keys
  {
    map e | e in positions && e in velocities :: Shift(positions[e].rect, velocities[e], ms)
  }

  // ---------------------------------------------------------------------
  // Enumerating the destinations map

  /** No entity occurs twice among the entries. */
  predicate DistinctKeys(s: seq<Entry>)
  {
    s == [] || ((forall y :: y in s[1..] ==> y.0 != s[0].0) && DistinctKeys(s[1..]))
  }

  /** `order` lists every entry of `d` exactly once: one possible iteration
      order of the hash map. */
  ghost predicate Enumerates(order: seq<Entry>, d: map<Entity, Rect>)
  {
    && DistinctKeys(order)
    && (forall x :: x in order ==> x.0 in d && d[x.0] == x.1)
    && (forall e :: e in d ==> (e, d[e]) in order)
  }

  /** Picks an iteration order of `d` (any order). */
  method Enumerate(d: map<Entity, Rect>) returns (order: seq<Entry>)
    ensures Enumerates(order, d)
  {
    order := [];
    var rest := d.Keys;
    while rest != {}
      invariant rest <= d.Keys
      invariant DistinctKeys(order)
      invariant forall x :: x in order ==> x.0 in d && d[x.0] == x.1 && x.0 !in rest
      invariant forall e :: e in d && e !in rest ==> (e, d[e]) in order
      decreases rest
    {
      var e :| e in rest;
      assert ([(e, d[e])] + order)[1..] == order;
      order := [(e, d[e])] + order;
      rest := rest - {e};
    }
  }

  // ---------------------------------------------------------------------
  // Pairing, as itertools' `combinations(2)` followed by `filter_map`,
  // `flatten` and `collect`

  /** `combinations(2)`: every pair `(s[i], s[j])` with `i < j`, in
      lexicographic order of the indices. */
  function Pairs<T>(s: seq<T>): (ps: seq<(T, T)>)
  {
    if s == [] then []
    else seq(|s| - 1, k requires 0 <= k < |s| - 1 => (s[0], s[k + 1])) + Pairs(s[1..])
  }

  /** The entities of every pair whose rectangles intersect. */
  function Colliding(ps: seq<(Entry, Entry)>): (c: set<Entity>)
  {
    if ps == [] then {}
    else
      (if HasIntersection(ps[0].0.1, ps[0].1.1) then {ps[0].0.0, ps[0].1.0} else {})
      + Colliding(ps[1..])
  }

  /** Two distinct entries of `s` whose rectangles intersect, the first of
      them belonging to `e`. */
  ghost predicate MeetsAnother(s: seq<Entry>, e: Entity)
  {
    exists x, y :: x in s && y in s && x.0 == e && y.0 != e && HasIntersection(x.1, y.1)
  }

  /** With distinct keys, the pairing stalls exactly the entities whose
      entry meets another entity's entry, whatever the order of `s`; in
      particular no entity is ever paired with itself. */
  lemma {:induction false} CollidingPairs(s: seq<Entry>, e: Entity)
    requires DistinctKeys(s)
    ensures e in Colliding(Pairs(s)) <==> MeetsAnother(s, e)
  {
    if s != [] {
      var a, t := s[0], s[1..];
      assert s == [a] + t;
      var heads := seq(|t|, k requires 0 <= k < |t| => (a, t[k]));
      assert Pairs(s) == heads + Pairs(t);
      CollidingAppend(heads, Pairs(t), e);
      CollidingPairs(t, e);
      CollidingHeads(a, t, e);
      MeetsAnotherCons(a, t, e);
    }
  }

  /** Meeting another entry of `[a] + t`: either within `t`, or a pair with
      the head entry `a`. */
  lemma MeetsAnotherCons(a: Entry, t: seq<Entry>, e: Entity)
    requires forall y :: y in t ==> y.0 != a.0
    ensures MeetsAnother([a] + t, e) <==>
      MeetsAnother(t, e) || exists y :: y in t && HasIntersection(a.1, y.1) && (a.0 == e || y.0 == e)
  {
    var s := [a] + t;
    if MeetsAnother(s, e) && !MeetsAnother(t, e) {
      var x, y :| x in s && y in s && x.0 == e && y.0 != e && HasIntersection(x.1, y.1);
      if x == a {
        assert y in t;
      } else {
        assert x in t && y == a;
        IntersectionSymmetric(x.1, y.1);
      }
    }
    if exists y :: y in t && HasIntersection(a.1, y.1) && (a.0 == e || y.0 == e) {
      var y :| y in t && HasIntersection(a.1, y.1) && (a.0 == e || y.0 == e);
      if a.0 == e {
        assert a in s && y in s;
      } else {
        IntersectionSymmetric(a.1, y.1);
        assert y in s && a in s;
      }
    }
    if MeetsAnother(t, e) {
      var x, y :| x in t && y in t && x.0 == e && y.0 != e && HasIntersection(x.1, y.1);
      assert x in s && y in s;
    }
  }

  lemma {:induction false} CollidingAppend(p: seq<(Entry, Entry)>, q: seq<(Entry, Entry)>, e: Entity)
    ensures e in Colliding(p + q) <==> e in Colliding(p) || e in Colliding(q)
  {
    if p != [] {
      assert (p + q)[1..] == p[1..] + q;
      CollidingAppend(p[1..], q, e);
    } else {
      assert p + q == q;
    }
  }

  /** The pairs that start with the head entry `a`. */
  lemma {:induction false} CollidingHeads(a: Entry, t: seq<Entry>, e: Entity)
    ensures var heads := seq(|t|, k requires 0 <= k < |t| => (a, t[k]));
      e in Colliding(heads) <==>
        exists y :: y in t && HasIntersection(a.1, y.1) && (a.0 == e || y.0 == e)
  {
    var heads := seq(|t|, k requires 0 <= k < |t| => (a, t[k]));
    if t != [] {
      var rest := seq(|t| - 1, k requires 0 <= k < |t| - 1 => (a, t[1..][k]));
      assert heads[1..] == rest;
      CollidingHeads(a, t[1..], e);
      assert t == [t[0]] + t[1..];
      if exists y :: y in t && HasIntersection(a.1, y.1) && (a.0 == e || y.0 == e) {
        var y :| y in t && HasIntersection(a.1, y.1) && (a.0 == e || y.0 == e);
        if y != t[0] {
          assert y in t[1..];
        }
      }
    }
  }

  // ---------------------------------------------------------------------
  // Stalling

  /** Entity `e` and a different entity `o` both have destinations and the
      destinations intersect. */
  predicate Collides(d: map<Entity, Rect>, e: Entity, o: Entity)
  {
    e in d && o in d && e != o && HasIntersection(d[e], d[o])
  }

  /** The order-free statement of the stalled set: every entity whose
      destination meets another entity's destination. */
  function StalledSet(d: map<Entity, Rect>): (s: set<Entity>)
    ensures s <= d.Keys
  {
    set e | e in d && exists o :: o in d && Collides(d, e, o)
  }

  /** `stalled_entities`, computed the way the source does from one
      iteration order of the destinations map. */
  function StalledEntities(order: seq<Entry>): (s: set<Entity>)
  {
    Colliding(Pairs(order))
  }

  /** The stalled set does not depend on the iteration order. */
  lemma StalledIndependentOfOrder(order: seq<Entry>, d: map<Entity, Rect>)
    requires Enumerates(order, d)
    ensures StalledEntities(order) == StalledSet(d)
  {
    forall e ensures e in StalledEntities(order) <==> e in StalledSet(d) {
      CollidingPairs(order, e);
      if MeetsAnother(order, e) {
        var x, y :| x in order && y in order && x.0 == e && y.0 != e && HasIntersection(x.1, y.1);
        assert Collides(d, e, y.0);
      }
      if e in StalledSet(d) {
        var o :| o in d && Collides(d, e, o);
        assert (e, d[e]) in order && (o, d[o]) in order;
      }
    }
  }

  /** Symmetry: an intersecting pair stalls both of its members. */
  lemma StallSymmetric(d: map<Entity, Rect>, a: Entity, b: Entity)
    requires Collides(d, a, b)
    ensures a in StalledSet(d) && b in StalledSet(d)
  {
    IntersectionSymmetric(d[a], d[b]);
    assert Collides(d, b, a);
  }

  /** No self-pairing: an entity alone in the destinations map is never
      stalled, although its rectangle meets itself. */
  lemma LoneEntityNotStalled(d: map<Entity, Rect>, e: Entity)
    requires d.Keys == {e}
    ensures StalledSet(d) == {}
  {
  }

  // ---------------------------------------------------------------------
  // Committing moves

  /** Whether the commit loop writes the destination of `e`. */
  predicate Moves(d: map<Entity, Rect>, stalled: set<Entity>, canvas: Rect, e: Entity)
  {
    e in d && e !in stalled && ContainsRect(canvas, d[e])
  }

  /** The Position storage after the commit loop: each entity that moves
      takes its destination; every other entity keeps its Position. */
  function Committed(positions: map<Entity, Position>, d: map<Entity, Rect>, stalled: set<Entity>, canvas: Rect)
    : (r: map<Entity, Position>)
    ensures r.Keys == positions.Keys
  {
    map e | e in positions :: if Moves(d, stalled, canvas, e) then Position(d[e]) else positions[e]
  }

  /** After a tick, an entity sits at its destination exactly when it was not
      stalled and the canvas region contains the destination, unless that
      destination is where it already was; entities without a Velocity are
      never touched. */
  lemma CommitOutcome(positions: map<Entity, Position>, velocities: map<Entity, Velocity>, ms: nat, canvas: Rect, e: Entity)
    requires e in positions
    ensures var d := Destinations(positions, velocities, ms);
      var r := Committed(positions, d, StalledSet(d), canvas);
      && (e !in velocities ==> r[e] == positions[e])
      && (e in velocities ==>
            (e !in StalledSet(d) && ContainsRect(canvas, d[e]) ==> r[e].rect == d[e])
            && (r[e].rect == d[e] <==>
                  (e !in StalledSet(d) && ContainsRect(canvas, d[e])) || d[e] == positions[e].rect)
            && (r[e] != positions[e] ==> r[e].rect == d[e] && e !in StalledSet(d)))
  {
  }

  /** Two entities that both moved this tick do not overlap afterwards. */
  lemma MovedDoNotOverlap(positions: map<Entity, Position>, d: map<Entity, Rect>, canvas: Rect, a: Entity, b: Entity)
    requires a in positions && b in positions && a != b
    requires Moves(d, StalledSet(d), canvas, a) && Moves(d, StalledSet(d), canvas, b)
    ensures var r := Committed(positions, d, StalledSet(d), canvas);
      !HasIntersection(r[a].rect, r[b].rect)
  {
  }

  /** Entities that start inside the canvas region stay inside it. */
  lemma {:induction false} StaysInCanvas(positions: map<Entity, Position>, d: map<Entity, Rect>, canvas: Rect)
    requires forall e :: e in positions ==> ContainsRect(canvas, positions[e].rect)
    ensures var r := Committed(positions, d, StalledSet(d), canvas);
      forall e :: e in r ==> ContainsRect(canvas, r[e].rect)
  {
    var r := Committed(positions, d, StalledSet(d), canvas);
    forall e | e in r ensures ContainsRect(canvas, r[e].rect) {
      if !Moves(d, StalledSet(d), canvas, e) {
        assert r[e] == positions[e];
      }
    }
  }

  // ---------------------------------------------------------------------
  // Item pickup

  /** The `.filter` on the destinations iterator: keep the entries of the
      given entities, in order. */
  function Filter(order: seq<Entry>, keep: set<Entity>): (f: seq<Entry>)
    ensures forall x :: x in f <==> x in order && x.0 in keep
  {
    if order == [] then []
    else (if order[0].0 in keep then [order[0]] else []) + Filter(order[1..], keep)
  }

  lemma {:induction false} FilterDistinct(order: seq<Entry>, keep: set<Entity>)
    requires DistinctKeys(order)
    ensures DistinctKeys(Filter(order, keep))
  {
    if order != [] {
      FilterDistinct(order[1..], keep);
      var rest := Filter(order[1..], keep);
      if order[0].0 in keep {
        var f := [order[0]] + rest;
        assert f == Filter(order, keep);
        assert f[1..] == rest && f[0] == order[0];
        forall y | y in rest ensures y.0 != order[0].0 {
          assert y in order[1..];
        }
      } else {
        assert Filter(order, keep) == rest;
      }
    }
  }

  /** The items deleted, computed as the source does: pair the entries of
      items and keyboard-controlled entities, collect the members of
      intersecting pairs, and keep those that are items. */
  function PickedUp(order: seq<Entry>, items: set<Entity>, keyboardControlled: set<Entity>)
    : (p: set<Entity>)
    ensures p <= items
  {
    StalledEntities(Filter(order, items + keyboardControlled)) * items
  }

  /** The order-free statement of the deleted set: the items whose
      destination meets the destination of another item or of a
      keyboard-controlled entity. */
  function PickupSet(d: map<Entity, Rect>, items: set<Entity>, keyboardControlled: set<Entity>)
    : (p: set<Entity>)
    ensures p <= items && p <= d.Keys
  {
    set e | e in d && e in items && exists o :: o in d && Collides(d, e, o) && (o in items || o in keyboardControlled)
  }

  /** The deleted set does not depend on the iteration order. */
  lemma PickupIndependentOfOrder(order: seq<Entry>, d: map<Entity, Rect>, items: set<Entity>, keyboardControlled: set<Entity>)
    requires Enumerates(order, d)
    ensures PickedUp(order, items, keyboardControlled) == PickupSet(d, items, keyboardControlled)
  {
    var keep := items + keyboardControlled;
    var f := Filter(order, keep);
    FilterDistinct(order, keep);
    forall e ensures e in PickedUp(order, items, keyboardControlled) <==> e in PickupSet(d, items, keyboardControlled) {
      CollidingPairs(f, e);
      if e in items && MeetsAnother(f, e) {
        var x, y :| x in f && y in f && x.0 == e && y.0 != e && HasIntersection(x.1, y.1);
        assert Collides(d, e, y.0) && y.0 in keep;
      }
      if e in PickupSet(d, items, keyboardControlled) {
        var o :| o in d && Collides(d, e, o) && (o in items || o in keyboardControlled);
        assert (e, d[e]) in f && (o, d[o]) in f;
      }
    }
  }

  /** Every deleted item is also stalled: deletion only happens to items
      whose destination met another destination. */
  lemma PickedUpAreStalled(d: map<Entity, Rect>, items: set<Entity>, keyboardControlled: set<Entity>)
    ensures PickupSet(d, items, keyboardControlled) <= StalledSet(d)
  {
  }

  /** Pickup uses the predicted rectangles: an item whose destination meets
      the keyboard-controlled entity's destination is deleted, although both
      of them are stalled and neither moves. */
  lemma ItemMeetingPlayerPickedUp(d: map<Entity, Rect>, items: set<Entity>, keyboardControlled: set<Entity>, item: Entity, player: Entity)
    requires item in items && player in keyboardControlled
    requires Collides(d, item, player)
    ensures item in PickupSet(d, items, keyboardControlled)
    ensures item in StalledSet(d) && player in StalledSet(d)
  {
    StallSymmetric(d, item, player);
  }

  /** Two items whose destinations meet are both deleted: the tag of the
      other member of a colliding pair does not matter, as long as it takes
      part in the pairing. */
  lemma ItemsMeetingBothPickedUp(d: map<Entity, Rect>, items: set<Entity>, keyboardControlled: set<Entity>, a: Entity, b: Entity)
    requires a in items && b in items
    requires Collides(d, a, b)
    ensures a in PickupSet(d, items, keyboardControlled) && b in PickupSet(d, items, keyboardControlled)
  {
    IntersectionSymmetric(d[a], d[b]);
    assert Collides(d, b, a);
  }

  /** An item that meets only an enemy (neither an item nor keyboard
      controlled) is stalled but not deleted: the Enemy tag plays no part
      in pickup. */
  lemma ItemMeetingOnlyEnemy(d: map<Entity, Rect>, items: set<Entity>, keyboardControlled: set<Entity>, item: Entity, enemy: Entity)
    requires item in items && enemy !in items && enemy !in keyboardControlled
    requires Collides(d, item, enemy)
    requires forall o :: Collides(d, item, o) ==> o == enemy
    ensures item in StalledSet(d)
    ensures item !in PickupSet(d, items, keyboardControlled)
  {
  }

  // ---------------------------------------------------------------------
  // The system

  /** `Physics::run` over the world's storages. The canvas region and the
      frame duration (in whole milliseconds) are the frame's resources. */
  method Run(world: World, canvas: Rect, ms: nat)
    requires world.Valid()
    modifies world
    ensures world.Valid()
    ensures var d := Destinations(old(world.positions), old(world.velocities), ms);
      && world.positions == Committed(old(world.positions), d, StalledSet(d), canvas)
      && world.killed == old(world.killed) + PickupSet(d, old(world.items), old(world.keyboardControlled))
    ensures world.entities == old(world.entities) && world.nextId == old(world.nextId)
    ensures world.velocities == old(world.velocities)
    ensures world.sprites == old(world.sprites) && world.animations == old(world.animations)
    ensures world.keyboardControlled == old(world.keyboardControlled)
    ensures world.enemies == old(world.enemies) && world.items == old(world.items)
  {
    var destinations := Destinations(world.positions, world.velocities, ms);
    var order := Enumerate(destinations);
    var stalled := StalledEntities(order);
    StalledIndependentOfOrder(order, destinations);
    CommitMoves(world, destinations, stalled, canvas);
    var hits := PickedUp(order, world.items, world.keyboardControlled);
    PickupIndependentOfOrder(order, destinations, world.items, world.keyboardControlled);
    DeleteAll(world, hits);
  }

  /** The commit loop: write the destination of every entity that is neither
      stalled nor leaving the canvas region into the Position storage. */
  method CommitMoves(world: World, destinations: map<Entity, Rect>, stalled: set<Entity>, canvas: Rect)
    requires world.Valid()
    requires destinations.Keys <= world.positions.Keys
    modifies world`positions
    ensures world.Valid()
    ensures world.positions == Committed(old(world.positions), destinations, stalled, canvas)
  {
    ghost var before := world.positions;
    var todo := destinations.Keys;
    while todo != {}
      invariant todo <= destinations.Keys
      invariant world.positions.Keys == before.Keys
      invariant forall e :: e in before ==>
        world.positions[e] == if e in todo then before[e] else Committed(before, destinations, stalled, canvas)[e]
      decreases todo
    {
      var e :| e in todo;
      if e !in stalled && ContainsRect(canvas, destinations[e]) {
        world.positions := world.positions[e := Position(destinations[e])];
      }
      todo := todo - {e};
    }
    assert world.positions == Committed(before, destinations, stalled, canvas);
  }

  /** The pickup loop: delete every entity of `hits`. */
  method DeleteAll(world: World, hits: set<Entity>)
    requires world.Valid()
    requires hits <= world.entities
    modifies world`killed
    ensures world.Valid()
    ensures world.killed == old(world.killed) + hits
  {
    var rest := hits;
    while rest != {}
      invariant rest <= hits
      invariant world.Valid()
      invariant world.killed == old(world.killed) + (hits - rest)
      decreases rest
    {
      var e :| e in rest;
      world.Delete(e);
      rest := rest - {e};
    }
  }
}
