/**
 The keyboard system (src/keyboard.rs): the frame's optional movement
 command rewrites the Velocity of every keyboard-controlled entity.
 */
module Keyboard {
  import opened Components
  import opened Ecs

  datatype MovementCommand = Stop | Move(direction: Direction)

  /** The speed a moving player is given (0.2 pixels per millisecond). */
  const PlayerMovementSpeed: real := 0.2

  /** The loop body: `Move(d)` sets the player speed and direction `d`;
      `Stop` zeroes the speed and keeps the direction. */
  function Steer(vel: Velocity, command: MovementCommand): (v: Velocity)
    ensures v.speed == 0.0 || v.speed == PlayerMovementSpeed
    ensures command.Stop? ==> v.direction == vel.direction
  {
    match command
    case Move(d) => Velocity(PlayerMovementSpeed, d)
    case Stop => vel.(speed := 0.0)
  }

  /** The Velocity storage after the system has run. Without a command
      nothing changes; with one, only keyboard-controlled entities change. */
  function Steered(velocities: map<Entity, Velocity>, keyboardControlled: set<Entity>, command: Option<MovementCommand>)
    : (r: map<Entity, Velocity>)
    ensures r.Keys == velocities.Keys
    ensures command.None? ==> r == velocities
    ensures forall e :: e in r && e !in keyboardControlled ==> r[e] == velocities[e]
    ensures command.Some? ==> forall e :: e in r && e in keyboardControlled ==>
      r[e].speed == 0.0 || r[e].speed == PlayerMovementSpeed
  {
    match command
    case None => velocities
    case Some(c) =>
      map e | e in velocities :: if e in keyboardControlled then Steer(velocities[e], c) else velocities[e]
  }

  /** `Move(d)` gives every keyboard-controlled entity the player speed and
      direction `d`. */
  lemma MoveSetsVelocity(velocities: map<Entity, Velocity>, keyboardControlled: set<Entity>, d: Direction, e: Entity)
    requires e in velocities && e in keyboardControlled
    ensures Steered(velocities, keyboardControlled, Some(Move(d)))[e] == Velocity(PlayerMovementSpeed, d)
  {
  }

  /** `Stop` zeroes the speed and keeps the direction as the last facing. */
  lemma StopKeepsDirection(velocities: map<Entity, Velocity>, keyboardControlled: set<Entity>, e: Entity)
    requires e in velocities && e in keyboardControlled
    ensures var v := Steered(velocities, keyboardControlled, Some(Stop))[e];
      v.speed == 0.0 && v.direction == velocities[e].direction
  {
  }

  /** Applying `Stop` twice in a row is the same as applying it once. */
  lemma {:induction false} StopIdempotent(velocities: map<Entity, Velocity>, keyboardControlled: set<Entity>)
    ensures var once := Steered(velocities, keyboardControlled, Some(Stop));
      Steered(once, keyboardControlled, Some(Stop)) == once
  {
    var once := Steered(velocities, keyboardControlled, Some(Stop));
    var twice := Steered(once, keyboardControlled, Some(Stop));
    forall e | e in twice ensures twice[e] == once[e] {
      if e in keyboardControlled {
        assert once[e] == velocities[e].(speed := 0.0);
      }
    }
  }

  /** `Keyboard::run`. The movement command is the frame's resource. */
  method Run(world: World, command: Option<MovementCommand>)
    requires world.Valid()
    modifies world`velocities
    ensures world.Valid()
    ensures world.velocities == Steered(old(world.velocities), world.keyboardControlled, command)
  {
    if command.None? {
      return;  // no change
    }
    var c := command.value;
    ghost var before := world.velocities;
    var todo := world.keyboardControlled * world.velocities.Keys;
    while todo != {}
      invariant todo <= world.keyboardControlled * before.Keys
      invariant world.velocities.Keys == before.Keys
      invariant forall e :: e in before ==>
        world.velocities[e] == if e in todo then before[e] else Steered(before, world.keyboardControlled, command)[e]
      decreases todo
    {
      var e :| e in todo;
      var vel := world.velocities[e];
      match c {
        case Move(direction) =>
          vel := vel.(speed := PlayerMovementSpeed);
          vel := vel.(direction := direction);
        case Stop =>
          vel := vel.(speed := 0.0);
      }
      world.velocities := world.velocities[e := vel];
      todo := todo - {e};
    }
    assert world.velocities == Steered(before, world.keyboardControlled, command);
  }
}
