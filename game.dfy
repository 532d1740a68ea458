/**
 The game's own logic in src/main.rs: sprite-sheet layout, the canvas
 region, the entities the game starts with, the folding of one frame's
 input events into a movement command, and one frame of the main loop
 (keyboard, physics, maintain).
 */
module Game {
  import opened Rects
  import opened Components
  import opened Ecs
  import opened Keyboard
  import Physics

  // ---------------------------------------------------------------------
  // Sprite sheets

  /** The row of a character sprite sheet that holds a direction's frames. */
  function DirectionSpritesheetRow(direction: Direction): (row: int)
    ensures 0 <= row < 4
  {
    match direction
    case Up => 3
    case Down => 0
    case Left => 1
    case Right => 2
  }

  /** Each direction has its own row, and every row 0..3 belongs to one. */
  lemma RowsAreDistinct(a: Direction, b: Direction)
    ensures DirectionSpritesheetRow(a) == DirectionSpritesheetRow(b) ==> a == b
    ensures (set d: Direction | d in [Up, Down, Left, Right] :: DirectionSpritesheetRow(d)) == {0, 1, 2, 3}
  {
    var rows := set d: Direction | d in [Up, Down, Left, Right] :: DirectionSpritesheetRow(d);
    assert DirectionSpritesheetRow(Down) == 0 && DirectionSpritesheetRow(Left) == 1;
    assert DirectionSpritesheetRow(Right) == 2 && DirectionSpritesheetRow(Up) == 3;
    assert 0 in rows && 1 in rows && 2 in rows && 3 in rows;
  }

  /** Number of frames in one direction's animation strip. */
  const FramesPerStrip: nat := 3

  /** `character_animation_frames`: the three frames of a direction's row,
      side by side, each the size of the top-left frame. */
  method CharacterAnimationFrames(spritesheet: nat, topLeftFrame: Rect, direction: Direction)
    returns (frames: seq<Sprite>)
    ensures |frames| == FramesPerStrip
    ensures forall i :: 0 <= i < |frames| ==>
      && frames[i].spritesheet == spritesheet
      && frames[i].region.w == topLeftFrame.w
      && frames[i].region.h == topLeftFrame.h
      && frames[i].region.x == topLeftFrame.x + topLeftFrame.w * i
      && frames[i].region.y == StripY(topLeftFrame, direction)
    ensures forall i, j :: 0 <= i < j < |frames| ==> !HasIntersection(frames[i].region, frames[j].region)
    ensures frames == Strip(spritesheet, topLeftFrame, direction)
  {
    var frameWidth, frameHeight := topLeftFrame.w, topLeftFrame.h;
    var yOffset := topLeftFrame.y + frameHeight * DirectionSpritesheetRow(direction);
    frames := [];
    for i := 0 to FramesPerStrip
      invariant |frames| == i
      invariant frames == Strip(spritesheet, topLeftFrame, direction)[..i]
    {
      frames := frames + [Sprite(spritesheet, Rect(topLeftFrame.x + frameWidth * i, yOffset, frameWidth, frameHeight))];
      var strip := Strip(spritesheet, topLeftFrame, direction);
      assert yOffset == StripY(topLeftFrame, direction);
      assert strip[i] == Sprite(spritesheet, Rect(topLeftFrame.x + topLeftFrame.w * i, StripY(topLeftFrame, direction), topLeftFrame.w, topLeftFrame.h));
      assert strip[i] == frames[i];
      assert strip[..i + 1] == strip[..i] + [strip[i]];
    }
    forall i, j | 0 <= i < j < |frames| ensures !HasIntersection(frames[i].region, frames[j].region) {
      StepApart(topLeftFrame.w, i, j);
    }
  }

  /** Frames `i < j` of a strip start at least one width apart. */
  lemma {:induction false} StepApart(w: Size, i: int, j: int)
    requires i < j
    ensures w * i + w <= w * j
    decreases j - i
  {
    assert w * j == w * (j - 1) + w;
    if i < j - 1 {
      StepApart(w, i, j - 1);
    }
  }

  /** The top edge of a direction's strip. */
  function StripY(topLeftFrame: Rect, direction: Direction): (y: int)
  {
    topLeftFrame.y + topLeftFrame.h * DirectionSpritesheetRow(direction)
  }

  /** The frames of a direction's strip: `FramesPerStrip` frames of the
      top-left frame's size, side by side along the direction's row. */
  function Strip(spritesheet: nat, topLeftFrame: Rect, direction: Direction): (frames: seq<Sprite>)
    ensures |frames| == FramesPerStrip
    ensures forall i :: 0 <= i < |frames| ==> frames[i].spritesheet == spritesheet
  {
    seq(FramesPerStrip, i requires 0 <= i < FramesPerStrip =>
      Sprite(spritesheet, Rect(topLeftFrame.x + topLeftFrame.w * i, StripY(topLeftFrame, direction), topLeftFrame.w, topLeftFrame.h)))
  }

  /** Strips of different directions lie on different rows of the sheet and
      do not overlap. */
  lemma {:induction false} StripsOfDirectionsDisjoint(topLeftFrame: Rect, a: Direction, b: Direction)
    requires a != b
    ensures StripY(topLeftFrame, a) != StripY(topLeftFrame, b)
    ensures StripY(topLeftFrame, a) + topLeftFrame.h <= StripY(topLeftFrame, b)
         || StripY(topLeftFrame, b) + topLeftFrame.h <= StripY(topLeftFrame, a)
  {
    RowsAreDistinct(a, b);
    var ra, rb := DirectionSpritesheetRow(a), DirectionSpritesheetRow(b);
    if ra < rb {
      StepApart(topLeftFrame.h, ra, rb);
    } else {
      StepApart(topLeftFrame.h, rb, ra);
    }
  }

  // ---------------------------------------------------------------------
  // The canvas region

  /** `canvas_rect`: the drawable area, centred on the world origin. */
  function CanvasRect(width: nat, height: nat): (r: Rect)
    ensures Center(r) == (0, 0)
    ensures r.w == ClampSize(width) && r.h == ClampSize(height)
    ensures -r.Left() <= r.Right() <= -r.Left() + 1
    ensures -r.Top() <= r.Bottom() <= -r.Top() + 1
  {
    FromCenter(0, 0, width, height)
  }

  // ---------------------------------------------------------------------
  // Initial entities

  /** The movement animation of a character sheet: at its first frame, with
      one strip per direction. */
  function CharacterAnimationOf(spritesheet: nat, topLeftFrame: Rect): (a: MovementAnimation)
  {
    MovementAnimation(0, Strip(spritesheet, topLeftFrame, Up), Strip(spritesheet, topLeftFrame, Down),
      Strip(spritesheet, topLeftFrame, Left), Strip(spritesheet, topLeftFrame, Right))
  }

  /** No two frames of a character's animation overlap on the sheet: frames
      of one strip lie side by side, strips lie on different rows. */
  lemma {:induction false} AnimationFramesDisjoint(spritesheet: nat, topLeftFrame: Rect,
                                                   a: Direction, i: nat, b: Direction, j: nat)
    requires i < FramesPerStrip && j < FramesPerStrip && (a, i) != (b, j)
    ensures !HasIntersection(Strip(spritesheet, topLeftFrame, a)[i].region, Strip(spritesheet, topLeftFrame, b)[j].region)
  {
    if a != b {
      StripsOfDirectionsDisjoint(topLeftFrame, a, b);
    } else if i < j {
      StepApart(topLeftFrame.w, i, j);
    } else {
      StepApart(topLeftFrame.w, j, i);
    }
  }

  /** Builds the movement animation of a character sheet whose frames have
      the size of `topLeftFrame`. */
  method CharacterAnimation(spritesheet: nat, topLeftFrame: Rect) returns (animation: MovementAnimation)
    ensures animation == CharacterAnimationOf(spritesheet, topLeftFrame)
    ensures animation.rightFrames[0] == Sprite(spritesheet, Rect(topLeftFrame.x, StripY(topLeftFrame, Right), topLeftFrame.w, topLeftFrame.h))
  {
    var up := CharacterAnimationFrames(spritesheet, topLeftFrame, Up);
    var down := CharacterAnimationFrames(spritesheet, topLeftFrame, Down);
    var left := CharacterAnimationFrames(spritesheet, topLeftFrame, Left);
    var right := CharacterAnimationFrames(spritesheet, topLeftFrame, Right);
    animation := MovementAnimation(0, up, down, left, right);
  }

  /** The velocity every entity starts with: at rest, facing right. */
  const InitialVelocity: Velocity := Velocity(0.0, Right)

  /** The components every initial entity gets: a Position with rectangle
      `rect`, the resting velocity, and `sprite`. */
  method Place(world: World, e: Entity, rect: Rect, sprite: Sprite)
    requires world.Valid() && e in world.entities
    modifies world`positions, world`velocities, world`sprites
    ensures world.Valid()
    ensures world.positions == old(world.positions)[e := Position(rect)]
    ensures world.velocities == old(world.velocities)[e := InitialVelocity]
    ensures world.sprites == old(world.sprites)[e := sprite]
  {
    world.positions := world.positions[e := Position(rect)];
    world.velocities := world.velocities[e := InitialVelocity];
    world.sprites := world.sprites[e := sprite];
  }

  /** The components of an animated character: those of `Place`, with the
      character's movement animation and its first right-facing frame. */
  method PlaceCharacter(world: World, e: Entity, rect: Rect, spritesheet: nat, topLeftFrame: Rect)
    requires world.Valid() && e in world.entities
    modifies world`positions, world`velocities, world`sprites, world`animations
    ensures world.Valid()
    ensures world.positions == old(world.positions)[e := Position(rect)]
    ensures world.velocities == old(world.velocities)[e := InitialVelocity]
    ensures world.sprites == old(world.sprites)[e := Sprite(spritesheet, Rect(topLeftFrame.x, StripY(topLeftFrame, Right), topLeftFrame.w, topLeftFrame.h))]
    ensures world.animations == old(world.animations)[e := CharacterAnimationOf(spritesheet, topLeftFrame)]
  {
    var animation := CharacterAnimation(spritesheet, topLeftFrame);
    world.animations := world.animations[e := animation];
    Place(world, e, rect, animation.rightFrames[0]);
  }

  /** `initialize_player`: the keyboard-controlled character, 26 by 36,
      centred on the origin, at rest facing right, showing its first
      right-facing frame. */
  method InitializePlayer(world: World, playerSpritesheet: nat) returns (player: Entity)
    requires world.Valid()
    modifies world`entities, world`nextId, world`keyboardControlled, world`positions, world`velocities, world`sprites, world`animations
    ensures world.Valid()
    ensures player !in old(world.entities) && world.entities == old(world.entities) + {player}
    ensures world.positions == old(world.positions)[player := Position(FromCenter(0, 0, 26, 36))]
    ensures world.velocities == old(world.velocities)[player := InitialVelocity]
    ensures world.animations == old(world.animations)[player := CharacterAnimationOf(playerSpritesheet, Rect(0, 0, 26, 36))]
    ensures world.sprites == old(world.sprites)[player := Sprite(playerSpritesheet, Rect(0, 72, 26, 36))]
    ensures world.keyboardControlled == old(world.keyboardControlled) + {player}
    ensures world.enemies == old(world.enemies) && world.items == old(world.items)
    ensures world.killed == old(world.killed)
  {
    assert StripY(Rect(0, 0, 26, 36), Right) == 72;
    player := world.CreateEntity();
    world.keyboardControlled := world.keyboardControlled + {player};
    PlaceCharacter(world, player, FromCenter(0, 0, 26, 36), playerSpritesheet, Rect(0, 0, 26, 36));
  }

  /** `initialize_enemy`: a 32 by 36 enemy centred on `(cx, cy)`, at rest
      facing right, showing its first right-facing frame. */
  method InitializeEnemy(world: World, enemySpritesheet: nat, cx: int, cy: int) returns (enemy: Entity)
    requires world.Valid()
    modifies world`entities, world`nextId, world`enemies, world`positions, world`velocities, world`sprites, world`animations
    ensures world.Valid()
    ensures enemy !in old(world.entities) && world.entities == old(world.entities) + {enemy}
    ensures world.positions == old(world.positions)[enemy := Position(FromCenter(cx, cy, 32, 36))]
    ensures world.velocities == old(world.velocities)[enemy := InitialVelocity]
    ensures world.animations == old(world.animations)[enemy := CharacterAnimationOf(enemySpritesheet, Rect(0, 0, 32, 36))]
    ensures world.sprites == old(world.sprites)[enemy := Sprite(enemySpritesheet, Rect(0, 72, 32, 36))]
    ensures world.enemies == old(world.enemies) + {enemy}
    ensures world.keyboardControlled == old(world.keyboardControlled) && world.items == old(world.items)
    ensures world.killed == old(world.killed)
  {
    assert StripY(Rect(0, 0, 32, 36), Right) == 72;
    enemy := world.CreateEntity();
    world.enemies := world.enemies + {enemy};
    PlaceCharacter(world, enemy, FromCenter(cx, cy, 32, 36), enemySpritesheet, Rect(0, 0, 32, 36));
  }

  /** `initialize_item`: a 12 by 23 item centred on `(cx, cy)`, at rest
      facing right, with a fixed sprite and no animation. */
  method InitializeItem(world: World, itemSpritesheet: nat, cx: int, cy: int) returns (item: Entity)
    requires world.Valid()
    modifies world`entities, world`nextId, world`items, world`positions, world`velocities, world`sprites
    ensures world.Valid()
    ensures item !in old(world.entities) && world.entities == old(world.entities) + {item}
    ensures world.positions == old(world.positions)[item := Position(FromCenter(cx, cy, 12, 23))]
    ensures world.velocities == old(world.velocities)[item := InitialVelocity]
    ensures world.sprites == old(world.sprites)[item := Sprite(itemSpritesheet, Rect(18, 112, 12, 23))]
    ensures world.animations == old(world.animations)
    ensures world.items == old(world.items) + {item}
    ensures world.keyboardControlled == old(world.keyboardControlled) && world.enemies == old(world.enemies)
    ensures world.killed == old(world.killed)
  {
    item := world.CreateEntity();
    world.items := world.items + {item};
    Place(world, item, FromCenter(cx, cy, 12, 23), Sprite(itemSpritesheet, Rect(18, 112, 12, 23)));
  }

  // ---------------------------------------------------------------------
  // Input events

  datatype Keycode = LeftArrow | RightArrow | UpArrow | DownArrow | Escape | OtherKey(code: int)

  /** The window events the main loop distinguishes; every other kind of
      event is `OtherEvent`. */
  datatype Event =
    | Quit
    | KeyDown(keycode: Option<Keycode>, repeat: bool)
    | KeyUp(keycode: Option<Keycode>, repeat: bool)
    | OtherEvent

  /** A Quit event, or Escape pressed (repeated or not), ends the game. */
  predicate EndsGame(event: Event)
  {
    event.Quit? || (event.KeyDown? && event.keycode == Some(Escape))
  }

  predicate IsArrow(k: Keycode)
  {
    k.LeftArrow? || k.RightArrow? || k.UpArrow? || k.DownArrow?
  }

  /** The command one event sets: a fresh arrow press moves that way, a
      fresh arrow release stops; anything else leaves the command alone. */
  function EventCommand(event: Event): (c: Option<MovementCommand>)
  {
    match event
    case KeyDown(Some(LeftArrow), false) => Some(Move(Left))
    case KeyDown(Some(RightArrow), false) => Some(Move(Right))
    case KeyDown(Some(UpArrow), false) => Some(Move(Up))
    case KeyDown(Some(DownArrow), false) => Some(Move(Down))
    case KeyUp(Some(k), false) => if IsArrow(k) then Some(Stop) else None
    case _ => None
  }

  /** Repeats, non-arrow keys and other events never set a command; a fresh
      arrow press sets a move that way, a fresh arrow release a stop. */
  lemma EventCommandCases(event: Event)
    ensures (event.KeyDown? || event.KeyUp?) && event.repeat ==> EventCommand(event) == None
    ensures event.KeyDown? && event.keycode.Some? && !IsArrow(event.keycode.value) ==> EventCommand(event) == None
    ensures event.KeyUp? && event.keycode.Some? && !IsArrow(event.keycode.value) ==> EventCommand(event) == None
    ensures event.Quit? || event.OtherEvent? ==> EventCommand(event) == None
    ensures EventCommand(event).Some? && EventCommand(event).value.Move? <==>
      event.KeyDown? && !event.repeat && event.keycode.Some? && IsArrow(event.keycode.value)
    ensures EventCommand(KeyDown(Some(LeftArrow), false)) == Some(Move(Left))
    ensures EventCommand(KeyDown(Some(RightArrow), false)) == Some(Move(Right))
    ensures EventCommand(KeyDown(Some(UpArrow), false)) == Some(Move(Up))
    ensures EventCommand(KeyDown(Some(DownArrow), false)) == Some(Move(Down))
    ensures EventCommand(event) == Some(Stop) <==>
      event.KeyUp? && !event.repeat && event.keycode.Some? && IsArrow(event.keycode.value)
  {
  }

  /** The command left by a batch of events: that of the last event that
      sets one, or none. */
  function LatestCommand(events: seq<Event>): (c: Option<MovementCommand>)
  {
    if events == [] then None
    else
      var c := EventCommand(events[|events| - 1]);
      if c.Some? then c else LatestCommand(events[..|events| - 1])
  }

  /** No event that sets a command means no command. */
  lemma {:induction false} LatestCommandNone(events: seq<Event>)
    ensures LatestCommand(events) == None <==> forall i :: 0 <= i < |events| ==> EventCommand(events[i]) == None
  {
    if events != [] {
      var init := events[..|events| - 1];
      LatestCommandNone(init);
      assert forall i :: 0 <= i < |init| ==> init[i] == events[i];
    }
  }

  /** The last event that sets a command decides the command. */
  lemma {:induction false} LatestCommandIsLast(events: seq<Event>, i: nat)
    requires i < |events| && EventCommand(events[i]).Some?
    requires forall j :: i < j < |events| ==> EventCommand(events[j]) == None
    ensures LatestCommand(events) == EventCommand(events[i])
  {
    if i < |events| - 1 {
      var init := events[..|events| - 1];
      assert forall j :: 0 <= j < |init| ==> init[j] == events[j];
      LatestCommandIsLast(init, i);
    }
  }

  /** The event loop of one frame: fold the events into the movement
      command, stopping at the first event that ends the game. */
  method HandleEvents(events: seq<Event>) returns (command: Option<MovementCommand>, quit: bool)
    ensures quit <==> exists i :: 0 <= i < |events| && EndsGame(events[i])
    ensures !quit ==> command == LatestCommand(events)
    ensures quit ==> exists k :: (0 <= k < |events| && EndsGame(events[k])
      && (forall j :: 0 <= j < k ==> !EndsGame(events[j]))
      && command == LatestCommand(events[..k]))
  {
    command, quit := None, false;
    for i := 0 to |events|
      invariant forall j :: 0 <= j < i ==> !EndsGame(events[j])
      invariant command == LatestCommand(events[..i])
    {
      var event := events[i];
      if EndsGame(event) {
        quit := true;
        return;
      }
      assert events[..i + 1][..i] == events[..i];
      match EventCommand(event) {
        case Some(c) => command := Some(c);
        case None =>
      }
    }
    assert events[..|events|] == events;
  }

  // ---------------------------------------------------------------------
  // One frame

  /** One pass of the main loop: handle the events; unless the game ends,
      run the keyboard system with the command, then the physics system in
      the canvas region of the given size, then maintain the world. */
  method RunFrame(world: World, events: seq<Event>, canvasWidth: nat, canvasHeight: nat, ms: nat) returns (quit: bool)
    requires world.Valid()
    modifies world
    ensures world.Valid()
    ensures quit <==> exists i :: 0 <= i < |events| && EndsGame(events[i])
    ensures quit ==> unchanged(world)
    ensures !quit ==>
      var velocities := Steered(old(world.velocities), old(world.keyboardControlled), LatestCommand(events));
      var d := Physics.Destinations(old(world.positions), velocities, ms);
      var canvas := CanvasRect(canvasWidth, canvasHeight);
      var deleted := old(world.killed) + Physics.PickupSet(d, old(world.items), old(world.keyboardControlled));
      && world.velocities == velocities - deleted
      && world.positions == Physics.Committed(old(world.positions), d, Physics.StalledSet(d), canvas) - deleted
      && world.entities == old(world.entities) - deleted
      && world.items == old(world.items) - deleted
      && world.keyboardControlled == old(world.keyboardControlled) - deleted
      && world.enemies == old(world.enemies) - deleted
      && world.sprites == old(world.sprites) - deleted
      && world.animations == old(world.animations) - deleted
      && world.killed == {}
      && world.nextId == old(world.nextId)
  {
    var command;
    command, quit := HandleEvents(events);
    if quit {
      return;
    }
    Keyboard.Run(world, command);
    Physics.Run(world, CanvasRect(canvasWidth, canvasHeight), ms);
    world.Maintain();
  }
}
