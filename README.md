# Per-frame simulation of a small SDL/specs game, in Dafny

This project models the per-frame core of a small 2D game built on an
entity-component system, and proves properties of that model. It covers:

- the keyboard system, which turns the frame's movement command into
  velocities;
- the physics system, which predicts each moving entity's next rectangle,
  stalls overlapping entities, keeps movers inside the canvas region and
  deletes picked-up items;
- the game's own helpers: the sprite-sheet layout, the canvas region, the
  initial entities, and the folding of one frame's input events into a
  movement command;
- one pass of the main loop: events, then Keyboard, then Physics, then
  `maintain`.

Files:

- `rect.dfy` (`Rects`): integer rectangles with SDL's `Rect` semantics.
  - `offset`, `from_center` and `center`.
  - `has_intersection`: half-open, so touching does not count.
  - `contains_rect`: touching an edge counts as inside.
  - A zero width or height becomes 1.
- `components.dfy` (`Components`): the component types of `src/components.rs`
  as datatypes. Speed is an exact `real`.
- `ecs.dfy` (`Ecs`): the world as a class.
  - Each component storage is a `map` and each tag a `set`.
  - `Delete` only marks an entity. `Maintain` removes every marked entity
    from the world and from every storage.
- `physics.dfy` (`Physics`): `shift` and `Physics::run`.
  - The hash map's iteration order is a sequence that `Enumerates` the map.
  - Pairing works as itertools `combinations(2)`, then `filter_map`,
    `flatten` and `collect`. It is modelled on that sequence and proved
    equal to an order-free set comprehension.
  - The position-commit loop and the deletion loop are methods with loop
    invariants.
- `keyboard.dfy` (`Keyboard`): `Keyboard::run` as a loop over the
  keyboard-controlled entities that have a Velocity, specified by the
  function `Steered`.
- `game.dfy` (`Game`), from `src/main.rs`:
  - `direction_spritesheet_row`;
  - `character_animation_frames`, as a loop;
  - `canvas_rect`;
  - `initialize_player`, `initialize_enemy` and `initialize_item`;
  - the event fold at lines 169-195, as a loop specified by the function
    `LatestCommand`;
  - one frame of the main loop.
- `scenarios.dfy` (`Scenarios`): concrete frames worked out on the model in
  the game's 350 by 350 window, with the player speed of 0.2 pixels per
  millisecond and an elapsed time of 50 ms chosen for the examples. The
  game itself sleeps 1/40 s per frame (src/main.rs:210) and passes the
  measured elapsed time, so its frame length varies.

Two behaviours of the code that one might expect otherwise, which the
model keeps:

- Pickup pairs only entities tagged Item or KeyboardControlled
  (`src/physics.rs:65`). An Enemy plays no part in pickup, although the
  system reads the Enemy storage.
- Two Items whose predicted rectangles meet are both deleted, because the
  Item filter keeps both members of such a pair.

## Model

| member | source | states |
|---|---|---|
| Rects.Offset | src/physics.rs:12-15 | `Rect::offset` keeps width and height and moves the centre by exactly (dx, dy) |
| Rects.OffsetComposes | src/physics.rs:12-15 | two offsets add up to one by the summed amounts, and offsetting by (0, 0) changes nothing |
| Rects.OffsetKeepsRelations | src/physics.rs:47-55 | moving two rectangles by the same amount keeps whether they intersect and whether one contains the other |
| Rects.FromCenter | src/main.rs:100 | `Rect::from_center`: the size is the requested one (a zero becomes 1) and `center()` of the result is the given point |
| Rects.HasIntersection | src/physics.rs:47 | definition: half-open overlap on both axes, as `SDL_HasIntersection` computes; rectangles that only touch along an edge do not intersect |
| Rects.ContainsRect | src/physics.rs:55 | definition: `inner` lies within `outer` on both axes, edges included, so a rectangle contains itself |
| Rects.IntersectionSymmetric | src/physics.rs:47 | `has_intersection` is symmetric |
| Rects.SelfIntersects | src/physics.rs:44-47 | every non-empty rectangle meets itself, so pairing an entity with itself would stall it |
| Ecs.World.constructor | src/main.rs:123 | a new world has no entities, components, tags or pending deletions |
| Ecs.World.CreateEntity | src/main.rs:61-67 | `create_entity` yields an identity not alive before and adds only it to the world |
| Ecs.World.Delete | src/physics.rs:76 | deleting marks a live entity for removal; deleting a dead or already-marked entity changes nothing, with the error discarded as `unwrap_or(())` does |
| Ecs.World.Maintain | src/main.rs:204 | `maintain` removes exactly the marked entities from the world, every storage and every tag, and clears the marks |
| Physics.Trunc | src/physics.rs:12-15 | `f64 as i32` truncates toward zero: the result is at most one unit nearer to zero than the real product |
| Physics.TruncOdd | src/physics.rs:12-15 | truncation toward zero commutes with negation |
| Physics.Displacement | src/physics.rs:12-15 | definition: the signed product of speed and elapsed milliseconds, truncated toward zero by `Trunc` |
| Physics.Shift | src/physics.rs:10-18 | `shift` keeps width and height; Left/Right change only x, Up/Down only y |
| Physics.ShiftAtRest | src/physics.rs:10-18 | at speed 0, or after 0 ms, `shift` returns the rectangle unchanged |
| Physics.ShiftOpposite | src/physics.rs:11-16 | the Left and Right offsets at one speed are exact negatives, and so are Up and Down |
| Physics.ShiftBounded | src/physics.rs:11-16 | at a non-negative speed, Right/Down move forward and Left/Up backward, by exactly speed times milliseconds rounded down to a whole unit |
| Physics.Destinations | src/physics.rs:39-41 | the destinations map is defined exactly on the entities with both a Position and a Velocity |
| Physics.Enumerate | src/physics.rs:43 | some iteration order lists every destination entry exactly once |
| Physics.Pairs | src/physics.rs:44 | definition of `combinations(2)`: every pair of positions i < j of the listing, in lexicographic order of (i, j) |
| Physics.Colliding | src/physics.rs:45-51 | definition of the `filter_map`/`flatten`/`collect` chain: the union of both members of every pair whose rectangles intersect |
| Physics.StalledEntities | src/physics.rs:43-51 | definition of `stalled_entities` for one iteration order of the destinations |
| Physics.CollidingPairs | src/physics.rs:43-51 | over distinct keys, the members of intersecting `combinations(2)` pairs are exactly the entities whose entry meets another entity's entry |
| Physics.StalledIndependentOfOrder | src/physics.rs:43-51 | `stalled_entities` in any iteration order is the set of entities whose destination meets another entity's destination |
| Physics.StallSymmetric | src/physics.rs:47 | an intersecting pair stalls both of its members |
| Physics.LoneEntityNotStalled | src/physics.rs:44 | no self-pairing: an entity alone in the destinations map is not stalled |
| Physics.Moves | src/physics.rs:54-55 | definition of the two `.filter`s: the entity has a destination, is not stalled, and its destination lies within the canvas |
| Physics.Committed | src/physics.rs:53-58 | the commit loop changes no entity's presence in the Position storage |
| Physics.CommitOutcome | src/physics.rs:53-58 | after the tick, an entity sits at its destination iff it was not stalled and the canvas contains the destination (or the destination is where it already was); otherwise it is unchanged; entities without a Velocity are never touched |
| Physics.MovedDoNotOverlap | src/physics.rs:43-58 | two entities that both moved do not overlap afterwards |
| Physics.StaysInCanvas | src/physics.rs:53-58 | entities that start inside the canvas region stay inside it |
| Physics.Filter | src/physics.rs:64-65 | the iterator `filter` keeps exactly the entries of the admitted entities |
| Physics.FilterDistinct | src/physics.rs:64-66 | filtering keeps the keys distinct, so the second pairing has no self-pairs either |
| Physics.PickedUp | src/physics.rs:61-75 | the deleted set, computed as the source does, is a subset of the Items |
| Physics.PickupSet | src/physics.rs:61-75 | the order-free deleted set is a subset of the Items that have a destination |
| Physics.PickupIndependentOfOrder | src/physics.rs:61-75 | in any iteration order, the deleted set is the set of Items whose destination meets that of another Item or KeyboardControlled entity |
| Physics.PickedUpAreStalled | src/physics.rs:43-75 | every deleted item was also stalled |
| Physics.ItemMeetingPlayerPickedUp | src/physics.rs:53-76 | pickup uses predicted rectangles: an Item meeting the player is deleted although both are stalled |
| Physics.ItemsMeetingBothPickedUp | src/physics.rs:64-74 | two Items whose destinations meet are both deleted |
| Physics.ItemMeetingOnlyEnemy | src/physics.rs:61-75 | an Item meeting only an Enemy is stalled but not deleted |
| Physics.Run | src/physics.rs:32-78 | `Physics::run` leaves the Position storage as the commit rule states and adds exactly the order-free pickup set to the deletions; nothing else changes |
| Physics.CommitMoves | src/physics.rs:53-58 | the commit loop writes the destination of exactly the moving entities into the Position storage |
| Physics.DeleteAll | src/physics.rs:64-77 | the pickup loop marks exactly the hits for deletion |
| Keyboard.Steer | src/keyboard.rs:24-30 | the loop body gives speed 0 or `PLAYER_MOVEMENT_SPEED`, and `Stop` keeps the direction |
| Keyboard.Steered | src/keyboard.rs:17-32 | without a command no Velocity changes; entities that are not keyboard-controlled are never changed; with a command every keyboard-controlled speed is 0 or `PLAYER_MOVEMENT_SPEED` |
| Keyboard.MoveSetsVelocity | src/keyboard.rs:25-28 | `Move(d)` sets the player speed and direction `d` |
| Keyboard.StopKeepsDirection | src/keyboard.rs:29 | `Stop` zeroes the speed and keeps the direction |
| Keyboard.StopIdempotent | src/keyboard.rs:29 | applying `Stop` twice equals applying it once |
| Keyboard.Run | src/keyboard.rs:17-32 | `Keyboard::run` leaves the Velocity storage as `Steered` states and changes nothing else |
| Game.DirectionSpritesheetRow | src/main.rs:20-28 | a direction's row lies in 0..3 |
| Game.RowsAreDistinct | src/main.rs:20-28 | the row map is injective with range {0, 1, 2, 3} |
| Game.CharacterAnimationFrames | src/main.rs:30-48 | exactly 3 frames, each with the given sheet and the top-left frame's size; frame i at x = x0 + w*i and y = y0 + h*row (the direction's `Strip`); distinct frames do not overlap |
| Game.StepApart | src/main.rs:39 | frames i < j start at least one width apart |
| Game.StripsOfDirectionsDisjoint | src/main.rs:32 | with a positive height, the strips of different directions have distinct, non-overlapping rows |
| Game.CanvasRect | src/main.rs:99-101 | the canvas region is centred on (0, 0) with the window's size and extends equally (to within one unit) on both sides |
| Game.CharacterAnimation | src/main.rs:53-59 | the movement animation starts at frame 0 and its up, down, left and right frames are each that direction's full strip; the first right-facing frame lies in row 2 |
| Game.AnimationFramesDisjoint | src/main.rs:30-48 | no two frames of a character's animation, in the same strip or in different ones, overlap on the sheet |
| Game.PlaceCharacter | src/main.rs:63-66 | a character gets its Position, the resting Velocity, its whole movement animation and, as Sprite, that animation's first right-facing frame |
| Game.Place | src/main.rs:63-65 | a new entity gets its Position, the resting Velocity and its Sprite |
| Game.InitializePlayer | src/main.rs:50-68 | the player is a new keyboard-controlled entity, 26 by 36, centred on the origin, at speed 0 facing Right, showing its first right-facing frame (0, 72, 26, 36) and carrying the animation of all four strips; no other entity's components or tags change |
| Game.InitializeEnemy | src/main.rs:70-88 | an enemy is a new Enemy entity, 32 by 36, centred on the given point, at speed 0 facing Right, showing its first right-facing frame (0, 72, 32, 36) and carrying the animation of all four strips; no other entity's components or tags change |
| Game.InitializeItem | src/main.rs:90-97 | an item is a new Item entity, 12 by 23, centred on the given point, at speed 0 facing Right, with the fixed sprite region and no animation |
| Game.EndsGame | src/main.rs:172 | definition: a Quit event, or a KeyDown of Escape whether repeated or not |
| Game.EventCommand | src/main.rs:175-193 | definition of the match arms: a fresh arrow press moves that way, a fresh arrow release stops, every other event leaves the command alone |
| Game.EventCommandCases | src/main.rs:171-194 | repeats, non-arrow keys and other events set no command; a move comes exactly from a fresh arrow press, in the arrow's direction, and a stop exactly from a fresh arrow release |
| Game.LatestCommandNone | src/main.rs:169-195 | the fold gives no command iff no event sets one |
| Game.LatestCommandIsLast | src/main.rs:169-195 | the last event that sets a command decides it |
| Game.HandleEvents | src/main.rs:169-195 | the loop ends the game iff some event is Quit or Escape pressed; otherwise it returns the latest command; when it ends the game, the command is the one left by the events before the first ending event |
| Game.RunFrame | src/main.rs:167-204 | one frame: a quit event leaves the whole world untouched; otherwise the velocities are steered, the positions committed, and every storage and tag loses the killed and picked-up entities, with no id allocated |
| Scenarios.CanvasBounds | src/main.rs:99-101 | the 350 by 350 window's canvas region is x and y in -175..175 |
| Scenarios.PlayerStartsCentred | src/main.rs:63 | the player's rectangle starts at (-13, -18) |
| Scenarios.RightStep | src/physics.rs:13 | at the player speed, 50 ms move 10 units to the right |
| Scenarios.LeftStep | src/physics.rs:12 | at the player speed, 50 ms move 10 units to the left |
| Scenarios.PlayerMovesRight | src/physics.rs:32-58 | the lone player moving right for 50 ms ends centred on (10, 0) |
| Scenarios.CanvasEdge | src/physics.rs:55 | a destination touching the canvas edge is taken; one past the edge by a unit is refused |
| Scenarios.ApproachStalls | src/physics.rs:32-58 | any two entities walking toward each other whose destinations meet form the stalled set and both keep their positions |
| Scenarios.PredictedOverlapStallsBoth | src/physics.rs:43-58 | two entities that do not touch now but would after the move both stay |
| Scenarios.PickupOnDestinations | src/physics.rs:61-76 | an item meeting the player is deleted; one meeting only an enemy is stalled and kept |
| Scenarios.PickupByPlayerOnly | src/physics.rs:39-76 | the same outcome from a world at rest |
| Scenarios.MoverCanOverlapBlocked | src/physics.rs:43-58 | an entity can move into the kept rectangle of an entity that the canvas edge blocked, since stalling compares destinations only |

## Left out

- Floating point: speed is an exact real and `(speed * ms as f64) as i32`
  truncates the exact product toward zero. Rounding of the f64 product and
  saturation of the cast at the i32 bounds are not modelled.
- Integer widths: coordinates are unbounded integers. The sdl2 crate's
  clamping of `Rect` positions and sizes at its coordinate and size limits
  is not modelled; only its replacement of a zero size by 1 is.
- Physics.Trunc: states bounds and oddness rather than an encoding of
  Rust's saturating cast, for the reason above.
- Time: the frame duration is a parameter in whole milliseconds, because
  the source takes `as_millis()` of an `Instant` reading.
- Resources: the movement command, the canvas region and the frame
  duration are parameters rather than world resources.
- The renderer, SDL, image and font initialisation, texture loading, the
  frame sleep and the colour cycling in `main` are I/O and are not
  modelled.
- The `Ai` and `Animator` systems are not part of this model, and their
  source is not available. A frame therefore runs Keyboard, Physics and
  `maintain` only.
- Scheduling: the specs dispatcher may run systems concurrently. The model
  runs them in their declared dependency order, one after another.
- Entity identities: specs' generational identities and slot recycling
  are modelled as numbers that are never reused.
- Storage internals: VecStorage and NullStorage are modelled as finite
  maps and sets.
- The event loop is modelled on a finite batch of events. Breaking out of
  `'running` ends the model's frame before any system runs.
- The text shown by the renderer and the window title have no behaviour
  to model.
