/**
 The component types of the game (src/components.rs). The three tag
 components (KeyboardControlled, Enemy, Item) carry no data; in the world
 they are sets of entities rather than types.
 */
module Components {
  import opened Rects

  datatype Option<T> = None | Some(value: T)

  datatype Direction = Up | Down | Left | Right

  /** The source stores the speed as an f64; here it is an exact real. */
  datatype Velocity = Velocity(speed: real, direction: Direction)

  datatype Position = Position(rect: Rect)

  datatype Sprite = Sprite(spritesheet: nat, region: Rect)

  datatype MovementAnimation = MovementAnimation(
    currentFrame: nat,
    upFrames: seq<Sprite>,
    downFrames: seq<Sprite>,
    leftFrames: seq<Sprite>,
    rightFrames: seq<Sprite>)
}
