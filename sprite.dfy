/**
 * The player sprite's facing and walking-animation state machine, as values.
 *
 * A `PlayerState` holds what the sprite keeps between frames: the facing
 * (`state`), the animation frame number, the time accumulated towards the
 * next frame, the last input vector and the image currently shown. The image
 * is abstracted as the pair (facing, frame) that selects it from the table of
 * loaded pictures.
 */
module Sprite {

  /** The four facings; the game's code names them "up", "down", "left", "right". */
  datatype Facing = Up | Down | Left | Right

  /** An image of the player: frame `frame` of the walking cycle for `facing`. */
  datatype Image = Image(facing: Facing, frame: int)

  /** The input vector; the keyboard gives components in -1..1, any int is accepted. */
  datatype Vec = Vec(x: int, y: int)

  datatype PlayerState = PlayerState(
    state: Facing,
    animationIndex: int,
    animationTime: real,
    direction: Vec,
    image: Image)

  /** One pass of the main loop: the elapsed time and the keyboard input. */
  datatype Frame = Frame(dt: real, dx: int, dy: int)

  /** Number of pictures in each walking cycle. */
  const FrameCount: int := 4

  /** Seconds of walking after which the next picture is shown. */
  const FrameDuration: real := 0.2

  const Zero: Vec := Vec(0, 0)

  /** The unit vector a facing points along (screen y grows downwards). */
  function Heading(f: Facing): Vec
  {
    match f
    case Up => Vec(0, -1)
    case Down => Vec(0, 1)
    case Left => Vec(-1, 0)
    case Right => Vec(1, 0)
  }

  predicate IsHorizontal(f: Facing)
  {
    f == Left || f == Right
  }

  function Dot(u: Vec, v: Vec): int
  {
    u.x * v.x + u.y * v.y
  }

  /** The sprite counts as walking when its stored direction has a length. */
  predicate Moving(p: PlayerState)
  {
    p.direction != Zero
  }

  /**
   * The invariant the sprite keeps: the frame number is a valid index into a
   * walking cycle, the image shown is that frame, and the accumulated time
   * never exceeds one frame's duration.
   */
  predicate Valid(p: PlayerState)
  {
    0 <= p.animationIndex < FrameCount &&
    p.image.frame == p.animationIndex &&
    p.animationTime <= FrameDuration
  }

  /** The sprite as created: facing down, frame 0, no time, no input. */
  function Initial(): (p: PlayerState)
    ensures p.state == Down
    ensures Valid(p) && !Moving(p) && p.animationTime == 0.0
    ensures p.image == Image(p.state, 0)
  {
    PlayerState(Down, 0, 0.0, Zero, Image(Down, 0))
  }

  /**
   * The facing chosen for input (dx, dy) when the sprite currently faces
   * `current`. A nonzero input yields a facing that points along the input,
   * horizontal whenever there is horizontal input; no input keeps the facing.
   */
  function Face(current: Facing, dx: int, dy: int): (r: Facing)
    ensures Vec(dx, dy) == Zero ==> r == current
    ensures Vec(dx, dy) != Zero ==> Dot(Heading(r), Vec(dx, dy)) > 0
    ensures dx != 0 ==> IsHorizontal(r)
  {
    if dx > 0 then Right
    else if dx < 0 then Left
    else if dy > 0 then Down
    else if dy < 0 then Up
    else current
  }

  /**
   * One animation step of `dt` seconds. While walking, the time accumulates
   * and, once it exceeds one frame's duration, is reset and the next picture
   * of the cycle is shown; otherwise the picture is left as it was. While
   * standing, the cycle snaps back to picture 0 of the current facing.
   */
  function Update(p: PlayerState, dt: real): (r: PlayerState)
    ensures r.state == p.state && r.direction == p.direction
    ensures !Moving(p) ==>
      r.animationIndex == 0 && r.image == Image(p.state, 0) &&
      r.animationTime == p.animationTime
    ensures Moving(p) && p.animationTime + dt > FrameDuration ==>
      r.animationTime == 0.0 &&
      r.animationIndex == (p.animationIndex + 1) % FrameCount &&
      r.image == Image(p.state, r.animationIndex)
    ensures Moving(p) && p.animationTime + dt <= FrameDuration ==>
      r.animationTime == p.animationTime + dt &&
      r.animationIndex == p.animationIndex && r.image == p.image
    ensures Valid(p) ==> Valid(r)
    ensures 0.0 <= p.animationTime && 0.0 <= dt ==> 0.0 <= r.animationTime
  {
    if Moving(p) then
      var t := p.animationTime + dt;
      if t > FrameDuration then
        var index := (p.animationIndex + 1) % FrameCount;
        p.(animationTime := 0.0, animationIndex := index,
           image := Image(p.state, index))
      else
        p.(animationTime := t)
    else
      p.(animationIndex := 0, image := Image(p.state, 0))
  }

  /**
   * Apply keyboard input (dx, dy): choose the facing and store the input as
   * the direction. The animation fields and the image are not touched.
   */
  function Move(p: PlayerState, dx: int, dy: int): (r: PlayerState)
    ensures r.state == Face(p.state, dx, dy)
    ensures Moving(r) <==> Vec(dx, dy) != Zero
    ensures r.direction.x == dx && r.direction.y == dy
    ensures r.animationIndex == p.animationIndex &&
            r.animationTime == p.animationTime && r.image == p.image
    ensures Valid(p) ==> Valid(r)
  {
    p.(state := Face(p.state, dx, dy), direction := Vec(dx, dy))
  }

  /**
   * One pass of the main loop: animate with the direction left by the
   * previous pass, then apply this pass's input.
   */
  function Step(p: PlayerState, f: Frame): (r: PlayerState)
    ensures Valid(p) ==> Valid(r)
    ensures r.state == Face(p.state, f.dx, f.dy)
    ensures Moving(r) <==> Vec(f.dx, f.dy) != Zero
    ensures !Moving(p) ==> r.animationIndex == 0 && r.image == Image(p.state, 0)
    ensures r.image == p.image || r.image == Image(p.state, r.animationIndex)
  {
    Move(Update(p, f.dt), f.dx, f.dy)
  }

  /** The state after running the main loop over `frames`, oldest first. */
  function Run(p: PlayerState, frames: seq<Frame>): (r: PlayerState)
    ensures frames == [] ==> r == p
    ensures frames != [] ==>
      r.direction == Vec(frames[|frames| - 1].dx, frames[|frames| - 1].dy)
    decreases |frames|
  {
    if frames == [] then p
    else Step(Run(p, frames[..|frames| - 1]), frames[|frames| - 1])
  }
}
