/**
 * The player sprite as an object whose fields its methods update in place,
 * and the main loop that drives it once per frame.
 */
module Game {
  import opened Sprite

  class Player {
    var state: Facing
    var animationIndex: int
    var animationTime: real
    var direction: Vec
    var image: Image

    /** The value of the fields, as the state machine of module Sprite sees them. */
    function Snapshot(): PlayerState
      reads this
    {
      PlayerState(state, animationIndex, animationTime, direction, image)
    }

    constructor ()
      ensures Snapshot() == Initial()
    {
      image := Image(Down, 0);
      direction := Zero;
      state := Down;
      animationIndex := 0;
      animationTime := 0.0;
    }

    /** Advance the walking animation by `dt` seconds. */
    method Update(dt: real)
      modifies this
      ensures Snapshot() == Sprite.Update(old(Snapshot()), dt)
      ensures old(Valid(Snapshot())) ==> Valid(Snapshot())
    {
      if direction != Zero {
        animationTime := animationTime + dt;
        if animationTime > FrameDuration {
          animationTime := 0.0;
          animationIndex := animationIndex + 1;
          animationIndex := animationIndex % FrameCount;
          image := Image(state, animationIndex);
        }
      } else {
        animationIndex := 0;
        image := Image(state, animationIndex);
      }
    }

    /** Choose the facing from the input and store the input as the direction. */
    method Move(dx: int, dy: int)
      modifies this
      ensures Snapshot() == Sprite.Move(old(Snapshot()), dx, dy)
      ensures old(Valid(Snapshot())) ==> Valid(Snapshot())
    {
      if dx > 0 {
        state := Right;
      } else if dx < 0 {
        state := Left;
      } else if dy > 0 {
        state := Down;
      } else if dy < 0 {
        state := Up;
      }
      direction := Vec(dx, dy);
    }
  }

  /**
   * The main loop over the given frames: each pass animates first and then
   * applies that pass's input. Returns the player it created.
   */
  method RunFrames(frames: seq<Frame>) returns (player: Player)
    ensures fresh(player)
    ensures player.Snapshot() == Run(Initial(), frames)
    ensures Valid(player.Snapshot())
  {
    player := new Player();
    var i := 0;
    while i < |frames|
      invariant 0 <= i <= |frames|
      invariant player.Snapshot() == Run(Initial(), frames[..i])
      invariant Valid(player.Snapshot())
    {
      player.Update(frames[i].dt);
      player.Move(frames[i].dx, frames[i].dy);
      assert frames[..i + 1][..i] == frames[..i];
      i := i + 1;
    }
    assert frames[..i] == frames;
  }
}
