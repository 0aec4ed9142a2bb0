/**
 * Properties of the player sprite over many passes of the main loop.
 */
module SpriteProperties {
  import opened Sprite

  predicate NoInput(f: Frame)
  {
    Vec(f.dx, f.dy) == Zero
  }

  /** The facing chosen for a nonzero input does not depend on the old facing. */
  lemma FaceIgnoresCurrent(c1: Facing, c2: Facing, dx: int, dy: int)
    requires Vec(dx, dy) != Zero
    ensures Face(c1, dx, dy) == Face(c2, dx, dy)
  {
  }

  /**
   * The properties stated by `Face`'s contract determine the facing: any
   * facing that keeps the current one on no input, points along a nonzero
   * input, and is horizontal under horizontal input, is the one chosen.
   */
  lemma FaceDetermined(current: Facing, dx: int, dy: int, f: Facing)
    requires Vec(dx, dy) == Zero ==> f == current
    requires Vec(dx, dy) != Zero ==> Dot(Heading(f), Vec(dx, dy)) > 0
    requires dx != 0 ==> IsHorizontal(f)
    ensures f == Face(current, dx, dy)
  {
  }

  /** The sprite's invariant holds after any number of passes. */
  lemma {:induction false} RunPreservesValid(p: PlayerState, frames: seq<Frame>)
    requires Valid(p)
    ensures Valid(Run(p, frames))
    decreases |frames|
  {
    if frames != [] {
      RunPreservesValid(p, frames[..|frames| - 1]);
    }
  }

  /**
   * With non-negative frame times the accumulated time stays between 0 and
   * one frame's duration.
   */
  lemma {:induction false} RunKeepsTimeInRange(p: PlayerState, frames: seq<Frame>)
    requires Valid(p) && 0.0 <= p.animationTime
    requires forall i :: 0 <= i < |frames| ==> 0.0 <= frames[i].dt
    ensures 0.0 <= Run(p, frames).animationTime <= FrameDuration
    decreases |frames|
  {
    if frames != [] {
      var prefix := frames[..|frames| - 1];
      RunKeepsTimeInRange(p, prefix);
      RunPreservesValid(p, prefix);
    }
  }

  /** Without any input the sprite keeps its facing. */
  lemma {:induction false} FacingKeptWithoutInput(p: PlayerState, frames: seq<Frame>)
    requires forall i :: 0 <= i < |frames| ==> NoInput(frames[i])
    ensures Run(p, frames).state == p.state
    decreases |frames|
  {
    if frames != [] {
      FacingKeptWithoutInput(p, frames[..|frames| - 1]);
    }
  }

  /**
   * The sprite faces the way chosen for the latest nonzero input, whatever
   * came before it: frame `k` has input and no later frame has.
   */
  lemma {:induction false} FacingFollowsLatestInput(p: PlayerState, frames: seq<Frame>, k: int)
    requires 0 <= k < |frames| && !NoInput(frames[k])
    requires forall j :: k < j < |frames| ==> NoInput(frames[j])
    ensures Run(p, frames).state == Face(p.state, frames[k].dx, frames[k].dy)
    decreases |frames|
  {
    var prefix := frames[..|frames| - 1];
    var last := frames[|frames| - 1];
    if k == |frames| - 1 {
      FaceIgnoresCurrent(Run(p, prefix).state, p.state, last.dx, last.dy);
    } else {
      FacingFollowsLatestInput(p, prefix, k);
    }
  }

  /**
   * Once a pass has no input, the next pass shows picture 0 of the facing
   * then held; with no input in that next pass either, the picture shown is
   * picture 0 of the current facing.
   */
  lemma StandingResetsFrame(p: PlayerState, frames: seq<Frame>)
    requires |frames| >= 2 && NoInput(frames[|frames| - 2])
    ensures Run(p, frames).animationIndex == 0
    ensures Run(p, frames).image == Image(Run(p, frames[..|frames| - 1]).state, 0)
    ensures NoInput(frames[|frames| - 1]) ==>
      Run(p, frames).image == Image(Run(p, frames).state, 0)
  {
    var prefix := frames[..|frames| - 1];
    assert prefix != [] && prefix[|prefix| - 1] == frames[|frames| - 2];
    assert !Moving(Run(p, prefix));
  }

  /**
   * While walking with frames slower than one picture's duration, every pass
   * shows the next picture of the walking cycle.
   */
  lemma {:induction false} SlowWalkAdvancesEveryPass(p: PlayerState, frames: seq<Frame>)
    requires Valid(p) && Moving(p) && 0.0 <= p.animationTime
    requires forall i :: 0 <= i < |frames| ==>
      !NoInput(frames[i]) && frames[i].dt > FrameDuration
    ensures Run(p, frames).animationIndex == (p.animationIndex + |frames|) % FrameCount
    ensures Moving(Run(p, frames))
    ensures 0.0 <= Run(p, frames).animationTime
    decreases |frames|
  {
    if frames != [] {
      var prefix := frames[..|frames| - 1];
      SlowWalkAdvancesEveryPass(p, prefix);
      var q := Run(p, prefix);
      assert q.animationIndex == (p.animationIndex + |prefix|) % FrameCount;
      assert q.animationTime + frames[|frames| - 1].dt > FrameDuration;
      assert Run(p, frames).animationIndex == (q.animationIndex + 1) % FrameCount;
    }
  }

  /** Four slow walking passes bring the cycle back to the picture it started on. */
  lemma SlowWalkCycleCloses(p: PlayerState, frames: seq<Frame>)
    requires Valid(p) && Moving(p) && 0.0 <= p.animationTime && |frames| == FrameCount
    requires forall i :: 0 <= i < |frames| ==>
      !NoInput(frames[i]) && frames[i].dt > FrameDuration
    ensures Run(p, frames).animationIndex == p.animationIndex
  {
    SlowWalkAdvancesEveryPass(p, frames);
  }

  /**
   * The picture is only refreshed by the animation step, so after a turn the
   * sprite keeps showing the old facing until the next picture is due: from
   * the start, a pass walking right and then a second, short one leave the
   * sprite facing right while it still shows picture 0 facing down.
   */
  lemma ImageLagsBehindTurn(first: Frame, second: Frame)
    requires first.dx > 0 && second.dx > 0
    requires 0.0 <= second.dt <= FrameDuration
    ensures Run(Initial(), [first, second]).state == Right
    ensures Run(Initial(), [first, second]).image == Image(Down, 0)
  {
    var fs := [first, second];
    assert fs[..1] == [first] && [first][..0] == [];
    var p1 := Step(Initial(), first);
    assert Run(Initial(), [first]) == p1;
    assert p1.image == Image(Down, 0) && p1.animationTime == 0.0 && Moving(p1);
  }
}
