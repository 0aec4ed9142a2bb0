# Player sprite animation state machine

A Dafny model of the `Player` sprite of a small top-down survival game
(`code/main.py`). The player has a facing (`"up"`, `"down"`, `"left"` or
`"right"`), a walking cycle of four pictures per facing, a timer that
accumulates the seconds spent walking, and the last keyboard input vector.
Each pass of the main loop first advances the animation (`update(dt)`) using
the direction left by the previous pass, and then applies the new input
(`move(dx, dy)`), which chooses the facing (horizontal input beats vertical,
no input keeps the facing) and stores the input as the direction.

The project has three modules:

- `Sprite` (`sprite.dfy`): the state machine on values. `PlayerState` holds
  the facing, the frame number, the accumulated time (a `real`), the direction
  and the picture shown, abstracted as the pair (facing, frame) that selects it
  from the table of loaded images. `Face`, `Update`, `Move` and `Step` are the
  operations, `Run` folds `Step` over a sequence of passes, and `Valid` is the
  invariant: frame number in 0..3, the picture shown is that frame, and the
  accumulated time is at most 0.2 seconds.
- `SpriteProperties` (`properties.dfy`): lemmas over runs of the main loop.
- `Game` (`game.dfy`): the sprite as a `Player` class whose methods update its
  fields in place, each proved to agree with the functions of `Sprite`, and
  `RunFrames`, the main loop over a given sequence of passes.

The elapsed time `dt` and the keyboard input `(dx, dy)` of each pass are
parameters (a `Frame`); the clock, the event queue and the keyboard are not
modelled. The "direction has a length" test of code/main.py:49 is the
predicate `Sprite.Moving`: "the stored input is not (0, 0)". This is exact,
because the input is stored before normalising and normalising keeps a nonzero
vector nonzero.

One behaviour worth knowing, illustrated by `ImageLagsBehindTurn` and stated in
general by the last ensures of `Sprite.Step`: the picture is only refreshed by
`update`, and while walking only when the next picture is due. So when the
player turns while walking, or starts walking from standing, the sprite goes
on showing the previous facing's picture until the accumulated walking time
exceeds 0.2 seconds, although `state` has already changed. Starting from zero
accumulated time the wait is strictly more than 0.2 seconds, because the
threshold is strict. Walking time left over from before standing, which
standing keeps, makes the wait shorter.

## Model

| member | source | states |
|---|---|---|
| `Sprite.Initial` | code/main.py:35-46 | the new sprite faces down, shows picture 0 of "down", has no input, zero accumulated time, and satisfies the invariant |
| `Sprite.Face` | code/main.py:62-69 | no input keeps the current facing; a nonzero input gives a facing whose unit vector points along the input (positive dot product); any horizontal input gives a horizontal facing, so horizontal wins on diagonals |
| `Sprite.Update` | code/main.py:48-59 | facing and direction unchanged; standing: frame 0, picture 0 of the current facing, time untouched; walking and time plus dt above 0.2: time reset to 0, frame advanced by one modulo 4 and that picture shown; otherwise time grows by dt and frame and picture stay; keeps the invariant; keeps the time non-negative when dt is non-negative |
| `Sprite.Move` | code/main.py:61-71 | the facing is `Face` of the input; the sprite is walking afterwards exactly when the input is not (0, 0); the input is stored as the direction; frame, time and picture untouched; keeps the invariant |
| `Sprite.Run` | code/main.py:93-106 | the state after the given passes, oldest first, each animating with the previous pass's direction and then applying its own input: no passes leave the state as it was, and after at least one pass the stored direction is the last pass's input (code/main.py:70-71) |
| `Sprite.Step` | code/main.py:105-106 | one pass (animate, then move) keeps the invariant, sets the facing from the input, leaves the sprite walking exactly when the input is nonzero, shows picture 0 of the previous facing when the sprite was standing, and otherwise shows either the old picture or the current frame of the previous facing |
| `SpriteProperties.FaceIgnoresCurrent` | code/main.py:62-69 | for a nonzero input the chosen facing does not depend on the previous facing |
| `SpriteProperties.FaceDetermined` | code/main.py:62-69 | the three properties stated for `Face` single out the facing the code picks: any facing satisfying them is `Face`'s result |
| `SpriteProperties.RunPreservesValid` | code/main.py:45-59 | after any number of passes the frame number is in 0..3, the picture shown is that frame, and the accumulated time is at most 0.2 |
| `SpriteProperties.RunKeepsTimeInRange` | code/main.py:46-53 | with non-negative frame times the accumulated time stays between 0 and 0.2 over any run |
| `SpriteProperties.FacingKeptWithoutInput` | code/main.py:61-69 | passes without input never change the facing |
| `SpriteProperties.FacingFollowsLatestInput` | code/main.py:61-69 | after a run the sprite faces the way chosen for the latest nonzero input, whatever came before it |
| `SpriteProperties.StandingResetsFrame` | code/main.py:57-59 | the pass after a pass without input shows frame 0 of the facing held before that pass's input; with no input in it either, picture 0 of the current facing |
| `SpriteProperties.SlowWalkAdvancesEveryPass` | code/main.py:50-56 | while walking with every pass longer than 0.2 seconds, each pass advances the frame by exactly one modulo 4 |
| `SpriteProperties.SlowWalkCycleCloses` | code/main.py:54-55 | four such passes return the walking cycle to the frame it started on |
| `SpriteProperties.ImageLagsBehindTurn` | code/main.py:48-59 | from the start, a pass walking right followed by a pass of at most 0.2 seconds leaves the sprite facing right but still showing picture 0 facing down |
| `Game.Player.constructor` | code/main.py:35-46 | the fields start as `Sprite.Initial` |
| `Game.Player.Update` | code/main.py:48-59 | the fields are updated in place to `Sprite.Update` of their old value; the invariant is kept |
| `Game.Player.Move` | code/main.py:61-71 | the fields are updated in place to `Sprite.Move` of their old value; the invariant is kept |
| `Game.RunFrames` | code/main.py:93-106 | the main loop, updating then moving once per pass, leaves a fresh player whose fields equal `Sprite.Run` of the initial state over the passes, and the invariant holds |

## Left out

- Display set-up, filling, drawing and flipping the screen (code/main.py:4-14, 108-112): rendering.
- Loading the pictures and the `player_images` table (code/main.py:18-31): file I/O; a picture is the pair (facing, frame) that selects it.
- The event loop, `pygame.QUIT`, keyboard polling and `clock.tick` (code/main.py:93-103): foreign calls; each pass's `dt` and `(dx, dy)` are given as a `Frame`, and the loop runs over a finite sequence of passes instead of until the window closes.
- Sprite.Move, Sprite.Run, Game.Player.Move: do not normalise the direction (code/main.py:74-75), because that is floating-point square-root arithmetic; the raw input is stored instead, which has the same zero test that `update` relies on.
- The position update `rect.x += direction.x * speed`, the speed constant and the starting position (code/main.py:39-41, 77-78): floating-point arithmetic followed by the integer truncation of the library's rectangle type, which is not part of this model.
- `animation_time` and `dt` are exact reals; the binary floating-point rounding of `0.2` and of the sums is not modelled.
