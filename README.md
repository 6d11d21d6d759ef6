# creeps: a Dafny model of the simulation core

The game is a small pygame arcade game. Seventy creeps wander over a
920 x 540 field. Each creep turns by a random multiple of 45 degrees now and
then, moves by heading x speed x elapsed time, and bounces off the first wall
it crosses. The player steers a dodgeball with the arrow keys. The ball stops
at the same walls. When a creep covers the ball, the ball starts an explosion
animation and the game is over. The creep speed goes up every ten seconds of
play. A small state machine (ready, playing, over; plus a pause flag with
pause-time accounting) is driven by the keyboard events of each frame.

The project models that core in these modules:

- `Geometry` (geometry.dfy): screen positions, pygame `Rect` and its inward
  `inflate` (halved with C's truncating division), Python's `int()`, images
  as alpha rasters, and the shared first-violated-side wall clamp.
- `Heading` (heading.dfy): a creep's direction as one of eight octants
  (45k degrees), with the turn and the two axis reflections.
- `Animation` (simpleanimation.dfy): SimpleAnimation. There is a pure step
  function `Next` with its iterate `Run`, and a `SimpleAnimation` class whose
  `Update` is proved to follow `Next`. The lemmas give the frame schedule and
  the duration schedule in closed form.
- `Input` (input.dfy): the keys, events and mouse state the game reads.
- `Creeps` (creeps.dfy): the turn timer, the alive branch of `Creep.update`,
  the hit test and the alive branch of `Dodgeball.update` as pure functions,
  and a `Creep` class and a `Dodgeball` class whose methods are proved to
  follow them. `_explode` is the method `Dodgeball.Explode`.
- `Rules` (rules.dfy): the control state of the `Game` as a value. This
  covers the three state blocks of the event loop, `game_over`,
  `get_play_time` and the difficulty formula, with lemmas about their
  sequences.
- `GameLoop` (game.dfy): the `Game` class. It holds the control fields, the
  creeps and the ball. Its methods are `load_game`, one pass of the event loop
  and `element_move`. Their contracts tie the new state to the `Rules`
  functions and to `Frames`/`Covered`/`Count`. Those functions are the
  per-creep frame update, the per-creep hit test and the number of
  `game_over` calls.

Random draws (`randint`, `choice`), the tick counter (`get_ticks`), the
mouse, the polled events and `pygame.transform.rotate` are parameters.
Preconditions bound the random draws to the ranges the source draws from.

Behaviour of the code that is easy to misread:

- `SimpleAnimation.update` takes no argument, although its docstring
  documents `time_passed` (simpleanimation.py:41-46). Every call adds the
  fixed step `scroll_period / len(images)` (simpleanimation.py:27). So with
  4 frames and a period of 400 the frame first changes on the fifth call
  (`Animation.FourFrameExample`).
- The wall bounds use `image_w` and `image_h`, which are captured from the
  base image in the constructor (creeps.py:64), not the size of the rotated
  image (creeps.py:114).
- The turn threshold is `randint(700, 3000)`, which includes both ends
  (creeps.py:186).
- The creep loop does not stop at a collision: every colliding creep calls
  `_explode` and `game_over` (creeps.py:387-390). So `paused` is flipped once
  per colliding creep.
- `get_play_time` reads the clock on each call (creeps.py:399), once per
  creep, so creeps of one frame can get different speeds
  (`Rules.SpeedCanChangeWithinFrame`).
- Only the first violated wall is corrected (creeps.py:116-127), so a
  position beyond two walls stays outside on the other axis
  (`Geometry.CornerViolationStaysOutside`).

## Model

| member | source | states |
|---|---|---|
| Geometry.HalfTowardZero | creeps.py:114 | C halving of the inflate delta: truncation toward zero, remainder at most 1 in size |
| Geometry.Inflate | creeps.py:114 | inflate by (dx, dy) changes the size by (dx, dy); for a shrink, the left/top move in by floor(d/2) and the right/bottom by ceil(d/2) |
| Geometry.Trunc | creeps.py:161-163 | Python `int()` on a float: the integer toward zero within one of x |
| Geometry.Clamp | creeps.py:114-127 | the left > right > top > bottom chain: which side fires, exactly when each fires, that only that coordinate moves onto the bound, and that a position inside the bounds (inclusive) is unchanged |
| Geometry.SingleViolationIsFixed | creeps.py:116-127 | when only one axis is out of bounds, the corrected position is inside |
| Geometry.CornerViolationStaysOutside | creeps.py:116-127 | a position beyond the left and top bounds only gets its x fixed and stays outside |
| Heading.Rotate | creeps.py:187 | a turn by 45r degrees adds r to the octant, wrapping at a full turn |
| Heading.ReflectX | creeps.py:118 | `direction.x *= -1`: the x component is negated and y kept |
| Heading.ReflectY | creeps.py:124 | `direction.y *= -1`: the y component is negated and x kept |
| Heading.FromSigns | creeps.py:67-71 | the normalised (sx, sy) is the diagonal with components sx·√2/2 and sy·√2/2 |
| Heading.NearlyUnit | creeps.py:69-71 | every heading has unit length (to the precision of the √2/2 constant) |
| Heading.ReflectionsAreInvolutions | creeps.py:116-127 | reflecting twice in the same axis restores the heading |
| Animation.Next | simpleanimation.py:41-55 | one update: the pointer stays below the frame count, advances mod n exactly when the scroll count plus the step strictly exceeds the period (and the period is subtracted), the accumulator stays in [0, period], the duration count and active flag do not change for a negative duration, and otherwise active stays true only while the new count is at most the duration |
| Animation.StepBounded | simpleanimation.py:27 | the step period/n lies in [0, period] for a non-negative period, and is positive for a positive one |
| Animation.SlotsClosedForm | simpleanimation.py:47-50 | counted in steps, after k >= 1 updates the accumulator is ((k-1) mod n)+1 and the pointer has advanced (k-1) div n times |
| Animation.RunInSteps | simpleanimation.py:47-50 | the real accumulator and pointer after k updates agree with the step count, and an update wraps exactly when a full period has accumulated |
| Animation.ScrollSchedule | simpleanimation.py:27-50 | from creation, after k >= 1 updates the pointer is ((k-1) div n) mod n and the accumulator ((k-1) mod n)+1 steps |
| Animation.FrameChangesOn | simpleanimation.py:27-50 | update k changes the frame exactly when k > n and (k-1) is a multiple of n: on update n+1 and every n-th after |
| Animation.DurationInSteps | simpleanimation.py:52-55 | for a non-negative duration the duration count after k updates is k steps added up, and the animation is active exactly while that is at most the duration |
| Animation.DurationSchedule | simpleanimation.py:52-55 | the same with the count written as k·step |
| Animation.IndefiniteStaysActive | simpleanimation.py:9-55 | with duration -1 the animation is active for ever and its duration count stays 0 |
| Animation.InactiveIsFinal | simpleanimation.py:55 | once inactive, an animation stays inactive for every later update |
| Animation.ExplosionSchedule | creeps.py:190-197 | the ball's explosion (2 frames, period 10000) changes frame on updates 3, 5, 7, ... |
| Animation.FourFrameExample | simpleanimation.py:27-55 | 4 frames, period 400, duration 1000: the frame is still 0 after 4 updates, 1 after 5; active after 10 updates and not after 11 |
| Animation.SimpleAnimation.constructor | simpleanimation.py:9-31 | a non-empty image list; the pointer and both counts start at 0, active is true, and the step is period/len(images) |
| Animation.SimpleAnimation.IsActive | simpleanimation.py:33-39 | returns the active flag and changes nothing |
| Animation.SimpleAnimation.Update | simpleanimation.py:41-55 | the new state is `Next` of the old one, and the invariant is kept: the pointer is in range, the state equals `Run` of the update count, and, for a period >= 0, the accumulator is in [0, period] |
| Creeps.TurnTimer | creeps.py:181-188 | the counter grows by t, and exactly when it exceeds the drawn threshold the heading turns and the counter resets to 0; afterwards the counter is at most 3000, and a counter of at most 700 never turns |
| Creeps.Displace | creeps.py:104-108 | with a non-negative speed and frame time, each coordinate moves by at most speed x time; a horizontal heading keeps y and a vertical one keeps x |
| Creeps.Bounce | creeps.py:116-127 | the position is the clamp's; the direction component of the wall that fired is negated, the other kept, and an inside position keeps its heading |
| Creeps.CreepStep | creeps.py:85-127 | the alive update: the turn timer's counter, the image rotated to the new heading, the speed kept, the position and heading those of `Bounce` on the displaced position, at most one coordinate corrected, and a displaced position inside the bounds is kept with its heading |
| Creeps.LeftWallBounce | creeps.py:116-118 | a creep moved past the left bound is put on it with its horizontal direction reversed and its vertical kept |
| Creeps.PointIsInside | creeps.py:157-168 | a hit exactly when the truncated offset from the sprite's corner indexes the image and that pixel's alpha is positive; an index outside the image is a miss, so a hit lies within the image's box |
| Creeps.CentreIndex | creeps.py:161-163 | the sprite's own position falls on pixel size/2 or the one before it, and never before pixel 0 |
| Creeps.CentreOfOpaqueImageHits | creeps.py:157-168 | the centre of a fully opaque sprite is a hit |
| Creeps.OpaqueSquareExample | creeps.py:157-168 | a 10 x 10 opaque sprite: its centre is a hit and a far point is not |
| Creeps.BallStep | creeps.py:203-219 | x moves by move[RIGHT] - move[LEFT] and y by move[DOWN] - move[UP], then the shared clamp; a moved position inside the bounds is kept, and at most one coordinate is corrected |
| Creeps.BallMovesRight | creeps.py:203-219 | with only RIGHT held at 5, a ball at (50, 50) moves to (55, 50) |
| Creeps.Creep.constructor | creeps.py:20-76 | the base image and its size are captured, the bounds are the field shrunk by that size, and the heading is the normalised diagonal |
| Creeps.Creep.ChangeDirection | creeps.py:181-188 | the counter and heading become `TurnTimer` of the old ones |
| Creeps.Creep.Update | creeps.py:79-127 | the creep's new state is `CreepStep` of its old one, with its own bounds and base image |
| Creeps.Creep.Collision | creeps.py:149-155 | true exactly when `PointIsInside` holds for the current image and the captured size |
| Creeps.Dodgeball.constructor | creeps.py:52-76 | the ball is not exploding, and its bounds are the field shrunk by its image size |
| Creeps.Dodgeball.Update | creeps.py:202-222 | alive: the new position is `BallStep` of the old one; exploding: the position is kept and the explosion takes one `Next` step |
| Creeps.Dodgeball.Explode | creeps.py:190-197 | the ball is exploding with a fresh animation: the explosion images, period 10000, indefinite, not yet updated and in its start phase, placed half an image up and left of the ball; the ball's position and size are kept |
| Rules.OnEvent | creeps.py:304-339 | QUIT or ESCAPE exits exactly; otherwise the control state stays sane, the ball is placed exactly in the ready state with the mouse pressed, load_game runs exactly for RETURN in the over state, state changes only on RETURN (ready to playing, over to ready), and playing keeps the start time |
| Rules.StartGame | creeps.py:309-314 | RETURN in the ready state goes to playing and records the start tick |
| Rules.Restart | creeps.py:334-339 | RETURN after game over goes back to ready with load_game's reset: unpaused, no keys held, both clocks 0 |
| Rules.ArrowKeys | creeps.py:326-332 | while playing, paused or not, an arrow key-down holds it at the ball speed and a key-up releases it, nothing else changing |
| Rules.OtherInputIsIgnored | creeps.py:304-339 | any other key or event changes no control state |
| Rules.Loaded | creeps.py:274-294 | load_game's reset: unpaused, every arrow at 0, both clocks 0 so the play time is the raw tick count, nothing else changed, and a sane state stays sane |
| Rules.ReadyStep | creeps.py:309-314 | the ready block changes the control state exactly for RETURN in the ready state, and then only to playing with the start time set to the tick |
| Rules.TogglePause | creeps.py:320-325 | 'p' flips paused; pausing records the tick; resuming keeps the play time at the resume tick equal to the play time at the pause tick |
| Rules.PlayingStep | creeps.py:318-332 | outside the playing state nothing changes; the state, start time and `move` keys are kept; paused flips exactly on 'p', with `TogglePause`'s clocks; every key in `move` is set to the ball speed on its key-down, to 0 on its key-up, and kept otherwise |
| Rules.OverStep | creeps.py:334-339 | the over block changes the control state exactly for RETURN in the over state, and then to ready with the reset of load_game: unpaused, no key held, both clocks 0 |
| Rules.PauseFreezesClock | creeps.py:320-325 | pausing at t1 and resuming at t2 gives the same play time at t2 as at t1 |
| Rules.PlayTime | creeps.py:398-400 | the play time in seconds is the ticks since the start minus the paused ticks, over 1000; it is non-negative exactly when that difference is |
| Rules.CreepSpeed | creeps.py:386 | for a non-negative play time t the speed lies in [0.1, 0.1 + 0.002t] and exceeds 0.08 + 0.002t: it follows the linear ramp to within one ten-second step |
| Rules.SpeedAtStart | creeps.py:386 | the speed is 0.1 for the first ten seconds |
| Rules.SpeedSteps | creeps.py:386 | between 10k and 10(k+1) seconds the speed is 0.1 + 0.02k |
| Rules.SpeedIsMonotone | creeps.py:386 | the speed never decreases as the play time grows |
| Rules.SpeedFromMilliseconds | creeps.py:386-400 | as a function of playing ms the speed is 0.1 + 0.02·floor(ms/10000) |
| Rules.GameOverControl | creeps.py:409-411 | game_over sets the state to over and flips paused, keeping the rest |
| Rules.GameOverTimes | creeps.py:387-411 | no call leaves the control state as it was; after n > 0 calls the state is over; only the state and paused ever change |
| Rules.SpeedFollowsTicks | creeps.py:386-400 | a later clock read never gives a lower creep speed |
| Rules.SpeedCanChangeWithinFrame | creeps.py:386-400 | reads at 9999 ms and 10000 ms of play give speeds 0.1 and 0.12 |
| Rules.GameOverParity | creeps.py:387-411 | after n > 0 game_over calls the state is over, paused is flipped exactly when n is odd, and nothing else changes |
| Rules.Dispatch | creeps.py:304-339 | a frame's events handled in order until one exits; no events change nothing, and a result that goes on carries no pending ball placement or reload |
| Rules.DispatchKeepsSane | creeps.py:304-339 | a frame's events keep the control state sane, and the loop exits exactly when one of them is QUIT or ESCAPE |
| GameLoop.FramesAt | creeps.py:383-386 | creep j's new state is its own update with its own bounds and draws, then the speed for the play time at the tick its pass reads |
| GameLoop.CoveredAt | creeps.py:387 | creep j's flag is its own Collision test against the ball |
| GameLoop.CountBounds | creeps.py:387-390 | no game_over call exactly when no creep covers the ball, and one per creep exactly when all do |
| GameLoop.CreepFrame | creeps.py:384-386 | apart from the speed, a creep's new state is its `CreepStep` with the speed it had, so the new speed only takes effect next frame; the new speed is that for the play time at its tick, at least 0.1 once the play time is non-negative |
| GameLoop.Frames | creeps.py:383-386 | the new states of the first n creeps: one per creep |
| GameLoop.Covered | creeps.py:387 | the hit flags of the first n creeps: one per creep |
| GameLoop.Count | creeps.py:387-390 | the number of set flags among the first n is at most n |
| GameLoop.StatesAre | creeps.py:383-386 | creep-by-creep equal states make equal state sequences |
| GameLoop.Game.constructor | creeps.py:244-298 | the game starts in the ready state on the 920 x 540 field with load_game's reset: 70 creeps, each made from its draw with that image's size and the field shrunk by it as its bounds, and a ball at (10, 10), not exploding, with bounds from its image |
| GameLoop.Game.LoadGame | creeps.py:274-294 | the control state is load_game's reset; there are 70 fresh creeps, each made from its draw at speed 0.1 with counter 0, with the drawn image's size and the field shrunk by it as its bounds; and a fresh ball at (10, 10), not exploding, with bounds from its image |
| GameLoop.Game.NewCreeps | creeps.py:278-290 | one fresh creep per draw, in order, none twice; each is on the field with the drawn image, that image's size and the field shrunk by it as bounds, at the drawn position and diagonal, speed 0.1, counter 0 |
| GameLoop.Game.GameOver | creeps.py:409-411 | the control fields become `GameOverControl` of the old ones |
| GameLoop.Game.HandleEvent | creeps.py:304-339 | exits exactly as `OnEvent` says; otherwise the control fields become `OnEvent`'s new state; the ball is placed under the mouse exactly as it says; when it says reload, the ball is a fresh one at (10, 10), not exploding, with bounds from its image, and the creeps are 70 fresh ones, each made from its draw; otherwise the ball, its explosion and the creeps are kept |
| GameLoop.Game.ReadyBlock | creeps.py:309-316 | the control fields follow `ReadyStep`; the ball and its explosion are kept, and the ball moves under the mouse exactly when ready with the button pressed |
| GameLoop.Game.PlayingBlock | creeps.py:318-332 | the control fields follow `PlayingStep` |
| GameLoop.Game.OverBlock | creeps.py:334-339 | the control fields follow `OverStep`; exactly for RETURN in the over state, load_game makes a fresh ball at (10, 10), not exploding, with bounds from its image, and 70 fresh creeps, each from its draw; otherwise the ball, its explosion and the creeps are kept |
| GameLoop.Game.ElementMove | creeps.py:379-390 | the ball moves by `BallStep`; each creep takes its frame, at the speed for the play time at the tick its own pass reads; with n creeps covering the moved ball, the state is over exactly when n > 0, paused is flipped exactly when n is odd, and the ball explodes exactly when n > 0, with a fresh animation of the explosion images, period 10000, indefinite and not yet updated |
| GameLoop.Game.MoveCreeps | creeps.py:383-390 | the creep loop: every creep's new state is its `Frames` entry; the control state has taken one game_over per set `Covered` flag, so the state, paused and the explosion (a fresh animation of the explosion images, period 10000, indefinite) follow their number |
| GameLoop.Game.MoveCreep | creeps.py:384-386 | the first half of a pass: the creep's state becomes `CreepFrame` of its old one (its update, then the speed for the play time at its tick) |
| GameLoop.Game.HitBall | creeps.py:387-390 | the second half: the hit is the creep's Collision test against the ball; a hit explodes the ball with a fresh explosion animation and calls game_over once, and no hit changes nothing |
| GameLoop.Game.Step | creeps.py:383-390 | one pass keeps the loop invariant: creep i reaches its `Frames` entry, and the hit count and the game_over calls grow by its `Covered` flag |
| GameLoop.Game.UpdateStep | creeps.py:384-386 | the update of creep i moves it to its `Frames` entry and leaves the others, the ball and the control state alone |
| GameLoop.Game.HitStep | creeps.py:387-390 | the hit test of creep i adds its `Covered` flag to the hit count and one game_over call per hit, and a hit explodes the ball |

## Left out

- Drawing, blitting, fonts, the message board, `screen_update`, `tile_pic` and `display.flip` are output only and are not modelled.
- Asset loading, music, the icon, mouse visibility, `pygame.init`, `clock.tick` and the FPS value are setup and timing I/O; the frame time `t` and the tick count `now` are parameters.
- `exit_game` and `sys.exit` are a process exit; `HandleEvent` returns `exit` instead.
- Event polling is replaced by the `Polled` values handed to `HandleEvent` and `Rules.Dispatch`. The mouse state is sampled once per event handled.
- `randint` and `choice` are the `CreepDraw` and `PassInput` parameters, bounded to the ranges the source draws from. The tick each creep's pass reads is the `now` of its `PassInput`.
- `pygame.transform.rotate` is the parameter `rotate`, and `Surface.get_at` is reading the alpha raster; the image internals are not modelled.
- `vec2d` is not part of this model. The heading is one of eight octants, which covers every direction the game can reach. `normalized` and the trigonometry of `rotate` are replaced by exact unit components, with √2/2 written to twenty digits.
- Floating-point rounding in positions, speeds and times is not modelled: they are reals.
- The creep's exploding branch (creeps.py:128-130) is left out. It can never run, because no creep is ever exploded (creeps.py:153-154 are commented out).
- The demo at the end of simpleanimation.py and `SimpleAnimation.draw` are left out.
- The main frame body of `run` (creeps.py:341-369) is left out. That is the choice of which block runs by STATE and paused, its drawing, and advancing the explosion in the over state. `ElementMove` and `Dodgeball.Update` model the parts it calls.
- The creeps of `pygame.sprite.Group` are a sequence, visited in order. The source's group has no specified iteration order.
- `Sprite.kill` in `Dodgeball.update`'s exploding branch is left out. The ball is never in a group, so it does nothing.
- Creeps.Dodgeball.Update: the bounds are computed once when the ball is made, not recomputed on every update. The image never changes, so the value is the same.
