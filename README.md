# Flappy Bird game engine, verified model

This project models the simulation core of a one-screen Flappy Bird game
written as a React Native component (`App.js`). The component keeps five
shared values: the bird's vertical position `birdY`, its velocity
`birdYVelocity`, the scroll offset `x` of the single pipe pair, the
`gameOver` flag and the `score`. Five pieces of logic act on them:

- the frame callback, a semi-implicit Euler step under gravity 1000 px/s²
  with frame times in milliseconds, skipped when the frame time is missing
  or zero or the game is over;
- the scroll animation, which moves `x` linearly from the viewport width to
  -150 in 3000 ms and then jumps back to the width, forever, and which is
  cancelled when the game ends;
- the pipe pair, two 104 by 640 rectangles derived from `x`, the bottom one
  at `height - 320` and the top one at `-320`;
- collision: an inclusive point-in-rectangle test on the bird's centre
  `(width/4 + 32, birdY + 24)`, and a ground/ceiling test on the raw `birdY`
  (`birdY > height - 100` or `birdY < 0`);
- scoring: one point each time `x` moves from right of `width/4` to on or
  left of it;
- the tap handler, which sets the velocity to -500, or restarts a finished
  game.

Layout:

- `values.dfy` (module `Values`): possibly-absent numbers and JavaScript
  truthiness.
- `physics.dfy` (module `Physics`): `Fall`, one frame of motion, and lemmas
  about many frames.
- `pipes.dfy` (module `Pipes`): the rectangles derived from the offset.
- `collision.dfy` (module `Collision`): the point collider and the bounds.
- `scoring.dfy` (module `Scoring`): the crossing test and the count of
  crossings along a run of offsets.
- `track.dfy` (module `Track`): the linear scroll schedule.
- `app.dfy` (module `App`): class `Game`, the component's shared values as
  fields, with methods for mounting, the frame callback, the scroll
  animation, the tap and the restart.

Each reaction is modelled as a call made once the handler that triggered it
has finished its writes. The constructor, `Tick` and `Restart` all run the
collision check (`CheckCollision`) last, on the new bird position. Each
offset the scroll animation writes goes through the scoring check
(`MoveTo`). When the game ends the scroll is cancelled (`EndGame`).
`Restart` writes `x := width` without the scoring check, for two reasons.
That check cannot fire on the width (`Scoring.TeleportNeverScores`), and
the trail of observed offsets starts again at `[width]` with the score at
0. `Game.Valid()` holds the invariants everything keeps:

- the offset is always the schedule's value for the time spent in the
  current segment, so it stays within `[-150, width]`;
- the scroll runs exactly while the game is not over;
- `score` equals the number of crossings in the ghost `trail`, which lists
  every offset seen since the last restart.

Positions, velocities and times are `real`, which is exact arithmetic.
`width` and `height` are constructor parameters. The frame time is an
`Option<real>`, because the host may leave it undefined. The scroll's frame
time is a plain parameter of `ScrollStep`.

Three details of the code are kept exactly as written:

- A negative frame time integrates backwards. The frame callback skips a frame
  because of its time only when `!dt` holds (App.js:157), which is a missing or zero time.
  `Game.Tick` does the same.
- The two pipes' anchor rows are `height` apart: the bottom pipe starts at
  `height - 320` and the top one at `-320` (App.js:68, 76). The open band
  between them runs from row 320 to row `height - 320`
  (`Collision.GapIsClear`).
- The scoring test also needs a previous value that is truthy and differs
  from the current one (App.js:105-106). `Scoring.CrossesThreshold` keeps
  both conditions and proves that they change nothing whenever the
  threshold is not negative.

## Model

| member | source | states |
|---|---|---|
| Physics.Fall | App.js:160-161 | in one live frame the velocity gains exactly `dt` (1000·dt/1000); for `dt > 0` it strictly increases, and the position moves in the direction of the velocity from before the frame |
| Physics.FallFramesClosedForm | App.js:156-162 | after `n` untapped frames of `dt` ms the velocity is `v + n·dt` and the position is `y + n·v·dt/1000 + n(n-1)/2·dt²/1000`, so each frame's position step uses that frame's starting velocity |
| Physics.VelocityStrictlyIncreases | App.js:161 | with `dt > 0` and no taps, velocity strictly increases from frame to frame |
| Physics.FallsPastAnyRow | App.js:156-162 | with `dt > 0` and no taps, some number of frames takes the bird below any given row, the ground band included |
| Pipes.ObstaclesLockStep | App.js:63-82 | both derived pipes share the offset `x`, are 104 wide and 640 high, the bottom one at `height - 320` and the top one at `-320` |
| Collision.EdgesCollide | App.js:116-124 | a point on any of a rectangle's four edges collides with it (the test is inclusive) |
| Collision.OutsideMisses | App.js:116-124 | a point strictly beyond any one edge does not collide |
| Collision.AnyHit | App.js:135-140 | the `some` over the obstacles is true exactly when some rectangle in the list contains the point |
| Collision.HitsPipeIff | App.js:126-145 | the bird hits a pipe exactly when its centre column is within `[x, x+104]` and its centre row is within the top pipe `[-320, 320]` or the bottom pipe `[height-320, height+320]` |
| Collision.GapIsClear | App.js:63-82 | a centre strictly between rows 320 and `height - 320` never hits a pipe, at any offset |
| Collision.StartIsClear | App.js:164-172 | in a viewport wider than 128/3 and at least 150 high, the restart position collides with nothing |
| Collision.LowViewportStartsOver | App.js:131 | in a viewport lower than 150 the start position `height/3` is already inside the ground band |
| Scoring.CrossesThreshold | App.js:104-109 | the crossing test fires only with a previous value, `current <= middle < previous`; for a non-negative threshold it fires exactly then (the truthiness and inequality tests add nothing) |
| Scoring.TeleportNeverScores | App.js:91-92 | the jump back to the width never scores, whatever the previous offset |
| Scoring.Crossings | App.js:99-114 | along `k` observed offsets there are at most `k - 1` scoring events; the first, with no previous value, never scores |
| Scoring.AboveNeverScores | App.js:99-114 | offsets that stay right of the threshold never score |
| Scoring.PassScoresOnce | App.js:99-114 | a non-increasing run of offsets that starts right of the threshold and ends on or left of it scores exactly once |
| Scoring.FullLapScoresOnce | App.js:88-114 | a full lap of the scroll, from the width down to -150 and then the jump back, scores exactly one point |
| Scoring.CrossingsAppend | App.js:99-114 | the crossings of a run of offsets split at any point: those of the first part plus those of the rest counted from the first part's last offset |
| Scoring.LapAddsOnePoint | App.js:88-114 | during continuous play each further full lap, appended to all offsets seen so far, adds exactly one point |
| Track.ScheduleX | App.js:89-92 | the linear schedule stays within `[-150, width]`, starts at the width and ends at -150 after 3000 ms |
| Track.ScheduleDecreases | App.js:91 | within a segment the offset strictly decreases as time passes |
| Track.Advance | App.js:91 | after a frame of `dt` ms the time within a segment is `elapsed + dt` when that is at most 3000 ms, and exactly 3000 ms otherwise; it grows with each positive frame |
| App.Game.constructor | App.js:51-58 | the game mounts with the bird at `height/3` at rest, the offset at the width, score 0 and the scroll running; the collision check on the start position sets `gameOver` |
| App.Game.EndGame | App.js:147-154 | ending the game sets `gameOver` and cancels the scroll where it stands |
| App.Game.CheckCollision | App.js:127-145 | `gameOver` becomes true when the raw position is out of bounds or the centre is in a pipe, and is never cleared here |
| App.Game.Tick | App.js:156-162 | a missing or zero frame time, or a finished game, changes nothing; otherwise position and velocity take one `Fall` step and `gameOver` becomes the collision verdict on the new position; a finished game stays finished |
| App.Game.MoveTo | App.js:99-114 | a new offset adds one point exactly when `CrossesThreshold` fires against the previous offset, and is recorded |
| App.Game.ScrollStep | App.js:88-96 | nothing moves while the game is over; at the end of a segment the offset jumps to the width without scoring; otherwise it moves strictly left along the schedule and scores on a crossing; every offset it writes is appended to the trail that `NextLapScoresOnce` counts |
| App.Game.Restart | App.js:164-172 | restart puts the bird at `height/3` with velocity 0, the offset at the width, the score at 0 and the scroll at the start of a segment; `gameOver` is false unless the start position itself collides |
| App.Game.NextLapScoresOnce | App.js:88-114 | from the start of a segment, the game's observed offsets followed by the next full lap count exactly `score + 1` crossings |
| App.Game.Tap | App.js:174-182 | a tap on a finished game restarts it; otherwise it sets the velocity to exactly -500 and changes nothing else |

## Left out

- Drawing is not modelled: the Skia canvas, the images, the base sprite, the score text and the font.
- The bird's tilt is cosmetic and not modelled. It interpolates the velocity onto `[-0.5, 0.5]` radians.
- Reanimated's threads and scheduling are not modelled: UI thread against JavaScript thread, `runOnJS` and when a reaction runs. Each reaction runs once the handler that triggered it has finished its writes.
- The scoring reaction's `score + 1` reads a possibly stale `score` from a React closure. The model uses a plain increment.
- `runOnJS(moveTheMap)` starts the scroll later on another thread, which could race a collision found right after a restart. The model restarts the scroll at once, so it runs exactly while the game is not over.
- `withTiming`'s frame arithmetic is simplified. A frame that runs past the end of a segment stops on -150. The jump back to the width takes the next frame, and any leftover time is dropped.
- App.Game.ScrollStep: a zero or negative animation frame time moves nothing. The animation clock never goes backwards.
- Window resizing through `useWindowDimensions` is not modelled. `width` and `height` are fixed at construction.
- Float rounding and NaN do not exist in the model: numbers are exact reals.
- The gesture-handler plumbing is not modelled. A tap is a call to `Game.Tap`.
