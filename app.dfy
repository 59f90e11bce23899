/** The game engine of the single screen component: the shared state it
    keeps between frames and the frame callback, scroll animation, tap
    handler and restart that change it, with the scoring, collision and
    game-over reactions that follow each change. */
module App {
  import opened Values
  import opened Physics
  import opened Pipes
  import opened Collision
  import opened Scoring
  import opened Track

  class Game {
    /** Viewport extents, fixed for the life of the game. */
    const width: real
    const height: real

    var birdY: real
    var birdYVelocity: real
    /** Scroll offset shared by both pipes. */
    var x: real
    var gameOver: bool
    var score: nat
    /** Whether the repeating scroll animation is running. */
    var scrolling: bool
    /** Milliseconds into the current linear segment of the scroll. */
    var elapsed: real
    /** Every offset the scoring reaction has observed since the game
        (re)started, oldest first. */
    ghost var trail: seq<real>

    ghost predicate Valid()
      reads this
    {
      && width > 0.0 && height > 0.0
      && 0.0 <= elapsed <= ScrollDuration
      && x == ScheduleX(width, elapsed)
      && scrolling == !gameOver
      && |trail| >= 1 && trail[|trail| - 1] == x
      && score == Crossings(trail, width / 4.0)
    }

    /** Mounting: the initial shared values, the scroll started, and the
        collision reaction's first run on the initial position. */
    constructor (width: real, height: real)
      requires width > 0.0 && height > 0.0
      ensures Valid()
      ensures this.width == width && this.height == height
      ensures birdY == height / 3.0 && birdYVelocity == 0.0
      ensures x == width && elapsed == 0.0 && score == 0 && trail == [width]
      ensures gameOver == Collides(height / 3.0, width, width, height)
    {
      this.width := width;
      this.height := height;
      birdY := height / 3.0;
      birdYVelocity := 0.0;
      x := width;
      gameOver := false;
      score := 0;
      scrolling := true;
      elapsed := 0.0;
      trail := [width];
      new;
      CheckCollision();
    }

    /** The game-over reaction: ending the game cancels the scroll where it
        stands. */
    method EndGame()
      requires Valid()
      modifies this`gameOver, this`scrolling
      ensures Valid()
      ensures gameOver && !scrolling
    {
      gameOver := true;
      scrolling := false;
    }

    /** The collision reaction, run after each new bird position: the ground
        and ceiling test on the raw position, then the pipe test on the
        centre. */
    method CheckCollision()
      requires Valid()
      modifies this`gameOver, this`scrolling
      ensures Valid()
      ensures gameOver == (old(gameOver) || Collides(birdY, x, width, height))
    {
      if OutOfBounds(birdY, height) {
        EndGame();
      }
      if HitsPipe(birdY, x, width, height) {
        EndGame();
      }
    }

    /** The frame callback. A missing or zero frame time, or a finished
        game, leaves everything as it is; otherwise the bird makes one
        semi-implicit Euler step and the collision reaction runs. */
    method Tick(dt: Option<real>)
      requires Valid()
      modifies this`birdY, this`birdYVelocity, this`gameOver, this`scrolling
      ensures Valid()
      ensures !Truthy(dt) || old(gameOver) ==>
                birdY == old(birdY) && birdYVelocity == old(birdYVelocity) && gameOver == old(gameOver)
      ensures Truthy(dt) && !old(gameOver) ==>
                && Bird(birdY, birdYVelocity) == Fall(Bird(old(birdY), old(birdYVelocity)), dt.value)
                && gameOver == Collides(birdY, x, width, height)
      ensures old(gameOver) ==> gameOver
    {
      if !Truthy(dt) || gameOver {
        return;
      }
      var next := Fall(Bird(birdY, birdYVelocity), dt.value);
      birdY := next.y;
      birdYVelocity := next.velocity;
      CheckCollision();
    }

    /** The scoring reaction on a new offset: one point when the change
        crosses the bird's left edge; the offset is then recorded. */
    method MoveTo(newX: real, newElapsed: real)
      requires Valid()
      requires 0.0 <= newElapsed <= ScrollDuration && newX == ScheduleX(width, newElapsed)
      modifies this`x, this`elapsed, this`score, this`trail
      ensures Valid()
      ensures x == newX && elapsed == newElapsed && trail == old(trail) + [newX]
      ensures score == old(score) + (if CrossesThreshold(newX, Some(old(x)), width / 4.0) then 1 else 0)
    {
      if CrossesThreshold(newX, Some(x), width / 4.0) {
        score := score + 1;
      }
      x := newX;
      elapsed := newElapsed;
      assert (trail + [newX])[..|trail|] == trail;
      trail := trail + [newX];
    }

    /** One frame of the scroll animation, `dt` milliseconds long. While the
        game is over the animation is cancelled and nothing moves. At the end
        of a segment the offset jumps back to the right edge; otherwise it
        moves left along the linear segment, at most to -150. */
    method ScrollStep(dt: real)
      requires Valid()
      modifies this`x, this`elapsed, this`score, this`trail
      ensures Valid()
      ensures !scrolling || (old(elapsed) < ScrollDuration && dt <= 0.0) ==>
                x == old(x) && elapsed == old(elapsed) && score == old(score) && trail == old(trail)
      ensures scrolling && old(elapsed) == ScrollDuration ==>
                x == width && elapsed == 0.0 && score == old(score) && trail == old(trail) + [x]
      ensures scrolling && old(elapsed) < ScrollDuration && dt > 0.0 ==>
                && elapsed == Advance(old(elapsed), dt) && trail == old(trail) + [x]
                && x == ScheduleX(width, elapsed) && x < old(x)
                && score == old(score) + (if CrossesThreshold(x, Some(old(x)), width / 4.0) then 1 else 0)
    {
      if !scrolling {
        return;
      }
      if elapsed == ScrollDuration {
        TeleportNeverScores(width, Some(x));
        MoveTo(width, 0.0);
      } else if dt > 0.0 {
        var e := Advance(elapsed, dt);
        ScheduleDecreases(width, elapsed, e);
        MoveTo(ScheduleX(width, e), e);
      }
    }

    /** Restarting: the bird back at a third of the height and at rest, the
        offset at the right edge, the score at zero, the game live again and
        the scroll restarted; then the collision reaction runs on the new
        position. */
    method Restart()
      requires Valid()
      modifies this
      ensures Valid()
      ensures birdY == height / 3.0 && birdYVelocity == 0.0
      ensures x == width && elapsed == 0.0 && score == 0 && trail == [width]
      ensures gameOver == Collides(height / 3.0, width, width, height)
    {
      birdY := height / 3.0;
      birdYVelocity := 0.0;
      gameOver := false;
      x := width;
      scrolling := true;
      elapsed := 0.0;
      trail := [width];
      score := 0;
      CheckCollision();
    }

    /** At the start of a segment, the next full lap of the scroll (the
        offsets of `pass`, then the jump back) would bring the observed
        offsets to exactly one more point than the current score. */
    lemma NextLapScoresOnce(pass: seq<real>)
      requires Valid() && x == width
      requires |pass| >= 1 && NonIncreasing(pass) && pass[0] == width && pass[|pass| - 1] == ScrollEnd
      ensures Crossings(trail + pass[1..] + [width], width / 4.0) == score + 1
    {
      LapAddsOnePoint(trail, pass, width);
    }

    /** The tap handler: restart a finished game, otherwise set the bird's
        velocity to the jump velocity and change nothing else. */
    method Tap()
      requires Valid()
      modifies this
      ensures Valid()
      ensures old(gameOver) ==>
                && birdY == height / 3.0 && birdYVelocity == 0.0
                && x == width && elapsed == 0.0 && score == 0 && trail == [width]
                && gameOver == Collides(height / 3.0, width, width, height)
      ensures !old(gameOver) ==>
                && birdYVelocity == JumpForce
                && birdY == old(birdY) && x == old(x) && elapsed == old(elapsed)
                && score == old(score) && trail == old(trail)
                && gameOver == old(gameOver) && scrolling == old(scrolling)
    {
      if gameOver {
        Restart();
      } else {
        birdYVelocity := JumpForce;
      }
    }
  }
}
