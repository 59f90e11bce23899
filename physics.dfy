/** The bird's vertical motion: a semi-implicit Euler step under constant
    gravity, with frame times in milliseconds, and the jump impulse. */
module Physics {

  /** Downward acceleration in pixels per second squared. */
  const Gravity: real := 1000.0
  /** Velocity a tap gives the bird, in pixels per second (negative is up). */
  const JumpForce: real := -500.0

  /** Vertical position (top of the sprite) and vertical velocity. */
  datatype Bird = Bird(y: real, velocity: real)

  /** One live frame of `dt` milliseconds: the position moves with the
      velocity from before the frame, then gravity is added to the velocity. */
  function Fall(b: Bird, dt: real): (r: Bird)
    ensures r.velocity == b.velocity + dt
    ensures dt > 0.0 ==> r.velocity > b.velocity && (b.velocity >= 0.0 ==> r.y >= b.y)
    ensures dt > 0.0 && b.velocity < 0.0 ==> r.y < b.y
  {
    Bird(b.y + b.velocity * dt / 1000.0, b.velocity + Gravity * dt / 1000.0)
  }

  /** `n` consecutive live frames of `dt` milliseconds each, with no tap. */
  function FallFrames(b: Bird, dt: real, n: nat): Bird
  {
    if n == 0 then b else Fall(FallFrames(b, dt, n - 1), dt)
  }

  /** Closed form of `n` frames: velocity grows linearly with the number of
      frames and position quadratically; the position uses the velocity of
      each frame's start. */
  lemma {:induction false} FallFramesClosedForm(b: Bird, dt: real, n: nat)
    ensures FallFrames(b, dt, n).velocity == b.velocity + (n as real) * dt
    ensures FallFrames(b, dt, n).y
         == b.y + (n as real) * b.velocity * dt / 1000.0
              + (n as real) * ((n as real) - 1.0) / 2.0 * dt * dt / 1000.0
  {
    if n > 0 {
      FallFramesClosedForm(b, dt, n - 1);
      var prev := FallFrames(b, dt, n - 1);
      assert (n - 1) as real == (n as real) - 1.0;
      ClosedFormStep(b.y, b.velocity, dt, (n as real) - 1.0, prev.y, prev.velocity);
    }
  }

  /** One more frame keeps the closed form: the arithmetic of the step. */
  lemma ClosedFormStep(y: real, v: real, dt: real, k: real, py: real, pv: real)
    requires pv == v + k * dt
    requires py == y + k * v * dt / 1000.0 + k * (k - 1.0) / 2.0 * dt * dt / 1000.0
    ensures pv + Gravity * dt / 1000.0 == v + (k + 1.0) * dt
    ensures py + pv * dt / 1000.0
         == y + (k + 1.0) * v * dt / 1000.0 + (k + 1.0) * ((k + 1.0) - 1.0) / 2.0 * dt * dt / 1000.0
  {
    assert pv * dt / 1000.0 == v * dt / 1000.0 + k * dt * dt / 1000.0;
    assert k * (k - 1.0) / 2.0 + k == (k + 1.0) * ((k + 1.0) - 1.0) / 2.0;
  }

  /** Without taps and with a positive frame time, the velocity strictly
      increases from frame to frame. */
  lemma VelocityStrictlyIncreases(b: Bird, dt: real, m: nat, n: nat)
    requires dt > 0.0 && m < n
    ensures FallFrames(b, dt, m).velocity < FallFrames(b, dt, n).velocity
  {
    FallFramesClosedForm(b, dt, m);
    FallFramesClosedForm(b, dt, n);
    assert (m as real) * dt < (n as real) * dt;
  }

  /** Without taps and with a positive frame time, the bird eventually falls
      below any given row. */
  lemma FallsPastAnyRow(b: Bird, dt: real, row: real)
    requires dt > 0.0
    ensures exists n: nat :: FallFrames(b, dt, n).y > row
  {
    var a := b.velocity * dt / 1000.0;
    var c := Growth(dt);
    var n := EnoughFrames(a, c, if row < b.y then 0.0 else row - b.y);
    var q := Drift(b, dt, n, a, c);
    AtLeastOnce(n as real, q);
    assert FallFrames(b, dt, n).y > row;
  }

  /** The per-frame-squared growth of the position, which is positive. */
  lemma Growth(dt: real) returns (c: real)
    requires dt > 0.0
    ensures c == dt * dt / 1000.0 && c > 0.0
  {
    var d := dt / 1000.0;
    assert dt * d > 0.0;
    assert dt * dt / 1000.0 == dt * d;
    c := dt * d;
  }

  /** The position after `n` frames as the start plus `n` times the
      average drift `q` per frame. */
  lemma Drift(b: Bird, dt: real, n: nat, a: real, c: real) returns (q: real)
    requires a == b.velocity * dt / 1000.0 && c == dt * dt / 1000.0
    ensures q == a + ((n as real) - 1.0) / 2.0 * c
    ensures FallFrames(b, dt, n).y == b.y + (n as real) * q
  {
    FallFramesClosedForm(b, dt, n);
    q := a + ((n as real) - 1.0) / 2.0 * c;
    Regroup(b.y, b.velocity, dt, n as real, a, c);
  }

  /** The closed-form position regrouped by frames. */
  lemma Regroup(y: real, v: real, dt: real, m: real, a: real, c: real)
    requires a == v * dt / 1000.0 && c == dt * dt / 1000.0
    ensures y + m * v * dt / 1000.0 + m * (m - 1.0) / 2.0 * dt * dt / 1000.0
         == y + m * (a + (m - 1.0) / 2.0 * c)
  {
  }

  /** A number of frames after which a steady drift `a` per frame plus a
      growth `c` per frame squared has gone past `gap`. */
  lemma EnoughFrames(a: real, c: real, gap: real) returns (n: nat)
    requires c > 0.0
    requires gap >= 0.0
    ensures n >= 1 && (n as real) > gap
    ensures a + ((n as real) - 1.0) / 2.0 * c >= 1.0
  {
    var absA := if a < 0.0 then -a else a;
    var q := 2.0 * (absA + 1.0) / c;
    assert q > 0.0;
    var n1 := q.Floor + 1;
    var n2 := gap.Floor + 1;
    n := n1 + n2;
    var k := (n as real) - 1.0;
    assert k >= q;
    assert q * c == 2.0 * (absA + 1.0);
    assert k * c >= q * c;
  }

  /** A non-negative number times a factor of at least one is at least itself. */
  lemma AtLeastOnce(m: real, q: real)
    requires m >= 0.0 && q >= 1.0
    ensures m * q >= m
  {
  }
}
