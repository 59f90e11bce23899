/** The obstacle pair: two rectangles derived from the single scroll offset. */
module Pipes {

  const PipeWidth: real := 104.0
  const PipeHeight: real := 640.0
  /** How far each pipe reaches past its anchor row: the bottom pipe starts
      this far above the bottom edge, the top pipe this far above the top. */
  const PipeShift: real := 320.0
  /** Vertical offset of the pair; fixed at zero. */
  const PipeOffset: real := 0.0

  /** An axis-aligned rectangle: left edge, top edge, width and height. */
  datatype Rect = Rect(x: real, y: real, w: real, h: real)

  /** The bottom pipe followed by the top pipe, for scroll offset `x` in a
      viewport of the given height. */
  function Obstacles(x: real, height: real): seq<Rect>
  {
    [ Rect(x, height - PipeShift + PipeOffset, PipeWidth, PipeHeight),
      Rect(x, PipeOffset - PipeShift, PipeWidth, PipeHeight) ]
  }

  /** Both pipes move in lock-step with the offset, have the pipe sprite's
      size, and sit `height` apart: the bottom one at `height - 320`, the
      top one at `-320`. */
  lemma ObstaclesLockStep(x: real, height: real)
    ensures |Obstacles(x, height)| == 2
    ensures forall r :: r in Obstacles(x, height) ==> r.x == x && r.w == 104.0 && r.h == 640.0
    ensures Obstacles(x, height)[0].y == height - 320.0
    ensures Obstacles(x, height)[1].y == -320.0
    ensures Obstacles(x, height)[0].y - Obstacles(x, height)[1].y == height
  {
  }
}
