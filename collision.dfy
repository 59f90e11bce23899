/** Collision detection: an inclusive point-in-rectangle test applied to the
    bird's centre, and a ground/ceiling test applied to its raw position. */
module Collision {
  import opened Pipes

  /** The bird sprite is 64 by 48 pixels; its centre is half of that from
      its top-left corner. */
  const BirdHalfWidth: real := 32.0
  const BirdHalfHeight: real := 24.0
  /** Height of the band above the bottom edge that counts as ground. */
  const GroundMargin: real := 100.0

  datatype Point = Point(x: real, y: real)

  /** The point lies in the rectangle or on one of its four edges. */
  predicate PointInRect(p: Point, r: Rect)
  {
    p.x >= r.x && p.x <= r.x + r.w && p.y >= r.y && p.y <= r.y + r.h
  }

  /** Every point on an edge of a rectangle collides with it. */
  lemma EdgesCollide(r: Rect, px: real, py: real)
    requires r.w >= 0.0 && r.h >= 0.0
    requires || ((px == r.x || px == r.x + r.w) && r.y <= py <= r.y + r.h)
             || ((py == r.y || py == r.y + r.h) && r.x <= px <= r.x + r.w)
    ensures PointInRect(Point(px, py), r)
  {
  }

  /** A point strictly beyond any one edge does not collide. */
  lemma OutsideMisses(r: Rect, p: Point)
    requires p.x < r.x || p.x > r.x + r.w || p.y < r.y || p.y > r.y + r.h
    ensures !PointInRect(p, r)
  {
  }

  /** `rects.some(r => PointInRect(p, r))`. */
  function AnyHit(p: Point, rects: seq<Rect>): (hit: bool)
    ensures hit <==> exists i :: 0 <= i < |rects| && PointInRect(p, rects[i])
  {
    if rects == [] then false
    else if PointInRect(p, rects[0]) then true
    else
      var rest := AnyHit(p, rects[1..]);
      assert forall i :: 1 <= i < |rects| ==> rects[i] == rects[1..][i - 1];
      rest
  }

  /** The point the colliders test: the centre of the bird sprite, whose
      left edge is fixed at a quarter of the viewport width. */
  function BirdCenter(width: real, birdY: real): Point
  {
    Point(width / 4.0 + BirdHalfWidth, birdY + BirdHalfHeight)
  }

  /** Ground and ceiling test, applied to the raw position (the sprite's
      top edge), not to the centre. */
  predicate OutOfBounds(birdY: real, height: real)
  {
    birdY > height - GroundMargin || birdY < 0.0
  }

  /** The bird's centre lies in one of the two pipes at offset `x`. */
  predicate HitsPipe(birdY: real, x: real, width: real, height: real)
  {
    AnyHit(BirdCenter(width, birdY), Obstacles(x, height))
  }

  /** Everything that ends the game. */
  predicate Collides(birdY: real, x: real, width: real, height: real)
  {
    OutOfBounds(birdY, height) || HitsPipe(birdY, x, width, height)
  }

  /** The bird hits a pipe exactly when its centre column lies within the
      pipe's columns and its centre row lies within the top pipe
      (rows -320 to 320) or the bottom pipe (rows height-320 to height+320). */
  lemma HitsPipeIff(birdY: real, x: real, width: real, height: real)
    ensures HitsPipe(birdY, x, width, height)
        <==> && x <= width / 4.0 + 32.0 <= x + 104.0
             && (|| -320.0 <= birdY + 24.0 <= 320.0
                 || height - 320.0 <= birdY + 24.0 <= height + 320.0)
  {
    var c := BirdCenter(width, birdY);
    var obs := Obstacles(x, height);
    assert HitsPipe(birdY, x, width, height) <==> PointInRect(c, obs[0]) || PointInRect(c, obs[1]);
  }

  /** The gap: a centre strictly between the two pipes never hits one,
      wherever the pipes are. */
  lemma GapIsClear(birdY: real, x: real, width: real, height: real)
    requires 320.0 < birdY + 24.0 < height - 320.0
    ensures !HitsPipe(birdY, x, width, height)
  {
    HitsPipeIff(birdY, x, width, height);
  }

  /** The position a game starts from collides with nothing in any viewport
      wider than 128/3 and at least 150 high: the bird sits at a third of the
      height, and the pipes at the right edge are clear of its centre. */
  lemma StartIsClear(width: real, height: real)
    requires width > 128.0 / 3.0 && height >= 150.0
    ensures !Collides(height / 3.0, width, width, height)
  {
    HitsPipeIff(height / 3.0, width, width, height);
  }

  /** A viewport lower than 150 puts the starting position inside the ground
      band, so the game is over as soon as it starts. */
  lemma LowViewportStartsOver(width: real, height: real)
    requires 0.0 < height < 150.0
    ensures Collides(height / 3.0, width, width, height)
  {
  }
}
