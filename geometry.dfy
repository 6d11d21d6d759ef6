/** Plane geometry shared by the creeps and the dodgeball: screen positions,
    pygame rectangles and their inward inflation, Python's truncating int(),
    sprite images as alpha rasters, and the first-violated-side wall clamp. */
module Geometry {

  /** A position or displacement in screen coordinates (the y axis points down). */
  datatype Vec = Vec(x: real, y: real)

  /** A pygame Rect: integer top-left corner and integer size. */
  datatype Rect = Rect(left: int, top: int, width: int, height: int) {
    function Right(): int { left + width }
    function Bottom(): int { top + height }
  }

  /** C's `d / 2`, which truncates toward zero (pygame's Rect is written in C). */
  function HalfTowardZero(d: int): (r: int)
    ensures d >= 0 ==> 0 <= d - 2 * r <= 1
    ensures d < 0 ==> 0 <= 2 * r - d <= 1
  {
    if d >= 0 then d / 2 else -((-d) / 2)
  }

  /** `rect.inflate(dx, dy)`: the size grows by (dx, dy) and the corner moves
      by half of it, halved in C. For a negative delta the rectangle shrinks
      by floor(w/2) on the left or top and by ceil(w/2) on the right or bottom. */
  function Inflate(rect: Rect, dx: int, dy: int): (r: Rect)
    ensures r.width == rect.width + dx && r.height == rect.height + dy
    ensures dx <= 0 ==> r.left == rect.left + (-dx) / 2 && r.Right() == rect.Right() - (-dx - (-dx) / 2)
    ensures dy <= 0 ==> r.top == rect.top + (-dy) / 2 && r.Bottom() == rect.Bottom() - (-dy - (-dy) / 2)
  {
    Rect(rect.left - HalfTowardZero(dx), rect.top - HalfTowardZero(dy), rect.width + dx, rect.height + dy)
  }

  /** Python's `int(x)` on a float: truncation toward zero. */
  function Trunc(x: real): (r: int)
    ensures x >= 0.0 ==> 0 <= r && r as real <= x < r as real + 1.0
    ensures x < 0.0 ==> r <= 0 && r as real - 1.0 < x <= r as real
  {
    if x >= 0.0 then x.Floor else -((-x).Floor)
  }

  /** A sprite image reduced to what the game reads of it: its size and the
      alpha value of each pixel, row by row. */
  datatype Raster = Raster(width: nat, height: nat, alpha: seq<seq<int>>)

  predicate WellFormed(r: Raster)
  {
    |r.alpha| == r.height && forall y :: 0 <= y < r.height ==> |r.alpha[y]| == r.width
  }

  type Image = r: Raster | WellFormed(r) witness Raster(0, 0, [])

  /** Which wall check of the priority chain fired, if any. */
  datatype Side = Inside | LeftWall | RightWall | TopWall | BottomWall

  datatype Clamped = Clamped(pos: Vec, side: Side)

  /** The bounds test is strict, so a position exactly on a bound is inside. */
  predicate InBounds(p: Vec, b: Rect)
  {
    b.left as real <= p.x <= b.Right() as real && b.top as real <= p.y <= b.Bottom() as real
  }

  /** The wall check shared by Creep.update and Dodgeball.update: left, then
      right, then top, then bottom, and only the first violated side is
      corrected by moving that coordinate onto the bound. */
  function Clamp(p: Vec, b: Rect): (r: Clamped)
    ensures r.side == Inside <==> InBounds(p, b)
    ensures r.side == Inside ==> r.pos == p
    ensures r.side == LeftWall <==> p.x < b.left as real
    ensures r.side == RightWall <==> b.left as real <= p.x && b.Right() as real < p.x
    ensures r.side == TopWall <==> b.left as real <= p.x <= b.Right() as real && p.y < b.top as real
    ensures r.side == BottomWall <==>
      b.left as real <= p.x <= b.Right() as real && b.top as real <= p.y && b.Bottom() as real < p.y
    ensures r.side == LeftWall ==> r.pos == Vec(b.left as real, p.y)
    ensures r.side == RightWall ==> r.pos == Vec(b.Right() as real, p.y)
    ensures r.side == TopWall ==> r.pos == Vec(p.x, b.top as real)
    ensures r.side == BottomWall ==> r.pos == Vec(p.x, b.Bottom() as real)
  {
    if p.x < b.left as real then Clamped(Vec(b.left as real, p.y), LeftWall)
    else if p.x > b.Right() as real then Clamped(Vec(b.Right() as real, p.y), RightWall)
    else if p.y < b.top as real then Clamped(Vec(p.x, b.top as real), TopWall)
    else if p.y > b.Bottom() as real then Clamped(Vec(p.x, b.Bottom() as real), BottomWall)
    else Clamped(p, Inside)
  }

  /** When only one axis is out of bounds (and the bounds are not inverted),
      the single correction brings the position inside. */
  lemma SingleViolationIsFixed(p: Vec, b: Rect)
    requires b.width >= 0 && b.height >= 0
    requires (b.left as real <= p.x <= b.Right() as real) || (b.top as real <= p.y <= b.Bottom() as real)
    ensures InBounds(Clamp(p, b).pos, b)
  {
  }

  /** The chain can leave a corner violation half-corrected: a position beyond
      both the left and the top bound only has its x fixed. */
  lemma CornerViolationStaysOutside()
    ensures var b := Rect(0, 0, 100, 100);
            var r := Clamp(Vec(-1.0, -1.0), b);
            r.side == LeftWall && r.pos == Vec(0.0, -1.0) && !InBounds(r.pos, b)
  {
  }
}
