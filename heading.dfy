/** A creep's direction of travel. The game starts every creep on a
    normalised diagonal, turns it only by multiples of 45 degrees and reflects
    it only in an axis, so the direction is always one of eight unit vectors:
    octant k stands for the angle 45k degrees measured as vec2d measures it,
    atan2(y, x) in screen coordinates. */
module Heading {

  /** Half the square root of two, to twenty digits: each component of a
      diagonal unit vector. */
  const Diag: real := 0.70710678118654752440

  type Octant = k: int | 0 <= k < 8

  /** The x component of the unit vector at 45k degrees. */
  function DirX(k: Octant): real
  {
    if k == 0 then 1.0
    else if k == 1 || k == 7 then Diag
    else if k == 2 || k == 6 then 0.0
    else if k == 3 || k == 5 then -Diag
    else -1.0
  }

  /** The y component of the unit vector at 45k degrees. */
  function DirY(k: Octant): real
  {
    if k == 2 then 1.0
    else if k == 1 || k == 3 then Diag
    else if k == 0 || k == 4 then 0.0
    else if k == 5 || k == 7 then -Diag
    else -1.0
  }

  /** `direction.rotate(45 * r)` for r = randint(-1, 1): vec2d rotates
      counter-clockwise in the (x, y) plane, which adds r octants to the
      angle, wrapping around at a full turn. */
  function Rotate(k: Octant, r: int): (o: Octant)
    requires -1 <= r <= 1
    ensures o == k + r || o == k + r + 8 || o == k + r - 8
  {
    if k + r < 0 then k + r + 8 else if k + r > 7 then k + r - 8 else k + r
  }

  /** `direction.x *= -1`: the angle t becomes 180 - t. */
  function ReflectX(k: Octant): (o: Octant)
    ensures DirX(o) == -DirX(k) && DirY(o) == DirY(k)
  {
    if k <= 4 then 4 - k else 12 - k
  }

  /** `direction.y *= -1`: the angle t becomes -t. */
  function ReflectY(k: Octant): (o: Octant)
    ensures DirX(o) == DirX(k) && DirY(o) == -DirY(k)
  {
    if k == 0 then 0 else 8 - k
  }

  /** `vec2d((sx, sy)).normalized()` for the signs drawn by `choice([-1, 1])`. */
  function FromSigns(sx: int, sy: int): (k: Octant)
    requires (sx == -1 || sx == 1) && (sy == -1 || sy == 1)
    ensures DirX(k) == sx as real * Diag && DirY(k) == sy as real * Diag
  {
    if sx == 1 && sy == 1 then 1
    else if sx == -1 && sy == 1 then 3
    else if sx == -1 then 5
    else 7
  }

  /** Every heading has unit length, up to the twenty digits of Diag. */
  lemma NearlyUnit(k: Octant)
    ensures var n := DirX(k) * DirX(k) + DirY(k) * DirY(k);
            -0.000000000000000001 < n - 1.0 < 0.000000000000000001
  {
  }

  /** Reflecting twice in the same axis gives back the heading. */
  lemma ReflectionsAreInvolutions(k: Octant)
    ensures ReflectX(ReflectX(k)) == k && ReflectY(ReflectY(k)) == k
  {
  }
}
