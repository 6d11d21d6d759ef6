/** The two sprites of the game. A Creep wanders on its own: a turn timer
    rotates its heading by a random multiple of 45 degrees now and then, it
    moves by heading * speed * elapsed time, and it bounces off the first
    wall of the field it crosses. The Dodgeball is moved by the arrow-key
    deltas of the `move` dictionary, stops at the same walls, and plays an
    explosion animation once it has been hit. */
module Creeps {
  import opened Geometry
  import opened Heading
  import opened Animation
  import opened Input

  /** The scroll period of every explosion (`SimpleAnimation(..., 10000)`). */
  const ExplosionPeriod: real := 10000.0

  // ---------------------------------------------------------------- turning

  /** What `_change_direction` changes. */
  datatype Timer = Timer(counter: int, heading: Octant)

  /** `_change_direction(time_passed)`; `threshold` is the value of
      randint(700, 3000) drawn on this call and `turn` that of randint(-1, 1). */
  function TurnTimer(counter: int, heading: Octant, t: int, threshold: int, turn: int): (r: Timer)
    requires 700 <= threshold <= 3000 && -1 <= turn <= 1
    ensures r.counter <= 3000
    ensures counter + t <= 700 ==> r == Timer(counter + t, heading)
    ensures r.counter == 0 || r.counter == counter + t
    ensures r.heading == heading || r.heading == Rotate(heading, turn)
    ensures counter + t > threshold <==> r == Timer(0, Rotate(heading, turn)) && counter + t != 0
  {
    var c := counter + t;
    if c > threshold then Timer(0, Rotate(heading, turn)) else Timer(c, heading)
  }

  // --------------------------------------------------------------- moving

  /** `pos + direction * speed * time_passed`: a move of at most
      speed * time_passed along each axis, with no vertical move on a
      horizontal heading and no horizontal move on a vertical one. */
  function Displace(p: Vec, k: Octant, speed: real, t: int): (r: Vec)
    ensures speed >= 0.0 && t >= 0 ==>
              -(speed * t as real) <= r.x - p.x <= speed * t as real &&
              -(speed * t as real) <= r.y - p.y <= speed * t as real
    ensures (k == 0 || k == 4) ==> r.y == p.y
    ensures (k == 2 || k == 6) ==> r.x == p.x
  {
    Vec(p.x + DirX(k) * speed * t as real, p.y + DirY(k) * speed * t as real)
  }

  datatype Motion = Motion(pos: Vec, heading: Octant)

  /** The wall check of Creep.update: the clamp of the shared priority
      chain, and the direction component of the wall that fired negated. */
  function Bounce(p: Vec, k: Octant, bounds: Rect): (r: Motion)
    ensures r.pos == Clamp(p, bounds).pos
    ensures Clamp(p, bounds).side == Inside ==> r.heading == k
    ensures Clamp(p, bounds).side == LeftWall || Clamp(p, bounds).side == RightWall ==>
              DirX(r.heading) == -DirX(k) && DirY(r.heading) == DirY(k)
    ensures Clamp(p, bounds).side == TopWall || Clamp(p, bounds).side == BottomWall ==>
              DirX(r.heading) == DirX(k) && DirY(r.heading) == -DirY(k)
  {
    var c := Clamp(p, bounds);
    match c.side
    case Inside => Motion(c.pos, k)
    case LeftWall => Motion(c.pos, ReflectX(k))
    case RightWall => Motion(c.pos, ReflectX(k))
    case TopWall => Motion(c.pos, ReflectY(k))
    case BottomWall => Motion(c.pos, ReflectY(k))
  }

  /** Everything Creep.update changes on a living creep. */
  datatype CreepState = CreepState(pos: Vec, heading: Octant, speed: real, counter: int, image: Image)

  /** The alive branch of Creep.update with its random draws supplied;
      `rotate(base, k)` stands for pygame.transform.rotate of the base image
      to heading k. The bounds are the field shrunk by the base image size. */
  function CreepStep(s: CreepState, bounds: Rect, base: Image, t: int, threshold: int, turn: int,
                     rotate: (Image, Octant) -> Image): (r: CreepState)
    requires 700 <= threshold <= 3000 && -1 <= turn <= 1
    ensures var tm := TurnTimer(s.counter, s.heading, t, threshold, turn);
            var d := Displace(s.pos, tm.heading, s.speed, t);
            && r.counter == tm.counter && r.speed == s.speed && r.image == rotate(base, tm.heading)
            && (r.pos.x == d.x || r.pos.y == d.y)
            && (InBounds(d, bounds) ==> r.pos == d && r.heading == tm.heading)
            && r.pos == Bounce(d, tm.heading, bounds).pos && r.heading == Bounce(d, tm.heading, bounds).heading
  {
    var tm := TurnTimer(s.counter, s.heading, t, threshold, turn);
    var m := Bounce(Displace(s.pos, tm.heading, s.speed, t), tm.heading, bounds);
    CreepState(m.pos, m.heading, s.speed, tm.counter, rotate(base, tm.heading))
  }

  /** A creep that has moved past the left wall is put on the wall and its
      horizontal direction is reversed; its vertical direction is kept. */
  lemma LeftWallBounce(s: CreepState, bounds: Rect, base: Image, t: int, threshold: int, turn: int,
                       rotate: (Image, Octant) -> Image)
    requires 700 <= threshold <= 3000 && -1 <= turn <= 1
    requires var tm := TurnTimer(s.counter, s.heading, t, threshold, turn);
             Displace(s.pos, tm.heading, s.speed, t).x < bounds.left as real
    ensures var tm := TurnTimer(s.counter, s.heading, t, threshold, turn);
            var r := CreepStep(s, bounds, base, t, threshold, turn, rotate);
            && r.pos == Vec(bounds.left as real, Displace(s.pos, tm.heading, s.speed, t).y)
            && DirX(r.heading) == -DirX(tm.heading) && DirY(r.heading) == DirY(tm.heading)
  {
    var tm := TurnTimer(s.counter, s.heading, t, threshold, turn);
    assert Clamp(Displace(s.pos, tm.heading, s.speed, t), bounds).side == LeftWall;
  }

  // ---------------------------------------------------------------- hit test

  /** The pixel index along one axis of `_point_is_inside`: the sprite's
      corner is int(centre - size / 2) (Python 2 integer halving of the base
      size), and get_at truncates the difference to an integer. */
  function PixelIndex(centre: real, size: nat, p: real): int
  {
    Trunc(p - Trunc(centre - (size / 2) as real) as real)
  }

  /** `_point_is_inside(point)`: is the pixel of the current image under the
      point opaque? An index outside the image is the IndexError path, which
      answers false. */
  function PointIsInside(pos: Vec, w: nat, h: nat, image: Image, point: Vec): (r: bool)
    ensures r ==> pos.x - (w / 2) as real - 2.0 < point.x < pos.x - (w / 2) as real + 1.0 + image.width as real
    ensures r ==> pos.y - (h / 2) as real - 2.0 < point.y < pos.y - (h / 2) as real + 1.0 + image.height as real
    ensures r <==> var ix, iy := PixelIndex(pos.x, w, point.x), PixelIndex(pos.y, h, point.y);
                   0 <= ix < image.width && 0 <= iy < image.height && image.alpha[iy][ix] > 0
  {
    var ix, iy := PixelIndex(pos.x, w, point.x), PixelIndex(pos.y, h, point.y);
    if 0 <= ix < image.width && 0 <= iy < image.height then image.alpha[iy][ix] > 0 else false
  }

  /** The point at a sprite's own position falls on pixel size / 2 or the one
      before it. */
  lemma CentreIndex(centre: real, size: nat)
    requires size >= 1
    ensures 0 <= PixelIndex(centre, size, centre) && size / 2 - 1 <= PixelIndex(centre, size, centre) <= size / 2
  {
    var a := centre - (size / 2) as real;
    var o := Trunc(a);
    var v := centre - o as real;
    assert v == (size / 2) as real + (a - o as real);
  }

  /** A point at the centre of a fully opaque sprite is a hit. */
  lemma CentreOfOpaqueImageHits(pos: Vec, image: Image)
    requires image.width >= 1 && image.height >= 1
    requires forall y, x :: 0 <= y < image.height && 0 <= x < image.width ==> image.alpha[y][x] > 0
    ensures PointIsInside(pos, image.width, image.height, image, pos)
  {
    CentreIndex(pos.x, image.width);
    CentreIndex(pos.y, image.height);
  }

  /** A fully opaque 10 x 10 sprite at (100, 100): its centre is a hit and a
      point 1000 pixels to the right is not. */
  lemma OpaqueSquareExample(image: Image)
    requires image.width == 10 && image.height == 10
    requires forall y, x :: 0 <= y < 10 && 0 <= x < 10 ==> image.alpha[y][x] > 0
    ensures PointIsInside(Vec(100.0, 100.0), 10, 10, image, Vec(100.0, 100.0))
    ensures !PointIsInside(Vec(100.0, 100.0), 10, 10, image, Vec(1100.0, 100.0))
  {
    CentreOfOpaqueImageHits(Vec(100.0, 100.0), image);
  }

  // ------------------------------------------------------------- dodgeball

  /** The alive branch of Dodgeball.update: x moves by move[RIGHT] - move[LEFT]
      and y by move[DOWN] - move[UP], then the shared wall clamp, with no
      reflection. */
  function BallStep(p: Vec, move: map<Key, int>, bounds: Rect): (r: Vec)
    requires Arrows <= move.Keys
    ensures var d := Vec(p.x - move[Left] as real + move[Right] as real, p.y - move[Up] as real + move[Down] as real);
            && r == Clamp(d, bounds).pos
            && (InBounds(d, bounds) ==> r == d)
            && (r.x == d.x || r.y == d.y)
  {
    var x := p.x - move[Left] as real + move[Right] as real;
    var y := p.y - move[Up] as real + move[Down] as real;
    Clamp(Vec(x, y), bounds).pos
  }

  /** A ball at (50, 50) on the 920 x 540 field with only RIGHT held at 5
      moves exactly 5 pixels to the right. */
  lemma BallMovesRight(w: nat, h: nat)
    requires w <= 90 && h <= 90
    ensures BallStep(Vec(50.0, 50.0), map[Up := 0, Down := 0, Left := 0, Right := 5],
                     Inflate(Rect(0, 0, 920, 540), -(w as int), -(h as int))) == Vec(55.0, 50.0)
  {
    var b := Inflate(Rect(0, 0, 920, 540), -(w as int), -(h as int));
    assert b.left <= 45 && b.top <= 45 && b.Right() >= 830 && b.Bottom() >= 450;
    assert InBounds(Vec(55.0, 50.0), b);
  }

  // ----------------------------------------------------------------- classes

  /** A wandering creep. The base image and its size are fixed when the creep
      is made; the image drawn and hit-tested is the base image rotated to the
      current heading. */
  class Creep {
    const field: Rect
    const baseImage: Image
    const imageW: nat
    const imageH: nat
    var image: Image
    var pos: Vec
    var heading: Octant
    var speed: real
    var counter: int

    function State(): CreepState
      reads this
    {
      CreepState(pos, heading, speed, counter, image)
    }

    /** `field.inflate(-image_w, -image_h)`, with the size captured when the
        creep was made; both are fixed, so it is computed once. */
    const bounds: Rect

    /** The captured size is that of the base image, and the bounds are the
        field shrunk by it. */
    predicate Sized()
    {
      && imageW == baseImage.width && imageH == baseImage.height
      && bounds == Inflate(field, -(imageW as int), -(imageH as int))
    }

    /** `Creep(screen, creep_image, (x, y), (sx, sy), speed)`: the direction
        (sx, sy) is normalised, which puts it on a diagonal. */
    constructor (field: Rect, creepImage: Image, x: int, y: int, sx: int, sy: int, speed: real)
      requires (sx == -1 || sx == 1) && (sy == -1 || sy == 1)
      ensures this.field == field && baseImage == creepImage
      ensures imageW == creepImage.width && imageH == creepImage.height
      ensures bounds == Inflate(field, -(imageW as int), -(imageH as int)) && Sized()
      ensures State() == CreepState(Vec(x as real, y as real), FromSigns(sx, sy), speed, 0, creepImage)
    {
      this.field := field;
      baseImage := creepImage;
      image := creepImage;
      imageW := creepImage.width;
      imageH := creepImage.height;
      bounds := Inflate(field, -(creepImage.width as int), -(creepImage.height as int));
      pos := Vec(x as real, y as real);
      heading := FromSigns(sx, sy);
      this.speed := speed;
      counter := 0;
    }

    /** `_change_direction(time_passed)`. */
    method ChangeDirection(t: int, threshold: int, turn: int)
      requires 700 <= threshold <= 3000 && -1 <= turn <= 1
      modifies this`counter, this`heading
      ensures Timer(counter, heading) == TurnTimer(old(counter), old(heading), t, threshold, turn)
    {
      counter := counter + t;
      if counter > threshold {
        heading := Rotate(heading, turn);
        counter := 0;
      }
    }

    /** `update(time_passed)` of a living creep. */
    method Update(t: int, threshold: int, turn: int, rotate: (Image, Octant) -> Image)
      requires 700 <= threshold <= 3000 && -1 <= turn <= 1
      modifies this
      ensures State() == CreepStep(old(State()), bounds, baseImage, t, threshold, turn, rotate)
    {
      ChangeDirection(t, threshold, turn);
      image := rotate(baseImage, heading);
      pos := Displace(pos, heading, speed, t);
      var b := bounds;
      if pos.x < b.left as real {
        pos := pos.(x := b.left as real);
        heading := ReflectX(heading);
      } else if pos.x > b.Right() as real {
        pos := pos.(x := b.Right() as real);
        heading := ReflectX(heading);
      } else if pos.y < b.top as real {
        pos := pos.(y := b.top as real);
        heading := ReflectY(heading);
      } else if pos.y > b.Bottom() as real {
        pos := pos.(y := b.Bottom() as real);
        heading := ReflectY(heading);
      }
    }

    /** `Collision(pos)`: true exactly when the point is inside the creep's
        body (the source answers None otherwise). */
    method Collision(point: Vec) returns (hit: bool)
      ensures hit == PointIsInside(pos, imageW, imageH, image, point)
    {
      hit := PointIsInside(pos, imageW, imageH, image, point);
    }
  }

  /** The player's ball. It never rotates, so its size stays that of its
      image; `exploding` holds exactly when an explosion animation exists. */
  class Dodgeball {
    const field: Rect
    const image: Image
    const speed: int
    const explosionImages: seq<Image>
    /** Where the ball may go: the field shrunk by the image size, which
        never changes, so it is computed once. */
    const bounds: Rect
    var imageW: nat
    var imageH: nat
    var pos: Vec
    var exploding: bool
    var bang: SimpleAnimation?

    ghost predicate Valid()
      reads this, bang
    {
      && imageW == image.width && imageH == image.height
      && bounds == Inflate(field, -(image.width as int), -(image.height as int))
      && (exploding <==> bang != null)
      && (bang != null ==> bang.Valid())
    }

    /** `Dodgeball(screen, move_img, (x, y), direction, speed,
        explosion_images=...)`; the direction is never used by the ball. */
    constructor (field: Rect, image: Image, x: int, y: int, speed: int, explosionImages: seq<Image>)
      ensures Valid() && !exploding
      ensures this.field == field && this.image == image && this.speed == speed
      ensures this.explosionImages == explosionImages
      ensures bounds == Inflate(field, -(image.width as int), -(image.height as int))
      ensures pos == Vec(x as real, y as real)
    {
      this.field := field;
      this.image := image;
      this.speed := speed;
      this.explosionImages := explosionImages;
      bounds := Inflate(field, -(image.width as int), -(image.height as int));
      imageW := image.width;
      imageH := image.height;
      pos := Vec(x as real, y as real);
      exploding := false;
      bang := null;
    }

    /** `update(move)`: move and clamp while alive; once exploding, advance the
        explosion and leave the position alone. */
    method Update(move: map<Key, int>)
      requires Valid() && (!exploding ==> Arrows <= move.Keys)
      modifies this, bang
      ensures Valid() && exploding == old(exploding) && bang == old(bang)
      ensures !exploding ==> pos == BallStep(old(pos), move, bounds)
      ensures exploding ==>
                pos == old(pos) && bang.updates == old(bang.updates) + 1
                && bang.State() == Next(bang.Cfg(), old(bang.State()))
    {
      if !exploding {
        pos := pos.(x := pos.x - move[Left] as real);
        pos := pos.(x := pos.x + move[Right] as real);
        pos := pos.(y := pos.y - move[Up] as real);
        pos := pos.(y := pos.y + move[Down] as real);
        imageW, imageH := image.width, image.height;
        var b := bounds;
        if pos.x < b.left as real {
          pos := pos.(x := b.left as real);
        } else if pos.x > b.Right() as real {
          pos := pos.(x := b.Right() as real);
        } else if pos.y < b.top as real {
          pos := pos.(y := b.top as real);
        } else if pos.y > b.Bottom() as real {
          pos := pos.(y := b.Bottom() as real);
        }
      } else {
        bang.Update();
      }
    }

    /** The explosion `_explode` starts: the explosion images placed half the
        first image up and left of the ball, scrolled with period 10000 for
        an indefinite time, and not yet updated. */
    ghost predicate JustExploded()
      reads this, bang
    {
      && bang != null && |explosionImages| > 0
      && bang.images == explosionImages && bang.scrollPeriod == ExplosionPeriod
      && bang.duration == Indefinite && bang.updates == 0 && bang.State() == Start
      && bang.pos == Vec(pos.x - (explosionImages[0].width / 2) as real,
                         pos.y - (explosionImages[0].height / 2) as real)
    }

    /** `_explode()`: start a fresh explosion of the ball's explosion images,
        placed at the ball's corner; the source needs at least one image. */
    method Explode()
      requires Valid() && |explosionImages| > 0
      modifies this
      ensures Valid() && exploding && fresh(bang) && JustExploded()
      ensures pos == old(pos) && imageW == old(imageW) && imageH == old(imageH)
      ensures bang.images == explosionImages && bang.scrollPeriod == ExplosionPeriod
      ensures bang.duration == Indefinite && bang.updates == 0 && bang.State() == Start
      ensures bang.pos == Vec(pos.x - (explosionImages[0].width / 2) as real,
                              pos.y - (explosionImages[0].height / 2) as real)
    {
      exploding := true;
      var corner := Vec(pos.x - (explosionImages[0].width / 2) as real,
                        pos.y - (explosionImages[0].height / 2) as real);
      bang := new SimpleAnimation(corner, explosionImages, ExplosionPeriod, Indefinite);
    }
  }
}
