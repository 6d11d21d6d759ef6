/** The Game object: the control state of Rules held in fields, the group of
    creeps and the dodgeball. load_game builds a round, the event loop feeds
    events to the three state blocks, and each playing frame moves the ball
    and every creep and ends the round on a collision. */
module GameLoop {
  import opened Geometry
  import opened Heading
  import opened Animation
  import opened Input
  import opened Creeps
  import opened Rules

  /** The game field: FIELD_WIDTH x FIELD_HEIGHT at the origin. */
  const FieldWidth: int := 920
  const FieldHeight: int := 540
  const Field: Rect := Rect(0, 0, FieldWidth, FieldHeight)
  const NumCreeps: nat := 70
  /** The speed every creep is made with. */
  const StartSpeed: real := 0.1

  /** What load_game draws for one creep: `choice(creep_images)` as an index,
      the position `randint(5, 915), randint(5, 535)` and the two signs of
      `choice([-1, 1])`. */
  datatype CreepDraw = CreepDraw(image: int, x: int, y: int, sx: int, sy: int)

  predicate GoodDraw(d: CreepDraw, images: nat)
  {
    && 0 <= d.image < images
    && 5 <= d.x <= FieldWidth - 5 && 5 <= d.y <= FieldHeight - 5
    && (d.sx == -1 || d.sx == 1) && (d.sy == -1 || d.sy == 1)
  }

  predicate GoodDraws(ds: seq<CreepDraw>, images: nat)
  {
    |ds| == NumCreeps && forall i :: 0 <= i < |ds| ==> GoodDraw(ds[i], images)
  }

  /** What one creep's pass of the creep loop of element_move reads from
      outside: the threshold `randint(700, 3000)` and the turn `randint(-1, 1)`
      that its `_change_direction` draws, and the tick count `get_ticks()`
      that `get_play_time()` reads when its speed is set. */
  datatype PassInput = PassInput(threshold: int, turn: int, now: int)

  predicate GoodPasses(ts: seq<PassInput>)
  {
    |ts| == NumCreeps && forall i :: 0 <= i < |ts| ==> 700 <= ts[i].threshold <= 3000 && -1 <= ts[i].turn <= 1
  }

  /** No creep is in the group twice: `slot` maps each creep to its index. */
  predicate Indexed(cs: seq<Creep>, slot: map<Creep, nat>)
  {
    forall i :: 0 <= i < |cs| ==> cs[i] in slot && slot[cs[i]] == i
  }

  /** A creep's state after one playing frame: its update, moved with the
      speed it already had, and then the speed for the play time at the tick
      its pass reads, with the game's start time and paused time `start` and
      `passed`; the new speed only takes effect on the next frame. */
  function CreepFrame(s: CreepState, bounds: Rect, base: Image, t: int, d: PassInput,
                      rotate: (Image, Octant) -> Image, start: int, passed: int): (r: CreepState)
    requires 700 <= d.threshold <= 3000 && -1 <= d.turn <= 1
    ensures r.(speed := s.speed) == CreepStep(s, bounds, base, t, d.threshold, d.turn, rotate)
    ensures r.speed == CreepSpeed(PlayTime(d.now, start, passed))
    ensures d.now >= start + passed ==> r.speed >= 0.1
  {
    CreepStep(s, bounds, base, t, d.threshold, d.turn, rotate).(speed := CreepSpeed(PlayTime(d.now, start, passed)))
  }

  /** Whether a creep, in state s, covers the point: its Collision test with
      the base image size it was made with. */
  function Covers(s: CreepState, c: Creep, p: Vec): bool
  {
    PointIsInside(s.pos, c.imageW, c.imageH, s.image, p)
  }

  /** The new states of the first n creeps after a playing frame: creep j
      starts from ss[j] and takes its frame with its own bounds and base
      image and the draw passes[j]. */
  function Frames(ss: seq<CreepState>, cs: seq<Creep>, t: int, passes: seq<PassInput>,
                  rotate: (Image, Octant) -> Image, start: int, passed: int, n: nat): (r: seq<CreepState>)
    requires n <= |ss| && n <= |cs| && n <= |passes|
    requires forall j :: 0 <= j < n ==> 700 <= passes[j].threshold <= 3000 && -1 <= passes[j].turn <= 1
    ensures |r| == n
  {
    if n == 0 then []
    else Frames(ss, cs, t, passes, rotate, start, passed, n - 1)
         + [CreepFrame(ss[n - 1], cs[n - 1].bounds, cs[n - 1].baseImage, t, passes[n - 1], rotate, start, passed)]
  }

  /** Creep j's new state is its own frame, whatever the other creeps do. */
  lemma {:induction false} FramesAt(ss: seq<CreepState>, cs: seq<Creep>, t: int, passes: seq<PassInput>,
                                    rotate: (Image, Octant) -> Image, start: int, passed: int, n: nat, j: int)
    requires n <= |ss| && n <= |cs| && n <= |passes|
    requires forall i :: 0 <= i < n ==> 700 <= passes[i].threshold <= 3000 && -1 <= passes[i].turn <= 1
    requires 0 <= j < n
    ensures Frames(ss, cs, t, passes, rotate, start, passed, n)[j]
            == CreepFrame(ss[j], cs[j].bounds, cs[j].baseImage, t, passes[j], rotate, start, passed)
  {
    if j < n - 1 {
      FramesAt(ss, cs, t, passes, rotate, start, passed, n - 1, j);
    }
  }

  /** For the first n creeps, in states ss, whether each covers the point p. */
  function Covered(ss: seq<CreepState>, cs: seq<Creep>, p: Vec, n: nat): (r: seq<bool>)
    requires n <= |ss| && n <= |cs|
    ensures |r| == n
  {
    if n == 0 then [] else Covered(ss, cs, p, n - 1) + [Covers(ss[n - 1], cs[n - 1], p)]
  }

  /** Creep j's entry is its own Collision test. */
  lemma {:induction false} CoveredAt(ss: seq<CreepState>, cs: seq<Creep>, p: Vec, n: nat, j: int)
    requires n <= |ss| && n <= |cs| && 0 <= j < n
    ensures Covered(ss, cs, p, n)[j] == Covers(ss[j], cs[j], p)
  {
    if j < n - 1 {
      CoveredAt(ss, cs, p, n - 1, j);
    }
  }

  /** How many of the first n flags are set: how many creeps call game_over. */
  function Count(f: seq<bool>, n: nat): (r: nat)
    requires n <= |f|
    ensures r <= n
  {
    if n == 0 then 0 else Count(f, n - 1) + if f[n - 1] then 1 else 0
  }

  /** No game_over call happens exactly when no flag is set, and one per
      creep exactly when every flag is. */
  lemma {:induction false} CountBounds(f: seq<bool>, n: nat)
    requires n <= |f|
    ensures Count(f, n) == 0 <==> forall j :: 0 <= j < n ==> !f[j]
    ensures Count(f, n) == n <==> forall j :: 0 <= j < n ==> f[j]
  {
    if n > 0 {
      CountBounds(f, n - 1);
    }
  }

  /** The states of the creeps, in order. */
  ghost function States(cs: seq<Creep>): (r: seq<CreepState>)
    reads cs
    ensures |r| == |cs| && forall j :: 0 <= j < |cs| ==> r[j] == cs[j].State()
  {
    seq(|cs|, j requires 0 <= j < |cs| reads cs => cs[j].State())
  }

  /** Creep by creep equal states make equal state sequences. */
  lemma StatesAre(cs: seq<Creep>, ss: seq<CreepState>)
    requires |ss| == |cs| && forall j :: 0 <= j < |cs| ==> cs[j].State() == ss[j]
    ensures States(cs) == ss
  {
  }

  class Game {
    const field: Rect
    const creepImages: seq<Image>
    const moveImg: Image
    const explosionImages: seq<Image>
    var state: int
    var paused: bool
    var move: map<Key, int>
    var startTime: int
    var passedTime: int
    var breakPoint: int
    var creeps: seq<Creep>
    var dodgeball: Dodgeball
    ghost var slot: map<Creep, nat>

    function Controls(): Control
      reads this
    {
      Control(state, paused, move, startTime, passedTime, breakPoint)
    }

    ghost predicate Valid()
      reads this, dodgeball, dodgeball.bang
    {
      && |creepImages| > 0 && |explosionImages| > 0
      && Sane(Controls())
      && |creeps| == NumCreeps && Indexed(creeps, slot)
      && (forall i :: 0 <= i < |creeps| ==> creeps[i].field == field && creeps[i].Sized())
      && dodgeball.Valid() && dodgeball.field == field && dodgeball.speed == BallSpeed && dodgeball.image == moveImg
      && dodgeball.explosionImages == explosionImages
      && (state == Over <==> dodgeball.exploding)
    }

    /** `Game()` followed by the `load_game()` that `run` starts with; STATE
        starts at 0, and `break_point` (unset until the first pause) at 0. */
    constructor (creepImages: seq<Image>, moveImg: Image, explosionImages: seq<Image>, draws: seq<CreepDraw>)
      requires |creepImages| > 0 && |explosionImages| > 0 && GoodDraws(draws, |creepImages|)
      ensures Valid()
      ensures this.creepImages == creepImages && this.moveImg == moveImg && this.explosionImages == explosionImages
      ensures field == Field && Controls() == Control(Ready, false, ZeroMove, 0, 0, 0)
      ensures |creeps| == NumCreeps && forall i :: 0 <= i < NumCreeps ==> Made(creeps[i], draws[i])
      ensures dodgeball.pos == Vec(10.0, 10.0) && !dodgeball.exploding
      ensures dodgeball.bounds == Inflate(Field, -(moveImg.width as int), -(moveImg.height as int))
    {
      this.creepImages := creepImages;
      this.moveImg := moveImg;
      this.explosionImages := explosionImages;
      state := Ready;
      breakPoint := 0;
      field := Field;
      dodgeball := new Dodgeball(Field, moveImg, 10, 10, BallSpeed, explosionImages);
      new;
      LoadGame(draws);
    }

    /** `load_game()`: a fresh round of NumCreeps creeps and a fresh ball at
        (10, 10), with the control state reset. */
    method LoadGame(draws: seq<CreepDraw>)
      requires |creepImages| > 0 && |explosionImages| > 0 && GoodDraws(draws, |creepImages|)
      modifies this
      ensures Controls() == Loaded(old(Controls()))
      ensures |creeps| == NumCreeps && Indexed(creeps, slot)
      ensures forall i :: 0 <= i < NumCreeps ==> fresh(creeps[i]) && Made(creeps[i], draws[i])
      ensures fresh(dodgeball) && dodgeball.pos == Vec(10.0, 10.0) && dodgeball.image == moveImg
      ensures !dodgeball.exploding && dodgeball.explosionImages == explosionImages
      ensures dodgeball.bounds == Inflate(field, -(moveImg.width as int), -(moveImg.height as int))
      ensures state == old(state)
      ensures state == Ready || state == Playing ==> Valid()
    {
      paused := false;
      move := ZeroMove;
      creeps, slot := NewCreeps(draws);
      dodgeball := new Dodgeball(field, moveImg, 10, 10, BallSpeed, explosionImages);
      startTime := 0;
      passedTime := 0;
    }

    /** The creep load_game makes from the draw d: on the game field, with the
        drawn image and its size, at the drawn position, heading the drawn diagonal, at the
        start speed and with its turn counter at zero. */
    predicate Made(c: Creep, d: CreepDraw)
      requires 0 <= d.image < |creepImages| && (d.sx == -1 || d.sx == 1) && (d.sy == -1 || d.sy == 1)
      reads c
    {
      && c.field == field && c.baseImage == creepImages[d.image]
      && c.Sized()
      && c.State() == CreepState(Vec(d.x as real, d.y as real), FromSigns(d.sx, d.sy), StartSpeed, 0,
                                 creepImages[d.image])
    }

    /** The creep loop of load_game: one new creep per draw, in order. */
    method NewCreeps(draws: seq<CreepDraw>) returns (cs: seq<Creep>, ghost sl: map<Creep, nat>)
      requires GoodDraws(draws, |creepImages|)
      ensures |cs| == NumCreeps && Indexed(cs, sl)
      ensures forall i :: 0 <= i < NumCreeps ==> fresh(cs[i]) && Made(cs[i], draws[i])
    {
      cs, sl := [], map[];
      var i := 0;
      while i < NumCreeps
        invariant 0 <= i <= NumCreeps && |cs| == i && Indexed(cs, sl)
        invariant forall j :: 0 <= j < i ==> fresh(cs[j]) && Made(cs[j], draws[j])
      {
        var d := draws[i];
        var c := new Creep(field, creepImages[d.image], d.x, d.y, d.sx, d.sy, StartSpeed);
        cs, sl := cs + [c], sl[c := i];
        i := i + 1;
      }
    }

    /** `game_over()`. */
    method GameOver()
      modifies this`state, this`paused
      ensures Controls() == GameOverControl(old(Controls()))
    {
      state := Over;
      paused := !paused;
    }

    /** One pass of the body of `for event in pygame.event.get()`. `now` is
        the tick count `get_ticks()` reads, `mouse` the state of the mouse, and
        `draws` what a load_game triggered by this event would draw. */
    method HandleEvent(p: Polled, draws: seq<CreepDraw>) returns (exit: bool)
      requires Valid() && GoodDraws(draws, |creepImages|)
      modifies this, dodgeball
      ensures var r := OnEvent(old(Controls()), p.event, p.now, p.mouse.pressed);
              && exit == r.Exit?
              && (r.Exit? ==> Controls() == old(Controls()) && creeps == old(creeps) && dodgeball == old(dodgeball)
                                && dodgeball.pos == old(dodgeball.pos))
              && (r.Go? ==> Controls() == r.c && Valid())
              && (r.Go? && !r.reload ==> creeps == old(creeps) && dodgeball == old(dodgeball) && dodgeball.bang == old(dodgeball.bang))
              && (r.Go? && r.placeBall ==> dodgeball.pos == Vec(p.mouse.x as real, p.mouse.y as real))
              && (r.Go? && !r.placeBall && !r.reload ==> dodgeball.pos == old(dodgeball.pos))
              && (r.Go? && r.reload ==> fresh(dodgeball) && dodgeball.pos == Vec(10.0, 10.0) && !dodgeball.exploding
                                        && dodgeball.bounds == Inflate(field, -(moveImg.width as int), -(moveImg.height as int))
                                        && |creeps| == NumCreeps
                                        && forall i :: 0 <= i < NumCreeps ==> fresh(creeps[i]) && Made(creeps[i], draws[i]))
    {
      var e := p.event;
      if e == Quit || e == KeyDown(Escape) {
        return true;
      }
      ReadyBlock(p);
      PlayingBlock(p);
      OverBlock(p, draws);
      exit := false;
    }

    /** The `if self.STATE == 0` block: RETURN starts the game and records
        the start tick, and a pressed mouse button puts the ball under the
        mouse. */
    method ReadyBlock(p: Polled)
      requires Valid()
      modifies this`state, this`startTime, dodgeball`pos
      ensures Valid() && Controls() == ReadyStep(old(Controls()), p.event, p.now)
      ensures dodgeball == old(dodgeball) && dodgeball.bang == old(dodgeball.bang)
      ensures old(state) == Ready && p.mouse.pressed ==> dodgeball.pos == Vec(p.mouse.x as real, p.mouse.y as real)
      ensures !(old(state) == Ready && p.mouse.pressed) ==> dodgeball.pos == old(dodgeball.pos)
    {
      if state == Ready {
        if p.event == KeyDown(Return) {
          state := Playing;
          startTime := p.now;
        }
        if p.mouse.pressed {
          dodgeball.pos := Vec(p.mouse.x as real, p.mouse.y as real);
        }
      }
    }

    /** The `if self.STATE == 1` block: 'p' pauses or resumes, and an arrow
        key pressed or released sets its entry of `move` to the ball's speed
        or to 0. */
    method PlayingBlock(p: Polled)
      requires Valid()
      modifies this`paused, this`breakPoint, this`passedTime, this`move
      ensures Valid() && Controls() == PlayingStep(old(Controls()), p.event, p.now)
    {
      var e := p.event;
      if state == Playing {
        if e == KeyDown(KeyP) {
          paused := !paused;
          if paused {
            breakPoint := p.now;
          } else {
            passedTime := passedTime + p.now - breakPoint;
          }
        }
        if e.KeyDown? && e.key in move {
          move := move[e.key := dodgeball.speed];
        }
        if e.KeyUp? && e.key in move {
          move := move[e.key := 0];
        }
      }
    }

    /** The `if self.STATE == -1` block: RETURN goes back to the ready state,
        flips `paused` and calls load_game. */
    method OverBlock(p: Polled, draws: seq<CreepDraw>)
      requires Valid() && GoodDraws(draws, |creepImages|)
      modifies this, dodgeball
      ensures Valid() && Controls() == OverStep(old(Controls()), p.event)
      ensures var reload := old(state) == Over && p.event == KeyDown(Return);
              && (!reload ==> creeps == old(creeps) && dodgeball == old(dodgeball) && dodgeball.pos == old(dodgeball.pos)
                              && dodgeball.bang == old(dodgeball.bang))
              && (reload ==> fresh(dodgeball) && dodgeball.pos == Vec(10.0, 10.0) && !dodgeball.exploding
                             && dodgeball.bounds == Inflate(field, -(moveImg.width as int), -(moveImg.height as int))
                             && |creeps| == NumCreeps
                             && forall i :: 0 <= i < NumCreeps ==> fresh(creeps[i]) && Made(creeps[i], draws[i]))
    {
      if state == Over {
        if p.event == KeyDown(Return) {
          state := Ready;
          paused := !paused;
          LoadGame(draws);
        }
      }
    }

    /** `element_move()`: the ball moves by the held keys, then each creep in
        turn updates, takes the speed for the play time at the tick it reads,
        and, if it now covers the ball, explodes the ball and calls game_over.
        `passes[i]` is what creep i's pass draws and reads. With n creeps
        covering the ball, the game is over when n > 0 and `paused` has been
        flipped n times. */
    method ElementMove(t: int, passes: seq<PassInput>, rotate: (Image, Octant) -> Image)
      requires Valid() && state == Playing && GoodPasses(passes)
      modifies this`state, this`paused, dodgeball, creeps
      ensures Valid()
      ensures dodgeball.pos == BallStep(old(dodgeball.pos), move, dodgeball.bounds)
      ensures var after := Frames(old(States(creeps)), creeps, t, passes, rotate,
                                  old(startTime), old(passedTime), |creeps|);
              var hits := Count(Covered(after, creeps, dodgeball.pos, |creeps|), |creeps|);
              && States(creeps) == after
              && state == (if hits > 0 then Over else Playing)
              && paused == (old(paused) != (hits % 2 == 1))
              && (dodgeball.exploding <==> hits > 0)
              && (hits > 0 ==> fresh(dodgeball.bang) && dodgeball.JustExploded())
    {
      ghost var before := States(creeps);
      dodgeball.Update(move);
      MoveCreeps(t, startTime, passedTime, passes, rotate, before);
    }

    /** The first half of a pass of the creep loop of element_move: the
        creep updates, and then takes the speed for the play time at the tick
        `d.now`. */
    method MoveCreep(creep: Creep, t: int, d: PassInput, rotate: (Image, Octant) -> Image, start: int, passed: int)
      requires 700 <= d.threshold <= 3000 && -1 <= d.turn <= 1
      modifies creep
      ensures creep.State() == CreepFrame(old(creep.State()), creep.bounds, creep.baseImage, t, d, rotate, start, passed)
    {
      creep.Update(t, d.threshold, d.turn, rotate);
      creep.speed := CreepSpeed(PlayTime(d.now, start, passed));
    }

    /** The second half: if the creep now covers the ball, the ball explodes
        (`dodgeball._explode()`) and game_over is called. */
    method HitBall(creep: Creep) returns (hit: bool)
      requires dodgeball.Valid() && |dodgeball.explosionImages| > 0
      modifies this`state, this`paused, dodgeball
      ensures hit == Covers(creep.State(), creep, dodgeball.pos)
      ensures dodgeball.Valid() && dodgeball.pos == old(dodgeball.pos)
      ensures state == (if hit then Over else old(state)) && paused == (old(paused) != hit)
      ensures Controls() == if hit then GameOverControl(old(Controls())) else old(Controls())
      ensures dodgeball.exploding == (old(dodgeball.exploding) || hit)
      ensures hit ==> fresh(dodgeball.bang) && dodgeball.JustExploded()
      ensures !hit ==> dodgeball.bang == old(dodgeball.bang)
    {
      hit := creep.Collision(dodgeball.pos);
      if hit {
        dodgeball.Explode();
        GameOver();
      }
    }

    /** What the creep loop of element_move has done after its first i
        passes and the update of the first m >= i creeps: those creeps are
        in their new states `want`, the others are as they were (`before`),
        and for each of the first i set flags the ball has been exploded and
        game_over called on the control state `c0` the loop started from. */
    ghost predicate Midway(i: int, m: int, cs: seq<Creep>, ball: Dodgeball, before: seq<CreepState>,
                           want: seq<CreepState>, flags: seq<bool>, hits: nat, c0: Control, p: Vec)
      reads this, cs, ball, ball.bang
    {
      && creeps == cs && dodgeball == ball
      && 0 <= i <= m <= |cs| && |before| == |cs| && |want| == |cs| && |flags| == |cs| && |cs| == NumCreeps
      && ball.Valid() && ball.pos == p && |ball.explosionImages| > 0
      && Indexed(cs, slot)
      && (forall j :: 0 <= j < m ==> cs[j].State() == want[j])
      && (forall j :: m <= j < |cs| ==> cs[j].State() == before[j])
      && hits == Count(flags, i)
      && Controls() == GameOverTimes(c0, hits)
      && (ball.exploding <==> hits > 0)
      && (hits > 0 ==> ball.JustExploded())
    }

    /** The update of creep i, with its bookkeeping: its new state is want[i]. */
    method UpdateStep(i: int, cs: seq<Creep>, ball: Dodgeball, t: int, start: int, passed: int, passes: seq<PassInput>,
                      rotate: (Image, Octant) -> Image, ghost before: seq<CreepState>, ghost want: seq<CreepState>,
                      ghost flags: seq<bool>, ghost hits: nat, ghost c0: Control, ghost p: Vec)
      requires Midway(i, i, cs, ball, before, want, flags, hits, c0, p) && i < |cs| && GoodPasses(passes)
      requires want == Frames(before, cs, t, passes, rotate, start, passed, |cs|)
      modifies cs[i]
      ensures Midway(i, i + 1, cs, ball, before, want, flags, hits, c0, p)
    {
      FramesAt(before, cs, t, passes, rotate, start, passed, |cs|, i);
      MoveCreep(cs[i], t, passes[i], rotate, start, passed);
    }

    /** The hit test of creep i, with its bookkeeping: flags[i] says whether
        it covers the ball. */
    method HitStep(i: int, cs: seq<Creep>, ball: Dodgeball, ghost before: seq<CreepState>, ghost want: seq<CreepState>,
                   ghost flags: seq<bool>, ghost hits: nat, ghost c0: Control, ghost p: Vec)
      returns (ghost hits': nat)
      requires Midway(i, i + 1, cs, ball, before, want, flags, hits, c0, p) && flags == Covered(want, cs, p, |cs|)
      modifies this`state, this`paused, ball
      ensures Midway(i + 1, i + 1, cs, ball, before, want, flags, hits', c0, p)
      ensures hits' > hits ==> fresh(ball.bang)
      ensures hits' == hits ==> ball.bang == old(ball.bang)
      ensures hits' >= hits
    {
      CoveredAt(want, cs, p, |cs|, i);
      var hit := HitBall(cs[i]);
      hits' := if hit then hits + 1 else hits;
    }

    /** One pass of the creep loop, with its bookkeeping. */
    method Step(i: int, cs: seq<Creep>, ball: Dodgeball, t: int, start: int, passed: int, passes: seq<PassInput>,
                rotate: (Image, Octant) -> Image, ghost before: seq<CreepState>, ghost want: seq<CreepState>,
                ghost flags: seq<bool>, ghost hits: nat, ghost c0: Control, ghost p: Vec)
      returns (ghost hits': nat)
      requires Midway(i, i, cs, ball, before, want, flags, hits, c0, p) && i < |cs| && GoodPasses(passes)
      requires want == Frames(before, cs, t, passes, rotate, start, passed, |cs|) && flags == Covered(want, cs, p, |cs|)
      modifies cs[i], this`state, this`paused, ball
      ensures Midway(i + 1, i + 1, cs, ball, before, want, flags, hits', c0, p)
      ensures hits' > hits ==> fresh(ball.bang)
      ensures hits' == hits ==> ball.bang == old(ball.bang)
      ensures hits' >= hits
    {
      UpdateStep(i, cs, ball, t, start, passed, passes, rotate, before, want, flags, hits, c0, p);
      hits' := HitStep(i, cs, ball, before, want, flags, hits, c0, p);
    }

    /** The creep loop of element_move, after the ball has moved. */
    method MoveCreeps(t: int, start: int, passed: int, passes: seq<PassInput>, rotate: (Image, Octant) -> Image,
                      ghost before: seq<CreepState>)
      requires Valid() && state == Playing && GoodPasses(passes) && before == States(creeps)
      modifies this`state, this`paused, dodgeball, creeps
      ensures Valid() && dodgeball.pos == old(dodgeball.pos)
      ensures var after := Frames(before, creeps, t, passes, rotate, start, passed, |creeps|);
              var hits := Count(Covered(after, creeps, dodgeball.pos, |creeps|), |creeps|);
              && States(creeps) == after
              && state == (if hits > 0 then Over else Playing)
              && paused == (old(paused) != (hits % 2 == 1))
              && (dodgeball.exploding <==> hits > 0)
              && (hits > 0 ==> fresh(dodgeball.bang) && dodgeball.JustExploded())
    {
      var ball, cs := dodgeball, creeps;
      ghost var p, c0 := ball.pos, Controls();
      ghost var want := Frames(before, cs, t, passes, rotate, start, passed, |cs|);
      ghost var flags := Covered(want, cs, p, |cs|);
      var i := 0;
      ghost var hits := 0;
      while i < |cs|
        invariant Midway(i, i, cs, ball, before, want, flags, hits, c0, p)
        invariant hits > 0 ==> fresh(ball.bang)
      {
        hits := Step(i, cs, ball, t, start, passed, passes, rotate, before, want, flags, hits, c0, p);
        i := i + 1;
      }
      StatesAre(cs, want);
      GameOverParity(c0, hits);
    }
  }
}
