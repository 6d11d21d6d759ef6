/** SimpleAnimation: scrolls cyclically through a list of images drawn at one
    position, for a given duration or for ever. Every update adds the same
    fixed step, scroll_period / len(images), to a scroll accumulator and to a
    duration accumulator; the frame pointer advances when the scroll
    accumulator strictly exceeds the period, and the animation stops for good
    once the duration accumulator strictly exceeds a non-negative duration. */
module Animation {
  import opened Geometry
  import opened Arith

  /** The `duration` of an animation that never ends (the default of the source). */
  const Indefinite: real := -1.0

  /** The fixed parameters of an animation; `step` is `time_passed`, the
      amount every update adds. */
  datatype Config = Config(frames: nat, scrollPeriod: real, duration: real, step: real) {
    /** The step is the period shared out over the frames. */
    predicate Fixed()
    {
      frames > 0 && frames as real * step == scrollPeriod
    }
  }

  /** The part of an animation that `update` changes. */
  datatype Phase = Phase(imgPtr: nat, scrollCount: real, durationCount: real, active: bool)

  /** The phase of a freshly created animation. */
  const Start: Phase := Phase(0, 0.0, 0.0, true)

  /** Does the next update advance the frame pointer? */
  predicate Wraps(c: Config, s: Phase)
    requires c.frames > 0
  {
    s.scrollCount + c.step > c.scrollPeriod
  }

  /** One call of `update`. */
  function Next(c: Config, s: Phase): (r: Phase)
    requires c.frames > 0
    ensures s.imgPtr < c.frames ==> r.imgPtr < c.frames
    ensures Wraps(c, s) ==>
              r.imgPtr == (s.imgPtr + 1) % c.frames && r.scrollCount == s.scrollCount + c.step - c.scrollPeriod
    ensures !Wraps(c, s) ==> r.imgPtr == s.imgPtr && r.scrollCount == s.scrollCount + c.step
    ensures 0.0 <= c.step <= c.scrollPeriod && 0.0 <= s.scrollCount <= c.scrollPeriod ==>
              0.0 <= r.scrollCount <= c.scrollPeriod
    ensures !s.active ==> !r.active
    ensures c.duration < 0.0 ==> r.durationCount == s.durationCount && r.active == s.active
    ensures c.duration >= 0.0 ==>
              r.durationCount == s.durationCount + c.step && (r.active <==> s.active && r.durationCount <= c.duration)
  {
    var scrolled := s.scrollCount + c.step;
    var imgPtr := if scrolled > c.scrollPeriod then (s.imgPtr + 1) % c.frames else s.imgPtr;
    var scrollCount := if scrolled > c.scrollPeriod then scrolled - c.scrollPeriod else scrolled;
    if c.duration >= 0.0 then
      var durationCount := s.durationCount + c.step;
      Phase(imgPtr, scrollCount, durationCount, if durationCount > c.duration then false else s.active)
    else
      Phase(imgPtr, scrollCount, s.durationCount, s.active)
  }

  /** The phase after k updates of a fresh animation. */
  function Run(c: Config, k: nat): Phase
    requires c.frames > 0
  {
    if k == 0 then Start else Next(c, Run(c, k - 1))
  }

  /** For a non-negative period the step lies between zero and the period. */
  lemma StepBounded(c: Config)
    requires c.Fixed()
    ensures c.scrollPeriod >= 0.0 ==> 0.0 <= c.step <= c.scrollPeriod
    ensures c.scrollPeriod > 0.0 ==> 0.0 < c.step
  {
    var n := c.frames as real;
    assert c.scrollPeriod - c.step == (n - 1.0) * c.step;
    assert n >= 1.0;
    if c.step < 0.0 {
      assert (n - 1.0) * c.step <= 0.0;
    } else {
      assert (n - 1.0) * c.step >= 0.0;
    }
  }

  /** The scroll accumulator of an animation, counted in steps: an update
      adds one step and a wrap takes the n steps of a period back. */
  function Slots(n: nat, k: nat): (a: nat)
    requires n > 0
    ensures a <= n
    ensures k > 0 ==> a >= 1
  {
    if k == 0 then 0
    else
      var a := Slots(n, k - 1) + 1;
      if a > n then a - n else a
  }

  /** How often the frame pointer has advanced in k updates. */
  function Turns(n: nat, k: nat): nat
    requires n > 0
  {
    if k == 0 then 0 else Turns(n, k - 1) + (if Slots(n, k - 1) + 1 > n then 1 else 0)
  }

  /** Counted in steps, the accumulator after k >= 1 updates is
      ((k - 1) mod n) + 1 and the pointer has advanced (k - 1) div n times. */
  lemma {:induction false} SlotsClosedForm(n: nat, k: nat)
    requires n > 0 && k >= 1
    ensures Slots(n, k) == (k - 1) % n + 1 && Turns(n, k) == (k - 1) / n
  {
    if k == 1 {
      DivModUnique(0, n, 0, 0);
    } else {
      SlotsClosedForm(n, k - 1);
      DivModSucc(k - 2, n);
    }
  }

  /** a steps added one by one. */
  function Steps(a: nat, st: real): real
  {
    if a == 0 then 0.0 else Steps(a - 1, st) + st
  }

  lemma {:induction false} StepsMono(a: nat, b: nat, st: real)
    requires a <= b && st >= 0.0
    ensures Steps(a, st) <= Steps(b, st)
  {
    if a < b {
      StepsMono(a, b - 1, st);
    }
  }

  lemma {:induction false} StepsIsProduct(a: nat, st: real)
    ensures Steps(a, st) == a as real * st
  {
    if a > 0 {
      StepsIsProduct(a - 1, st);
      assert (a - 1) as real * st + st == a as real * st;
    }
  }

  /** For a positive step that shares out the period, the real accumulator
      is Slots steps, the pointer is Turns modulo the frame count, and an
      update wraps exactly when the accumulator is already a full period. */
  lemma {:induction false} RunInSteps(c: Config, k: nat)
    requires c.frames > 0 && c.step > 0.0 && Steps(c.frames, c.step) == c.scrollPeriod
    ensures Run(c, k).scrollCount == Steps(Slots(c.frames, k), c.step)
    ensures Run(c, k).imgPtr == Turns(c.frames, k) % c.frames
    ensures k > 0 ==> (Wraps(c, Run(c, k - 1)) <==> Slots(c.frames, k - 1) == c.frames)
  {
    if k > 0 {
      RunInSteps(c, k - 1);
      var n, st, a := c.frames, c.step, Slots(c.frames, k - 1);
      var s := Run(c, k - 1);
      if a < n {
        StepsMono(a + 1, n, st);
        assert Steps(a + 1, st) == s.scrollCount + st;
        assert !Wraps(c, s);
      } else {
        assert Wraps(c, s);
        assert Steps(1, st) == st;
        ModSucc(Turns(n, k - 1), n);
      }
    }
  }

  lemma FixedSteps(c: Config)
    requires c.Fixed()
    ensures Steps(c.frames, c.step) == c.scrollPeriod
  {
    StepsIsProduct(c.frames, c.step);
  }

  /** For a positive period, after k >= 1 updates the accumulator holds
      ((k - 1) mod n) + 1 steps and the frame pointer has advanced
      (k - 1) div n times. */
  lemma ScrollSchedule(c: Config, k: nat)
    requires c.Fixed() && c.scrollPeriod > 0.0 && k >= 1
    ensures Run(c, k).scrollCount == Steps((k - 1) % c.frames + 1, c.step)
    ensures Run(c, k).imgPtr == ((k - 1) / c.frames) % c.frames
  {
    StepBounded(c);
    FixedSteps(c);
    RunInSteps(c, k);
    SlotsClosedForm(c.frames, k);
  }

  /** The frame changes on update n + 1 and on every n-th update after it. */
  lemma FrameChangesOn(c: Config, k: nat)
    requires c.Fixed() && c.scrollPeriod > 0.0 && k >= 1
    ensures Wraps(c, Run(c, k - 1)) <==> k > c.frames && (k - 1) % c.frames == 0
  {
    var n := c.frames;
    StepBounded(c);
    FixedSteps(c);
    RunInSteps(c, k);
    if k > 1 {
      SlotsClosedForm(n, k - 1);
      DivModSucc(k - 2, n);
    }
  }

  /** With a non-negative duration and step, after k updates the duration
      accumulator holds k steps, and the animation is still active exactly
      while that is at most the duration. */
  lemma {:induction false} DurationInSteps(c: Config, k: nat)
    requires c.frames > 0 && c.duration >= 0.0 && c.step >= 0.0
    ensures Run(c, k).durationCount == Steps(k, c.step)
    ensures Run(c, k).active <==> Steps(k, c.step) <= c.duration
  {
    if k > 0 {
      DurationInSteps(c, k - 1);
    }
  }

  /** With a non-negative duration, after k updates the duration accumulator
      holds k steps, and (for a non-negative period) the animation is still
      active exactly while that is at most the duration. */
  lemma DurationSchedule(c: Config, k: nat)
    requires c.Fixed() && c.duration >= 0.0 && c.scrollPeriod >= 0.0
    ensures Run(c, k).durationCount == k as real * c.step
    ensures Run(c, k).active <==> k as real * c.step <= c.duration
  {
    StepBounded(c);
    DurationInSteps(c, k);
    StepsIsProduct(k, c.step);
  }

  /** An animation of indefinite (negative) duration is active for ever and
      its duration accumulator never moves. */
  lemma {:induction false} IndefiniteStaysActive(c: Config, k: nat)
    requires c.frames > 0 && c.duration < 0.0
    ensures Run(c, k).active && Run(c, k).durationCount == 0.0
  {
    if k > 0 {
      IndefiniteStaysActive(c, k - 1);
    }
  }

  /** Once inactive, an animation stays inactive. */
  lemma {:induction false} InactiveIsFinal(c: Config, k: nat, j: nat)
    requires c.frames > 0 && !Run(c, k).active
    ensures !Run(c, k + j).active
  {
    if j > 0 {
      InactiveIsFinal(c, k, j - 1);
      assert Run(c, k + j) == Next(c, Run(c, k + j - 1));
    }
  }

  /** The explosion of the dodgeball (two frames, period 10000, indefinite):
      the step is 5000 and the frame changes on updates 3, 5, 7, ... */
  lemma ExplosionSchedule(k: nat)
    requires k >= 1
    ensures var c := Config(2, 10000.0, Indefinite, 5000.0);
            Wraps(c, Run(c, k - 1)) <==> k >= 3 && k % 2 == 1
  {
    FrameChangesOn(Config(2, 10000.0, Indefinite, 5000.0), k);
  }

  /** Four frames over 400 ms with a duration of 1000 ms: the step is 100, the
      frame first changes on update 5 (not on every update), and the
      animation is active after 10 updates and inactive from update 11 on. */
  lemma FourFrameExample()
    ensures var c := Config(4, 400.0, 1000.0, 100.0);
            Run(c, 4).imgPtr == 0 && Run(c, 5).imgPtr == 1
            && Run(c, 10).active && !Run(c, 11).active
  {
    var c := Config(4, 400.0, 1000.0, 100.0);
    ScrollSchedule(c, 4);
    ScrollSchedule(c, 5);
    DurationSchedule(c, 10);
    DurationSchedule(c, 11);
  }

  /** An animation object as the game holds it. */
  class SimpleAnimation {
    const pos: Vec
    const images: seq<Image>
    const scrollPeriod: real
    const duration: real
    /** The fixed step of every update. */
    const timePassed: real
    var imgPtr: nat
    var scrollCount: real
    var durationCount: real
    var active: bool
    /** How many times `update` has been called. */
    ghost var updates: nat

    function Cfg(): Config
    {
      Config(|images|, scrollPeriod, duration, timePassed)
    }

    function State(): Phase
      reads this
    {
      Phase(imgPtr, scrollCount, durationCount, active)
    }

    ghost predicate Valid()
      reads this
    {
      && |images| > 0
      && timePassed == scrollPeriod / |images| as real
      && Cfg().Fixed()
      && imgPtr < |images|
      && (scrollPeriod >= 0.0 ==> 0.0 <= scrollCount <= scrollPeriod)
      && State() == Run(Cfg(), updates)
    }

    /** `SimpleAnimation(screen, pos, images, scroll_period, duration)`; the
        source divides by len(images), so the list must not be empty. */
    constructor (pos: Vec, images: seq<Image>, scrollPeriod: real, duration: real)
      requires |images| > 0
      ensures Valid() && updates == 0
      ensures this.pos == pos && this.images == images
      ensures this.scrollPeriod == scrollPeriod && this.duration == duration
      ensures timePassed == scrollPeriod / |images| as real
      ensures imgPtr == 0 && scrollCount == 0.0 && durationCount == 0.0 && active
    {
      this.pos := pos;
      this.images := images;
      this.scrollPeriod := scrollPeriod;
      this.duration := duration;
      timePassed := scrollPeriod / |images| as real;
      imgPtr := 0;
      scrollCount := 0.0;
      durationCount := 0.0;
      active := true;
      updates := 0;
    }

    /** `is_active`: only reads the flag. */
    method IsActive() returns (r: bool)
      ensures r == active
    {
      r := active;
    }

    /** `update`: takes no elapsed time, adds the fixed step. */
    method Update()
      requires Valid()
      modifies this
      ensures Valid() && updates == old(updates) + 1
      ensures State() == Next(Cfg(), old(State()))
    {
      StepBounded(Cfg());
      scrollCount := scrollCount + timePassed;
      if scrollCount > scrollPeriod {
        scrollCount := scrollCount - scrollPeriod;
        imgPtr := (imgPtr + 1) % |images|;
      }
      if duration >= 0.0 {
        durationCount := durationCount + timePassed;
        if durationCount > duration {
          active := false;
        }
      }
      updates := updates + 1;
    }
  }
}
