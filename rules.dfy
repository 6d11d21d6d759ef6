/** The control state of the Game and the rules that change it: the state
    machine ready (0) -> playing (1) -> over (-1) -> ready, the pause flag
    with its pause-time accounting, the arrow-key `move` map, game_over, the
    play clock and the creep speed it drives. */
module Rules {
  import opened Geometry
  import opened Input
  import opened Arith

  const Ready: int := 0
  const Playing: int := 1
  const Over: int := -1

  /** The speed every dodgeball is made with, which a held arrow key moves it by. */
  const BallSpeed: int := 5

  /** The `move` map as load_game resets it. */
  const ZeroMove: map<Key, int> := map[Up := 0, Down := 0, Left := 0, Right := 0]

  /** The Game attributes the event loop reads and writes. */
  datatype Control = Control(state: int, paused: bool, move: map<Key, int>,
                             startTime: int, passedTime: int, breakPoint: int)

  /** What every reachable control state satisfies. */
  predicate Sane(c: Control)
  {
    (c.state == Ready || c.state == Playing || c.state == Over) && c.move.Keys == Arrows
  }

  /** The outcome of handling one event: the process exits, or it goes on
      with a new control state, having perhaps put the ball under the mouse
      and perhaps rebuilt the creeps and the ball with load_game. */
  datatype Reaction = Exit | Go(c: Control, placeBall: bool, reload: bool)

  /** What load_game does to the control state: unpaused, no arrow held and
      both clocks at zero, so the play time is the tick count itself; the
      state and the last pause tick are left as they were. */
  function Loaded(c: Control): (r: Control)
    ensures !r.paused && r.move == ZeroMove && r.startTime == 0 && r.passedTime == 0
    ensures r.state == c.state && r.breakPoint == c.breakPoint
    ensures (c.state == Ready || c.state == Playing || c.state == Over) ==> Sane(r)
    ensures forall now :: PlayTime(now, r.startTime, r.passedTime) == now as real / 1000.0
  {
    c.(paused := false, move := ZeroMove, startTime := 0, passedTime := 0)
  }

  /** The `STATE == 0` block for one event: only RETURN in the ready state
      changes anything, and it starts the game with the play clock started
      at this tick. */
  function ReadyStep(c: Control, e: Event, now: int): (r: Control)
    ensures r != c <==> c.state == Ready && e == KeyDown(Return)
    ensures r != c ==> r.state == Playing && r.startTime == now && r == c.(state := Playing, startTime := now)
  {
    if c.state == Ready && e == KeyDown(Return) then c.(state := Playing, startTime := now) else c
  }

  /** The 'p' key of the `STATE == 1` block: pause records the tick, resume
      adds the time spent paused to `passed_time`. */
  function TogglePause(c: Control, now: int): (r: Control)
    ensures r.paused == !c.paused
    ensures r.state == c.state && r.move == c.move && r.startTime == c.startTime
    ensures !c.paused ==> r.breakPoint == now && r.passedTime == c.passedTime
    ensures c.paused ==> r.breakPoint == c.breakPoint
    ensures c.paused ==> PlayTime(now, r.startTime, r.passedTime) == PlayTime(c.breakPoint, c.startTime, c.passedTime)
  {
    if !c.paused then c.(paused := true, breakPoint := now)
    else c.(paused := false, passedTime := c.passedTime + now - c.breakPoint)
  }

  /** The `STATE == 1` block for one event: 'p' toggles the pause, and a
      key-down or key-up of a key in `move` holds it at the ball speed or
      releases it; outside the playing state nothing changes. */
  function PlayingStep(c: Control, e: Event, now: int): (r: Control)
    ensures c.state != Playing ==> r == c
    ensures r.state == c.state && r.startTime == c.startTime && r.move.Keys == c.move.Keys
    ensures r.paused != c.paused <==> c.state == Playing && e == KeyDown(KeyP)
    ensures e != KeyDown(KeyP) ==> r.passedTime == c.passedTime && r.breakPoint == c.breakPoint
    ensures c.state == Playing && e == KeyDown(KeyP) ==>
              r.passedTime == TogglePause(c, now).passedTime && r.breakPoint == TogglePause(c, now).breakPoint
    ensures c.state == Playing ==>
              forall k :: k in c.move ==>
                r.move[k] == (if e == KeyDown(k) then BallSpeed else if e == KeyUp(k) then 0 else c.move[k])
  {
    if c.state != Playing then c
    else
      var c1 := if e == KeyDown(KeyP) then TogglePause(c, now) else c;
      var c2 := if e.KeyDown? && e.key in c1.move then c1.(move := c1.move[e.key := BallSpeed]) else c1;
      if e.KeyUp? && e.key in c2.move then c2.(move := c2.move[e.key := 0]) else c2
  }

  /** The `STATE == -1` block for one event: only RETURN after the game is
      over changes anything, and it goes back to the ready state with the
      reset of load_game. */
  function OverStep(c: Control, e: Event): (r: Control)
    ensures r != c <==> c.state == Over && e == KeyDown(Return)
    ensures r != c ==> r == Control(Ready, false, ZeroMove, 0, 0, c.breakPoint) && Sane(r)
  {
    if c.state == Over && e == KeyDown(Return) then Loaded(c.(state := Ready, paused := !c.paused)) else c
  }

  /** One pass of the body of the event loop. The three state blocks are
      plain `if`s run one after the other, so a RETURN that starts the game
      is also seen by the playing block; the mouse is sampled for every event
      handled in the ready state. */
  function OnEvent(c: Control, e: Event, now: int, mousePressed: bool): (r: Reaction)
    ensures r.Exit? <==> e == Quit || e == KeyDown(Escape)
    ensures r.Go? && Sane(c) ==> Sane(r.c)
    ensures r.Go? ==> (r.placeBall <==> c.state == Ready && mousePressed)
    ensures r.Go? ==> (r.reload <==> c.state == Over && e == KeyDown(Return))
    ensures r.Go? && r.c.state != c.state ==>
              e == KeyDown(Return) &&
              ((c.state == Ready && r.c.state == Playing) || (c.state == Over && r.c.state == Ready))
    ensures r.Go? && c.state == Playing ==> r.c.startTime == c.startTime
  {
    if e == Quit || e == KeyDown(Escape) then Exit
    else
      var c1 := ReadyStep(c, e, now);
      var c2 := PlayingStep(c1, e, now);
      Go(OverStep(c2, e), c.state == Ready && mousePressed, c2.state == Over && e == KeyDown(Return))
  }

  /** RETURN in the ready state starts the game and the play clock. */
  lemma StartGame(c: Control, now: int, mousePressed: bool)
    requires Sane(c) && c.state == Ready
    ensures OnEvent(c, KeyDown(Return), now, mousePressed)
            == Go(c.(state := Playing, startTime := now), mousePressed, false)
  {
  }

  /** RETURN after the game is over goes back to the ready state with a fresh
      load_game: unpaused, no key held, both clocks at zero. */
  lemma Restart(c: Control, now: int, mousePressed: bool)
    requires Sane(c) && c.state == Over
    ensures var r := OnEvent(c, KeyDown(Return), now, mousePressed);
            && r == Go(r.c, false, true)
            && r.c == Control(Ready, false, ZeroMove, 0, 0, c.breakPoint)
  {
  }

  /** While playing, paused or not, an arrow key-down holds that arrow at
      the ball speed and a key-up releases it; the other arrows and the rest
      of the control state are untouched. */
  lemma ArrowKeys(c: Control, k: Key, now: int, mousePressed: bool)
    requires Sane(c) && c.state == Playing && k in Arrows
    ensures OnEvent(c, KeyDown(k), now, mousePressed) == Go(c.(move := c.move[k := BallSpeed]), false, false)
    ensures OnEvent(c, KeyUp(k), now, mousePressed) == Go(c.(move := c.move[k := 0]), false, false)
  {
  }

  /** A key that is neither an arrow, RETURN, 'p' nor ESCAPE, or an event
      that is not a key, changes no control state. */
  lemma OtherInputIsIgnored(c: Control, e: Event, now: int, mousePressed: bool)
    requires Sane(c)
    requires e == OtherEvent || ((e.KeyDown? || e.KeyUp?) && e.key.OtherKey?)
    ensures OnEvent(c, e, now, mousePressed) == Go(c, c.state == Ready && mousePressed, false)
  {
  }

  // ---------------------------------------------------------------- clock

  /** `get_play_time()`: the seconds since the start that were not spent paused. */
  function PlayTime(now: int, startTime: int, passedTime: int): (r: real)
    ensures r * 1000.0 == (now - startTime - passedTime) as real
    ensures r >= 0.0 <==> now >= startTime + passedTime
  {
    (now - startTime - passedTime) as real / 1000.0
  }

  /** Pausing at one tick and resuming at a later one leaves the play time
      at resume equal to the play time at the pause: the clock is frozen
      while paused. */
  lemma PauseFreezesClock(c: Control, t1: int, t2: int, m1: bool, m2: bool)
    requires Sane(c) && c.state == Playing && !c.paused
    ensures var r1 := OnEvent(c, KeyDown(KeyP), t1, m1);
            && r1.Go? && r1.c.paused
            && var r2 := OnEvent(r1.c, KeyDown(KeyP), t2, m2);
            && r2.Go? && !r2.c.paused && r2.c.state == Playing && r2.c.move == c.move
            && PlayTime(t2, r2.c.startTime, r2.c.passedTime) == PlayTime(t1, c.startTime, c.passedTime)
  {
    var r1 := OnEvent(c, KeyDown(KeyP), t1, m1);
    assert r1.c == c.(paused := true, breakPoint := t1);
    var r2 := OnEvent(r1.c, KeyDown(KeyP), t2, m2);
    assert r2.c.passedTime == c.passedTime + t2 - t1;
  }

  /** The creep speed for a play time: 0.1 px/ms, plus 0.02 for every full
      ten seconds (`int(t) / 10` is Python 2 floor division). */
  function CreepSpeed(playTime: real): (r: real)
    ensures playTime >= 0.0 ==> 0.1 <= r <= 0.1 + playTime * 0.002
    ensures playTime >= 0.0 ==> 0.08 + playTime * 0.002 < r
  {
    0.1 + (Trunc(playTime) / 10) as real * 0.02
  }

  /** The speed is the base speed for the first ten seconds. */
  lemma SpeedAtStart(playTime: real)
    requires 0.0 <= playTime < 10.0
    ensures CreepSpeed(playTime) == 0.1
  {
    var k := Trunc(playTime);
    assert 0 <= k < 10;
  }

  /** Between 10k and 10(k+1) seconds the speed is 0.1 + 0.02k. */
  lemma SpeedSteps(playTime: real, k: nat)
    requires 10.0 * k as real <= playTime < 10.0 * (k + 1) as real
    ensures CreepSpeed(playTime) == 0.1 + k as real * 0.02
  {
    var n := Trunc(playTime);
    assert 10 * k <= n < 10 * (k + 1);
    assert n / 10 == k;
  }

  lemma TruncMonotone(a: real, b: real)
    requires a <= b
    ensures Trunc(a) <= Trunc(b)
  {
    if a < 0.0 && b >= 0.0 {
    } else if a >= 0.0 {
      assert a.Floor <= b.Floor;
    } else {
      assert (-b).Floor <= (-a).Floor;
    }
  }

  /** The speed never decreases as the play time grows. */
  lemma SpeedIsMonotone(a: real, b: real)
    requires a <= b
    ensures CreepSpeed(a) <= CreepSpeed(b)
  {
    TruncMonotone(a, b);
    DivMonotone(Trunc(a), Trunc(b), 10);
  }

  /** In terms of playing milliseconds the speed is
      0.1 + 0.02 * floor(ms / 10000). */
  lemma SpeedFromMilliseconds(now: int, startTime: int, passedTime: int)
    requires now - startTime - passedTime >= 0
    ensures CreepSpeed(PlayTime(now, startTime, passedTime))
            == 0.1 + ((now - startTime - passedTime) / 10000) as real * 0.02
  {
    var ms := now - startTime - passedTime;
    var s := ms / 1000;
    assert ms == 1000 * s + ms % 1000;
    assert s as real <= ms as real / 1000.0 < s as real + 1.0;
    assert Trunc(PlayTime(now, startTime, passedTime)) == s;
    assert ms == 10000 * (s / 10) + 1000 * (s % 10) + ms % 1000;
    assert ms / 10000 == s / 10;
  }

  /** element_move reads the clock once per creep: a later read never gives
      a lower speed. */
  lemma SpeedFollowsTicks(a: int, b: int, startTime: int, passedTime: int)
    requires a <= b
    ensures CreepSpeed(PlayTime(a, startTime, passedTime)) <= CreepSpeed(PlayTime(b, startTime, passedTime))
  {
    assert PlayTime(a, startTime, passedTime) <= PlayTime(b, startTime, passedTime);
    SpeedIsMonotone(PlayTime(a, startTime, passedTime), PlayTime(b, startTime, passedTime));
  }

  /** Two reads one millisecond apart can fall on both sides of a ten-second
      boundary, so two creeps of the same frame can get different speeds. */
  lemma SpeedCanChangeWithinFrame()
    ensures CreepSpeed(PlayTime(9999, 0, 0)) == 0.1 && CreepSpeed(PlayTime(10000, 0, 0)) == 0.12
  {
    SpeedFromMilliseconds(9999, 0, 0);
    SpeedFromMilliseconds(10000, 0, 0);
  }

  // ------------------------------------------------------------ game over

  /** `game_over()`. */
  function GameOverControl(c: Control): (r: Control)
    ensures r.state == Over && r.paused == !c.paused
    ensures r.move == c.move && r.startTime == c.startTime && r.passedTime == c.passedTime
    ensures r.breakPoint == c.breakPoint
  {
    c.(state := Over, paused := !c.paused)
  }

  /** game_over called once for each of n colliding creeps. */
  function GameOverTimes(c: Control, n: nat): (r: Control)
    ensures n == 0 ==> r == c
    ensures n > 0 ==> r.state == Over
    ensures r == c.(state := r.state, paused := r.paused)
  {
    if n == 0 then c else GameOverControl(GameOverTimes(c, n - 1))
  }

  /** After n > 0 collisions the game is over and `paused` has been flipped
      n times: it ends True exactly when it started False and n is odd, and
      nothing else of the control state has changed. */
  lemma {:induction false} GameOverParity(c: Control, n: nat)
    ensures n > 0 ==> GameOverTimes(c, n).state == Over
    ensures GameOverTimes(c, n).paused == (c.paused != (n % 2 == 1))
    ensures GameOverTimes(c, n).move == c.move
    ensures GameOverTimes(c, n).startTime == c.startTime && GameOverTimes(c, n).passedTime == c.passedTime
    ensures GameOverTimes(c, n).breakPoint == c.breakPoint
  {
    if n > 0 {
      GameOverParity(c, n - 1);
    }
  }

  // ----------------------------------------------------------- event loop

  /** `for event in pygame.event.get()`: the events of one frame handled in
      order, stopping at the first that exits. Only the control state of a
      `Go` result is meaningful here: its placeBall and reload flags are
      always false, since the ball placements and reloads of single events
      are what HandleEvent reports. */
  function Dispatch(c: Control, events: seq<Polled>): (r: Reaction)
    ensures r.Go? ==> !r.placeBall && !r.reload
    ensures events == [] ==> r == Go(c, false, false)
    decreases |events|
  {
    if events == [] then Go(c, false, false)
    else
      var r := OnEvent(c, events[0].event, events[0].now, events[0].mouse.pressed);
      if r.Exit? then Exit else Dispatch(r.c, events[1..])
  }

  /** A frame's events keep the control state sane, and the loop exits
      exactly when one of them is QUIT or ESCAPE. */
  lemma {:induction false} DispatchKeepsSane(c: Control, events: seq<Polled>)
    requires Sane(c)
    ensures Dispatch(c, events).Exit? <==>
              exists i :: 0 <= i < |events| && (events[i].event == Quit || events[i].event == KeyDown(Escape))
    ensures Dispatch(c, events).Go? ==> Sane(Dispatch(c, events).c)
    decreases |events|
  {
    if events != [] {
      var r := OnEvent(c, events[0].event, events[0].now, events[0].mouse.pressed);
      if r.Go? {
        DispatchKeepsSane(r.c, events[1..]);
        if exists i :: 0 <= i < |events[1..]| && (events[1..][i].event == Quit || events[1..][i].event == KeyDown(Escape)) {
          var i :| 0 <= i < |events[1..]| && (events[1..][i].event == Quit || events[1..][i].event == KeyDown(Escape));
          assert events[i + 1] == events[1..][i];
        }
        if exists i :: 0 <= i < |events| && (events[i].event == Quit || events[i].event == KeyDown(Escape)) {
          var i :| 0 <= i < |events| && (events[i].event == Quit || events[i].event == KeyDown(Escape));
          assert i > 0;
          assert events[1..][i - 1] == events[i];
        }
      }
    }
  }
}
