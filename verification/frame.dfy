/** The per-frame driver and the game loop: the clock advances by 0.001,
    every pending event is handled, the physics step runs at the
    new time, and the shot power follows a sine of the time. */
module Frame {
  import opened Vectors
  import opened GameDefs
  import opened Layout
  import opened Collisions
  import opened Bumpers
  import opened Physics
  import opened Input

  /** The frame clock's step. */
  const TimeStep: real := 0.001

  /** sin stays within [-1, 1]. The sine is passed in as a parameter. */
  ghost predicate IsSineBounded(sin: real -> real) {
    forall t :: -1.0 <= sin(t) <= 1.0
  }

  /** The shot power at time t: 0.5 * (sin(8t) + 1), which lies in [0, 1]
      wherever the sine lies in [-1, 1], and is at its extremes exactly where
      the sine is. */
  function ShotPower(t: real, sin: real -> real): (p: real)
    ensures -1.0 <= sin(8.0 * t) <= 1.0 ==> 0.0 <= p <= 1.0
    ensures p == 0.0 <==> sin(8.0 * t) == -1.0
    ensures p == 1.0 <==> sin(8.0 * t) == 1.0
  {
    0.5 * (sin(8.0 * t) + 1.0)
  }

  /** simulateFrame: the static clock advances, the input is drained, the
      physics step runs at the new time (so its static lastTime catches up
      with the clock), and the shot power is recomputed afterwards, so a shot
      in this frame uses the power of the previous one. */
  function SimulateFrame(s: GameState, events: seq<Event>, len: Vec -> real, sin: real -> real): (r: GameState)
    requires |s.balls| > 0 && TargetsValid(s.balls, s.forces)
    ensures r.time == s.time + TimeStep && r.lastTime == r.time
    ensures r.shotPower == ShotPower(r.time, sin)
    ensures r.running == (s.running && forall k :: 0 <= k < |events| ==> !IsQuit(events[k]))
    ensures |r.balls| > 0 && TargetsValid(r.balls, r.forces)
    ensures OneFrameForces(s.forces) && s.lastTime <= s.time ==> r.forces == []
    ensures RackOrder(s.balls) ==> RackOrder(r.balls)
  {
    var t := s.time + TimeStep;
    var handled := HandleInput(s.(time := t), events);
    var stepped := SimulatePhysics(handled, t, len);
    stepped.(shotPower := ShotPower(t, sin))
  }

  /** The state the game loop starts from: the constructor's zero shot power
      and stopped flag, createBalls from initGame, the running flag set by
      start, and both statics at zero. */
  function Start(): (r: GameState)
    ensures Valid(r) && r.running
    ensures r.balls[0] == Ball(Vec(220.0, 300.0), Zero, Cue)
  {
    var constructed := GameState([], [], false, 0.0, 0.0, 0.0);
    var initialised := constructed.(balls := CreateBalls(constructed.balls));
    assert CreateBalls([])[0..] == CreateBalls([]);
    initialised.(running := true)
  }

  /** The state between two frames: the sixteen balls in enum order, no
      force left over, the physics step caught up with the clock, and a shot
      power in [0, 1]. */
  predicate Valid(s: GameState) {
    RackOrder(s.balls) && s.forces == [] && s.lastTime == s.time && 0.0 <= s.shotPower <= 1.0
  }

  /** Every frame keeps the state valid: whatever the events, every force a
      frame creates has been integrated and dropped by its end, and the cue
      ball is still ball 0. */
  lemma FramePreservesValid(s: GameState, events: seq<Event>, len: Vec -> real, sin: real -> real)
    requires Valid(s)
    requires IsSineBounded(sin)
    ensures Valid(SimulateFrame(s, events, len, sin))
    ensures SimulateFrame(s, events, len, sin).balls[0].sprite == Cue
  {
    assert -1.0 <= sin(8.0 * (s.time + TimeStep)) <= 1.0;
  }

  /** No two balls of a fresh rack touch, so the collision stage pushes no
      force for it. */
  lemma RackNoCollisionForces(len: Vec -> real)
    requires IsLength(len)
    ensures CollisionForces(Rack(), len) == []
  {
    var balls := Rack();
    forall i, j | 0 <= i < |balls| && 0 <= j < |balls| && i != j
      ensures Norm2(Sub(balls[j].position, balls[i].position)) > (BallDiameter * BallDiameter) as real
    {
      RackSeparated();
      Norm2Sym(balls[j].position, balls[i].position);
    }
    SeparatedNoCollisionForces(balls, len);
  }

  /** Every ball of a fresh rack is clear of the bumpers, so the bumper stage
      leaves the rack as it is. */
  lemma RackNoBounce()
    ensures BumperStage(Rack()) == Rack()
  {
    var balls := Rack();
    RackInsideBumpers();
    forall i | 0 <= i < |balls|
      ensures BumperStage(balls)[i] == balls[i]
    {
      BounceClear(balls[i]);
    }
  }

  /** After F the table is at rest with no force pending, so the next
      physics step leaves it exactly where it is. */
  lemma FrozenTableStaysPut(s: GameState, time: real, len: Vec -> real)
    requires len(Zero) == 0.0
    requires time > s.lastTime
    ensures SimulatePhysics(Freeze(s), time, len) == Freeze(s).(lastTime := time)
  {
    AtRestStaysAtRest(Freeze(s), time, len);
  }

  /** A quit request does not stop the frame it arrives in: the events after
      it and the physics step still run, and only the flag differs. */
  lemma QuitStillTicks(s: GameState, before: seq<Event>, quit: Event, after: seq<Event>,
                       len: Vec -> real, sin: real -> real)
    requires |s.balls| > 0 && TargetsValid(s.balls, s.forces)
    requires IsQuit(quit)
    ensures SimulateFrame(s, before + [quit] + after, len, sin) ==
      SimulateFrame(s, before + after, len, sin).(running := false)
  {
    var t := s.time + TimeStep;
    var clocked := s.(time := t);
    QuitOnlyClearsFlag(clocked, before, quit, after);
    var handled := HandleInput(clocked, before + after);
    assert HandleInput(clocked, before + [quit] + after) == handled.(running := false);
    PhysicsIgnoresRunning(handled, t, len);
    var stepped := SimulatePhysics(handled, t, len);
    assert SimulatePhysics(handled.(running := false), t, len) == stepped.(running := false);
    assert SimulateFrame(s, before + after, len, sin) == stepped.(shotPower := ShotPower(t, sin));
    assert SimulateFrame(s, before + [quit] + after, len, sin) == stepped.(running := false).(shotPower := ShotPower(t, sin));
  }

  /** The game loop of start: frames run while the running flag is set, one
      batch of events per frame. */
  function Run(s: GameState, frames: seq<seq<Event>>, len: Vec -> real, sin: real -> real): (r: GameState)
    requires |s.balls| > 0 && TargetsValid(s.balls, s.forces)
    ensures |r.balls| > 0 && TargetsValid(r.balls, r.forces)
    ensures r.running == (s.running && forall k, j :: 0 <= k < |frames| && 0 <= j < |frames[k]| ==> !IsQuit(frames[k][j]))
    ensures r.time >= s.time
    decreases |frames|
  {
    if !s.running || frames == [] then s
    else
      var r := Run(SimulateFrame(s, frames[0], len, sin), frames[1..], len, sin);
      assert r.running == (s.running && forall k, j :: 0 <= k < |frames| && 0 <= j < |frames[k]| ==> !IsQuit(frames[k][j])) by {
        if forall k, j :: 0 <= k < |frames[1..]| && 0 <= j < |frames[1..][k]| ==> !IsQuit(frames[1..][k][j]) {
          forall k, j | 1 <= k < |frames| && 0 <= j < |frames[k]|
            ensures !IsQuit(frames[k][j])
          {
            assert frames[k] == frames[1..][k - 1];
          }
        }
      }
      r
  }

  /** The loop stops right after the first frame that asks to quit: the
      frames after it are never looked at. */
  lemma RunStopsAtQuit(s: GameState, frame: seq<Event>, rest: seq<seq<Event>>, len: Vec -> real, sin: real -> real)
    requires |s.balls| > 0 && TargetsValid(s.balls, s.forces)
    requires s.running
    requires exists j :: 0 <= j < |frame| && IsQuit(frame[j])
    ensures Run(s, [frame] + rest, len, sin) == SimulateFrame(s, frame, len, sin)
  {
    assert ([frame] + rest)[0] == frame && ([frame] + rest)[1..] == rest;
    var j :| 0 <= j < |frame| && IsQuit(frame[j]);
    assert !SimulateFrame(s, frame, len, sin).running;
  }

  /** From a valid state every run of the loop ends in a valid state, and
      from the start the cue ball is ball 0 throughout. */
  lemma {:induction false} RunPreservesValid(s: GameState, frames: seq<seq<Event>>, len: Vec -> real, sin: real -> real)
    requires Valid(s)
    requires IsSineBounded(sin)
    ensures Valid(Run(s, frames, len, sin))
    ensures Run(s, frames, len, sin).balls[0].sprite == Cue
    decreases |frames|
  {
    if s.running && frames != [] {
      FramePreservesValid(s, frames[0], len, sin);
      RunPreservesValid(SimulateFrame(s, frames[0], len, sin), frames[1..], len, sin);
    }
  }
}
