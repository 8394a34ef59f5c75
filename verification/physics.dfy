/** One call of simulatePhysics: the five stages in the order the game runs them, with the
    function-local static `lastTime` held in the game state. */
module Physics {
  import opened Vectors
  import opened GameDefs
  import opened Collisions
  import opened Bumpers
  import opened Friction
  import opened Integration
  import opened Expiry

  /** The physics step at frame time `time`. The step length dt is the time
      since the previous step. Collisions are detected on the balls as they
      were on entry, the bumpers and friction act on the balls in turn, then
      every force in the list (old ones, collision forces, friction forces) is
      integrated, the balls move, and the forces age and expire. */
  function SimulatePhysics(s: GameState, time: real, len: Vec -> real): (r: GameState)
    requires TargetsValid(s.balls, s.forces)
    ensures r.running == s.running && r.shotPower == s.shotPower && r.time == s.time
    ensures r.lastTime == time
    ensures |r.balls| == |s.balls|
    ensures forall i :: 0 <= i < |s.balls| ==> r.balls[i].sprite == s.balls[i].sprite
    ensures TargetsValid(r.balls, r.forces)
    ensures OneFrameForces(s.forces) && time > s.lastTime ==> r.forces == []
  {
    var dt := time - s.lastTime;
    var withCollisions := CollisionStage(s.balls, s.forces, len);
    var bounced := BumperStage(s.balls);
    assert TargetsValid(bounced, withCollisions);
    var frictionStage := FrictionStage(bounced, withCollisions, len);
    var snapped := frictionStage.0;
    var withFriction := frictionStage.1;
    var moved := Advance(Integrate(snapped, withFriction), dt);
    var remaining := ExpireStage(withFriction, dt);
    ExpireKeepsTargets(moved, withFriction, dt);
    if OneFrameForces(s.forces) && dt > 0.0 then
      OneFrameForcesExpire(withFriction, dt);
      s.(balls := moved, forces := remaining, lastTime := time)
    else
      s.(balls := moved, forces := remaining, lastTime := time)
  }

  /** The step never reads the running flag. */
  lemma PhysicsIgnoresRunning(s: GameState, time: real, len: Vec -> real)
    requires TargetsValid(s.balls, s.forces)
    ensures SimulatePhysics(s.(running := false), time, len) == SimulatePhysics(s, time, len).(running := false)
  {
  }

  /** A ball at rest exerts no impact: the collision force scales with the
      striking ball's speed, which is zero. */
  lemma RestingImpactsVanish(balls: seq<Ball>, len: Vec -> real)
    requires len(Zero) == 0.0
    requires AtRest(balls)
    ensures forall k :: 0 <= k < |CollisionForces(balls, len)| ==> CollisionForces(balls, len)[k].force == Zero
  {
    var cf := CollisionForces(balls, len);
    forall k | 0 <= k < |cf|
      ensures cf[k].force == Zero
    {
      var f := cf[k];
      CollisionForcesExactly(balls, len, f);
      var i, j :| 0 <= i < |balls| && 0 <= j < |balls| && FromPair(balls, len, i, j, f);
      assert balls[i].velocity == Zero;
      PairForceAtRest(balls, len, i, j, f);
    }
  }

  lemma ZeroHasNoLength(len: Vec -> real)
    requires IsLength(len)
    ensures len(Zero) == 0.0
  {
    LengthBound(len, Zero, 0.0);
    LengthSquared(len, Zero);
  }

  lemma PairForceAtRest(balls: seq<Ball>, len: Vec -> real, i: nat, j: nat, f: BallForce)
    requires i < |balls| && j < |balls|
    requires len(balls[i].velocity) == 0.0
    requires f.force == Impact(balls, len, i, j) || f.force == Neg(Impact(balls, len, i, j))
    ensures f.force == Zero
  {
    ImpactAtRest(balls, len, i, j);
  }

  lemma ImpactAtRest(balls: seq<Ball>, len: Vec -> real, i: nat, j: nat)
    requires i < |balls| && j < |balls|
    requires len(balls[i].velocity) == 0.0
    ensures Impact(balls, len, i, j) == Zero && Neg(Impact(balls, len, i, j)) == Zero
  {
  }

  /** The step as the composition of its stages. */
  lemma SimulatePhysicsStages(s: GameState, time: real, len: Vec -> real)
    requires TargetsValid(s.balls, s.forces)
    requires TargetsValid(BumperStage(s.balls), CollisionStage(s.balls, s.forces, len))
    requires var stage := FrictionStage(BumperStage(s.balls), CollisionStage(s.balls, s.forces, len), len);
      TargetsValid(stage.0, stage.1)
    ensures var stage := FrictionStage(BumperStage(s.balls), CollisionStage(s.balls, s.forces, len), len);
      SimulatePhysics(s, time, len) ==
        s.(balls := Advance(Integrate(stage.0, stage.1), time - s.lastTime),
           forces := ExpireStage(stage.1, time - s.lastTime),
           lastTime := time)
  {
  }

  /** A table at rest with no forces stays exactly as it is: no ball moves,
      no velocity changes, and the step leaves no force behind. This holds
      whether or not balls touch each other or a bumper, and for any length
      function that gives the zero vector length zero, as glm::length does
      (ZeroHasNoLength). */
  lemma AtRestStaysAtRest(s: GameState, time: real, len: Vec -> real)
    requires len(Zero) == 0.0
    requires AtRest(s.balls)
    requires s.forces == []
    requires time > s.lastTime
    ensures SimulatePhysics(s, time, len) == s.(forces := [], lastTime := time)
  {
    RestingStageFacts(s.balls, len, time - s.lastTime);
    IdleStep(s, time, len);
  }

  /** With no forces pending the collision stage holds just the collision
      forces. */
  lemma CollisionStageEmpty(balls: seq<Ball>, len: Vec -> real)
    ensures CollisionStage(balls, [], len) == CollisionForces(balls, len)
  {
    assert [] + CollisionForces(balls, len) == CollisionForces(balls, len);
  }

  /** On a resting table the collision forces leave every later stage
      idle: the balls stay as they are and every force expires. */
  lemma RestingStageFacts(balls: seq<Ball>, len: Vec -> real, dt: real)
    requires len(Zero) == 0.0
    requires AtRest(balls)
    requires dt > 0.0
    ensures TargetsValid(balls, CollisionForces(balls, len))
    ensures BumperStage(balls) == balls
    ensures FrictionStage(balls, CollisionForces(balls, len), len) == (balls, CollisionForces(balls, len))
    ensures Integrate(balls, CollisionForces(balls, len)) == balls
    ensures Advance(balls, dt) == balls
    ensures ExpireStage(CollisionForces(balls, len), dt) == []
  {
    RestingCollisions(balls, len);
    ForcesIdle(balls, CollisionForces(balls, len), len, dt);
  }

  /** A resting table with no forces pending, whose stages each leave the
      balls alone and whose new forces all expire: the step changes nothing
      but the static lastTime. */
  lemma IdleStep(s: GameState, time: real, len: Vec -> real)
    requires len(Zero) == 0.0
    requires AtRest(s.balls)
    requires s.forces == []
    requires time > s.lastTime
    requires TargetsValid(s.balls, CollisionForces(s.balls, len))
    requires BumperStage(s.balls) == s.balls
    requires FrictionStage(s.balls, CollisionForces(s.balls, len), len) == (s.balls, CollisionForces(s.balls, len))
    requires Integrate(s.balls, CollisionForces(s.balls, len)) == s.balls
    requires Advance(s.balls, time - s.lastTime) == s.balls
    requires ExpireStage(CollisionForces(s.balls, len), time - s.lastTime) == []
    ensures SimulatePhysics(s, time, len) == s.(forces := [], lastTime := time)
  {
    CollisionStageEmpty(s.balls, len);
    SimulatePhysicsStages(s, time, len);
  }

  /** On a resting table the collision stage pushes only zero forces, each
      for one frame. */
  lemma RestingCollisions(balls: seq<Ball>, len: Vec -> real)
    requires len(Zero) == 0.0
    requires AtRest(balls)
    ensures TargetsValid(balls, CollisionForces(balls, len)) && OneFrameForces(CollisionForces(balls, len))
    ensures forall k :: 0 <= k < |CollisionForces(balls, len)| ==> CollisionForces(balls, len)[k].force == Zero
  {
    CollisionForcesWellFormed(balls, len);
    RestingImpactsVanish(balls, len);
  }

  /** On a resting table the stages after collision detection change
      nothing when every force is zero and lasts one frame. */
  lemma ForcesIdle(balls: seq<Ball>, forces: seq<BallForce>, len: Vec -> real, dt: real)
    requires len(Zero) == 0.0
    requires AtRest(balls)
    requires TargetsValid(balls, forces) && OneFrameForces(forces)
    requires forall k :: 0 <= k < |forces| ==> forces[k].force == Zero
    requires dt > 0.0
    ensures BumperStage(balls) == balls
    ensures FrictionStage(balls, forces, len) == (balls, forces)
    ensures Integrate(balls, forces) == balls
    ensures Advance(balls, dt) == balls
    ensures ExpireStage(forces, dt) == []
  {
    BumpersKeepRest(balls);
    FrictionKeepsRest(balls, forces, len);
    IntegrateNull(balls, forces);
    AdvanceKeepsRest(balls, dt);
    OneFrameForcesExpire(forces, dt);
  }

  /** Every ball has zero velocity. */
  predicate AtRest(balls: seq<Ball>) {
    forall i :: 0 <= i < |balls| ==> balls[i].velocity == Zero
  }

  /** Reflecting a zero velocity gives zero: the bumpers leave a resting
      table alone. */
  lemma BumpersKeepRest(balls: seq<Ball>)
    requires AtRest(balls)
    ensures BumperStage(balls) == balls
  {
    var bounced := BumperStage(balls);
    forall i | 0 <= i < |balls|
      ensures bounced[i] == balls[i]
    {
      assert Vec(-Zero.x, Zero.y) == Zero && Vec(Zero.x, -Zero.y) == Zero;
    }
  }

  /** Resting balls are below the static threshold: friction snaps them to
      the zero velocity they already have and pushes no force. */
  lemma FrictionKeepsRest(balls: seq<Ball>, forces: seq<BallForce>, len: Vec -> real)
    requires len(Zero) == 0.0
    requires AtRest(balls)
    requires TargetsValid(balls, forces)
    ensures FrictionStage(balls, forces, len) == (balls, forces)
  {
    assert Slow(len(Zero));
    RestingNoFriction(balls, len, |balls|);
    var r := FrictionStage(balls, forces, len);
    assert r.0 == balls by {
      forall i | 0 <= i < |balls|
        ensures r.0[i] == balls[i]
      {
        assert Slow(len(balls[i].velocity));
      }
    }
    assert r.1 == forces + [];
    assert forces + [] == forces;
  }

  /** Integrating forces that are all zero changes nothing. */
  lemma IntegrateNull(balls: seq<Ball>, forces: seq<BallForce>)
    requires TargetsValid(balls, forces)
    requires forall k :: 0 <= k < |forces| ==> forces[k].force == Zero
    ensures Integrate(balls, forces) == balls
  {
    var r := Integrate(balls, forces);
    forall i | 0 <= i < |balls|
      ensures r[i] == balls[i]
    {
      ForceOnNull(forces, i);
    }
  }

  /** Balls at rest do not move. */
  lemma AdvanceKeepsRest(balls: seq<Ball>, dt: real)
    requires AtRest(balls)
    ensures Advance(balls, dt) == balls
  {
    var r := Advance(balls, dt);
    forall i | 0 <= i < |balls|
      ensures r[i] == balls[i]
    {
      AdvanceResting(balls, dt, i);
    }
  }

  /** No friction force is pushed for a slow ball. */
  lemma {:induction false} RestingNoFriction(balls: seq<Ball>, len: Vec -> real, n: nat)
    requires n <= |balls|
    requires forall i :: 0 <= i < n ==> Slow(len(balls[i].velocity))
    ensures FrictionForcesUpTo(balls, len, n) == []
  {
    if n > 0 {
      RestingNoFriction(balls, len, n - 1);
      assert FrictionOf(balls, len, n - 1) == [];
    }
  }

  /** Forces that are all zero add up to zero on every ball. */
  lemma {:induction false} ForceOnNull(forces: seq<BallForce>, i: nat)
    requires forall k :: 0 <= k < |forces| ==> forces[k].force == Zero
    ensures ForceOn(forces, i) == Zero
  {
    if forces != [] {
      ForceOnNull(forces[1..], i);
    }
  }
}
