/** The third stage of the physics step, a rough analogue of friction: a
    ball slower than the static-friction threshold is stopped dead; any other
    ball gets a one-frame force against its direction of motion whose
    magnitude is the friction coefficient over the mass. */
module Friction {
  import opened Vectors
  import opened GameDefs

  /** The static-friction test on the speed glm::length returns. */
  predicate Slow(speed: real) {
    speed < StaticFrictionThreshold
  }

  /** Under a faithful length function the test is a comparison of the
      squared speed with the squared threshold. */
  lemma SlowIsSquaredTest(len: Vec -> real, v: Vec)
    requires IsLength(len)
    ensures Slow(len(v)) <==> Norm2(v) < StaticFrictionThreshold * StaticFrictionThreshold
  {
    LengthBound(len, v, StaticFrictionThreshold);
  }

  /** f is parallel to v and points against it: a non-zero v makes a strictly
      negative dot product. */
  predicate Opposes(f: Vec, v: Vec) {
    f.x * v.y == f.y * v.x && Dot(f, v) <= 0.0 && (Norm2(v) > 0.0 ==> Dot(f, v) < 0.0)
  }

  /** The dynamic friction force, -v * (coefficient / mass / speed). */
  function FrictionForce(v: Vec, speed: real): Vec
    requires speed >= StaticFrictionThreshold
  {
    Scale(FrictionCoefficient / BallMass / speed, Neg(v))
  }

  /** Dividing by the speed normalises the velocity: the friction force
      times the speed is -(coefficient / mass) times the velocity. */
  lemma FrictionForceTimesSpeed(v: Vec, speed: real)
    requires speed >= StaticFrictionThreshold
    ensures Scale(speed, FrictionForce(v, speed)) == Scale(-(FrictionCoefficient / BallMass), v)
  {
    var k := FrictionCoefficient / BallMass / speed;
    assert speed * k == FrictionCoefficient / BallMass;
    assert speed * (k * -v.x) == (speed * k) * -v.x;
    assert speed * (k * -v.y) == (speed * k) * -v.y;
  }

  /** The friction force is a negative multiple of the velocity: parallel
      to it and pointing against it. */
  lemma FrictionOpposesMotion(v: Vec, speed: real)
    requires speed >= StaticFrictionThreshold
    ensures Opposes(FrictionForce(v, speed), v)
  {
    FrictionFactorBounds(speed);
    OpposingMultiple(FrictionCoefficient / BallMass / speed, v);
  }

  /** The factor coefficient / mass / speed is positive, and dividing it once
      more by the mass leaves it below one. */
  lemma FrictionFactorBounds(speed: real)
    requires speed >= StaticFrictionThreshold
    ensures 0.0 < FrictionCoefficient / BallMass / speed
    ensures FrictionCoefficient / BallMass / speed < BallMass
  {
    var k := FrictionCoefficient / BallMass / speed;
    assert k * speed == FrictionCoefficient / BallMass;
  }

  /** A negative multiple of v is parallel to v and points against it. */
  lemma OpposingMultiple(k: real, v: Vec)
    requires k > 0.0
    ensures Opposes(Scale(k, Neg(v)), v)
  {
    var f := Scale(k, Neg(v));
    assert f == Scale(-k, v);
    ScaledParallel(-k, v);
    NonNegativeProduct(k, Norm2(v));
    assert Dot(f, v) <= 0.0;
    if Norm2(v) > 0.0 {
      PositiveProduct(k, Norm2(v));
      assert Dot(f, v) < 0.0;
    }
  }

  /** A ball at or above the threshold speed has a non-zero velocity, so its
      friction force strictly opposes its motion. */
  lemma MovingBallOpposed(len: Vec -> real, v: Vec)
    requires IsLength(len)
    requires !Slow(len(v))
    ensures Norm2(v) > 0.0
    ensures Dot(FrictionForce(v, len(v)), v) < 0.0
  {
    LengthBound(len, v, StaticFrictionThreshold);
    FrictionOpposesMotion(v, len(v));
  }

  /** When the speed is the true length of the velocity, the friction force
      has magnitude coefficient / mass whatever the velocity. */
  lemma FrictionMagnitude(len: Vec -> real, v: Vec)
    requires IsLength(len)
    requires len(v) >= StaticFrictionThreshold
    ensures Norm2(FrictionForce(v, len(v))) == (FrictionCoefficient / BallMass) * (FrictionCoefficient / BallMass)
  {
    var s := len(v);
    var k := FrictionCoefficient / BallMass / s;
    var n := Norm2(v);
    LengthSquared(len, v);
    assert FrictionForce(v, s) == Scale(k, Neg(v));
    ScaledNorm(k, Neg(v));
    ScaledNorm(k, v);
    assert Norm2(FrictionForce(v, s)) == k * k * n;
    QuotientSquare(FrictionCoefficient / BallMass, s, k, n);
  }

  /** Scaling a vector by k scales its squared length by k * k. */
  lemma ScaledNorm(k: real, v: Vec)
    ensures Norm2(Scale(k, v)) == k * k * Norm2(v)
    ensures Norm2(Neg(v)) == Norm2(v)
  {
  }

  /** (c / s)^2 * s^2 == c^2 */
  lemma QuotientSquare(c: real, s: real, k: real, n: real)
    requires s > 0.0 && k == c / s && n == s * s
    ensures k * k * n == c * c
  {
    assert k * s == c;
    assert k * k * (s * s) == (k * s) * (k * s);
  }

  /** Friction alone never reverses a moving ball: one frame of the friction
      force scales its velocity by a factor strictly between 0 and 1, because
      the speed it removes, coefficient / mass / mass, is below the threshold. */
  lemma FrictionNeverReverses(len: Vec -> real, v: Vec)
    requires IsLength(len)
    requires len(v) >= StaticFrictionThreshold
    ensures exists q: real ::
      0.0 < q < 1.0 && Add(v, Div(FrictionForce(v, len(v)), BallMass)) == Scale(q, v)
  {
    var s := len(v);
    var k := FrictionCoefficient / BallMass / s;
    FrictionFactorBounds(s);
    var q := 1.0 - k / BallMass;
    var w := Add(v, Div(FrictionForce(v, s), BallMass));
    Damped(k, v.x);
    Damped(k, v.y);
    assert w == Scale(q, v);
  }

  lemma Damped(k: real, a: real)
    ensures a + (k * -a) / BallMass == (1.0 - k / BallMass) * a
  {
  }

  /** One iteration of the friction loop on the ball itself: a slow ball's
      velocity is snapped to zero; a moving ball is left alone. */
  function Snap(b: Ball, len: Vec -> real): (r: Ball)
    ensures r.position == b.position && r.sprite == b.sprite
    ensures Slow(len(b.velocity)) ==> r.velocity == Zero
    ensures !Slow(len(b.velocity)) ==> r == b
  {
    if Slow(len(b.velocity)) then b.(velocity := Zero) else b
  }

  /** The force the friction loop pushes for ball i, if it is moving. */
  function FrictionOf(balls: seq<Ball>, len: Vec -> real, i: nat): seq<BallForce>
    requires i < |balls|
  {
    var v := balls[i].velocity;
    if Slow(len(v)) then [] else [BallForce(i, FrictionForce(v, len(v)), 0.0)]
  }

  /** The forces pushed by the friction loop over the balls i < n, in loop
      order. Each is a one-frame force on one of those balls. */
  function FrictionForcesUpTo(balls: seq<Ball>, len: Vec -> real, n: nat): seq<BallForce>
    requires n <= |balls|
  {
    if n == 0 then []
    else FrictionForcesUpTo(balls, len, n - 1) + FrictionOf(balls, len, n - 1)
  }

  function FrictionForces(balls: seq<Ball>, len: Vec -> real): seq<BallForce> {
    FrictionForcesUpTo(balls, len, |balls|)
  }

  /** The friction stage: every ball snapped, and the friction forces of the
      moving balls appended to the force list. Each iteration of the loop in
      simulatePhysics touches only its own ball, so the stage splits into a
      map over the balls and an append. */
  function FrictionStage(balls: seq<Ball>, forces: seq<BallForce>, len: Vec -> real): (r: (seq<Ball>, seq<BallForce>))
    requires TargetsValid(balls, forces)
    ensures |r.0| == |balls|
    ensures forall i :: 0 <= i < |balls| ==> r.0[i] == Snap(balls[i], len)
    ensures |r.1| >= |forces| && r.1[..|forces|] == forces
    ensures TargetsValid(r.0, r.1)
    ensures OneFrameForces(forces) ==> OneFrameForces(r.1)
  {
    FrictionForcesWellFormed(balls, len);
    var snapped := seq(|balls|, i requires 0 <= i < |balls| => Snap(balls[i], len));
    (snapped, forces + FrictionForces(balls, len))
  }

  /** f is the friction force of ball i, which is moving. */
  predicate FrictionOn(balls: seq<Ball>, len: Vec -> real, i: nat, f: BallForce)
    requires i < |balls|
  {
    !Slow(len(balls[i].velocity)) &&
    f == BallForce(i, FrictionForce(balls[i].velocity, len(balls[i].velocity)), 0.0)
  }

  /** A force is pushed by the friction loop exactly when it is the friction
      force of a moving ball. */
  lemma {:induction false} FrictionForcesExactly(balls: seq<Ball>, len: Vec -> real, n: nat, f: BallForce)
    requires n <= |balls|
    ensures f in FrictionForcesUpTo(balls, len, n) <==> exists i :: 0 <= i < n && FrictionOn(balls, len, i, f)
  {
    if n > 0 {
      if n > 1 {
        FrictionForcesExactly(balls, len, n - 1, f);
      } else {
        assert FrictionForcesUpTo(balls, len, 0) == [];
      }
      var last := FrictionOf(balls, len, n - 1);
      assert f in FrictionForcesUpTo(balls, len, n) <==> f in FrictionForcesUpTo(balls, len, n - 1) || f in last;
      assert f in last <==> FrictionOn(balls, len, n - 1, f);
      if f in last {
        assert 0 <= n - 1 < n && FrictionOn(balls, len, n - 1, f);
      }
    }
  }

  /** Every friction force is a one-frame force on one of the balls. */
  lemma FrictionForcesWellFormed(balls: seq<Ball>, len: Vec -> real)
    ensures TargetsValid(balls, FrictionForces(balls, len))
    ensures OneFrameForces(FrictionForces(balls, len))
  {
    var ff := FrictionForces(balls, len);
    forall k | 0 <= k < |ff|
      ensures ff[k].target < |balls| && ff[k].duration == 0.0
    {
      FrictionForcesExactly(balls, len, |balls|, ff[k]);
    }
  }

  /** The friction forces for the balls below n target balls below n. */
  lemma {:induction false} FrictionTargetsBelow(balls: seq<Ball>, len: Vec -> real, n: nat)
    requires n <= |balls|
    ensures forall k :: 0 <= k < |FrictionForcesUpTo(balls, len, n)| ==> FrictionForcesUpTo(balls, len, n)[k].target < n
  {
    if n > 0 {
      var ff := FrictionForcesUpTo(balls, len, n);
      forall k | 0 <= k < |ff|
        ensures ff[k].target < n
      {
        FrictionForcesExactly(balls, len, n, ff[k]);
      }
    }
  }

  /** The friction forces target strictly increasing balls, so no ball gets
      more than one. */
  lemma {:induction false} FrictionTargetsIncrease(balls: seq<Ball>, len: Vec -> real, n: nat)
    requires n <= |balls|
    ensures forall k1, k2 :: 0 <= k1 < k2 < |FrictionForcesUpTo(balls, len, n)| ==>
      FrictionForcesUpTo(balls, len, n)[k1].target < FrictionForcesUpTo(balls, len, n)[k2].target
  {
    if n > 0 {
      var prev := FrictionForcesUpTo(balls, len, n - 1);
      var last := FrictionOf(balls, len, n - 1);
      var ff := FrictionForcesUpTo(balls, len, n);
      assert ff == prev + last;
      FrictionTargetsIncrease(balls, len, n - 1);
      FrictionTargetsBelow(balls, len, n - 1);
      forall k1, k2 | 0 <= k1 < k2 < |ff|
        ensures ff[k1].target < ff[k2].target
      {
        if k2 < |prev| {
          assert ff[k1] == prev[k1] && ff[k2] == prev[k2];
        } else {
          assert |last| <= 1 && k2 == |prev|;
          assert ff[k2] == last[0] && last[0].target == n - 1;
          assert ff[k1] == prev[k1] && prev[k1].target < n - 1;
        }
      }
    }
  }
}
