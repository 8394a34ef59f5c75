/** The fourth stage of the physics step: every force in the list, in list
    order, adds force / mass to its target's velocity; then every ball moves
    by 1000 * dt times its velocity. */
module Integration {
  import opened Vectors
  import opened GameDefs
  import opened Collisions

  /** The sum of the forces in the list that target ball i. */
  function ForceOn(forces: seq<BallForce>, i: nat): Vec {
    if forces == [] then Zero
    else Add(if forces[0].target == i then forces[0].force else Zero, ForceOn(forces[1..], i))
  }

  /** One iteration of the integration loop: the acceleration force / mass is
      added to the velocity of the force's target, and to nothing else. */
  function ApplyForce(balls: seq<Ball>, f: BallForce): (r: seq<Ball>)
    requires f.target < |balls|
    ensures |r| == |balls|
    ensures forall i :: 0 <= i < |balls| && i != f.target ==> r[i] == balls[i]
    ensures r[f.target].position == balls[f.target].position && r[f.target].sprite == balls[f.target].sprite
    ensures Sub(r[f.target].velocity, balls[f.target].velocity) == Div(f.force, BallMass)
  {
    var b := balls[f.target];
    balls[f.target := b.(velocity := Add(b.velocity, Div(f.force, BallMass)))]
  }

  /** (a + b) / m + c / m == a + (b + c) / m, componentwise. */
  lemma AccumulateAcceleration(a: Vec, b: Vec, c: Vec)
    ensures Add(Add(a, Div(b, BallMass)), Div(c, BallMass)) == Add(a, Div(Add(b, c), BallMass))
  {
  }

  /** The integration loop. Each ball's velocity grows by the sum of the
      forces targeting it divided by the mass; a ball no force targets keeps
      its velocity; positions and textures are not touched. */
  function Integrate(balls: seq<Ball>, forces: seq<BallForce>): (r: seq<Ball>)
    requires TargetsValid(balls, forces)
    ensures |r| == |balls|
    ensures forall i :: 0 <= i < |balls| ==>
      r[i].position == balls[i].position && r[i].sprite == balls[i].sprite
    ensures forall i :: 0 <= i < |balls| ==>
      r[i].velocity == Add(balls[i].velocity, Div(ForceOn(forces, i), BallMass))
    decreases |forces|
  {
    if forces == [] then balls
    else
      var next := ApplyForce(balls, forces[0]);
      var r := Integrate(next, forces[1..]);
      assert forall i :: 0 <= i < |balls| ==>
        r[i].velocity == Add(balls[i].velocity, Div(ForceOn(forces, i), BallMass)) by {
        forall i | 0 <= i < |balls|
          ensures r[i].velocity == Add(balls[i].velocity, Div(ForceOn(forces, i), BallMass))
        {
          FirstForceThenRest(balls, forces, i);
        }
      }
      r
  }

  /** Applying the first force and then the sum of the rest adds the sum
      of all of them. */
  lemma FirstForceThenRest(balls: seq<Ball>, forces: seq<BallForce>, i: nat)
    requires forces != [] && TargetsValid(balls, forces)
    requires i < |balls|
    ensures Add(ApplyForce(balls, forces[0])[i].velocity, Div(ForceOn(forces[1..], i), BallMass)) ==
      Add(balls[i].velocity, Div(ForceOn(forces, i), BallMass))
  {
    var own := if forces[0].target == i then forces[0].force else Zero;
    assert ApplyForce(balls, forces[0])[i].velocity == Add(balls[i].velocity, Div(own, BallMass));
    assert ForceOn(forces, i) == Add(own, ForceOn(forces[1..], i));
    AccumulateAcceleration(balls[i].velocity, own, ForceOn(forces[1..], i));
  }

  /** A ball that no force targets keeps its velocity. */
  lemma {:induction false} UntargetedKeepsVelocity(balls: seq<Ball>, forces: seq<BallForce>, i: nat)
    requires TargetsValid(balls, forces)
    requires i < |balls|
    requires forall k :: 0 <= k < |forces| ==> forces[k].target != i
    ensures Integrate(balls, forces)[i] == balls[i]
  {
    ForceOnUntargeted(forces, i);
  }

  lemma {:induction false} ForceOnUntargeted(forces: seq<BallForce>, i: nat)
    requires forall k :: 0 <= k < |forces| ==> forces[k].target != i
    ensures ForceOn(forces, i) == Zero
  {
    if forces != [] {
      ForceOnUntargeted(forces[1..], i);
    }
  }

  /** The sum of the velocities of all balls: total momentum over the mass. */
  function SumVelocities(balls: seq<Ball>): Vec {
    if balls == [] then Zero
    else Add(balls[0].velocity, SumVelocities(balls[1..]))
  }

  /** Changing one ball's velocity changes the total by the difference. */
  lemma {:induction false} SumVelocitiesUpdate(balls: seq<Ball>, t: nat, b: Ball)
    requires t < |balls|
    ensures SumVelocities(balls[t := b]) == Add(SumVelocities(balls), Sub(b.velocity, balls[t].velocity))
  {
    var u := balls[t := b];
    if t == 0 {
      assert u[1..] == balls[1..];
    } else {
      assert u[1..] == balls[1..][t - 1 := b];
      SumVelocitiesUpdate(balls[1..], t - 1, b);
    }
  }

  /** Integration changes the total velocity by the total force over the
      mass. */
  lemma {:induction false} IntegrateMomentum(balls: seq<Ball>, forces: seq<BallForce>)
    requires TargetsValid(balls, forces)
    ensures SumVelocities(Integrate(balls, forces)) == Add(SumVelocities(balls), Div(SumForces(forces), BallMass))
    decreases |forces|
  {
    if forces != [] {
      var f := forces[0];
      var rest := forces[1..];
      var b := balls[f.target];
      var moved := b.(velocity := Add(b.velocity, Div(f.force, BallMass)));
      var next := balls[f.target := moved];
      assert ApplyForce(balls, f) == next;
      SumVelocitiesUpdate(balls, f.target, moved);
      assert Sub(moved.velocity, b.velocity) == Div(f.force, BallMass);
      assert SumVelocities(next) == Add(SumVelocities(balls), Div(f.force, BallMass));
      assert TargetsValid(next, rest);
      IntegrateMomentum(next, rest);
      assert Integrate(balls, forces) == Integrate(next, rest);
      assert SumForces(forces) == Add(f.force, SumForces(rest));
      AccumulateAcceleration(SumVelocities(balls), f.force, SumForces(rest));
    }
  }

  /** The collision forces alone leave the total velocity unchanged: the
      equal and opposite pairs cancel. */
  lemma CollisionsConserveMomentum(balls: seq<Ball>, len: Vec -> real)
    ensures TargetsValid(balls, CollisionForces(balls, len))
    ensures SumVelocities(Integrate(balls, CollisionForces(balls, len))) == SumVelocities(balls)
  {
    var cf := CollisionForces(balls, len);
    CollisionForcesWellFormed(balls, len);
    CollisionForcesCancel(balls, len);
    IntegrateMomentum(balls, cf);
    assert Div(SumForces(cf), BallMass) == Zero;
  }

  /** The position update: each ball moves by 1000 * dt times its velocity,
      which is not changed. */
  function Advance(balls: seq<Ball>, dt: real): (r: seq<Ball>)
    ensures |r| == |balls|
    ensures forall i :: 0 <= i < |balls| ==>
      r[i].velocity == balls[i].velocity && r[i].sprite == balls[i].sprite
    ensures forall i :: 0 <= i < |balls| ==>
      Sub(r[i].position, balls[i].position) == Scale(1000.0 * dt, balls[i].velocity)
  {
    seq(|balls|, i requires 0 <= i < |balls| =>
      balls[i].(position := Add(balls[i].position, Scale(1000.0 * dt, balls[i].velocity))))
  }

  /** Two position updates in a row are one update over the combined time:
      with the velocities fixed, where a ball ends up depends only on the
      total time elapsed. */
  lemma AdvanceAdditive(balls: seq<Ball>, dt1: real, dt2: real)
    ensures Advance(Advance(balls, dt1), dt2) == Advance(balls, dt1 + dt2)
  {
    var once := Advance(balls, dt1 + dt2);
    var twice := Advance(Advance(balls, dt1), dt2);
    forall i | 0 <= i < |balls|
      ensures twice[i] == once[i]
    {
      var v := balls[i].velocity;
      assert 1000.0 * dt1 * v.x + 1000.0 * dt2 * v.x == 1000.0 * (dt1 + dt2) * v.x;
      assert 1000.0 * dt1 * v.y + 1000.0 * dt2 * v.y == 1000.0 * (dt1 + dt2) * v.y;
    }
  }

  /** A ball at rest does not move. */
  lemma AdvanceResting(balls: seq<Ball>, dt: real, i: nat)
    requires i < |balls| && balls[i].velocity == Zero
    ensures Advance(balls, dt)[i] == balls[i]
  {
    assert Scale(1000.0 * dt, Zero) == Zero;
  }
}
