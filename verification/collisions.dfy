/** The first stage of the physics step: ball-against-ball collision
    detection. Every ordered pair (i, j) of distinct balls is visited, the
    outer loop over i and the inner over j, and a pair whose centres are at
    most one diameter apart pushes a force on j and the opposite force on i.
    Balls are not changed by this stage. */
module Collisions {
  import opened Vectors
  import opened GameDefs

  /** Centres at most one diameter apart: the game skips a pair when
      `distance(p, q) > diameter`. With a true length function this is the
      squared comparison (TouchingIsDistanceTest). */
  predicate Touching(len: Vec -> real, p: Vec, q: Vec) {
    len(Sub(q, p)) <= BallDiameter as real
  }

  lemma TouchingIsDistanceTest(len: Vec -> real, p: Vec, q: Vec)
    requires IsLength(len)
    ensures Touching(len, p, q) <==> Norm2(Sub(q, p)) <= (BallDiameter * BallDiameter) as real
  {
    LengthBound(len, Sub(q, p), BallDiameter as real);
  }

  /** The ordered pair (i, j) collides: two different balls touching. */
  predicate Collides(balls: seq<Ball>, len: Vec -> real, i: nat, j: nat)
    requires i < |balls| && j < |balls|
  {
    i != j && Touching(len, balls[i].position, balls[j].position)
  }

  /** The force ball i exerts on ball j: 0.01 times the vector from i to j,
      times the speed of i. */
  function Impact(balls: seq<Ball>, len: Vec -> real, i: nat, j: nat): Vec
    requires i < |balls| && j < |balls|
  {
    Scale(len(balls[i].velocity), Scale(0.01, Sub(balls[j].position, balls[i].position)))
  }

  /** The forces pushed when the outer loop is at i and the inner loop at j. */
  function PairForces(balls: seq<Ball>, len: Vec -> real, i: nat, j: nat): seq<BallForce>
    requires i < |balls| && j < |balls|
  {
    if Collides(balls, len, i, j) then
      [BallForce(j, Impact(balls, len, i, j), 0.0), BallForce(i, Neg(Impact(balls, len, i, j)), 0.0)]
    else
      []
  }

  /** The forces pushed by the inner loop for outer ball i, over j < n. */
  function InnerLoop(balls: seq<Ball>, len: Vec -> real, i: nat, n: nat): seq<BallForce>
    requires i < |balls| && n <= |balls|
  {
    if n == 0 then []
    else InnerLoop(balls, len, i, n - 1) + PairForces(balls, len, i, n - 1)
  }

  /** The forces pushed by the outer loop over i < n. */
  function OuterLoop(balls: seq<Ball>, len: Vec -> real, n: nat): seq<BallForce>
    requires n <= |balls|
  {
    if n == 0 then []
    else OuterLoop(balls, len, n - 1) + InnerLoop(balls, len, n - 1, |balls|)
  }

  lemma OuterLoopUnfold(balls: seq<Ball>, len: Vec -> real, n: nat)
    requires 0 < n <= |balls|
    ensures OuterLoop(balls, len, n) == OuterLoop(balls, len, n - 1) + InnerLoop(balls, len, n - 1, |balls|)
  {
  }

  /** Every force the collision stage creates. */
  function CollisionForces(balls: seq<Ball>, len: Vec -> real): seq<BallForce> {
    OuterLoop(balls, len, |balls|)
  }

  /** The collision stage appends its forces to the force list. */
  function CollisionStage(balls: seq<Ball>, forces: seq<BallForce>, len: Vec -> real): (r: seq<BallForce>)
    requires TargetsValid(balls, forces)
    ensures |r| >= |forces| && r[..|forces|] == forces
    ensures TargetsValid(balls, r)
    ensures OneFrameForces(forces) ==> OneFrameForces(r)
  {
    CollisionForcesWellFormed(balls, len);
    forces + CollisionForces(balls, len)
  }

  // ---------------------------------------------------------------------
  // Newton's third law: the created forces cancel.

  /** The vector sum of all forces of a list. */
  function SumForces(fs: seq<BallForce>): Vec {
    if fs == [] then Zero
    else Add(fs[0].force, SumForces(fs[1..]))
  }

  lemma {:induction false} SumForcesConcat(a: seq<BallForce>, b: seq<BallForce>)
    ensures SumForces(a + b) == Add(SumForces(a), SumForces(b))
  {
    if a == [] {
      assert a + b == b;
    } else {
      assert (a + b)[1..] == a[1..] + b;
      SumForcesConcat(a[1..], b);
    }
  }

  lemma ZeroSumConcat(a: seq<BallForce>, b: seq<BallForce>)
    ensures SumForces(a) == Zero && SumForces(b) == Zero ==> SumForces(a + b) == Zero
  {
    SumForcesConcat(a, b);
  }

  lemma {:induction false} InnerLoopCancels(balls: seq<Ball>, len: Vec -> real, i: nat, n: nat)
    requires i < |balls| && n <= |balls|
    ensures SumForces(InnerLoop(balls, len, i, n)) == Zero
  {
    if n == 1 {
      var pf := PairForces(balls, len, i, 0);
      assert InnerLoop(balls, len, i, 1) == InnerLoop(balls, len, i, 0) + pf;
      assert [] + pf == pf;
      PairCancels(balls, len, i, 0);
    } else if n > 1 {
      var a := InnerLoop(balls, len, i, n - 1);
      var pf := PairForces(balls, len, i, n - 1);
      assert InnerLoop(balls, len, i, n) == a + pf;
      InnerLoopCancels(balls, len, i, n - 1);
      PairCancels(balls, len, i, n - 1);
      ZeroSumConcat(a, pf);
    }
  }

  lemma PairCancels(balls: seq<Ball>, len: Vec -> real, i: nat, j: nat)
    requires i < |balls| && j < |balls|
    ensures SumForces(PairForces(balls, len, i, j)) == Zero
  {
    var pf := PairForces(balls, len, i, j);
    if pf != [] {
      assert pf[1..][1..] == [];
      assert SumForces(pf[1..]) == pf[1].force;
    }
  }

  lemma {:induction false} OuterLoopCancels(balls: seq<Ball>, len: Vec -> real, n: nat)
    requires n <= |balls|
    ensures SumForces(OuterLoop(balls, len, n)) == Zero
  {
    if n == 1 {
      OuterLoopUnfold(balls, len, 1);
      assert OuterLoop(balls, len, 1) == InnerLoop(balls, len, 0, |balls|);
      InnerLoopCancels(balls, len, 0, |balls|);
    } else if n > 1 {
      OuterLoopUnfold(balls, len, n);
      OuterLoopCancels(balls, len, n - 1);
      InnerLoopCancels(balls, len, n - 1, |balls|);
      ZeroSumConcat(OuterLoop(balls, len, n - 1), InnerLoop(balls, len, n - 1, |balls|));
    }
  }

  /** Each force is pushed together with its opposite, so the forces of the
      collision stage sum to the zero vector. */
  lemma CollisionForcesCancel(balls: seq<Ball>, len: Vec -> real)
    ensures SumForces(CollisionForces(balls, len)) == Zero
  {
    OuterLoopCancels(balls, len, |balls|);
  }

  // ---------------------------------------------------------------------
  // Which forces are created.

  /** f is one of the two forces the colliding ordered pair (i, j) pushes:
      the impact on j or its opposite on i. */
  predicate FromPair(balls: seq<Ball>, len: Vec -> real, i: nat, j: nat, f: BallForce)
    requires i < |balls| && j < |balls|
  {
    Collides(balls, len, i, j) &&
    (f == BallForce(j, Impact(balls, len, i, j), 0.0) ||
     f == BallForce(i, Neg(Impact(balls, len, i, j)), 0.0))
  }

  lemma {:induction false} InnerLoopMembers(balls: seq<Ball>, len: Vec -> real, i: nat, n: nat, f: BallForce)
    requires i < |balls| && n <= |balls|
    ensures f in InnerLoop(balls, len, i, n) <==> exists j :: 0 <= j < n && FromPair(balls, len, i, j, f)
  {
    if n > 0 {
      if n > 1 {
        InnerLoopMembers(balls, len, i, n - 1, f);
      } else {
        assert InnerLoop(balls, len, i, 0) == [];
      }
      var pf := PairForces(balls, len, i, n - 1);
      assert f in InnerLoop(balls, len, i, n) <==> f in InnerLoop(balls, len, i, n - 1) || f in pf;
      assert f in pf <==> FromPair(balls, len, i, n - 1, f);
      if f in InnerLoop(balls, len, i, n) {
        if f in pf {
          assert FromPair(balls, len, i, n - 1, f);
        }
      }
    }
  }

  lemma {:induction false} OuterLoopMembers(balls: seq<Ball>, len: Vec -> real, n: nat, f: BallForce)
    requires n <= |balls|
    ensures f in OuterLoop(balls, len, n) <==>
      exists i, j :: 0 <= i < n && 0 <= j < |balls| && FromPair(balls, len, i, j, f)
  {
    if n > 0 {
      if n > 1 {
        OuterLoopMembers(balls, len, n - 1, f);
      } else {
        assert OuterLoop(balls, len, 0) == [];
      }
      InnerLoopMembers(balls, len, n - 1, |balls|, f);
      assert f in OuterLoop(balls, len, n) <==>
        f in OuterLoop(balls, len, n - 1) || f in InnerLoop(balls, len, n - 1, |balls|);
      if f in InnerLoop(balls, len, n - 1, |balls|) {
        var j :| 0 <= j < |balls| && FromPair(balls, len, n - 1, j, f);
        assert 0 <= n - 1 < n && FromPair(balls, len, n - 1, j, f);
      }
      if exists i, j :: 0 <= i < n && 0 <= j < |balls| && FromPair(balls, len, i, j, f) {
        var i, j :| 0 <= i < n && 0 <= j < |balls| && FromPair(balls, len, i, j, f);
        if i == n - 1 {
          assert f in InnerLoop(balls, len, n - 1, |balls|);
        } else {
          assert f in OuterLoop(balls, len, n - 1);
        }
      }
    }
  }

  /** A force is created by the collision stage exactly when some colliding
      ordered pair (i, j) pushes it: the impact on j, or its opposite on i. */
  lemma CollisionForcesExactly(balls: seq<Ball>, len: Vec -> real, f: BallForce)
    ensures f in CollisionForces(balls, len) <==>
      exists i, j :: 0 <= i < |balls| && 0 <= j < |balls| && FromPair(balls, len, i, j, f)
  {
    OuterLoopMembers(balls, len, |balls|, f);
  }

  /** Every created force names one of the balls and lasts one frame. */
  lemma CollisionForcesWellFormed(balls: seq<Ball>, len: Vec -> real)
    ensures TargetsValid(balls, CollisionForces(balls, len))
    ensures OneFrameForces(CollisionForces(balls, len))
  {
    var cf := CollisionForces(balls, len);
    forall k | 0 <= k < |cf|
      ensures cf[k].target < |balls| && cf[k].duration == 0.0
    {
      CollisionForcesExactly(balls, len, cf[k]);
    }
  }

  /** The impact on j lies along the line of centres from i to j and pushes j
      away from i, in proportion to the speed of i; a resting i pushes nothing. */
  lemma ImpactAlongCentres(balls: seq<Ball>, len: Vec -> real, i: nat, j: nat)
    requires i < |balls| && j < |balls|
    ensures var d := Sub(balls[j].position, balls[i].position);
      Impact(balls, len, i, j).x * d.y == Impact(balls, len, i, j).y * d.x &&
      Dot(Impact(balls, len, i, j), d) == 0.01 * len(balls[i].velocity) * Norm2(d)
    ensures len(balls[i].velocity) == 0.0 ==> Impact(balls, len, i, j) == Zero
  {
    var d := Sub(balls[j].position, balls[i].position);
    var k := len(balls[i].velocity) * 0.01;
    assert Impact(balls, len, i, j) == Scale(k, d);
    ScaledParallel(k, d);
  }

  /** Visiting the ordered pair (i, j) pushes nothing unless the two balls
      collide, and then exactly two one-frame forces, equal and opposite:
      the impact on j first, its reaction on i second. */
  lemma PairForcesOpposite(balls: seq<Ball>, len: Vec -> real, i: nat, j: nat)
    requires i < |balls| && j < |balls|
    ensures |PairForces(balls, len, i, j)| == (if Collides(balls, len, i, j) then 2 else 0)
    ensures Collides(balls, len, i, j) ==>
      PairForces(balls, len, i, j)[0].target == j && PairForces(balls, len, i, j)[1].target == i &&
      PairForces(balls, len, i, j)[0].duration == 0.0 && PairForces(balls, len, i, j)[1].duration == 0.0 &&
      Add(PairForces(balls, len, i, j)[0].force, PairForces(balls, len, i, j)[1].force) == Zero
  {
  }

  /** Balls whose centres are all more than a diameter apart produce no
      collision force at all. */
  lemma SeparatedNoCollisionForces(balls: seq<Ball>, len: Vec -> real)
    requires IsLength(len)
    requires forall i, j :: 0 <= i < |balls| && 0 <= j < |balls| && i != j ==>
      Norm2(Sub(balls[j].position, balls[i].position)) > (BallDiameter * BallDiameter) as real
    ensures CollisionForces(balls, len) == []
  {
    var cf := CollisionForces(balls, len);
    if cf != [] {
      CollisionForcesExactly(balls, len, cf[0]);
      var i, j :| 0 <= i < |balls| && 0 <= j < |balls| && FromPair(balls, len, i, j, cf[0]);
      TouchingIsDistanceTest(len, balls[i].position, balls[j].position);
      assert false;
    }
  }

  // ---------------------------------------------------------------------
  // Counting: both orderings of a pair are visited.

  function Hit(balls: seq<Ball>, len: Vec -> real, i: nat, j: nat): nat
    requires i < |balls| && j < |balls|
  {
    if Collides(balls, len, i, j) then 1 else 0
  }

  /** Colliding partners j < n of ball i. */
  function RowHits(balls: seq<Ball>, len: Vec -> real, i: nat, n: nat): nat
    requires i < |balls| && n <= |balls|
  {
    if n == 0 then 0 else RowHits(balls, len, i, n - 1) + Hit(balls, len, i, n - 1)
  }

  /** Colliding partners i < n of ball j, counted with j second. */
  function ColHits(balls: seq<Ball>, len: Vec -> real, j: nat, n: nat): nat
    requires j < |balls| && n <= |balls|
  {
    if n == 0 then 0 else ColHits(balls, len, j, n - 1) + Hit(balls, len, n - 1, j)
  }

  /** Colliding ordered pairs (i, j) with i < n and j < m. */
  function OrderedHits(balls: seq<Ball>, len: Vec -> real, n: nat, m: nat): nat
    requires n <= |balls| && m <= |balls|
  {
    if n == 0 then 0 else OrderedHits(balls, len, n - 1, m) + RowHits(balls, len, n - 1, m)
  }

  /** Colliding pairs j < i < n: each unordered colliding pair once. */
  function PairsBelow(balls: seq<Ball>, len: Vec -> real, n: nat): nat
    requires n <= |balls|
  {
    if n == 0 then 0 else PairsBelow(balls, len, n - 1) + RowHits(balls, len, n - 1, n - 1)
  }

  /** The number of unordered pairs of balls that touch. */
  function UnorderedCollisions(balls: seq<Ball>, len: Vec -> real): nat {
    PairsBelow(balls, len, |balls|)
  }

  lemma HitSymmetric(balls: seq<Ball>, len: Vec -> real, i: nat, j: nat)
    requires i < |balls| && j < |balls|
    requires IsLength(len)
    ensures Hit(balls, len, i, j) == Hit(balls, len, j, i)
  {
    LengthSymmetric(len, balls[j].position, balls[i].position);
  }

  lemma {:induction false} InnerLoopCount(balls: seq<Ball>, len: Vec -> real, i: nat, n: nat)
    requires i < |balls| && n <= |balls|
    ensures |InnerLoop(balls, len, i, n)| == 2 * RowHits(balls, len, i, n)
  {
    if n > 1 {
      InnerLoopCount(balls, len, i, n - 1);
    }
  }

  lemma {:induction false} OuterLoopCount(balls: seq<Ball>, len: Vec -> real, n: nat)
    requires n <= |balls|
    ensures |OuterLoop(balls, len, n)| == 2 * OrderedHits(balls, len, n, |balls|)
  {
    if n > 0 {
      var a := OuterLoop(balls, len, n - 1);
      var b := InnerLoop(balls, len, n - 1, |balls|);
      assert OuterLoop(balls, len, n) == a + b;
      if n > 1 {
        OuterLoopCount(balls, len, n - 1);
      } else {
        assert a == [];
      }
      InnerLoopCount(balls, len, n - 1, |balls|);
      assert |a + b| == |a| + |b|;
    }
  }

  lemma {:induction false} ColIsRow(balls: seq<Ball>, len: Vec -> real, j: nat, n: nat)
    requires j < |balls| && n <= |balls|
    requires IsLength(len)
    ensures ColHits(balls, len, j, n) == RowHits(balls, len, j, n)
  {
    if n > 0 {
      ColIsRow(balls, len, j, n - 1);
      HitSymmetric(balls, len, n - 1, j);
    }
  }

  lemma {:induction false} OrderedHitsExtend(balls: seq<Ball>, len: Vec -> real, n: nat, m: nat)
    requires n <= |balls| && m < |balls|
    ensures OrderedHits(balls, len, n, m + 1) == OrderedHits(balls, len, n, m) + ColHits(balls, len, m, n)
  {
    if n > 0 {
      OrderedHitsExtend(balls, len, n - 1, m);
    }
  }

  lemma {:induction false} OrderedHitsTwice(balls: seq<Ball>, len: Vec -> real, n: nat)
    requires n <= |balls|
    requires IsLength(len)
    ensures OrderedHits(balls, len, n, n) == 2 * PairsBelow(balls, len, n)
  {
    if n > 0 {
      var k := n - 1;
      OrderedHitsTwice(balls, len, k);
      OrderedHitsExtend(balls, len, k, k);
      ColIsRow(balls, len, k, k);
      assert RowHits(balls, len, k, n) == RowHits(balls, len, k, k);
    }
  }

  lemma {:induction false} OrderedHitsAll(balls: seq<Ball>, len: Vec -> real)
    requires IsLength(len)
    ensures OrderedHits(balls, len, |balls|, |balls|) == 2 * UnorderedCollisions(balls, len)
  {
    OrderedHitsTwice(balls, len, |balls|);
  }

  /** Every unordered pair of touching balls is visited twice and pushes two
      forces each time: the stage creates four forces per touching pair. */
  lemma CollisionForceCount(balls: seq<Ball>, len: Vec -> real)
    requires IsLength(len)
    ensures |CollisionForces(balls, len)| == 4 * UnorderedCollisions(balls, len)
  {
    OuterLoopCount(balls, len, |balls|);
    OrderedHitsAll(balls, len);
  }
}
