/** The last stage of the physics step: every force's remaining duration is
    decreased by dt, and the forces whose duration has dropped below zero are
    erased with std::remove_if, which keeps the survivors in their original
    order. */
module Expiry {
  import opened GameDefs

  /** Every duration decreased by dt; nothing else changes. */
  function Decrement(forces: seq<BallForce>, dt: real): (r: seq<BallForce>)
    ensures |r| == |forces|
    ensures forall k :: 0 <= k < |r| ==>
      r[k].target == forces[k].target && r[k].force == forces[k].force &&
      r[k].duration + dt == forces[k].duration
  {
    seq(|forces|, k requires 0 <= k < |forces| => forces[k].(duration := forces[k].duration - dt))
  }

  /** A force survives while its duration is not negative. */
  predicate Alive(f: BallForce) {
    f.duration >= 0.0
  }

  /** The forces that survive, in their original order. */
  function RemoveExpired(forces: seq<BallForce>): (r: seq<BallForce>)
    ensures |r| <= |forces|
    ensures forall k :: 0 <= k < |r| ==> Alive(r[k])
  {
    if forces == [] then []
    else (if Alive(forces[0]) then [forces[0]] else []) + RemoveExpired(forces[1..])
  }

  /** Removal works piecewise, which is the stability of remove_if: survivors
      of an earlier part come before survivors of a later part. */
  lemma {:induction false} RemoveExpiredConcat(a: seq<BallForce>, b: seq<BallForce>)
    ensures RemoveExpired(a + b) == RemoveExpired(a) + RemoveExpired(b)
  {
    if a != [] {
      assert (a + b)[1..] == a[1..] + b;
      RemoveExpiredConcat(a[1..], b);
    } else {
      assert a + b == b;
    }
  }

  /** Exactly the live forces survive. */
  lemma {:induction false} RemoveExpiredMembers(forces: seq<BallForce>, f: BallForce)
    ensures f in RemoveExpired(forces) <==> f in forces && Alive(f)
  {
    if forces != [] {
      RemoveExpiredMembers(forces[1..], f);
      assert forces == [forces[0]] + forces[1..];
    }
  }

  /** Removing twice removes nothing more. */
  lemma {:induction false} RemoveExpiredIdempotent(forces: seq<BallForce>)
    ensures RemoveExpired(RemoveExpired(forces)) == RemoveExpired(forces)
  {
    if forces != [] {
      RemoveExpiredIdempotent(forces[1..]);
      var head := if Alive(forces[0]) then [forces[0]] else [];
      RemoveExpiredConcat(head, RemoveExpired(forces[1..]));
      assert RemoveExpired(head) == head by {
        if Alive(forces[0]) {
          assert head[1..] == [];
        }
      }
    }
  }

  /** If every force is alive nothing is removed; if none is, all are. */
  lemma {:induction false} RemoveExpiredExtremes(forces: seq<BallForce>)
    ensures (forall k :: 0 <= k < |forces| ==> Alive(forces[k])) ==> RemoveExpired(forces) == forces
    ensures (forall k :: 0 <= k < |forces| ==> !Alive(forces[k])) ==> RemoveExpired(forces) == []
  {
    if forces != [] {
      RemoveExpiredExtremes(forces[1..]);
      assert forall k :: 1 <= k < |forces| ==> forces[1..][k - 1] == forces[k];
    }
  }

  /** Reading one more force adds it to the survivors exactly when it is
      alive. */
  lemma RemoveExpiredSnoc(forces: seq<BallForce>, i: nat)
    requires i < |forces|
    ensures RemoveExpired(forces[..i + 1]) ==
      RemoveExpired(forces[..i]) + (if Alive(forces[i]) then [forces[i]] else [])
  {
    RemoveExpiredConcat(forces[..i], [forces[i]]);
    assert forces[..i + 1] == forces[..i] + [forces[i]];
    assert [forces[i]][1..] == [];
  }

  /** The erase-remove idiom over an array: a write index trails the read
      index, and every live force read is copied down to the write index.
      The prefix up to the write index is then the list with the dead forces
      removed, in order. */
  method EraseExpired(forces: seq<BallForce>) returns (r: seq<BallForce>)
    ensures r == RemoveExpired(forces)
  {
    var a := new BallForce[|forces|](k requires 0 <= k < |forces| => forces[k]);
    var w := 0;
    var i := 0;
    while i < a.Length
      invariant 0 <= w <= i <= a.Length
      invariant a.Length == |forces|
      invariant a[..w] == RemoveExpired(forces[..i])
      invariant a[i..] == forces[i..]
    {
      RemoveExpiredSnoc(forces, i);
      ghost var rest := a[i + 1..];
      assert rest == forces[i + 1..];
      var f := a[i];
      assert f == forces[i] by {
        assert a[i..][0] == forces[i..][0];
      }
      if Alive(f) {
        a[w] := f;
        w := w + 1;
      }
      assert a[i + 1..] == rest by {
        forall k | 0 <= k < |rest|
          ensures a[i + 1..][k] == rest[k]
        {
        }
      }
      i := i + 1;
    }
    assert forces[..|forces|] == forces;
    r := a[..w];
  }

  /** The expiry stage: decrement, then remove. */
  function ExpireStage(forces: seq<BallForce>, dt: real): (r: seq<BallForce>)
    ensures |r| <= |forces|
    ensures forall k :: 0 <= k < |r| ==> Alive(r[k])
  {
    RemoveExpired(Decrement(forces, dt))
  }

  /** A force survives the stage exactly when its duration was at least dt;
      it survives with dt taken off. */
  lemma ExpireStageMembers(forces: seq<BallForce>, dt: real, f: BallForce)
    ensures f in ExpireStage(forces, dt) <==>
      f.duration >= 0.0 && f.(duration := f.duration + dt) in forces
  {
    var d := Decrement(forces, dt);
    RemoveExpiredMembers(d, f);
    if f in d {
      var k :| 0 <= k < |d| && d[k] == f;
      assert forces[k] == f.(duration := f.duration + dt);
    }
    if f.(duration := f.duration + dt) in forces {
      var k :| 0 <= k < |forces| && forces[k] == f.(duration := f.duration + dt);
      assert d[k] == f;
    }
  }

  /** The survivors still name balls that exist. */
  lemma ExpireKeepsTargets(balls: seq<Ball>, forces: seq<BallForce>, dt: real)
    requires TargetsValid(balls, forces)
    ensures TargetsValid(balls, ExpireStage(forces, dt))
  {
    var r := ExpireStage(forces, dt);
    forall k | 0 <= k < |r|
      ensures r[k].target < |balls|
    {
      ExpireStageMembers(forces, dt, r[k]);
      var j :| 0 <= j < |forces| && forces[j] == r[k].(duration := r[k].duration + dt);
    }
  }

  /** One-frame forces are all gone after a stage with a positive time step,
      so each is integrated in exactly one frame. */
  lemma OneFrameForcesExpire(forces: seq<BallForce>, dt: real)
    requires OneFrameForces(forces)
    requires dt > 0.0
    ensures ExpireStage(forces, dt) == []
  {
    RemoveExpiredExtremes(Decrement(forces, dt));
  }
}
