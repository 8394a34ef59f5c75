/** The records and constants of the game's header: ball identities, balls,
    timed forces, the table geometry and the physics constants, and the
    simulation state that the Game class keeps in its fields and in two
    function-local statics. */
module GameDefs {
  import opened Vectors

  /** The sixteen balls, declared in the order the enum declares them. */
  datatype BallType =
    | Cue | Black
    | Yellow | Blue | Red | Purple | Orange | Green | Maroon
    | YellowStripe | BlueStripe | RedStripe | PurpleStripe | OrangeStripe | GreenStripe | MaroonStripe

  /** Every ball type in enum order: the order in which a std::map keyed by
      BallType is iterated. */
  const AllTypes: seq<BallType> := [
    Cue, Black,
    Yellow, Blue, Red, Purple, Orange, Green, Maroon,
    YellowStripe, BlueStripe, RedStripe, PurpleStripe, OrangeStripe, GreenStripe, MaroonStripe
  ]

  /** The enum's underlying value; it is the position of the type in AllTypes. */
  function Ordinal(t: BallType): (r: nat)
    ensures r < |AllTypes|
    ensures AllTypes[r] == t
  {
    match t
    case Cue => 0
    case Black => 1
    case Yellow => 2
    case Blue => 3
    case Red => 4
    case Purple => 5
    case Orange => 6
    case Green => 7
    case Maroon => 8
    case YellowStripe => 9
    case BlueStripe => 10
    case RedStripe => 11
    case PurpleStripe => 12
    case OrangeStripe => 13
    case GreenStripe => 14
    case MaroonStripe => 15
  }

  /** The enumeration has exactly sixteen distinct values, Cue first, and
      Ordinal and indexing into AllTypes are inverse to each other. */
  lemma BallTypesEnumerated()
    ensures |AllTypes| == 16
    ensures AllTypes[0] == Cue
    ensures forall i :: 0 <= i < |AllTypes| ==> Ordinal(AllTypes[i]) == i
    ensures forall i, j :: 0 <= i < j < |AllTypes| ==> AllTypes[i] != AllTypes[j]
    ensures forall t: BallType :: t in AllTypes
  {
    forall i | 0 <= i < |AllTypes|
      ensures Ordinal(AllTypes[i]) == i
    {
      var k := i;
      if k == 0 {} else if k == 1 {} else if k == 2 {} else if k == 3 {}
      else if k == 4 {} else if k == 5 {} else if k == 6 {} else if k == 7 {}
      else if k == 8 {} else if k == 9 {} else if k == 10 {} else if k == 11 {}
      else if k == 12 {} else if k == 13 {} else if k == 14 {} else {}
    }
    forall t: BallType
      ensures t in AllTypes
    {
      assert AllTypes[Ordinal(t)] == t;
    }
  }

  /** A ball: centre, velocity and the texture it is drawn with. The texture
      handle is identified by the ball type whose texture it is. */
  datatype Ball = Ball(position: Vec, velocity: Vec, sprite: BallType)

  /** A force on one ball, named by its index into the ball sequence, with the
      time left before it stops; a duration of 0.0 means one frame. */
  datatype BallForce = BallForce(target: nat, force: Vec, duration: real)

  // Physics constants.
  const ShotPowerMultiplier: real := 0.05
  const BallMass: real := 15.0
  const FrictionCoefficient: real := 0.04
  const StaticFrictionThreshold: real := 0.002

  // Table geometry (integers in the header, widened to float where used).
  const BumperWidth: int := 50
  const FeltLeft: int := BumperWidth * 2
  const FeltTop: int := 100
  const FeltWidth: int := 800
  const FeltHeight: int := 400
  const BallDiameter: int := 35

  const BallRadius: real := BallDiameter as real / 2.0
  /** The x coordinate of the right bumper's face. */
  const RightWall: real := (FeltLeft + FeltWidth) as real
  const LeftWall: real := FeltLeft as real
  const TopWall: real := FeltTop as real
  /** The y coordinate of the bottom bumper's face. */
  const BottomWall: real := (FeltTop + FeltHeight) as real

  /** The felt is the rectangle [100, 900] x [100, 500], and a ball is narrower
      than the felt in both directions, so it fits between opposing bumpers. */
  lemma FeltGeometry()
    ensures LeftWall == 100.0 && RightWall == 900.0
    ensures TopWall == 100.0 && BottomWall == 500.0
    ensures LeftWall + BallRadius < RightWall - BallRadius
    ensures TopWall + BallRadius < BottomWall - BallRadius
    ensures BallDiameter < FeltWidth && BallDiameter < FeltHeight
  {
  }

  /** The physics constants are positive, so the divisions by the mass are
      defined, and the speed one frame of friction takes away (the friction
      force has magnitude c/m, so the velocity changes by c/m/m) is below the
      static-friction threshold. */
  lemma PhysicsConstantsPositive()
    ensures BallMass > 0.0 && FrictionCoefficient > 0.0
    ensures StaticFrictionThreshold > 0.0 && ShotPowerMultiplier > 0.0
    ensures FrictionCoefficient / BallMass / BallMass < StaticFrictionThreshold
  {
  }

  /** The game's state: the balls, the active forces, the running flag, the
      shot power, and the two function-local statics of the frame driver
      (`time`) and of the physics step (`lastTime`). */
  datatype GameState = GameState(
    balls: seq<Ball>,
    forces: seq<BallForce>,
    running: bool,
    shotPower: real,
    time: real,
    lastTime: real)

  /** Every force names a ball that exists. */
  predicate TargetsValid(balls: seq<Ball>, forces: seq<BallForce>) {
    forall k :: 0 <= k < |forces| ==> forces[k].target < |balls|
  }

  /** Every force lasts one frame. */
  predicate OneFrameForces(forces: seq<BallForce>) {
    forall k :: 0 <= k < |forces| ==> forces[k].duration == 0.0
  }
}
