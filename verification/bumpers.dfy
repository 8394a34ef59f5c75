/** The second stage of the physics step: every ball is tested against the
    right, left, top and bottom bumpers in that order. The first bumper the
    ball has reached reflects its velocity about that bumper's normal and
    ends the tests for that ball. Positions and the force list are not
    touched. */
module Bumpers {
  import opened Vectors
  import opened GameDefs

  datatype Bumper = RightBumper | LeftBumper | TopBumper | BottomBumper

  datatype Option<T> = None | Some(value: T)

  /** The order in which the bumpers are tested. */
  function Rank(w: Bumper): nat {
    match w
    case RightBumper => 0
    case LeftBumper => 1
    case TopBumper => 2
    case BottomBumper => 3
  }

  /** The ball's edge is on or behind the bumper's face; the tests are
      inclusive. */
  predicate Reaches(p: Vec, w: Bumper) {
    match w
    case RightBumper => p.x + BallRadius >= RightWall
    case LeftBumper => p.x - BallRadius <= LeftWall
    case TopBumper => p.y - BallRadius <= TopWall
    case BottomBumper => p.y + BallRadius >= BottomWall
  }

  /** The normal handed to glm::reflect for each bumper. */
  function Normal(w: Bumper): Vec {
    match w
    case RightBumper => Vec(-1.0, 0.0)
    case LeftBumper => Vec(1.0, 0.0)
    case TopBumper => Vec(0.0, -1.0)
    case BottomBumper => Vec(0.0, 1.0)
  }

  /** The bumper whose test fires for a ball centred at p, if any: the
      earliest in test order among those the ball reaches. */
  function FirstHit(p: Vec): (r: Option<Bumper>)
    ensures r.None? <==> forall w: Bumper :: !Reaches(p, w)
    ensures r.Some? ==> Reaches(p, r.value)
    ensures r.Some? ==> forall w: Bumper :: Rank(w) < Rank(r.value) ==> !Reaches(p, w)
  {
    if Reaches(p, RightBumper) then Some(RightBumper)
    else if Reaches(p, LeftBumper) then Some(LeftBumper)
    else if Reaches(p, TopBumper) then Some(TopBumper)
    else if Reaches(p, BottomBumper) then Some(BottomBumper)
    else None
  }

  /** One iteration of the bumper loop. A side bumper negates the x component
      of the velocity, a top or bottom bumper the y component; the other
      component, the position and the texture are kept. */
  function Bounce(b: Ball): (r: Ball)
    ensures r.position == b.position && r.sprite == b.sprite
    ensures FirstHit(b.position).None? ==> r.velocity == b.velocity
    ensures FirstHit(b.position) == Some(RightBumper) || FirstHit(b.position) == Some(LeftBumper)
      ==> r.velocity == Vec(-b.velocity.x, b.velocity.y)
    ensures FirstHit(b.position) == Some(TopBumper) || FirstHit(b.position) == Some(BottomBumper)
      ==> r.velocity == Vec(b.velocity.x, -b.velocity.y)
  {
    ReflectAxis(b.velocity);
    match FirstHit(b.position)
    case None => b
    case Some(w) => b.(velocity := Reflect(b.velocity, Normal(w)))
  }

  /** A reflection keeps the speed: the squared length of the velocity is
      unchanged by a bounce. */
  lemma BounceKeepsSpeed(b: Ball)
    ensures Norm2(Bounce(b).velocity) == Norm2(b.velocity)
  {
    var v := b.velocity;
    assert (-v.x) * (-v.x) == v.x * v.x;
    assert (-v.y) * (-v.y) == v.y * v.y;
  }

  /** A ball in a corner reaches two bumpers but only the first one in test
      order reflects it: in the bottom-right corner only the x component is
      negated. */
  lemma CornerBounceOnce(b: Ball)
    requires Reaches(b.position, RightBumper) && Reaches(b.position, BottomBumper)
    ensures Bounce(b).velocity == Vec(-b.velocity.x, b.velocity.y)
  {
    assert FirstHit(b.position) == Some(RightBumper);
  }

  /** A ball clear of all four bumpers is left exactly as it was. */
  lemma BounceClear(b: Ball)
    requires LeftWall < b.position.x - BallRadius && b.position.x + BallRadius < RightWall
    requires TopWall < b.position.y - BallRadius && b.position.y + BallRadius < BottomWall
    ensures Bounce(b) == b
  {
    assert FirstHit(b.position).None?;
  }

  /** The bumper stage: every ball bounced, each independently of the others. */
  function BumperStage(balls: seq<Ball>): (r: seq<Ball>)
    ensures |r| == |balls|
    ensures forall i :: 0 <= i < |r| ==> r[i].position == balls[i].position && r[i].sprite == balls[i].sprite
    ensures forall i :: 0 <= i < |r| ==> r[i] == Bounce(balls[i])
  {
    seq(|balls|, i requires 0 <= i < |balls| => Bounce(balls[i]))
  }
}
