/** The starting layout built by createBalls: the cue ball on the left of the
    felt and the other fifteen in a five-row triangle on the right, produced
    in enum order because the spots are collected in a map keyed by type. */
module Layout {
  import opened Vectors
  import opened GameDefs

  /** The cue ball's spot: 15% across the felt, vertically centred. The
      header's integer `FELT_HEIGHT / 2` is an integer division. */
  function CueSpot(): (p: Vec)
    ensures p == Vec(220.0, 300.0)
  {
    Vec(FeltLeft as real + FeltWidth as real * 0.15, (FeltTop + FeltHeight / 2) as real)
  }

  /** The positionBall lambda: rows advance by 1.1 diameters in x; each row
      starts row/2 diameters above the centre line, and balls in a row are
      1.1 diameters apart. In closed form, rows are 38.5 apart in x and each
      row starts 17.5 higher than the previous one. */
  function PositionBall(row: int, position: int): (p: Vec)
    ensures p == Vec(580.0 + 38.5 * row as real, 300.0 - 17.5 * row as real + 38.5 * position as real)
  {
    assert BallDiameter as real == 35.0;
    assert FeltLeft as real + 0.6 * FeltWidth as real == 580.0;
    var spacing := 1.1;
    var baseX := FeltLeft as real + 0.6 * FeltWidth as real;
    var x := baseX + row as real * (spacing * BallDiameter as real);
    var baseY := (FeltTop + FeltHeight / 2) as real - row as real / 2.0 * BallDiameter as real;
    var y := baseY + spacing * BallDiameter as real * position as real;
    Vec(x, y)
  }

  /** The spot createBalls assigns to each ball type: the cue spot for the
      cue ball, a slot of the triangle for every other ball. */
  function Spot(t: BallType): (p: Vec)
    ensures t == Cue ==> p == Vec(220.0, 300.0)
    ensures t != Cue ==> exists row, position :: IsSlot(row, position) && p == PositionBall(row, position)
  {
    match t
    case Cue => CueSpot()
    case Yellow => PositionBall(0, 0)
    case RedStripe => PositionBall(1, 0)
    case Red => PositionBall(1, 1)
    case Green => PositionBall(2, 0)
    case Black => PositionBall(2, 1)
    case GreenStripe => PositionBall(2, 2)
    case OrangeStripe => PositionBall(3, 0)
    case MaroonStripe => PositionBall(3, 1)
    case Purple => PositionBall(3, 2)
    case YellowStripe => PositionBall(3, 3)
    case Maroon => PositionBall(4, 0)
    case Blue => PositionBall(4, 1)
    case BlueStripe => PositionBall(4, 2)
    case Orange => PositionBall(4, 3)
    case PurpleStripe => PositionBall(4, 4)
  }

  /** A rack slot: row 0..4 from the apex, position 0..row within the row. */
  predicate IsSlot(row: int, position: int) {
    0 <= position <= row <= 4
  }

  /** The rack slot of a non-cue ball; its spot is positionBall of that slot. */
  function Slot(t: BallType): (rp: (int, int))
    requires t != Cue
    ensures IsSlot(rp.0, rp.1)
    ensures Spot(t) == PositionBall(rp.0, rp.1)
  {
    match t
    case Yellow => (0, 0)
    case RedStripe => (1, 0)
    case Red => (1, 1)
    case Green => (2, 0)
    case Black => (2, 1)
    case GreenStripe => (2, 2)
    case OrangeStripe => (3, 0)
    case MaroonStripe => (3, 1)
    case Purple => (3, 2)
    case YellowStripe => (3, 3)
    case Maroon => (4, 0)
    case Blue => (4, 1)
    case BlueStripe => (4, 2)
    case Orange => (4, 3)
    case PurpleStripe => (4, 4)
  }

  /** The ball placed in a rack slot. Together with Slot this is a bijection
      between the fifteen object balls and the fifteen slots, so row r holds
      exactly r + 1 balls. */
  function RackBall(row: int, position: int): (t: BallType)
    requires IsSlot(row, position)
    ensures t != Cue
    ensures Slot(t) == (row, position)
    ensures Spot(t) == PositionBall(row, position)
  {
    if row == 0 then Yellow
    else if row == 1 then (if position == 0 then RedStripe else Red)
    else if row == 2 then [Green, Black, GreenStripe][position]
    else if row == 3 then [OrangeStripe, MaroonStripe, Purple, YellowStripe][position]
    else [Maroon, Blue, BlueStripe, Orange, PurpleStripe][position]
  }

  /** Every object ball sits in the slot RackBall names, so Slot is injective. */
  lemma SlotsBijective(t: BallType)
    requires t != Cue
    ensures RackBall(Slot(t).0, Slot(t).1) == t
  {
  }

  /** The balls createBalls appends: one per type in enum order, at rest, each
      on its spot. */
  function Rack(): (r: seq<Ball>)
    ensures |r| == 16
    ensures r[0] == Ball(Vec(220.0, 300.0), Zero, Cue)
    ensures forall i :: 0 <= i < 16 ==> r[i].sprite == AllTypes[i]
    ensures forall i :: 0 <= i < 16 ==> r[i].velocity == Zero
    ensures forall i :: 0 <= i < 16 ==> r[i].position == Spot(AllTypes[i])
  {
    seq(16, i requires 0 <= i < 16 => Ball(Spot(AllTypes[i]), Zero, AllTypes[i]))
  }

  /** Sixteen balls with their textures in enum order, so the cue ball is at
      index 0. Resetting, freezing and the physics step all keep this shape. */
  predicate RackOrder(balls: seq<Ball>) {
    |balls| == 16 && forall i :: 0 <= i < 16 ==> balls[i].sprite == AllTypes[i]
  }

  /** createBalls pushes the rack onto whatever the ball vector holds. */
  function CreateBalls(balls: seq<Ball>): (r: seq<Ball>)
    ensures |r| == |balls| + 16
    ensures r[..|balls|] == balls && r[|balls|..] == Rack()
    ensures balls == [] ==> RackOrder(r) && r[0].sprite == Cue
  {
    balls + Rack()
  }

  /** A value at least c away from zero has a square of at least c * c. */
  lemma SquareAtLeast(a: real, c: real)
    requires c >= 0.0 && (a >= c || a <= -c)
    ensures a * a >= c * c
  {
    if a >= c {
      SquareMonotone(c, a);
    } else {
      SquareMonotone(c, -a);
      assert (-a) * (-a) == a * a;
    }
  }

  /** A displacement at least 38.5 along either axis is longer than a
      diameter. */
  lemma GapExceedsDiameter(dx: real, dy: real)
    requires dx >= 38.5 || dx <= -38.5 || dy >= 38.5 || dy <= -38.5
    ensures Norm2(Vec(dx, dy)) > (BallDiameter * BallDiameter) as real
  {
    if dx >= 38.5 || dx <= -38.5 {
      SquareAtLeast(dx, 38.5);
      SquareAtLeast(dy, 0.0);
    } else {
      SquareAtLeast(dy, 38.5);
      SquareAtLeast(dx, 0.0);
    }
  }

  /** Two different rack slots are more than one diameter apart. */
  lemma SlotsApart(r1: int, p1: int, r2: int, p2: int)
    requires IsSlot(r1, p1) && IsSlot(r2, p2)
    requires (r1, p1) != (r2, p2)
    ensures Norm2(Sub(PositionBall(r1, p1), PositionBall(r2, p2))) > (BallDiameter * BallDiameter) as real
  {
    var d := Sub(PositionBall(r1, p1), PositionBall(r2, p2));
    assert d.x == 38.5 * (r1 - r2) as real;
    assert d.y == 38.5 * (p1 - p2) as real - 17.5 * (r1 - r2) as real;
    if r1 != r2 {
      assert r1 - r2 >= 1 || r1 - r2 <= -1;
    } else {
      assert p1 - p2 >= 1 || p1 - p2 <= -1;
    }
    GapExceedsDiameter(d.x, d.y);
  }

  /** Every rack spot is right of x = 580, so far from the cue ball. */
  lemma SlotFarFromCue(r: int, p: int)
    requires IsSlot(r, p)
    ensures Norm2(Sub(CueSpot(), PositionBall(r, p))) > (BallDiameter * BallDiameter) as real
  {
    var d := Sub(CueSpot(), PositionBall(r, p));
    assert Norm2(d) == d.x * d.x + d.y * d.y;
    assert d.x <= -360.0;
    SquareAtLeast(d.x, 360.0);
    SquareAtLeast(d.y, 0.0);
  }

  /** The spots of two different ball types are more than one diameter apart. */
  lemma SpotsApart(t1: BallType, t2: BallType)
    requires t1 != t2
    ensures Norm2(Sub(Spot(t1), Spot(t2))) > (BallDiameter * BallDiameter) as real
  {
    if t1 == Cue {
      var slot := Slot(t2);
      assert Spot(t1) == CueSpot();
      SlotFarFromCue(slot.0, slot.1);
    } else if t2 == Cue {
      var slot := Slot(t1);
      assert Spot(t2) == CueSpot();
      SlotFarFromCue(slot.0, slot.1);
      Norm2Sym(Spot(t1), Spot(t2));
    } else {
      var slot1 := Slot(t1);
      var slot2 := Slot(t2);
      assert slot1 != slot2 by {
        SlotsBijective(t1);
        SlotsBijective(t2);
      }
      SlotsApart(slot1.0, slot1.1, slot2.0, slot2.1);
    }
  }

  /** No two balls of the rack touch: every pair of centres is more than one
      diameter apart. */
  lemma RackSeparated()
    ensures forall i, j :: 0 <= i < j < |Rack()| ==>
      Norm2(Sub(Rack()[i].position, Rack()[j].position)) > (BallDiameter * BallDiameter) as real
  {
    BallTypesEnumerated();
    forall i, j | 0 <= i < j < |Rack()|
      ensures Norm2(Sub(Rack()[i].position, Rack()[j].position)) > (BallDiameter * BallDiameter) as real
    {
      SpotsApart(AllTypes[i], AllTypes[j]);
    }
  }

  /** Every spot lies strictly inside the bumpers, so no bumper test fires on a
      freshly racked ball. */
  lemma SpotInsideBumpers(t: BallType)
    ensures LeftWall < Spot(t).x - BallRadius && Spot(t).x + BallRadius < RightWall
    ensures TopWall < Spot(t).y - BallRadius && Spot(t).y + BallRadius < BottomWall
  {
    if t != Cue {
      var rp := Slot(t);
      assert Spot(t) == PositionBall(rp.0, rp.1);
    }
  }

  lemma RackInsideBumpers()
    ensures forall i :: 0 <= i < |Rack()| ==>
      LeftWall < Rack()[i].position.x - BallRadius && Rack()[i].position.x + BallRadius < RightWall
    ensures forall i :: 0 <= i < |Rack()| ==>
      TopWall < Rack()[i].position.y - BallRadius && Rack()[i].position.y + BallRadius < BottomWall
  {
    forall i | 0 <= i < |Rack()|
      ensures LeftWall < Rack()[i].position.x - BallRadius && Rack()[i].position.x + BallRadius < RightWall
      ensures TopWall < Rack()[i].position.y - BallRadius && Rack()[i].position.y + BallRadius < BottomWall
    {
      SpotInsideBumpers(AllTypes[i]);
    }
  }
}
