/** The input handlers: the decoded SDL events the game reacts to, and the
    change of state each one makes. Events are handled in the order they were
    polled; a quit request only clears the running flag, so the events after
    it in the same batch are still handled. */
module Input {
  import opened Vectors
  import opened GameDefs
  import opened Layout

  datatype Key = Escape | KeyR | KeyF | OtherKey(code: int)

  datatype Button = LeftButton | RightButton | OtherButton(code: int)

  /** An SDL event as the game decodes it: a window close, a key going down,
      a mouse button going down at window coordinates (x, y), or anything
      else (which the game ignores). */
  datatype Event =
    | QuitEvent
    | KeyDown(key: Key)
    | MouseDown(button: Button, x: int, y: int)
    | OtherEvent

  /** The events that ask the game to stop: closing the window, Escape, and
      the right mouse button. */
  predicate IsQuit(e: Event) {
    e == QuitEvent || e == KeyDown(Escape) || (e.MouseDown? && e.button == RightButton)
  }

  /** The R key: forces and balls cleared, then createBalls racks a fresh
      set. The result depends on nothing but the fields reset leaves alone. */
  function Reset(s: GameState): (r: GameState)
    ensures r.forces == [] && r.balls == Rack()
    ensures RackOrder(r.balls) && r.balls[0] == Ball(Vec(220.0, 300.0), Zero, Cue)
    ensures forall i :: 0 <= i < |r.balls| ==> r.balls[i].velocity == Zero
    ensures r.running == s.running && r.shotPower == s.shotPower
    ensures r.time == s.time && r.lastTime == s.lastTime
  {
    var cleared := s.(forces := [], balls := []);
    assert CreateBalls([]) == CreateBalls([])[0..];
    cleared.(balls := CreateBalls(cleared.balls))
  }

  /** The F key: every ball stops where it is and every force is dropped. */
  function Freeze(s: GameState): (r: GameState)
    ensures |r.balls| == |s.balls| && r.forces == []
    ensures forall i :: 0 <= i < |s.balls| ==>
      r.balls[i].position == s.balls[i].position && r.balls[i].sprite == s.balls[i].sprite &&
      r.balls[i].velocity == Zero
    ensures r.running == s.running && r.shotPower == s.shotPower
    ensures r.time == s.time && r.lastTime == s.lastTime
  {
    var stopped := seq(|s.balls|, i requires 0 <= i < |s.balls| => s.balls[i].(velocity := Zero));
    s.(balls := stopped, forces := [])
  }

  /** Freezing a frozen table changes nothing. */
  lemma FreezeIdempotent(s: GameState)
    ensures Freeze(Freeze(s)) == Freeze(s)
  {
    assert Freeze(Freeze(s)).balls == Freeze(s).balls;
  }

  /** The force of a shot: from the cue ball's centre to the click, times
      the shot-power multiplier and the current shot power. Scaled back by
      that factor and laid off from the cue ball's centre, it reaches the
      click; a zero shot power gives no force. */
  function ShotForce(cue: Vec, x: int, y: int, shotPower: real): (f: Vec)
    ensures shotPower == 0.0 ==> f == Zero
    ensures shotPower != 0.0 ==>
      Add(cue, Div(f, ShotPowerMultiplier * shotPower)) == Vec(x as real, y as real)
  {
    Scale(ShotPowerMultiplier * shotPower, Vec(x as real - cue.x, y as real - cue.y))
  }

  /** f points along d, never against it. */
  predicate Toward(f: Vec, d: Vec) {
    f.x * d.y == f.y * d.x && Dot(f, d) >= 0.0
  }

  /** With a non-negative shot power the shot pushes the cue ball from its
      centre toward the click point; with a positive power and a click away
      from the centre, strictly so. */
  lemma ShotTowardClick(cue: Vec, x: int, y: int, shotPower: real)
    requires shotPower >= 0.0
    ensures Toward(ShotForce(cue, x, y, shotPower), Vec(x as real - cue.x, y as real - cue.y))
    ensures shotPower > 0.0 && Norm2(Vec(x as real - cue.x, y as real - cue.y)) > 0.0 ==>
      Dot(ShotForce(cue, x, y, shotPower), Vec(x as real - cue.x, y as real - cue.y)) > 0.0
  {
    var d := Vec(x as real - cue.x, y as real - cue.y);
    var k := ShotPowerMultiplier * shotPower;
    ScaledParallel(k, d);
    assert k >= 0.0;
    NonNegativeProduct(k, Norm2(d));
    if shotPower > 0.0 && Norm2(d) > 0.0 {
      PositiveProduct(k, Norm2(d));
    }
  }

  /** A left click: one one-frame force on ball 0, the cue ball, and nothing
      else changes. */
  function Shoot(s: GameState, x: int, y: int): (r: GameState)
    requires |s.balls| > 0
    ensures r.balls == s.balls
    ensures |r.forces| == |s.forces| + 1 && r.forces[..|s.forces|] == s.forces
    ensures r.forces[|s.forces|].target == 0 && r.forces[|s.forces|].duration == 0.0
    ensures r.forces[|s.forces|].force == ShotForce(s.balls[0].position, x, y, s.shotPower)
    ensures r.running == s.running && r.shotPower == s.shotPower
    ensures r.time == s.time && r.lastTime == s.lastTime
  {
    var cue := s.balls[0];
    s.(forces := s.forces + [BallForce(0, ShotForce(cue.position, x, y, s.shotPower), 0.0)])
  }

  /** handleKeyPress: Escape stops the game, R resets, F freezes; any other
      key does nothing. */
  function HandleKeyPress(s: GameState, key: Key): (r: GameState)
    ensures key == Escape ==> r == s.(running := false)
    ensures key == KeyR ==> r == s.(balls := Rack(), forces := [])
    ensures key == KeyF ==>
      r.forces == [] && |r.balls| == |s.balls| &&
      forall i :: 0 <= i < |s.balls| ==> r.balls[i] == s.balls[i].(velocity := Zero)
    ensures key.OtherKey? ==> r == s
    ensures key != Escape ==> r.running == s.running
    ensures r.shotPower == s.shotPower && r.time == s.time && r.lastTime == s.lastTime
  {
    match key
    case Escape => s.(running := false)
    case KeyR => Reset(s)
    case KeyF => Freeze(s)
    case OtherKey(_) => s
  }

  /** handleMouseClick: the left button shoots, the right button stops the
      game; any other button does nothing. */
  function HandleMouseClick(s: GameState, button: Button, x: int, y: int): (r: GameState)
    requires |s.balls| > 0
    ensures button == LeftButton ==>
      r == s.(forces := s.forces + [BallForce(0, ShotForce(s.balls[0].position, x, y, s.shotPower), 0.0)])
    ensures button == RightButton ==> r == s.(running := false)
    ensures button.OtherButton? ==> r == s
  {
    match button
    case LeftButton => Shoot(s, x, y)
    case RightButton => s.(running := false)
    case OtherButton(_) => s
  }

  /** One iteration of the polling loop. Nothing but a quit request touches
      the running flag, which only ever goes from true to false; the balls
      stay non-empty, and forces stay one-frame forces on existing balls. */
  function HandleEvent(s: GameState, e: Event): (r: GameState)
    requires |s.balls| > 0
    ensures |r.balls| > 0
    ensures r.running == (s.running && !IsQuit(e))
    ensures r.shotPower == s.shotPower && r.time == s.time && r.lastTime == s.lastTime
    ensures TargetsValid(s.balls, s.forces) ==> TargetsValid(r.balls, r.forces)
    ensures OneFrameForces(s.forces) ==> OneFrameForces(r.forces)
    ensures RackOrder(s.balls) ==> RackOrder(r.balls)
    ensures e == QuitEvent ==> r == s.(running := false)
    ensures e == OtherEvent ==> r == s
  {
    match e
    case QuitEvent => s.(running := false)
    case KeyDown(key) => HandleKeyPress(s, key)
    case MouseDown(button, x, y) => HandleMouseClick(s, button, x, y)
    case OtherEvent => s
  }

  /** handleInput: every pending event handled in order. The game keeps
      running exactly when it was running and no event in the batch asked it
      to quit. */
  function HandleInput(s: GameState, events: seq<Event>): (r: GameState)
    requires |s.balls| > 0
    ensures |r.balls| > 0
    ensures r.running == (s.running && forall k :: 0 <= k < |events| ==> !IsQuit(events[k]))
    ensures r.shotPower == s.shotPower && r.time == s.time && r.lastTime == s.lastTime
    ensures TargetsValid(s.balls, s.forces) ==> TargetsValid(r.balls, r.forces)
    ensures OneFrameForces(s.forces) ==> OneFrameForces(r.forces)
    ensures RackOrder(s.balls) ==> RackOrder(r.balls)
    decreases |events|
  {
    if events == [] then s
    else
      var r := HandleInput(HandleEvent(s, events[0]), events[1..]);
      assert (forall k :: 0 <= k < |events| ==> !IsQuit(events[k])) <==>
        !IsQuit(events[0]) && forall k :: 0 <= k < |events[1..]| ==> !IsQuit(events[1..][k]) by {
        if forall k :: 0 <= k < |events[1..]| ==> !IsQuit(events[1..][k]) {
          forall k | 1 <= k < |events|
            ensures !IsQuit(events[k])
          {
            assert events[k] == events[1..][k - 1];
          }
        }
      }
      r
  }

  /** Handling a batch is handling its first part, then the rest. */
  lemma {:induction false} HandleInputConcat(s: GameState, a: seq<Event>, b: seq<Event>)
    requires |s.balls| > 0
    ensures HandleInput(s, a + b) == HandleInput(HandleInput(s, a), b)
    decreases |a|
  {
    if a != [] {
      assert (a + b)[1..] == a[1..] + b;
      HandleInputConcat(HandleEvent(s, a[0]), a[1..], b);
    } else {
      assert a + b == b;
    }
  }

  /** The handlers never read the running flag. */
  lemma EventIgnoresRunning(s: GameState, e: Event)
    requires |s.balls| > 0
    ensures HandleEvent(s.(running := false), e) == HandleEvent(s, e).(running := false)
  {
  }

  lemma {:induction false} InputIgnoresRunning(s: GameState, events: seq<Event>)
    requires |s.balls| > 0
    ensures HandleInput(s.(running := false), events) == HandleInput(s, events).(running := false)
    decreases |events|
  {
    if events != [] {
      EventIgnoresRunning(s, events[0]);
      InputIgnoresRunning(HandleEvent(s, events[0]), events[1..]);
    }
  }

  /** A quit request anywhere in a batch only clears the running flag: the
      balls and forces come out as if it had not been there, because the
      events after it are still handled. */
  lemma QuitOnlyClearsFlag(s: GameState, before: seq<Event>, quit: Event, after: seq<Event>)
    requires |s.balls| > 0
    requires IsQuit(quit)
    ensures HandleInput(s, before + [quit] + after) == HandleInput(s, before + after).(running := false)
  {
    var mid := HandleInput(s, before);
    HandleInputConcat(s, before + [quit], after);
    HandleInputConcat(s, before, [quit]);
    HandleInputConcat(s, before, after);
    assert HandleInput(mid, [quit]) == mid.(running := false) by {
      assert [quit][1..] == [];
    }
    InputIgnoresRunning(mid, after);
  }

  /** Reset forgets the balls and forces it was given: two states that agree
      on the other fields reset to the same state, and resetting twice is
      resetting once. */
  lemma ResetForgetsHistory(s: GameState, t: GameState)
    requires s.running == t.running && s.shotPower == t.shotPower
    requires s.time == t.time && s.lastTime == t.lastTime
    ensures Reset(s) == Reset(t)
    ensures Reset(Reset(s)) == Reset(s)
  {
  }
}
