# Billiards game core in Dafny

A model of the simulation core of a small SDL billiards game. It covers the
`Game` class of `src/Game.cpp` and its records in `src/Game.hpp`:

- the sixteen ball identities;
- the balls, each with a centre, a velocity and a texture;
- the timed forces, each naming the ball it pushes, a force vector and a
  remaining duration;
- the rack that `createBalls` lays out;
- the procedural ball texture of `createBallTexture`;
- the physics step `simulatePhysics`, which runs five stages in order:
  ball-to-ball collisions, bumper reflections, friction, integration of the
  forces together with the position update, and force expiry;
- the input handlers that turn window, key and mouse events into resets,
  freezes, shots and quit requests;
- the per-frame driver `simulateFrame` and the game loop `start`.

The game state is one immutable `GameState` value. It holds the balls, the
active forces, the running flag, the shot power, and the two function-local
statics `time` (in `simulateFrame`) and `lastTime` (in `simulatePhysics`).
Every operation is a pure function from one state to the next. A force names
its ball by index into the ball sequence. The vector length `glm::length` and
`std::sin` are function parameters. Lemmas that need them to behave state
this as a precondition: `IsLength` says `len(v)` is the square root of
`v·v`, and `IsSineBounded` says `sin` stays within [-1, 1].

Files (one module each):

- `vectors.dfy`: 2-D vectors over `real`, reflection and length facts.
- `game_defs.dfy`: ball types, records, constants, the state.
- `layout.dfy`: `createBalls` and the rack.
- `texture.dfy`: `createBallTexture`.
- `collisions.dfy`, `bumpers.dfy`, `friction.dfy`, `integration.dfy`,
  `expiry.dfy`: the five stages of the physics step.
- `physics.dfy`: the physics step as a whole.
- `input.dfy`: the event handlers.
- `frame.dfy`: the frame driver and the game loop.

## Model

| member | source | states |
|---|---|---|
| GameDefs.BallTypesEnumerated | src/Game.hpp:13-33 | There are exactly sixteen ball types, listed once each in enum order with the cue ball first, and each one's position in the list is its enum value. |
| GameDefs.FeltGeometry | src/Game.hpp:108-114 | The felt spans [100, 900] x [100, 500], and a ball fits between opposing bumpers in both directions. |
| GameDefs.PhysicsConstantsPositive | src/Game.hpp:101-106 | The mass, friction coefficient, static threshold and shot multiplier are positive. The speed that one frame of friction removes is below the static threshold. |
| Layout.CueSpot | src/Game.cpp:203-206 | The cue ball's starting spot is 15% of the way across the felt, at half its height: (220, 300). |
| Layout.PositionBall | src/Game.cpp:208-220 | The positionBall lambda in closed form: rack slot (row, position) lies at x = 580 + 38.5·row and y = 300 − 17.5·row + 38.5·position. |
| Layout.Spot | src/Game.cpp:203-240 | The cue ball's spot is (220, 300), and every other ball's spot is positionBall of some slot of the five-row triangle. |
| Layout.Slot | src/Game.cpp:222-240 | Every object ball is assigned one triangle slot (row r, position p with 0 ≤ p ≤ r ≤ 4), and its spot is that slot's position. |
| Layout.RackBall | src/Game.cpp:222-240 | Every triangle slot holds an object ball whose assigned slot is that one. |
| Layout.SlotsBijective | src/Game.cpp:222-240 | Going from a ball to its slot and back gives the same ball, so the fifteen object balls fill the fifteen slots one-to-one. |
| Layout.Rack | src/Game.cpp:242-249 | The rack has sixteen balls in enum order (the map's iteration order). They are at rest on their spots, and the first is the cue ball at (220, 300). |
| Layout.CreateBalls | src/Game.cpp:198-251 | createBalls appends the sixteen racked balls after whatever balls were there. From an empty list it yields the rack with the cue ball at index 0. |
| Layout.SpotsApart | src/Game.cpp:203-240 | The spots of any two distinct ball types are more than a ball diameter apart. |
| Layout.RackSeparated | src/Game.cpp:203-249 | Any two racked balls have centres more than one diameter apart, so no two touch. |
| Layout.RackInsideBumpers | src/Game.cpp:203-249 | Every racked ball lies strictly inside all four bumpers. |
| Frame.RackNoCollisionForces | src/Game.cpp:382-408 | A fresh rack produces no collision force at all. |
| Frame.RackNoBounce | src/Game.cpp:410-457 | A fresh rack triggers no bumper reflection: the bumper stage leaves it unchanged. |
| Texture.I16 | src/Game.cpp:63-65 | The int16_t cast keeps the value modulo 2^16 within [−32768, 32768), and leaves a value already in that range unchanged. |
| Texture.U16 | src/Game.cpp:67-70 | The uint16_t counters wrap modulo 2^16 within [0, 65536), and leave a value already in that range unchanged. |
| Texture.HeaderConstants | src/Game.cpp:63-68 | The texture is 35x35 with radius 17, rim radius 14 and stripe width 11. Its 4900-byte buffer and every squared distance fit the 16-bit index and int16_t arithmetic. |
| Texture.CastsLossless | src/Game.cpp:73-76 | For every pixel, the int16_t casts of the offsets and of the squared distance change nothing. |
| Texture.CastPixel | src/Game.cpp:71-101 | The pixel computed with the 16-bit casts equals the reference picture over plain integers, for every in-range pixel. |
| Texture.FillBallTexture | src/Game.cpp:66-102 | The buffer is 4900 bytes. Pixel (x, y) occupies bytes 4·(35y + x) to 4·(35y + x) + 3, in blue, green, red, alpha order, with the reference picture's colour. |
| Texture.PixelColours | src/Game.cpp:77-101 | A pixel is opaque exactly inside the radius-17 circle and transparent elsewhere. Its colour is black (rim), the ball's colour, or white (stripe, striped balls only). |
| Texture.CentreAndCorners | src/Game.cpp:77-101 | The centre pixel is opaque in the ball's colour, and the corners are transparent. |
| Texture.PixelMirrorsVertically | src/Game.cpp:73-101 | Every ball texture is its own mirror image top to bottom. |
| Texture.PlainBallMirrorsHorizontally | src/Game.cpp:73-101 | A ball without a stripe is its own mirror image left to right. |
| Texture.StripeOnlyWhitensColumns | src/Game.cpp:81-95 | The stripe never changes transparency. It whitens exactly the stripe columns inside the rim and changes nothing else. |
| Texture.StripeAreasAsymmetric | src/Game.cpp:65-81 | As written, the left stripe covers column 10, but its mirror column 24 is outside the right stripe, so a striped ball is not left-right symmetric. |
| Texture.SymmetricPixelMirrors | src/Game.cpp:65-81 | With the right stripe starting at column 24, every ball is left-right symmetric, and only column 24 differs from the picture as written. |
| Vectors.ReflectUnitNormal | src/Game.cpp:423-453 | glm::reflect about a unit normal negates the velocity's component along the normal, changes the velocity only along the normal, and keeps its squared length. |
| Vectors.ReflectAxis | src/Game.cpp:415-456 | Reflecting off the vertical bumpers' normals negates the x component. Reflecting off the horizontal bumpers' normals negates the y component. |
| Collisions.TouchingIsDistanceTest | src/Game.cpp:394 | Two balls collide exactly when the squared distance between their centres is at most the squared diameter. |
| Collisions.ImpactAlongCentres | src/Game.cpp:401 | The impact of i on j lies along the line of centres and pushes j away from i. Its component along that line is 0.01 · speed of i · squared distance, so a resting i pushes nothing. |
| Collisions.PairForcesOpposite | src/Game.cpp:396-405 | Visiting an ordered pair pushes nothing unless the balls collide. Then it pushes exactly two one-frame forces that sum to zero: the impact on j first, its reaction on i second. |
| Collisions.SeparatedNoCollisionForces | src/Game.cpp:382-408 | Balls whose centres are all more than a diameter apart produce no collision force. |
| Collisions.CollisionStage | src/Game.cpp:382-408 | The collision stage only appends to the force list. Every new force names an existing ball and lasts one frame. |
| Collisions.CollisionForcesExactly | src/Game.cpp:382-408 | A force is produced exactly when it is the action on j, or the reaction on i, for some ordered pair of distinct touching balls (i, j). |
| Collisions.CollisionForcesCancel | src/Game.cpp:401-405 | The collision forces of one frame sum to zero (the third law as the game applies it). |
| Collisions.HitSymmetric | src/Game.cpp:394 | Whether i hits j does not depend on the order of the pair. |
| Collisions.CollisionForceCount | src/Game.cpp:382-408 | Each touching unordered pair is visited in both orders, so the stage produces exactly four forces per touching pair. |
| Collisions.CollisionForcesWellFormed | src/Game.cpp:382-408 | Every collision force names an existing ball and has duration 0. |
| Bumpers.FirstHit | src/Game.cpp:410-457 | Bumpers are checked in the order right, left, top, bottom. The first one the ball reaches is chosen, and none is chosen only when the ball reaches none. |
| Bumpers.Bounce | src/Game.cpp:410-457 | A ball reaching the right or left bumper has its x velocity negated; top or bottom, its y velocity. Otherwise nothing changes, and the position never changes. |
| Bumpers.BounceKeepsSpeed | src/Game.cpp:410-457 | A bumper reflection keeps the ball's speed. |
| Bumpers.CornerBounceOnce | src/Game.cpp:415-426 | A ball in the bottom-right corner reflects off the right bumper only. |
| Bumpers.BounceClear | src/Game.cpp:410-457 | A ball clear of all four bumpers is unchanged. |
| Bumpers.BumperStage | src/Game.cpp:410-457 | Each ball is bounced independently, and positions and identities are kept. |
| Friction.SlowIsSquaredTest | src/Game.cpp:461-465 | A ball is below the static threshold exactly when its squared speed is below the squared threshold. |
| Friction.FrictionForceTimesSpeed | src/Game.cpp:479 | The friction force times the speed is −(coefficient/mass) times the velocity: the division by the speed normalises the velocity. |
| Friction.FrictionOpposesMotion | src/Game.cpp:479-480 | The friction force points against the velocity. |
| Friction.MovingBallOpposed | src/Game.cpp:461-481 | A ball that gets a friction force is moving, and the force has a strictly negative dot product with its velocity. |
| Friction.FrictionMagnitude | src/Game.cpp:479-480 | For a ball at or above the static threshold, the friction force has magnitude coefficient/mass whatever its speed. |
| Friction.FrictionNeverReverses | src/Game.cpp:479-490 | One frame of friction scales a moving ball's velocity by a factor strictly between 0 and 1. It slows the ball but never reverses it. |
| Friction.Snap | src/Game.cpp:461-468 | A ball below the static threshold stops dead. Any other ball is unchanged. |
| Friction.FrictionStage | src/Game.cpp:459-482 | Each ball is snapped independently, forces are only appended, and every new force names an existing ball and lasts one frame. |
| Friction.FrictionForcesExactly | src/Game.cpp:459-482 | A friction force is produced exactly when it is the opposing force of a ball at or above the threshold. |
| Friction.FrictionTargetsIncrease | src/Game.cpp:459-482 | Friction forces come in ball order, at most one per ball. |
| Integration.ApplyForce | src/Game.cpp:486-490 | A force changes only its target's velocity, by force/mass. |
| Integration.Integrate | src/Game.cpp:484-491 | Each ball's velocity grows by the sum of the forces naming it, divided by the mass. Positions and identities are kept. |
| Integration.UntargetedKeepsVelocity | src/Game.cpp:484-491 | A ball that no force names is untouched by integration. |
| Integration.IntegrateMomentum | src/Game.cpp:484-491 | The total velocity grows by the total force divided by the mass. |
| Integration.CollisionsConserveMomentum | src/Game.cpp:382-491 | Integrating one frame's collision forces leaves the total velocity (momentum, equal masses) unchanged. |
| Integration.Advance | src/Game.cpp:493-496 | Each ball moves by 1000 · deltaTime · velocity, and velocities are kept. |
| Integration.AdvanceAdditive | src/Game.cpp:493-496 | Two position updates in a row equal one update over the summed time, so where a ball ends up depends only on the total time elapsed. |
| Expiry.Decrement | src/Game.cpp:498-502 | Every force's duration drops by deltaTime, and nothing else changes. |
| Expiry.RemoveExpired | src/Game.cpp:503-507 | The remove_if never grows the list, and every force it keeps has a non-negative duration. |
| Expiry.RemoveExpiredMembers | src/Game.cpp:503-507 | The forces kept are exactly those whose duration is not negative. |
| Expiry.RemoveExpiredConcat | src/Game.cpp:503-507 | Removal works element by element: filtering a concatenation filters each part. |
| Expiry.RemoveExpiredIdempotent | src/Game.cpp:503-507 | Filtering twice is the same as filtering once. |
| Expiry.EraseExpired | src/Game.cpp:503-507 | The in-place remove_if/erase compaction yields the filtered list, in order. |
| Expiry.ExpireStage | src/Game.cpp:498-507 | The expiry stage never grows the list, and every force it keeps is still alive. |
| Expiry.ExpireStageMembers | src/Game.cpp:498-507 | A force survives exactly when its decremented duration is non-negative. |
| Expiry.OneFrameForcesExpire | src/Game.cpp:498-507 | When time has advanced, every one-frame force is gone after the step. |
| Physics.SimulatePhysics | src/Game.cpp:377-512 | The physics step keeps the ball count, the identities and the other fields. It stores the new time, keeps every force naming an existing ball, and leaves no force when all forces were one-frame forces and time advanced. |
| Physics.PhysicsIgnoresRunning | src/Game.cpp:377-512 | The physics step does not depend on the running flag. |
| Physics.RestingImpactsVanish | src/Game.cpp:401 | When every ball is at rest, every collision force is the zero vector. |
| Physics.AtRestStaysAtRest | src/Game.cpp:377-512 | A table at rest with no forces stays exactly as it is, except that the step's time is updated. |
| Input.Reset | src/Game.cpp:554-560 | R clears the forces and re-racks: sixteen balls at rest in enum order, with the cue ball at (220, 300). |
| Input.FreezeIdempotent | src/Game.cpp:562-570 | Freezing a frozen table changes nothing. |
| Input.ResetForgetsHistory | src/Game.cpp:554-560 | A reset does not depend on the balls or forces before it, and resetting twice is resetting once. |
| Input.Freeze | src/Game.cpp:562-570 | F zeroes every velocity and clears the forces, keeping every position and identity. |
| Input.ShotForce | src/Game.cpp:583-587 | The shot force, scaled back by multiplier · power and laid off from the cue ball's centre, reaches the click. A zero shot power gives no force. |
| Input.ShotTowardClick | src/Game.cpp:579-591 | The shot force is a non-negative multiple of the vector from the cue ball to the click, and points strictly toward it when the power and distance are non-zero. |
| Input.Shoot | src/Game.cpp:579-592 | A left click appends exactly one force: on the cue ball (index 0), with duration 0, sized by the current shot power. Nothing else changes. |
| Input.HandleKeyPress | src/Game.cpp:544-573 | Escape only stops the game, R re-racks, F freezes, and any other key changes nothing. No key changes the shot power or the clocks, and only Escape changes the running flag. |
| Input.HandleMouseClick | src/Game.cpp:575-600 | A left click shoots, a right click only stops the game, and any other button changes nothing. |
| Input.HandleEvent | src/Game.cpp:514-542 | A quit event only stops the game, and an unknown event changes nothing. Every event keeps force targets valid, one-frame forces, rack order and the clocks. |
| Input.HandleInput | src/Game.cpp:514-542 | After draining the queue, the game runs exactly when it was running and no quit request was among the events. |
| Input.HandleInputConcat | src/Game.cpp:517-541 | Handling two batches in turn is handling their concatenation. |
| Input.QuitOnlyClearsFlag | src/Game.cpp:517-541 | A quit request in a batch does not stop the events after it from being handled. It only clears the running flag. |
| Frame.ShotPower | src/Game.cpp:373 | The shot power lies in [0, 1] wherever sin is bounded. It is 0 exactly at a sine trough and 1 exactly at a sine crest. |
| Frame.SimulateFrame | src/Game.cpp:364-375 | A frame advances the clock by 0.001, handles the events, brings the physics time up to the clock, and recomputes the shot power from the new time. |
| Frame.Start | src/Game.cpp:603-611 | The loop starts running from a valid state, with the cue ball at rest on its spot. |
| Frame.FramePreservesValid | src/Game.cpp:364-375 | Between frames there are sixteen balls in enum order, no leftover force, the physics caught up with the clock, and a shot power in [0, 1]. Every frame keeps this. |
| Frame.FrozenTableStaysPut | src/Game.cpp:562-570 | After F the next physics step leaves every ball where it is and leaves no force, for any length function that gives the zero vector length zero. |
| Frame.QuitStillTicks | src/Game.cpp:364-375 | A quit request still lets the rest of its frame run, physics included. |
| Frame.Run | src/Game.cpp:611-622 | The loop's clock never goes back, and the game is still running exactly when no frame contained a quit request. |
| Frame.RunStopsAtQuit | src/Game.cpp:611-622 | The loop ends with the first frame that contains a quit request. |
| Frame.RunPreservesValid | src/Game.cpp:611-622 | Every state the loop reaches is valid, with the cue ball first. |

## Left out

- Floating point: every `float` is a Dafny `real`, so rounding is not modelled. In particular, the float32 clock at src/Game.cpp:366-367 is not modelled. Stepping by 0.001 in float32 moves it by multiples of 2^-9 once it passes 16384, and it stops moving near 32768. From then on deltaTime at src/Game.cpp:380 is 0, forces of duration 0 are never below 0 at src/Game.cpp:505, and the force list grows every frame.
- Frame.FramePreservesValid: holds over the reals only. With the float32 clock it fails once the clock stalls (see the line above).
- Frame.RunPreservesValid: holds over the reals only, for the same reason.
- `glm::length` and `std::sin` are the parameters `len` and `sin`. Only the lemmas that need a true length or a bounded sine require `IsLength` or `IsSineBounded`. The resting-table lemmas need only `len(Zero) == 0` (Physics.ZeroHasNoLength derives this from `IsLength`). The operations accept any `len` and `sin`.
- Physics.SimulatePhysics: states the shape of the step (counts, identities, targets, expiry). What happens to each ball is stated by the stage members and by Physics.AtRestStaysAtRest.
- Ball textures: the `SDL_Texture*` handle in a ball is its `sprite: BallType`, the type whose texture it is. The colour table of `createTextures` is not modelled.
- Failure paths: the `SDL_CreateTexture` and `SDL_UpdateTexture` failures in `createBallTexture`, and the failure path of `createTextures`/`initGame`, are SDL resource failures and are not modelled. `Frame.Start` assumes initialisation succeeds.
- Ball pointers: `Ball*` in a force is a `nat` index into the ball sequence. The index never changes within a frame; a reset clears the forces together with the balls.
- Event polling: `SDL_PollEvent` is replaced by a `seq<Event>` per frame. Events other than window close, key down and mouse button down are `OtherEvent`.
- Rendering: `renderFrame`, the render calls and `SDL_Delay` in `start`, `printHelp`, `setupSDL`, `teardownSDL`, `teardownGame`, and the destructor have no effect on the simulated state and are not modelled. `src/main.cpp` is not part of this model.
- The `Ball` and `BallForce` constructors are the datatype constructors.
- Durations: collision, friction and shot forces are created with duration 0.0, which src/Game.hpp:49 documents as lasting one frame; the model does the same.
- Rack rows: each row shifts up by half a diameter (17.5), while the spacing between balls in a row is 1.1 diameters (38.5), as the code has it.

## Findings

| source | as written | input that shows it | evidently intended | confidence | as-written member | corrected member |
|---|---|---|---|---|---|---|
| src/Game.cpp:65-81 | The right stripe area is the columns strictly greater than diameter − stripe width (x > 24). The left area is x < 11. | A striped ball at column 10 against its mirror column 24, both inside the rim: column 10 is white and column 24 has the ball's colour. | Stripes of equal width on both sides (x ≥ 24), so a striped ball is left-right symmetric like a plain one. | medium, not executed | Texture.StripeAreasAsymmetric | Texture.SymmetricPixelMirrors |
