# TLSA.Engine core, modelled in Dafny

This project models the parts of the TLSA.Engine XNA game engine that run
without a GPU, a device or a clock:

- **Box physics.**
  - `World.Update`: active bodies, gravity, force, force decay, collision callbacks and the penetration response.
  - `Body`: the centre accessors, the ground sensor, the size setter and `ApplyForce`.
  - The candidate filter and nearest-crossing choice of `RayTracer`.
  - The blast of `Explosion`.
  - The integer helpers of `MathTools`.
- **Scene lifecycle.**
  - `Entity` and its comparators.
  - `Stage`: add, find, remove, clear, the priority-ordered update pass with kill removal, and the z-ordered draw pass.
  - `StateMachine.ChangeState` and the rest of the state machine.
  - The `MessageQueue` FIFO delivery by tag.
  - The `VarList` string-keyed map.
- **Small state machines.** `AnimationManager`, the rising-edge latch of `InputMap.Hit` over `Press`/`Release`, and the one-second rollover of `FPSCounter`.
- **Data helpers.** `SerializableDictionary` (the dictionary/list proxy and its round trip) and `Helper` (swap and point conversions).

The XNA and C# semantics the engine relies on are written out in module
`Xna`:
- `Vector2` is a pair of reals.
- `Rectangle.Intersects` is strict.
- `Rectangle.Intersect` returns `Empty` when there is no overlap.
- `Contains` is half-open.
- `Center` is `X + Width / 2`.
- The `(int)` cast truncates toward zero.
- `int / 2` truncates.

Module `Sorting` is LINQ's `Where` and the stable `OrderByDescending`. The
lemmas about it give the sortedness, the permutation, the stability and
the meaning of `Last()` after the sort.

The classes (`World`, `Body`, `Stage`, `Entity`, `StateMachine`,
`MessageQueue`, `AnimationManager`, `InputMap`, `FPSCounter`, `VarList`,
`SerializableDictionary`, `RayTracer`, `Explosion`) hold the engine's
fields and change them in place. Each method that does real work is proved
equal to a value-level function over the states of the objects involved,
and the engine's promises are proved as lemmas about those functions.

Callbacks and virtual hooks are recorded rather than run:
- physics callbacks become an `Event` list;
- `OnHit` becomes a `HitEvent` list;
- state hooks become a `Call` list;
- the `ReciveMessage` calls become a `Delivery` list.

Hooks have no effect except in two modelled places:
- an entity's `Update` may kill entities of its stage, given as data;
- a message receiver may send replies, given as a function.

Floating-point geometry is the uninterpreted `FloatOps` record passed to the
operations that use it: `GetAngle`, `Move`, `IntersectLines` and
`Vector2.Distance`. Timestamps, the game clock and device states are
parameters.

Where a doc comment and the code disagree, the model follows the code:
- `Stage.FindByName` returns the named entity with the earliest
  `CreationTime`, the last such in list order (`Scene/Stage.cs:77`). The
  comment at `Scene/Stage.cs:88` says the last one added.
- `MessageQueue.Process` aliases its two queues (`Scene/MessageQueue.cs:56`).
  So a reply sent during `Process` is delivered by the same call.
- Force decay has no clamp at zero (`Physics/V1Engine/World.cs:96-99`).

## Model

| member | source | states |
|---|---|---|
| Xna.Trunc | Physics/V1Engine/Body.cs:57 | the C# `(int)` cast of a float truncates toward zero: the result is within one unit of the value, on its side of zero |
| Xna.Half | Physics/V1Engine/Body.cs:57 | C# `int / 2` truncates, so the remainder has the sign of the dividend |
| Xna.Intersect | Physics/V1Engine/World.cs:128-131 | `Rectangle.Intersect` is non-empty exactly when both rectangles have positive size and overlap strictly; if so, it is their common part |
| MathTools.PointInRectNonNegative | Tools/MathTools.cs:61-64 | for non-negative coordinates, `PointInRect` is the half-open test `X <= px < X+Width`, `Y <= py < Y+Height` |
| MathTools.PointInRectTruncatesTowardZero | Tools/MathTools.cs:61-64 | for a rectangle with its corner at the origin, a point is inside if and only if the rectangle has positive size and -1 < x < Width and -1 < y < Height: the truncating cast folds the strip less than one unit left of or above the origin onto row and column 0 |
| MathTools.PointInRectCorners | Tools/MathTools.cs:61-64 | for a positive-size rectangle, the top-left corner is inside and (Right, Bottom) is outside |
| MathTools.PointInRectDegenerate | Tools/MathTools.cs:61-64 | a rectangle with zero or negative width or height contains no point |
| MathTools.Percent | Tools/MathTools.cs:146-149 | defined exactly for a non-zero range; the result times the range is value times 100 |
| MathTools.PercentBounds | Tools/MathTools.cs:146-149 | `Percent(0, r)` is 0 and `Percent(r, r)` is 100 for r other than 0 |
| MathTools.PercentLinear | Tools/MathTools.cs:146-149 | for a fixed non-zero range, `Percent` is linear in its value |
| Helper.Swap | Tools/Helper.cs:20-23 | the two `ref` arguments come back exchanged |
| Helper.SwapTwice | Tools/Helper.cs:20-23 | two swaps give back the original values |
| Helper.PointToVector2 | Tools/Helper.cs:30-33 | the vector has the point's exact whole-number coordinates |
| Helper.Vector2ToPoint | Tools/Helper.cs:40-43 | each coordinate truncates toward zero, both for non-negative and for negative values |
| Helper.PointRoundTrip | Tools/Helper.cs:30-43 | `Vector2ToPoint(PointToVector2(p)) == p` |
| Helper.VectorRoundTrip | Tools/Helper.cs:30-43 | a vector survives the trip through `Point` if and only if both components are whole numbers |
| FpsCounter.FramesCount | Tools/FPSCounter.cs:27-31 | n calls of `GetFPS` add exactly n to the frame counter and change nothing else |
| FpsCounter.RateIsFramesSinceRollover | Tools/FPSCounter.cs:15-31 | at a rollover the rate becomes the number of `GetFPS` calls since the last reset, the counter restarts at 0 and exactly one second is subtracted |
| FpsCounter.NoRolloverKeepsRate | Tools/FPSCounter.cs:15-25 | when the accumulator does not exceed one second, only the accumulator changes |
| FpsCounter.ElapsedStaysBounded | Tools/FPSCounter.cs:17-21 | frame times of at most one second keep the accumulator within [0, 1 s] |
| FpsCounter.ElapsedLagsAfterLongFrame | Tools/FPSCounter.cs:17-21 | one subtraction per call: after a frame longer than two seconds the accumulator is still above one second |
| FpsCounter.FPSCounter.constructor | Tools/FPSCounter.cs:11-13 | a new counter has rate 0, counter 0 and elapsed 0 |
| FpsCounter.FPSCounter.Update | Tools/FPSCounter.cs:15-25 | the new fields are the `Tick` of the old ones with the frame's elapsed time |
| FpsCounter.FPSCounter.GetFPS | Tools/FPSCounter.cs:27-31 | returns the rate from before the call and counts one more frame |
| VarList.VarList.constructor | Scene/VarList.cs:17-20 | a new list is empty |
| VarList.VarList.Create | Scene/VarList.cs:27-30 | adds a new name; fails on an existing one and changes nothing then |
| VarList.VarList.Delete | Scene/VarList.cs:36-39 | removes only that name; an absent name is a no-op |
| VarList.VarList.Get | Scene/VarList.cs:48 | a present name reads its value; a missing name fails |
| VarList.VarList.Set | Scene/VarList.cs:49 | inserts or overwrites the name, and every other name is unchanged |
| VarList.VarList.Clear | Scene/VarList.cs:55-58 | the list becomes empty |
| VarList.CreateThenGet | Scene/VarList.cs:27-49 | after `Create(n, v)` reading n gives v (or the old value when n existed and creation failed); other names keep their values or stay missing |
| Animation.UpdateStep | Graphics/Animation.cs:157-179 | an advancing update moves exactly one frame; at `Frames` a looping sequence wraps to 0 and a non-looping one stays on the last frame and ends; the draw rectangle's X is frame*Width + FirstFrame.X and its other fields are unchanged; the time is recorded |
| Animation.UpdateIdle | Graphics/Animation.cs:159 | when ended, paused or too early, `Update` changes nothing |
| Animation.UpdateKeepsFrameInRange | Graphics/Animation.cs:157-179 | with Frames >= 1, `Update` keeps the frame in [0, Frames) |
| Animation.ZeroFramesRunOn | Graphics/Animation.cs:162-163 | a sequence with no frames never meets `currentFrame == Frames`, so the frame index grows without end |
| Animation.SetFrameIndexClamps | Graphics/Animation.cs:61-68 | the setter clamps into [0, Frames-1] and keeps an index already in range; with no frames it yields -1 for any non-negative value |
| Animation.PlayEffect | Graphics/Animation.cs:105-119 | `Play` of a non-looping sequence, or of a looping one that is not current, sets current, frame 0, drawFrame = FirstFrame, not paused and not ended; re-playing the current looping sequence changes nothing |
| Animation.PlayKeepsFrameInRange | Graphics/Animation.cs:105-119 | `Play` keeps the frame in range |
| Animation.PauseStopKeepFrameInRange | Graphics/Animation.cs:122-136 | `Pause` and `Stop` keep the frame in range, and two `Pause` calls cancel out |
| Animation.RunToEnd | Graphics/Animation.cs:157-179 | a running non-looping sequence updated at spaced times ends on its last frame after exactly Frames - frame updates |
| Animation.AnimationManager.constructor | Graphics/Animation.cs:89-98 | a new manager has no sequences, frame 0, is not paused and is ended |
| Animation.AnimationManager.AddSecuence | Graphics/Animation.cs:148-151 | stores the sequence under its key; a duplicate key fails and changes nothing |
| Animation.AnimationManager.Play | Graphics/Animation.cs:105-119 | the new state is `AfterPlay`; a missing name fails and leaves the state unchanged |
| Animation.AnimationManager.Pause | Graphics/Animation.cs:122-125 | toggles the paused flag |
| Animation.AnimationManager.Stop | Graphics/Animation.cs:130-136 | sets frame 0, drawFrame = FirstFrame, paused and ended |
| Animation.AnimationManager.SetCurrentFrameIndex | Graphics/Animation.cs:61-68 | the new state is the clamped index |
| Animation.AnimationManager.Update | Graphics/Animation.cs:157-179 | the new state is `AfterUpdate` at the given time |
| SerializableDictionary.LoadSucceeds | Tools/XML/SerializableDictionary.cs:111-115 | adding the pairs in turn succeeds if and only if their keys are distinct and new; then the map holds the old entries and every pair |
| SerializableDictionary.LoadFails | Tools/XML/SerializableDictionary.cs:111-115 | the only way loading can fail is a duplicate key |
| SerializableDictionary.RepeatedKeyFails | Tools/XML/SerializableDictionary.cs:111-183 | a list with a repeated key can be neither rebuilt nor turned into a dictionary |
| SerializableDictionary.RoundTrip | Tools/XML/SerializableDictionary.cs:109-173 | the pairs of any enumeration of a map, loaded into an empty dictionary, give back exactly that map |
| SerializableDictionary.Enumerate | Tools/XML/SerializableDictionary.cs:167-170 | the list holds every entry of the dictionary exactly once |
| SerializableDictionary.SerializeRoundTrip | Tools/XML/SerializableDictionary.cs:109-173 | feeding `KeysAndValues` of a non-empty dictionary into a fresh instance rebuilds the same map |
| SerializableDictionary.SerializableDictionary.constructor | Tools/XML/SerializableDictionary.cs:32-35 | a new instance has an empty dictionary and an empty list |
| SerializableDictionary.SerializableDictionary.Add | Tools/XML/SerializableDictionary.cs:44-56 | inserts the pair; a duplicate key fails and changes nothing |
| SerializableDictionary.SerializableDictionary.Remove | Tools/XML/SerializableDictionary.cs:62-65 | deletes the key; an absent key is a no-op |
| SerializableDictionary.SerializableDictionary.RemovePair | Tools/XML/SerializableDictionary.cs:71-74 | deletes the key only when it maps to that value |
| SerializableDictionary.SerializableDictionary.Rebuild | Tools/XML/SerializableDictionary.cs:109-116 | with an empty dictionary and a non-empty list, all list pairs are added in order; otherwise nothing changes |
| SerializableDictionary.SerializableDictionary.Count | Tools/XML/SerializableDictionary.cs:101-116 | rebuilds, then gives the size of the map; a failed rebuild propagates |
| SerializableDictionary.SerializableDictionary.Get | Tools/XML/SerializableDictionary.cs:95-116 | rebuilds, then reads the key; a missing key fails |
| SerializableDictionary.SerializableDictionary.KeysAndValuesLists | Tools/XML/SerializableDictionary.cs:80-116 | rebuilds, then lists the keys and the matching values in one enumeration of the map |
| SerializableDictionary.SerializableDictionary.KeysAndValues | Tools/XML/SerializableDictionary.cs:150-174 | a non-empty dictionary replaces the list by its entries; an empty one leaves the list unchanged |
| SerializableDictionary.SerializableDictionary.ToDictionary | Tools/XML/SerializableDictionary.cs:181-184 | the map of the `KeysAndValues` pairs: the dictionary itself when non-empty, otherwise the map of the list (a repeated key fails) |
| InputMapper.NewAction | Input/InputMapper.cs:39-47 | a new action has its bindings and a clear latch |
| InputMapper.HitStepIsRisingEdge | Input/InputMapper.cs:245-258 | one `Hit` step returns true if and only if the action is pressed and the latch was clear; the new latch equals the press state |
| InputMapper.Hits | Input/InputMapper.cs:243-259 | the results of `Hit` over a sequence of press states have one entry per frame |
| InputMapper.HitsAreRisingEdges | Input/InputMapper.cs:243-259 | over a sequence of frames, `Hit` is true exactly on the frames where the press state rises from false (or from the initial latch) |
| InputMapper.HeldHitsOnce | Input/InputMapper.cs:242-252 | while an action stays pressed, `Hit` returns true once and then false |
| InputMapper.KeyboardReleaseMirrorsPress | Input/InputMapper.cs:170-231 | with a key or a mouse button bound, keyboard/mouse `Release` is the negation of `Press` |
| InputMapper.PadReleaseMirrorsPress | Input/InputMapper.cs:202-233 | for a non-thumbstick gamepad button, `Release` is the negation of `Press` |
| InputMapper.ThumbstickNeitherPressedNorReleased | Input/InputMapper.cs:186-233 | a thumbstick direction that is held but not pushed past half its travel is neither pressed nor released |
| InputMapper.InputMap.constructor | Input/InputMapper.cs:106-112 | a new map is enabled, has no actions and reads the given device |
| InputMapper.InputMap.Update | Input/InputMapper.cs:118-128 | an enabled map captures the new device snapshot; a disabled one keeps the old one |
| InputMapper.InputMap.Press | Input/InputMapper.cs:165-206 | an unknown action fails; otherwise the keyboard/mouse or gamepad decision on the stored snapshot |
| InputMapper.InputMap.Release | Input/InputMapper.cs:213-236 | an unknown action fails; otherwise the key-up/button-released decision |
| InputMapper.InputMap.Hit | Input/InputMapper.cs:243-259 | returns pressed-and-latch-clear, sets only this action's latch to the press state, and propagates a failed `Press` |
| PhysicsBody.WithLocationThenLocation | Physics/V1Engine/Body.cs:50-96 | after setting `Location` to v, reading it gives (trunc v.X, trunc v.Y); the size is kept, `lastLocation` is the old centre, and `DirectionVector` is the step between them |
| PhysicsBody.WithOwnLocation | Physics/V1Engine/Body.cs:52-58 | setting `Location` to its current value leaves `Bounds` unchanged |
| PhysicsBody.WithLocationShift | Physics/V1Engine/Body.cs:52-58 | shifting the centre by whole numbers (dx, dy) shifts X and Y by exactly (dx, dy) |
| PhysicsBody.SensorTouchesFloorOnly | Physics/V1Engine/Body.cs:44-101 | the sensor is (Left+8, Bottom, Width-16, 1); it never overlaps the body itself and overlaps every floor whose top is the body's bottom and that spans part of its columns |
| PhysicsBody.WithSizeKeepsCorner | Physics/V1Engine/Body.cs:103-110 | the `Size` setter keeps X, Y and every other field and sets each size component to the given one truncated toward zero; reading `Size` back gives the assigned vector exactly when it is whole, and assigning a body its own `Size` changes nothing |
| PhysicsBody.Body.constructor | Physics/V1Engine/Body.cs:130-143 | a new body is enabled and fixed, not a trigger, with zero weight, zero force, Z 0, no ZDiscard and empty bounds |
| PhysicsBody.Body.WithBounds | Physics/V1Engine/Body.cs:145-156 | as the base constructor, with the given bounds, weight and fixed flag |
| PhysicsBody.Body.WithZ | Physics/V1Engine/Body.cs:158-162 | as `WithBounds`, with the given Z |
| PhysicsBody.Body.WithZDiscard | Physics/V1Engine/Body.cs:164-168 | as `WithBounds`, with the given ZDiscard |
| PhysicsBody.Body.SetLocation | Physics/V1Engine/Body.cs:53-59 | the new state is `WithLocation` of the old one |
| PhysicsBody.Body.SetSize | Physics/V1Engine/Body.cs:106-109 | the new state is `WithSize` of the old one |
| PhysicsBody.Body.ApplyForce | Physics/V1Engine/Body.cs:212-215 | the force is overwritten, not added to; nothing else changes |
| PhysicsBody.Body.ApplyForceToward | Physics/V1Engine/Body.cs:222-226 | the force becomes Location minus `Move(Location, (int)force, direction)` |
| PhysicsWorld.ActivesUpTo | Physics/V1Engine/World.cs:50-81 | the active indices are exactly the bodies that are enabled and intersect `WorkArea` |
| PhysicsWorld.ActivesInOrder | Physics/V1Engine/World.cs:81 | the active indices keep the order of the body list |
| PhysicsWorld.SensorHitExists | Physics/V1Engine/World.cs:63-70 | `SensorCollide` holds if and only if some other active non-trigger body overlaps the sensor |
| PhysicsWorld.PartnersUpTo | Physics/V1Engine/World.cs:55-103 | every partner is an active body with a different Id whose bounds intersect the moved body's bounds |
| PhysicsWorld.PartnersUpToComplete | Physics/V1Engine/World.cs:55-103 | every one of the scanned actives that collides with the checked body is a partner, and over an increasing active list the partners are increasing, so each appears once and in list order |
| PhysicsWorld.PartnersExactly | Physics/V1Engine/World.cs:55-103 | a body is a partner of active body i if and only if it is active, has a different Id and overlaps it; the partners are in list order, each once |
| PhysicsWorld.PairsFrame | Physics/V1Engine/World.cs:106-115 | the responses to all partners change only the checked body, and only its bounds, last location and force; a fixed body or a trigger keeps its bounds |
| PhysicsWorld.RespondKeeps | Physics/V1Engine/World.cs:121-181 | `ResponseCollision` changes only bounds, last location and force, and never moves a fixed body or a trigger |
| PhysicsWorld.RespondNoOp | Physics/V1Engine/World.cs:123-134 | no effect when the rectangles do not overlap, when b is a trigger, or when Z differs and b does not discard it |
| PhysicsWorld.RespondMoves | Physics/V1Engine/World.cs:136-175 | a movable body is moved by exactly the integer shift and keeps its size |
| PhysicsWorld.RespondPushesOut | Physics/V1Engine/World.cs:136-175 | the body keeps its size; a flat overlap that covers its top edge, or only its bottom edge, moves it vertically by the overlap height, and a tall one covering its left or only its right edge horizontally by the overlap width; when b does not also reach past the far side, the body ends up out of b |
| PhysicsWorld.RespondFlat | Physics/V1Engine/World.cs:136-175 | a flat overlap moves a movable body only vertically: by +height when it covers the top edge, else by -height when it covers the bottom edge, and not at all exactly when it covers neither |
| PhysicsWorld.RespondTall | Physics/V1Engine/World.cs:143-175 | a tall overlap moves a movable body only horizontally: by +width when it covers the left edge, else by -width when it covers the right edge, and not at all exactly when it covers neither |
| PhysicsWorld.RespondSquare | Physics/V1Engine/World.cs:150-175 | a square overlap moves a movable body by the sum of one diagonal push of the overlap size per corner of the body inside b, so opposite contributions cancel |
| PhysicsWorld.ShiftFlat | Physics/V1Engine/World.cs:136-142 | for a flat overlap the shift is vertical only: +height, -height, or 0 exactly when the overlap covers neither the top nor the bottom edge |
| PhysicsWorld.ShiftTall | Physics/V1Engine/World.cs:143-149 | for a tall overlap the shift is horizontal only: +width, -width, or 0 exactly when the overlap covers neither the left nor the right edge |
| PhysicsWorld.ShiftSquare | Physics/V1Engine/World.cs:150-172 | for a square overlap the shift is the sum of the four corner tests, each adding (+-width, +-height) toward the inside of the body |
| PhysicsWorld.RespondLands | Physics/V1Engine/World.cs:136-177 | a movable body sunk into a floor from above is lifted onto it, and its vertical force becomes 0 while the horizontal force is kept |
| PhysicsWorld.DecayHalfUnit | Physics/V1Engine/World.cs:96-99 | each non-zero component moves 0.5 toward zero without a clamp: a component strictly between -0.5 and 0.5 flips sign, and 0 stays 0 |
| PhysicsWorld.IntegratedShift | Physics/V1Engine/World.cs:87-93 | a fixed body or a trigger does not move; a movable body keeps its size, and its centre becomes trunc(centre + force) when its sensor is blocked, and otherwise trunc(trunc(centre + gravity*abs(weight)) + force), component by component; with a whole-number gravity step and force the corner moves by exactly their sum, or by the force alone |
| PhysicsWorld.StepWorldKeepsIdentity | Physics/V1Engine/World.cs:76-118 | `Update` changes only bounds, last location and force of any body |
| PhysicsWorld.StepWorldLeavesInactive | Physics/V1Engine/World.cs:50-81 | a disabled world does nothing; a body that is disabled or outside `WorkArea` keeps its whole state |
| PhysicsWorld.StepWorldFixedStayPut | Physics/V1Engine/World.cs:87-175 | fixed bodies and triggers keep their bounds through `Update` |
| PhysicsWorld.PairsEvents | Physics/V1Engine/World.cs:106-115 | the callbacks for a body name it as the receiver and one of its partners as the other side |
| PhysicsWorld.StepWorldEvents | Physics/V1Engine/World.cs:56-114 | every callback of `Update` goes from an active body to a different active body |
| PhysicsWorld.World.constructor | Physics/V1Engine/World.cs:40-47 | gravity and work area as given, no bodies, enabled and not visible |
| PhysicsWorld.World.AddBody | Physics/V1Engine/World.cs:36 | `Bodies.Add` appends and keeps every body in the list once |
| PhysicsWorld.World.GetActives | Physics/V1Engine/World.cs:50-81 | the result is `Actives` of the states |
| PhysicsWorld.World.SensorCollide | Physics/V1Engine/World.cs:63-70 | the loop's result is `SensorHit` |
| PhysicsWorld.World.GetCollisions | Physics/V1Engine/World.cs:55-103 | the result is `Partners` of the checked body |
| PhysicsWorld.World.CorrectedLocation | Physics/V1Engine/World.cs:125-172 | the delta built step by step is the centre plus the `Shift` |
| PhysicsWorld.World.ResponseCollision | Physics/V1Engine/World.cs:121-181 | the new state is `Respond`, and a body paired with itself is unchanged |
| PhysicsWorld.World.Integrate | Physics/V1Engine/World.cs:87-93 | gravity and force as `Integrated` says |
| PhysicsWorld.World.Advance | Physics/V1Engine/World.cs:86-99 | gravity, force and decay for one active body; every other body is unchanged |
| PhysicsWorld.World.Collide | Physics/V1Engine/World.cs:108-114 | raises `EventFor` and then responds |
| PhysicsWorld.World.HandlePair | Physics/V1Engine/World.cs:106-115 | one partner: the callback, then only the checked body changes |
| PhysicsWorld.World.HandlePartners | Physics/V1Engine/World.cs:106-115 | the inner loop equals `PairsUpTo` over all partners |
| PhysicsWorld.World.StepActive | Physics/V1Engine/World.cs:84-116 | one outer iteration extends `RunUpTo` by one active body |
| PhysicsWorld.World.Update | Physics/V1Engine/World.cs:76-118 | the new states and the callbacks, in order, are `StepWorld` of the old states |
| PhysicsWorld.World.Dispose | Physics/V1Engine/World.cs:194-202 | the first call empties the body list; later calls do nothing |
| PhysicsRayTracer.RayAreaSize | Physics/V1Engine/RayTracer.cs:226-237 | the normalised ray area never has negative width or height; for (int)Direction 0 or 180 it is at least 2 tall, for 90 or 270 at least 2 wide |
| PhysicsRayTracer.RayAreaSymmetric | Physics/V1Engine/RayTracer.cs:226-227 | the area does not depend on the order of the two ends |
| PhysicsRayTracer.CandidatesUpTo | Physics/V1Engine/RayTracer.cs:241-248 | the candidate positions are positions of the body list |
| PhysicsRayTracer.CandidatesExactly | Physics/V1Engine/RayTracer.cs:241-248 | a body is a candidate if and only if it is not `SourceBody`, is enabled, is not a trigger, has a Z that is not discarded and overlaps the ray area |
| PhysicsRayTracer.CandidatesInOrder | Physics/V1Engine/RayTracer.cs:244 | the candidates keep the order of the body list |
| PhysicsRayTracer.LinesOf | Physics/V1Engine/RayTracer.cs:162-169 | four edges per candidate |
| PhysicsRayTracer.LinesLayout | Physics/V1Engine/RayTracer.cs:165-168 | the edges of candidate p are lines 4p..4p+3: top, left, right, bottom |
| PhysicsRayTracer.LinesBodies | Physics/V1Engine/RayTracer.cs:165-168 | every edge carries one of the candidates' bodies |
| PhysicsRayTracer.CrossingsOf | Physics/V1Engine/RayTracer.cs:172-178 | at most one crossing per edge |
| PhysicsRayTracer.CrossingsSound | Physics/V1Engine/RayTracer.cs:175-177 | each crossing is where the ray meets one of the edges, at `Vector2.Distance` from the source, carrying that edge's body |
| PhysicsRayTracer.CrossingsComplete | Physics/V1Engine/RayTracer.cs:175-177 | every edge the ray meets gives a crossing |
| PhysicsRayTracer.FirstNearestUnique | Physics/V1Engine/RayTracer.cs:183-185 | the kept crossing is unique: the first of least distance |
| PhysicsRayTracer.NearestIndex | Physics/V1Engine/RayTracer.cs:183-185 | the position of a crossing of least distance, before which every crossing is strictly farther |
| PhysicsRayTracer.Nearest | Physics/V1Engine/RayTracer.cs:183-185 | the strict-< loop finds the first nearest crossing |
| PhysicsRayTracer.RayTracer.constructor | Physics/V1Engine/RayTracer.cs:108-149 | world, source, radius and Z list as given; no source body; Hit and Direction zero |
| PhysicsRayTracer.RayTracer.ZDiscard | Physics/V1Engine/RayTracer.cs:211-217 | true if and only if the list is non-null and contains Z |
| PhysicsRayTracer.RayTracer.AreaOf | Physics/V1Engine/RayTracer.cs:224-237 | the swaps and the widening give `RayArea` |
| PhysicsRayTracer.RayTracer.ComputeRayArea | Physics/V1Engine/RayTracer.cs:220-238 | `Hit` becomes the far end `Move(Source, Radius, abs Direction)` and the area is `RayArea` of the two ends; the bodies are untouched |
| PhysicsRayTracer.RayTracer.GetBodiesInArea | Physics/V1Engine/RayTracer.cs:241-248 | the result is `Candidates` |
| PhysicsRayTracer.RayTracer.GetLines | Physics/V1Engine/RayTracer.cs:161-169 | the edge list is `LinesOf` the candidates |
| PhysicsRayTracer.RayTracer.GetCrossings | Physics/V1Engine/RayTracer.cs:172-178 | the crossing list is `CrossingsOf` the lines |
| PhysicsRayTracer.RayTracer.Probe | Physics/V1Engine/RayTracer.cs:161-223 | sets `Hit` to the far end and collects every crossing with an edge of a candidate |
| PhysicsRayTracer.RayTracer.Trace | Physics/V1Engine/RayTracer.cs:158-191 | with a crossing, `Hit` is the first nearest crossing point and its body is returned; with none, null is returned and `Hit` stays the far end |
| PhysicsRayTracer.TraceHitsCandidate | Physics/V1Engine/RayTracer.cs:181-245 | the body returned passes the candidate test |
| PhysicsRayTracer.TraceHitsWorld | Physics/V1Engine/RayTracer.cs:187 | the body returned is one of the world's bodies |
| PhysicsExplosion.ResponseFormula | Physics/V1Engine/Explosion.cs:86-93 | for Force > 0 the response is (Radius - distance)*100/Force, non-negative inside the radius and 0 at its edge; for Force <= 0 it is 0 |
| PhysicsExplosion.ResponseFallsOff | Physics/V1Engine/Explosion.cs:88 | a closer body never gets a weaker push |
| PhysicsExplosion.BlastUpTo | Physics/V1Engine/Explosion.cs:68-100 | the visit keeps the number of bodies |
| PhysicsExplosion.BlastStep | Physics/V1Engine/Explosion.cs:68-100 | visiting body k replaces only its state |
| PhysicsExplosion.BlastChangesOnlyForces | Physics/V1Engine/Explosion.cs:70-93 | only forces change, and only for bodies reached with Force > 0; each new force is `ApplyForce(response, direction)` |
| PhysicsExplosion.NoForceNoPush | Physics/V1Engine/Explosion.cs:93 | with Force <= 0 no body changes |
| PhysicsExplosion.HitsSound | Physics/V1Engine/Explosion.cs:73-96 | each `OnHit` is for a reached body with a handler and carries its response and direction; bodies come in list order, each at most once |
| PhysicsExplosion.HitsReachAll | Physics/V1Engine/Explosion.cs:70-96 | every reached body with a handler gets an `OnHit`, whether or not force was applied |
| PhysicsExplosion.HitsExactly | Physics/V1Engine/Explosion.cs:62-96 | a body gets an `OnHit` if and only if it is enabled, not fixed, not a trigger, within the radius and has a handler; nothing checks occlusion |
| PhysicsExplosion.Explosion.constructor | Physics/V1Engine/Explosion.cs:39-42 | bound to the world, with the other properties at their defaults |
| PhysicsExplosion.Explosion.WithParams | Physics/V1Engine/Explosion.cs:44-50 | location, radius and force as given |
| PhysicsExplosion.Explosion.BlastBody | Physics/V1Engine/Explosion.cs:68-99 | one iteration: body k gets `Blasted` and the `OnHit` of `HitOf`, and no other body changes |
| PhysicsExplosion.Explosion.Explode | Physics/V1Engine/Explosion.cs:56-101 | the new states are `BlastUpTo` of all bodies and the hits are `HitsUpTo` |
| Sorting.Filter | Scene/Stage.cs:140 | `Where` keeps at most the elements it is given |
| Sorting.FilterIn | Scene/Stage.cs:140 | an element is in `Where(p)` if and only if it is in the input and satisfies p |
| Sorting.SortDesc | Scene/Stage.cs:140-171 | `OrderByDescending` is a permutation of its input |
| Sorting.SortDescSorted | Scene/Stage.cs:140-171 | the output is sorted by descending key |
| Sorting.SortDescStable | Scene/Stage.cs:140-171 | the sort is stable: the elements of each key keep their input order |
| Sorting.SortDescFilter | Scene/Stage.cs:77 | filtering the sorted sequence is sorting the filtered sequence |
| Sorting.LastOfSortDesc | Scene/Stage.cs:77 | the last element of the sort is the last, in input order, of the elements with the smallest key |
| Scene.LifecycleSettles | Scene/Entity.cs:97-160 | terminating or killing twice is the same as once; a killed entity is dead and stays dead through `Terminate` |
| Scene.CompareDesc | Scene/Entity.cs:173 | -1, 0 or 1 exactly when the first key is greater, equal or smaller |
| Scene.CompareDescOrder | Scene/Entity.cs:173 | the comparison is antisymmetric and transitive |
| Scene.CompareTo | Scene/Entity.cs:170-174 | orders by descending Priority, 0 exactly on equal priorities |
| Scene.ByZOrder | Scene/Entity.cs:179-185 | orders by descending ZOrder, 0 exactly on equal ZOrders |
| Scene.ByPriority | Scene/Entity.cs:200-206 | orders by descending Priority, 0 exactly on equal priorities |
| Scene.ByCreationTime | Scene/Entity.cs:218-224 | orders by descending CreationTime, 0 exactly on equal times |
| Scene.ComparatorsAntisymmetric | Scene/Entity.cs:170-224 | each comparator is antisymmetric, and `CompareTo` agrees with `SortByPriority` |
| Scene.OrderedSpec | Scene/Stage.cs:140 | the `Where(p).OrderByDescending(key)` of list positions holds each position satisfying p once, sorted by descending key, with equal keys in list order |
| Scene.NamedSpec | Scene/Stage.cs:77 | the positions named `name` are exactly those whose Name is that string, in increasing order |
| Scene.LastOfMinSpec | Scene/Stage.cs:77 | `Last()` after the descending sort is a position of least key, and no later position has the same key |
| Scene.FoundAt | Scene/Stage.cs:77 | the selection, when present, is an entity with that name |
| Scene.FoundAtSpec | Scene/Stage.cs:73-83 | nothing is found if and only if no entity has the name; otherwise the named entity with the earliest CreationTime, and among equal times the one latest in the list |
| Scene.FoundAmongNamed | Scene/Stage.cs:77 | `OrderByDescending(...).Where(name).Last()` is the last minimum among the named positions |
| Scene.FoundNone | Scene/Stage.cs:73-83 | `FindByName` finds nothing if and only if no entity has that name |
| Scene.FoundEarliest | Scene/Stage.cs:77 | the entity found has the least CreationTime of the named ones, and every later named entity has a greater one |
| Scene.FiltersAgree | Scene/Stage.cs:181-231 | `GetEnabledAndDead` is `GetEnabled` or `GetDead`; a killed entity is dead and not enabled; killed and terminated entities are never drawn |
| Scene.DrawOrderSpec | Scene/Stage.cs:169-230 | `Draw` draws each visible on-screen entity exactly once, by descending ZOrder, with equal ZOrders in list order |
| Scene.SnapshotSpec | Scene/Stage.cs:140 | the update snapshot holds each enabled or killed entity once, by descending Priority, with equal priorities in list order |
| Scene.KillsUpToSpec | Scene/Entity.cs:154-160 | killing a list of entities kills exactly those on it |
| Scene.WithoutSpec | Scene/Stage.cs:150 | `Remove` takes out only that entry and keeps the order |
| Scene.WithoutAt | Scene/Stage.cs:150 | when the entry first occurs at k, `Remove` removes exactly position k |
| Scene.SweepStep | Scene/Stage.cs:141-153 | each turn of the pass visits the next snapshot entry, which is a position of the list |
| Scene.VisitAlive | Scene/Stage.cs:143-152 | a visit removes the visited entity if and only if it is dead after its hook, and keeps the order of the rest |
| Scene.HookKillsDead | Scene/Stage.cs:145 | an entity killed by an enabled entity's hook is dead afterwards |
| Scene.VisitKeepsDead | Scene/Stage.cs:143-152 | a visit never revives an entity that is already dead |
| Scene.AliveIff | Scene/Stage.cs:137-160 | after n turns the list holds, in original order, exactly the entities that were not dead at one of their turns |
| Scene.UpdateKeepsOrder | Scene/Stage.cs:137-160 | the pass keeps the original list order |
| Scene.UnvisitedStays | Scene/Stage.cs:140 | a disabled, unkilled entity is never removed |
| Scene.EnabledAtTurnStays | Scene/Stage.cs:143-146 | an entity enabled at its turn stays in the list even if its own hook kills it; it goes on the next pass |
| Scene.KilledEarlierIsRemoved | Scene/Stage.cs:143-152 | a snapshot entry killed by an entity visited earlier is removed in the same pass |
| Scene.UpdatedInPriorityOrder | Scene/Stage.cs:140-146 | hooks run only on snapshot entries, in descending Priority |
| Scene.UpdateResetsKilled | Scene/Stage.cs:156-160 | a pass leaves `killed` at 0 |
| Scene.Entity.constructor | Scene/Entity.cs:63-74 | a new entity is enabled and visible, with Priority 0, ZOrder 0, empty Tag, empty Bounds and Location zero |
| Scene.Entity.Initialize | Scene/Entity.cs:87-90 | sets `IsInitialized` only |
| Scene.Entity.Terminate | Scene/Entity.cs:97-108 | resets Bounds, Location, Priority, Tag and ZOrder; clears Enabled, Visible and `IsInitialized`; keeps `Killed` |
| Scene.Entity.GetBounds | Scene/Entity.cs:117-120 | returns `Bounds` |
| Scene.Entity.Kill | Scene/Entity.cs:154-160 | sets Killed and clears Enabled and Visible; `Father.killed` grows by exactly one, and without a Father the increment fails |
| Scene.Stage.constructor | Scene/Stage.cs:124-129 | an empty, enabled, visible stage |
| Scene.Stage.AddEntity | Scene/Stage.cs:65-71 | sets Name and Father, initializes, and appends; earlier entries are untouched |
| Scene.Stage.IndexOf | Scene/Stage.cs:150 | `List.IndexOf`: the first position of the entity, or -1 |
| Scene.Stage.FindByName | Scene/Stage.cs:73-83 | null exactly when `FoundAt` finds nothing, otherwise the entity it selects |
| Scene.Stage.RemoveEntityAt | Scene/Stage.cs:98-102 | terminates the entity at the index and removes only that position; an index outside the list fails |
| Scene.Stage.Detach | Scene/Stage.cs:101 | `Nodes.RemoveAt(k)` removes only position k |
| Scene.Stage.RemoveEntity | Scene/Stage.cs:89-92 | removes the entity `FindByName` selects; fails when no entity has the name |
| Scene.Stage.Clear | Scene/Stage.cs:108-119 | terminates every entity and leaves the list empty |
| Scene.Stage.Dispose | Scene/Stage.cs:238-241 | same as `Clear` |
| Scene.Stage.Draw | Scene/Stage.cs:167-177 | a hidden stage draws nothing; otherwise it draws the entities of `DrawOrder` |
| Scene.Stage.RunHook | Scene/Stage.cs:145 | the entity hook's kills make exactly those entities killed and raise the counter by their number |
| Scene.Stage.KillEntry | Scene/Stage.cs:145 | one kill: that entity's state becomes killed and the counter grows by one |
| Scene.Stage.Drop | Scene/Stage.cs:150 | removing a dead entry leaves the list as the original list without that position |
| Scene.Stage.RemoveDead | Scene/Stage.cs:147-152 | a dead entry is terminated and then removed from the list |
| Scene.Stage.VisitEntry | Scene/Stage.cs:143-152 | one snapshot entry: the hook if enabled, then removal if dead, as `Visit` says |
| Scene.Stage.VisitKeeps | Scene/Stage.cs:147-152 | visiting one entry removes no other entry |
| Scene.Stage.RunPass | Scene/Stage.cs:141-153 | the loop over the snapshot ends in the state `SweepAt` gives for the whole snapshot |
| Scene.Stage.Turn | Scene/Stage.cs:141-153 | one iteration extends `SweepAt` by one turn, and the later snapshot entries are still in the list |
| Scene.Stage.Update | Scene/Stage.cs:135-162 | a disabled stage does nothing; otherwise the entity states, the remaining list, the hooks run and the counter are those of `UpdatePass` |
| StateMachines.ChangeInOrder | Scene/StateMachine.cs:81-98 | `ChangeState` terminates the old state, clears the scene and unloads content, in that order and only then initializes the new state, never updating or drawing: the calls go in strictly increasing phase |
| StateMachines.ChangeTeardown | Scene/StateMachine.cs:84-90 | teardown happens if and only if there is a current state and it is registered, and it is the current state that is terminated |
| StateMachines.ChangeOutcome | Scene/StateMachine.cs:84-97 | success if and only if the old state (when set) and the new one are registered; then the new one is current and initialized last; an unregistered new state fails but is already current; an unregistered old state fails before anything happens |
| StateMachines.ReenterRestarts | Scene/StateMachine.cs:84-97 | re-entering the current state terminates it and initializes it again |
| StateMachines.TerminateAll | Scene/StateMachine.cs:123-124 | one `Terminate` per state |
| StateMachines.DisposeTerminatesEach | Scene/StateMachine.cs:121-125 | `Dispose` terminates every registered state exactly once and makes no other call |
| StateMachines.StateComponent.constructor | Scene/StateMachine.cs:17 | a new state is not initialized |
| StateMachines.StateMachine.constructor | Scene/StateMachine.cs:70-74 | an empty table and current state "" |
| StateMachines.StateMachine.Register | Scene/StateMachine.cs:63 | `States.Add` registers a new name and fails on a duplicate |
| StateMachines.StateMachine.ChangeState | Scene/StateMachine.cs:81-98 | the calls, current name and outcome of `ChangeOf`; the new state is initialized and the old one no longer is; on a teardown every entity of the old scene is terminated and the list emptied; the stage's kill counter and flags are kept |
| StateMachines.StateMachine.TearDown | Scene/StateMachine.cs:86-89 | terminates the current state and clears its flag, terminates every entity of the scene and empties it, keeping the stage's kill counter and flags, then unloads content |
| StateMachines.StateMachine.Lookup | Scene/StateMachine.cs:86 | the component registered under the name, or null |
| StateMachines.StateMachine.Update | Scene/StateMachine.cs:104-107 | the current state's `Update` runs only when the current name is non-empty and the state is initialized; an unregistered name fails |
| StateMachines.StateMachine.Draw | Scene/StateMachine.cs:113-116 | no empty-name guard: with no state set, "" is looked up and fails unless registered |
| StateMachines.StateMachine.Dispose | Scene/StateMachine.cs:121-125 | calls `Terminate` on every registered state in enumeration order |
| MessageQueues.AddresseesSpec | Scene/MessageQueue.cs:61-85 | an empty tag targets every node, enabled or not; any other tag targets exactly the enabled nodes with an equal Tag; each at most once, in stage order |
| MessageQueues.RecipientsOnce | Scene/MessageQueue.cs:62-68 | no entity receives one message twice |
| MessageQueues.Deliveries | Scene/MessageQueue.cs:67-68 | one delivery per target |
| MessageQueues.DeliveriesAt | Scene/MessageQueue.cs:67-68 | delivery j is the message to target j, in target order |
| MessageQueues.RunStep | Scene/MessageQueue.cs:57-68 | the first message is delivered to its snapshotted targets, and their replies join the back of the queue |
| MessageQueues.RunInOrder | Scene/MessageQueue.cs:56-69 | the messages queued are delivered first, in FIFO order, before anything their receivers send |
| MessageQueues.QuietRun | Scene/MessageQueue.cs:56-69 | when no receiver sends, `Process` delivers each queued message in order and leaves the queue empty |
| MessageQueues.ReplyInSameCall | Scene/MessageQueue.cs:56-57 | the queues are one object, so a reply sent by a receiver is delivered by the same `Process` call |
| MessageQueues.NoReplies | Scene/MessageQueue.cs:53-70 | receivers that send nothing add nothing to the queue |
| MessageQueues.MessageQueue.constructor | Scene/MessageQueue.cs:32-36 | an empty queue on the given stage |
| MessageQueues.MessageQueue.SendMessage | Scene/MessageQueue.cs:45-48 | appends to the back of the queue |
| MessageQueues.MessageQueue.Process | Scene/MessageQueue.cs:53-70 | the deliveries made and the queue left are those of `Run` on the stage's recipients |
| MessageQueues.MessageQueue.Drain | Scene/MessageQueue.cs:57-69 | the while loop's effect is `Run` of the queue |
| MessageQueues.MessageQueue.Deliver | Scene/MessageQueue.cs:67-68 | delivers to each target in order and queues their replies |

## Left out

- Rendering and every `Draw` of `Body`, `World` and `RayTracer` are not modelled: they are GPU state. `Stage.Draw` returns the entities whose `Draw` would run.
- `MathTools.GetAngle`, `MathTools.Move`, `MathTools.IntersectLines` and `Vector2.Distance` are not modelled: they are floating-point trigonometry and square roots. They are the uninterpreted fields of `FloatOps`, and nothing is proved about their values.
- `Body.Direction` and `Body.Move` are not modelled, for the same floating-point reason. The direction passed to `OnCollision` is `getAngle(lastLocation, Location)`.
- MathTools.Percent: with a zero range the source's float division gives an infinity or NaN, which the model gives as `None`.
- Float arithmetic: `Vector2` components are exact reals, not 32-bit floats, so rounding in gravity, force and decay is not modelled.
- Helper.Vector2ToPoint: does not model the overflow of a float-to-`int` cast outside the 32-bit range.
- Xna.Trunc: does not model the overflow of a float-to-`int` cast outside the 32-bit range.
- FpsCounter.FPSCounter.GetFPS: does not model 32-bit wrap-around of `frameCounter`.
- Integer widths: the rectangles and counters are unbounded integers, so 32-bit overflow is not modelled.
- Hooks and callbacks are not run:
  - `Entity.Update` only kills entities of its stage, given as data;
  - `Entity.Draw` and `OnCollision`, `OnTriggerCollision` and `OnHit` are recorded events;
  - a state's `Initialize`, `Update`, `Draw` and `Terminate` are recorded calls that do not change the table of states;
  - `ReciveMessage` only sends replies, given as a function, and does not change entity state between messages.
- MessageQueues.MessageQueue.Process: `Process` does not terminate when receivers keep sending, so it takes a fuel bound on the number of messages it reads. The contract states what happens up to that bound.
- The static `tag` and `entities` fields of `MessageQueue` and the `checkBody` field of `World` are plain locals and parameters.
- `Manager.Scene.Clear()` (through its `Stage`) and `Manager.UnloadContent()` are the calls `ChangeState` makes. The rest of Manager.cs is not part of this model.
- `Manager.Graphics.ScreenBounds` is the `screen` parameter of `Stage.Draw`.
- `Entity.CreationTime` is an explicit logical timestamp rather than `DateTime.Now`.
- A new entity's `Name` is "" rather than null.
- Stage nodes are never null. So the `catch` blocks of the filter predicates, and the null checks of `Clear`, never fire.
- PhysicsWorld.World.AddBody requires the body not to be in the list already, although `Bodies` is a public `List<Body>` whose `Add` accepts a repeat (Physics/V1Engine/World.cs:36).
- PhysicsWorld.World.Update requires `Valid()`, so its list never holds a body twice. The source would list a body added twice twice among the actives, and integrate and collide it twice per `Update`; the model does not cover that case.
- Scene.Stage.AddEntity requires the entity not to be in the list already. The source allows a duplicate, but then the removals by `IndexOf` would act on the first copy.
- Scene.Stage.Update requires every node to belong to this stage, as `AddEntity` ensures, so that `Kill` updates this stage's counter.
- `Stage.AddEntity(e)` is `AddEntity(e, "")` and has no member of its own.
- The animation clock is whole milliseconds; the source uses a `double`. The FPS counter is in `TimeSpan` ticks.
- Animation.AnimationManager: `Secuences` is a plain map, not the `SerializableDictionary` proxy.
- Animation.AnimationManager.Enabled is not modelled: the property reads the paused flag and its setter does nothing.
- `SerializableDictionary`:
  - the constructor from an `IDictionary` and a null `Dictionary` are not modelled;
  - the order in which a `Dictionary` enumerates its entries is left unspecified.
- StateMachines.StateMachine.Register: only `States.Add` changes the table of states. The state components are registered through it.
- `InputMap` members not modelled:
  - `PressAny`, the Shift/Control/Alt properties, `PrimaryAxis`, `SecondaryAxis`, the vibrators and `IsConnected`: they read device state only;
  - the GamePads' `IsConnected`;
  - the `Player` index: the device snapshot is given as data.
- `InputMap.Press` on a device type other than the two has no branch. Only the WINDOWS build is modelled.
- Tools/Timer.cs, Tools/GamerServices and Tools/XML/Serializers.cs are not part of this model: they are clock, session and file I/O.
- `GC.Collect` and the rest of `Dispose` beyond clearing lists are not modelled.
