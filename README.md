# Console ray tracer — a Dafny model

This project models the core of a console ray tracer. The ray tracer renders an animated, navigable three-dimensional scene into a grid of character cells. The repository holds three generations of the program:

- `src/`, the newest;
- `ConsoleRayTracer/`, the middle one;
- `RayTracer/`, the oldest.

All three share one architecture:

- **Entities.** An entity can be hit by a ray (`Hit(ray, tMin, tMax)` returns the nearest hit record in range, or nothing), can light a point (`Illuminate`), or both. Planes, circles, rectangles and spheres are the primitives. `Group`, `And`, `Apply`/`Translate` and `Lights` combine entities.
- **Animations.** Time-indexed values with a duration. Time is wrapped into one period before sampling. Chains add up the end values of the legs already passed.
- **Animated entities.** An animated entity samples its animations when time moves on, then behaves like a fixed entity until the next update.
- **The renderer.** It traces one ray per cell. It flips the normal towards the viewer, shades with the lights, and recurses for mirror reflection.
- **Controllers.** The camera and the animator each own a controller: a small key-press state machine with a "relevant keys" mask and a "held keys" mask. Opposite keys cancel deterministically.
- **Overlays.** The label, the tutorial and the crosshair draw on the canvas.

## How the model is organised

Each source file becomes one Dafny module. The module's prefix names the generation: `Src*` for `src/`, `Crt*` for `ConsoleRayTracer/`, `Rt*` for `RayTracer/`. Six modules hold what the generations share:

- `Wrappers`: `Option`;
- `Numerics`: C#'s truncating `%` and division, clamping, and banker's rounding;
- `ConsoleKeys`: key codes and key events;
- `HitSearch`: the nearest-hit theory behind `Group.Hit`, `And` and `World.Hit`;
- `Surface`: a canvas that records its `Set` calls in order;
- `BoxLayout`: the bordered and padded text box that every `Label` draws.

Floats are `real`s. `FloatMax` stands for both `float.MaxValue` and +∞. Square roots, trigonometry, `pow` and `Vector3.Normalize` arrive as a `Maths` record of functions, and each lemma states what it assumes about them. A `TimeSpan` is a number of seconds. A C# key bit mask is a `set` of key flags.

Entities are records of functions (`hit`, `illuminate`) built by named combinators, so two entities can be compared by lemma. Where the source mutates state, the model uses a class with the same fields:

- the camera and its controller;
- the animator and its controller;
- animated entities;
- the tutorial;
- the canvas.

Each such class has a specification function for every step (`KeyStep`, `Tick`, `Moved`, `Advance` …). The methods are proved equal to those functions, and the lemmas prove the source's promises about the functions.

Several source files are near-identical copies of each other. Each copy is modelled once, and its single row below cites the copy the member was written from:

- `ConsoleRayTracer/Primitives.cs` matches `src/Primitives.cs`.
- The `Group`, `Lights`, `LightSource`, `And`, `Plane` and `Circle` entities of `ConsoleRayTracer/Entity/Entities.cs` match the `src/Entity` ones; so do `World` (which is `Group` over an enumerable), `And`, `Plane` and `Circle` of `ConsoleRayTracer/Entity/Shapes.cs`.
- `ConsoleRayTracer/Hittable/World.cs` matches `ConsoleRayTracer/Shape.cs`.
- `ConsoleRayTracer/Light/Light.cs` matches `ConsoleRayTracer/Light.cs`.
- `Light` and `LightSource` in `ConsoleRayTracer/Entity/Lights.cs` behave as the `src/` `Lights` and `LightSource` (`SrcEntity`). A search bound of +∞ there and `float.MaxValue` in `src/` are both `FloatMax`.
- The linear, accelerate and decelerate interpolators and the linear motions are shared by all three generations; the circular paths are modelled per generation (`SrcMotion`, `CrtMotions`, `RtMotions`).
- In `RayTracer/Animation/Interpolators.cs`, the accelerate–decelerate, anticipate, overshoot, anticipate–overshoot and cycle interpolators are those of `ConsoleRayTracer/` (`CrtInterpolators`). Its lights interpolator is the `src/` one (`SrcInterpolator.Lights`).
- `RayTracer/Animation/IAnimatedEntity.cs` matches the `src/` one.
- The `ConsoleRayTracer/` tutorial uses the `src/` stage table.
- Both world animators drive the animator's `Tick`.

## Model

| member | source | states |
|---|---|---|
| SrcPrimitives.PointAt | src/Primitives.cs:7 | the point is the origin moved by Direction·t |
| SrcPrimitives.PointAtStart | src/Primitives.cs:7 | at t = 0 the ray is at its origin |
| SrcPrimitives.PointAtAffine | src/Primitives.cs:7 | moving on by b from PointAt(a) lands on PointAt(a + b) |
| SrcPrimitives.Opposite | src/Primitives.cs:8 | the result is v, −v or zero; it never points along the ray, points strictly against it when v is not perpendicular to it, and is zero when v is perpendicular |
| SrcPrimitives.IndicesArePermutation | src/Primitives.cs:24-61 | each axis's Axis, Main and Secondary indices are a permutation of {0, 1, 2} |
| SrcPrimitives.GettersMatchIndices | src/Primitives.cs:24-61 | GetAxis, GetMain and GetSecondary read the components at the declared indices, and Unit is 1 exactly on the axis |
| SrcPrimitives.ApplyPlacesComponents | src/Primitives.cs:34-60 | Apply puts X on the axis, Y on the main and Z on the secondary component, so the getters undo Apply |
| SrcEvent.PressedKey | src/Event/Event.cs:42 | set exactly when the state is Pressed, and then holds the key |
| SrcEvent.ReleasedKey | src/Event/Event.cs:43 | set exactly when the state is Released, and then holds the key |
| SrcEvent.PressedOrReleased | src/Event/Event.cs:40-50 | exactly one of PressedKey and ReleasedKey is set iff the state byte is one of the two named values; never both |
| SrcEvent.AspectRatio | src/Event/Event.cs:54 | a zero height gives no finite ratio; otherwise ratio · Height == Width |
| SrcEvent.FromKeyEvent | src/Event/Event.cs:10 | the one-argument constructor tags the event Key |
| SrcEvent.FromResizeEvent | src/Event/Event.cs:11 | the one-argument constructor tags the event Resize |
| SrcEvent.KeyEventOf | src/Event/Event.cs:7 | set only for a Key tag, and then holds the key payload |
| SrcEvent.ResizeEventOf | src/Event/Event.cs:8 | set only for a Resize tag, and then holds the resize payload |
| SrcEvent.ConstructorsRoundTrip | src/Event/Event.cs:5-38 | an event built from a payload reads back that payload and no payload of the other kind |
| SrcInterpolator.Linear | src/Animation/Interpolator.cs:8-11 | the time fraction passes through unchanged |
| SrcInterpolator.PowerInterpolatorsFixEnds | src/Animation/Interpolator.cs:13-25 | for a positive factor, Accelerate and Decelerate both map 0 to 0 and 1 to 1 |
| SrcInterpolator.Lights | src/Animation/Interpolator.cs:27-30 | below 0.9 the result is five ninths of the input, from 0.9 on five times the input |
| SrcInterpolator.LightsShape | src/Animation/Interpolator.cs:29 | [0, 0.9) goes into [0, 0.5); the value jumps to 4.5 at 0.9 and reaches 5 at 1 |
| SrcInterpolator.LightsIncreasing | src/Animation/Interpolator.cs:29 | each of the two pieces is strictly increasing |
| SrcMotion.LinearMotion | src/Animation/Motion.cs:10-13 | the motion is 0 at fraction 0 and the full Motion at fraction 1 |
| SrcMotion.LinearPath | src/Animation/Motion.cs:15-18 | the path is the zero vector at fraction 0 and the full Path at fraction 1 |
| SrcMotion.LinearAdditive | src/Animation/Motion.cs:10-18 | both linear motions are additive in the fraction |
| SrcMotion.CircularPathInPlane | src/Animation/Motion.cs:20-28 | the point has no component on the axis, R·cos(τx) on the main and R·sin(τx) on the secondary component |
| CrtMotions.CircularPathInPlane | ConsoleRayTracer/Animation/Motions.cs:18-28 | the point has no component on the axis, R·cos(2πx) on the main and R·sin(2πx) on the secondary component |
| CrtMotions.CircularPathsAgree | ConsoleRayTracer/Animation/Motions.cs:18-28 | writing the components one by one gives the same point as rotating (0, cos, sin) onto the axis and scaling, wherever the two angles agree |
| RtMotions.CircularPathInPlane | RayTracer/Animation/Motions.cs:18-25 | the point has no component on the axis, R·cos(2πx) on the main and R·sin(2πx) on the secondary component |
| RtMotions.SameCircleAsOtherGenerations | RayTracer/Animation/Motions.cs:18-25 | scaling before placing on the axis gives the middle generation's point, and the newest generation's point wherever the angles agree |
| SrcAnimation.WrapTimeInRange | src/Animation/Animation.cs:11-20 | for a positive duration the wrapped time is defined, lies in [0, Duration], and differs from the elapsed time by a whole number of durations |
| SrcAnimation.WrapTimeKeepsRange | src/Animation/Animation.cs:11-20 | a time already in [0, Duration] is passed through unchanged, Duration itself included |
| SrcAnimation.LegUnchecked | src/Animation/Animation.cs:25-41 | a Constant yields its value; an Animation yields a value exactly when its duration is non-zero (else the division gives NaN) |
| SrcAnimation.ConstantEverywhere | src/Animation/Animation.cs:35-41 | a Constant gives its value at every time through both GetValue and GetValueUnchecked |
| SrcAnimation.AnimationSamplesUnitInterval | src/Animation/Animation.cs:11-33 | an Animation with a positive duration always samples motion(interpolator(x)) for some x in [0, 1] |
| SrcAnimation.DurationAppend | src/Animation/Animation.cs:45 | the duration of a chain is additive over concatenation of its legs |
| SrcAnimation.CurrentLeg | src/Animation/Animation.cs:51-58 | the leg the loop stops at: all earlier legs are passed and, unless every leg is passed, the time since it started is at most its duration |
| SrcAnimation.ChainUnchecked | src/Animation/Animation.cs:47-65 | the foreach loop returns the end values of the passed legs plus the current leg sampled at the time since it started, and fails (the UnreachableException) only when every leg is passed |
| SrcAnimation.PassedAllMeansPastEnd | src/Animation/Animation.cs:51-64 | if the loop passes every leg of a non-empty chain, the time lies beyond the chain's duration |
| SrcAnimation.ChainThrowsOnlyPastEnd | src/Animation/Animation.cs:47-65 | with non-negative leg durations the loop falls through to the throw exactly when the chain is empty or the time is past its total duration |
| SrcAnimation.BoundaryBelongsToEarlierLeg | src/Animation/Animation.cs:54 | a time exactly at the end of a leg is sampled from that leg at its full duration, not from the next leg (the test is a strict >) |
| SrcAnimation.SampleableAlwaysDefined | src/Animation/Animation.cs:11-90 | a Constant, an Animation of non-zero duration, or a non-empty chain of such legs with positive total duration never yields NaN and never throws, at any time |
| SrcIEntity.NewRecord | src/Entity/IEntity.cs:11-17 | a record made from T, Point and Normal alone carries those three and the default material, brightness 1 and reflectance 0 |
| SrcIEntity.DefaultEntity | src/Entity/IEntity.cs:5-9 | an entity with only the default members is not animated |
| SrcIEntity.DefaultsDoNothing | src/Entity/IEntity.cs:7-8 | the default Hit always misses and the default Illuminate always gives 0 |
| SrcIEntity.DefaultHitNearest | src/Entity/IEntity.cs:7 | the default hit test satisfies the nearest-hit contract |
| SrcIEntity.Apply | src/Entity/IEntity.cs:19-40 | the wrapper is not an animated entity |
| SrcIEntity.ApplyHitRecord | src/Entity/IEntity.cs:27-35 | Apply misses exactly when the entity misses the ray moved by −Offset; a hit keeps the entity's T and normal, has its point moved by +Offset and takes Apply's brightness and reflectance |
| SrcIEntity.ApplyZeroOffset | src/Entity/IEntity.cs:27-35 | with the default offset the entity's hit time and point pass through unchanged |
| SrcIEntity.ApplyNearest | src/Entity/IEntity.cs:27-35 | moving an entity keeps its hit test a nearest-hit test |
| SrcIEntity.OccluderInEntityFrame | src/Entity/IEntity.cs:37-39 | the occluder handed to the wrapped entity, Apply(target, −Offset), answers a ray of the entity's frame as the scene answers the same ray, with the point carried into the entity's frame |
| SrcIEntity.ApplyIlluminationScales | src/Entity/IEntity.cs:37-39 | Apply's illumination is the wrapped entity's times Brightness: linear in it and 0 at brightness 0 |
| SrcEntity.HitTests | src/Entity/Entity.cs:13-15 | the hit tests of the children, one per child, in declaration order |
| SrcEntity.AnimatedOf | src/Entity/Entity.cs:8 | the cached animated children: every animated child, only those, in declaration order |
| SrcEntity.GroupHit | src/Entity/Entity.cs:10-22 | the loop that lowers tMax to each hit's T returns the left-to-right scan of the children's hit tests |
| SrcEntity.GroupHitNearest | src/Entity/Entity.cs:10-22 | with nearest-hit children, Group.Hit is null iff no child hits the full range; otherwise it is one child's hit and its T is no larger than any child's |
| SrcEntity.GroupLaterWinsTie | src/Entity/Entity.cs:15-19 | when the nearest T is shared, the last child reaching it wins |
| SrcEntity.BestSuffixMisses | src/Entity/Entity.cs:13-20 | children that all miss after the last hit leave the result unchanged |
| SrcEntity.GroupUpdate | src/Entity/Entity.cs:24-30 | Update calls Update(timeElapsed) on exactly the cached animated children, each once, in order |
| SrcEntity.GroupEntity | src/Entity/Entity.cs:6 | a Group is itself an animated entity |
| SrcEntity.GroupEntityNearest | src/Entity/Entity.cs:10-22 | a group of nearest-hit children is itself a nearest-hit entity, so groups nest |
| SrcEntity.LightsIlluminate | src/Entity/Entity.cs:37-45 | the accumulating loop returns the sum of every source's contribution, left to right |
| SrcEntity.LightSumNonNegative | src/Entity/Entity.cs:37-45 | no sources give 0; sources that each give at least 0 give at least 0 together |
| SrcEntity.LightSumAppend | src/Entity/Entity.cs:37-45 | the sum over two lists of sources is the sum of the two sums |
| SrcEntity.LightsUpdate | src/Entity/Entity.cs:47-53 | Update calls Update(timeElapsed) on exactly the cached animated sources, each once, in order |
| SrcEntity.LightsEntity | src/Entity/Entity.cs:33 | Lights is an animated entity |
| SrcEntity.LightSourceIlluminate | src/Entity/Entity.cs:58-64 | 0 when the occluder blocks the shadow ray in [0.001, float.MaxValue]; otherwise max(brightness · (normal · light direction), 0); never negative |
| SrcEntity.LightSource | src/Entity/Entity.cs:56-65 | a light source is not animated |
| SrcEntity.LightSourcesNonNegative | src/Entity/Entity.cs:37-64 | Lights made only of light sources never give negative light |
| SrcEntity.AndIsScan | src/Entity/Entity.cs:71-74 | And.Hit is the two-child Group scan: right searched up to left's T when left hits, over the full range otherwise |
| SrcEntity.And | src/Entity/Entity.cs:67-78 | And is not animated |
| SrcEntity.AndNearest | src/Entity/Entity.cs:71-74 | for nearest-hit children, And misses iff both miss, returns the one that hits, or the nearer of two hits with right winning a tie; And is itself a nearest-hit entity |
| SrcEntity.PlaneHit | src/Entity/Entity.cs:82-86 | a hit exactly when t = −origin[axis]/direction[axis] lies in [tMin, tMax]; the hit point is on the plane, the normal is the axis unit, the material the default |
| SrcEntity.PlaneOnAxis | src/Entity/Entity.cs:84-85 | the point at the computed t has axis component 0 |
| SrcEntity.PlaneNearest | src/Entity/Entity.cs:82-86 | the plane's hit test is a nearest-hit test |
| SrcEntity.CircleHit | src/Entity/Entity.cs:91-94 | the plane hit is kept exactly when its distance from the origin is at most the radius |
| SrcEntity.CircleNearest | src/Entity/Entity.cs:91-94 | the circle's hit test is a nearest-hit test |
| SrcEntity.RectHit | src/Entity/Entity.cs:99-107 | the plane hit is kept exactly when main ∈ [0, width] and secondary ∈ [0, height] |
| SrcEntity.RectNearest | src/Entity/Entity.cs:99-107 | the rectangle's hit test is a nearest-hit test |
| SrcAnimatedEntity.Sample | src/Animation/IAnimatedEntity.cs:21-23 | GetValue of an animation whose samples are always defined: the value the animation gives at that time |
| SrcAnimatedEntity.Animated.constructor | src/Animation/IAnimatedEntity.cs:10-23 | the wrapper keeps the entity and its three animations and caches their samples at time 0, the brightness shifted by 1 |
| SrcAnimatedEntity.Animated.Update | src/Animation/IAnimatedEntity.cs:39-44 | the cache holds the three samples at the absolute time given, the brightness shifted by 1 |
| SrcAnimatedEntity.Animated.Hit | src/Animation/IAnimatedEntity.cs:25-33 | a miss exactly when the child misses the ray moved by −offset; a hit keeps the child's T and normal, moves its point by +offset and adds the cached brightness and reflectance to the child's |
| SrcAnimatedEntity.Animated.Snapshot | src/Animation/IAnimatedEntity.cs:25-37 | between updates the wrapper is an animated entity whose hit and illumination are Hit and Illuminate |
| SrcAnimatedEntity.UpdateIdempotent | src/Animation/IAnimatedEntity.cs:39-44 | the cache after Update(t) depends on t alone, so Update(t) twice is Update(t) once |
| SrcAnimatedEntity.AnimatedNearest | src/Animation/IAnimatedEntity.cs:25-33 | wrapping a nearest-hit entity keeps it a nearest-hit entity |
| SrcAnimatedEntity.NeutralOffsetHit | src/Animation/IAnimatedEntity.cs:25-33 | while the offset samples to zero, hit points pass through and the brightness is the child's plus 1 plus the sample |
| SrcAnimatedEntity.NeutralIlluminate | src/Animation/IAnimatedEntity.cs:35-37 | with a zero offset and a brightness of 1 cached, the light is the child's seen through the unmoved occluder |
| SrcRayTracer.LerpBetween | src/Renderer/RayTracer.cs:26 | Lerp gives a at 0 and b at 1 and stays between a and b for t in [0, 1] |
| SrcRayTracer.Facing | src/Renderer/RayTracer.cs:17 | the record keeps its T, point and material; its normal becomes n, −n or zero and never points along the ray |
| SrcRayTracer.Trace | src/Renderer/RayTracer.cs:13-24 | the shade lies in [0, 1]; it is 0 when the depth is spent or the ray hits nothing in [0.001, +∞) |
| SrcRayTracer.MatteSurface | src/Renderer/RayTracer.cs:17-21 | a hit whose reflectance is 0 shows the light's illumination of the record with its normal turned, clamped to [0, 1] |
| SrcRayTracer.MirrorSurface | src/Renderer/RayTracer.cs:17-21 | a hit whose reflectance is 1 shows exactly the trace of the reflected ray one level down |
| SrcRayTracer.HitTestCountBound | src/Renderer/RayTracer.cs:15-20 | each level lowers the depth by one, so a trace makes no hit test for depth ≤ 0 and between 1 and depth hit tests otherwise |
| SrcRayTracer.Render | src/Renderer/RayTracer.cs:10-11 | the pixel is the trace of CastRay(s, t) at the renderer's depth: in [0, 1], and 0 when the depth is not positive or the ray misses |
| SrcCamera.OppositeFlag | src/Camera/Camera.cs:179-193 | no flag is its own opposite |
| SrcCamera.OppositeInvolution | src/Camera/Camera.cs:179-193 | the opposite of the opposite is the flag itself |
| SrcCamera.KeyPair | src/Camera/Camera.cs:179-193 | a mapped key gives its flag and its opposite's flag; any other key gives the empty mask twice |
| SrcCamera.KeyPairTable | src/Camera/Camera.cs:179-193 | the pairs are W/S, A/D, Space/Z, Up/Down and Left/Right, each way round, and no other key maps to a non-empty pair |
| SrcCamera.KeyStepKeepsValid | src/Camera/Camera.cs:90-108 | every key event keeps relevant ⊆ history and no flag relevant together with its opposite |
| SrcCamera.PressTakesOver | src/Camera/Camera.cs:93-98 | a press makes the key relevant and held and its opposite not relevant |
| SrcCamera.ReleaseRestoresOpposite | src/Camera/Camera.cs:99-107 | a release drops the key from both masks, makes a still-held opposite relevant again, and otherwise leaves the opposite's relevance as it was |
| SrcCamera.HoldBothReleaseOne | src/Camera/Camera.cs:90-108 | W down, S down, S up leaves W relevant and held and nothing else |
| SrcCamera.UnmappedKeyIgnored | src/Camera/Camera.cs:179-193 | a key with no pair changes neither mask |
| SrcCamera.Rotated | src/Camera/Camera.cs:110-135 | after a rotation \|yaw\| < τ and pitch lies within ±(π/2 − 1e-7) |
| SrcCamera.RotationUsesArrowsOnly | src/Camera/Camera.cs:116-132 | only the arrow flags rotate; a single arrow changes exactly one of pitch (Up +dr, Down −dr) and yaw (Left +dr, Right −dr) before the wrap and the clamp |
| SrcCamera.MovementUsesMoveKeysOnly | src/Camera/Camera.cs:141-177 | only W, A, S, D, Space and Z move, and with none of them the direction is zero |
| SrcCamera.Turned | src/Camera/Camera.cs:110-139 | a rotation keeps the origin and leaves yaw and pitch within their bounds |
| SrcCamera.Resized | src/Camera/Camera.cs:83-87 | no pending ratio keeps the width; a pending one sets it to height · ratio |
| SrcCamera.Walked | src/Camera/Camera.cs:141-177 | a movement changes only the origin |
| SrcCamera.Steered | src/Camera/Camera.cs:77-81 | rotation then movement leaves yaw and pitch within their bounds |
| SrcCamera.Controller.constructor | src/Camera/Camera.cs:57-61 | a new controller has both masks empty and no pending ratio, which satisfies the invariant |
| SrcCamera.Controller.OnKeyEvent | src/Camera/Camera.cs:90-108 | the masks become the press/release step of the old masks; the pending ratio is untouched |
| SrcCamera.Controller.Handle | src/Camera/Camera.cs:63-73 | a key event steps the masks and keeps the ratio; a resize event with a non-zero height stores its ratio and keeps the masks; no event changes nothing; the invariant is kept |
| SrcCamera.Controller.ApplyUpdates | src/Camera/Camera.cs:75-88 | with no relevant key the pose is unchanged, otherwise it is rotated then moved; a pending ratio is applied to the width exactly once and cleared |
| SrcCamera.Controller.ApplyAspectRatio | src/Camera/Camera.cs:83-87 | the width becomes height · ratio if a ratio is pending, the ratio is cleared, and nothing else changes |
| SrcCamera.Controller.ApplyRotation | src/Camera/Camera.cs:110-139 | the pose becomes Turned with dr = sensitivity · dt; the width is unchanged |
| SrcCamera.Controller.ApplyMovement | src/Camera/Camera.cs:141-177 | the pose becomes Walked, so only the origin moves; the width is unchanged |
| SrcCamera.Camera.constructor | src/Camera/Camera.cs:17-35 | the camera starts at lookFrom facing normalize(lookAt − lookFrom), with right, up, yaw and pitch derived from it, height tan(fov·π/720), width height · aspect, and a fresh empty controller |
| SrcCamera.Camera.Handle | src/Camera/Camera.cs:44-48 | the masks become the handled masks of the old ones; the pending ratio is cleared; with a relevant key the pose becomes Steered of the old pose, otherwise it is kept; the width becomes Resized of the old width by the handled ratio; the invariant is kept |
| SrcCamera.ResizeFollowsWindow | src/Camera/Camera.cs:69-71 | a resize to a non-zero width and height, handled and applied, gives width / height = the window's width / height, whatever ratio was pending |
| SrcCamera.HandleSeparatesEvents | src/Camera/Camera.cs:63-73 | a key event keeps a pending ratio, a resize event keeps the masks, a key event steps the masks, and no event changes nothing |
| SrcCamera.CastRayCentre | src/Camera/Camera.cs:37-42 | the ray through the screen centre leaves the origin along forward |
| SrcCamera.CastRayAffine | src/Camera/Camera.cs:37-42 | the ray direction is affine in s and t: +ds moves it by 2·ds·width along right, +dt by −2·dt·height along up |
| SrcCamera.KeyStepsKeepValid | src/Camera/Camera.cs:90-108 | any sequence of key events keeps the controller's invariant |
| SrcAnimator.KeyPair | src/Animation/Animator.cs:115-123 | only K or L can be an opposite; a press of P while P is held maps to nothing; keys other than P, L and K map to nothing |
| SrcAnimator.KeyStepKeepsValid | src/Animation/Animator.cs:68-86 | every key event keeps relevant ⊆ history and L and K never relevant together |
| SrcAnimator.TickKeepsValid | src/Animation/Animator.cs:50-66 | ApplyUpdates keeps the invariant and never changes the key history |
| SrcAnimator.HeldPressIgnored | src/Animation/Animator.cs:118 | a repeated press of a held P changes nothing |
| SrcAnimator.OnePressOneToggle | src/Animation/Animator.cs:52-56 | one press of P flips running once, drops P from the relevant keys, and further presses while held flip nothing |
| SrcAnimator.SpeedKeysOpposite | src/Animation/Animator.cs:70-85 | pressing L or K makes it relevant and the other not; releasing it drops it and makes the other relevant exactly when it was held or already relevant |
| SrcAnimator.RunningClock | src/Animation/Animator.cs:88-100 | while running, L adds sensitivity·dt to the speed, otherwise K subtracts it, and the elapsed time grows by the milliseconds times the new speed |
| SrcAnimator.PausedClock | src/Animation/Animator.cs:102-113 | while paused the speed is unchanged; L moves the time forward by milliseconds·speed, otherwise K moves it back, otherwise it stays |
| SrcAnimator.NonKeyEventsIgnored | src/Animation/Animator.cs:42-48 | null and resize events leave the clock unchanged |
| SrcAnimator.Controller.constructor | src/Animation/Animator.cs:33-40 | empty masks, the given running flag, speed and sensitivity, satisfying the invariant |
| SrcAnimator.Controller.Handle | src/Animation/Animator.cs:42-48 | the clock becomes the key step for a key event and is unchanged otherwise |
| SrcAnimator.Controller.OnKeyEvent | src/Animation/Animator.cs:68-86 | the clock becomes the key step of the old clock |
| SrcAnimator.Controller.ApplyUpdates | src/Animation/Animator.cs:50-66 | the clock becomes the tick of the old one and the animator's elapsed time grows by the tick's delta |
| SrcAnimator.Controller.Continue | src/Animation/Animator.cs:88-100 | the masks and running flag are kept, the speed is accelerated by sensitivity·dt, and the time advances at the new speed |
| SrcAnimator.Controller.TimeTravel | src/Animation/Animator.cs:102-113 | the controller is unchanged and the time moves by the scrubbed milliseconds·speed |
| SrcAnimator.Animator.constructor | src/Animation/Animator.cs:8-12 | elapsed time 0 and a fresh controller with the given settings |
| SrcAnimator.Animator.Handle | src/Animation/Animator.cs:14-18 | the controller takes the event then ticks, and the elapsed time grows by that tick's delta |
| SrcAnimator.Animator.MoveForward | src/Animation/Animator.cs:20-23 | the entity is left sampled at the animator's elapsed time |
| SrcAnimator.Animator.MoveForwardGroup | src/Animation/Animator.cs:20-23 | on a `Group` (the scene's entity), the update calls are exactly those of `Group.Update` at the animator's elapsed time: each animated child once, in order, nothing else |
| SrcAnimator.Animator.MoveForwardLights | src/Animation/Animator.cs:20-23 | on a `Lights` (the scene's light), the update calls are exactly those of `Lights.Update` at the animator's elapsed time: each animated source once, in order, nothing else |
| SrcTutorial.NextRules | src/Drawable/Tutorial.cs:44-59 | the stage never goes back and stays in 0..11; stages 0, 9 and 10 move on for any key; stages 1 to 8 move on exactly for the keys they wait for, by one, except N on stage 1 which skips to 11; stage 11 is final |
| SrcTutorial.StepKeepsValid | src/Drawable/Tutorial.cs:38-67 | handling an event keeps the stage a valid caption index, never lowers it, and keeps stage 11 final |
| SrcTutorial.NonKeyEventsIgnored | src/Drawable/Tutorial.cs:40 | null and resize events change nothing |
| SrcTutorial.RepeatedPress | src/Drawable/Tutorial.cs:42-65 | a release, or a press of the key pressed last, keeps the stage and forgets the key; a fresh press moves the stage and remembers the key |
| SrcTutorial.HeldKeyAlternates | src/Drawable/Tutorial.cs:42-65 | three presses of one key move the walk, then only forget the key, then move it again |
| SrcTutorial.NothingDrawnAtTheEnd | src/Drawable/Tutorial.cs:5-19 | every stage before 11 has a caption and the last one draws nothing |
| SrcTutorial.Tutorial.constructor | src/Drawable/Tutorial.cs:24-28 | stage 0 with no last key |
| SrcTutorial.Tutorial.Draw | src/Drawable/Tutorial.cs:30-36 | the canvas receives exactly the label writes of the stage's caption, or nothing |
| SrcTutorial.Tutorial.Handle | src/Drawable/Tutorial.cs:38-67 | the walk becomes the step of the old walk on the event |
| BoxLayout.CallsIntended | src/Drawable/Label.cs:21-55 | every call of the two drawing loops writes a cell of the box, with the content the finished box holds there |
| BoxLayout.PositionsAreBox | src/Drawable/Label.cs:21-55 | the cells the loops write are exactly the cells of the box |
| BoxLayout.BoxCoversOnce | src/Drawable/Label.cs:10-55 | the loops write each cell of the w-by-h box once, nothing outside it, each with its intended content |
| BoxLayout.CentredBoxInside | src/Drawable/Label.cs:13-19 | once the size guard passes, the centred corner keeps the whole box on the canvas |
| BoxLayout.InsideCanvas | src/Drawable/Label.cs:13-19 | calls covering a box that lies inside the canvas all land on the canvas |
| SrcLabel.LabelLayout | src/Drawable/Label.cs:5-56 | the box is \|text\| + 6 by 7; a smaller canvas gets no call; otherwise the centred box is written once per cell, on the canvas, with outline 1, the text on row 3 from column 3, and 0 elsewhere |
| SrcLabel.LabelAt | src/Drawable/Label.cs:18-19 | a canvas that fits gets the box at ((W − w) / 2, (H − h) / 2) |
| SrcLabel.LabelCellIntended | src/Drawable/Label.cs:21-55 | the generic box content with outline 1 and padding 2 is the label's cell content |
| SrcLabel.LabelBox | src/Drawable/Label.cs:21-55 | the label's calls cover its box once each with the label's cells |
| SrcLabel.LabelContents | src/Drawable/Label.cs:44-54 | calls carrying the intended content show the label: outline, then the text on the middle row, blanks elsewhere |
| SrcLabel.Draw | src/Drawable/Label.cs:8-56 | the canvas receives exactly the label's calls: none when too small, the centred box otherwise |
| SrcLabel.DrawBox | src/Drawable/Label.cs:21-55 | the canvas receives the box's calls at the given corner |
| SrcLabel.DrawMiddleRows | src/Drawable/Label.cs:30-55 | the canvas receives the middle rows, one after the other |
| SrcLabel.DrawBorderRows | src/Drawable/Label.cs:21-28 | the canvas receives, column by column, the top and bottom outline cells |
| SrcLabel.DrawMiddleRow | src/Drawable/Label.cs:32-54 | the canvas receives one middle row: padding, outline, then text or blanks |
| SrcLabel.DrawPadding | src/Drawable/Label.cs:32-36 | the canvas receives the left and right padding cells of the row, interleaved |
| SrcLabel.DrawOutline | src/Drawable/Label.cs:38-42 | the canvas receives the left and right outline cells of the row, interleaved |
| SrcLabel.DrawText | src/Drawable/Label.cs:44-54 | the canvas receives the row's text cells: the characters on row 3, blanks on the others |
| SrcCrosshair.CrosshairShape | src/Drawable/Crosshair.cs:5-20 | nothing is drawn on a canvas under 3 by 3; otherwise full shade on exactly the centre (W / 2, H / 2) and its four neighbours, none twice, all on the canvas |
| SrcCrosshair.Draw | src/Drawable/Crosshair.cs:5-20 | the canvas receives exactly the crosshair's calls |
| SrcCanvas.Level | src/Canvas/ICanvas.cs:17 | the clamped luminance scaled to the ramp lies in [0, 6] |
| SrcCanvas.RampIndex | src/Canvas/ICanvas.cs:15-17 | the rounded level is a valid index into " .:+%#@" |
| SrcCanvas.QuantiseExtremes | src/Canvas/ICanvas.cs:17 | a luminance of 0 or less gives ' ', one of 1 or more gives '@' |
| SrcCanvas.LevelMonotone | src/Canvas/ICanvas.cs:17 | clamping and scaling never reverse the order of two luminances |
| SrcCanvas.QuantiseMonotone | src/Canvas/ICanvas.cs:17 | a brighter luminance never gives a lower ramp index |
| SrcCanvas.QuantiseLevels | src/Canvas/ICanvas.cs:15-17 | the exact levels k / 6 give the k-th character of the ramp |
| SrcCanvas.SetColor | src/Canvas/ICanvas.cs:13-18 | the canvas receives exactly one character write, the quantised luminance, at (x, y) |
| SrcCanvas.SweepCoversOnce | src/Canvas/ICanvas.cs:20-23 | the sweep writes every cell with 0 ≤ x < W and 0 ≤ y < H exactly once, nothing else, each with color(x, y) |
| SrcCanvas.SweepCallInside | src/Canvas/ICanvas.cs:22 | each call of the sweep lands on the canvas with that cell's colour |
| SrcCanvas.SweepCellWritten | src/Canvas/ICanvas.cs:22 | each cell of the canvas is written by the sweep |
| SrcCanvas.SetAll | src/Canvas/ICanvas.cs:20-23 | the canvas receives exactly the sweep's calls, row by row |
| CrtEvent.PressedKey | ConsoleRayTracer/Event/Event.cs:34 | set exactly when the state is Pressed (1), and then holds the key |
| CrtEvent.ReleasedKey | ConsoleRayTracer/Event/Event.cs:35 | set exactly when the state is Released (0), and then holds the key |
| CrtEvent.ExactlyOneKeySet | ConsoleRayTracer/Event/Event.cs:32-38 | for a state of 0 or 1 exactly one of the two keys is set, the pressed one exactly for 1 |
| CrtEvent.AspectRatio | ConsoleRayTracer/Event/Event.cs:42 | a zero height gives no finite ratio; otherwise ratio · Height == Width |
| CrtEvent.KeyEventOf | ConsoleRayTracer/Event/Event.cs:7 | set only for a Key tag, and then holds the key payload |
| CrtEvent.ResizeEventOf | ConsoleRayTracer/Event/Event.cs:8 | set only for a Resize tag, and then holds the resize payload |
| CrtEvent.AtMostOnePayload | ConsoleRayTracer/Event/Event.cs:5-9 | never both derived fields are set |
| CrtInterpolators.TensionInterpolatorsFixEnds | ConsoleRayTracer/Animation/Interpolators.cs:28-44 | for every tension, Anticipate, Overshoot and AnticipateOvershoot start at 0 and end at 1 |
| CrtInterpolators.OvershootMirrorsAnticipate | ConsoleRayTracer/Animation/Interpolators.cs:28-37 | Overshoot is Anticipate played backwards and upside down: Overshoot(x) == 1 − Anticipate(1 − x) |
| CrtInterpolators.AnticipateOvershootHalves | ConsoleRayTracer/Animation/Interpolators.cs:39-44 | the first half is Anticipate at double speed and half height, the second half Overshoot likewise lifted by 0.5; both halves meet at 0.5 |
| CrtInterpolators.AnticipateGoesBack | ConsoleRayTracer/Animation/Interpolators.cs:28-37 | with a positive tension Anticipate first dips below 0, and Overshoot correspondingly passes 1 |
| CrtInterpolators.AccelerateDecelerateFixesEnds | ConsoleRayTracer/Animation/Interpolators.cs:23-26 | where cos(π) = −1 and cos(2π) = 1, AccelerateDecelerate runs from 0 to 1 |
| CrtInterpolators.CycleStartsAtZero | ConsoleRayTracer/Animation/Interpolators.cs:46-49 | where sin(0) = 0, Cycle starts at 0 for any number of cycles |
| CrtAnimations.Fraction | ConsoleRayTracer/Animation/Animations.cs:15 | (t / Duration) % 1 with the C# remainder lies strictly between −1 and 1 and has the sign of t / Duration |
| CrtAnimations.AnimationStartsOver | ConsoleRayTracer/Animation/Animations.cs:14-15 | at every whole number of durations the animation samples motion(interpolator(0)) |
| CrtAnimations.AnimationRepeats | ConsoleRayTracer/Animation/Animations.cs:14-15 | for non-negative times, one more duration gives the same sample |
| CrtAnimations.FromLeg | ConsoleRayTracer/Animation/Animations.cs:10-16 | the record's duration is the animation's duration |
| CrtAnimations.LegDefined | ConsoleRayTracer/Animation/Animations.cs:14-15 | a single animation never throws, and its samples are defined exactly when its duration is not zero |
| CrtAnimations.DurationPositive | ConsoleRayTracer/Animation/Animations.cs:21 | animations of positive durations give a chain of positive duration |
| CrtAnimations.NonNegativeDuration | ConsoleRayTracer/Animation/Animations.cs:21 | animations of non-negative durations give a chain of non-negative duration |
| CrtAnimations.CurrentLeg | ConsoleRayTracer/Animation/Animations.cs:28-37 | the animation the loop stops at: every one before it has been passed, and the time since its start is at most its duration |
| CrtAnimations.Combine | ConsoleRayTracer/Animation/Animations.cs:34-42 | accum + value throws exactly when either side throws, and is NaN exactly when either side is |
| CrtAnimations.Chain | ConsoleRayTracer/Animation/Animations.cs:18-21 | a chain's duration is the sum of its animations' durations |
| CrtAnimations.ChainGetValue | ConsoleRayTracer/Animation/Animations.cs:23-46 | the loop's result is the chain's value stated without the loop: wrap, then the walk |
| CrtAnimations.ChainWalk | ConsoleRayTracer/Animation/Animations.cs:26-45 | the foreach loop returns the passed animations' end values added to the current one's sample, with the signed time for the first animation |
| CrtAnimations.PassLeg | ConsoleRayTracer/Animation/Animations.cs:31-33 | passing animation i moves the start by its duration and keeps the same current animation |
| CrtAnimations.ThrowWhilePassing | ConsoleRayTracer/Animation/Animations.cs:34-36 | an exception while adding up the passed animations is the chain's exception |
| CrtAnimations.CurrentLegFrom | ConsoleRayTracer/Animation/Animations.cs:28-37 | starting the search later finds the same animation, as long as those skipped are passed |
| CrtAnimations.EndValuesThrowLater | ConsoleRayTracer/Animation/Animations.cs:34-36 | once the accumulated end values throw, every longer accumulation throws |
| CrtAnimations.PassedAllMeansPastEnd | ConsoleRayTracer/Animation/Animations.cs:28-45 | reaching the throw after the loop means the time is beyond the chain's duration |
| CrtAnimations.EndValuesReturn | ConsoleRayTracer/Animation/Animations.cs:34-36 | end values of animations that never throw do not throw |
| CrtAnimations.ChainThrowsOnlyWhenEmpty | ConsoleRayTracer/Animation/Animations.cs:23-46 | with non-negative durations and animations that never throw, the chain throws exactly when it is empty |
| CrtAnimations.WrapNegated | ConsoleRayTracer/Animation/Animations.cs:25 | a negated time wraps to the negated wrapped time |
| CrtAnimations.ChainAtSign | ConsoleRayTracer/Animation/Animations.cs:30-42 | within the first animation the chain samples it at the signed time; from the second on, w and −w give the same value |
| CrtAnimations.EndValuesDefined | ConsoleRayTracer/Animation/Animations.cs:34-36 | end values of defined animations are defined |
| CrtAnimations.ChainDefined | ConsoleRayTracer/Animation/Animations.cs:18-46 | a non-empty chain of defined animations of positive durations is defined itself, so chains nest |
| CrtAnimations.ChainDefinedAt | ConsoleRayTracer/Animation/Animations.cs:23-46 | such a chain returns a value, not NaN and not an exception, at every time |
| CrtIEntity.Apply | ConsoleRayTracer/Entity/IEntity.cs:17-45 | the wrapper is a plain (not animated) entity |
| CrtIEntity.ApplyHitRecord | ConsoleRayTracer/Entity/IEntity.cs:25-33 | a miss exactly when the entity misses the ray moved by −Offset; otherwise the entity's T and normal, its point moved by +Offset, and Apply's brightness and reflectance; the same hit as the newest generation's Apply |
| CrtIEntity.ApplyNearest | ConsoleRayTracer/Entity/IEntity.cs:25-33 | moving an entity keeps its hit test a nearest-hit search |
| CrtIEntity.ApplyIlluminateOverridesMaterial | ConsoleRayTracer/Entity/IEntity.cs:35-44 | the incoming record's material plays no part: the wrapped entity always sees Apply's brightness and reflectance |
| CrtIEntity.LightSourceAtOffset | ConsoleRayTracer/Entity/IEntity.cs:35-44 | a wrapped light source lights a point from Offset: 0 when the shadow ray towards Offset is blocked, otherwise max(Brightness · normal·direction, 0), never negative |
| CrtEntities.RectHit | ConsoleRayTracer/Entity/Entities.cs:112-126 | a hit exactly when the plane is hit with −W/2 ≤ main < W/2 and −H/2 ≤ secondary < H/2, and then it is the plane's hit |
| CrtEntities.RectNearest | ConsoleRayTracer/Entity/Entities.cs:117-125 | the half-open rectangle is a nearest-hit entity |
| CrtEntities.SharedEdgeOnce | ConsoleRayTracer/Entity/Entities.cs:119-122 | two such rectangles side by side never both claim a point of their shared edge |
| CrtShapes.RectHit | ConsoleRayTracer/Entity/Shapes.cs:62-76 | a hit exactly when the plane is hit with \|main\| ≤ W/2 and \|secondary\| ≤ H/2, and then it is the plane's hit |
| CrtShapes.RectNearest | ConsoleRayTracer/Entity/Shapes.cs:67-75 | the closed rectangle is a nearest-hit entity |
| CrtShapes.RectVersionsDifferOnFarEdges | ConsoleRayTracer/Entity/Shapes.cs:69-72 | every hit of the half-open rectangle is one of the closed rectangle, and a hit only the closed one reports lies on main = W/2 or secondary = H/2 |
| CrtRay.OppositeNormal | ConsoleRayTracer/Ray.cs:7-10 | the front-face flag holds exactly when direction·normal < 0, and then the normal is kept, else it is negated; the result never faces along the ray, and strictly against it off the grazing case |
| CrtRay.AgreesWithOpposite | ConsoleRayTracer/Ray.cs:7-10 | off the grazing case the normal is the one the primitives' Opposite gives; at a grazing ray it is −normal where Opposite gives zero |
| CrtRay.OppositeNormalIdempotent | ConsoleRayTracer/Ray.cs:7-10 | turning an already turned normal keeps it and reports a front face |
| CrtHittable.WorldHit | ConsoleRayTracer/Shape.cs:23-36 | the foreach loop, lowering the bound to each hit's T, returns the scan of the hittables |
| CrtHittable.WorldHitNearest | ConsoleRayTracer/Shape.cs:23-36 | over nearest-hit children, null exactly when no child hits the full range; otherwise one child's hit, with a T no larger than any child's |
| CrtHittable.TranslateRecord | ConsoleRayTracer/Shape.cs:39-45 | the child is queried with origin − Offset; a miss exactly when it misses, otherwise its record with only the point moved by +Offset |
| CrtHittable.TranslateZero | ConsoleRayTracer/Shape.cs:39-45 | a zero offset changes nothing |
| CrtHittable.TranslateTwice | ConsoleRayTracer/Shape.cs:39-45 | translating by a then b is translating by a + b |
| CrtHittable.TranslateNearest | ConsoleRayTracer/Shape.cs:39-45 | translating keeps a hittable a nearest-hit one |
| CrtHittable.PlaneHit | ConsoleRayTracer/Shape.cs:47-67 | a hit exactly when the ray is not parallel and tMin ≤ t ≤ tMax; then the point at t, the normal turned against the ray with its face flag, and the plane's material |
| CrtHittable.PlaneThrough | ConsoleRayTracer/Shape.cs:57-63 | the crossing point lies on the plane |
| CrtHittable.PlaneNearest | ConsoleRayTracer/Shape.cs:47-67 | the plane is a nearest-hit hittable |
| CrtHittable.SphereRoot | ConsoleRayTracer/Shape.cs:73-92 | no root on a negative discriminant; otherwise the near root when it is in [tMin, tMax], else the far root when it is, else none |
| CrtHittable.SphereHit | ConsoleRayTracer/Shape.cs:69-100 | a hit exactly when a root is chosen and the radius is not 0, with the point there, the normal Point / Radius turned against the ray with its face flag, and the sphere's material |
| CrtHittable.RootsOrdered | ConsoleRayTracer/Shape.cs:83-87 | with a non-negative square root the near root is never beyond the far one |
| CrtHittable.SphereRootNarrow | ConsoleRayTracer/Shape.cs:84-92 | lowering tMax keeps the chosen root when it still fits and otherwise finds none |
| CrtHittable.SphereNearest | ConsoleRayTracer/Shape.cs:69-100 | a sphere reports its nearest hit, so it can sit in a World |
| CrtHittable.SphereRootOnSurface | ConsoleRayTracer/Shape.cs:73-95 | with an exact square root the hit point lies on the sphere |
| CrtHittable.ChosenRootSolves | ConsoleRayTracer/Shape.cs:73-92 | with an exact square root the chosen root solves a·t² + 2b·t + c = 0 |
| CrtHittable.RootOnSphere | ConsoleRayTracer/Shape.cs:73-75 | a root of the quadratic is a time at which the ray is on the sphere |
| CrtLight.Kept | ConsoleRayTracer/Light.cs:22-25 | a source adds its diffused light when that is not negative and nothing otherwise, so its share is never negative |
| CrtLight.Total | ConsoleRayTracer/Light.cs:11-28 | the total light is never negative, and 0 with no sources |
| CrtLight.Illuminate | ConsoleRayTracer/Light.cs:11-28 | the foreach loop returns the total over the sources, in order |
| CrtLight.TotalAppend | ConsoleRayTracer/Light.cs:14-26 | the light of a + b is the light of a plus the light of b |
| CrtLight.SingleSource | ConsoleRayTracer/Light.cs:16-25 | a shadowed source gives 0; an unshadowed one gives max(intensity · brightness · direction·normal, 0) |
| CrtLight.ShadowedAddsNothing | ConsoleRayTracer/Light.cs:18-21 | adding a shadowed source changes nothing |
| CrtLight.IntensityScales | ConsoleRayTracer/Light.cs:20 | scaling a source's intensity by c ≥ 0 scales its share by c |
| CrtAnimatedEntity.SampleOr | ConsoleRayTracer/Animation/IAnimatedEntity.cs:32-34 | a missing animation gives the fallback; a present one gives the value it returns at t |
| CrtAnimatedEntity.Animated.constructor | ConsoleRayTracer/Animation/IAnimatedEntity.cs:8-19 | the wrapper keeps the entity and its animations, with the clock at 0, no offset, brightness 1 and reflectance 0 |
| CrtAnimatedEntity.Animated.Update | ConsoleRayTracer/Animation/IAnimatedEntity.cs:29-35 | the clock moves by dt and the cache holds every animation's sample at the new time, the defaults for missing ones |
| CrtAnimatedEntity.Animated.Hit | ConsoleRayTracer/Animation/IAnimatedEntity.cs:21-24 | a miss exactly when the child misses the ray moved by −offset; otherwise the child's hit moved by +offset with the cached brightness and reflectance |
| CrtAnimatedEntity.Animated.Snapshot | ConsoleRayTracer/Animation/IAnimatedEntity.cs:21-27 | the animated entity that hits and lights as the wrapper does until its next Update |
| CrtAnimatedEntity.SnapshotIsApply | ConsoleRayTracer/Animation/IAnimatedEntity.cs:21-27 | between updates the wrapper hits and lights exactly as the Apply wrapper with the cached offset, brightness and reflectance |
| CrtAnimatedEntity.CacheFollowsClock | ConsoleRayTracer/Animation/IAnimatedEntity.cs:29-35 | the cache depends only on the animations and the clock, not on the update history |
| CrtAnimatedEntity.NoAnimationsKeepDefaults | ConsoleRayTracer/Animation/IAnimatedEntity.cs:32-34 | without animations the wrapper holds no offset, brightness 1 and reflectance 0 |
| CrtAnimatedEntity.AnimatedNearest | ConsoleRayTracer/Animation/IAnimatedEntity.cs:21-24 | wrapping a nearest-hit entity gives a nearest-hit entity |
| CrtAnimator.PauseDebounce | ConsoleRayTracer/Animator.cs:23-32 | P clears the pause latch and toggles running only when the latch was set; every other key, and no key, sets the latch and keeps the flag |
| CrtAnimator.SpeedOnlyWhileRunning | ConsoleRayTracer/Animator.cs:27-28 | the speed changes only on K or L while running, by −sensitivity or +sensitivity, once per call |
| CrtAnimator.TimeStep | ConsoleRayTracer/Animator.cs:29-34 | running, time advances by dt · the new speed; paused, K moves it back and L forward by dt · speed, and other keys keep it |
| CrtAnimator.HeldPauseTogglesOnce | ConsoleRayTracer/Animator.cs:25-26 | holding P over any number of frames toggles running at most once, keeps the speed, and leaves the latch cleared |
| CrtAnimator.Animator.constructor | ConsoleRayTracer/Animator.cs:5-17 | the given sensitivity, speed and running flag, the latch set, and no time elapsed |
| CrtAnimator.Animator.Update | ConsoleRayTracer/Animator.cs:19-37 | the clock becomes the switch-then-step of the old clock, and the entity and the light are both handed the new elapsed time |
| CrtAnimationAnimator.AgreesWithTupleSwitch | ConsoleRayTracer/Animation/Animator.cs:23-36 | the two switches move speed, running flag and latch exactly as the single tuple switch does, and while running the delta is the time that switch adds |
| CrtAnimationAnimator.PausedDelta | ConsoleRayTracer/Animation/Animator.cs:29-38 | while paused the speed is kept and the delta is −100 · sensitivity on K, +100 · sensitivity on L, 0 otherwise, whatever dt |
| CrtAnimationAnimator.Animator.constructor | ConsoleRayTracer/Animation/Animator.cs:11-17 | the given sensitivity, speed and running flag, the change rate 100 · sensitivity, and the latch set |
| CrtAnimationAnimator.Animator.Switch | ConsoleRayTracer/Animation/Animator.cs:23-38 | the controls become the latch-then-speed step of the old ones and the delta is that step's |
| CrtAnimationAnimator.Animator.Update | ConsoleRayTracer/Animation/Animator.cs:19-41 | the entity's and the light's clocks each move by the delta (twice when they are one object) and both caches are resampled |
| CrtWorldAnimator.CameraCalls | ConsoleRayTracer/World/Animator.cs:36-42 | three calls: Adjust with the aspect ratio, then Move and Rotate with the frame's key and dt |
| CrtWorldAnimator.WorldAnimator.constructor | ConsoleRayTracer/World/Animator.cs:6-17 | the given sensitivity, speed and running flag, the latch set, and no time elapsed |
| CrtWorldAnimator.WorldAnimator.UpdateEntity | ConsoleRayTracer/World/Animator.cs:19-34 | the clock moves exactly as the tuple-switch clock's tick, and the entity is handed the new elapsed time |
| CrtWorldAnimator.WorldAnimator.UpdateCamera | ConsoleRayTracer/World/Animator.cs:36-42 | the camera receives Adjust, Move, Rotate and the clock is untouched |
| CrtWorldAnimator.WorldAnimator.UpdateScene | ConsoleRayTracer/World/Animator.cs:44-50 | the entity is updated first, with the ticked clock, then the camera |
| CrtLabel.LabelLayout | ConsoleRayTracer/Drawable/Label.cs:9-51 | the box is \|text\| + 2(B + P) by 1 + 2(B + P); a smaller canvas gets no call; otherwise the centred box is written once per cell, on the canvas, each cell with its intended content |
| CrtLabel.PlacedBox | ConsoleRayTracer/Drawable/Label.cs:19-50 | a box lying inside the canvas is written once per cell, on the canvas, with its intended cells |
| CrtLabel.LabelAt | ConsoleRayTracer/Drawable/Label.cs:11-12 | a canvas that fits gets the box at ((W − w) / 2, (H − h) / 2) |
| CrtLabel.BoxCells | ConsoleRayTracer/Drawable/Label.cs:19-50 | the outer B rings hold 1; character i of the text sits at column B + P + i of row B + P; every other cell holds 0 |
| CrtLabel.Draw | ConsoleRayTracer/Drawable/Label.cs:5-51 | the canvas receives exactly the label's calls: none when too small, the centred box otherwise |
| CrtLabel.DrawBox | ConsoleRayTracer/Drawable/Label.cs:19-50 | the canvas receives the box's calls at the given corner, border rows first |
| CrtLabel.DrawBorderRows | ConsoleRayTracer/Drawable/Label.cs:19-26 | the canvas receives, column by column, the B top and B bottom border cells |
| CrtLabel.DrawColumn | ConsoleRayTracer/Drawable/Label.cs:21-25 | the canvas receives column dx's top and bottom border cells, interleaved |
| CrtLabel.DrawMiddleRows | ConsoleRayTracer/Drawable/Label.cs:27-50 | the canvas receives the middle rows, one after the other |
| CrtLabel.DrawMiddleRow | ConsoleRayTracer/Drawable/Label.cs:29-49 | the canvas receives one middle row: border, padding, then text or blanks |
| CrtLabel.DrawBorders | ConsoleRayTracer/Drawable/Label.cs:29-33 | the canvas receives the row's left and right border cells, interleaved |
| CrtLabel.DrawPadding | ConsoleRayTracer/Drawable/Label.cs:34-38 | the canvas receives the row's left and right padding cells, interleaved |
| CrtLabel.DrawText | ConsoleRayTracer/Drawable/Label.cs:39-49 | the canvas receives the row's text cells: the characters on row B + P, blanks on the others |
| CrtTutorial.UpdateRules | ConsoleRayTracer/Drawable/Tutorial.cs:35-57 | the stage stays a valid caption index, never decreases and stays at 11 once there; it moves only for a key other than the last one; the key read is always remembered |
| CrtTutorial.HeldKeyMovesOnce | ConsoleRayTracer/Drawable/Tutorial.cs:37-56 | a key held over n ≥ 1 frames moves the walk once by the stage table if it was not the last key, and not at all if it was |
| CrtTutorial.NothingDrawnAtTheEnd | ConsoleRayTracer/Drawable/Tutorial.cs:8-22 | every stage before 11 has a label and the last draws nothing |
| CrtTutorial.Tutorial.constructor | ConsoleRayTracer/Drawable/Tutorial.cs:24-25 | stage 0 with no last key |
| CrtTutorial.Tutorial.Draw | ConsoleRayTracer/Drawable/Tutorial.cs:27-33 | the canvas receives exactly the stage label's calls, with border 1 and padding 2, or nothing |
| CrtTutorial.Tutorial.Update | ConsoleRayTracer/Drawable/Tutorial.cs:35-57 | the walk becomes the update of the old walk on the key |
| CrtCrosshair.CrosshairShape | ConsoleRayTracer/Drawable/Crosshair.cs:5-21 | nothing on a canvas under 3 by 3; otherwise five full-shade calls on exactly the centre (W / 2, H / 2) and its four neighbours, none twice, all on the canvas |
| CrtCrosshair.SameCallsAsNewer | ConsoleRayTracer/Drawable/Crosshair.cs:16-20 | the same calls as the newest crosshair, in another order |
| CrtCrosshair.Draw | ConsoleRayTracer/Drawable/Crosshair.cs:5-21 | the canvas receives exactly the crosshair's calls |
| CrtRenderer.RayTrace | ConsoleRayTracer/Renderer/RayTracer.cs:13-26 | the trace lies in [0, 1]; it is 0 once the depth is spent and when nothing is hit |
| CrtRenderer.SameAsNewerTrace | ConsoleRayTracer/Renderer/RayTracer.cs:13-26 | at every depth the trace equals the newest generation's trace, bounce for bounce |
| CrtRenderer.BlendIsLerp | ConsoleRayTracer/Renderer/RayTracer.cs:23 | k · reflected + (1 − k) · diffused is the newest generation's Lerp from diffused to reflected |
| CrtRenderer.Color | ConsoleRayTracer/Renderer/RayTracer.cs:5-11 | the colour of a pixel lies in [0, 1] and is 0 when the camera's ray hits nothing |
| CrtRenderer.ColorIsRender | ConsoleRayTracer/Renderer/RayTracer.cs:5-11 | Color is the newest generation's Render with a depth of 50 |
| CrtProgram.Diffused | ConsoleRayTracer/Program.cs:61 | the light at a hit point is never negative |
| CrtProgram.RayTrace | ConsoleRayTracer/Program.cs:53-67 | the trace lies in [0, 1]; it is 0 at depth 0 and when the world is missed |
| CrtProgram.HitShading | ConsoleRayTracer/Program.cs:59-65 | a hit with reflection 0 shows its light capped at 1; a hit with reflection 1 shows what the reflected ray sees one level down |
| CrtProgram.ReflectMirrors | ConsoleRayTracer/Program.cs:62 | for a unit normal the reflection flips the component along the normal and keeps the length of the direction |
| CrtProgram.PixelCoordinates | ConsoleRayTracer/Program.cs:50-51 | s = x / 120 and t = y / 100, both in [0, 1) for a pixel on the screen |
| CrtProgram.PixelColor | ConsoleRayTracer/Program.cs:50-51 | the pixel's colour lies in [0, 1] and is 0 when the camera's ray through it misses the world |
| CrtProgram.RandomInRangeBounds | ConsoleRayTracer/Program.cs:69-70 | a sample in [0, 1) and start < end give a value in [start, end) |
| CrtProgram.RandomInRangeInverse | ConsoleRayTracer/Program.cs:69-70 | the sample is recovered from the result whenever start ≠ end |
| CrtCamera.Moved | ConsoleRayTracer/Camera/Camera.cs:54-91 | after Move \|yaw\| < 2π, the pitch lies within ±(π/2 − 0.0001), and world-up is unchanged |
| CrtCamera.KeyRoles | ConsoleRayTracer/Camera/Camera.cs:56-79 | translation keys turn nothing, other keys move nothing, non-arrows turn nothing; Left and Right turn only the yaw and Up and Down only the pitch, by sensitivity · dt |
| CrtCamera.OppositeKeys | ConsoleRayTracer/Camera/Camera.cs:56-79 | S, A and Z move by the opposites of W, D and Space; Right and Down turn by the opposites of Left and Up |
| CrtCamera.MoveSeparates | ConsoleRayTracer/Camera/Camera.cs:56-82 | a non-translation key keeps the origin; a non-arrow key leaves the yaw at its remainder by 2π and the pitch at its clamped value |
| CrtCamera.Camera.constructor | ConsoleRayTracer/Camera/Camera.cs:23-49 | h = 2 tan(vFov · π / 360), w = h · aspect ratio, forward, right, up, level forward, yaw and pitch derived from lookAt − lookFrom, origin lookFrom |
| CrtCamera.Camera.Move | ConsoleRayTracer/Camera/Camera.cs:54-91 | the camera's view becomes Moved of the old view |
| CrtCamera.GetRayEdges | ConsoleRayTracer/Camera/Camera.cs:51-52 | the screen centre looks along forward; t = 0 lies h below it and s = 0 lies w to its left |
| CrtCamera.GetRayAffine | ConsoleRayTracer/Camera/Camera.cs:51-52 | every ray starts at the origin and its direction moves by 2·ds·w along right and 2·dt·h along up |
| RtAnimator.Animator.constructor | RayTracer/Essential/Animator.cs:6-17 | the given sensitivity, speed and running flag, the latch set, and no time elapsed |
| RtAnimator.Animator.Update | RayTracer/Essential/Animator.cs:19-34 | the clock moves exactly as the tuple-switch clock's tick and the entity is left sampled at the new elapsed time |
| RtTutorial.NextRules | RayTracer/Tutorial.cs:28-41 | the stage never goes back and stays in 0..9; stages 0 to 6 move on exactly for the keys they wait for, by one, except N on stage 0 which skips to 9; stages 7 and 8 move on for any key; stage 9 is final |
| RtTutorial.UpdateRules | RayTracer/Tutorial.cs:24-44 | the stage stays a valid label index, never decreases and stays at 9 once there; it moves only for a key other than the last one; the key read is always remembered |
| RtTutorial.HeldKeyMovesOnce | RayTracer/Tutorial.cs:26-43 | a key held over n ≥ 1 frames moves the walk once by the stage table if it was not the last key, and not at all if it was |
| RtTutorial.Tutorial.constructor | RayTracer/Tutorial.cs:19-20 | stage 0 with no last key |
| RtTutorial.Tutorial.Label | RayTracer/Tutorial.cs:5-22 | the caption is missing exactly on the last stage |
| RtTutorial.Tutorial.Update | RayTracer/Tutorial.cs:24-44 | the walk becomes the update of the old walk on the key |
| RtWindow.LabelLayout | RayTracer/Window/IWindow.cs:27-75 | a missing or empty label draws nothing; otherwise the \|text\| + 6 by 7 box centred by truncating division is written once per cell, outline 1, the text on row 3 from column 3, 0 elsewhere |
| RtWindow.LabelBox | RayTracer/Window/IWindow.cs:42-74 | wherever it sits, the box covers its cells once each with the label's cells |
| RtWindow.OnWindowExactlyWhenLargeEnough | RayTracer/Window/IWindow.cs:37-40 | with no size guard, a non-empty label's calls stay on the window exactly when it is at least \|text\| + 6 wide and 7 tall |
| RtWindow.SameAsLabel | RayTracer/Window/IWindow.cs:34-74 | on a window large enough, the calls are those of the middle generation's label with border 1 and padding 2 |
| RtWindow.LabelAt | RayTracer/Window/IWindow.cs:37-40 | a non-empty label's box sits at the truncated halves of (W − w) and (H − h) |
| RtWindow.Draw | RayTracer/Window/IWindow.cs:27-75 | the window receives exactly the label's calls |
| RtWindow.DrawText | RayTracer/Window/IWindow.cs:37-74 | after the guard, the window receives the centred box's calls |
| RtRenderer.RayTrace | RayTracer/Renderer/RayTracer.cs:12-23 | the trace lies in [0, 1]; it is 0 once the depth is spent and when nothing is hit |
| RtRenderer.SelfLit | RayTracer/Renderer/RayTracer.cs:12-23 | the entity lights itself: at every depth the trace is the middle and the newest generations' trace with the entity passed as the light too |
| RtRenderer.SelfLitMiddle | RayTracer/Renderer/RayTracer.cs:14-20 | bounce for bounce, the trace equals the middle generation's trace with the entity as the light |
| RtRenderer.HitShading | RayTracer/Renderer/RayTracer.cs:14-20 | a hit with reflectance 0 shows the entity's own light, clamped to [0, 1]; a hit with reflectance 1 shows what the reflected ray sees one level down |
| RtRenderer.PixelColor | RayTracer/Renderer/RayTracer.cs:5-10 | the pixel's colour lies in [0, 1] and is 0 when the camera's ray misses the entity |
| RtRenderer.PixelIsRender | RayTracer/Renderer/RayTracer.cs:5-10 | the pixel is the newest generation's Render with the entity as its own light and depth 50 |
| RtCamera.TurnRules | RayTracer/Camera/Camera.cs:74-81 | an arrow changes exactly one angle by ±dr (Left and Right the yaw, Up and Down the pitch); any other key, or none, changes neither; opposite arrows undo each other |
| RtCamera.MoveSeparates | RayTracer/Camera/Camera.cs:51-93 | a translation key moves only the origin; any other key, or none, keeps the origin and leaves \|yaw\| < 2π and the pitch within ±(π/2 − 0.0001) |
| RtCamera.OtherKeysNormalise | RayTracer/Camera/Camera.cs:66-83 | a key that neither translates nor turns still wraps the yaw by 2π and clamps the pitch |
| RtCamera.TranslationRules | RayTracer/Camera/Camera.cs:58-65 | S, A and Z move by the opposites of W, D and Space, and Space moves straight up by dp |
| RtCamera.Camera.constructor | RayTracer/Camera/Camera.cs:21-42 | height = tan(vFov · π / 360), width = height · aspect ratio, speed and sensitivity per millisecond, and the view vectors and angles derived from lookAt − lookFrom |
| RtCamera.Camera.Move | RayTracer/Camera/Camera.cs:51-68 | the camera's view becomes Moved of the old view |
| RtCamera.Camera.Rotate | RayTracer/Camera/Camera.cs:70-93 | the view becomes Rotated with dr = sensitivity · dt, and the offset returned is zero |
| RtCamera.GetRayEdges | RayTracer/Camera/Camera.cs:44-49 | the screen centre looks along forward; t = 0 is the top edge, height above it, and s = 0 the left edge, width to its left |
| RtCamera.FlippedAgainstMiddle | RayTracer/Camera/Camera.cs:46-48 | the direction through (s, t) is `CrtCamera.ScreenDirection` (the direction the middle generation's `GetRay` uses) at (s, 1 − t) for the same view vectors and sizes: the screen is upside down against the middle generation's |

## Left out

- Floating point: floats are exact `real`s. Rounding of constants, NaN and ±∞ are not modelled. Divisions by zero that yield ±∞ or NaN in C# are handled as follows. A zero direction component is a miss (`None`). A zero-height resize and a zero-radius sphere are covered in their own lines below. The NaN that `Plane` in `src/Entity/Entity.cs:84-85` and in `ConsoleRayTracer/Entity/Entities.cs:99-100` lets through is therefore not reproduced.
- Square root, sine, cosine, `pow` and `Vector3.Normalize` are parameters (the `Maths` record), so the camera basis, circular paths and the `pow`/`cos`/`sin` interpolators are proved only under the properties each lemma assumes of them.
- The lateral surfaces of sphere, cylinder and cone beyond the discriminant test and the choice of root, and the composite shapes (`Cylinder`, `Cone`, `Cuboid`, `RectPrism` in `src/Entity/Entity.cs:110-237` and `ConsoleRayTracer/Entity/Entities.cs:128-270`): they are `And` trees over quadratic surfaces, and the `And`/`Apply` rules cover their structure.
- The `Parallel.For` pixel sweep of `src/Canvas/ICanvas.cs:20-23` runs as a sequential loop over the same disjoint cells (`SrcCanvas.SetAll`); concurrency is not modelled. The sweeps of `ConsoleRayTracer/Canvas/ICanvas.cs` and `RayTracer/Window/IWindow.cs:14-25` are not modelled.
- Text length and indexing: C# `Text.Length` and `Text[dx]` (`ConsoleRayTracer/Drawable/Label.cs:9,43`, `RayTracer/Window/IWindow.cs:37,67`) count UTF-16 code units, while the model counts Dafny characters; every caption in the program is ASCII, where the two agree.
- Terminal and Win32 input and output (`WindowsTerminal`, `Win32`, `Screen.cs`), `GetKeyState` polling, `Console` writes and window resizing by the operating system: the canvas records the calls it receives instead.
- Main loops, `Stopwatch` timing, `Random` seeding and scene literals (`Program.cs`, `App.cs`, `Game.cs`, `Scene.cs`, `World.cs` bootstraps): elapsed time and random draws are parameters.
- Scene persistence (the `WorldsManager` files, JSON and the reflection-based constructor resolver), the WinForms UI, and the interface-only files, which contain no logic.
- `RayTracer/Axis.cs`, `RayTracer/Entity/IEntity.cs` and `RayTracer/Animation/IAnimation.cs` are not part of this model. Their `src/` counterparts are modelled.
- `RayTracer/Camera/ICamera.cs` declares `GetRay` with three arguments, but `RayTracer/Camera/Camera.cs` defines it with two. The model follows the class.
- SrcAnimation.Leg: a chain's leg is an `Animation` or a `Constant`. The source's chains take any `IAnimation`, so a chain may be a leg of another chain, sampled with no wrap. No caller nests chains, and the model does not cover it (the `ConsoleRayTracer/` chains in `CrtAnimations` do nest).
- SrcCamera.Controller.Handle: a resize event with height 0 leaves the pending ratio unchanged. In the source the ratio width / 0 is +∞ or NaN, is stored, and then sets the camera's width to a non-finite value (`src/Camera/Camera.cs:69-71, 83-86`). Only non-zero heights are covered.
- CrtHittable.SphereHit: a sphere of radius 0 is a miss. The source still reports the hit, with the normal Point / 0, which is not finite (`ConsoleRayTracer/Shape.cs:96`).
- Events are a tagged sum: an event whose tag and payload disagree reads as neither kind. The source's explicit-layout `Data` (`EventData`) union would reinterpret the payload's bytes (`src/Event/Event.cs:20-27`, `ConsoleRayTracer/Event/Event.cs:13-19`). No code builds such an event.
- Animated entities require their timelines to be well formed (a positive duration, a defined value at every sampled time). On an empty or ill-formed timeline the source throws; the model does not model the exception.
- CrtProgram.RayTrace: the recursion depth is a `nat`. The source's `int` depth stops only at zero and defaults to 50, so a negative depth, which would recurse without bound, is not modelled.
- CrtLabel.LabelLayout: covers only a non-negative border width and padding; the layout for negative values is not described.
