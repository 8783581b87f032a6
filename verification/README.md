# Singularity emblem: spin-up, tumble and tilt

A Dafny model of the animation logic of the "Singularity" page: a stack of
five glowing rings that tumble about all three axes, open with a one-second
"wind-down" from a hundredfold rotation speed, and tilt as a group to follow
the pointer.

The model covers the three pieces of state and arithmetic in `pages/index.js`
that can be stated apart from rendering, plus the fixed layer layout:

- `SpinUp` (spinup.dfy): the one-shot transition run by the page's mount
  effect. The clock and `requestAnimationFrame` become an explicit sequence of
  elapsed times, one per animation frame; `Home` records `isFirstRender`,
  whether a callback is scheduled, the captured opening speeds and the
  rotation-speed state. `Mount`, `Tick` and `Run` advance it.
- `Frame` (frame.dfy): the per-frame `useFrame` tumble of a ring mesh.
- `Tilt` (tilt.dfy): the pointer-move handler, from pointer position and
  viewport size to the group's yaw and pitch.
- `Config` (config.dfy): the five layers, their depths, radii, nominal speeds
  and glow-billboard placement.
- `Scene` (scene.dfy): the page as one state driven by five event kinds,
  with the invariants that hold for its whole lifetime.
- `Transform` (transform.dfy): Euler rotations and React refs that may be unset.

All quantities are `real`. π is kept abstract as a positive constant `Pi`,
and `MaxAngle = Pi / 8`.

Two details of the code are easy to misread:

- The pointer handler stores `-angleX` as the group's pitch
  (`rotation && -angleX`, whose left operand is always a truthy object), not
  `angleX`. A pointer at the top edge therefore gives `angleX = MaxAngle` but
  a stored pitch of `-MaxAngle` (`Tilt.EdgeScenarios`).
- The transition does not assign the nominal speed at its end. It evaluates
  `initial + (initial / 100 - initial) * 1`. Over the reals this is exactly
  the nominal speed; in floating point it need not be.

## Model

| member | source | states |
|---|---|---|
| Config.Layers | pages/index.js:169-203 | exactly five layers; layer i is rendered with speed-state entry i; depths strictly decrease front to back (1.25, 0.75, -0.25, -1, -1.25); every radius and tube is positive; all layers are centred on the z axis |
| Config.NominalSpeedsPositive | pages/index.js:102-104 | the initial speed state has one entry per layer, and every entry is positive |
| Config.GlowSprite | pages/index.js:91-95 | a glow billboard sits at its mesh's x and y but in front of it in z, and is larger than the ring radius |
| Config.SpritesKeepLayering | pages/index.js:91-94 | billboards keep the front-to-back order of their meshes; a larger ring gets a larger billboard |
| SpinUp.Progress | pages/index.js:114-119 | progress never exceeds 1; it equals 1 exactly when elapsed is at least 1000 ms; it is non-negative for non-negative elapsed and 0 at elapsed 0; below 1000 ms it is elapsed as a share of the duration |
| SpinUp.ProgressMonotone | pages/index.js:118-119 | a later clock reading never gives less progress |
| SpinUp.Interpolate | pages/index.js:121-124 | at progress 0 the speed is the opening speed; at progress 1 it is the opening speed divided by 100 |
| SpinUp.InterpolateIsScaledNominal | pages/index.js:121-124 | interpolating from 100 times a nominal speed equals the nominal speed times one factor (100 - 99·progress) that depends on progress alone |
| SpinUp.SpeedAt | pages/index.js:111-124 | a ring's speed is 100 times nominal at the start and exactly nominal from 1000 ms on |
| SpinUp.SpeedBounds | pages/index.js:111-124 | for a non-negative nominal speed, the speed never drops below nominal, and never exceeds 100 times nominal once elapsed is non-negative |
| SpinUp.SpeedNonIncreasing | pages/index.js:117-124 | for a non-negative nominal speed, a later clock reading never gives a higher speed |
| SpinUp.Boosted | pages/index.js:111 | the opening speeds keep length and order, and each divided by 100 gives back the speed it came from |
| SpinUp.Mount | pages/index.js:108-113 | on the first run it boosts every speed 100-fold, keeps their number and schedules a callback; on any later run it changes nothing; afterwards the first-render flag is cleared |
| SpinUp.MountAtMostOnce | pages/index.js:105-110 | running the mount effect twice is the same as running it once |
| SpinUp.Tick | pages/index.js:117-131 | a scheduled callback sets every speed to its opening speed scaled by the shared factor for the current progress; it reschedules exactly when elapsed is below 1000 ms; with nothing scheduled the state is unchanged; the opening speeds are never touched |
| SpinUp.TickAtStart | pages/index.js:119-124 | a frame at elapsed 0 leaves every ring at its opening speed |
| SpinUp.TickAtEnd | pages/index.js:119-130 | a frame at or after 1000 ms leaves every speed at opening/100 and schedules nothing |
| SpinUp.TickLockstep | pages/index.js:119-124 | after a frame, any two rings' speeds stand in the ratio of their opening speeds: all rings decelerate in lockstep |
| SpinUp.Run | pages/index.js:128-133 | the chain of rescheduled callbacks fed a run of frames keeps the transition started and its opening speeds untouched, and once it stops scheduling it never resumes |
| SpinUp.SteadyIsTerminal | pages/index.js:128-130 | once nothing is scheduled, any further frames leave the state unchanged |
| SpinUp.RunPendingIff | pages/index.js:128-133 | a running transition is still scheduled after a run of frames if and only if every frame came before 1000 ms |
| SpinUp.RunSettles | pages/index.js:119-130 | if any frame of a run comes at or after 1000 ms, the run ends unscheduled with every speed at opening/100 |
| SpinUp.RunStaysInRange | pages/index.js:119-124 | with non-negative opening speeds and clock, every speed stays between opening/100 and the opening speed through any run of frames |
| SpinUp.ConsecutiveTicksNonIncreasing | pages/index.js:117-129 | on a clock that does not run backwards, no ring speeds up from one frame to the next |
| SpinUp.SpinUpSettlesToNominal | pages/index.js:108-133 | from the first render, once any frame arrives at or after 1000 ms, every speed is exactly its nominal value and nothing is scheduled |
| SpinUp.AnimateTransition | pages/index.js:108-133 | the browser-driven opening consumes frames up to and including the first at or after 1000 ms (or all of them if none is); its speeds are those of `Run` over exactly the frames consumed, one per ring; if some frame is at or after 1000 ms they are exactly the nominal speeds |
| SpinUp.HalfwayScenario | pages/index.js:114-124 | nominal speed 0.05 at 500 ms gives 2.525 |
| Frame.Advance | pages/index.js:60-64 | one frame adds delta times speed to x, and the same amount to y and z; an unset mesh ref is left unchanged |
| Frame.AdvanceAll | pages/index.js:60-64 | the renderer calling the frame callback frame after frame keeps a mounted mesh mounted and an unset ref unset, and turns all three axes by the same amount |
| Frame.AdvanceAllAccumulates | pages/index.js:60-64 | over any run of frames each axis turns by the same total, the sum of delta times speed over the frames |
| Frame.UnsetStaysUnset | pages/index.js:61-63 | frames before the mesh is mounted have no effect |
| Frame.RotationStrictlyIncreases | pages/index.js:60-64 | with positive frame times and positive speeds, every axis angle strictly increases over a non-empty run |
| Tilt.TiltAngles | pages/index.js:137-146 | pointer at the viewport centre gives zero on that axis; at the left and right edges the yaw is -MaxAngle and +MaxAngle; at the top and bottom edges angleX is +MaxAngle and -MaxAngle |
| Tilt.TiltBounded | pages/index.js:139-146 | for a pointer inside the viewport both angles lie within ±MaxAngle |
| Tilt.TiltRoundTrip | pages/index.js:139-146 | the pointer position is recovered exactly from the two angles, so the map is invertible |
| Tilt.TiltMonotone | pages/index.js:141-146 | moving the pointer right never lowers the yaw; moving it down never raises angleX |
| Tilt.ApplyTilt | pages/index.js:148-151 | an unset group ref is left alone; otherwise the yaw becomes angleY, the pitch becomes -angleX and the roll is untouched |
| Tilt.HandleMouseMove | pages/index.js:137-152 | the stored pitch equals (pointer y offset / half height)·MaxAngle and the yaw equals (pointer x offset / half width)·MaxAngle; roll is untouched; an unset group ref is left alone |
| Tilt.TiltOverwrites | pages/index.js:148-151 | two tilts in a row leave what the second alone leaves: the rotation is overwritten, not accumulated |
| Tilt.HandleMouseMoveBounded | pages/index.js:137-151 | for a pointer inside the viewport the group's stored yaw and pitch stay within ±MaxAngle |
| Tilt.EdgeScenarios | pages/index.js:139-150 | on a 1000×800 viewport, (1000,400) gives yaw MaxAngle and angleX 0; (500,0) gives yaw 0 and angleX MaxAngle, stored as pitch -MaxAngle |
| SpinUp.Fresh | pages/index.js:101-106 | at the first render the effect has not run, nothing is scheduled, the speed state holds the given nominal speeds, and the effect will start the transition |
| Scene.Initial | pages/index.js:101-106 | the page starts with the nominal speed table, the effect not yet run, and every ring ref and the group ref unset |
| Scene.Attach | pages/index.js:85-90 | mounting a node gives an unset ref a node at rest and leaves an attached ref as it is |
| Scene.Step | pages/index.js:100-209 | mounting attaches every unset ref; the effect run applies `Mount` and an animation frame applies `Tick` (nothing before the effect has run); a render frame advances each ring by the speed its layer is rendered with; a pointer move writes `HandleMouseMove`'s result into the group; each event leaves every other part of the state unchanged and the numbers of rings and speeds are kept |
| Scene.EventsBeforeMountAreIgnored | pages/index.js:60-64 | from any state with every ref still unset, including states after the spin-up has started, a render frame or a pointer move changes nothing |
| Scene.InitialInvariant | pages/index.js:102-106 | the state after the first render satisfies the lifetime invariant |
| Scene.StepPreservesInvariant | pages/index.js:100-209 | every event with a pointer inside a non-empty viewport keeps five rings with five non-negative speeds and a group tilt within ±MaxAngle |
| Scene.Replay | pages/index.js:100-209 | any run of such events from an invariant state ends in an invariant state |
| Scene.ReachableInvariant | pages/index.js:100-209 | every state reachable from the first render has five rings and satisfies the lifetime invariant |

## Left out

- Shader source strings, `ShaderMaterial` and `MeshStandardMaterial` setup (pages/index.js:24-58, 71-81), including the emissive intensity `glowIntensity / 10`: GPU and three.js behaviour.
- `TorusKnotGeometry` construction and `useMemo` caching (pages/index.js:66-69): a library call whose result the model cannot see.
- `useTexture`, `Canvas`, `OrbitControls`, lights and CSS styling: rendering and UI plumbing.
- The `UpperRing`, `OuterRing`, `InnerRing` and `CenterRing` components: components/ is not part of this model. `Config.Layers` records only the parameters the page passes them.
- `performance.now` and `requestAnimationFrame`: replaced by an explicit sequence of elapsed times, one per animation frame.
- React's state-update batching: the rendered speeds are taken to change as soon as a callback sets them.
- Scene.Step: mounts all six nodes in one event. The order in which the renderer attaches them is not modelled.
- Scene.Step: assumes the four rings from components/ tumble like `Singularity` (pages/index.js:60-64); their own frame callbacks are not part of this model.
- IEEE-754 rounding: all arithmetic is over the reals. In floating point `speed * 100 / 100` need not equal `speed`.
- Tilt.TiltAngles: a zero-width or zero-height viewport is excluded by a precondition. The source would divide by zero there.
- Tilt.Pi: only its positivity is used. The value of `Math.PI` is not modelled.
- Scene.StepPreservesInvariant: assumes pointer positions lie inside the viewport. The page's event target fills the viewport, and the bound does not hold outside it.
- SpinUp.SpeedNonIncreasing: requires a non-negative nominal speed. For a negative nominal speed the interpolation runs the other way; every configured speed is positive.
