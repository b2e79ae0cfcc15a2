# Adaptive DoF gripper control, modelled in Dafny

This project models the control core of the 2D adaptive-DoF teleoperation
simulation (`JS_Simulation/WebsiteFiles/2DSim.js`): the `Gripper` class that
turns operator input into motor commands through a small set of "adaptive"
degrees of freedom (DoFs). An external model proposes four candidate DoF
vectors, each of the form [x, y, rotation, grip]. The gripper binds one or two
of them to the adaptive input axes (the keys w/s and d/a, or the joystick
axes). The model covers:

- the vector helpers `addVec` and `subVec`;
- the idle-time reset and rotation of the chosen DoFs (`updateChosenDofs`);
- the matching of the old chosen vectors against a freshly received DoF set,
  with its two sign policies (`storeMostSimilarChosenDofs`);
- the adaptive-input test, the velocity built from keys and joystick, and the
  clamp that scales a velocity into a motor command (`update`,
  `anyAdaptiveKeyPressed`, `scaleVelocityVector`);
- the request package with its "send only if changed" test (`getState`,
  `normaliseRotation`);
- the handling of the in-flight flag and of the model's response;
- the key handlers;
- the gamepad dead zone.

Modules:

- `Vectors` (vectors.dfy): the 4-vectors, `addVec`/`subVec`, squared distances.
- `DofRotation` (rotation.dfy): the specification of `updateChosenDofs`.
  `UpdateChosen` says what the method does, and lemmas prove that it keeps the
  chosen indices distinct, moves every slot, and is gated by the 5000 ms timer.
- `DofMatcher` (matcher.dfy): the specification of the DoF matcher.
  - The distance table.
  - The enumeration of bindings, proved to be exactly the valid ones.
  - The first-minimum selection, proved optimal.
  - The keepOrientation and largestComponent sign policies and what they
    guarantee.
- `Input` (input.dfy):
  - the key bindings and the dead zone;
  - the specification `Velocity` of the operator velocity, with lemmas: no
    adaptive input means standard keys only, and one held adaptive key moves
    along its bound DoF;
  - the clamp to the unit circle.
- `Observation` (state.dfy): `normaliseRotation`, the 8-value state tail, the
  request package and its deduplication test.
- `Control` (gripper.dfy): the class `Gripper`.
  - Its fields are those of the source.
  - Its methods update them in place, each proved against the functions above.
  - A ghost counter `pending` tracks unanswered requests.

Three behaviours of the source are worth knowing when reading the model:

- **Requests in flight.** The in-flight flag `requestRunning` (2DSim.js:163,
  275, 279, 283) keeps one request to the DoF model outstanding at a time in
  every tracking mode except `updateDofsOnlyIdle`.
  - In that mode, every idle tick clears the flag (lines 288-290) while a
    request may still be unanswered.
  - The next idle tick whose state differs then sends a second request.
  - `Gripper.OnResponse` and `Gripper.Update` therefore preserve
    `InFlightConsistent` only outside that mode.
  - `IdleTicksSendTwoRequests` builds a gripper and two idle ticks that leave
    two requests unanswered.
- **`normaliseRotation`.** It does not fix the half turns: it maps +π to −π
  and −π to +π (`NormaliseRotationHalfTurns`). Its range is the closed
  interval [−π, π], and it is not idempotent at the two ends.
- **Reset when already canonical.** When an unforced reset finds the chosen
  DoFs already canonical, the binding is rotated rather than kept; a binding
  that is not canonical is reset (`UpdateChosenGate`).

## Model

| member | source | states |
|---|---|---|
| Vectors.AddSubRoundTrip | JS_Simulation/WebsiteFiles/2DSim.js:11-12 | subVec undoes addVec and addVec undoes subVec, and addVec is commutative |
| Vectors.SqDistScaled | JS_Simulation/WebsiteFiles/2DSim.js:223-224 | measuring o against sign·n is measuring o against n scaled by that sign |
| Vectors.SqDistNonNegative | JS_Simulation/WebsiteFiles/2DSim.js:220-224 | the summed squared distance of the matcher is never negative |
| DofRotation.CanonicalIsValid | JS_Simulation/WebsiteFiles/2DSim.js:202-203 | the reset binding [0..n-1] is a set of distinct DoF indices and passes the source's canonical check |
| DofRotation.FreeAhead | JS_Simulation/WebsiteFiles/2DSim.js:210-212 | with fewer than four chosen indices, one of the next three cyclic indices is free, so the `includes` loop stops within three steps |
| DofRotation.NextFree | JS_Simulation/WebsiteFiles/2DSim.js:209-212 | the index where the search stops is a DoF index not currently chosen |
| DofRotation.ReplacedKeepsDistinct | JS_Simulation/WebsiteFiles/2DSim.js:213 | writing a free index into a slot keeps the chosen indices distinct |
| DofRotation.RotateFromProperties | JS_Simulation/WebsiteFiles/2DSim.js:208-214 | rotating the slots from i on keeps the length, keeps the indices distinct and leaves every slot different from its original index |
| DofRotation.RotatedMovesEverySlot | JS_Simulation/WebsiteFiles/2DSim.js:208-214 | one rotation step moves every chosen slot to another index and keeps them distinct and in range |
| DofRotation.UpdateChosenKeepsInvariant | JS_Simulation/WebsiteFiles/2DSim.js:197-216 | every outcome of updateChosenDofs holds exactly n distinct DoF indices |
| DofRotation.UpdateChosenGate | JS_Simulation/WebsiteFiles/2DSim.js:197-216 | nothing changes unless forced or more than 5000 ms idle; otherwise the timer becomes now, the reset flag clears, and the binding is canonical for a forced reset or an unforced reset of a non-canonical binding, and one rotation step for an unforced reset of a canonical binding or when no reset is pending |
| DofRotation.UpdateChosenNotAccumulated | JS_Simulation/WebsiteFiles/2DSim.js:198-199 | after the timer fires at t, unforced checks within the next 5000 ms change nothing |
| DofMatcher.BestSign | JS_Simulation/WebsiteFiles/2DSim.js:223-225 | the match keeps the smaller of the two signed distances, its sign is ±1, and +1 is kept exactly when it is strictly closer |
| DofMatcher.DistanceTableEntry | JS_Simulation/WebsiteFiles/2DSim.js:221-226 | entry (i, j) of the distance table is the nearer of new candidate j and its negation to old chosen vector i: its sign is ±1, its distance is the distance at that sign and no larger than either signed distance, and the sign is +1 exactly when the candidate itself is strictly nearer |
| DofMatcher.OrderedPair | JS_Simulation/WebsiteFiles/2DSim.js:229 | the k-th pair of the enumeration holds two distinct DoF indices |
| DofMatcher.Permutations | JS_Simulation/WebsiteFiles/2DSim.js:228-229 | every enumerated binding is a valid binding of one or two axes |
| DofMatcher.PermutationsListed | JS_Simulation/WebsiteFiles/2DSim.js:228-229 | the enumeration is exactly the source's literal list, in the same order |
| DofMatcher.PermIndex | JS_Simulation/WebsiteFiles/2DSim.js:228-229 | every valid binding of one or two axes appears in the enumeration, at the computed position |
| DofMatcher.PermutationsExhaustive | JS_Simulation/WebsiteFiles/2DSim.js:228-229 | the enumeration lists exactly the valid bindings (both directions) |
| DofMatcher.FirstArgMinIsFirstMinimum | JS_Simulation/WebsiteFiles/2DSim.js:231 | the reduce keeps an index of the minimum, and every earlier index is strictly larger |
| DofMatcher.BestPermutation | JS_Simulation/WebsiteFiles/2DSim.js:231 | the selected binding is a valid binding of n axes |
| DofMatcher.BestPermutationIsOptimal | JS_Simulation/WebsiteFiles/2DSim.js:228-231 | no valid binding scores less than the selected one, and every binding enumerated before it scores strictly more |
| DofMatcher.IndexOf | JS_Simulation/WebsiteFiles/2DSim.js:237-238 | the slot that a selected candidate index belongs to |
| DofMatcher.KeepOrientationIsCloser | JS_Simulation/WebsiteFiles/2DSim.js:236-239 | keepOrientation leaves each selected candidate no farther from its slot's old vector than its negation; unselected candidates are unchanged |
| DofMatcher.SignFlipUndone | JS_Simulation/WebsiteFiles/2DSim.js:236-239 | a candidate returned as the old vector or its negation is restored to the old vector |
| DofMatcher.SignOfFlippedCopy | JS_Simulation/WebsiteFiles/2DSim.js:223-225 | the recorded sign turns a copy or a negated copy back into the original |
| DofMatcher.ZeroDistToNegation | JS_Simulation/WebsiteFiles/2DSim.js:224 | only the zero vector is at distance zero from its own negation |
| DofMatcher.LargestIndex | JS_Simulation/WebsiteFiles/2DSim.js:241 | the reduce keeps the first component of largest magnitude |
| DofMatcher.UprightLargestNonNegative | JS_Simulation/WebsiteFiles/2DSim.js:240-242 | largestComponent yields the vector or its negation, with the same largest index, holding a non-negative value there |
| DofMatcher.UprightIdempotent | JS_Simulation/WebsiteFiles/2DSim.js:240-242 | applying largestComponent twice equals applying it once |
| Input.DeadZoneProperties | JS_Simulation/WebsiteFiles/2DSim.js:612 | the dead zone stays within ±1, gives 0 or a magnitude of at least 0.01, never reverses direction, passes mid-range readings and is idempotent |
| Input.JoystickInput | JS_Simulation/WebsiteFiles/2DSim.js:609-612 | the joystick vector computed from a reading is [-axis 1, axis 0, axis 2, trigger difference] through the dead zone, every entry within ±1 and either 0 or at least 0.01 in magnitude |
| Input.KeySumIdle | JS_Simulation/WebsiteFiles/2DSim.js:297-302 | with no adaptive key held the adaptive keys add nothing |
| Input.JoySumIdle | JS_Simulation/WebsiteFiles/2DSim.js:306-308 | with the adaptive joystick axes at zero the joystick adds nothing |
| Input.InactiveMeansStandardOnly | JS_Simulation/WebsiteFiles/2DSim.js:297-318 | when adaptive input is not active, the velocity is exactly the standard keys' velocity |
| Input.KeySumSingle | JS_Simulation/WebsiteFiles/2DSim.js:297-302 | with only the "+" key of axis a held, the key sum is the DoF vector of axis a |
| Input.SingleAdaptiveKey | JS_Simulation/WebsiteFiles/2DSim.js:297-318 | holding only the "+" key of adaptive axis a moves the gripper along exactly the DoF bound to a |
| Input.SpeedScaledNorm | JS_Simulation/WebsiteFiles/2DSim.js:194-195 | speed scaling multiplies the squared planar speed by 2500 (the speed by 50), the rotation by 70 and the grip by 0.05 |
| Input.ClampXYProperties | JS_Simulation/WebsiteFiles/2DSim.js:188-193 | the clamped planar part has length at most one: exactly one and the same direction when it was longer, unchanged otherwise; rotation and grip are untouched |
| Observation.FullTurnRemainder | JS_Simulation/WebsiteFiles/2DSim.js:178 | the `%` of a non-negative angle lies in [0, 2π) and differs from it by whole turns |
| Observation.NormaliseRotation | JS_Simulation/WebsiteFiles/2DSim.js:177-180 | the normalised angle lies in [-π, π] |
| Observation.NormaliseRotationCongruent | JS_Simulation/WebsiteFiles/2DSim.js:177-180 | the normalised angle differs from the input by whole turns |
| Observation.NormaliseRotationFixesInterior | JS_Simulation/WebsiteFiles/2DSim.js:177-180 | angles strictly inside (-π, π) are unchanged |
| Observation.NormaliseRotationHalfTurns | JS_Simulation/WebsiteFiles/2DSim.js:177-180 | π and -π are swapped, so normalising is not idempotent there |
| Observation.StateTail | JS_Simulation/WebsiteFiles/2DSim.js:181-185 | the eight values after the velocity: target position and the two boxes, headings in [-π, π] |
| Observation.SameAsLastIsEquality | JS_Simulation/WebsiteFiles/2DSim.js:277 | for packages of one length, "nothing changed" is exactly equality |
| Observation.FirstRequestSent | JS_Simulation/WebsiteFiles/2DSim.js:164 | the initial last package never blocks the first request of a selected model |
| Observation.NoImmediateResend | JS_Simulation/WebsiteFiles/2DSim.js:277-278 | the package just sent is not sent again |
| Control.ClampNorm | JS_Simulation/WebsiteFiles/2DSim.js:188-190 | when the planar part is longer than one the norm is positive and squares to its squared length |
| Control.CommandBounded | JS_Simulation/WebsiteFiles/2DSim.js:321-326 | the planar command speed is at most 50, exactly 50 when the world-frame planar request is longer than one, and an unclamped speed-scaling of the world velocity otherwise; the rotation and grip commands are 70 and 0.05 times the request |
| Control.Matched | JS_Simulation/WebsiteFiles/2DSim.js:218-246 | the stored binding has n distinct DoF indices and is the old one unless tracking |
| Control.TrackedBindingIsClosest | JS_Simulation/WebsiteFiles/2DSim.js:228-235 | under trackDofs the stored binding has the least summed distance of all valid bindings |
| Control.Gripper.constructor | JS_Simulation/WebsiteFiles/2DSim.js:140-169 | the initial fields: canonical binding, timer at now, initial DoFs, no key held, nothing in flight |
| Control.Gripper.UpdateChosenDofs | JS_Simulation/WebsiteFiles/2DSim.js:197-216 | the in-place reset or rotation leaves exactly the state UpdateChosen specifies |
| Control.Gripper.NextFreeSlot | JS_Simulation/WebsiteFiles/2DSim.js:209-212 | the `includes` loop stops at NextFree of the slot's index |
| Control.Gripper.KeyDownSpecialButtons | JS_Simulation/WebsiteFiles/2DSim.js:334-346 | "q" resets to the canonical binding, "e" rotates once, both consumed; other keys change nothing |
| Control.Gripper.KeyPressed | JS_Simulation/WebsiteFiles/2DSim.js:347-358 | the key is marked held and consumed exactly when special or bound |
| Control.Gripper.KeyReleased | JS_Simulation/WebsiteFiles/2DSim.js:359-361 | the key is marked released and nothing else changes |
| Control.Gripper.HandleJoystick | JS_Simulation/WebsiteFiles/2DSim.js:604-614 | with a gamepad, the gripper's joystick input becomes the dead-zoned reading, so every stored entry is within ±1 and either 0 or at least 0.01 in magnitude; without one it is cleared |
| Control.Gripper.AnyAdaptiveKeyPressed | JS_Simulation/WebsiteFiles/2DSim.js:247-261 | true exactly when a live adaptive key is held or an adaptive joystick axis is off zero |
| Control.Gripper.AdaptiveKeyVelocity | JS_Simulation/WebsiteFiles/2DSim.js:297-302 | the adaptive-key loop computes KeySum over the chosen DoF vectors |
| Control.Gripper.JoystickVelocity | JS_Simulation/WebsiteFiles/2DSim.js:306-308 | the joystick loop adds the joystick-weighted sum of the chosen DoF vectors |
| Control.Gripper.StdKeyVelocity | JS_Simulation/WebsiteFiles/2DSim.js:313-318 | the standard-key loop adds each axis's standard-key weight |
| Control.Gripper.LocalVelocity | JS_Simulation/WebsiteFiles/2DSim.js:270-318 | the velocity built by update is Velocity of the held keys, joystick and chosen DoFs |
| Control.Gripper.ScaleVelocityVector | JS_Simulation/WebsiteFiles/2DSim.js:187-196 | the buffer is clamped in place and the command is the clamped vector speed-scaled |
| Control.Gripper.Orient | JS_Simulation/WebsiteFiles/2DSim.js:236-239 | the sign loop yields the keepOrientation DoF set |
| Control.Gripper.MatchDofs | JS_Simulation/WebsiteFiles/2DSim.js:221-243 | the table, the closest binding and the sign loop give exactly the binding and DoF set of Matched |
| Control.Gripper.StoreMostSimilarChosenDofs | JS_Simulation/WebsiteFiles/2DSim.js:218-246 | binding and DoF set become those of Matched, and the eigenvalues the new ones |
| Control.Gripper.OnResponse | JS_Simulation/WebsiteFiles/2DSim.js:280-285 | the response is dropped while adaptive input is active under updateDofsOnlyIdle; otherwise it is stored and the flag cleared |
| Control.Gripper.SyncNumDofs | JS_Simulation/WebsiteFiles/2DSim.js:263-268 | a changed number of axes resets to the canonical binding at now |
| Control.Gripper.SendRequestIfChanged | JS_Simulation/WebsiteFiles/2DSim.js:275-287 | a package is sent exactly when none is in flight, a model is selected and it differs from the last one; it then becomes the last package and the flag is set |
| Control.Gripper.ApplyIdlePolicy | JS_Simulation/WebsiteFiles/2DSim.js:288-296 | idle: release the flag under updateDofsOnlyIdle and run the idle rotation under auto-switch; active: restart the timer and ask for a reset |
| Control.Gripper.Move | JS_Simulation/WebsiteFiles/2DSim.js:320-326 | the cached velocity is the operator velocity and the command is its world-frame, clamped, scaled form |
| Control.Gripper.Control | JS_Simulation/WebsiteFiles/2DSim.js:272-296 | with the model on: the request decision, then the idle/active policy; with it off nothing of the binding changes |
| Control.Gripper.Update | JS_Simulation/WebsiteFiles/2DSim.js:262-329 | one tick: sync the number of axes, maybe send a request, apply the idle policy, cache the velocity and return the motor command |
| Control.IdleTicksSendTwoRequests | JS_Simulation/WebsiteFiles/2DSim.js:288-290 | under updateDofsOnlyIdle two idle ticks leave two requests unanswered with the in-flight flag cleared |

## Left out

- Box2D physics: the body, the fingers, `setVelocity` and the finger motor speed (lines 327-328) are not modelled. `Update` returns the motor command instead of applying it.
- `getWorldVector` and `getLocalPose`: the turn into world coordinates is the function parameter `toWorld`. The local poses of the target and the two boxes are given as arguments of `Update`.
- `Math.sqrt` is the function parameter `sqrt`, required to be the non-negative square root (`IsSqrt`).
- Floating point: all arithmetic is on exact reals, so rounding, NaN and infinities are not modelled. `Math.PI` is its decimal literal.
- `Date.now()` is the argument `now`. Where the source reads the clock twice within one call, the model reads it once.
- The DOM selectors become the fields of `Config`. Selector values other than trackDofs/updateDofsOnlyIdle are `OtherTracking`, and sign methods other than the two named ones are `NoSignPolicy`.
- The number-of-DoFs selector is taken to offer 1 or 2. The permutation table of the source covers only those two counts.
- `USE_MODEL` is `Config.useModel`.
- The socket transport (`ioSocket.emit`) is left out. A sent request is returned from `Update`, and its answer arrives as a call of `OnResponse`. The model's answer is assumed to be four 4-vectors (the `DofSet` type).
- `handleJoystickInput`: the restart and recording buttons and the gamepad polling are left out. `Gripper.HandleJoystick` models the store of the reading, and a missing gamepad (`undefined`) is `None`. The gamepad is taken to report at least three axes.
- Control.Gripper.Orient: the source's `forEach` scales the vectors of the received DoF set in place; the model replaces one entry of a sequence value per step, so aliasing of those arrays is not captured.
- The scene holds exactly two boxes, which the state layout of `getState` assumes.
- Rendering (`draw`), the HUD and the Python model server are not part of this model.
- Control.Gripper.Update: drawing the HUD is not modelled, and it has a side effect on `dofs`. When `USE_MODEL` is on and the HUD is shown (lines 584-585), `draw_dofs` passes the live chosen DoF vectors (lines 567-573) to `scaleVelocityVector` (line 541), which divides their planar parts in place (lines 191-192). Between ticks this aliasing clamps the planar part of each chosen DoF vector to the unit circle, which the velocity and the matcher then read. The model changes `dofs` only on a response, so it matches the source only when each chosen vector's planar part has length at most one, as for unit-norm eigenvectors.
- Control.Gripper.OnResponse: at most one request in flight (`InFlightConsistent`) is proved only outside `updateDofsOnlyIdle`, because the source itself breaks it in that mode (see `IdleTicksSendTwoRequests`).
