# VRTK avatar hand controller: finger override state machine

This project models the per-finger logic of `VRTK_AvatarHandController`, the
VRTK prefab script that animates a virtual-reality hand avatar. The script
drives five digit channels: thumb, index, middle, ring and pinky. Each
channel holds:

- a button state (`pressed`) and a dirty flag (`changed`);
- the axis that drives the animation, the raw input axis, and the untouched,
  saved and forced axes used by overrides;
- an override state: `NoOverride`, `IsOverriding`, `WasOverring` or
  `KeepOverring` (the source's spelling).

The model is functional. A `Hand` is an immutable five-element sequence of
`Finger` records. Every event handler and every per-frame step is a pure
function from the hand to a new hand, plus a list of `Effect`s for the world
outside: animator layer weight writes, newly started interpolations, listener
re-subscription and model mirroring.

Modules, following the script's structure:

- `Fingers`: digits, channel record, hand, effects, `IsButtonPressed`, and the
  in-order per-digit loop `ForDigits`.
- `Input`: button-alias and axis-alias events, including the three-finger
  alias that drives middle, ring and pinky.
- `Overrides`: `AxisOverrides` policies, the zero→0.0001 correction,
  `SaveFingerAxis`, and `HandleOverrideOn`/`HandleOverrideOff`.
- `Interactions`: the touch/untouch, grab/ungrab and use/unuse handlers, with
  the grab/use borrowing of each other's values.
- `Profiles`: controller-type → per-digit axis mode mapping, and
  `DetectController`.
- `Animation`: the clamped `Lerp`, `SetFingerPosition`, per-tick
  `ProcessFinger`, and the interpolation routine as a step function over
  frame times.
- `HandController`: the per-frame `Update`, runs of events, a reachable-state
  invariant, and end-to-end scenarios.

The following behaviours of the code are reproduced as written:

- `HandleOverrideOn` sets the state to `IsOverriding` and only then tests it
  for `NoOverride`. As a result `untouchedAxis` is never captured and stays at
  its initial 0. An untouch therefore always relaxes a digit towards 0.
- Ungrab uses the touch policy's permissions with the grab policy's ignore
  flag.
- Untouch releases every unpressed digit even when the touch policy ignores
  all overrides.
- `KeepOverring` (from unuse) is never retired by a weight write or a tick.
- A new interpolation never cancels the one already running.

Some code in the script looks as if it was meant to do more than it does.
The model reproduces what the code does:

- Lines 405-408 read as if `untouchedAxis` were captured when an override
  begins. They are dead code, because line 404 has just set the state to
  `IsOverriding`.
- Lines 610 and 625 store each digit's routine handle, but nothing stops a
  routine through it. `OnDisable` (184-190) only nulls the array. A new
  interpolation therefore never cancels the running one.
- Only `WasOverring` is retired to `NoOverride`, at 584-587 and 633-636. A
  digit released by unuse (`KeepOverring`) stays overridden.
- `SetFingerEvent` drops a button event on an overridden digit (306), so the
  pressed state is not recorded during an override.

## Model

| member | source | states |
|---|---|---|
| Fingers.IsButtonPressed | Assets/VRTK/Prefabs/Resources/Scripts/VRTK_AvatarHandController.cs:386-389 | a digit counts as pressed when its button is down or its raw axis is above zero |
| Input.SetFingerEvent | Assets/VRTK/Prefabs/Resources/Scripts/VRTK_AvatarHandController.cs:304-311 | on a digit free of overrides: raises the dirty flag and sets pressed exactly when the pressure is non-zero. On an overridden digit the hand is unchanged. Other digits are never touched |
| Input.SetFingerAxisEvent | Assets/VRTK/Prefabs/Resources/Scripts/VRTK_AvatarHandController.cs:313-320 | rawAxis always takes the pressure. The live axis follows it only when the digit is NoOverride. Nothing else changes |
| Input.DoButtonEvent | Assets/VRTK/Prefabs/Resources/Scripts/VRTK_AvatarHandController.cs:322-352 | each handler reaches exactly its digit. The three-finger handler reaches digits 2, 3 and 4, and they all get the same press update when free of overrides |
| Input.DoAxisEvent | Assets/VRTK/Prefabs/Resources/Scripts/VRTK_AvatarHandController.cs:354-384 | the axis handlers fan out the same way; digits outside the source stay unchanged |
| Overrides.CorrectOverrideValue | Assets/VRTK/Prefabs/Resources/Scripts/VRTK_AvatarHandController.cs:432-435 | a corrected value is never zero: zero maps to 0.0001 and every other value passes unchanged |
| Overrides.GetOverridePermissions | Assets/VRTK/Prefabs/Resources/Scripts/VRTK_AvatarHandController.cs:437-448 | the flag array holds each digit's apply flag, in thumb-to-pinky order |
| Overrides.GetOverrideValues | Assets/VRTK/Prefabs/Resources/Scripts/VRTK_AvatarHandController.cs:450-461 | every value in the array is non-zero, and equals the configured value of its digit wherever that value is non-zero |
| Overrides.SaveFingerAxis | Assets/VRTK/Prefabs/Resources/Scripts/VRTK_AvatarHandController.cs:391-394 | the saved baseline takes the new value exactly when it differs from the forced value; otherwise the finger is unchanged |
| Overrides.HandleOverrideOn | Assets/VRTK/Prefabs/Resources/Scripts/VRTK_AvatarHandController.cs:396-414 | with ignoreAll the hand is unchanged. Otherwise exactly the permitted, unpressed, non-WasOverring digits become IsOverriding, with the given forced value and the SaveFingerAxis baseline. Their axis and untouchedAxis are not changed, and every other digit is unchanged |
| Overrides.HandleOverrideOff | Assets/VRTK/Prefabs/Resources/Scripts/VRTK_AvatarHandController.cs:416-430 | with ignoreAll the hand is unchanged. Otherwise exactly the permitted, unpressed, IsOverriding digits become KeepOverring or WasOverring, with axis set to the old forced value and the forced value set to the saved baseline. All other digits are unchanged |
| Interactions.DoControllerTouch | Assets/VRTK/Prefabs/Resources/Scripts/VRTK_AvatarHandController.cs:463-466 | override-on with the touch policy. Guarded digits are forced to the corrected touch values, and their baseline is the live axis. Apart from state, forced value and baseline, a guarded digit keeps every field, including its press and raw axis |
| Interactions.DoControllerUntouch | Assets/VRTK/Prefabs/Resources/Scripts/VRTK_AvatarHandController.cs:468-479 | every unpressed digit, in any state and whatever ignoreAll says, becomes WasOverring with forceAxis set to untouchedAxis. Pressed digits are unchanged, and the trailing override-off changes nothing |
| Interactions.DoControllerGrab | Assets/VRTK/Prefabs/Resources/Scripts/VRTK_AvatarHandController.cs:481-487 | while using: forced values come from the use policy and the baseline from the corrected grab values. Otherwise both come from the grab policy and the live axis. Permissions and the ignore flag are always the grab policy's. A guarded digit changes only its state, forced value and baseline |
| Interactions.DoControllerUngrab | Assets/VRTK/Prefabs/Resources/Scripts/VRTK_AvatarHandController.cs:489-492 | override-off to WasOverring, gated by the touch policy's permissions and the grab policy's ignore flag |
| Interactions.DoControllerUse | Assets/VRTK/Prefabs/Resources/Scripts/VRTK_AvatarHandController.cs:494-499 | forces the use values. The baseline is the corrected grab values while grabbing and the live axis otherwise. A guarded digit changes only its state, forced value and baseline |
| Interactions.DoControllerUnuse | Assets/VRTK/Prefabs/Resources/Scripts/VRTK_AvatarHandController.cs:501-504 | override-off to KeepOverring with the use policy |
| Interactions.TouchRespectsPressedDigits | Assets/VRTK/Prefabs/Resources/Scripts/VRTK_AvatarHandController.cs:386-402 | a touch never changes a digit whose button is down or whose raw axis is above zero |
| Interactions.GrabThenUngrabRestoresPose | Assets/VRTK/Prefabs/Resources/Scripts/VRTK_AvatarHandController.cs:481-492 | a grab over a settled override, then an ungrab, leaves the digit WasOverring, at the grab value, and aimed back at its pre-grab axis |
| Interactions.UntouchIgnoresIgnoreAll | Assets/VRTK/Prefabs/Resources/Scripts/VRTK_AvatarHandController.cs:468-479 | under the default policies a touch changes nothing, yet an untouch still releases every unpressed digit |
| Profiles.ProfileFor | Assets/VRTK/Prefabs/Resources/Scripts/VRTK_AvatarHandController.cs:514-550 | thumb is always Digital. Index is Axis for Vive wand and both Oculus Touch types, and SenseAxis for Knuckles. Middle to pinky are SenseAxis only for Knuckles. Three-finger is Axis for Oculus Touch and SenseAxis for Knuckles. Only Knuckles rebinds the three-finger axis button, to StartMenu |
| Profiles.DetectController | Assets/VRTK/Prefabs/Resources/Scripts/VRTK_AvatarHandController.cs:507-560 | the detected type is always recorded. Undefined changes nothing else. A defined type applies the profile only with auto-detect, re-subscribes, mirrors if asked, and clears the mirror request |
| Profiles.UnlistedTypeKeepsDefaults | Assets/VRTK/Prefabs/Resources/Scripts/VRTK_AvatarHandController.cs:542-548 | for any current settings, the fallback branch sets all six modes to the Digital defaults of lines 115-120 and keeps the current three-finger axis binding (a StartMenu binding from an earlier Knuckles detection survives) |
| Profiles.MirrorConsumedOnce | Assets/VRTK/Prefabs/Resources/Scripts/VRTK_AvatarHandController.cs:554-558 | two detections in a row mirror the model at most once |
| Animation.Lerp | Assets/VRTK/Prefabs/Resources/Scripts/VRTK_AvatarHandController.cs:620 | the clamped interpolation stays between start and target. It is the start for progress ≤ 0 and the target for progress ≥ 1 |
| Animation.SetFingerPosition | Assets/VRTK/Prefabs/Resources/Scripts/VRTK_AvatarHandController.cs:628-637 | writes the value to layer digit+1 and makes it the digit's axis. WasOverring becomes NoOverride and other states are kept. No other digit or field changes |
| Animation.ProcessFinger | Assets/VRTK/Prefabs/Resources/Scripts/VRTK_AvatarHandController.cs:576-606 | overridden with axis ≠ force: starts a lerp from axis to force. Once equal: retires WasOverring and keeps the other states. Free Digital with the dirty flag: clears it and lerps 0→1 if pressed, 1→0 if not. Free continuous: writes the axis directly. Emits at most one effect and touches only the dirty flag and state of its own digit |
| Animation.ProcessHand | Assets/VRTK/Prefabs/Resources/Scripts/VRTK_AvatarHandController.cs:200-207 | resolving thumb to pinky in order gives each digit the result of resolving it alone. The effects are the five digits' effects, each resolved against the starting hand, in thumb-to-pinky order (`TickEffects`). At most five effects, all weight writes or lerp starts |
| Animation.RunLerp | Assets/VRTK/Prefabs/Resources/Scripts/VRTK_AvatarHandController.cs:614-626 | every write goes to layer digit+1 and lies between start and target. While elapsed is below the duration each frame makes exactly one write, `Lerp(start, target, elapsed / time)` at that frame's elapsed time, and the lone final target write comes only once elapsed has reached the duration (`LerpWrites`). The run finishes exactly when the schedule `Completes` says so, and then ends with a write of exactly the target, which becomes the axis. An unfinished run writes once per frame. Only the digit's axis and retired state change |
| Animation.ChangePosition | Assets/VRTK/Prefabs/Resources/Scripts/VRTK_AvatarHandController.cs:614-626 | with a duration ≤ 0 the loop never runs and the only write is the target. Every write lies between start and target. One Lerp write is made per frame, at the frame times so far over the duration, until they reach the duration, and only then the target. The run finishes exactly when the frame times add up to the duration, and a finished run's last write is the target. An unfinished run writes once per frame. Only the digit changes: its axis takes the last write and a WasOverring state is retired |
| Animation.CompletesIff | Assets/VRTK/Prefabs/Resources/Scripts/VRTK_AvatarHandController.cs:617-623 | the routine's schedule ends exactly when its elapsed time plus the supplied frame times reach its duration |
| Animation.LerpWriteAt | Assets/VRTK/Prefabs/Resources/Scripts/VRTK_AvatarHandController.cs:617-621 | for writes that follow the routine's frame-by-frame schedule (`LerpWrites`, which RunLerp ensures), write k (unless it is the final target write) is the Lerp from start to target at the elapsed time plus the first k+1 frame times, over the duration; such a write implies a positive duration |
| Animation.ChangePositionWriteAt | Assets/VRTK/Prefabs/Resources/Scripts/VRTK_AvatarHandController.cs:616-621 | the closed form for ChangePosition: write k before the target write is `Lerp(start, target, (sum of the first k+1 frame times) / time)` |
| Animation.TwoHalfFrames | Assets/VRTK/Prefabs/Resources/Scripts/VRTK_AvatarHandController.cs:614-626 | a one-second snap from 0 to 1 fed two half-second frames writes 0.5, then 1 for the frame that reaches the duration, then 1 again after the loop |
| Animation.LerpCompletes | Assets/VRTK/Prefabs/Resources/Scripts/VRTK_AvatarHandController.cs:614-626 | given frame times adding up to the duration, ChangePosition finishes. Its last write and the digit's axis are exactly the target, and a released digit is retired |
| HandController.Update | Assets/VRTK/Prefabs/Resources/Scripts/VRTK_AvatarHandController.cs:193-208 | detection runs only while the type is Undefined, and then the controller is exactly what detection leaves, with the profile applied when auto-detection is on. Without an animator the hand is unchanged. With one, each digit is resolved in the mode in force after detection. The effects are detection's followed by the tick's |
| HandController.DetectsOnce | Assets/VRTK/Prefabs/Resources/Scripts/VRTK_AvatarHandController.cs:195-198 | after a defined type is detected, later frames keep the controller and neither re-subscribe nor mirror |
| HandController.StepPreservesConsistent | Assets/VRTK/Prefabs/Resources/Scripts/VRTK_AvatarHandController.cs:404-410 | every event and frame keeps untouchedAxis at 0, and keeps a non-zero forced value on every IsOverriding digit |
| HandController.RunPreservesConsistent | Assets/VRTK/Prefabs/Resources/Scripts/VRTK_AvatarHandController.cs:404-410 | the same holds after any sequence of events |
| HandController.UntouchAlwaysRelaxesToZero | Assets/VRTK/Prefabs/Resources/Scripts/VRTK_AvatarHandController.cs:470-476 | from any reachable hand, untouch aims every unpressed digit at 0 |
| HandController.KeepOverringIsSticky | Assets/VRTK/Prefabs/Resources/Scripts/VRTK_AvatarHandController.cs:633-636 | a KeepOverring digit stays KeepOverring through input, frames, interpolation writes, ungrab and unuse. Only touch, grab, use or untouch move it on |
| HandController.ReleasedDigitSettles | Assets/VRTK/Prefabs/Resources/Scripts/VRTK_AvatarHandController.cs:578-587 | a WasOverring digit is retired at once when its axis equals the forced value. Otherwise it starts a lerp that, given frame times adding up to the duration, ends on the forced value with the digit free |
| HandController.TouchThenUntouch | Assets/VRTK/Prefabs/Resources/Scripts/VRTK_AvatarHandController.cs:463-479 | touch then untouch on a free, permitted digit: first IsOverriding with the corrected touch value, then WasOverring aimed at untouchedAxis |
| HandController.GrabWhileUsingForcesUseValues | Assets/VRTK/Prefabs/Resources/Scripts/VRTK_AvatarHandController.cs:483-486 | a grab while using forces the use policy's values, and a plain grab forces the grab policy's |
| HandController.ContinuousPassthrough | Assets/VRTK/Prefabs/Resources/Scripts/VRTK_AvatarHandController.cs:601-604 | a free continuous digit's next frame writes its latest axis input to its layer, without interpolation |
| HandController.DigitalEdgeSnapsOnce | Assets/VRTK/Prefabs/Resources/Scripts/VRTK_AvatarHandController.cs:591-599 | a button edge on a free Digital digit starts exactly one lerp from the old binary value to the new one, which ends on the new value. The next frame emits nothing |

## Left out

- Unity lifecycle and component lookup (`OnEnable`, `OnDisable`, `GetComponent*`) are engine plumbing. This includes `OnDisable` nulling the whole routine array.
- Event subscription management (`SetupHandlers`, `SubscribeEvents`, `UnsubscribeEvents`) is observer wiring over components outside this model. Incoming events are function calls. Re-subscription is the `Resubscribe` effect. The three-finger mode only selects a subscription, so ticks do not read it.
- The animator is an emitted `SetWeight(layer, value)` effect, and its presence is a boolean parameter of `Update`.
- `MirrorHand` is an emitted `MirrorHand` effect. The transform arithmetic is not modelled.
- `VRTK_DeviceFinder` is a hardware query. The controller type is an input. Types other than Vive wand, the two Oculus Touch types and Knuckles are folded into `Other`.
- Whether an object is used (on grab) or grabbed (on use) is a boolean parameter, because the interaction components are not part of this model.
- Coroutine scheduling:
  - `LerpChangePosition` is the `StartLerp` effect, and the routine itself is `RunLerp` fed a sequence of positive frame times.
  - No routine is ever cancelled, and nothing models several routines racing on one digit.
  - An arbitrary interleaving of their writes is covered by the `Write` event of `HandController.Event`.
  - Unity runs a routine's first step inside `StartCoroutine`; the model keeps the start and the run apart.
- Floating point: axis values are `real`. The float constant 0.0001f, rounding, NaN and infinities are not modelled. Out-of-range axis input is not validated, as in the source.
- `SetOverrideValue` is a plain assignment and is inlined.
