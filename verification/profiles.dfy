/**
  Controller profile selection: the mapping from the detected hardware type
  to the per-digit axis mode, applied once when a defined type is first
  detected. The hardware query itself is an input.
 */
module Profiles {
  import opened Fingers

  /** How a digit is driven: a button with a timed snap, an analogue axis,
      or a capacitive sense axis. */
  datatype AxisType = Digital | Axis | SenseAxis

  /** The controller families the selector distinguishes; every other
      family reported by the device query is an Other. */
  datatype ControllerType =
    | Undefined
    | SteamVRViveWand
    | OculusOculusTouch
    | SteamVROculusTouch
    | SteamVRValveKnuckles
    | Other(id: nat)

  /** The button types the axis bindings mention. */
  datatype ButtonType =
    | Touchpad | Trigger | MiddleFinger | RingFinger | PinkyFinger | Grip | StartMenu
    | OtherButton(id: nat)

  /** The per-digit modes and the three-finger axis binding. */
  datatype Settings = Settings(
    thumb: AxisType, index: AxisType, middle: AxisType, ring: AxisType, pinky: AxisType,
    threeFinger: AxisType,
    threeFingerAxisButton: ButtonType)
  {
    /** The mode the per-tick resolution uses for digit d. */
    function Mode(d: Digit): AxisType {
      match d
      case 0 => thumb
      case 1 => index
      case 2 => middle
      case 3 => ring
      case 4 => pinky
    }
  }

  /** The inspector defaults: every digit Digital, three-finger axis on Grip. */
  const DefaultSettings: Settings :=
    Settings(Digital, Digital, Digital, Digital, Digital, Digital, Grip)

  /** The configuration part of the component that detection touches. */
  datatype Controller = Controller(
    autoDetect: bool,
    mirrorModel: bool,
    controllerType: ControllerType,
    settings: Settings)

  predicate IsOculusTouch(t: ControllerType) {
    t == OculusOculusTouch || t == SteamVROculusTouch
  }

  /** The switch of DetectController. The thumb is Digital for every type;
      only Knuckles rebinds the three-finger axis button. */
  function ProfileFor(t: ControllerType, current: Settings): (s: Settings)
    ensures s.thumb == Digital
    ensures s.index == Axis <==> t == SteamVRViveWand || IsOculusTouch(t)
    ensures s.index == SenseAxis <==> t == SteamVRValveKnuckles
    ensures forall d: Digit :: MIDDLE <= d ==>
      s.Mode(d) == if t == SteamVRValveKnuckles then SenseAxis else Digital
    ensures s.threeFinger == Axis <==> IsOculusTouch(t)
    ensures s.threeFinger == SenseAxis <==> t == SteamVRValveKnuckles
    ensures s.threeFingerAxisButton == if t == SteamVRValveKnuckles then StartMenu else current.threeFingerAxisButton
  {
    match t
    case SteamVRViveWand =>
      current.(thumb := Digital, index := Axis, middle := Digital, ring := Digital, pinky := Digital,
               threeFinger := Digital)
    case OculusOculusTouch =>
      current.(thumb := Digital, index := Axis, middle := Digital, ring := Digital, pinky := Digital,
               threeFinger := Axis)
    case SteamVROculusTouch =>
      current.(thumb := Digital, index := Axis, middle := Digital, ring := Digital, pinky := Digital,
               threeFinger := Axis)
    case SteamVRValveKnuckles =>
      current.(thumb := Digital, index := SenseAxis, middle := SenseAxis, ring := SenseAxis,
               pinky := SenseAxis, threeFinger := SenseAxis, threeFingerAxisButton := StartMenu)
    case _ =>
      current.(thumb := Digital, index := Digital, middle := Digital, ring := Digital, pinky := Digital,
               threeFinger := Digital)
  }

  datatype Detection = Detection(controller: Controller, effects: seq<Effect>)

  /** Records the detected type. For a defined type: applies the profile
      when auto-detection is on, re-subscribes the listeners, and mirrors
      the model once if asked to, clearing the request. An undefined type
      changes nothing else. */
  function DetectController(c: Controller, detected: ControllerType): (r: Detection)
    ensures r.controller.controllerType == detected
    ensures detected == Undefined ==>
      r.controller == c.(controllerType := Undefined) && r.effects == []
    ensures detected != Undefined ==>
      && !r.controller.mirrorModel
      && r.effects == [Resubscribe] + (if c.mirrorModel then [MirrorHand] else [])
      && r.controller.settings == (if c.autoDetect then ProfileFor(detected, c.settings) else c.settings)
    ensures r.controller.autoDetect == c.autoDetect
  {
    var c1 := c.(controllerType := detected);
    if detected == Undefined then Detection(c1, [])
    else
      var c2 := if c.autoDetect then c1.(settings := ProfileFor(detected, c.settings)) else c1;
      if c2.mirrorModel then Detection(c2.(mirrorModel := false), [Resubscribe, MirrorHand])
      else Detection(c2, [Resubscribe])
  }

  /** The fallback branch of the switch resets every mode to the inspector
      default whatever the current settings, but keeps the current
      three-finger axis binding, so a StartMenu binding left by an earlier
      Knuckles detection survives. */
  lemma UnlistedTypeKeepsDefaults(t: ControllerType, s: Settings)
    requires !(t == SteamVRViveWand || IsOculusTouch(t) || t == SteamVRValveKnuckles)
    ensures ProfileFor(t, s) == DefaultSettings.(threeFingerAxisButton := s.threeFingerAxisButton)
  {
  }

  /** The mirror request is consumed once: whatever two types are detected
      one after the other, the model is mirrored at most once. */
  lemma MirrorConsumedOnce(c: Controller, t1: ControllerType, t2: ControllerType)
    ensures var r1 := DetectController(c, t1);
            var r2 := DetectController(r1.controller, t2);
            !(MirrorHand in r1.effects && MirrorHand in r2.effects)
  {
  }
}
