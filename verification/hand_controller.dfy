/**
  The avatar hand controller as a whole: the per-frame update (profile
  detection while the controller type is unknown, then the per-digit
  resolution), the events that reach the component between frames, and
  the properties of runs of such events.
 */
module HandController {
  import opened Fingers
  import opened Input
  import opened Overrides
  import opened Interactions
  import opened Profiles
  import opened Animation

  /** The three override policies of the component. */
  datatype Policies = Policies(touch: AxisOverrides, grab: AxisOverrides, use: AxisOverrides)

  datatype Frame = Frame(controller: Controller, hand: Hand, effects: seq<Effect>)

  /** One frame: detection runs only while the controller type is unknown;
      the digits are resolved, in the modes detection may just have chosen,
      only when an animator is present. The frame's effects are detection's
      (re-subscription, mirroring) followed by the tick's, thumb to pinky. */
  function Update(c: Controller, h: Hand, detected: ControllerType, hasAnimator: bool): (r: Frame)
    ensures c.controllerType != Undefined ==> r.controller == c
    ensures c.controllerType == Undefined ==> r.controller == DetectController(c, detected).controller
    ensures c.controllerType == Undefined && detected != Undefined && c.autoDetect ==>
      r.controller.settings == ProfileFor(detected, c.settings)
    ensures r.effects ==
      (if c.controllerType == Undefined then DetectController(c, detected).effects else [])
      + (if hasAnimator then ProcessHand(h, r.controller.settings).effects else [])
    ensures !hasAnimator ==> r.hand == h
    ensures hasAnimator ==> forall d: Digit ::
      r.hand[d] == ProcessFinger(h, d, r.controller.settings.Mode(d)).hand[d]
    ensures c.controllerType != Undefined ==> Resubscribe !in r.effects && MirrorHand !in r.effects
  {
    var det := if c.controllerType == Undefined then DetectController(c, detected) else Detection(c, []);
    var tick := ResolveIfAnimated(h, det.controller.settings, hasAnimator);
    Frame(det.controller, tick.hand, det.effects + tick.effects)
  }

  /** The per-digit resolution when an animator is present, nothing otherwise. */
  function ResolveIfAnimated(h: Hand, s: Settings, hasAnimator: bool): (r: Tick)
    ensures !hasAnimator ==> r == Tick(h, [])
    ensures hasAnimator ==> r == ProcessHand(h, s)
    ensures Resubscribe !in r.effects && MirrorHand !in r.effects
  {
    if hasAnimator then
      var t := ProcessHand(h, s);
      assert forall k :: 0 <= k < |t.effects| ==> Animates(t.effects[k]);
      t
    else Tick(h, [])
  }

  /** Once a defined type has been detected, later frames neither query
      the profile again nor re-subscribe nor mirror, whatever the device
      query reports. */
  lemma DetectsOnce(c: Controller, h: Hand, t1: ControllerType, t2: ControllerType, a1: bool, a2: bool)
    requires t1 != Undefined
    ensures var f1 := Update(c, h, t1, a1);
            var f2 := Update(f1.controller, f1.hand, t2, a2);
            f2.controller == f1.controller && Resubscribe !in f2.effects && MirrorHand !in f2.effects
  {
  }

  /** Everything that can happen to the component between two observations. */
  datatype Event =
    | ButtonInput(source: FingerSource, pressure: real)
    | AxisInput(source: FingerSource, pressure: real)
    | Touch
    | Untouch
    | Grab(isUsing: bool)
    | Ungrab
    | Use(isGrabbing: bool)
    | Unuse
    | Resolve(settings: Settings)        // one per-frame resolution of all digits
    | Write(digit: Digit, value: real)   // one weight write of a running interpolation

  function Step(p: Policies, h: Hand, e: Event): Hand {
    match e
    case ButtonInput(s, v) => DoButtonEvent(h, s, v)
    case AxisInput(s, v) => DoAxisEvent(h, s, v)
    case Touch => DoControllerTouch(h, p.touch)
    case Untouch => DoControllerUntouch(h, p.touch)
    case Grab(isUsing) => DoControllerGrab(h, p.grab, p.use, isUsing)
    case Ungrab => DoControllerUngrab(h, p.touch, p.grab)
    case Use(isGrabbing) => DoControllerUse(h, p.grab, p.use, isGrabbing)
    case Unuse => DoControllerUnuse(h, p.use)
    case Resolve(s) => ProcessHand(h, s).hand
    case Write(d, v) => SetFingerPosition(h, d, v).hand
  }

  function Run(p: Policies, h: Hand, es: seq<Event>): Hand
    decreases |es|
  {
    if |es| == 0 then h else Run(p, Step(p, h, es[0]), es[1..])
  }

  /** What holds of every hand the component can reach from its initial
      state: untouchedAxis is still 0 on every digit, because nothing ever
      writes it, and a digit that is IsOverriding carries a non-zero forced
      value, because it got there through a corrected override value. */
  ghost predicate Consistent(h: Hand) {
    forall d: Digit :: FingerConsistent(h[d])
  }

  /** The per-digit part of Consistent. */
  ghost predicate FingerConsistent(f: Finger) {
    f.untouchedAxis == 0.0 && (f.state == IsOverriding ==> f.forceAxis != 0.0)
  }

  lemma StepPreservesConsistent(p: Policies, h: Hand, e: Event)
    requires Consistent(h)
    ensures Consistent(Step(p, h, e))
  {
    forall d: Digit ensures FingerConsistent(Step(p, h, e)[d]) {
      assert FingerConsistent(h[d]);
      if e.ButtonInput? || e.AxisInput? {
        InputKeepsConsistent(p, h, e, d);
      } else if e.Resolve? || e.Write? {
        AnimationKeepsConsistent(p, h, e, d);
      } else {
        InteractionKeepsConsistent(p, h, e, d);
      }
    }
  }

  lemma InputKeepsConsistent(p: Policies, h: Hand, e: Event, d: Digit)
    requires e.ButtonInput? || e.AxisInput?
    requires FingerConsistent(h[d])
    ensures FingerConsistent(Step(p, h, e)[d])
  {
  }

  lemma AnimationKeepsConsistent(p: Policies, h: Hand, e: Event, d: Digit)
    requires e.Resolve? || e.Write?
    requires FingerConsistent(h[d])
    ensures FingerConsistent(Step(p, h, e)[d])
  {
    if e.Resolve? {
      assert Step(p, h, e)[d] == ProcessFinger(h, d, e.settings.Mode(d)).hand[d];
    }
  }

  lemma InteractionKeepsConsistent(p: Policies, h: Hand, e: Event, d: Digit)
    requires !(e.ButtonInput? || e.AxisInput? || e.Resolve? || e.Write?)
    requires FingerConsistent(h[d])
    ensures FingerConsistent(Step(p, h, e)[d])
  {
  }

  lemma {:induction false} RunPreservesConsistent(p: Policies, h: Hand, es: seq<Event>)
    requires Consistent(h)
    ensures Consistent(Run(p, h, es))
    decreases |es|
  {
    if |es| > 0 {
      StepPreservesConsistent(p, h, es[0]);
      RunPreservesConsistent(p, Step(p, h, es[0]), es[1..]);
    }
  }

  /** A digit released by unuse stays KeepOverring through input, frames,
      interpolation writes, ungrab and unuse: only a new override (touch,
      grab or use) or an untouch moves it on. */
  lemma KeepOverringIsSticky(p: Policies, h: Hand, e: Event, d: Digit)
    requires h[d].state == KeepOverring
    requires !(e.Touch? || e.Grab? || e.Use? || e.Untouch?)
    ensures Step(p, h, e)[d].state == KeepOverring
  {
    if e.Resolve? {
      assert Step(p, h, e)[d] == ProcessFinger(h, d, e.settings.Mode(d)).hand[d];
    }
  }

  /** Every reachable hand is Consistent. In particular an untouch, from
      any reachable hand, forces every unpressed digit back to 0 rather than
      to the axis it had before the touch. */
  lemma {:induction false} UntouchAlwaysRelaxesToZero(p: Policies, es: seq<Event>, d: Digit)
    requires !IsButtonPressed(Run(p, Initial, es)[d])
    ensures Consistent(Run(p, Initial, es))
    ensures var h := Run(p, Initial, es);
            DoControllerUntouch(h, p.touch)[d].state == WasOverring &&
            DoControllerUntouch(h, p.touch)[d].forceAxis == 0.0
  {
    RunPreservesConsistent(p, Initial, es);
  }

  /** A released digit settles: the next frame either retires it at once
      (its axis already equals the forced value) or starts an interpolation
      towards the forced value, and that interpolation, fed frame times
      adding up to its duration, ends with the axis on the forced value and
      the digit free of overrides. */
  lemma ReleasedDigitSettles(h: Hand, d: Digit, m: AxisType, time: real, deltas: seq<real>)
    requires h[d].state == WasOverring
    requires Positive(deltas) && Sum(deltas) >= time
    ensures var t := ProcessFinger(h, d, m);
      && (h[d].axis == h[d].forceAxis ==> t.effects == [] && t.hand[d].state == NoOverride)
      && (h[d].axis != h[d].forceAxis ==>
            && t.effects == [StartLerp(d, h[d].axis, h[d].forceAxis)]
            && var run := ChangePosition(t.hand, d, h[d].axis, h[d].forceAxis, time, deltas);
               run.finished && run.hand[d].axis == h[d].forceAxis && run.hand[d].state == NoOverride)
  {
    var t := ProcessFinger(h, d, m);
    LerpCompletes(t.hand, d, h[d].axis, h[d].forceAxis, time, deltas);
  }

  /** A touch on a free, unpressed digit that the touch policy covers,
      followed by an untouch, leaves the digit released (WasOverring) and
      aimed at its untouchedAxis. */
  lemma TouchThenUntouch(p: Policies, h: Hand, d: Digit)
    requires h[d].state == NoOverride && !IsButtonPressed(h[d])
    requires !p.touch.ignoreAll && p.touch.Applies(d)
    ensures var t := DoControllerTouch(h, p.touch);
      && t[d].state == IsOverriding
      && t[d].forceAxis == CorrectOverrideValue(p.touch.Value(d))
      && DoControllerUntouch(t, p.touch)[d].state == WasOverring
      && DoControllerUntouch(t, p.touch)[d].forceAxis == h[d].untouchedAxis
  {
  }

  /** Grab while an object is used: every digit the grab policy covers is
      forced to the use policy's value, not the grab policy's. */
  lemma GrabWhileUsingForcesUseValues(p: Policies, h: Hand, d: Digit)
    requires !p.grab.ignoreAll && OnGuard(h[d], p.grab.Applies(d))
    ensures Step(p, h, Grab(true))[d].forceAxis == CorrectOverrideValue(p.use.Value(d))
    ensures Step(p, h, Grab(false))[d].forceAxis == CorrectOverrideValue(p.grab.Value(d))
  {
  }

  /** A free continuous digit passes its latest axis input straight to the
      animator on the next frame, with no interpolation. */
  lemma ContinuousPassthrough(h: Hand, s: FingerSource, d: Digit, pressure: real, m: AxisType)
    requires Drives(s, d) && h[d].state == NoOverride && m != Digital
    ensures ProcessFinger(DoAxisEvent(h, s, pressure), d, m).effects == [SetWeight(d + 1, pressure)]
  {
  }

  /** A free Digital digit turns a button edge into exactly one snap from
      the old binary value to the new one, which ends exactly on the new
      value; the following frame emits nothing, since the dirty flag is
      consumed once. */
  lemma DigitalEdgeSnapsOnce(h: Hand, s: FingerSource, d: Digit, pressure: real, time: real, deltas: seq<real>)
    requires Drives(s, d) && h[d].state == NoOverride
    requires Positive(deltas) && Sum(deltas) >= time
    ensures var h1 := DoButtonEvent(h, s, pressure);
            var target := if pressure != 0.0 then 1.0 else 0.0;
            var t1 := ProcessFinger(h1, d, Digital);
            && t1.effects == [StartLerp(d, 1.0 - target, target)]
            && ProcessFinger(t1.hand, d, Digital).effects == []
            && var run := ChangePosition(t1.hand, d, 1.0 - target, target, time, deltas);
               run.finished && run.effects[|run.effects| - 1] == SetWeight(d + 1, target)
  {
    var target := if pressure != 0.0 then 1.0 else 0.0;
    var t1 := ProcessFinger(DoButtonEvent(h, s, pressure), d, Digital);
    LerpCompletes(t1.hand, d, 1.0 - target, target, time, deltas);
  }
}
