/**
  The interaction handlers: touch, grab and use enter and exit events,
  each driving one half of the override layering with a particular policy.
  Whether an object is currently used (on grab) or grabbed (on use) is a
  parameter, since the interaction components are outside the model.
 */
module Interactions {
  import opened Fingers
  import opened Overrides

  /** The effect of untouch on one digit before the trailing override-off. */
  function Release(f: Finger): Finger {
    if !IsButtonPressed(f) then f.(state := WasOverring, forceAxis := f.untouchedAxis) else f
  }

  /** Touch: the touch policy's corrected values over the live axes. */
  function DoControllerTouch(h: Hand, touch: AxisOverrides): (r: Hand)
    ensures touch.ignoreAll ==> r == h
    ensures forall d: Digit :: !touch.ignoreAll && OnGuard(h[d], touch.Applies(d)) ==>
      && r[d].state == IsOverriding
      && r[d].forceAxis == CorrectOverrideValue(touch.Value(d))
      && r[d].saveAxis == (if h[d].saveAxis != h[d].forceAxis then h[d].axis else h[d].saveAxis)
      && r[d] == h[d].(state := r[d].state, forceAxis := r[d].forceAxis, saveAxis := r[d].saveAxis)
    ensures forall d: Digit :: !(!touch.ignoreAll && OnGuard(h[d], touch.Applies(d))) ==> r[d] == h[d]
    ensures forall d: Digit :: r[d].axis == h[d].axis && r[d].untouchedAxis == h[d].untouchedAxis
  {
    HandleOverrideOn(h, touch.ignoreAll, AxisOf(h), GetOverridePermissions(touch), GetOverrideValues(touch))
  }

  /** Untouch: every digit that is not pressed, whatever its state and
      whatever the touch policy's ignoreAll flag, becomes WasOverring and is
      forced back to its untouchedAxis. Every such digit is then no longer
      IsOverriding and every pressed digit fails the guard, so the trailing
      override-off changes nothing. */
  function DoControllerUntouch(h: Hand, touch: AxisOverrides): (r: Hand)
    ensures forall d: Digit :: !IsButtonPressed(h[d]) ==>
      r[d] == h[d].(state := WasOverring, forceAxis := h[d].untouchedAxis)
    ensures forall d: Digit :: IsButtonPressed(h[d]) ==> r[d] == h[d]
  {
    var released := ForDigits(h, (d: Digit, f: Finger) => Release(f));
    HandleOverrideOff(released, touch.ignoreAll, GetOverridePermissions(touch), false)
  }

  /** Grab. While an object is used the grab forces the use policy's values
      and takes its baseline from the grab policy's corrected values;
      otherwise it forces the grab policy's values over the live axes.
      Permissions and the ignore flag are always the grab policy's. */
  function DoControllerGrab(h: Hand, grab: AxisOverrides, use: AxisOverrides, isUsing: bool): (r: Hand)
    ensures grab.ignoreAll ==> r == h
    ensures forall d: Digit :: !grab.ignoreAll && OnGuard(h[d], grab.Applies(d)) ==>
      && r[d].state == IsOverriding
      && r[d].forceAxis == CorrectOverrideValue(if isUsing then use.Value(d) else grab.Value(d))
      && r[d].saveAxis == (if h[d].saveAxis == h[d].forceAxis then h[d].saveAxis
                           else if isUsing then CorrectOverrideValue(grab.Value(d))
                           else h[d].axis)
      && r[d] == h[d].(state := r[d].state, forceAxis := r[d].forceAxis, saveAxis := r[d].saveAxis)
    ensures forall d: Digit :: !(!grab.ignoreAll && OnGuard(h[d], grab.Applies(d))) ==> r[d] == h[d]
    ensures forall d: Digit :: r[d].axis == h[d].axis && r[d].untouchedAxis == h[d].untouchedAxis
  {
    var values := GetOverrideValues(if isUsing then use else grab);
    var baseline := if isUsing then GetOverrideValues(grab) else AxisOf(h);
    HandleOverrideOn(h, grab.ignoreAll, baseline, GetOverridePermissions(grab), values)
  }

  /** Ungrab: override-off with the grab policy's ignore flag but the touch
      policy's permissions; released digits become WasOverring. */
  function DoControllerUngrab(h: Hand, touch: AxisOverrides, grab: AxisOverrides): (r: Hand)
    ensures grab.ignoreAll ==> r == h
    ensures forall d: Digit :: !grab.ignoreAll && OffGuard(h[d], touch.Applies(d)) ==>
      r[d] == h[d].(state := WasOverring, axis := h[d].forceAxis, forceAxis := h[d].saveAxis)
    ensures forall d: Digit :: !(!grab.ignoreAll && OffGuard(h[d], touch.Applies(d))) ==> r[d] == h[d]
  {
    HandleOverrideOff(h, grab.ignoreAll, GetOverridePermissions(touch), false)
  }

  /** Use. While an object is grabbed the baseline is the grab policy's
      corrected values, otherwise the live axes; the forced values,
      permissions and ignore flag are the use policy's. */
  function DoControllerUse(h: Hand, grab: AxisOverrides, use: AxisOverrides, isGrabbing: bool): (r: Hand)
    ensures use.ignoreAll ==> r == h
    ensures forall d: Digit :: !use.ignoreAll && OnGuard(h[d], use.Applies(d)) ==>
      && r[d].state == IsOverriding
      && r[d].forceAxis == CorrectOverrideValue(use.Value(d))
      && r[d].saveAxis == (if h[d].saveAxis == h[d].forceAxis then h[d].saveAxis
                           else if isGrabbing then CorrectOverrideValue(grab.Value(d))
                           else h[d].axis)
      && r[d] == h[d].(state := r[d].state, forceAxis := r[d].forceAxis, saveAxis := r[d].saveAxis)
    ensures forall d: Digit :: !(!use.ignoreAll && OnGuard(h[d], use.Applies(d))) ==> r[d] == h[d]
    ensures forall d: Digit :: r[d].axis == h[d].axis && r[d].untouchedAxis == h[d].untouchedAxis
  {
    var baseline := if isGrabbing then GetOverrideValues(grab) else AxisOf(h);
    HandleOverrideOn(h, use.ignoreAll, baseline, GetOverridePermissions(use), GetOverrideValues(use))
  }

  /** Unuse: override-off with the use policy; released digits become
      KeepOverring, which the per-tick resolution never retires. */
  function DoControllerUnuse(h: Hand, use: AxisOverrides): (r: Hand)
    ensures use.ignoreAll ==> r == h
    ensures forall d: Digit :: !use.ignoreAll && OffGuard(h[d], use.Applies(d)) ==>
      r[d] == h[d].(state := KeepOverring, axis := h[d].forceAxis, forceAxis := h[d].saveAxis)
    ensures forall d: Digit :: !(!use.ignoreAll && OffGuard(h[d], use.Applies(d))) ==> r[d] == h[d]
  {
    HandleOverrideOff(h, use.ignoreAll, GetOverridePermissions(use), true)
  }

  /** User input takes precedence: a touch never starts an override on a
      digit that is pressed, whatever the policy says. */
  lemma TouchRespectsPressedDigits(h: Hand, touch: AxisOverrides, d: Digit)
    requires IsButtonPressed(h[d])
    ensures DoControllerTouch(h, touch)[d] == h[d]
  {
  }

  /** A grab layered over a settled override and then released hands the
      digit back to the pose it held before the grab: the forced value
      returns to the pre-grab axis, whichever branch SaveFingerAxis took. */
  lemma GrabThenUngrabRestoresPose(h: Hand, touch: AxisOverrides, grab: AxisOverrides, use: AxisOverrides, d: Digit)
    requires h[d].state == IsOverriding && h[d].axis == h[d].forceAxis
    requires !IsButtonPressed(h[d])
    requires !grab.ignoreAll && grab.Applies(d) && touch.Applies(d)
    ensures var g := DoControllerUngrab(DoControllerGrab(h, grab, use, false), touch, grab);
      && g[d].state == WasOverring
      && g[d].forceAxis == h[d].axis
      && g[d].axis == CorrectOverrideValue(grab.Value(d))
  {
  }

  /** The default policies ignore every override, yet an untouch still
      releases every unpressed digit: untouch does not consult ignoreAll. */
  lemma UntouchIgnoresIgnoreAll(h: Hand, d: Digit)
    requires !IsButtonPressed(h[d])
    ensures DoControllerTouch(h, DefaultOverrides) == h
    ensures DoControllerUntouch(h, DefaultOverrides)[d].state == WasOverring
    ensures DoControllerUntouch(h, DefaultOverrides)[d].forceAxis == h[d].untouchedAxis
  {
  }
}
