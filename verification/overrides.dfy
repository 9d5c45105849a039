/**
  Override layering: an override policy per interaction phase, and the two
  halves of the layering protocol that the interaction handlers drive.
 */
module Overrides {
  import opened Fingers

  /** The forced value that stands in for a configured zero, so that a
      forced zero stays distinguishable from "no force". */
  const EPSILON: real := 0.0001

  /** One interaction phase's override configuration. The defaults of the
      source are ignoreAll = true, every apply flag true and every value 0. */
  datatype AxisOverrides = AxisOverrides(
    ignoreAll: bool,
    applyThumb: bool, thumb: real,
    applyIndex: bool, index: real,
    applyMiddle: bool, middle: real,
    applyRing: bool, ring: real,
    applyPinky: bool, pinky: real)
  {
    /** The apply flag of digit d. */
    function Applies(d: Digit): bool {
      match d
      case 0 => applyThumb
      case 1 => applyIndex
      case 2 => applyMiddle
      case 3 => applyRing
      case 4 => applyPinky
    }

    /** The configured (uncorrected) value of digit d. */
    function Value(d: Digit): real {
      match d
      case 0 => thumb
      case 1 => index
      case 2 => middle
      case 3 => ring
      case 4 => pinky
    }
  }

  const DefaultOverrides: AxisOverrides :=
    AxisOverrides(true, true, 0.0, true, 0.0, true, 0.0, true, 0.0, true, 0.0)

  /** Zero becomes EPSILON; every other value passes unchanged. */
  function CorrectOverrideValue(v: real): (r: real)
    ensures r != 0.0
    ensures v != 0.0 ==> r == v
    ensures v == 0.0 ==> r == EPSILON
  {
    if v == 0.0 then EPSILON else v
  }

  /** The five apply flags in digit order. */
  function GetOverridePermissions(o: AxisOverrides): (r: Flags)
    ensures forall d: Digit :: r[d] == o.Applies(d)
  {
    [o.applyThumb, o.applyIndex, o.applyMiddle, o.applyRing, o.applyPinky]
  }

  /** The five corrected values in digit order: never zero, and equal to the
      configured value wherever that is not zero. */
  function GetOverrideValues(o: AxisOverrides): (r: Axes)
    ensures forall d: Digit :: r[d] != 0.0
    ensures forall d: Digit :: o.Value(d) != 0.0 ==> r[d] == o.Value(d)
    ensures forall d: Digit :: o.Value(d) == 0.0 ==> r[d] == EPSILON
  {
    [CorrectOverrideValue(o.thumb), CorrectOverrideValue(o.index), CorrectOverrideValue(o.middle),
     CorrectOverrideValue(o.ring), CorrectOverrideValue(o.pinky)]
  }

  /** The saved baseline takes the new value only while it differs from the
      forced value; once they agree the baseline is kept. */
  function SaveFingerAxis(f: Finger, update: real): (r: Finger)
    ensures r.saveAxis == update || r.saveAxis == f.saveAxis
    ensures f.saveAxis != f.forceAxis ==> r.saveAxis == update
    ensures f.saveAxis == f.forceAxis ==> r == f
    ensures r == f.(saveAxis := r.saveAxis)
  {
    f.(saveAxis := if f.saveAxis != f.forceAxis then update else f.saveAxis)
  }

  /** The guard of HandleOverrideOn for one digit. */
  predicate OnGuard(f: Finger, permitted: bool) {
    permitted && !IsButtonPressed(f) && f.state != WasOverring
  }

  /** The guard of HandleOverrideOff for one digit. */
  predicate OffGuard(f: Finger, permitted: bool) {
    permitted && !IsButtonPressed(f) && f.state == IsOverriding
  }

  /** The body of HandleOverrideOn's loop for one digit. The state is set to
      IsOverriding before it is tested for NoOverride, so the capture of
      untouchedAxis is never reached. */
  function OverrideOnDigit(f: Finger, given: real, permitted: bool, value: real): Finger {
    if OnGuard(f, permitted) then
      var f1 := f.(state := IsOverriding);
      var f2 := if f1.state == NoOverride then f1.(untouchedAxis := given) else f1;
      SaveFingerAxis(f2, given).(forceAxis := value)
    else f
  }

  /** The body of HandleOverrideOff's loop for one digit. */
  function OverrideOffDigit(f: Finger, permitted: bool, keep: bool): Finger {
    if OffGuard(f, permitted) then
      f.(state := if keep then KeepOverring else WasOverring,
         axis := f.forceAxis,
         forceAxis := f.saveAxis)
    else f
  }

  /** Starts an override layer. With ignoreAll nothing changes. Otherwise
      exactly the permitted, unpressed digits that are not WasOverring move
      to IsOverriding and take the given value as their forced value; their
      saved baseline follows SaveFingerAxis; every other field and every
      other digit is left alone. */
  function HandleOverrideOn(h: Hand, ignoreAll: bool, given: Axes, permissions: Flags, values: Axes): (r: Hand)
    ensures ignoreAll ==> r == h
    ensures forall d: Digit :: !ignoreAll && OnGuard(h[d], permissions[d]) ==>
      && r[d].state == IsOverriding
      && r[d].forceAxis == values[d]
      && r[d].saveAxis == (if h[d].saveAxis != h[d].forceAxis then given[d] else h[d].saveAxis)
      && r[d] == h[d].(state := r[d].state, forceAxis := r[d].forceAxis, saveAxis := r[d].saveAxis)
    ensures forall d: Digit :: !(!ignoreAll && OnGuard(h[d], permissions[d])) ==> r[d] == h[d]
  {
    if ignoreAll then h
    else ForDigits(h, (d: Digit, f: Finger) => OverrideOnDigit(f, given[d], permissions[d], values[d]))
  }

  /** Ends an override layer. With ignoreAll nothing changes. Otherwise
      exactly the permitted, unpressed digits that are IsOverriding move to
      KeepOverring (keep) or WasOverring (not keep); the live axis takes
      the forced value and the forced value takes the saved baseline. */
  function HandleOverrideOff(h: Hand, ignoreAll: bool, permissions: Flags, keep: bool): (r: Hand)
    ensures ignoreAll ==> r == h
    ensures forall d: Digit :: !ignoreAll && OffGuard(h[d], permissions[d]) ==>
      && r[d].state == (if keep then KeepOverring else WasOverring)
      && r[d].axis == h[d].forceAxis
      && r[d].forceAxis == h[d].saveAxis
      && r[d] == h[d].(state := r[d].state, axis := r[d].axis, forceAxis := r[d].forceAxis)
    ensures forall d: Digit :: !(!ignoreAll && OffGuard(h[d], permissions[d])) ==> r[d] == h[d]
  {
    if ignoreAll then h
    else ForDigits(h, (d: Digit, f: Finger) => OverrideOffDigit(f, permissions[d], keep))
  }
}
