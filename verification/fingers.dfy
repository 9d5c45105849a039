/**
  The per-digit channel state of the avatar hand controller: five digit
  channels (thumb, index, middle, ring, pinky), each with its button state,
  its axis values and its override state, plus the effects the controller
  emits towards the animator and the host.
 */
module Fingers {

  /** A digit index: 0 = thumb, 1 = index, 2 = middle, 3 = ring, 4 = pinky. */
  type Digit = i: int | 0 <= i < 5

  const THUMB: Digit := 0
  const INDEX: Digit := 1
  const MIDDLE: Digit := 2
  const RING: Digit := 3
  const PINKY: Digit := 4

  /** The override state of one digit; the constructor names keep the
      source's spelling of the enumeration. */
  datatype OverrideState = NoOverride | IsOverriding | WasOverring | KeepOverring

  /** One digit channel. */
  datatype Finger = Finger(
    pressed: bool,        // button state from the last button event
    changed: bool,        // dirty flag, consumed once by the per-tick resolution
    axis: real,           // value that drives the animation
    rawAxis: real,        // last reported axis pressure, stored regardless of overrides
    untouchedAxis: real,  // value restored by an untouch
    saveAxis: real,       // baseline kept under a layered override
    forceAxis: real,      // value imposed while overriding
    state: OverrideState)

  const Idle: Finger := Finger(false, false, 0.0, 0.0, 0.0, 0.0, 0.0, NoOverride)

  /** The five channels, indexed by Digit. */
  type Hand = s: seq<Finger> | |s| == 5
    witness [Idle, Idle, Idle, Idle, Idle]

  /** One real per digit (axis arrays, override values). */
  type Axes = s: seq<real> | |s| == 5
    witness [0.0, 0.0, 0.0, 0.0, 0.0]

  /** One flag per digit (override permissions). */
  type Flags = s: seq<bool> | |s| == 5
    witness [false, false, false, false, false]

  /** The hand as the component starts: every array element at its default. */
  const Initial: Hand := [Idle, Idle, Idle, Idle, Idle]

  /** What the controller asks of the world outside the modelled core. */
  datatype Effect =
    | SetWeight(layer: int, value: real)                   // animator layer weight write
    | StartLerp(digit: Digit, start: real, target: real)   // a new interpolation routine
    | Resubscribe                                          // drop and re-add event listeners
    | MirrorHand                                           // flip the model's x scale

  /** A digit counts as pressed when its button is down or its axis is
      above zero; such a digit blocks overrides. */
  predicate IsButtonPressed(f: Finger) {
    f.pressed || f.rawAxis > 0.0
  }

  /** The live axis of every digit, as an Axes value. */
  function AxisOf(h: Hand): (a: Axes)
    ensures forall d: Digit :: a[d] == h[d].axis
  {
    [h[0].axis, h[1].axis, h[2].axis, h[3].axis, h[4].axis]
  }

  /** Visits the digits from i to 4 in order, replacing each by f of it.
      Every visit reads and writes its own slot only, so the result at a
      digit depends on that digit alone. */
  function ForDigitsFrom(h: Hand, i: nat, f: (Digit, Finger) -> Finger): (r: Hand)
    requires i <= 5
    ensures forall d: Digit :: r[d] == if d < i then h[d] else f(d, h[d])
    decreases 5 - i
  {
    if i == 5 then h else ForDigitsFrom(h[i := f(i, h[i])], i + 1, f)
  }

  /** The loop `for (i = 0; i < 5; i++)` of the source over a per-digit step. */
  function ForDigits(h: Hand, f: (Digit, Finger) -> Finger): (r: Hand)
    ensures forall d: Digit :: r[d] == f(d, h[d])
  {
    ForDigitsFrom(h, 0, f)
  }
}
