/**
  Input ingestion: button-alias events and axis-alias events, one handler
  per digit plus the three-finger handler that drives middle, ring and
  pinky together.
 */
module Input {
  import opened Fingers

  /** Which subscribed alias an event arrived on. */
  datatype FingerSource =
    | ThumbSource | IndexSource | MiddleSource | RingSource | PinkySource
    | ThreeFingerSource

  /** True when events from source s reach digit d. */
  predicate Drives(s: FingerSource, d: Digit) {
    match s
    case ThumbSource => d == THUMB
    case IndexSource => d == INDEX
    case MiddleSource => d == MIDDLE
    case RingSource => d == RING
    case PinkySource => d == PINKY
    case ThreeFingerSource => MIDDLE <= d
  }

  /** A button event seen by a digit that is free of overrides. */
  function Press(f: Finger, pressure: real): Finger {
    f.(changed := true, pressed := pressure != 0.0)
  }

  /** An axis event seen by one digit: the raw value is always stored; the
      live axis follows it only while the digit is free of overrides. */
  function Feel(f: Finger, pressure: real): Finger {
    if f.state == NoOverride then f.(rawAxis := pressure, axis := pressure)
    else f.(rawAxis := pressure)
  }

  /** A button event on digit d. An overridden digit ignores it. */
  function SetFingerEvent(h: Hand, d: Digit, pressure: real): (r: Hand)
    ensures h[d].state == NoOverride ==>
      r[d].pressed == (pressure != 0.0) && r[d].changed
    ensures h[d].state == NoOverride ==>
      r[d] == h[d].(pressed := r[d].pressed, changed := true)
    ensures h[d].state != NoOverride ==> r == h
    ensures forall e: Digit :: e != d ==> r[e] == h[e]
  {
    if h[d].state == NoOverride then h[d := Press(h[d], pressure)] else h
  }

  /** An axis event on digit d. */
  function SetFingerAxisEvent(h: Hand, d: Digit, pressure: real): (r: Hand)
    ensures r[d].rawAxis == pressure
    ensures r[d].axis == if h[d].state == NoOverride then pressure else h[d].axis
    ensures r[d] == h[d].(rawAxis := pressure, axis := r[d].axis)
    ensures forall e: Digit :: e != d ==> r[e] == h[e]
  {
    h[d := Feel(h[d], pressure)]
  }

  /** The Do*Event handlers: one digit each, or middle, ring and pinky in
      that order for the three-finger alias. */
  function DoButtonEvent(h: Hand, s: FingerSource, pressure: real): (r: Hand)
    ensures forall d: Digit ::
      r[d] == if Drives(s, d) && h[d].state == NoOverride then Press(h[d], pressure) else h[d]
  {
    match s
    case ThumbSource => SetFingerEvent(h, THUMB, pressure)
    case IndexSource => SetFingerEvent(h, INDEX, pressure)
    case MiddleSource => SetFingerEvent(h, MIDDLE, pressure)
    case RingSource => SetFingerEvent(h, RING, pressure)
    case PinkySource => SetFingerEvent(h, PINKY, pressure)
    case ThreeFingerSource =>
      SetFingerEvent(SetFingerEvent(SetFingerEvent(h, MIDDLE, pressure), RING, pressure), PINKY, pressure)
  }

  /** The Do*AxisEvent handlers. */
  function DoAxisEvent(h: Hand, s: FingerSource, pressure: real): (r: Hand)
    ensures forall d: Digit :: r[d] == if Drives(s, d) then Feel(h[d], pressure) else h[d]
  {
    match s
    case ThumbSource => SetFingerAxisEvent(h, THUMB, pressure)
    case IndexSource => SetFingerAxisEvent(h, INDEX, pressure)
    case MiddleSource => SetFingerAxisEvent(h, MIDDLE, pressure)
    case RingSource => SetFingerAxisEvent(h, RING, pressure)
    case PinkySource => SetFingerAxisEvent(h, PINKY, pressure)
    case ThreeFingerSource =>
      SetFingerAxisEvent(SetFingerAxisEvent(SetFingerAxisEvent(h, MIDDLE, pressure), RING, pressure), PINKY, pressure)
  }
}
