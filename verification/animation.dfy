/**
  The finger animation driver: the per-tick resolution of each digit into a
  weight write or a new interpolation, the interpolation itself as a step
  function over frame times, and the weight write that also retires a
  released override.
 */
module Animation {
  import opened Fingers
  import opened Profiles

  /** A real between two bounds, in either order. */
  predicate Between(x: real, a: real, b: real) {
    (a <= x <= b) || (b <= x <= a)
  }

  function Clamp01(t: real): (r: real)
    ensures 0.0 <= r <= 1.0
    ensures 0.0 <= t <= 1.0 ==> r == t
    ensures t <= 0.0 ==> r == 0.0
    ensures t >= 1.0 ==> r == 1.0
  {
    if t < 0.0 then 0.0 else if t > 1.0 then 1.0 else t
  }

  /** The engine's clamped linear interpolation: the progress t is clamped
      to [0, 1] first, so the result stays between the two ends, is the
      start for t <= 0 and the target for t >= 1. */
  function Lerp(a: real, b: real, t: real): (r: real)
    ensures Between(r, a, b)
    ensures t <= 0.0 ==> r == a
    ensures t >= 1.0 ==> r == b
  {
    var c := Clamp01(t);
    StepWithin(a, b, c);
    a + (b - a) * c
  }

  /** A step of a fraction c in [0, 1] from a towards b stays between them,
      and the fractions 0 and 1 land on a and b. */
  lemma StepWithin(a: real, b: real, c: real)
    requires 0.0 <= c <= 1.0
    ensures Between(a + (b - a) * c, a, b)
    ensures c == 0.0 ==> a + (b - a) * c == a
    ensures c == 1.0 ==> a + (b - a) * c == b
  {
    var x := if a <= b then b - a else a - b;
    assert x >= 0.0 && 1.0 - c >= 0.0;
    assert x * (1.0 - c) >= 0.0;
    assert 0.0 <= x * c <= x;
    if a <= b {
      assert (b - a) * c == x * c;
    } else {
      assert (b - a) * c == -(x * c);
    }
  }

  /** The effects a tick can emit: animator writes and new interpolations. */
  predicate Animates(e: Effect) {
    e.SetWeight? || e.StartLerp?
  }

  /** What a tick or an interpolation leaves behind. */
  datatype Tick = Tick(hand: Hand, effects: seq<Effect>)

  /** A WasOverring digit is retired by any weight write; the other states
      survive it. */
  function Retire(s: OverrideState): OverrideState {
    if s == WasOverring then NoOverride else s
  }

  /** Writes weight v to animator layer d + 1 and makes v the digit's axis;
      a digit that was released from an override becomes free. */
  function SetFingerPosition(h: Hand, d: Digit, v: real): (r: Tick)
    ensures r.effects == [SetWeight(d + 1, v)]
    ensures r.hand[d] == h[d].(axis := v, state := Retire(h[d].state))
    ensures forall e: Digit :: e != d ==> r.hand[e] == h[e]
  {
    Tick(h[d := h[d].(axis := v, state := Retire(h[d].state))], [SetWeight(d + 1, v)])
  }

  /** The per-tick resolution of digit d in mode m.
      - An overridden digit whose axis differs from its forced value starts
        an interpolation towards it; once they agree, WasOverring is retired
        while IsOverriding and KeepOverring stay.
      - A free Digital digit with its dirty flag set clears the flag and
        snaps from the old binary value to the new one.
      - A free Axis or SenseAxis digit writes its axis directly.
      At most one effect is emitted, no digit but d changes, and only the
      dirty flag and the override state of d can change. */
  function ProcessFinger(h: Hand, d: Digit, m: AxisType): (r: Tick)
    ensures |r.effects| <= 1
    ensures forall k :: 0 <= k < |r.effects| ==> Animates(r.effects[k])
    ensures forall e: Digit :: e != d ==> r.hand[e] == h[e]
    ensures r.hand[d] == h[d].(changed := r.hand[d].changed, state := r.hand[d].state)
    ensures h[d].state != NoOverride && h[d].axis != h[d].forceAxis ==>
      r == Tick(h, [StartLerp(d, h[d].axis, h[d].forceAxis)])
    ensures h[d].state != NoOverride && h[d].axis == h[d].forceAxis ==>
      r.effects == [] && r.hand[d] == h[d].(state := Retire(h[d].state))
    ensures h[d].state == NoOverride && m == Digital && h[d].changed ==>
      && r.hand[d] == h[d].(changed := false)
      && r.effects == [StartLerp(d, if h[d].pressed then 0.0 else 1.0, if h[d].pressed then 1.0 else 0.0)]
    ensures h[d].state == NoOverride && m == Digital && !h[d].changed ==> r == Tick(h, [])
    ensures h[d].state == NoOverride && m != Digital ==> r == Tick(h, [SetWeight(d + 1, h[d].axis)])
  {
    var f := h[d];
    if f.state != NoOverride then
      if f.axis != f.forceAxis then Tick(h, [StartLerp(d, f.axis, f.forceAxis)])
      else if f.state == WasOverring then Tick(h[d := f.(state := NoOverride)], [])
      else Tick(h, [])
    else if m == Digital then
      if f.changed then
        var start := if f.pressed then 0.0 else 1.0;
        var target := if f.pressed then 1.0 else 0.0;
        Tick(h[d := f.(changed := false)], [StartLerp(d, start, target)])
      else Tick(h, [])
    else SetFingerPosition(h, d, f.axis)
  }

  /** The effects of digits i to 4, each resolved against hand h, joined in
      thumb-to-pinky order. */
  function TickEffects(h: Hand, s: Settings, i: nat): seq<Effect>
    requires i <= 5
    decreases 5 - i
  {
    if i == 5 then [] else ProcessFinger(h, i, s.Mode(i)).effects + TickEffects(h, s, i + 1)
  }

  /** The digits from i to 4 resolved in order, each in its own mode. Since
      each resolution touches its own digit only, the result at every digit
      is that digit's resolution against the hand the tick started from,
      and the effects are those resolutions' effects in digit order. */
  function ProcessFrom(h: Hand, s: Settings, i: nat): (r: Tick)
    requires i <= 5
    ensures forall d: Digit :: r.hand[d] == if d < i then h[d] else ProcessFinger(h, d, s.Mode(d)).hand[d]
    ensures r.effects == TickEffects(h, s, i)
    ensures |r.effects| <= 5 - i
    ensures forall k :: 0 <= k < |r.effects| ==> Animates(r.effects[k])
    decreases 5 - i
  {
    if i == 5 then Tick(h, [])
    else
      var t := ProcessFinger(h, i, s.Mode(i));
      var rest := ProcessFrom(t.hand, s, i + 1);
      ProcessFingerLocal(h, t.hand, s, i + 1);
      TickEffectsLocal(h, t.hand, s, i + 1);
      Tick(rest.hand, t.effects + rest.effects)
  }

  /** The resolution of a digit depends on that digit's channel alone. */
  lemma ProcessFingerLocal(h1: Hand, h2: Hand, s: Settings, i: nat)
    requires forall d: Digit :: i <= d ==> h1[d] == h2[d]
    ensures forall d: Digit :: i <= d ==>
      ProcessFinger(h1, d, s.Mode(d)).hand[d] == ProcessFinger(h2, d, s.Mode(d)).hand[d]
  {
  }

  /** The effects of digits i to 4 depend on those digits' channels alone. */
  lemma {:induction false} TickEffectsLocal(h1: Hand, h2: Hand, s: Settings, i: nat)
    requires i <= 5
    requires forall d: Digit :: i <= d ==> h1[d] == h2[d]
    ensures TickEffects(h1, s, i) == TickEffects(h2, s, i)
    decreases 5 - i
  {
    if i < 5 {
      assert ProcessFinger(h1, i, s.Mode(i)).effects == ProcessFinger(h2, i, s.Mode(i)).effects;
      TickEffectsLocal(h1, h2, s, i + 1);
    }
  }

  /** One tick over thumb, index, middle, ring and pinky: every digit is
      resolved against the hand the tick started from, and the effects are
      the five resolutions' effects from thumb to pinky. */
  function ProcessHand(h: Hand, s: Settings): (r: Tick)
    ensures forall d: Digit :: r.hand[d] == ProcessFinger(h, d, s.Mode(d)).hand[d]
    ensures r.effects == TickEffects(h, s, 0)
    ensures |r.effects| <= 5
    ensures forall k :: 0 <= k < |r.effects| ==> Animates(r.effects[k])
  {
    ProcessFrom(h, s, 0)
  }

  /** The elapsed time that a run of frame times adds up to. */
  function Sum(deltas: seq<real>): real {
    if |deltas| == 0 then 0.0 else deltas[0] + Sum(deltas[1..])
  }

  predicate Positive(deltas: seq<real>) {
    forall k :: 0 <= k < |deltas| ==> deltas[k] > 0.0
  }

  /** The routine's schedule alone: it ends on the first resumption at
      which the elapsed time has reached the duration. */
  predicate Completes(time: real, elapsed: real, deltas: seq<real>)
    decreases |deltas|
  {
    elapsed >= time || (|deltas| > 0 && Completes(time, elapsed + deltas[0], deltas[1..]))
  }

  datatype Interpolation = Interpolation(hand: Hand, effects: seq<Effect>, finished: bool)

  /** The interpolation routine resumed with `elapsed` time already spent,
      fed one frame time per resumption. While elapsed < time each frame
      adds its delta and writes the interpolated weight; once elapsed
      reaches time the target is written and the routine ends. When the
      frame times run out first the routine is still suspended.
      Every write goes to layer d + 1 and lies between start and target; a
      finished run's last write, and the digit's final axis, is exactly the
      target; an unfinished run wrote once per frame; only the axis and
      the override state of d change. */
  function RunLerp(h: Hand, d: Digit, start: real, target: real, time: real, elapsed: real, deltas: seq<real>): (r: Interpolation)
    requires elapsed >= 0.0 && Positive(deltas)
    ensures forall k :: 0 <= k < |r.effects| ==>
      r.effects[k].SetWeight? && r.effects[k].layer == d + 1 && Between(r.effects[k].value, start, target)
    ensures r.finished ==>
      && |r.effects| > 0
      && r.effects[|r.effects| - 1] == SetWeight(d + 1, target)
      && r.hand[d].axis == target
    ensures r.finished == Completes(time, elapsed, deltas)
    ensures !r.finished ==> |r.effects| == |deltas|
    ensures |r.effects| <= |deltas| + 1
    ensures LerpWrites(r.effects, r.finished, d, start, target, time, elapsed, deltas)
    ensures elapsed >= time ==> r.finished && r.effects == [SetWeight(d + 1, target)]
    ensures forall e: Digit :: e != d ==> r.hand[e] == h[e]
    ensures |r.effects| == 0 ==> r.hand == h
    ensures |r.effects| > 0 ==>
      r.hand[d] == h[d].(axis := r.effects[|r.effects| - 1].value, state := Retire(h[d].state))
    decreases |deltas|
  {
    if !(elapsed < time) then
      var w := SetFingerPosition(h, d, target);
      Interpolation(w.hand, w.effects, true)
    else if |deltas| == 0 then
      Interpolation(h, [], false)
    else
      var now := elapsed + deltas[0];
      var w := SetFingerPosition(h, d, Lerp(start, target, now / time));
      var rest := RunLerp(w.hand, d, start, target, time, now, deltas[1..]);
      assert (w.effects + rest.effects)[1..] == rest.effects;
      Interpolation(rest.hand, w.effects + rest.effects, rest.finished)
  }

  /** The writes of an interpolation frame by frame. While the elapsed
      time is below the duration each frame makes exactly one write, the
      clamped Lerp from start to target at the fraction of the duration
      elapsed after that frame; a finished run's lone final write comes only
      once the elapsed time has reached the duration. */
  predicate LerpWrites(effects: seq<Effect>, finished: bool, d: Digit, start: real, target: real,
                       time: real, elapsed: real, deltas: seq<real>)
    decreases |effects|
  {
    if |effects| == 0 then true
    else if finished && |effects| == 1 then elapsed >= time
    else
      && elapsed < time
      && time > 0.0
      && |deltas| > 0
      && effects[0] == SetWeight(d + 1, Lerp(start, target, (elapsed + deltas[0]) / time))
      && LerpWrites(effects[1..], finished, d, start, target, time, elapsed + deltas[0], deltas[1..])
  }

  /** The closed form of LerpWrites: write k, when it is not the final
      target write, is the Lerp at the elapsed time plus the first k + 1
      frame times, over the duration. */
  lemma {:induction false} LerpWriteAt(effects: seq<Effect>, finished: bool, d: Digit, start: real, target: real,
                                       time: real, elapsed: real, deltas: seq<real>, k: nat)
    ensures LerpWrites(effects, finished, d, start, target, time, elapsed, deltas) &&
            k < |effects| && (k < |effects| - 1 || !finished) ==>
      && time > 0.0
      && k < |deltas|
      && effects[k] == SetWeight(d + 1, Lerp(start, target, (elapsed + Sum(deltas[..k + 1])) / time))
    decreases k
  {
    if LerpWrites(effects, finished, d, start, target, time, elapsed, deltas) &&
       k < |effects| && (k < |effects| - 1 || !finished) {
      if k > 0 {
        LerpWriteAt(effects[1..], finished, d, start, target, time, elapsed + deltas[0], deltas[1..], k - 1);
      }
      SumOfPrefix(deltas, k);
    }
  }

  /** A non-empty prefix of the frame times sums to the first frame time
      plus the matching prefix of the rest. */
  lemma SumOfPrefix(deltas: seq<real>, k: nat)
    requires k < |deltas|
    ensures Sum(deltas[..k + 1]) == deltas[0] + Sum(deltas[1..][..k])
  {
    assert deltas[..k + 1][1..] == deltas[1..][..k];
  }

  /** ChangePosition: an interpolation started with nothing elapsed. With a
      duration of zero or less the loop never runs and the only write is
      the target. Each earlier write is the Lerp at the frame times so far
      over the duration (LerpWrites; ChangePositionWriteAt gives the closed
      form), every write lies between start and target, and the run
      finishes exactly when the frame times reach the duration; a run the
      frames leave unfinished wrote once per frame. Only digit d changes:
      its axis takes the last write and a released override is retired. */
  function ChangePosition(h: Hand, d: Digit, start: real, target: real, time: real, deltas: seq<real>): (r: Interpolation)
    requires Positive(deltas)
    ensures time <= 0.0 ==> r.finished && r.effects == [SetWeight(d + 1, target)]
    ensures r.finished ==>
      |r.effects| > 0 && r.effects[|r.effects| - 1] == SetWeight(d + 1, target) && r.hand[d].axis == target
    ensures forall k :: 0 <= k < |r.effects| ==>
      r.effects[k].SetWeight? && r.effects[k].layer == d + 1 && Between(r.effects[k].value, start, target)
    ensures LerpWrites(r.effects, r.finished, d, start, target, time, 0.0, deltas)
    ensures r.finished <==> Sum(deltas) >= time
    ensures !r.finished ==> |r.effects| == |deltas|
    ensures forall e: Digit :: e != d ==> r.hand[e] == h[e]
    ensures |r.effects| == 0 ==> r.hand == h
    ensures |r.effects| > 0 ==>
      r.hand[d] == h[d].(axis := r.effects[|r.effects| - 1].value, state := Retire(h[d].state))
  {
    var r := RunLerp(h, d, start, target, time, 0.0, deltas);
    CompletesIff(time, 0.0, deltas);
    r
  }

  /** Write k of ChangePosition, unless it is the final target write, is
      the Lerp from start to target at the first k + 1 frame times over the
      duration. */
  lemma ChangePositionWriteAt(h: Hand, d: Digit, start: real, target: real, time: real, deltas: seq<real>, k: nat)
    requires Positive(deltas)
    ensures var r := ChangePosition(h, d, start, target, time, deltas);
      k < |r.effects| && (k < |r.effects| - 1 || !r.finished) ==>
        && time > 0.0
        && k < |deltas|
        && r.effects[k] == SetWeight(d + 1, Lerp(start, target, Sum(deltas[..k + 1]) / time))
  {
    var r := ChangePosition(h, d, start, target, time, deltas);
    LerpWriteAt(r.effects, r.finished, d, start, target, time, 0.0, deltas, k);
  }

  /** A one-second snap fed two half-second frames writes the halfway
      point, then the end point twice: once for the frame that reaches the
      duration and once after the loop. */
  lemma TwoHalfFrames(h: Hand, d: Digit)
    ensures ChangePosition(h, d, 0.0, 1.0, 1.0, [0.5, 0.5]).effects ==
      [SetWeight(d + 1, 0.5), SetWeight(d + 1, 1.0), SetWeight(d + 1, 1.0)]
  {
    var deltas := [0.5, 0.5];
    assert deltas[1..] == [0.5] && deltas[1..][1..] == [];
    var w1 := SetFingerPosition(h, d, Lerp(0.0, 1.0, 0.5 / 1.0));
    var w2 := SetFingerPosition(w1.hand, d, Lerp(0.0, 1.0, 1.0 / 1.0));
    assert RunLerp(w2.hand, d, 0.0, 1.0, 1.0, 1.0, []).effects == [SetWeight(d + 1, 1.0)];
  }

  /** The iff between the schedule and the frame times: an interpolation
      completes exactly when its elapsed time plus the frame times it is
      fed reach its duration. */
  lemma {:induction false} CompletesIff(time: real, elapsed: real, deltas: seq<real>)
    requires Positive(deltas)
    ensures Completes(time, elapsed, deltas) <==> elapsed + Sum(deltas) >= time
    decreases |deltas|
  {
    if |deltas| > 0 {
      SumNonNegative(deltas[1..]);
      CompletesIff(time, elapsed + deltas[0], deltas[1..]);
    }
  }

  /** ChangePosition fed frame times adding up to its duration finishes:
      its last write, and the digit's axis, is exactly the target, and a
      released digit is free again. */
  lemma LerpCompletes(h: Hand, d: Digit, start: real, target: real, time: real, deltas: seq<real>)
    requires Positive(deltas) && Sum(deltas) >= time
    ensures var r := ChangePosition(h, d, start, target, time, deltas);
      && r.finished
      && r.effects[|r.effects| - 1] == SetWeight(d + 1, target)
      && r.hand[d].axis == target
      && r.hand[d].state == Retire(h[d].state)
  {
    CompletesIff(time, 0.0, deltas);
  }

  lemma {:induction false} SumNonNegative(deltas: seq<real>)
    requires Positive(deltas)
    ensures Sum(deltas) >= 0.0
    decreases |deltas|
  {
    if |deltas| > 0 {
      SumNonNegative(deltas[1..]);
    }
  }
}
