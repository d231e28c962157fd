/** photonzombie.physics.color: a hue that bounces between two limits, one step per time
    step. The HSV-to-RGB conversion of the `rgb` property is a library call and is not
    modelled. */
module ColorShifter {
  import opened Common

  /** The hue and sign `__init__` starts from: a missing initial hue means the minimum;
      below the minimum starts at the minimum going up, above the maximum starts at the
      maximum going down, and anything else starts where it is, going up. */
  function InitialState(initialHue: Option<real>, minHue: real, maxHue: real): (s: (real, int))
    ensures var h := if initialHue.None? then minHue else initialHue.value;
      (h < minHue ==> s == (minHue, 1))
      && (minHue <= h && maxHue < h ==> s == (maxHue, -1))
      && (minHue <= h <= maxHue ==> s == (h, 1))
    ensures minHue <= maxHue ==> minHue <= s.0 <= maxHue && (s.1 == 1 || s.1 == -1)
  {
    var h := if initialHue.None? then minHue else initialHue.value;
    if h < minHue then (minHue, 1)
    else if h > maxHue then (maxHue, -1)
    else (h, 1)
  }

  /** One `advance_time`: a step in the current direction when it stays within the
      limits (inclusive), otherwise the direction flips and the step goes the other way. */
  function Step(hue: real, sign: int, step: real, minHue: real, maxHue: real): (s: (real, int)) {
    var next := hue + sign as real * step;
    if sign == 1 then
      if next <= maxHue then (next, sign) else (hue - step, -1)
    else
      if next >= minHue then (next, sign) else (hue + step, 1)
  }

  predicate InRange(s: (real, int), minHue: real, maxHue: real) {
    minHue <= s.0 <= maxHue && (s.1 == 1 || s.1 == -1)
  }

  /** When two steps fit between the limits, a step from a hue in range moving in
      either direction stays in range, by exactly one step. */
  lemma StepInRange(hue: real, sign: int, step: real, minHue: real, maxHue: real)
    requires 0.0 <= step && 2.0 * step <= maxHue - minHue
    requires InRange((hue, sign), minHue, maxHue)
    ensures InRange(Step(hue, sign, step, minHue, maxHue), minHue, maxHue)
    ensures var s := Step(hue, sign, step, minHue, maxHue);
      s.0 == hue + step || s.0 == hue - step
  {
  }

  /** The hue after n time steps. */
  function Steps(s: (real, int), step: real, minHue: real, maxHue: real, n: nat): (real, int) {
    if n == 0 then s else Step(Steps(s, step, minHue, maxHue, n - 1).0, Steps(s, step, minHue, maxHue, n - 1).1, step, minHue, maxHue)
  }

  /** From the initial state, any number of steps keeps the hue within the limits and the
      sign in {-1, +1}. */
  lemma {:induction false} StepsInRange(initialHue: Option<real>, step: real, minHue: real, maxHue: real, n: nat)
    requires 0.0 <= step && 2.0 * step <= maxHue - minHue
    ensures InRange(Steps(InitialState(initialHue, minHue, maxHue), step, minHue, maxHue, n), minHue, maxHue)
  {
    if n > 0 {
      StepsInRange(initialHue, step, minHue, maxHue, n - 1);
      var s := Steps(InitialState(initialHue, minHue, maxHue), step, minHue, maxHue, n - 1);
      StepInRange(s.0, s.1, step, minHue, maxHue);
    }
  }

  class ColorShifter {
    const initialHue: real
    const colorStep: real
    const minHue: real
    const maxHue: real
    const saturation: real
    const value: real
    var currentHue: real
    var sign: int

    constructor(initialHue: Option<real>, colorStep: real, minHue: real, maxHue: real, saturation: real, value: real)
      ensures this.initialHue == (if initialHue.None? then minHue else initialHue.value)
      ensures this.colorStep == colorStep && this.minHue == minHue && this.maxHue == maxHue
      ensures this.saturation == saturation && this.value == value
      ensures (currentHue, sign) == InitialState(initialHue, minHue, maxHue)
    {
      this.initialHue := if initialHue.None? then minHue else initialHue.value;
      this.colorStep := colorStep;
      this.minHue := minHue;
      this.maxHue := maxHue;
      this.saturation := saturation;
      this.value := value;
      var s := InitialState(initialHue, minHue, maxHue);
      currentHue := s.0;
      sign := s.1;
    }

    /** `advance_time`. */
    method AdvanceTime()
      modifies this
      ensures (currentHue, sign) == Step(old(currentHue), old(sign), colorStep, minHue, maxHue)
      ensures 0.0 <= colorStep && 2.0 * colorStep <= maxHue - minHue && InRange((old(currentHue), old(sign)), minHue, maxHue)
        ==> InRange((currentHue, sign), minHue, maxHue)
    {
      ghost var s := Step(currentHue, sign, colorStep, minHue, maxHue);
      var hue := currentHue + sign as real * colorStep;
      if sign == 1 {
        if hue <= maxHue {
          currentHue := hue;
        } else {
          sign := -1;
          currentHue := currentHue - colorStep;
        }
      } else {
        if hue >= minHue {
          assert s.1 == sign;
          assert s.0 == hue;
          currentHue := hue;
        } else {
          sign := 1;
          currentHue := currentHue + colorStep;
        }
      }
      assert (currentHue, sign) == s;
      if 0.0 <= colorStep && 2.0 * colorStep <= maxHue - minHue && InRange((old(currentHue), old(sign)), minHue, maxHue) {
        StepInRange(old(currentHue), old(sign), colorStep, minHue, maxHue);
      }
    }

    /** The `hsv` property reads `self._hue`, which nothing sets. */
    function Hsv(): (r: Result<(real, real, real)>)
      ensures r == Err(AttributeError)
    {
      Err(AttributeError)
    }
  }
}
