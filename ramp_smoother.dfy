/** The local `Smoother<T>` of the sine-synth example: a ramp generator that
    moves `value` toward a target by a fixed per-sample step, in one of four
    styles.  Values are modelled as reals (the source instantiates `T` with
    `f32` only); the atomic storage of the fields becomes plain fields. */
module RampSmoother {
  import opened Basics

  /** `SmoothingStyle`. */
  datatype SmoothingStyle = None | Linear | Exponential(timeConstantMs: real) | Logarithmic(logBase: real)

  /** One per-sample advance of the running value: the update `next_block`
      and `preview_modulated` apply while steps are left.  The parameter
      `log(x, b)` stands for `x.log(b)`, which the reals do not provide. */
  function Advance(style: SmoothingStyle, value: real, stepSize: real, log: (real, real) -> real): (r: real)
    ensures style == SmoothingStyle.None || stepSize == 0.0 ==> r == value
    ensures style == Linear ==> r - value == stepSize
  {
    match style
    case None => value
    case Linear => value + stepSize
    case Exponential(_) => value + stepSize * value
    case Logarithmic(b) => value + stepSize * (log(value, b) + 1.0)
  }

  /** The running value after `k` advances. */
  function Ramp(style: SmoothingStyle, value: real, stepSize: real, log: (real, real) -> real, k: nat): (r: real)
    ensures style == SmoothingStyle.None || stepSize == 0.0 ==> r == value
    decreases k
  {
    if k == 0 then value else Advance(style, Ramp(style, value, stepSize, log, k - 1), stepSize, log)
  }

  function Pow(x: real, k: nat): real
    decreases k
  {
    if k == 0 then 1.0 else Pow(x, k - 1) * x
  }

  /** A linear ramp moves by exactly `k` steps after `k` samples. */
  lemma {:induction false} LinearRamp(value: real, stepSize: real, log: (real, real) -> real, k: nat)
    ensures Ramp(Linear, value, stepSize, log, k) == value + Times(k, stepSize)
  {
    if k > 0 {
      LinearRamp(value, stepSize, log, k - 1);
    }
  }

  /** An exponential ramp multiplies the value by `1 + step_size` per sample. */
  lemma {:induction false} ExponentialRamp(c: real, value: real, stepSize: real, log: (real, real) -> real, k: nat)
    ensures Ramp(Exponential(c), value, stepSize, log, k) == value * Pow(1.0 + stepSize, k)
  {
    if k > 0 {
      ExponentialRamp(c, value, stepSize, log, k - 1);
      var prev := Ramp(Exponential(c), value, stepSize, log, k - 1);
      var p := Pow(1.0 + stepSize, k - 1);
      assert prev + stepSize * prev == prev * (1.0 + stepSize);
      assert (value * p) * (1.0 + stepSize) == value * (p * (1.0 + stepSize));
    }
  }

  /** The step count `set_target` stores: `(sample_rate / 1000 * c) as i32`,
      where `c` is the style's time constant. */
  function StepCount(sampleRate: real, timeConstant: real): (r: i32)
    ensures timeConstant == 0.0 ==> r == 0
    ensures 0.0 <= sampleRate && 0.0 <= timeConstant ==> 0 <= r
  {
    SaturatingToI32(sampleRate / 1000.0 * timeConstant)
  }

  /** How many output samples `next_block` visits: `output.iter_mut().take(num_samples)`. */
  function Visited(outputLength: nat, numSamples: nat): (m: nat)
    ensures m <= outputLength && m <= numSamples
    ensures m == outputLength || m == numSamples
  {
    if numSamples <= outputLength then numSamples else outputLength
  }

  class Smoother {
    var value: real
    var style: SmoothingStyle
    var target: real
    var stepsLeft: i32
    var stepSize: real

    /** `Smoother::none()`. */
    constructor None()
      ensures value == 0.0 && style == SmoothingStyle.None && target == 0.0
      ensures stepsLeft == 0 && stepSize == 0.0
    {
      value, style, target := 0.0, SmoothingStyle.None, 0.0;
      stepsLeft, stepSize := 0, 0.0;
    }

    /** `Smoother::new(style)`. */
    constructor (style: SmoothingStyle)
      ensures value == 0.0 && this.style == style && target == 0.0
      ensures stepsLeft == 0 && stepSize == 0.0
    {
      value, this.style, target := 0.0, style, 0.0;
      stepsLeft, stepSize := 0, 0.0;
    }

    /** `reset(target)`: stores the target and stops the ramp; `value` is
        left as it was. */
    method Reset(t: real)
      modifies this
      ensures target == t && stepsLeft == 0 && stepSize == 0.0
      ensures value == old(value) && style == old(style)
    {
      target := t;
      stepsLeft := 0;
      stepSize := 0.0;
    }

    /** `set_target(sample_rate, target)`.  `timeConstant` is
        `SmoothingStyle::time_to_exponential_constant`, which envelop.rs
        uses without defining.  The new target itself is never stored. */
    method SetTarget(sampleRate: real, t: real, timeConstant: SmoothingStyle -> real)
      requires t != target ==> StepCount(sampleRate, timeConstant(style)) != 0
      modifies this
      ensures t == old(target) ==> stepsLeft == old(stepsLeft) && stepSize == old(stepSize)
      ensures t != old(target) ==> stepsLeft == StepCount(sampleRate, timeConstant(style))
      ensures t != old(target) ==> stepsLeft != 0 && stepSize == (t - old(target)) / stepsLeft as real
      ensures value == old(value) && target == old(target) && style == old(style)
    {
      if target != t {
        var steps := StepCount(sampleRate, timeConstant(style));
        var size := (t - target) / steps as real;
        stepsLeft := steps;
        stepSize := size;
      }
    }

    /** `next_block(output, num_samples)`.  With style None every visited
        sample is the target.  Otherwise sample `i` is the running value after
        `i` advances when `steps_left` was positive ON ENTRY, and the entry
        value when it was not; `steps_left` drops by one per visited sample
        (wrapping like `fetch_sub`), but the decision to advance is taken
        from the entry snapshot, so the loop never stops at the target. */
    method NextBlock(output: array<real>, numSamples: nat, log: (real, real) -> real)
      modifies this, output
      ensures style == old(style) && target == old(target) && stepSize == old(stepSize)
      ensures forall i :: Visited(output.Length, numSamples) <= i < output.Length ==> output[i] == old(output[i])
      ensures style == SmoothingStyle.None ==>
        && (forall i :: 0 <= i < Visited(output.Length, numSamples) ==> output[i] == target)
        && value == old(value) && stepsLeft == old(stepsLeft)
      ensures style != SmoothingStyle.None && old(stepsLeft) > 0 ==>
        && (forall i :: 0 <= i < Visited(output.Length, numSamples) ==>
              output[i] == Ramp(style, old(value), stepSize, log, i))
        && value == Ramp(style, old(value), stepSize, log, Visited(output.Length, numSamples))
        && stepsLeft == WrapI32(old(stepsLeft) - Visited(output.Length, numSamples))
      ensures style != SmoothingStyle.None && old(stepsLeft) <= 0 ==>
        && (forall i :: 0 <= i < Visited(output.Length, numSamples) ==> output[i] == old(value))
        && value == old(value) && stepsLeft == old(stepsLeft)
    {
      var m := Visited(output.Length, numSamples);
      if style == SmoothingStyle.None {
        Fill(output, m, target);
      } else {
        RunRamp(output, m, log);
      }
    }

    /** The first `m` samples of `output` set to `v`, the others kept. */
    method Fill(output: array<real>, m: nat, v: real)
      requires m <= output.Length
      modifies output
      ensures forall j :: 0 <= j < m ==> output[j] == v
      ensures forall j :: m <= j < output.Length ==> output[j] == old(output[j])
    {
      for i := 0 to m
        invariant forall j :: 0 <= j < i ==> output[j] == v
        invariant forall j :: i <= j < output.Length ==> output[j] == old(output[j])
      {
        output[i] := v;
      }
    }

    /** The loop of `next_block` for a style other than None, over the
        first `m` samples.  Whether to advance is decided from the
        `steps_left` read on entry, so that test is the same on every
        sample: with no steps left the entry value is written throughout. */
    method RunRamp(output: array<real>, m: nat, log: (real, real) -> real)
      requires m <= output.Length
      modifies this, output
      ensures style == old(style) && target == old(target) && stepSize == old(stepSize)
      ensures forall i :: m <= i < output.Length ==> output[i] == old(output[i])
      ensures old(stepsLeft) > 0 ==>
        && (forall i :: 0 <= i < m ==> output[i] == Ramp(style, old(value), stepSize, log, i))
        && value == Ramp(style, old(value), stepSize, log, m)
        && stepsLeft == WrapI32(old(stepsLeft) - m)
      ensures old(stepsLeft) <= 0 ==>
        && (forall i :: 0 <= i < m ==> output[i] == old(value))
        && value == old(value) && stepsLeft == old(stepsLeft)
    {
      if stepsLeft <= 0 {
        Fill(output, m, value);
      } else {
        Advancing(output, m, log);
      }
    }

    /** The loop of `next_block` when `steps_left` was positive on entry:
        every visited sample gets the running value, which advances one
        step per sample, and `steps_left` drops by one per sample. */
    method Advancing(output: array<real>, m: nat, log: (real, real) -> real)
      requires m <= output.Length && stepsLeft > 0
      modifies this, output
      ensures style == old(style) && target == old(target) && stepSize == old(stepSize)
      ensures forall i :: m <= i < output.Length ==> output[i] == old(output[i])
      ensures forall i :: 0 <= i < m ==> output[i] == Ramp(style, old(value), stepSize, log, i)
      ensures value == Ramp(style, old(value), stepSize, log, m)
      ensures stepsLeft == WrapI32(old(stepsLeft) - m)
    {
      var steps := stepsLeft;
      var size := stepSize;
      var v := value;
      for i := 0 to m
        invariant v == Ramp(style, old(value), size, log, i)
        invariant stepsLeft == WrapI32(steps - i)
        invariant forall j {:trigger output[j]} :: 0 <= j < i ==> output[j] == Ramp(style, old(value), size, log, j)
        invariant forall j :: i <= j < output.Length ==> output[j] == old(output[j])
        invariant style == old(style) && target == old(target) && stepSize == size
      {
        output[i] := v;
        v := Advance(style, v, size, log);
        CountDown(steps - i);
      }
      value := v;
    }

    /** `steps_left.fetch_sub(1)` on an `i32`, which wraps; `stepsLeft`
        tracks `n` wrapped. */
    method CountDown(ghost n: int)
      requires stepsLeft == WrapI32(n)
      modifies this
      ensures stepsLeft == WrapI32(n - 1)
      ensures value == old(value) && style == old(style) && target == old(target) && stepSize == old(stepSize)
    {
      WrapI32Decrement(n);
      stepsLeft := WrapI32(stepsLeft - 1);
    }

    /** `preview_modulated(normalized_offset)`: the value the ramp would
        reach after its remaining steps, plus a fractional extra step; the
        smoother itself is not changed.  A negative `steps_left` runs no
        steps. */
    method PreviewModulated(normalizedOffset: real, log: (real, real) -> real) returns (r: real)
      ensures style == SmoothingStyle.None ==> r == target
      ensures style == Linear ==>
        r == value + Times(if stepsLeft > 0 then stepsLeft else 0, stepSize) + normalizedOffset * stepSize
      ensures style.Exponential? ==>
        r == value * Pow(1.0 + stepSize, if stepsLeft > 0 then stepsLeft else 0) * (1.0 + normalizedOffset * stepSize)
      ensures style.Logarithmic? ==>
        r == Ramp(style, value, stepSize, log, if stepsLeft > 0 then stepsLeft else 0) * (1.0 + normalizedOffset * stepSize)
    {
      if style == SmoothingStyle.None {
        return target;
      }
      var steps := stepsLeft;
      var v := value;
      var n: nat := if steps > 0 then steps else 0;
      for i := 0 to n
        invariant v == Ramp(style, value, stepSize, log, i)
      {
        v := Advance(style, v, stepSize, log);
      }
      if style == Linear {
        LinearRamp(value, stepSize, log, n);
        r := v + normalizedOffset * stepSize;
      } else {
        if style.Exponential? {
          ExponentialRamp(style.timeConstantMs, value, stepSize, log, n);
        }
        r := v * (1.0 + normalizedOffset * stepSize);
      }
    }
  }
}
