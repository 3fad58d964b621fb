/** The per-voice oscillator of lib.rs: a phase accumulator wrapped into
    [0, 1) and a triangle wave read from the phase. */
module Oscillator {
  import opened Basics

  /** `triangle_wave(phase)`. */
  function TriangleWave(phase: real): (r: real)
    ensures 0.0 <= phase <= 1.0 ==> -1.0 <= r <= 1.0
    ensures phase == 0.0 ==> r == -1.0
    ensures phase == 0.5 ==> r == 1.0
  {
    if phase <= 0.5 then phase * 4.0 - 1.0 else (1.0 - phase) * 4.0 - 1.0
  }

  /** One sample's phase advance: `phase += phase_delta; if phase >= 1 { phase -= 1 }`. */
  function WrapPhase(phase: real, delta: real): (r: real)
    ensures 0.0 <= phase < 1.0 && 0.0 <= delta < 1.0 ==> 0.0 <= r < 1.0
    ensures r == phase + delta || r == phase + delta - 1.0
  {
    var p := phase + delta;
    if p >= 1.0 then p - 1.0 else p
  }

  /** The phase after `k` samples. */
  function PhaseAfter(phase: real, delta: real, k: nat): (r: real)
    ensures delta == 0.0 && phase < 1.0 ==> r == phase
    decreases k
  {
    if k == 0 then phase else WrapPhase(PhaseAfter(phase, delta, k - 1), delta)
  }

  /** A phase that starts in [0, 1) with an increment in [0, 1) stays in
      [0, 1), so each rendered sample is the amplitude times a value in
      [-1, 1]. */
  lemma {:induction false} PhaseStaysWrapped(phase: real, delta: real, k: nat)
    requires 0.0 <= phase < 1.0 && 0.0 <= delta < 1.0
    ensures 0.0 <= PhaseAfter(phase, delta, k) < 1.0
    ensures -1.0 <= TriangleWave(PhaseAfter(phase, delta, k)) <= 1.0
  {
    if k > 0 {
      PhaseStaysWrapped(phase, delta, k - 1);
    }
  }

  /** The phase advances by `k * delta` up to a whole number of turns. */
  lemma {:induction false} PhaseAdvancesByDelta(phase: real, delta: real, k: nat)
    ensures exists turns: int {:trigger turns as real} :: PhaseAfter(phase, delta, k) == phase + Times(k, delta) - turns as real
  {
    if k == 0 {
      assert PhaseAfter(phase, delta, k) == phase + Times(k, delta) - (0 as real);
    } else {
      PhaseAdvancesByDelta(phase, delta, k - 1);
      var t: int :| PhaseAfter(phase, delta, k - 1) == phase + Times(k - 1, delta) - t as real;
      var p := PhaseAfter(phase, delta, k - 1);
      if p + delta >= 1.0 {
        assert PhaseAfter(phase, delta, k) == phase + Times(k, delta) - (t + 1) as real;
      } else {
        assert PhaseAfter(phase, delta, k) == phase + Times(k, delta) - t as real;
      }
    }
  }
}
