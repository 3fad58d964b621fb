/** The ADSR envelope of the poly-mod-synth example: a five-state machine
    whose level is updated once per sample and multiplied into the buffer. */
module AdsrEnvelope {
  import opened Basics

  /** `EnvelopeState`. */
  datatype EnvelopeState = Idle | Attack | Decay | Sustain | Release

  /** The parameters `process` reads at entry: times already converted from
      milliseconds to seconds, the sustain level and the sample rate. */
  datatype Settings = Settings(attack: real, decay: real, sustain: real, release: real, sampleRate: real)

  /** Every division `process` performs has a nonzero divisor. */
  predicate Divisible(c: Settings) {
    c.attack * c.sampleRate != 0.0 && c.decay * c.sampleRate != 0.0 && c.release * c.sampleRate != 0.0
  }

  /** The parameter values that make the envelope well behaved. */
  predicate Sensible(c: Settings) {
    c.attack > 0.0 && c.decay > 0.0 && c.release > 0.0 && c.sampleRate > 0.0 && 0.0 <= c.sustain <= 1.0
  }

  /** Per-sample level changes of the three moving states. */
  function AttackIncrement(c: Settings): real requires Divisible(c) { 1.0 / (c.attack * c.sampleRate) }
  function DecayDecrement(c: Settings): real requires Divisible(c) { (1.0 - c.sustain) / (c.decay * c.sampleRate) }
  function ReleaseDecrement(c: Settings): real requires Divisible(c) { c.sustain / (c.release * c.sampleRate) }

  /** One iteration of the `for sample in buffer` loop of `process`: the new
      state and level. */
  function Step(state: EnvelopeState, level: real, c: Settings): (r: (EnvelopeState, real))
    requires Divisible(c)
    ensures r.0 == state || (state == Attack && r.0 == Decay) || (state == Decay && r.0 == Sustain)
         || (state == Release && r.0 == Idle)
  {
    match state
    case Idle => (Idle, level)
    case Attack =>
      var l := level + AttackIncrement(c);
      if l >= 1.0 then (Decay, 1.0) else (Attack, l)
    case Decay =>
      var l := level - DecayDecrement(c);
      if l <= c.sustain then (Sustain, c.sustain) else (Decay, l)
    case Sustain => (Sustain, level)
    case Release =>
      var l := level - ReleaseDecrement(c);
      if l <= 0.0 then (Idle, 0.0) else (Release, l)
  }

  /** The state and level after `k` samples. */
  function Trace(state: EnvelopeState, level: real, c: Settings, k: nat): (r: (EnvelopeState, real))
    requires Divisible(c)
    ensures state == Release ==> r.0 == Release || r.0 == Idle
    ensures state != Release && state != Idle ==> r.0 != Release && r.0 != Idle
    decreases k
  {
    if k == 0 then (state, level)
    else var p := Trace(state, level, c, k - 1); Step(p.0, p.1, c)
  }

  /** With sensible parameters one sample keeps the level in [0, 1]. */
  lemma StepKeepsLevelInUnitRange(state: EnvelopeState, level: real, c: Settings)
    requires Sensible(c) && 0.0 <= level <= 1.0
    ensures 0.0 <= Step(state, level, c).1 <= 1.0
  {
    assert Divisible(c);
    match state {
      case Attack => assert AttackIncrement(c) > 0.0;
      case Decay =>
        assert 1.0 - c.sustain >= 0.0 && c.decay * c.sampleRate > 0.0;
        assert DecayDecrement(c) >= 0.0;
      case Release =>
        assert c.release * c.sampleRate > 0.0;
        assert ReleaseDecrement(c) >= 0.0;
      case _ =>
    }
  }

  /** With sensible parameters the level never leaves [0, 1]. */
  lemma {:induction false} LevelStaysInUnitRange(state: EnvelopeState, level: real, c: Settings, k: nat)
    requires Sensible(c) && 0.0 <= level <= 1.0
    ensures 0.0 <= Trace(state, level, c, k).1 <= 1.0
  {
    if k > 0 {
      LevelStaysInUnitRange(state, level, c, k - 1);
      var p := Trace(state, level, c, k - 1);
      StepKeepsLevelInUnitRange(p.0, p.1, c);
    }
  }

  /** Idle and Sustain are resting states: no sample changes state or level. */
  lemma {:induction false} RestingStatesHold(state: EnvelopeState, level: real, c: Settings, k: nat)
    requires Divisible(c) && (state == Idle || state == Sustain)
    ensures Trace(state, level, c, k) == (state, level)
  {
    if k > 0 {
      RestingStatesHold(state, level, c, k - 1);
    }
  }

  /** Attack climbs by `1/(attack*sr)` per sample while it stays below 1. */
  lemma {:induction false} AttackClimbs(level: real, c: Settings, k: nat)
    requires Divisible(c) && level + Times(k, AttackIncrement(c)) < 1.0
    requires AttackIncrement(c) > 0.0
    ensures Trace(Attack, level, c, k) == (Attack, level + Times(k, AttackIncrement(c)))
  {
    if k > 0 {
      AttackClimbs(level, c, k - 1);
    }
  }

  /** The first sample at which Attack reaches 1 clamps the level to exactly
      1 and enters Decay. */
  lemma AttackPeaks(level: real, c: Settings, k: nat)
    requires Divisible(c) && AttackIncrement(c) > 0.0 && k > 0
    requires level + Times(k - 1, AttackIncrement(c)) < 1.0 <= level + Times(k, AttackIncrement(c))
    ensures Trace(Attack, level, c, k) == (Decay, 1.0)
  {
    AttackClimbs(level, c, k - 1);
  }

  /** Decay falls by `(1-sustain)/(decay*sr)` per sample while above the
      sustain level. */
  lemma {:induction false} DecayFalls(level: real, c: Settings, k: nat)
    requires Divisible(c) && level - Times(k, DecayDecrement(c)) > c.sustain
    requires DecayDecrement(c) > 0.0
    ensures Trace(Decay, level, c, k) == (Decay, level - Times(k, DecayDecrement(c)))
  {
    if k > 0 {
      var d := DecayDecrement(c);
      assert level - Times(k - 1, d) > c.sustain;
      DecayFalls(level, c, k - 1);
    }
  }

  /** The first sample at which Decay falls to the sustain level clamps the
      level to exactly the sustain level and enters Sustain. */
  lemma DecaySettles(level: real, c: Settings, k: nat)
    requires Divisible(c) && DecayDecrement(c) > 0.0 && k > 0
    requires level - Times(k - 1, DecayDecrement(c)) > c.sustain >= level - Times(k, DecayDecrement(c))
    ensures Trace(Decay, level, c, k) == (Sustain, c.sustain)
  {
    DecayFalls(level, c, k - 1);
  }

  /** Release falls by `sustain/(release*sr)` per sample while above 0. */
  lemma {:induction false} ReleaseFalls(level: real, c: Settings, k: nat)
    requires Divisible(c) && level - Times(k, ReleaseDecrement(c)) > 0.0
    requires ReleaseDecrement(c) > 0.0
    ensures Trace(Release, level, c, k) == (Release, level - Times(k, ReleaseDecrement(c)))
  {
    if k > 0 {
      ReleaseFalls(level, c, k - 1);
    }
  }

  /** The first sample at which Release falls to 0 clamps the level to
      exactly 0 and returns to Idle. */
  lemma ReleaseEnds(level: real, c: Settings, k: nat)
    requires Divisible(c) && ReleaseDecrement(c) > 0.0 && k > 0
    requires level - Times(k - 1, ReleaseDecrement(c)) > 0.0 >= level - Times(k, ReleaseDecrement(c))
    ensures Trace(Release, level, c, k) == (Idle, 0.0)
  {
    ReleaseFalls(level, c, k - 1);
  }

  /** A buffer sample multiplied by the envelope level. */
  function Scaled(x: real, g: real): real { x * g }

  class Envelope {
    /** Plain values of the four parameters (times in milliseconds). */
    var attackTime: real
    var decayTime: real
    var sustainLevel: real
    var releaseTime: real
    var state: EnvelopeState
    var level: real
    var time: real

    /** The settings `process` derives from the parameters at entry. */
    function Current(sampleRate: real): (c: Settings)
      reads this`attackTime, this`decayTime, this`sustainLevel, this`releaseTime
      ensures c.sustain == sustainLevel && c.sampleRate == sampleRate
      ensures c.attack * 1000.0 == attackTime && c.decay * 1000.0 == decayTime && c.release * 1000.0 == releaseTime
    {
      Settings(attackTime * 0.001, decayTime * 0.001, sustainLevel, releaseTime * 0.001, sampleRate)
    }

    /** `Envelope::new()`: the parameter defaults, Idle, level 0. */
    constructor ()
      ensures attackTime == 10.0 && decayTime == 10.0 && sustainLevel == 0.5 && releaseTime == 10.0
      ensures state == Idle && level == 0.0 && time == 0.0
    {
      attackTime, decayTime, sustainLevel, releaseTime := 10.0, 10.0, 0.5, 10.0;
      state, level, time := Idle, 0.0, 0.0;
    }

    /** The `match self.state` block of `process`: one sample's transition. */
    method Tick(c: Settings)
      requires Divisible(c)
      modifies this`state, this`level
      ensures (state, level) == Step(old(state), old(level), c)
    {
      match state {
        case Idle =>
        case Attack =>
          level := level + AttackIncrement(c);
          if level >= 1.0 {
            state := Decay;
            level := 1.0;
          }
        case Decay =>
          level := level - DecayDecrement(c);
          if level <= c.sustain {
            state := Sustain;
            level := c.sustain;
          }
        case Sustain =>
        case Release =>
          level := level - ReleaseDecrement(c);
          if level <= 0.0 {
            state := Idle;
            level := 0.0;
          }
      }
    }

    /** `process(buffer, sample_rate)`: sample `i` is multiplied by the level
        after `i + 1` steps, and the envelope ends in the state and level
        after one step per sample. */
    method Process(buffer: array<real>, sampleRate: real)
      requires Divisible(Current(sampleRate))
      modifies this`state, this`level, buffer
      ensures forall i :: 0 <= i < buffer.Length ==>
        buffer[i] == Scaled(old(buffer[i]), Trace(old(state), old(level), Current(sampleRate), i + 1).1)
      ensures (state, level) == Trace(old(state), old(level), Current(sampleRate), buffer.Length)
    {
      var c := Current(sampleRate);
      for i := 0 to buffer.Length
        invariant (state, level) == Trace(old(state), old(level), c, i)
        invariant forall j :: 0 <= j < i ==> buffer[j] == Scaled(old(buffer[j]), Trace(old(state), old(level), c, j + 1).1)
        invariant forall j :: i <= j < buffer.Length ==> buffer[j] == old(buffer[j])
      {
        ghost var before := (state, level);
        Tick(c);
        assert (state, level) == Step(before.0, before.1, c) == Trace(old(state), old(level), c, i + 1);
        ghost var x := buffer[i];
        assert x == old(buffer[i]);
        buffer[i] := buffer[i] * level;
        assert buffer[i] == Scaled(x, Trace(old(state), old(level), c, i + 1).1);
      }
    }
  }
}
