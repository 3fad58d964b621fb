/** The host's note events as lib.rs sees them (nih_plug's `NoteEvent`,
    reduced to the variants lib.rs matches on). */
module NoteEvents {
  import opened Basics

  /** The one polyphonic modulation id lib.rs declares (`GAIN_POLY_MOD_ID`). */
  const GAIN_POLY_MOD_ID: u32 := 0

  /** `timing` is the event's sample offset in the current host block.
      `VoiceTerminated` is the only variant the synth sends; `Other` stands
      for every variant lib.rs ignores. */
  datatype NoteEvent =
    | NoteOn(timing: u32, voiceId: Option<i32>, channel: u8, note: u8, velocity: real)
    | NoteOff(timing: u32, voiceId: Option<i32>, channel: u8, note: u8, velocity: real)
    | Choke(timing: u32, voiceId: Option<i32>, channel: u8, note: u8)
    | PolyModulation(timing: u32, targetVoiceId: i32, polyModulationId: u32, normalizedOffset: real)
    | MonoAutomation(timing: u32, polyModulationId: u32, normalizedValue: real)
    | VoiceTerminated(timing: u32, voiceId: Option<i32>, channel: u8, note: u8)
    | Other(timing: u32)
}

/** The interface lib.rs uses of nih_plug's `Smoother<f32>`, whose
    implementation is not part of this model.  `S` is the smoother's state;
    each operation is a function the host library supplies. */
module SmootherInterface {

  datatype SmootherOps<!S> = SmootherOps(
    /** `Smoother::new(SmoothingStyle::Exponential(ms))` */
    exponential: real -> S,
    /** `Smoother::none()` */
    none: S,
    /** `reset(value)` */
    reset: (S, real) -> S,
    /** `set_target(sample_rate, target)` */
    setTarget: (S, real, real) -> S,
    /** assignment of `style = SmoothingStyle::Exponential(ms)` */
    restyleExponential: (S, real) -> S,
    /** the state after `next_block(block, n)` */
    advance: (S, nat) -> S,
    /** the value `next_block(block, n)` writes at index `k < n` */
    valueAt: (S, nat) -> real,
    /** `previous_value()` */
    previousValue: S -> real)
}
