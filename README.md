# Poly-mod synth core in Dafny

This project models the audio core of the `poly_mod_synth` plugin and two
example components next to it:

- **The polyphonic synthesizer** (`PolyModSynth`, in `plugins/poly_mod_synth/src/lib.rs`).
  It has a pool of 16 voice slots and a 64-bit internal voice counter.
  It draws random start phases from a seeded generator, and it has a global
  gain smoother.
  - `process` splits the host buffer into sub-blocks of at most 64 samples.
    A sub-block is cut short at the next pending note event, so events land
    on the exact sample.
  - At the start of each sub-block, `process` handles every event that is due:
    note on, note off, choke, polyphonic modulation and monophonic automation.
  - It then zeroes the sub-block and adds every live voice's triangle wave,
    scaled by velocity, gain and envelope.
  - Last, it prunes the voices whose release has reached zero and tells the
    host which voices ended.
- **The ramp smoother of the sine-synth example** (`plugins/examples/sinesynth/src/envelop.rs`).
  It has four smoothing styles.
- **The ADSR envelope of the poly-mod-synth example** (`plugins/examples/poly_mod_synth/src/envelope.rs`).

Modules, one concept each:

| file | module | what |
|---|---|---|
| basics.dfy | Basics | Rust integer widths, `wrapping_add`, `as u32`, the saturating `f32 as i32` cast, `fetch_sub` wrap-around, `Option` |
| note_events.dfy | NoteEvents, SmootherInterface | the host's note events; the operations of the host library's smoother that the synth uses |
| oscillator.dfy | Oscillator | `triangle_wave` and the per-sample phase advance |
| voice_pool.dfy | VoicePool | the voice slots as a sequence, and every pool operation as a function with its properties |
| scheduler.dfy | Scheduler | how `process` cuts the buffer into sub-blocks and hands events to them |
| synth_spec.dfy | SynthSpec | `process` as a function of the synth state: per event, per sub-block, per call |
| synth.dfy | SynthPlugin | the plugin as a class; the voice array is updated in place, and every method is proved equal to its SynthSpec / VoicePool function |
| ramp_smoother.dfy | RampSmoother | the envelop.rs `Smoother` as a class; its ramps as functions |
| adsr_envelope.dfy | AdsrEnvelope | the ADSR state machine as a function, and the `Envelope` class whose `process` is proved against it |

Design choices:

- Floating-point values are modelled as reals.
- Anything the code takes from outside is a parameter. This covers the host
  library's smoother, the random generator's value stream, `midi_note_to_freq`,
  `sqrt` and the gain parameter's previews (`SmootherOps`, `Host`).
- The two output channels are two arrays. Each receives the same samples.
- The model follows the code as written where it surprises:
  - envelop.rs `set_target` never stores the new target.
  - envelop.rs `reset` leaves the value alone.
  - envelop.rs `next_block` decides whether to ramp from the step count on
    entry, so within one block it keeps stepping past the end of the ramp.
  - `choke_voices` reports the event's channel and note, not the voice's own.

## Model

| member | source | states |
|---|---|---|
| Basics.WrappingAddU64 | plugins/poly_mod_synth/src/lib.rs:346 | `wrapping_add` on u64: the plain sum below 2^64, the sum minus 2^64 at or above it |
| Basics.WrappingIncrementCounts | plugins/poly_mod_synth/src/lib.rs:346 | repeated `wrapping_add(1)` counts modulo 2^64 |
| Basics.UsizeAsU32 | plugins/poly_mod_synth/src/lib.rs:299 | `block_end as u32` keeps values below 2^32 and is congruent modulo 2^32 otherwise |
| Basics.WrapI32 | plugins/examples/sinesynth/src/envelop.rs:65 | the two's-complement wrap `fetch_sub` performs: identity in range, congruent modulo 2^32 |
| Basics.WrapI32Decrement | plugins/examples/sinesynth/src/envelop.rs:65 | repeated wrapped decrements are one wrap of the total decrement |
| Basics.TruncToward0 | plugins/examples/sinesynth/src/envelop.rs:42 | truncation toward zero: the result is within 1 of x, on the side of zero |
| Basics.SaturatingToI32 | plugins/examples/sinesynth/src/envelop.rs:42 | the `f32 as i32` cast: truncates, and clamps to the i32 bounds outside the range |
| Basics.TimesIsProduct | plugins/examples/sinesynth/src/envelop.rs:106-108 | `k` repeated additions of `d` equal `k * d` |
| Oscillator.TriangleWave | plugins/poly_mod_synth/src/lib.rs:475-481 | the wave lies in [-1, 1] on a phase in [0, 1], with -1 at phase 0 and 1 at phase 0.5 |
| Oscillator.WrapPhase | plugins/poly_mod_synth/src/lib.rs:286-289 | one phase step keeps a phase in [0, 1) and is the plain sum or the sum minus one turn |
| Oscillator.PhaseAfter | plugins/poly_mod_synth/src/lib.rs:284-289 | the phase after k samples; with no increment a wrapped phase holds. PhaseStaysWrapped and PhaseAdvancesByDelta state its range and its advance |
| Oscillator.PhaseStaysWrapped | plugins/poly_mod_synth/src/lib.rs:284-289 | over any number of samples the phase stays in [0, 1) and the wave in [-1, 1] |
| Oscillator.PhaseAdvancesByDelta | plugins/poly_mod_synth/src/lib.rs:286-289 | after k samples the phase is the start plus k increments minus a whole number of turns |
| VoicePool.Position | plugins/poly_mod_synth/src/lib.rs:348 | `position`: the first index satisfying the predicate, or none when no element does |
| VoicePool.GetVoiceIdx | plugins/poly_mod_synth/src/lib.rs:318-322 | the first live slot carrying the voice id; none exactly when no live slot carries it |
| VoicePool.Oldest | plugins/poly_mod_synth/src/lib.rs:354-359 | in a full pool, a slot with the smallest internal id, the first one on ties |
| VoicePool.FallbackVoiceId | plugins/poly_mod_synth/src/lib.rs:444-446 | `note \| channel << 16` holds the note in the low 16 bits and the channel above them |
| VoicePool.FallbackVoiceIdInjective | plugins/poly_mod_synth/src/lib.rs:444-446 | two fallback ids are equal exactly when the notes and the channels are equal |
| VoicePool.NewVoice | plugins/poly_mod_synth/src/lib.rs:332-345 | the voice `start_voice` builds: the given voice id or the fallback id, the event's channel and note, the current internal id, not releasing, no gain override |
| VoicePool.TerminatedEvent | plugins/poly_mod_synth/src/lib.rs:362-367 | the steal notice: a termination at the offset carrying the stolen voice's id, channel and note |
| VoicePool.StartSlot | plugins/poly_mod_synth/src/lib.rs:348-372 | the lowest free slot when there is one, otherwise the slot with the smallest internal id |
| VoicePool.StealEvents | plugins/poly_mod_synth/src/lib.rs:353-368 | nothing is sent when a slot is free; otherwise exactly the stolen voice's termination, timed at the note's offset |
| VoicePool.StartVoiceLiveCount | plugins/poly_mod_synth/src/lib.rs:348-372 | starting a voice adds one voice when a slot is free, keeps the pool full when it steals, and never exceeds the pool size |
| VoicePool.FirstMatch | plugins/poly_mod_synth/src/lib.rs:383-393 | the first slot matching the voice id or (channel, note); none exactly when no slot matches |
| VoicePool.Released | plugins/poly_mod_synth/src/lib.rs:395-398 | a matched voice is put into release with its envelope restyled to the release time and aimed at 0; nothing else changes |
| VoicePool.ReleasedSlot | plugins/poly_mod_synth/src/lib.rs:383-398 | without a voice id a matching voice is released, any other slot is left alone, and no slot is filled or cleared |
| VoicePool.ReleaseSlots | plugins/poly_mod_synth/src/lib.rs:376-406 | releasing fills and clears no slot; each slot is unchanged or is a matching voice put into release |
| VoicePool.ReleaseReachesMatches | plugins/poly_mod_synth/src/lib.rs:383-405 | without a voice id every (channel, note) voice releases towards 0; with one, exactly the first match is put into release and every other slot is unchanged; with no match nothing changes; the voice count is kept |
| VoicePool.ChokeAll | plugins/poly_mod_synth/src/lib.rs:416-440 | the choke without a voice id starts no voice and sends at most one notice per slot, each timed at the offset with the event's channel and note |
| VoicePool.ChokeSlots | plugins/poly_mod_synth/src/lib.rs:408-441 | choking starts no voice; every notice is a termination at the event's offset carrying the event's channel and note; with a voice id it sends at most one |
| VoicePool.ChokeWithoutIdClearsAllMatches | plugins/poly_mod_synth/src/lib.rs:416-440 | without a voice id exactly the (channel, note) matches are cleared, none is left, and one notice is sent per matching index |
| VoicePool.ChokeWithIdClearsFirstMatch | plugins/poly_mod_synth/src/lib.rs:423-436 | with a voice id exactly the first match is cleared and exactly one notice is sent, carrying that voice's id; with no match nothing changes and nothing is sent; the voice count drops by the notices sent |
| VoicePool.ChokeNotice | plugins/poly_mod_synth/src/lib.rs:426-431 | the choke notice: a termination at the offset carrying the voice's own id with the event's channel and note |
| VoicePool.MatchIndices | plugins/poly_mod_synth/src/lib.rs:416-440 | the indices the choke loop visits with a match: every one in range and matching, strictly increasing, and no matching index missing |
| VoicePool.ChokeWithoutIdReportsClearedVoices | plugins/poly_mod_synth/src/lib.rs:416-440 | without a voice id the k-th notice names the k-th matching slot's voice, in index order, timed at the offset with the event's channel and note |
| VoicePool.PruneSlots | plugins/poly_mod_synth/src/lib.rs:295-308 | pruning starts no voice, and every notice is a termination timed at the sub-block end |
| VoicePool.Prunable | plugins/poly_mod_synth/src/lib.rs:297 | the pruning guard; only a voice in release can be pruned. PruneClearsExactlyPrunable states what the loop does with it |
| VoicePool.PruneClearsExactlyPrunable | plugins/poly_mod_synth/src/lib.rs:295-308 | exactly the releasing voices whose envelope's last value is 0 are cleared; none is left; one notice per cleared voice, each naming a pruned voice |
| VoicePool.PruneNotifies | plugins/poly_mod_synth/src/lib.rs:297-304 | every pruned voice's termination is among the notices |
| VoicePool.PolyModulated | plugins/poly_mod_synth/src/lib.rs:191-218 | the gain id gives the voice a gain override, created with the event's offset if it had none; it is reset when the voice started in this sub-block and retargeted otherwise; other ids change nothing |
| VoicePool.MonoAutomated | plugins/poly_mod_synth/src/lib.rs:226-241 | the gain id retargets a voice that has a gain override to `preview_plain` of the value plus its stored offset, keeping the offset and everything else; a voice without one, or another id, is unchanged |
| VoicePool.PolyModulateSlots | plugins/poly_mod_synth/src/lib.rs:182-220 | only the voice `get_voice_idx` finds can change; no slot is filled or cleared |
| VoicePool.PolyModulateReachesFoundVoice | plugins/poly_mod_synth/src/lib.rs:188-218 | the gain id turns exactly the slot `get_voice_idx` finds into PolyModulated of its voice, leaving all others; with no voice found, or another id, nothing changes |
| VoicePool.MonoAutomateSlots | plugins/poly_mod_synth/src/lib.rs:221-247 | automation fills, clears and moves no voice, and every live voice becomes MonoAutomated of itself |
| VoicePool.RenderSlots | plugins/poly_mod_synth/src/lib.rs:270-294 | the voice loop renders every slot and leaves a mix of block length; no voice is started |
| VoicePool.GainAt | plugins/poly_mod_synth/src/lib.rs:271-277 | a voice reads its own gain override's value when it has one, otherwise the global gain's |
| VoicePool.Amplitude | plugins/poly_mod_synth/src/lib.rs:283 | velocity times gain times envelope; a silent envelope gives amplitude 0 |
| VoicePool.VoiceSample | plugins/poly_mod_synth/src/lib.rs:283-284 | the wave times the amplitude; a silent envelope contributes 0. VoiceSampleBounded bounds it |
| VoicePool.Rendered | plugins/poly_mod_synth/src/lib.rs:270-293 | after a sub-block only the phase, the envelope and the gain override's smoother move; the override's offset and every other field are kept |
| VoicePool.MixIn | plugins/poly_mod_synth/src/lib.rs:282-293 | a live voice raises each sample of the mix by its own sample; an empty slot leaves the mix alone |
| VoicePool.RaisedStep | plugins/poly_mod_synth/src/lib.rs:283-292 | adding the next sample of a voice at the next index extends the mixed range by one and changes nothing else |
| VoicePool.RenderSlotsSnoc | plugins/poly_mod_synth/src/lib.rs:270-294 | unfolding step of the voice loop, used by the class's loop invariant: one slot further mixes that slot in |
| VoicePool.VoiceSampleBounded | plugins/poly_mod_synth/src/lib.rs:283-284 | a voice whose amplitude is within [-a, a] contributes samples within [-a, a] |
| VoicePool.MixBounded | plugins/poly_mod_synth/src/lib.rs:270-294 | each mixed sample is bounded by the number of live voices times the per-voice amplitude bound |
| VoicePool.MixStepBounded | plugins/poly_mod_synth/src/lib.rs:291-292 | one more slot raises the mix bound by at most one voice's amplitude |
| VoicePool.LiveCountUpdate | plugins/poly_mod_synth/src/lib.rs:350 | overwriting one slot changes the voice count by that slot alone |
| Scheduler.Due | plugins/poly_mod_synth/src/lib.rs:140-252 | the events handled at a sub-block start are exactly the stretch of pending events timed at or before it |
| Scheduler.NaturalEnd | plugins/poly_mod_synth/src/lib.rs:137 | the natural end is at most 64 samples on and never past the buffer, and is one of the two |
| Scheduler.BlockEnd | plugins/poly_mod_synth/src/lib.rs:253-255 | the sub-block ends at its natural end or earlier at the timing of the first pending event, never after either |
| Scheduler.Schedule | plugins/poly_mod_synth/src/lib.rs:136-138 | the schedule is empty exactly when the start is at the end; its blocks are non-empty and consume events in order |
| Scheduler.ScheduleTiles | plugins/poly_mod_synth/src/lib.rs:136-311 | the sub-blocks tile the buffer from start to end without gaps, each 1 to 64 samples, and hand on the pending events in order |
| Scheduler.ScheduleHandlesDueEvents | plugins/poly_mod_synth/src/lib.rs:140-259 | every handled event was due at its block's start; the event left pending comes after the start and no earlier than the end |
| Scheduler.LeftoverIsPastTheEnd | plugins/poly_mod_synth/src/lib.rs:138-311 | the first event left pending after the buffer is timed at or past its end, in any event order |
| Scheduler.ScheduleBlockIsDue | plugins/poly_mod_synth/src/lib.rs:138-310 | each scheduled block's pending index and end are the ones the loop computes |
| Scheduler.ConsumedExactlyBeforeTheEnd | plugins/poly_mod_synth/src/lib.rs:138-311 | with events in timing order, an event is handled exactly when it is timed before the end of the buffer |
| Scheduler.ConsumedBeforeTheEnd | plugins/poly_mod_synth/src/lib.rs:142 | a handled event is timed before the end of the buffer, in any order |
| Scheduler.PendingFromTheEnd | plugins/poly_mod_synth/src/lib.rs:253-257 | with events in timing order, an event left pending is timed at or past the end |
| Scheduler.SortedEventsLandOnBlockStarts | plugins/poly_mod_synth/src/lib.rs:142-255 | with events in timing order, every event is handled at the start of a sub-block at exactly its timing |
| SynthSpec.Initial | plugins/poly_mod_synth/src/lib.rs:40-50 | the default synth has 16 empty slots, the internal id counter and the generator at their start, and the given gain smoother |
| SynthSpec.Reset | plugins/poly_mod_synth/src/lib.rs:118-123 | after `reset` no voice is live, the counter and the generator are back at 0, and the gain is untouched |
| SynthSpec.StartedVoice | plugins/poly_mod_synth/src/lib.rs:151-163 | the voice a `NoteOn` starts: the message's ids, channel and note, the current internal id, not releasing, no override, the square-rooted velocity, the next random draw as phase, and the note's frequency over the sample rate as increment |
| SynthSpec.ApplyEvent | plugins/poly_mod_synth/src/lib.rs:143-251 | one event keeps the pool size and the gain; only a `NoteOn` draws a random value, advances the counter (wrapping) and sends at most one notice |
| SynthSpec.ApplyEventRetains | plugins/poly_mod_synth/src/lib.rs:165-248 | an event other than a `NoteOn` starts and moves no voice |
| SynthSpec.ApplyEventSendsTerminations | plugins/poly_mod_synth/src/lib.rs:143-251 | handling an event sends only voice terminations |
| SynthSpec.ApplyEvents | plugins/poly_mod_synth/src/lib.rs:140-259 | the events of a sub-block take one random value and one internal id per `NoteOn`, counting modulo 2^64 |
| SynthSpec.ApplyEventsSendsTerminations | plugins/poly_mod_synth/src/lib.rs:140-259 | the event loop sends only voice terminations |
| SynthSpec.RenderBlock | plugins/poly_mod_synth/src/lib.rs:260-294 | rendering produces one sample per sample of the sub-block and leaves the counter and the generator alone |
| SynthSpec.BlockStep | plugins/poly_mod_synth/src/lib.rs:139-310 | one sub-block keeps the pool size and produces exactly its length in samples |
| SynthSpec.RunBlocks | plugins/poly_mod_synth/src/lib.rs:138-311 | the sub-blocks one after another keep the pool size. RunScheduleLength, RunBlocksSendsTerminations and RunFromKeepsFreshIds state the rest |
| SynthSpec.RunFrom | plugins/poly_mod_synth/src/lib.rs:138-311 | the sub-block loop from a block start keeps the pool size. RunFromStep unfolds it |
| SynthSpec.Process | plugins/poly_mod_synth/src/lib.rs:125-314 | `process` keeps the pool size. ProcessRendersEverySample, ProcessSendsOnlyTerminations and ProcessKeepsFreshIds state the rest |
| SynthSpec.RunFromStep | plugins/poly_mod_synth/src/lib.rs:138-311 | unfolding step of the sub-block loop, used by the class's loop invariant: from a block start, that block followed by the loop from its end |
| SynthSpec.BlockStepSendsTerminations | plugins/poly_mod_synth/src/lib.rs:139-310 | a sub-block sends only voice terminations |
| SynthSpec.RunBlocksSendsTerminations | plugins/poly_mod_synth/src/lib.rs:138-311 | a sequence of sub-blocks sends only voice terminations |
| SynthSpec.ProcessSendsOnlyTerminations | plugins/poly_mod_synth/src/lib.rs:125-314 | `process` sends the host only voice terminations |
| SynthSpec.ProcessRendersEverySample | plugins/poly_mod_synth/src/lib.rs:131-311 | `process` produces exactly one sample per sample of the buffer |
| SynthSpec.RunScheduleLength | plugins/poly_mod_synth/src/lib.rs:138-311 | the loop from a block start produces exactly the samples up to the end |
| SynthSpec.RetainsKeepsFreshIds | plugins/poly_mod_synth/src/lib.rs:295-308 | an operation that starts no voice keeps the live internal ids distinct and below the counter |
| SynthSpec.ApplyEventKeepsFreshIds | plugins/poly_mod_synth/src/lib.rs:139-251 | without wrap-around, every event keeps the live internal ids distinct and below the counter |
| SynthSpec.ApplyEventsKeepsFreshIds | plugins/poly_mod_synth/src/lib.rs:140-259 | without wrap-around, the event loop of a sub-block keeps the internal ids fresh |
| SynthSpec.LastEventKeepsFreshIds | plugins/poly_mod_synth/src/lib.rs:251 | the last event of the loop keeps the ids fresh given the events before it did |
| SynthSpec.ApplyEventsCountsExactly | plugins/poly_mod_synth/src/lib.rs:346 | without wrap-around, the counter after the loop is the start plus the number of `NoteOn`s |
| SynthSpec.BlockStepKeepsFreshIds | plugins/poly_mod_synth/src/lib.rs:139-310 | without wrap-around, one sub-block keeps the internal ids fresh |
| SynthSpec.BlockStepCounts | plugins/poly_mod_synth/src/lib.rs:346 | without wrap-around, one sub-block advances the counter by at most its number of events |
| SynthSpec.BlockStepParts | plugins/poly_mod_synth/src/lib.rs:139-310 | a sub-block is its events handled, then rendered, then pruned, in that order |
| SynthSpec.RunFromKeepsFreshIds | plugins/poly_mod_synth/src/lib.rs:138-311 | without wrap-around, the sub-block loop from any block start keeps the internal ids fresh |
| SynthSpec.ProcessKeepsFreshIds | plugins/poly_mod_synth/src/lib.rs:125-314 | a `process` call never reuses a live internal id while the counter has room for all its events |
| SynthSpec.ResetHasFreshIds | plugins/poly_mod_synth/src/lib.rs:118-123 | after `reset` the internal ids are fresh |
| SynthSpec.FinishedVoicesArePruned | plugins/poly_mod_synth/src/lib.rs:295-308 | a voice whose release has reached 0 is gone after its sub-block, and its termination was sent |
| SynthSpec.EmptyHasNoVoices | plugins/poly_mod_synth/src/lib.rs:121 | emptied slots hold no voice |
| SynthPlugin.PolyModSynth.constructor | plugins/poly_mod_synth/src/lib.rs:40-50 | the new plugin is in the default state |
| SynthPlugin.PolyModSynth.Reset | plugins/poly_mod_synth/src/lib.rs:118-123 | the new state is the `reset` state |
| SynthPlugin.PolyModSynth.GetVoiceIdx | plugins/poly_mod_synth/src/lib.rs:318-322 | the scan returns the first live slot with the id, as VoicePool.GetVoiceIdx |
| SynthPlugin.PolyModSynth.StartVoice | plugins/poly_mod_synth/src/lib.rs:324-374 | the new voice goes to the slot StartSlot picks; the counter advances with wrap-around; the steal notice is sent |
| SynthPlugin.PolyModSynth.StartReleaseForVoices | plugins/poly_mod_synth/src/lib.rs:376-406 | the array becomes ReleaseSlots of its old contents |
| SynthPlugin.PolyModSynth.ChokeVoices | plugins/poly_mod_synth/src/lib.rs:408-441 | the array and the notices are ChokeSlots of the old contents |
| SynthPlugin.PolyModSynth.PruneVoices | plugins/poly_mod_synth/src/lib.rs:295-308 | the array and the notices are PruneSlots of the old contents |
| SynthPlugin.PolyModSynth.PolyModulate | plugins/poly_mod_synth/src/lib.rs:182-220 | the array becomes PolyModulateSlots of its old contents |
| SynthPlugin.PolyModSynth.MonoAutomate | plugins/poly_mod_synth/src/lib.rs:221-247 | the array becomes MonoAutomateSlots of its old contents |
| SynthPlugin.PolyModSynth.NoteOn | plugins/poly_mod_synth/src/lib.rs:144-164 | the started voice lands in StartSlot with its velocity, random phase, increment and attack envelope; the counter and the generator advance by one |
| SynthPlugin.PolyModSynth.SampleAt | plugins/poly_mod_synth/src/lib.rs:283-284 | the sample a voice contributes at an index is the triangle wave of its phase scaled by its amplitude |
| SynthPlugin.PolyModSynth.AddSample | plugins/poly_mod_synth/src/lib.rs:291-292 | the sample is added at that index of both channels and every other index is untouched |
| SynthPlugin.PolyModSynth.HandleEvent | plugins/poly_mod_synth/src/lib.rs:141-251 | the new state and the notices are ApplyEvent of the old state |
| SynthPlugin.PolyModSynth.MixVoice | plugins/poly_mod_synth/src/lib.rs:282-293 | each sample of the sub-block on both channels gets the voice's sample added; nothing else changes; the voice comes back rendered |
| SynthPlugin.PolyModSynth.MixSlot | plugins/poly_mod_synth/src/lib.rs:270-294 | one turn of the voice loop mixes that slot in and renders it |
| SynthPlugin.PolyModSynth.MixTurn | plugins/poly_mod_synth/src/lib.rs:270-294 | one turn of the voice loop keeps its invariant: the slots so far rendered and mixed in, the rest and everything outside the sub-block untouched |
| SynthPlugin.PolyModSynth.ZeroBlock | plugins/poly_mod_synth/src/lib.rs:260-261 | the sub-block is zero on both channels and the rest is untouched |
| SynthPlugin.PolyModSynth.MixVoices | plugins/poly_mod_synth/src/lib.rs:270-294 | over a zeroed sub-block, voices and channels become RenderSlots of the old voices |
| SynthPlugin.PolyModSynth.RenderBlock | plugins/poly_mod_synth/src/lib.rs:260-294 | state and sub-block samples become SynthSpec.RenderBlock of the old state; other samples are untouched |
| SynthPlugin.PolyModSynth.HandleDueEvents | plugins/poly_mod_synth/src/lib.rs:139-259 | the due events are handled in order as ApplyEvents with the block's first id; the end is cut at the next pending event |
| SynthPlugin.PolyModSynth.ProcessBlock | plugins/poly_mod_synth/src/lib.rs:139-310 | one loop turn computes BlockStep: new state, notices, and the channels extended by the block's samples |
| SynthPlugin.PolyModSynth.RenderAndPrune | plugins/poly_mod_synth/src/lib.rs:260-308 | render then prune, appending the block's samples after the ones already written |
| SynthPlugin.PolyModSynth.Process | plugins/poly_mod_synth/src/lib.rs:125-314 | both channels, the new state and the notices are exactly SynthSpec.Process of the old state |
| RampSmoother.Visited | plugins/examples/sinesynth/src/envelop.rs:53 | `take(num_samples)` visits the shorter of the buffer and the count |
| RampSmoother.Advance | plugins/examples/sinesynth/src/envelop.rs:57-95 | one advance of the running value; style None and a zero step hold the value, Linear moves by exactly one step |
| RampSmoother.Ramp | plugins/examples/sinesynth/src/envelop.rs:57-95 | the value after k advances; style None and a zero step hold it. LinearRamp and ExponentialRamp give its closed forms |
| RampSmoother.StepCount | plugins/examples/sinesynth/src/envelop.rs:42 | the step count `set_target` stores: 0 for a zero time constant, never negative for a non-negative rate and constant |
| RampSmoother.LinearRamp | plugins/examples/sinesynth/src/envelop.rs:61-67 | a linear ramp moves by exactly k steps after k samples |
| RampSmoother.ExponentialRamp | plugins/examples/sinesynth/src/envelop.rs:74-80 | an exponential ramp multiplies the value by (1 + step) per sample |
| RampSmoother.Smoother.None | plugins/examples/sinesynth/src/envelop.rs:14-22 | `none()` is a stopped smoother of style None at value and target 0 |
| RampSmoother.Smoother.constructor | plugins/examples/sinesynth/src/envelop.rs:24-32 | `new(style)` is a stopped smoother of that style at value and target 0 |
| RampSmoother.Smoother.Reset | plugins/examples/sinesynth/src/envelop.rs:34-38 | `reset` stores the target and stops the ramp; the value is left as it was |
| RampSmoother.Smoother.SetTarget | plugins/examples/sinesynth/src/envelop.rs:40-47 | with a different target, the cast step count and the step width to the new target are stored; nothing changes for the same target; the target itself is never stored |
| RampSmoother.Smoother.NextBlock | plugins/examples/sinesynth/src/envelop.rs:49-97 | style None writes the target. Otherwise sample i is the value after i advances when steps were left on entry, and the entry value when none were; `steps_left` wraps down by one per visited sample; unvisited samples are untouched |
| RampSmoother.Smoother.Fill | plugins/examples/sinesynth/src/envelop.rs:50-67 | every visited sample gets one value and the rest of the buffer is untouched: the target for style None, the entry value for a ramp with no steps left |
| RampSmoother.Smoother.RunRamp | plugins/examples/sinesynth/src/envelop.rs:57-96 | the loop of the other styles: with steps left on entry it ramps, otherwise every visited sample is the entry value and nothing changes |
| RampSmoother.Smoother.Advancing | plugins/examples/sinesynth/src/envelop.rs:57-96 | with steps left on entry, sample i is the value after i advances, the value ends after all of them, and `steps_left` has wrapped down once per sample |
| RampSmoother.Smoother.CountDown | plugins/examples/sinesynth/src/envelop.rs:65 | `fetch_sub(1)` takes a wrapped count one further down, wrapping |
| RampSmoother.Smoother.PreviewModulated | plugins/examples/sinesynth/src/envelop.rs:99-130 | the value after the remaining steps plus the fractional offset step, in closed form for Linear and Exponential; the smoother is not changed |
| AdsrEnvelope.StepKeepsLevelInUnitRange | plugins/examples/poly_mod_synth/src/envelope.rs:73-101 | with sensible parameters one sample keeps the level in [0, 1] |
| AdsrEnvelope.Step | plugins/examples/poly_mod_synth/src/envelope.rs:73-101 | one sample of the state machine; it only moves forward: Attack to Decay, Decay to Sustain, Release to Idle |
| AdsrEnvelope.Trace | plugins/examples/poly_mod_synth/src/envelope.rs:72-104 | k samples of the state machine; a released envelope stays in Release or Idle, and one not released never gets there |
| AdsrEnvelope.LevelStaysInUnitRange | plugins/examples/poly_mod_synth/src/envelope.rs:72-104 | with sensible parameters the level never leaves [0, 1] |
| AdsrEnvelope.RestingStatesHold | plugins/examples/poly_mod_synth/src/envelope.rs:74-76 | Idle and Sustain never change state or level |
| AdsrEnvelope.AttackClimbs | plugins/examples/poly_mod_synth/src/envelope.rs:77-83 | Attack rises by 1/(attack·rate) per sample while below 1 |
| AdsrEnvelope.AttackPeaks | plugins/examples/poly_mod_synth/src/envelope.rs:79-82 | the sample where Attack reaches 1 clamps the level to 1 and enters Decay |
| AdsrEnvelope.DecayFalls | plugins/examples/poly_mod_synth/src/envelope.rs:84-90 | Decay falls by (1 − sustain)/(decay·rate) per sample while above the sustain level |
| AdsrEnvelope.DecaySettles | plugins/examples/poly_mod_synth/src/envelope.rs:86-89 | the sample where Decay reaches the sustain level clamps to it and enters Sustain |
| AdsrEnvelope.ReleaseFalls | plugins/examples/poly_mod_synth/src/envelope.rs:94-100 | Release falls by sustain/(release·rate) per sample while above 0 |
| AdsrEnvelope.ReleaseEnds | plugins/examples/poly_mod_synth/src/envelope.rs:96-99 | the sample where Release reaches 0 clamps to 0 and returns to Idle |
| AdsrEnvelope.Envelope.Current | plugins/examples/poly_mod_synth/src/envelope.rs:67-70 | the times are the parameter values converted from milliseconds to seconds; the sustain level is taken as is |
| AdsrEnvelope.Envelope.constructor | plugins/examples/poly_mod_synth/src/envelope.rs:23-64 | the defaults are 10 ms, 10 ms, 0.5 and 10 ms, Idle at level 0 |
| AdsrEnvelope.Envelope.Tick | plugins/examples/poly_mod_synth/src/envelope.rs:73-101 | one sample's transition is Step |
| AdsrEnvelope.Envelope.Process | plugins/examples/poly_mod_synth/src/envelope.rs:66-105 | sample i is multiplied by the level after i + 1 steps; the envelope ends where one step per sample takes it |

## Left out

- Floating point: `f32` arithmetic is modelled as exact reals, so rounding, infinities and NaN are not modelled. The one cast that matters for control flow, `f32 as i32` in `set_target`, is modelled with truncation and saturation; NaN casting to 0 is not.
- AdsrEnvelope.Envelope.Process: requires nonzero divisors `attack·rate`, `decay·rate` and `release·rate`. The source would divide by zero and carry on with infinity or NaN, which reals cannot express.
- AdsrEnvelope.Envelope.Tick: same nonzero-divisor requirement as Process.
- RampSmoother.Smoother.SetTarget: requires a nonzero step count when the target differs. The source divides by `steps_left as f32` and would store an infinite or NaN step size.
- RampSmoother: `time_to_exponential_constant` is not defined in envelop.rs, and `f32::log` has no real counterpart here. Both are parameters (`timeConstant`, `log`).
- RampSmoother: `preview_modulated` with the Logarithmic style is stated only in terms of the ramp function, because the logarithm is a parameter and has no closed form.
- RampSmoother: the atomics (`AtomicT`, `AtomicI32`, `AtomicF32`) become plain fields. Sharing between threads is not modelled.
- RampSmoother: the sine-synth `FloatParam` wrapper is not modelled; it only holds a smoother.
- SynthPlugin and SynthSpec: nih_plug's `Smoother<f32>` implementation is not part of this model. The synth uses its operations through `SmootherOps`. The scratch buffers `next_block` fills become `valueAt`, and the state after the block becomes `advance`.
- SynthPlugin and SynthSpec: the `Pcg32` generator, seeded with `Pcg32::new(420, 1337)` by the default state and by `reset`, becomes the count of values drawn plus a fixed value stream `random` in `Host`.
- SynthPlugin and SynthSpec: `midi_note_to_freq`, `f32::sqrt`, and the gain parameter's `preview_modulated` / `preview_plain` are host functions passed in `Host`.
- SynthPlugin and SynthSpec: the transport's sample rate is a parameter and must be nonzero. The source would divide by zero in `note / sample_rate`.
- SynthPlugin and SynthSpec: the attack and release parameter values are constant during one `process` call.
- SynthPlugin and SynthSpec: host automation of the global gain parameter between sub-blocks is not modelled.
- SynthPlugin and SynthSpec: the context's event queue becomes a sequence of events, and `send_event` becomes the returned sequence of notices.
- SynthPlugin.PolyModSynth.Process: the buffer becomes two arrays of equal length, and `ProcessStatus::Normal` is not returned.
- SynthPlugin and VoicePool: the debug-only assertion failure for unknown modulation ids is not modelled. Such events are ignored, as in a release build.
- SynthSpec.ApplyEventKeepsFreshIds and the other fresh-id lemmas, up to SynthSpec.ProcessKeepsFreshIds: they assume the 64-bit counter does not wrap around during the call. The counter itself is modelled with wrap-around.
- AdsrEnvelope: envelope.rs has no note-on or note-off entry point that moves the state out of Idle or into Release. The unused `time` field is only initialised.
- The plugin metadata is out of scope: `Plugin`, `ClapPlugin`, `Vst3Plugin`, `params()`, the parameter definitions and ranges, and the audio IO layouts.
- The editor, the filter and the subsynth plugin are not part of this model.
