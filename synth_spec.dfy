/** `PolyModSynth::process` of lib.rs as a function of the synth's state:
    what each event does, what one sub-block does, and the whole call as
    the sub-blocks of the schedule run one after another. */
module SynthSpec {
  import opened Basics
  import opened NoteEvents
  import opened SmootherInterface
  import opened VoicePool
  import opened Scheduler

  /** The state `process` changes: the voice slots, the next internal voice
      id, how many values the random generator has produced since its last
      seeding, and the global gain parameter's smoother. */
  datatype Synth<S> = Synth(voices: seq<Slot<S>>, nextInternalVoiceId: u64, prngDraws: nat, gain: S)

  /** What `process` takes from outside the synth: the sample rate, the
      attack and release parameter values (milliseconds), the gain
      parameter's `preview_modulated` and `preview_plain`, the random
      generator's value stream from its fixed seed (`Pcg32::new(420, 1337)`),
      `util::midi_note_to_freq` and `f32::sqrt`. */
  datatype Host = Host(
    sampleRate: real,
    ampAttackMs: real,
    ampReleaseMs: real,
    gainPreviewModulated: real -> real,
    gainPreviewPlain: real -> real,
    random: nat -> real,
    midiNoteToFreq: u8 -> real,
    sqrt: real -> real)

  predicate WellSized<S>(st: Synth<S>) {
    |st.voices| == NUM_VOICES
  }

  /** `PolyModSynth::default()`, given the gain parameter's smoother. */
  function Initial<S>(gain: S): (st: Synth<S>)
    ensures WellSized(st) && LiveCount(st.voices) == 0
    ensures st.nextInternalVoiceId == 0 && st.prngDraws == 0 && st.gain == gain
  {
    EmptyHasNoVoices<S>(NUM_VOICES);
    Synth(Empty(NUM_VOICES), 0, 0, gain)
  }

  /** `reset()`: every slot emptied, the id counter and the generator back
      to their start; the gain smoother is not touched. */
  function Reset<S>(st: Synth<S>): (r: Synth<S>)
    ensures WellSized(r) && LiveCount(r.voices) == 0 && r.nextInternalVoiceId == 0 && r.prngDraws == 0
    ensures r.gain == st.gain
  {
    EmptyHasNoVoices<S>(NUM_VOICES);
    Synth(Empty(NUM_VOICES), 0, 0, st.gain)
  }

  /** `n` empty slots. */
  function Empty<S>(n: nat): (r: seq<Slot<S>>)
    ensures |r| == n && forall i :: 0 <= i < n ==> r[i].None?
  {
    seq(n, _ => None)
  }

  lemma {:induction false} EmptyHasNoVoices<S>(n: nat)
    ensures LiveCount(Empty<S>(n)) == 0
  {
    if n > 0 {
      EmptyHasNoVoices<S>(n - 1);
      assert Empty<S>(n)[1..] == Empty<S>(n - 1);
    }
  }

  /** Every event in `sent` is a voice termination notice. */
  predicate AllTerminations(sent: seq<NoteEvent>) {
    forall k :: 0 <= k < |sent| ==> sent[k].VoiceTerminated?
  }

  lemma AllTerminationsConcat(a: seq<NoteEvent>, b: seq<NoteEvent>)
    requires AllTerminations(a) && AllTerminations(b)
    ensures AllTerminations(a + b)
  {
  }

  /** The voice a `NoteOn` starts: the new voice of `start_voice` with the
      square-rooted velocity, the next random value as its phase, the
      note's frequency over the sample rate as its increment, and an
      exponential envelope of the attack time reset to 0 and heading to 1. */
  function StartedVoice<S>(st: Synth<S>, voiceId: Option<i32>, channel: u8, note: u8, velocity: real,
                           h: Host, ops: SmootherOps<S>): (r: Voice<S>)
    requires h.sampleRate != 0.0
    ensures r.voiceId == voiceId.GetOr(FallbackVoiceId(note, channel)) && r.channel == channel && r.note == note
    ensures r.internalVoiceId == st.nextInternalVoiceId && !r.releasing && r.voiceGain.None?
    ensures r.velocitySqrt == h.sqrt(velocity) && r.phase == h.random(st.prngDraws)
    ensures r.phaseDelta == h.midiNoteToFreq(note) / h.sampleRate
  {
    NewVoice(voiceId, channel, note, st.nextInternalVoiceId, ops.none).(
      velocitySqrt := h.sqrt(velocity),
      phase := h.random(st.prngDraws),
      phaseDelta := h.midiNoteToFreq(note) / h.sampleRate,
      ampEnvelope := ops.setTarget(ops.reset(ops.exponential(h.ampAttackMs), 0.0), h.sampleRate, 1.0))
  }

  /** One iteration of the `'events` loop that handles an event, with the
      notices it sends.  `blockFirstId` is the internal id counter at the
      start of the sub-block. */
  function ApplyEvent<S>(st: Synth<S>, e: NoteEvent, blockFirstId: u64, h: Host, ops: SmootherOps<S>)
    : (r: (Synth<S>, seq<NoteEvent>))
    requires WellSized(st) && h.sampleRate != 0.0
    ensures WellSized(r.0) && r.0.gain == st.gain
    ensures r.0.nextInternalVoiceId == if e.NoteOn? then WrappingAddU64(st.nextInternalVoiceId, 1) else st.nextInternalVoiceId
    ensures r.0.prngDraws == st.prngDraws + if e.NoteOn? then 1 else 0
    ensures e.NoteOn? ==> |r.1| <= 1
  {
    match e
    case NoteOn(timing, voiceId, channel, note, velocity) =>
      var i := StartSlot(st.voices);
      (st.(voices := st.voices[i := Some(StartedVoice(st, voiceId, channel, note, velocity, h, ops))],
           nextInternalVoiceId := WrappingAddU64(st.nextInternalVoiceId, 1),
           prngDraws := st.prngDraws + 1),
       StealEvents(st.voices, timing))
    case NoteOff(_, voiceId, channel, note, _) =>
      (st.(voices := ReleaseSlots(st.voices, voiceId, channel, note, h.ampReleaseMs, h.sampleRate, ops)), [])
    case Choke(timing, voiceId, channel, note) =>
      var c := ChokeSlots(st.voices, timing, voiceId, channel, note);
      (st.(voices := c.0), c.1)
    case PolyModulation(_, voiceId, polyModulationId, normalizedOffset) =>
      (st.(voices := PolyModulateSlots(st.voices, voiceId, polyModulationId, normalizedOffset,
                                       h.gainPreviewModulated(normalizedOffset), blockFirstId, h.sampleRate,
                                       st.gain, ops)), [])
    case MonoAutomation(_, polyModulationId, normalizedValue) =>
      (st.(voices := MonoAutomateSlots(st.voices, polyModulationId, normalizedValue, h.sampleRate,
                                       h.gainPreviewPlain, ops)), [])
    case VoiceTerminated(_, _, _, _) => (st, [])
    case Other(_) => (st, [])
  }

  /** An event other than `NoteOn` starts no voice: every live voice after
      it was live before, with the same ids. */
  lemma ApplyEventRetains<S>(st: Synth<S>, e: NoteEvent, blockFirstId: u64, h: Host, ops: SmootherOps<S>)
    requires WellSized(st) && h.sampleRate != 0.0 && !e.NoteOn?
    ensures Retains(st.voices, ApplyEvent(st, e, blockFirstId, h, ops).0.voices)
  {
  }

  /** Handling an event sends only voice termination notices. */
  lemma ApplyEventSendsTerminations<S>(st: Synth<S>, e: NoteEvent, blockFirstId: u64, h: Host, ops: SmootherOps<S>)
    requires WellSized(st) && h.sampleRate != 0.0
    ensures AllTerminations(ApplyEvent(st, e, blockFirstId, h, ops).1)
  {
  }

  /** The number of `NoteOn` events in `es`. */
  function NoteOns(es: seq<NoteEvent>): nat
    decreases |es|
  {
    if es == [] then 0 else NoteOns(es[..|es| - 1]) + if es[|es| - 1].NoteOn? then 1 else 0
  }

  /** The `'events` loop of one sub-block: the events in order, each with
      the same `blockFirstId`.  Each `NoteOn` takes one random value and
      one internal id (counting modulo 2^64). */
  function ApplyEvents<S>(st: Synth<S>, es: seq<NoteEvent>, blockFirstId: u64, h: Host, ops: SmootherOps<S>)
    : (r: (Synth<S>, seq<NoteEvent>))
    requires WellSized(st) && h.sampleRate != 0.0
    ensures WellSized(r.0) && r.0.gain == st.gain
    ensures r.0.prngDraws == st.prngDraws + NoteOns(es)
    ensures r.0.nextInternalVoiceId == (st.nextInternalVoiceId + NoteOns(es)) % U64_LIMIT
    decreases |es|
  {
    if es == [] then
      SmallModU64(st.nextInternalVoiceId);
      (st, [])
    else
      var p := ApplyEvents(st, es[..|es| - 1], blockFirstId, h, ops);
      var q := ApplyEvent(p.0, es[|es| - 1], blockFirstId, h, ops);
      WrappingStep(st.nextInternalVoiceId, NoteOns(es[..|es| - 1]), es[|es| - 1].NoteOn?);
      assert NoteOns(es) == NoteOns(es[..|es| - 1]) + if es[|es| - 1].NoteOn? then 1 else 0;
      (q.0, p.1 + q.1)
  }

  lemma {:induction false} ApplyEventsSendsTerminations<S>(st: Synth<S>, es: seq<NoteEvent>, blockFirstId: u64,
                                                          h: Host, ops: SmootherOps<S>)
    requires WellSized(st) && h.sampleRate != 0.0
    ensures AllTerminations(ApplyEvents(st, es, blockFirstId, h, ops).1)
    decreases |es|
  {
    if es != [] {
      var p := ApplyEvents(st, es[..|es| - 1], blockFirstId, h, ops);
      ApplyEventsSendsTerminations(st, es[..|es| - 1], blockFirstId, h, ops);
      ApplyEventSendsTerminations(p.0, es[|es| - 1], blockFirstId, h, ops);
      AllTerminationsConcat(p.1, ApplyEvent(p.0, es[|es| - 1], blockFirstId, h, ops).1);
    }
  }

  /** Handling the next event of `events` extends the loop by one step. */
  lemma ApplyEventsSnoc<S>(st: Synth<S>, events: seq<NoteEvent>, first: nat, next: nat, blockFirstId: u64,
                           h: Host, ops: SmootherOps<S>)
    requires WellSized(st) && h.sampleRate != 0.0 && first <= next < |events|
    ensures var p := ApplyEvents(st, events[first..next], blockFirstId, h, ops);
      var q := ApplyEvent(p.0, events[next], blockFirstId, h, ops);
      ApplyEvents(st, events[first..next + 1], blockFirstId, h, ops) == (q.0, p.1 + q.1)
  {
    var es := events[first..next + 1];
    assert es[..|es| - 1] == events[first..next];
    assert es[|es| - 1] == events[next];
  }

  /** The render part of a sub-block of `n` samples: the global gain
      smoother yields its block first and is advanced; every live voice is
      rendered into the zeroed mix. */
  function RenderBlock<S>(st: Synth<S>, n: nat, ops: SmootherOps<S>): (r: (Synth<S>, seq<real>))
    requires WellSized(st)
    ensures WellSized(r.0) && |r.1| == n
    ensures r.0.nextInternalVoiceId == st.nextInternalVoiceId && r.0.prngDraws == st.prngDraws
  {
    var p := RenderSlots(st.voices, st.gain, n, ops);
    (st.(voices := p.0, gain := ops.advance(st.gain, n)), p.1)
  }

  /** The events, the samples it renders and the notices every block of
      `blocks` needs are there. */
  predicate Runnable(blocks: seq<SubBlock>, events: seq<NoteEvent>) {
    forall i :: 0 <= i < |blocks| ==> blocks[i].first <= blocks[i].next <= |events| && blocks[i].start <= blocks[i].end
  }

  /** One iteration of the `while block_start < num_samples` loop: handle
      the block's events, render it, prune the voices that have finished
      releasing. */
  function BlockStep<S>(st: Synth<S>, events: seq<NoteEvent>, b: SubBlock, h: Host, ops: SmootherOps<S>)
    : (r: (Synth<S>, seq<real>, seq<NoteEvent>))
    requires WellSized(st) && h.sampleRate != 0.0
    requires b.first <= b.next <= |events| && b.start <= b.end
    ensures WellSized(r.0) && |r.1| == b.end - b.start
  {
    var a := ApplyEvents(st, events[b.first..b.next], st.nextInternalVoiceId, h, ops);
    var d := RenderBlock(a.0, b.end - b.start, ops);
    var p := PruneSlots(d.0.voices, b.end, ops);
    (d.0.(voices := p.0), d.1, a.1 + p.1)
  }

  /** The blocks run one after another: the final state, the samples
      rendered (the same on both output channels) and the notices sent. */
  function RunBlocks<S>(st: Synth<S>, events: seq<NoteEvent>, blocks: seq<SubBlock>, h: Host, ops: SmootherOps<S>)
    : (r: (Synth<S>, seq<real>, seq<NoteEvent>))
    requires WellSized(st) && h.sampleRate != 0.0 && Runnable(blocks, events)
    ensures WellSized(r.0)
    decreases |blocks|
  {
    if blocks == [] then (st, [], [])
    else
      var b := BlockStep(st, events, blocks[0], h, ops);
      var rest := RunBlocks(b.0, events, blocks[1..], h, ops);
      (rest.0, b.1 + rest.1, b.2 + rest.2)
  }

  /** The sub-block loop from `blockStart` on, with event `k` the first
      pending one. */
  function RunFrom<S>(st: Synth<S>, events: seq<NoteEvent>, k: nat, blockStart: nat, numSamples: nat, h: Host, ops: SmootherOps<S>)
    : (r: (Synth<S>, seq<real>, seq<NoteEvent>))
    requires WellSized(st) && h.sampleRate != 0.0 && k <= |events|
    ensures WellSized(r.0)
  {
    RunBlocks(st, events, Schedule(events, k, blockStart, numSamples), h, ops)
  }

  /** One turn of the sub-block loop. */
  lemma RunFromStep<S>(st: Synth<S>, events: seq<NoteEvent>, k: nat, blockStart: nat, numSamples: nat, h: Host, ops: SmootherOps<S>)
    requires WellSized(st) && h.sampleRate != 0.0 && k <= |events| && blockStart < numSamples
    ensures var j := Due(events, k, blockStart);
      var e := BlockEnd(events, j, blockStart, numSamples);
      var b := BlockStep(st, events, SubBlock(blockStart, e, k, j), h, ops);
      var rest := RunFrom(b.0, events, j, e, numSamples, h, ops);
      RunFrom(st, events, k, blockStart, numSamples, h, ops) == (rest.0, b.1 + rest.1, b.2 + rest.2)
  {
    var j := Due(events, k, blockStart);
    var e := BlockEnd(events, j, blockStart, numSamples);
    assert Schedule(events, k, blockStart, numSamples)[1..] == Schedule(events, j, e, numSamples);
  }

  /** What is left of the sub-block loop after one more turn: `target`
      split as the samples and notices so far plus the rest of the loop
      stays so split with the turn's own output moved to the front part. */
  lemma ProcessLoopStep<S>(target: (Synth<S>, seq<real>, seq<NoteEvent>), st: Synth<S>, events: seq<NoteEvent>,
                           k: nat, blockStart: nat, numSamples: nat, mix: seq<real>, sent: seq<NoteEvent>,
                           h: Host, ops: SmootherOps<S>)
    requires WellSized(st) && h.sampleRate != 0.0 && k <= |events| && blockStart < numSamples
    requires var rest := RunFrom(st, events, k, blockStart, numSamples, h, ops);
      target == (rest.0, mix + rest.1, sent + rest.2)
    ensures var j := Due(events, k, blockStart);
      var e := BlockEnd(events, j, blockStart, numSamples);
      var b := BlockStep(st, events, SubBlock(blockStart, e, k, j), h, ops);
      var rest := RunFrom(b.0, events, j, e, numSamples, h, ops);
      target == (rest.0, (mix + b.1) + rest.1, (sent + b.2) + rest.2)
  {
    RunFromStep(st, events, k, blockStart, numSamples, h, ops);
    var j := Due(events, k, blockStart);
    var e := BlockEnd(events, j, blockStart, numSamples);
    var b := BlockStep(st, events, SubBlock(blockStart, e, k, j), h, ops);
    var rest := RunFrom(b.0, events, j, e, numSamples, h, ops);
    AppendAssoc(mix, b.1, rest.1);
    AppendAssoc(sent, b.2, rest.2);
  }

  /** `process` on a buffer of `numSamples` samples and the host's events
      for it: the new state, the samples of each output channel and the
      notices sent. */
  function Process<S>(st: Synth<S>, events: seq<NoteEvent>, numSamples: nat, h: Host, ops: SmootherOps<S>)
    : (r: (Synth<S>, seq<real>, seq<NoteEvent>))
    requires WellSized(st) && h.sampleRate != 0.0
    ensures WellSized(r.0)
  {
    RunFrom(st, events, 0, 0, numSamples, h, ops)
  }

  /** A sub-block in terms of its three parts: `a` the events handled, `d`
      the block rendered, `p` the finished voices pruned. */
  lemma BlockStepParts<S>(st: Synth<S>, events: seq<NoteEvent>, b: SubBlock, h: Host, ops: SmootherOps<S>,
                          a: (Synth<S>, seq<NoteEvent>), d: (Synth<S>, seq<real>), p: (seq<Slot<S>>, seq<NoteEvent>))
    requires WellSized(st) && h.sampleRate != 0.0
    requires b.first <= b.next <= |events| && b.start <= b.end
    requires a == ApplyEvents(st, events[b.first..b.next], st.nextInternalVoiceId, h, ops)
    requires WellSized(a.0) && d == RenderBlock(a.0, b.end - b.start, ops)
    requires p == PruneSlots(d.0.voices, b.end, ops)
    ensures BlockStep(st, events, b, h, ops) == (d.0.(voices := p.0), d.1, a.1 + p.1)
  {
    var a' := ApplyEvents(st, events[b.first..b.next], st.nextInternalVoiceId, h, ops);
    var d' := RenderBlock(a'.0, b.end - b.start, ops);
    var p' := PruneSlots(d'.0.voices, b.end, ops);
    assert BlockStep(st, events, b, h, ops) == (d'.0.(voices := p'.0), d'.1, a'.1 + p'.1);
  }

  /** A sub-block sends only voice termination notices. */
  lemma BlockStepSendsTerminations<S>(st: Synth<S>, events: seq<NoteEvent>, b: SubBlock, h: Host, ops: SmootherOps<S>)
    requires WellSized(st) && h.sampleRate != 0.0
    requires b.first <= b.next <= |events| && b.start <= b.end
    ensures AllTerminations(BlockStep(st, events, b, h, ops).2)
  {
    var a := ApplyEvents(st, events[b.first..b.next], st.nextInternalVoiceId, h, ops);
    ApplyEventsSendsTerminations(st, events[b.first..b.next], st.nextInternalVoiceId, h, ops);
    var d := RenderBlock(a.0, b.end - b.start, ops);
    AllTerminationsConcat(a.1, PruneSlots(d.0.voices, b.end, ops).1);
  }

  lemma {:induction false} RunBlocksSendsTerminations<S>(st: Synth<S>, events: seq<NoteEvent>, blocks: seq<SubBlock>,
                                                        h: Host, ops: SmootherOps<S>)
    requires WellSized(st) && h.sampleRate != 0.0 && Runnable(blocks, events)
    ensures AllTerminations(RunBlocks(st, events, blocks, h, ops).2)
    decreases |blocks|
  {
    if blocks != [] {
      var b := BlockStep(st, events, blocks[0], h, ops);
      BlockStepSendsTerminations(st, events, blocks[0], h, ops);
      RunBlocksSendsTerminations(b.0, events, blocks[1..], h, ops);
      AllTerminationsConcat(b.2, RunBlocks(b.0, events, blocks[1..], h, ops).2);
    }
  }

  /** `process` sends the host only voice termination notices. */
  lemma ProcessSendsOnlyTerminations<S>(st: Synth<S>, events: seq<NoteEvent>, numSamples: nat, h: Host, ops: SmootherOps<S>)
    requires WellSized(st) && h.sampleRate != 0.0
    ensures AllTerminations(Process(st, events, numSamples, h, ops).2)
  {
    RunBlocksSendsTerminations(st, events, Schedule(events, 0, 0, numSamples), h, ops);
  }

  /** `process` writes every sample of the buffer exactly once. */
  lemma ProcessRendersEverySample<S>(st: Synth<S>, events: seq<NoteEvent>, numSamples: nat, h: Host, ops: SmootherOps<S>)
    requires WellSized(st) && h.sampleRate != 0.0
    ensures |Process(st, events, numSamples, h, ops).1| == numSamples
  {
    RunScheduleLength(st, events, 0, 0, numSamples, h, ops);
  }

  lemma {:induction false} RunScheduleLength<S>(st: Synth<S>, events: seq<NoteEvent>, k: nat, blockStart: nat, numSamples: nat,
                                                h: Host, ops: SmootherOps<S>)
    requires WellSized(st) && h.sampleRate != 0.0 && k <= |events| && blockStart <= numSamples
    ensures |RunFrom(st, events, k, blockStart, numSamples, h, ops).1| == numSamples - blockStart
    decreases numSamples - blockStart
  {
    if blockStart < numSamples {
      var j := Due(events, k, blockStart);
      var e := BlockEnd(events, j, blockStart, numSamples);
      var blocks := Schedule(events, k, blockStart, numSamples);
      assert blocks[1..] == Schedule(events, j, e, numSamples);
      var b := BlockStep(st, events, blocks[0], h, ops);
      RunScheduleLength(b.0, events, j, e, numSamples, h, ops);
    }
  }

  /** Internal ids of live voices are all below the counter and pairwise
      distinct: each voice is identified by the order it was started in. */
  predicate FreshIds<S>(st: Synth<S>) {
    && (forall i :: 0 <= i < |st.voices| && st.voices[i].Some? ==> st.voices[i].value.internalVoiceId < st.nextInternalVoiceId)
    && (forall i, j :: 0 <= i < j < |st.voices| && st.voices[i].Some? && st.voices[j].Some? ==>
          st.voices[i].value.internalVoiceId != st.voices[j].value.internalVoiceId)
  }

  /** An operation that starts no voice keeps the ids fresh. */
  lemma RetainsKeepsFreshIds<S>(st: Synth<S>, voices: seq<Slot<S>>)
    requires FreshIds(st) && Retains(st.voices, voices)
    ensures FreshIds(st.(voices := voices))
  {
    var r := st.(voices := voices);
    forall i, j | 0 <= i < j < |voices| && voices[i].Some? && voices[j].Some?
      ensures voices[i].value.internalVoiceId != voices[j].value.internalVoiceId
    {
      assert st.voices[i].Some? && st.voices[j].Some?;
    }
  }

  /** Every event keeps the ids fresh, as long as the counter does not wrap
      around. */
  lemma ApplyEventKeepsFreshIds<S>(st: Synth<S>, e: NoteEvent, blockFirstId: u64, h: Host, ops: SmootherOps<S>)
    requires WellSized(st) && h.sampleRate != 0.0 && FreshIds(st)
    requires st.nextInternalVoiceId + 1 < U64_LIMIT
    ensures FreshIds(ApplyEvent(st, e, blockFirstId, h, ops).0)
  {
    var r := ApplyEvent(st, e, blockFirstId, h, ops).0;
    if e.NoteOn? {
      var i := StartSlot(st.voices);
      assert r.nextInternalVoiceId == st.nextInternalVoiceId + 1;
      assert r.voices[i].value.internalVoiceId == st.nextInternalVoiceId;
      forall a, b | 0 <= a < b < |r.voices| && r.voices[a].Some? && r.voices[b].Some?
        ensures r.voices[a].value.internalVoiceId != r.voices[b].value.internalVoiceId
      {
        if a != i && b != i {
          assert r.voices[a] == st.voices[a] && r.voices[b] == st.voices[b];
        }
      }
    } else {
      ApplyEventRetains(st, e, blockFirstId, h, ops);
      RetainsKeepsFreshIds(st, r.voices);
    }
  }

  /** A sub-block keeps the ids fresh, as long as the counter does not wrap
      around while its events are handled. */
  lemma {:induction false} ApplyEventsKeepsFreshIds<S>(st: Synth<S>, es: seq<NoteEvent>, blockFirstId: u64, h: Host, ops: SmootherOps<S>)
    requires WellSized(st) && h.sampleRate != 0.0 && FreshIds(st)
    requires st.nextInternalVoiceId + |es| < U64_LIMIT
    ensures FreshIds(ApplyEvents(st, es, blockFirstId, h, ops).0)
    decreases |es|
  {
    if es != [] {
      ApplyEventsKeepsFreshIds(st, es[..|es| - 1], blockFirstId, h, ops);
      LastEventKeepsFreshIds(st, es, blockFirstId, h, ops);
    }
  }

  /** The step of `ApplyEventsKeepsFreshIds`: the last event of `es` keeps
      the ids fresh. */
  lemma LastEventKeepsFreshIds<S>(st: Synth<S>, es: seq<NoteEvent>, blockFirstId: u64, h: Host, ops: SmootherOps<S>)
    requires WellSized(st) && h.sampleRate != 0.0 && es != []
    requires st.nextInternalVoiceId + |es| < U64_LIMIT
    requires FreshIds(ApplyEvents(st, es[..|es| - 1], blockFirstId, h, ops).0)
    ensures FreshIds(ApplyEvents(st, es, blockFirstId, h, ops).0)
  {
    var p := ApplyEvents(st, es[..|es| - 1], blockFirstId, h, ops);
    ApplyEventsCountsExactly(st, es[..|es| - 1], blockFirstId, h, ops);
    ApplyEventKeepsFreshIds(p.0, es[|es| - 1], blockFirstId, h, ops);
    ApplyEventsLast(st, es, blockFirstId, h, ops);
  }

  /** Without wrap-around, the loop's id counter is the start plus the
      number of `NoteOn` events. */
  lemma ApplyEventsCountsExactly<S>(st: Synth<S>, es: seq<NoteEvent>, blockFirstId: u64, h: Host, ops: SmootherOps<S>)
    requires WellSized(st) && h.sampleRate != 0.0
    requires st.nextInternalVoiceId + |es| < U64_LIMIT
    ensures ApplyEvents(st, es, blockFirstId, h, ops).0.nextInternalVoiceId == st.nextInternalVoiceId + NoteOns(es)
    ensures NoteOns(es) <= |es|
  {
    NoteOnsBounded(es);
    SmallModU64(st.nextInternalVoiceId + NoteOns(es));
  }

  /** The loop's last event is handled after all the others. */
  lemma ApplyEventsLast<S>(st: Synth<S>, es: seq<NoteEvent>, blockFirstId: u64, h: Host, ops: SmootherOps<S>)
    requires WellSized(st) && h.sampleRate != 0.0 && es != []
    ensures var p := ApplyEvents(st, es[..|es| - 1], blockFirstId, h, ops);
      ApplyEvents(st, es, blockFirstId, h, ops).0 == ApplyEvent(p.0, es[|es| - 1], blockFirstId, h, ops).0
  {
  }

  lemma {:induction false} NoteOnsBounded(es: seq<NoteEvent>)
    ensures NoteOns(es) <= |es|
    decreases |es|
  {
    if es != [] {
      NoteOnsBounded(es[..|es| - 1]);
    }
  }

  /** One iteration of the sub-block loop keeps the ids fresh. */
  lemma BlockStepKeepsFreshIds<S>(st: Synth<S>, events: seq<NoteEvent>, b: SubBlock, h: Host, ops: SmootherOps<S>)
    requires WellSized(st) && h.sampleRate != 0.0 && FreshIds(st)
    requires b.first <= b.next <= |events| && b.start <= b.end
    requires st.nextInternalVoiceId + (b.next - b.first) < U64_LIMIT
    ensures FreshIds(BlockStep(st, events, b, h, ops).0)
  {
    var a := ApplyEvents(st, events[b.first..b.next], st.nextInternalVoiceId, h, ops);
    ApplyEventsKeepsFreshIds(st, events[b.first..b.next], st.nextInternalVoiceId, h, ops);
    var d := RenderBlock(a.0, b.end - b.start, ops);
    RetainsKeepsFreshIds(a.0, d.0.voices);
    var p := PruneSlots(d.0.voices, b.end, ops);
    RetainsKeepsFreshIds(d.0, p.0);
  }

  /** Without wrap-around, one sub-block advances the id counter by at most
      the number of events it handles. */
  lemma BlockStepCounts<S>(st: Synth<S>, events: seq<NoteEvent>, b: SubBlock, h: Host, ops: SmootherOps<S>)
    requires WellSized(st) && h.sampleRate != 0.0
    requires b.first <= b.next <= |events| && b.start <= b.end
    requires st.nextInternalVoiceId + (b.next - b.first) < U64_LIMIT
    ensures st.nextInternalVoiceId <= BlockStep(st, events, b, h, ops).0.nextInternalVoiceId
              <= st.nextInternalVoiceId + (b.next - b.first)
  {
    ApplyEventsCountsExactly(st, events[b.first..b.next], st.nextInternalVoiceId, h, ops);
  }

  /** Internal ids are never reused during the sub-block loop: from any
      block start on, the ids stay fresh as long as the counter has room
      for every pending event. */
  lemma {:induction false} RunFromKeepsFreshIds<S>(st: Synth<S>, events: seq<NoteEvent>, k: nat, blockStart: nat,
                                                  numSamples: nat, h: Host, ops: SmootherOps<S>)
    requires WellSized(st) && h.sampleRate != 0.0 && k <= |events| && FreshIds(st)
    requires st.nextInternalVoiceId + (|events| - k) < U64_LIMIT
    ensures FreshIds(RunFrom(st, events, k, blockStart, numSamples, h, ops).0)
    decreases numSamples - blockStart
  {
    if blockStart < numSamples {
      var j := Due(events, k, blockStart);
      var e := BlockEnd(events, j, blockStart, numSamples);
      var b := SubBlock(blockStart, e, k, j);
      RunFromStep(st, events, k, blockStart, numSamples, h, ops);
      BlockStepKeepsFreshIds(st, events, b, h, ops);
      BlockStepCounts(st, events, b, h, ops);
      RunFromKeepsFreshIds(BlockStep(st, events, b, h, ops).0, events, j, e, numSamples, h, ops);
    }
  }

  /** A `process` call never reuses an internal id, as long as the counter
      has room for all its events. */
  lemma ProcessKeepsFreshIds<S>(st: Synth<S>, events: seq<NoteEvent>, numSamples: nat, h: Host, ops: SmootherOps<S>)
    requires WellSized(st) && h.sampleRate != 0.0 && FreshIds(st)
    requires st.nextInternalVoiceId + |events| < U64_LIMIT
    ensures FreshIds(Process(st, events, numSamples, h, ops).0)
  {
    RunFromKeepsFreshIds(st, events, 0, 0, numSamples, h, ops);
  }

  /** After `reset` the ids are fresh. */
  lemma ResetHasFreshIds<S>(st: Synth<S>)
    ensures FreshIds(Reset(st))
  {
  }

  /** A voice released by a `NoteOff` whose envelope has reached 0 is gone
      after the sub-block, and its termination has been sent. */
  lemma FinishedVoicesArePruned<S>(st: Synth<S>, events: seq<NoteEvent>, b: SubBlock, h: Host, ops: SmootherOps<S>, i: nat)
    requires WellSized(st) && h.sampleRate != 0.0
    requires b.first <= b.next <= |events| && b.start <= b.end
    requires var a := ApplyEvents(st, events[b.first..b.next], st.nextInternalVoiceId, h, ops);
      i < NUM_VOICES && Prunable(RenderBlock(a.0, b.end - b.start, ops).0.voices[i], ops)
    ensures BlockStep(st, events, b, h, ops).0.voices[i].None?
    ensures var a := ApplyEvents(st, events[b.first..b.next], st.nextInternalVoiceId, h, ops);
      var v := RenderBlock(a.0, b.end - b.start, ops).0.voices[i].value;
      TerminatedEvent(UsizeAsU32(b.end), v) in BlockStep(st, events, b, h, ops).2
  {
    var a := ApplyEvents(st, events[b.first..b.next], st.nextInternalVoiceId, h, ops);
    var d := RenderBlock(a.0, b.end - b.start, ops);
    PruneClearsExactlyPrunable(d.0.voices, b.end, ops);
    PruneNotifies(d.0.voices, b.end, ops, i);
  }
}
