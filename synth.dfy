/** The `PolyModSynth` plugin of lib.rs: its voice array, id counter,
    random generator position and global gain smoother are fields, and its
    methods update them in place.  Each method is proved to do what the
    corresponding function of SynthSpec or VoicePool says. */
module SynthPlugin {
  import opened Basics
  import opened NoteEvents
  import opened SmootherInterface
  import opened Oscillator
  import opened VoicePool
  import opened Scheduler
  import opened SynthSpec

  class PolyModSynth<S> {
    /** The smoother operations of the host library. */
    const ops: SmootherOps<S>
    /** `voices: [Option<Voice>; NUM_VOICES]` */
    const voices: array<Slot<S>>
    var nextInternalVoiceId: u64
    /** How many values `prng` has produced since it was seeded. */
    var prngDraws: nat
    /** `params.gain.smoothed` */
    var gain: S

    ghost predicate Valid()
      reads this
    {
      voices.Length == NUM_VOICES
    }

    /** The state as a SynthSpec value. */
    function Model(): Synth<S>
      reads this, voices
    {
      Synth(voices[..], nextInternalVoiceId, prngDraws, gain)
    }

    /** `PolyModSynth::default()`. */
    constructor (ops: SmootherOps<S>, gain: S)
      ensures Valid() && Model() == Initial(gain) && this.ops == ops && fresh(voices)
    {
      this.ops := ops;
      voices := new Slot<S>[NUM_VOICES](_ => None);
      nextInternalVoiceId := 0;
      prngDraws := 0;
      this.gain := gain;
      new;
      assert voices[..] == Empty(NUM_VOICES);
    }

    /** `reset()`. */
    method Reset()
      requires Valid()
      modifies this, voices
      ensures Model() == SynthSpec.Reset(old(Model()))
    {
      prngDraws := 0;
      forall i | 0 <= i < voices.Length {
        voices[i] := None;
      }
      nextInternalVoiceId := 0;
      assert voices[..] == Empty(NUM_VOICES);
    }

    /** `get_voice_idx(voice_id)`. */
    method GetVoiceIdx(voiceId: i32) returns (r: Option<nat>)
      ensures r == VoicePool.GetVoiceIdx(voices[..], voiceId)
    {
      var i := 0;
      while i < voices.Length
        invariant 0 <= i <= voices.Length
        invariant forall j :: 0 <= j < i ==> voices[j].None? || voices[j].value.voiceId != voiceId
      {
        if voices[i].Some? && voices[i].value.voiceId == voiceId {
          assert voices[..][i] == voices[i];
          return Some(i);
        }
        i := i + 1;
      }
      return None;
    }

    /** `start_voice(context, sample_offset, voice_id, channel, note)`: the
        slot the new voice went to and the notices sent. */
    method StartVoice(sampleOffset: u32, voiceId: Option<i32>, channel: u8, note: u8) returns (idx: nat, sent: seq<NoteEvent>)
      requires Valid()
      modifies voices, this`nextInternalVoiceId
      ensures idx == StartSlot(old(voices[..]))
      ensures voices[..] == old(voices[..])[idx := Some(NewVoice(voiceId, channel, note, old(nextInternalVoiceId), ops.none))]
      ensures nextInternalVoiceId == WrappingAddU64(old(nextInternalVoiceId), 1)
      ensures sent == StealEvents(old(voices[..]), sampleOffset)
    {
      var newVoice := NewVoice(voiceId, channel, note, nextInternalVoiceId, ops.none);
      nextInternalVoiceId := WrappingAddU64(nextInternalVoiceId, 1);

      var free := 0;
      while free < voices.Length && voices[free].Some?
        invariant 0 <= free <= voices.Length
        invariant forall j :: 0 <= j < free ==> voices[j].Some?
      {
        free := free + 1;
      }
      if free < voices.Length {
        assert voices[..][free].None?;
        voices[free] := Some(newVoice);
        return free, [];
      }

      var oldest := 0;
      for j := 1 to voices.Length
        invariant oldest < j
        invariant forall m :: 0 <= m < j ==> voices[oldest].value.internalVoiceId <= voices[m].value.internalVoiceId
        invariant forall m :: 0 <= m < oldest ==> voices[oldest].value.internalVoiceId < voices[m].value.internalVoiceId
      {
        if voices[j].value.internalVoiceId < voices[oldest].value.internalVoiceId {
          oldest := j;
        }
      }
      assert Oldest(voices[..]) == oldest;
      sent := [TerminatedEvent(sampleOffset, voices[oldest].value)];
      voices[oldest] := Some(newVoice);
      idx := oldest;
    }

    /** `start_release_for_voices(sample_rate, voice_id, channel, note)`
        with the release parameter's value `releaseMs`. */
    method StartReleaseForVoices(sampleRate: real, voiceId: Option<i32>, channel: u8, note: u8, releaseMs: real)
      modifies voices
      ensures voices[..] == ReleaseSlots(old(voices[..]), voiceId, channel, note, releaseMs, sampleRate, ops)
    {
      ghost var slots := voices[..];
      for i := 0 to voices.Length
        invariant forall j :: i <= j < voices.Length ==> voices[j] == slots[j]
        invariant voiceId.Some? ==> forall j :: 0 <= j < i ==> voices[j] == slots[j] && !Matches(slots[j], voiceId, channel, note)
        invariant voiceId.None? ==> forall j :: 0 <= j < i ==>
          voices[j] == ReleasedSlot(slots[j], channel, note, releaseMs, sampleRate, ops)
      {
        if Matches(voices[i], voiceId, channel, note) {
          var v := voices[i].value;
          var ampEnvelope := ops.restyleExponential(v.ampEnvelope, releaseMs);
          ampEnvelope := ops.setTarget(ampEnvelope, sampleRate, 0.0);
          voices[i] := Some(v.(releasing := true, ampEnvelope := ampEnvelope));
          if voiceId.Some? {
            assert FirstMatch(slots, voiceId, channel, note) == Some(i);
            assert voices[..] == slots[i := Some(Released(slots[i].value, releaseMs, sampleRate, ops))];
            return;
          }
        }
      }
      if voiceId.Some? {
        assert FirstMatch(slots, voiceId, channel, note).None?;
        assert voices[..] == slots;
      } else {
        assert voices[..] == ReleaseSlots(slots, voiceId, channel, note, releaseMs, sampleRate, ops);
      }
    }

    /** `choke_voices(context, sample_offset, voice_id, channel, note)`: the
        notices sent. */
    method ChokeVoices(sampleOffset: u32, voiceId: Option<i32>, channel: u8, note: u8) returns (sent: seq<NoteEvent>)
      modifies voices
      ensures (voices[..], sent) == ChokeSlots(old(voices[..]), sampleOffset, voiceId, channel, note)
    {
      ghost var slots := voices[..];
      sent := [];
      for i := 0 to voices.Length
        invariant forall j :: i <= j < voices.Length ==> voices[j] == slots[j]
        invariant voiceId.Some? ==> sent == [] && forall j :: 0 <= j < i ==> voices[j] == slots[j] && !Matches(slots[j], voiceId, channel, note)
        invariant voiceId.None? ==> (voices[..i], sent) == ChokeAll(slots[..i], sampleOffset, channel, note)
      {
        assert slots[..i + 1][..i] == slots[..i];
        assert slots[..i + 1][i] == slots[i];
        ghost var done := voices[..i];
        if Matches(voices[i], voiceId, channel, note) {
          sent := sent + [ChokeNotice(sampleOffset, voices[i].value, channel, note)];
          voices[i] := None;
          if voiceId.Some? {
            assert FirstMatch(slots, voiceId, channel, note) == Some(i);
            assert voices[..] == slots[i := None];
            assert sent == [ChokeNotice(sampleOffset, slots[i].value, channel, note)];
            return;
          }
        }
        assert voices[..i + 1] == done + [voices[i]];
      }
      if voiceId.Some? {
        assert FirstMatch(slots, voiceId, channel, note).None?;
        assert voices[..] == slots;
      } else {
        assert slots[..voices.Length] == slots;
        assert voices[..] == voices[..voices.Length];
      }
    }

    /** The pruning loop at the end of a sub-block ending at `blockEnd`: the
        notices sent. */
    method PruneVoices(blockEnd: nat) returns (sent: seq<NoteEvent>)
      modifies voices
      ensures (voices[..], sent) == PruneSlots(old(voices[..]), blockEnd, ops)
    {
      ghost var slots := voices[..];
      sent := [];
      for i := 0 to voices.Length
        invariant forall j :: i <= j < voices.Length ==> voices[j] == slots[j]
        invariant (voices[..i], sent) == PruneSlots(slots[..i], blockEnd, ops)
      {
        assert slots[..i + 1][..i] == slots[..i];
        assert slots[..i + 1][i] == slots[i];
        ghost var done := voices[..i];
        match voices[i] {
          case Some(v) =>
            if v.releasing && ops.previousValue(v.ampEnvelope) == 0.0 {
              sent := sent + [VoiceTerminated(UsizeAsU32(blockEnd), Some(v.voiceId), v.channel, v.note)];
              voices[i] := None;
            }
          case None =>
        }
        assert voices[..i + 1] == done + [voices[i]];
      }
      assert slots[..voices.Length] == slots;
      assert voices[..] == voices[..voices.Length];
    }

    /** The `PolyModulation` arm of the event loop. */
    method PolyModulate(voiceId: i32, polyModulationId: u32, normalizedOffset: real, targetPlainValue: real,
                        blockFirstId: u64, sampleRate: real)
      modifies voices
      ensures voices[..] == PolyModulateSlots(old(voices[..]), voiceId, polyModulationId, normalizedOffset,
                                              targetPlainValue, blockFirstId, sampleRate, gain, ops)
    {
      var found := GetVoiceIdx(voiceId);
      if found.Some? {
        var idx := found.value;
        var v := voices[idx].value;
        if polyModulationId == GAIN_POLY_MOD_ID {
          var (offset, smoother) := v.voiceGain.GetOr((normalizedOffset, gain));
          if v.internalVoiceId >= blockFirstId {
            smoother := ops.reset(smoother, targetPlainValue);
          } else {
            smoother := ops.setTarget(smoother, sampleRate, targetPlainValue);
          }
          voices[idx] := Some(v.(voiceGain := Some((offset, smoother))));
        } else {
          assert v == PolyModulated(v, polyModulationId, normalizedOffset, targetPlainValue, blockFirstId, sampleRate, gain, ops);
          assert old(voices[..]) == old(voices[..])[idx := Some(v)];
        }
      }
    }

    /** The `MonoAutomation` arm of the event loop. */
    method MonoAutomate(polyModulationId: u32, normalizedValue: real, sampleRate: real, previewPlain: real -> real)
      modifies voices
      ensures voices[..] == MonoAutomateSlots(old(voices[..]), polyModulationId, normalizedValue, sampleRate, previewPlain, ops)
    {
      ghost var slots := voices[..];
      ghost var target := MonoAutomateSlots(slots, polyModulationId, normalizedValue, sampleRate, previewPlain, ops);
      for i := 0 to voices.Length
        invariant forall j :: i <= j < voices.Length ==> voices[j] == slots[j]
        invariant forall j :: 0 <= j < i ==> voices[j] == target[j]
      {
        match voices[i] {
          case Some(v) =>
            if polyModulationId == GAIN_POLY_MOD_ID && v.voiceGain.Some? {
              var (offset, smoother) := v.voiceGain.value;
              var targetPlainValue := previewPlain(normalizedValue + offset);
              voices[i] := Some(v.(voiceGain := Some((offset, ops.setTarget(smoother, sampleRate, targetPlainValue)))));
            }
          case None =>
        }
      }
      assert voices[..] == target;
    }

    /** The `NoteOn` arm of the event loop: the notices sent. */
    method NoteOn(timing: u32, voiceId: Option<i32>, channel: u8, note: u8, velocity: real, h: Host)
      returns (sent: seq<NoteEvent>)
      requires Valid() && h.sampleRate != 0.0
      modifies this, voices
      ensures Model() == old(Model()).(
        voices := old(voices[..])[StartSlot(old(voices[..])) := Some(StartedVoice(old(Model()), voiceId, channel, note, velocity, h, ops))],
        nextInternalVoiceId := WrappingAddU64(old(nextInternalVoiceId), 1),
        prngDraws := old(prngDraws) + 1)
      ensures sent == StealEvents(old(voices[..]), timing)
    {
      ghost var st := Model();
      var initialPhase := h.random(prngDraws);
      prngDraws := prngDraws + 1;
      var ampEnvelope := ops.exponential(h.ampAttackMs);
      ampEnvelope := ops.reset(ampEnvelope, 0.0);
      ampEnvelope := ops.setTarget(ampEnvelope, h.sampleRate, 1.0);

      var idx;
      idx, sent := StartVoice(timing, voiceId, channel, note);
      var v := voices[idx].value;
      voices[idx] := Some(v.(velocitySqrt := h.sqrt(velocity), phase := initialPhase,
                             phaseDelta := h.midiNoteToFreq(note) / h.sampleRate, ampEnvelope := ampEnvelope));
      assert voices[..] == st.voices[idx := Some(StartedVoice(st, voiceId, channel, note, velocity, h, ops))];
    }

    /** One event handled by the `'events` loop: the notices sent. */
    method HandleEvent(e: NoteEvent, blockFirstId: u64, h: Host) returns (sent: seq<NoteEvent>)
      requires Valid() && h.sampleRate != 0.0
      modifies this, voices
      ensures (Model(), sent) == ApplyEvent(old(Model()), e, blockFirstId, h, ops)
    {
      match e {
        case NoteOn(timing, voiceId, channel, note, velocity) =>
          sent := NoteOn(timing, voiceId, channel, note, velocity, h);
        case NoteOff(_, voiceId, channel, note, _) =>
          StartReleaseForVoices(h.sampleRate, voiceId, channel, note, h.ampReleaseMs);
          sent := [];
        case Choke(timing, voiceId, channel, note) =>
          sent := ChokeVoices(timing, voiceId, channel, note);
        case PolyModulation(_, voiceId, polyModulationId, normalizedOffset) =>
          PolyModulate(voiceId, polyModulationId, normalizedOffset, h.gainPreviewModulated(normalizedOffset),
                       blockFirstId, h.sampleRate);
          sent := [];
        case MonoAutomation(_, polyModulationId, normalizedValue) =>
          MonoAutomate(polyModulationId, normalizedValue, h.sampleRate, h.gainPreviewPlain);
          sent := [];
        case VoiceTerminated(_, _, _, _) =>
          sent := [];
        case Other(_) =>
          sent := [];
      }
    }

    /** The inner sample loop for one voice over [blockStart, blockEnd):
        each sample of both channels gets the voice's sample added; the
        voice comes back with its phase and smoothers advanced. */
    method MixVoice(v: Voice<S>, globalGain: S, left: array<real>, right: array<real>, blockStart: nat, blockEnd: nat)
      returns (w: Voice<S>)
      requires left != right && blockStart <= blockEnd <= left.Length && blockEnd <= right.Length
      modifies left, right
      ensures w == Rendered(v, blockEnd - blockStart, ops)
      ensures forall k :: blockStart <= k < blockEnd ==> left[k] == old(left[k]) + VoiceSample(v, globalGain, k - blockStart, ops)
      ensures forall k :: blockStart <= k < blockEnd ==> right[k] == old(right[k]) + VoiceSample(v, globalGain, k - blockStart, ops)
      ensures forall k :: 0 <= k < left.Length && !(blockStart <= k < blockEnd) ==> left[k] == old(left[k])
      ensures forall k :: 0 <= k < right.Length && !(blockStart <= k < blockEnd) ==> right[k] == old(right[k])
    {
      var blockLen := blockEnd - blockStart;
      var gainSmoother := match v.voiceGain case Some(g) => g.1 case None => globalGain;
      var phase := v.phase;
      ghost var left0, right0 := left[..], right[..];
      for valueIdx := 0 to blockLen
        invariant phase == PhaseAfter(v.phase, v.phaseDelta, valueIdx)
        invariant Raised(left[..], left0, blockStart, valueIdx, v, globalGain, ops)
        invariant Raised(right[..], right0, blockStart, valueIdx, v, globalGain, ops)
      {
        var sampleIdx := blockStart + valueIdx;
        var sample := SampleAt(v, globalGain, gainSmoother, phase, valueIdx);

        phase := phase + v.phaseDelta;
        if phase >= 1.0 {
          phase := phase - 1.0;
        }

        RaisedStep(left[..], left0, blockStart, valueIdx, v, globalGain, ops);
        RaisedStep(right[..], right0, blockStart, valueIdx, v, globalGain, ops);
        AddSample(left, right, sampleIdx, sample);
      }
      assert forall k :: 0 <= k < left.Length ==> left[k] == left[..][k] && left0[k] == old(left[k]);
      assert forall k :: 0 <= k < right.Length ==> right[k] == right[..][k] && right0[k] == old(right[k]);
      w := v.(phase := phase,
              ampEnvelope := ops.advance(v.ampEnvelope, blockLen),
              voiceGain := match v.voiceGain
                case Some(g) => Some((g.0, ops.advance(g.1, blockLen)))
                case None => None);
    }

    /** `output[0][sample_idx] += sample; output[1][sample_idx] += sample;` */
    method AddSample(left: array<real>, right: array<real>, sampleIdx: nat, sample: real)
      requires left != right && sampleIdx < left.Length && sampleIdx < right.Length
      modifies left, right
      ensures left[..] == old(left[..])[sampleIdx := old(left[sampleIdx]) + sample]
      ensures right[..] == old(right[..])[sampleIdx := old(right[sampleIdx]) + sample]
    {
      left[sampleIdx] := left[sampleIdx] + sample;
      right[sampleIdx] := right[sampleIdx] + sample;
    }

    /** One sample of a voice: `triangle_wave(phase)` times the amplitude
        from the velocity, the gain block and the envelope block. */
    method SampleAt(v: Voice<S>, globalGain: S, gainSmoother: S, phase: real, valueIdx: nat) returns (sample: real)
      requires gainSmoother == if v.voiceGain.Some? then v.voiceGain.value.1 else globalGain
      requires phase == PhaseAfter(v.phase, v.phaseDelta, valueIdx)
      ensures sample == VoiceSample(v, globalGain, valueIdx, ops)
    {
      var amp := v.velocitySqrt * ops.valueAt(gainSmoother, valueIdx) * ops.valueAt(v.ampEnvelope, valueIdx);
      assert amp == Amplitude(v, globalGain, valueIdx, ops);
      sample := TriangleWave(phase) * amp;
    }

    /** `output[block_start..block_end].fill(0.0)` on both channels. */
    method ZeroBlock(left: array<real>, right: array<real>, blockStart: nat, blockEnd: nat)
      requires blockStart <= blockEnd <= left.Length && blockEnd <= right.Length
      modifies left, right
      ensures forall j :: blockStart <= j < blockEnd ==> left[j] == 0.0 && right[j] == 0.0
      ensures forall j :: 0 <= j < left.Length && !(blockStart <= j < blockEnd) ==> left[j] == old(left[j])
      ensures forall j :: 0 <= j < right.Length && !(blockStart <= j < blockEnd) ==> right[j] == old(right[j])
    {
      for k := blockStart to blockEnd
        invariant forall j :: blockStart <= j < k ==> left[j] == 0.0 && right[j] == 0.0
        invariant forall j :: 0 <= j < left.Length && !(blockStart <= j < k) ==> left[j] == old(left[j])
        invariant forall j :: 0 <= j < right.Length && !(blockStart <= j < k) ==> right[j] == old(right[j])
      {
        left[k] := 0.0;
        right[k] := 0.0;
      }
    }

    /** The voice loop of a sub-block over zeroed channels: every live voice
        is mixed in and advanced, slot by slot. */
    method MixVoices(globalGain: S, left: array<real>, right: array<real>, blockStart: nat, blockEnd: nat)
      requires left != right && blockStart <= blockEnd <= left.Length && blockEnd <= right.Length
      requires forall j :: blockStart <= j < blockEnd ==> left[j] == 0.0 && right[j] == 0.0
      modifies voices, left, right
      ensures var r := RenderSlots(old(voices[..]), globalGain, blockEnd - blockStart, ops);
        voices[..] == r.0 && left[blockStart..blockEnd] == r.1 && right[blockStart..blockEnd] == r.1
      ensures forall k :: 0 <= k < left.Length && !(blockStart <= k < blockEnd) ==> left[k] == old(left[k])
      ensures forall k :: 0 <= k < right.Length && !(blockStart <= k < blockEnd) ==> right[k] == old(right[k])
    {
      ghost var slots, left0, right0 := voices[..], left[..], right[..];
      var blockLen := blockEnd - blockStart;
      for i := 0 to voices.Length
        invariant MixedUpTo(slots, left0, right0, i, globalGain, left, right, blockStart, blockEnd)
      {
        MixTurn(slots, left0, right0, i, globalGain, left, right, blockStart, blockEnd);
      }
      assert slots[..voices.Length] == slots;
      assert voices[..] == voices[..voices.Length];
      assert forall k :: 0 <= k < left.Length ==> left0[k] == old(left[k]);
      assert forall k :: 0 <= k < right.Length ==> right0[k] == old(right[k]);
    }

    /** The state of the voice loop after its first `i` turns: those slots
        are rendered and mixed into [blockStart, blockEnd) of both channels,
        the others are untouched, and outside that range nothing changed. */
    ghost predicate MixedUpTo(slots: seq<Slot<S>>, left0: seq<real>, right0: seq<real>, i: nat, globalGain: S,
                              left: array<real>, right: array<real>, blockStart: nat, blockEnd: nat)
      reads this, voices, left, right
    {
      && |slots| == voices.Length && i <= voices.Length
      && blockStart <= blockEnd <= left.Length == |left0| && blockEnd <= right.Length == |right0|
      && (forall j :: i <= j < voices.Length ==> voices[j] == slots[j])
      && voices[..i] == RenderSlots(slots[..i], globalGain, blockEnd - blockStart, ops).0
      && left[blockStart..blockEnd] == RenderSlots(slots[..i], globalGain, blockEnd - blockStart, ops).1
      && right[blockStart..blockEnd] == RenderSlots(slots[..i], globalGain, blockEnd - blockStart, ops).1
      && (forall j :: 0 <= j < left.Length && !(blockStart <= j < blockEnd) ==> left[j] == left0[j])
      && (forall j :: 0 <= j < right.Length && !(blockStart <= j < blockEnd) ==> right[j] == right0[j])
    }

    /** Turn `i` of the voice loop keeps `MixedUpTo`. */
    method MixTurn(ghost slots: seq<Slot<S>>, ghost left0: seq<real>, ghost right0: seq<real>, i: nat, globalGain: S,
                   left: array<real>, right: array<real>, blockStart: nat, blockEnd: nat)
      requires i < voices.Length && left != right
      requires MixedUpTo(slots, left0, right0, i, globalGain, left, right, blockStart, blockEnd)
      modifies voices, left, right
      ensures MixedUpTo(slots, left0, right0, i + 1, globalGain, left, right, blockStart, blockEnd)
    {
      var blockLen := blockEnd - blockStart;
      RenderSlotsSnoc(slots, i, globalGain, blockLen, ops);
      ghost var done := voices[..];
      MixSlot(i, globalGain, left, right, blockStart, blockEnd);
      UpdatePrefix(done, i, RenderedSlot(slots[i], blockLen, ops));
    }

    /** One turn of the voice loop: the voice in slot `i`, if any, is mixed
        into [blockStart, blockEnd) of both channels and advanced. */
    method MixSlot(i: nat, globalGain: S, left: array<real>, right: array<real>, blockStart: nat, blockEnd: nat)
      requires i < voices.Length
      requires left != right && blockStart <= blockEnd <= left.Length && blockEnd <= right.Length
      modifies voices, left, right
      ensures voices[..] == old(voices[..])[i := RenderedSlot(old(voices[i]), blockEnd - blockStart, ops)]
      ensures left[blockStart..blockEnd] == MixIn(old(left[blockStart..blockEnd]), old(voices[i]), globalGain, ops)
      ensures right[blockStart..blockEnd] == MixIn(old(right[blockStart..blockEnd]), old(voices[i]), globalGain, ops)
      ensures forall k :: 0 <= k < left.Length && !(blockStart <= k < blockEnd) ==> left[k] == old(left[k])
      ensures forall k :: 0 <= k < right.Length && !(blockStart <= k < blockEnd) ==> right[k] == old(right[k])
    {
      match voices[i] {
        case Some(v) =>
          var w := MixVoice(v, globalGain, left, right, blockStart, blockEnd);
          voices[i] := Some(w);
        case None =>
      }
    }

    /** The render part of a sub-block: zero both channels over
        [blockStart, blockEnd), take the global gain's block, and mix every
        live voice in. */
    method RenderBlock(left: array<real>, right: array<real>, blockStart: nat, blockEnd: nat)
      requires Valid() && left != right && blockStart <= blockEnd <= left.Length && blockEnd <= right.Length
      modifies this, voices, left, right
      ensures var r := SynthSpec.RenderBlock(old(Model()), blockEnd - blockStart, ops);
        Model() == r.0 && left[blockStart..blockEnd] == r.1 && right[blockStart..blockEnd] == r.1
      ensures forall k :: 0 <= k < left.Length && !(blockStart <= k < blockEnd) ==> left[k] == old(left[k])
      ensures forall k :: 0 <= k < right.Length && !(blockStart <= k < blockEnd) ==> right[k] == old(right[k])
    {
      ZeroBlock(left, right, blockStart, blockEnd);
      var globalGain := gain;
      gain := ops.advance(gain, blockEnd - blockStart);
      MixVoices(globalGain, left, right, blockStart, blockEnd);
    }

    /** The `'events` loop of the sub-block starting at `blockStart`: every
        pending event from `first` on that is due at the start is handled,
        and the sub-block is cut short at the next pending event's timing
        when that comes before `blockEnd`.  The first event left pending,
        the sub-block's end and the notices sent. */
    method HandleDueEvents(events: seq<NoteEvent>, first: nat, blockStart: nat, blockEnd: nat, h: Host)
      returns (next: nat, end: nat, sent: seq<NoteEvent>)
      requires Valid() && first <= |events| && h.sampleRate != 0.0
      modifies this, voices
      ensures next == Due(events, first, blockStart)
      ensures end == if next < |events| && Timing(events[next]) < blockEnd then Timing(events[next]) else blockEnd
      ensures (Model(), sent) == ApplyEvents(old(Model()), events[first..next], old(nextInternalVoiceId), h, ops)
    {
      ghost var st := Model();
      var thisSampleInternalVoiceIdStart := nextInternalVoiceId;
      next := first;
      end := blockEnd;
      sent := [];
      assert events[first..first] == [];
      while true
        invariant first <= next <= |events|
        invariant Due(events, next, blockStart) == Due(events, first, blockStart)
        invariant var a := ApplyEvents(st, events[first..next], thisSampleInternalVoiceIdStart, h, ops);
          Model() == a.0 && sent == a.1
        invariant end == blockEnd
        decreases |events| - next
      {
        if next < |events| && Timing(events[next]) <= blockStart {
          ApplyEventsSnoc(st, events, first, next, thisSampleInternalVoiceIdStart, h, ops);
          var s := HandleEvent(events[next], thisSampleInternalVoiceIdStart, h);
          sent := sent + s;
          next := next + 1;
        } else if next < |events| && Timing(events[next]) < blockEnd {
          end := Timing(events[next]);
          break;
        } else {
          break;
        }
      }
    }

    /** One turn of the `while block_start < num_samples` loop, for the
        sub-block from `blockStart` whose natural end is `blockEnd`: handle
        the due events, render, prune.  The first event left pending, the
        sub-block's end and the notices sent. */
    method ProcessBlock(left: array<real>, right: array<real>, events: seq<NoteEvent>, first: nat,
                        blockStart: nat, blockEnd: nat, h: Host)
      returns (next: nat, end: nat, sent: seq<NoteEvent>)
      requires Valid() && left != right && left.Length == right.Length && h.sampleRate != 0.0
      requires first <= |events| && blockStart < left.Length && blockEnd == NaturalEnd(blockStart, left.Length)
      modifies this, voices, left, right
      ensures next == Due(events, first, blockStart) && end == BlockEnd(events, next, blockStart, left.Length)
      ensures var b := BlockStep(old(Model()), events, SubBlock(blockStart, end, first, next), h, ops);
        && Model() == b.0 && sent == b.2
        && left[..end] == old(left[..blockStart]) + b.1 && right[..end] == old(right[..blockStart]) + b.1
    {
      ghost var st := Model();
      var s;
      next, end, s := HandleDueEvents(events, first, blockStart, blockEnd, h);
      ghost var d := SynthSpec.RenderBlock(Model(), end - blockStart, ops);
      ghost var p := PruneSlots(d.0.voices, end, ops);
      BlockStepParts(st, events, SubBlock(blockStart, end, first, next), h, ops, (Model(), s), d, p);
      var pruned := RenderAndPrune(left, right, blockStart, end);
      sent := s + pruned;
    }

    /** The part of a sub-block after its events: render [blockStart, end)
        after the samples already written, then prune the finished voices. */
    method RenderAndPrune(left: array<real>, right: array<real>, blockStart: nat, end: nat) returns (pruned: seq<NoteEvent>)
      requires Valid() && left != right && blockStart <= end <= left.Length && end <= right.Length
      modifies this, voices, left, right
      ensures var d := SynthSpec.RenderBlock(old(Model()), end - blockStart, ops);
        var p := PruneSlots(d.0.voices, end, ops);
        && Model() == d.0.(voices := p.0) && pruned == p.1
        && left[..end] == old(left[..blockStart]) + d.1 && right[..end] == old(right[..blockStart]) + d.1
    {
      ghost var left0 := left[..];
      ghost var right0 := right[..];
      RenderBlock(left, right, blockStart, end);
      ghost var d := SynthSpec.RenderBlock(old(Model()), end - blockStart, ops);
      Splice(left0, left[..], blockStart, end, d.1);
      Splice(right0, right[..], blockStart, end, d.1);
      pruned := PruneVoices(end);
    }

    /** `process(buffer, aux, context)` on the two output channels `left` and
        `right`, with the host's events for the buffer: the notices sent.
        Both channels end up holding the samples SynthSpec.Process
        computes, and the state is the one it computes. */
    method Process(left: array<real>, right: array<real>, events: seq<NoteEvent>, h: Host) returns (sent: seq<NoteEvent>)
      requires Valid() && left != right && left.Length == right.Length && h.sampleRate != 0.0
      modifies this, voices, left, right
      ensures var r := SynthSpec.Process(old(Model()), events, left.Length, h, ops);
        Model() == r.0 && left[..] == r.1 && right[..] == r.1 && sent == r.2
    {
      var numSamples := left.Length;
      ghost var st0 := Model();
      ghost var mix: seq<real> := [];
      sent := [];
      var nextEvent: nat := 0;
      var blockStart: nat := 0;
      var blockEnd: nat := Min(MAX_BLOCK_SIZE, numSamples);
      ghost var target := SynthSpec.Process(st0, events, numSamples, h, ops);
      assert mix + target.1 == target.1 && sent + target.2 == target.2;
      while blockStart < numSamples
        invariant nextEvent <= |events| && blockStart <= numSamples
        invariant blockEnd == NaturalEnd(blockStart, numSamples)
        invariant left[..blockStart] == mix && right[..blockStart] == mix
        invariant var rest := RunFrom(Model(), events, nextEvent, blockStart, numSamples, h, ops);
          target == (rest.0, mix + rest.1, sent + rest.2)
        decreases numSamples - blockStart
      {
        ghost var stBlock := Model();
        ghost var first := nextEvent;
        ProcessLoopStep(target, stBlock, events, first, blockStart, numSamples, mix, sent, h, ops);
        var s;
        nextEvent, blockEnd, s := ProcessBlock(left, right, events, nextEvent, blockStart, blockEnd, h);
        ghost var b := BlockStep(stBlock, events, SubBlock(blockStart, blockEnd, first, nextEvent), h, ops);
        sent := sent + s;
        mix := mix + b.1;
        blockStart := blockEnd;
        blockEnd := Min(blockStart + MAX_BLOCK_SIZE, numSamples);
      }
      assert left[..] == left[..numSamples] && right[..] == right[..numSamples];
    }
  }
}
