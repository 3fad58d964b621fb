/** The voice pool of lib.rs as values: a voice, the sequence of optional
    voice slots, and what each pool operation makes of that sequence.  The
    class in synth.dfy performs these operations in place on its array and
    is proved against the functions here. */
module VoicePool {
  import opened Basics
  import opened NoteEvents
  import opened SmootherInterface
  import opened Oscillator

  /** `NUM_VOICES`. */
  const NUM_VOICES: nat := 16

  /** `Voice`.  `voiceGain` is the optional per-voice gain override: the
      normalized offset it was created with and its own smoother. */
  datatype Voice<S> = Voice(
    voiceId: i32,
    channel: u8,
    note: u8,
    internalVoiceId: u64,
    velocitySqrt: real,
    phase: real,
    phaseDelta: real,
    releasing: bool,
    ampEnvelope: S,
    voiceGain: Option<(real, S)>)

  type Slot<S> = Option<Voice<S>>

  /** `Iterator::position`: the first index whose element satisfies `p`. */
  function Position<T>(s: seq<T>, p: T -> bool): (r: Option<nat>)
    ensures r.Some? ==> r.value < |s| && p(s[r.value]) && forall j :: 0 <= j < r.value ==> !p(s[j])
    ensures r.None? ==> forall j :: 0 <= j < |s| ==> !p(s[j])
  {
    if s == [] then None
    else if p(s[0]) then Some(0)
    else match Position(s[1..], p)
      case None => None
      case Some(i) => Some(i + 1)
  }

  /** The first free slot (`self.voices.iter().position(|voice| voice.is_none())`). */
  function FirstFree<S>(slots: seq<Slot<S>>): Option<nat> {
    Position(slots, (s: Slot<S>) => s.None?)
  }

  /** `get_voice_idx(voice_id)`: the first live voice carrying that id. */
  function GetVoiceIdx<S>(slots: seq<Slot<S>>, voiceId: i32): (r: Option<nat>)
    ensures r.Some? ==> r.value < |slots| && slots[r.value].Some? && slots[r.value].value.voiceId == voiceId
    ensures r.Some? ==> forall j :: 0 <= j < r.value ==> slots[j].None? || slots[j].value.voiceId != voiceId
    ensures r.None? ==> forall j :: 0 <= j < |slots| ==> slots[j].None? || slots[j].value.voiceId != voiceId
  {
    Position(slots, (s: Slot<S>) => s.Some? && s.value.voiceId == voiceId)
  }

  /** The slot `min_by_key(internal_voice_id)` picks in a full pool: one
      holding the smallest internal id, the first such when there are ties. */
  function Oldest<S>(slots: seq<Slot<S>>): (i: nat)
    requires |slots| > 0 && forall j :: 0 <= j < |slots| ==> slots[j].Some?
    ensures i < |slots|
    ensures forall j :: 0 <= j < |slots| ==> slots[i].value.internalVoiceId <= slots[j].value.internalVoiceId
    ensures forall j :: 0 <= j < i ==> slots[i].value.internalVoiceId < slots[j].value.internalVoiceId
    decreases |slots|
  {
    if |slots| == 1 then 0
    else
      var k := Oldest(slots[1..]) + 1;
      if slots[0].value.internalVoiceId <= slots[k].value.internalVoiceId then 0 else k
  }

  /** `compute_fallback_voice_id(note, channel)`: `note | channel << 16`;
      the two bytes do not overlap, so this is `note + channel * 2^16`. */
  function FallbackVoiceId(note: u8, channel: u8): (id: i32)
    ensures 0 <= id < 0x100_0000
    ensures id % 0x1_0000 == note as int && id / 0x1_0000 == channel as int
  {
    note as int + channel as int * 0x1_0000
  }

  /** Distinct (note, channel) pairs give distinct fallback ids. */
  lemma FallbackVoiceIdInjective(n1: u8, c1: u8, n2: u8, c2: u8)
    ensures FallbackVoiceId(n1, c1) == FallbackVoiceId(n2, c2) <==> n1 == n2 && c1 == c2
  {
  }

  /** The voice `start_voice` builds before `process` fills in its velocity,
      phase, increment and envelope. */
  function NewVoice<S>(voiceId: Option<i32>, channel: u8, note: u8, internalVoiceId: u64, none: S): (r: Voice<S>)
    ensures r.voiceId == voiceId.GetOr(FallbackVoiceId(note, channel)) && r.channel == channel && r.note == note
    ensures r.internalVoiceId == internalVoiceId && !r.releasing && r.voiceGain.None?
  {
    Voice(voiceId.GetOr(FallbackVoiceId(note, channel)), channel, note, internalVoiceId,
          1.0, 0.0, 0.0, false, none, None)
  }

  /** The slot `start_voice` overwrites: the lowest free slot when there is
      one, otherwise the oldest voice's slot. */
  function StartSlot<S>(slots: seq<Slot<S>>): (i: nat)
    requires |slots| > 0
    ensures i < |slots|
    ensures (exists j :: 0 <= j < |slots| && slots[j].None?) ==>
      slots[i].None? && forall j :: 0 <= j < i ==> slots[j].Some?
    ensures (forall j :: 0 <= j < |slots| ==> slots[j].Some?) ==>
      forall j :: 0 <= j < |slots| ==> slots[i].value.internalVoiceId <= slots[j].value.internalVoiceId
  {
    match FirstFree(slots)
    case Some(i) => i
    case None => Oldest(slots)
  }

  /** The termination notice for a voice. */
  function TerminatedEvent<S>(timing: u32, v: Voice<S>): (r: NoteEvent)
    ensures r.VoiceTerminated? && r.timing == timing
    ensures r.voiceId == Some(v.voiceId) && r.channel == v.channel && r.note == v.note
  {
    VoiceTerminated(timing, Some(v.voiceId), v.channel, v.note)
  }

  /** What `start_voice` sends: nothing when a slot is free, otherwise the
      stolen voice's termination timed at the note's sample offset. */
  function StealEvents<S>(slots: seq<Slot<S>>, sampleOffset: u32): (sent: seq<NoteEvent>)
    requires |slots| > 0
    ensures FirstFree(slots).Some? ==> sent == []
    ensures FirstFree(slots).None? ==> sent == [TerminatedEvent(sampleOffset, slots[StartSlot(slots)].value)]
  {
    if FirstFree(slots).Some? then [] else [TerminatedEvent(sampleOffset, slots[Oldest(slots)].value)]
  }

  /** The number of live voices. */
  function LiveCount<S>(slots: seq<Slot<S>>): (n: nat)
    ensures n <= |slots|
  {
    if slots == [] then 0 else (if slots[0].Some? then 1 else 0) + LiveCount(slots[1..])
  }

  lemma {:induction false} LiveCountUpdate<S>(slots: seq<Slot<S>>, i: nat, x: Slot<S>)
    requires i < |slots|
    ensures LiveCount(slots[i := x]) ==
      LiveCount(slots) - (if slots[i].Some? then 1 else 0) + (if x.Some? then 1 else 0)
  {
    if i > 0 {
      LiveCountUpdate(slots[1..], i - 1, x);
      assert slots[i := x][1..] == slots[1..][i - 1 := x];
    }
  }

  lemma {:induction false} LiveCountFull<S>(slots: seq<Slot<S>>)
    requires forall j :: 0 <= j < |slots| ==> slots[j].Some?
    ensures LiveCount(slots) == |slots|
  {
    if slots != [] {
      LiveCountFull(slots[1..]);
    }
  }

  /** Starting a voice adds one live voice when a slot is free and keeps the
      pool full when it steals; either way the pool never holds more than
      its capacity. */
  lemma StartVoiceLiveCount<S>(slots: seq<Slot<S>>, v: Voice<S>)
    requires |slots| > 0
    ensures FirstFree(slots).Some? ==> LiveCount(slots[StartSlot(slots) := Some(v)]) == LiveCount(slots) + 1
    ensures FirstFree(slots).None? ==> LiveCount(slots[StartSlot(slots) := Some(v)]) == LiveCount(slots) == |slots|
  {
    LiveCountUpdate(slots, StartSlot(slots), Some(v));
    if FirstFree(slots).None? {
      LiveCountFull(slots);
    }
  }

  /** Every voice in `after` was in the same slot of `before`, with the
      same internal id: the operation starts no voice and moves none. */
  predicate Retains<S>(before: seq<Slot<S>>, after: seq<Slot<S>>) {
    && |before| == |after|
    && forall i :: 0 <= i < |after| && after[i].Some? ==>
         before[i].Some? && after[i].value.internalVoiceId == before[i].value.internalVoiceId
  }

  /** The match guard of `start_release_for_voices` and `choke_voices`. */
  predicate Matches<S>(s: Slot<S>, voiceId: Option<i32>, channel: u8, note: u8) {
    s.Some? && (voiceId == Some(s.value.voiceId) || (channel == s.value.channel && note == s.value.note))
  }

  /** A voice after `start_release_for_voices` has matched it: releasing,
      its envelope restyled to Exponential(release time) and retargeted to 0. */
  function Released<S>(v: Voice<S>, releaseMs: real, sampleRate: real, ops: SmootherOps<S>): (r: Voice<S>)
    ensures r.releasing && r == v.(releasing := true, ampEnvelope := r.ampEnvelope)
    ensures r.ampEnvelope == ops.setTarget(ops.restyleExponential(v.ampEnvelope, releaseMs), sampleRate, 0.0)
  {
    v.(releasing := true,
       ampEnvelope := ops.setTarget(ops.restyleExponential(v.ampEnvelope, releaseMs), sampleRate, 0.0))
  }

  /** The first slot the release and choke loops match. */
  function FirstMatch<S>(slots: seq<Slot<S>>, voiceId: Option<i32>, channel: u8, note: u8): (r: Option<nat>)
    ensures r.Some? ==> r.value < |slots| && Matches(slots[r.value], voiceId, channel, note)
    ensures r.Some? ==> forall j :: 0 <= j < r.value ==> !Matches(slots[j], voiceId, channel, note)
    ensures r.None? ==> forall j :: 0 <= j < |slots| ==> !Matches(slots[j], voiceId, channel, note)
  {
    Position(slots, (s: Slot<S>) => Matches(s, voiceId, channel, note))
  }

  /** A slot once the release loop without a voice id has passed it. */
  function ReleasedSlot<S>(s: Slot<S>, channel: u8, note: u8, releaseMs: real, sampleRate: real,
                           ops: SmootherOps<S>): (r: Slot<S>)
    ensures r.Some? == s.Some?
    ensures Matches(s, None, channel, note) ==> r == Some(Released(s.value, releaseMs, sampleRate, ops))
    ensures !Matches(s, None, channel, note) ==> r == s
  {
    if Matches(s, None, channel, note) then Some(Released(s.value, releaseMs, sampleRate, ops)) else s
  }

  /** `start_release_for_voices`: with a voice id the loop releases the
      first slot matching the id or (channel, note) and returns; without one
      it releases every slot matching (channel, note).  No slot is cleared
      or filled, and every slot is either left alone or is a matching voice,
      released. */
  function ReleaseSlots<S>(slots: seq<Slot<S>>, voiceId: Option<i32>, channel: u8, note: u8,
                           releaseMs: real, sampleRate: real, ops: SmootherOps<S>): (r: seq<Slot<S>>)
    ensures Retains(slots, r)
    ensures forall i :: 0 <= i < |slots| ==> r[i].Some? == slots[i].Some?
    ensures forall i :: 0 <= i < |slots| ==>
      r[i] == slots[i]
      || (Matches(slots[i], voiceId, channel, note) && r[i] == Some(Released(slots[i].value, releaseMs, sampleRate, ops)))
  {
    match voiceId
    case Some(_) =>
      (match FirstMatch(slots, voiceId, channel, note)
       case None => slots
       case Some(i) => slots[i := Some(Released(slots[i].value, releaseMs, sampleRate, ops))])
    case None =>
      seq(|slots|, i requires 0 <= i < |slots| => ReleasedSlot(slots[i], channel, note, releaseMs, sampleRate, ops))
  }

  /** Two pools with live voices in the same slots hold as many voices. */
  lemma {:induction false} LiveCountSameShape<S>(a: seq<Slot<S>>, b: seq<Slot<S>>)
    requires |a| == |b| && forall i :: 0 <= i < |a| ==> a[i].Some? == b[i].Some?
    ensures LiveCount(a) == LiveCount(b)
  {
    if a != [] {
      assert forall i :: 0 <= i < |a| - 1 ==> a[1..][i] == a[i + 1] && b[1..][i] == b[i + 1];
      LiveCountSameShape(a[1..], b[1..]);
    }
  }

  /** A `NoteOff` without a voice id leaves every voice playing (channel,
      note) releasing towards 0; with one, only the first match changes.
      Either way the pool keeps all its voices. */
  lemma ReleaseReachesMatches<S>(slots: seq<Slot<S>>, voiceId: Option<i32>, channel: u8, note: u8,
                                 releaseMs: real, sampleRate: real, ops: SmootherOps<S>)
    ensures var r := ReleaseSlots(slots, voiceId, channel, note, releaseMs, sampleRate, ops);
      && LiveCount(r) == LiveCount(slots)
      && (voiceId.None? ==> forall i :: 0 <= i < |slots| && Matches(slots[i], None, channel, note) ==>
            r[i].value.releasing && r[i].value.ampEnvelope ==
              ops.setTarget(ops.restyleExponential(slots[i].value.ampEnvelope, releaseMs), sampleRate, 0.0))
      && (voiceId.Some? ==> forall i :: 0 <= i < |slots| && r[i] != slots[i] ==>
            FirstMatch(slots, voiceId, channel, note) == Some(i))
      && (voiceId.Some? && FirstMatch(slots, voiceId, channel, note).Some? ==>
            var m := FirstMatch(slots, voiceId, channel, note).value;
            r == slots[m := Some(Released(slots[m].value, releaseMs, sampleRate, ops))])
      && (FirstMatch(slots, voiceId, channel, note).None? ==> r == slots)
  {
    LiveCountSameShape(ReleaseSlots(slots, voiceId, channel, note, releaseMs, sampleRate, ops), slots);
  }

  /** The termination notice `choke_voices` sends: the voice's id with the
      event's own channel and note. */
  function ChokeNotice<S>(sampleOffset: u32, v: Voice<S>, channel: u8, note: u8): (r: NoteEvent)
    ensures r.VoiceTerminated? && r.timing == sampleOffset
    ensures r.voiceId == Some(v.voiceId) && r.channel == channel && r.note == note
  {
    VoiceTerminated(sampleOffset, Some(v.voiceId), channel, note)
  }

  /** Every notice is a termination timed `sampleOffset` carrying `channel`
      and `note`. */
  predicate ChokeNotices(sent: seq<NoteEvent>, sampleOffset: u32, channel: u8, note: u8) {
    forall k :: 0 <= k < |sent| ==>
      sent[k].VoiceTerminated? && sent[k].timing == sampleOffset && sent[k].channel == channel && sent[k].note == note
  }

  /** The choke loop without a voice id, slot by slot in index order: every
      (channel, note) match is cleared and reported. */
  function ChokeAll<S>(slots: seq<Slot<S>>, sampleOffset: u32, channel: u8, note: u8)
    : (r: (seq<Slot<S>>, seq<NoteEvent>))
    ensures Retains(slots, r.0) && |r.1| <= |slots|
    ensures ChokeNotices(r.1, sampleOffset, channel, note)
    decreases |slots|
  {
    if slots == [] then ([], [])
    else
      var p := ChokeAll(slots[..|slots| - 1], sampleOffset, channel, note);
      var last := slots[|slots| - 1];
      assert forall i :: 0 <= i < |slots| - 1 ==> slots[i] == slots[..|slots| - 1][i];
      if Matches(last, None, channel, note) then
        (p.0 + [None], p.1 + [ChokeNotice(sampleOffset, last.value, channel, note)])
      else
        (p.0 + [last], p.1)
  }

  /** `choke_voices`: with a voice id the first slot matching the id or
      (channel, note) is cleared and reported and the loop returns; without
      one every (channel, note) match is. */
  function ChokeSlots<S>(slots: seq<Slot<S>>, sampleOffset: u32, voiceId: Option<i32>, channel: u8, note: u8)
    : (r: (seq<Slot<S>>, seq<NoteEvent>))
    ensures Retains(slots, r.0) && |r.1| <= |slots|
    ensures ChokeNotices(r.1, sampleOffset, channel, note)
    ensures voiceId.Some? ==> |r.1| <= 1
  {
    match voiceId
    case Some(_) =>
      (match FirstMatch(slots, voiceId, channel, note)
       case None => (slots, [])
       case Some(i) => (slots[i := None], [ChokeNotice(sampleOffset, slots[i].value, channel, note)]))
    case None => ChokeAll(slots, sampleOffset, channel, note)
  }

  /** The indices of the slots matching (channel, note), in increasing
      order: every listed index matches and every match is listed. */
  function MatchIndices<S>(slots: seq<Slot<S>>, channel: u8, note: u8): (r: seq<nat>)
    ensures forall k :: 0 <= k < |r| ==> r[k] < |slots| && Matches(slots[r[k]], None, channel, note)
    ensures forall k, l :: 0 <= k < l < |r| ==> r[k] < r[l]
    ensures forall i :: 0 <= i < |slots| && Matches(slots[i], None, channel, note) ==> i in r
    decreases |slots|
  {
    if slots == [] then []
    else
      var init := slots[..|slots| - 1];
      var p := MatchIndices(init, channel, note);
      assert forall i :: 0 <= i < |init| ==> init[i] == slots[i];
      p + if Matches(slots[|slots| - 1], None, channel, note) then [|slots| - 1] else []
  }

  /** Without a voice id, every (channel, note) match is cleared, nothing
      else changes, no live match is left, and there is one notice per
      cleared voice. */
  lemma {:induction false} ChokeWithoutIdClearsAllMatches<S>(slots: seq<Slot<S>>, sampleOffset: u32, channel: u8, note: u8)
    ensures var r := ChokeSlots(slots, sampleOffset, None, channel, note);
      && (forall i :: 0 <= i < |slots| ==> r.0[i] == if Matches(slots[i], None, channel, note) then None else slots[i])
      && (forall i :: 0 <= i < |slots| ==> !Matches(r.0[i], None, channel, note))
      && |r.1| == |MatchIndices(slots, channel, note)|
    decreases |slots|
  {
    if slots != [] {
      var init := slots[..|slots| - 1];
      ChokeWithoutIdClearsAllMatches(init, sampleOffset, channel, note);
      assert forall i :: 0 <= i < |init| ==> init[i] == slots[i];
    }
  }

  /** Without a voice id, the `k`-th notice reports the voice of the `k`-th
      matching slot in index order, with its own voice id. */
  lemma {:induction false} ChokeWithoutIdReportsClearedVoices<S>(slots: seq<Slot<S>>, sampleOffset: u32, channel: u8, note: u8)
    ensures var r := ChokeSlots(slots, sampleOffset, None, channel, note);
      var m := MatchIndices(slots, channel, note);
      |r.1| == |m| && forall k :: 0 <= k < |m| ==> r.1[k] == ChokeNotice(sampleOffset, slots[m[k]].value, channel, note)
    decreases |slots|
  {
    if slots != [] {
      var init := slots[..|slots| - 1];
      ChokeWithoutIdReportsClearedVoices(init, sampleOffset, channel, note);
      assert forall i :: 0 <= i < |init| ==> init[i] == slots[i];
    }
  }

  /** With a voice id, at most the first match is cleared, and it is
      reported with the voice's own id: the first match by id or by
      (channel, note) is cleared with its one notice, and without a match
      nothing changes and nothing is sent. */
  lemma ChokeWithIdClearsFirstMatch<S>(slots: seq<Slot<S>>, sampleOffset: u32, voiceId: i32, channel: u8, note: u8)
    ensures var r := ChokeSlots(slots, sampleOffset, Some(voiceId), channel, note);
      && (forall i :: 0 <= i < |slots| && r.0[i] != slots[i] ==>
            FirstMatch(slots, Some(voiceId), channel, note) == Some(i) && r.0[i].None?
            && r.1 == [ChokeNotice(sampleOffset, slots[i].value, channel, note)])
      && LiveCount(r.0) == LiveCount(slots) - |r.1|
      && (FirstMatch(slots, Some(voiceId), channel, note).Some? ==>
            var m := FirstMatch(slots, Some(voiceId), channel, note).value;
            r == (slots[m := None], [VoiceTerminated(sampleOffset, Some(slots[m].value.voiceId), channel, note)]))
      && (FirstMatch(slots, Some(voiceId), channel, note).None? ==> r == (slots, []))
  {
    var r := ChokeSlots(slots, sampleOffset, Some(voiceId), channel, note);
    match FirstMatch(slots, Some(voiceId), channel, note)
    case None =>
    case Some(i) =>
      LiveCountUpdate(slots, i, None);
  }

  /** The pruning guard: a releasing voice whose envelope's last value is 0. */
  predicate Prunable<S>(s: Slot<S>, ops: SmootherOps<S>)
    ensures Prunable(s, ops) ==> s.Some? && s.value.releasing
  {
    s.Some? && s.value.releasing && ops.previousValue(s.value.ampEnvelope) == 0.0
  }

  /** The pruning loop after a sub-block, slot by slot in index order:
      clears prunable slots, reporting each voice's termination at the end
      of the sub-block. */
  function PruneSlots<S>(slots: seq<Slot<S>>, blockEnd: nat, ops: SmootherOps<S>): (r: (seq<Slot<S>>, seq<NoteEvent>))
    ensures Retains(slots, r.0) && |r.1| <= |slots|
    ensures forall k :: 0 <= k < |r.1| ==> r.1[k].VoiceTerminated? && r.1[k].timing == UsizeAsU32(blockEnd)
    decreases |slots|
  {
    if slots == [] then ([], [])
    else
      var p := PruneSlots(slots[..|slots| - 1], blockEnd, ops);
      var last := slots[|slots| - 1];
      assert forall i :: 0 <= i < |slots| - 1 ==> slots[i] == slots[..|slots| - 1][i];
      if Prunable(last, ops) then
        (p.0 + [None], p.1 + [TerminatedEvent(UsizeAsU32(blockEnd), last.value)])
      else
        (p.0 + [last], p.1)
  }

  /** The number of prunable slots. */
  function PrunableCount<S>(slots: seq<Slot<S>>, ops: SmootherOps<S>): nat
    decreases |slots|
  {
    if slots == [] then 0
    else PrunableCount(slots[..|slots| - 1], ops) + (if Prunable(slots[|slots| - 1], ops) then 1 else 0)
  }

  /** `e` is the termination notice, timed `t`, of a prunable voice of `slots`. */
  predicate NamesPrunedVoice<S>(e: NoteEvent, slots: seq<Slot<S>>, t: u32, ops: SmootherOps<S>) {
    exists i :: 0 <= i < |slots| && Prunable(slots[i], ops) && e == TerminatedEvent(t, slots[i].value)
  }

  /** Pruning clears exactly the prunable slots (so a voice that is not
      releasing is never pruned), leaves none prunable, and sends one notice
      per cleared slot, each naming a pruned voice and timed at the end of
      the sub-block. */
  lemma {:induction false} PruneClearsExactlyPrunable<S>(slots: seq<Slot<S>>, blockEnd: nat, ops: SmootherOps<S>)
    ensures var r := PruneSlots(slots, blockEnd, ops);
      && (forall i :: 0 <= i < |slots| ==> r.0[i] == if Prunable(slots[i], ops) then None else slots[i])
      && (forall i :: 0 <= i < |slots| ==> !Prunable(r.0[i], ops))
      && |r.1| == PrunableCount(slots, ops)
      && (forall k :: 0 <= k < |r.1| ==> NamesPrunedVoice(r.1[k], slots, UsizeAsU32(blockEnd), ops))
    decreases |slots|
  {
    if slots != [] {
      var init := slots[..|slots| - 1];
      var n := |slots| - 1;
      PruneClearsExactlyPrunable(init, blockEnd, ops);
      assert forall i :: 0 <= i < |init| ==> init[i] == slots[i];
      var r := PruneSlots(slots, blockEnd, ops);
      var p := PruneSlots(init, blockEnd, ops);
      forall k | 0 <= k < |r.1|
        ensures NamesPrunedVoice(r.1[k], slots, UsizeAsU32(blockEnd), ops)
      {
        if k < |p.1| {
          assert r.1[k] == p.1[k];
          var i :| 0 <= i < |init| && Prunable(init[i], ops) && p.1[k] == TerminatedEvent(UsizeAsU32(blockEnd), init[i].value);
          assert Prunable(slots[i], ops) && r.1[k] == TerminatedEvent(UsizeAsU32(blockEnd), slots[i].value);
        } else {
          assert Prunable(slots[n], ops) && r.1[k] == TerminatedEvent(UsizeAsU32(blockEnd), slots[n].value);
        }
      }
    }
  }

  /** Each prunable voice's termination is among the notices. */
  lemma {:induction false} PruneNotifies<S>(slots: seq<Slot<S>>, blockEnd: nat, ops: SmootherOps<S>, i: nat)
    requires i < |slots| && Prunable(slots[i], ops)
    ensures TerminatedEvent(UsizeAsU32(blockEnd), slots[i].value) in PruneSlots(slots, blockEnd, ops).1
    decreases |slots|
  {
    var init := slots[..|slots| - 1];
    if i < |init| {
      assert init[i] == slots[i];
      PruneNotifies(init, blockEnd, ops, i);
    }
  }

  /** A `PolyModulation` event applied to a live voice: for the gain id the
      voice gets a gain override (created with this event's offset and a
      copy of the global gain smoother if it had none, otherwise keeping its
      own offset); that smoother is reset to the target when the voice was
      started in the current sub-block and retargeted otherwise.  Any other
      id is ignored. */
  function PolyModulated<S>(v: Voice<S>, polyModulationId: u32, normalizedOffset: real, targetPlainValue: real,
                            blockFirstId: u64, sampleRate: real, globalGain: S, ops: SmootherOps<S>): (r: Voice<S>)
    ensures polyModulationId != GAIN_POLY_MOD_ID ==> r == v
    ensures polyModulationId == GAIN_POLY_MOD_ID ==>
      && r.voiceGain.Some? && r == v.(voiceGain := r.voiceGain)
      && r.voiceGain.value.0 == (if v.voiceGain.Some? then v.voiceGain.value.0 else normalizedOffset)
    ensures polyModulationId == GAIN_POLY_MOD_ID && v.internalVoiceId >= blockFirstId ==>
      r.voiceGain.value.1 == ops.reset(v.voiceGain.GetOr((normalizedOffset, globalGain)).1, targetPlainValue)
    ensures polyModulationId == GAIN_POLY_MOD_ID && v.internalVoiceId < blockFirstId ==>
      r.voiceGain.value.1 == ops.setTarget(v.voiceGain.GetOr((normalizedOffset, globalGain)).1, sampleRate, targetPlainValue)
  {
    if polyModulationId != GAIN_POLY_MOD_ID then v
    else
      var gain := v.voiceGain.GetOr((normalizedOffset, globalGain));
      var smoother :=
        if v.internalVoiceId >= blockFirstId then ops.reset(gain.1, targetPlainValue)
        else ops.setTarget(gain.1, sampleRate, targetPlainValue);
      v.(voiceGain := Some((gain.0, smoother)))
  }

  /** A `MonoAutomation` event applied to a live voice: for the gain id a
      voice with a gain override retargets it to the plain value of the
      automated value plus its own offset; other voices and ids are left
      alone. */
  function MonoAutomated<S>(v: Voice<S>, polyModulationId: u32, normalizedValue: real, sampleRate: real,
                            previewPlain: real -> real, ops: SmootherOps<S>): (r: Voice<S>)
    ensures polyModulationId != GAIN_POLY_MOD_ID || v.voiceGain.None? ==> r == v
    ensures polyModulationId == GAIN_POLY_MOD_ID && v.voiceGain.Some? ==>
      && r.voiceGain.Some? && r == v.(voiceGain := r.voiceGain)
      && r.voiceGain.value.0 == v.voiceGain.value.0
      && r.voiceGain.value.1 == ops.setTarget(v.voiceGain.value.1, sampleRate, previewPlain(normalizedValue + v.voiceGain.value.0))
  {
    if polyModulationId != GAIN_POLY_MOD_ID || v.voiceGain.None? then v
    else
      var (offset, smoother) := v.voiceGain.value;
      v.(voiceGain := Some((offset, ops.setTarget(smoother, sampleRate, previewPlain(normalizedValue + offset)))))
  }

  /** The `PolyModulation` arm of the event loop: the voice `get_voice_idx`
      finds for the event's voice id is modulated, if there is one. */
  function PolyModulateSlots<S>(slots: seq<Slot<S>>, voiceId: i32, polyModulationId: u32, normalizedOffset: real,
                                targetPlainValue: real, blockFirstId: u64, sampleRate: real, globalGain: S,
                                ops: SmootherOps<S>): (r: seq<Slot<S>>)
    ensures Retains(slots, r)
    ensures forall i :: 0 <= i < |slots| ==> r[i].Some? == slots[i].Some?
    ensures forall i :: 0 <= i < |slots| && (slots[i].None? || slots[i].value.voiceId != voiceId) ==> r[i] == slots[i]
  {
    match GetVoiceIdx(slots, voiceId)
    case None => slots
    case Some(i) =>
      slots[i := Some(PolyModulated(slots[i].value, polyModulationId, normalizedOffset, targetPlainValue,
                                    blockFirstId, sampleRate, globalGain, ops))]
  }

  /** The voice `get_voice_idx` finds is the one modulated, and only it;
      without such a voice nothing changes. */
  lemma PolyModulateReachesFoundVoice<S>(slots: seq<Slot<S>>, voiceId: i32, polyModulationId: u32, normalizedOffset: real,
                                         targetPlainValue: real, blockFirstId: u64, sampleRate: real, globalGain: S,
                                         ops: SmootherOps<S>)
    ensures var r := PolyModulateSlots(slots, voiceId, polyModulationId, normalizedOffset, targetPlainValue,
                                       blockFirstId, sampleRate, globalGain, ops);
      && (GetVoiceIdx(slots, voiceId).Some? ==>
            var i := GetVoiceIdx(slots, voiceId).value;
            r == slots[i := Some(PolyModulated(slots[i].value, polyModulationId, normalizedOffset, targetPlainValue,
                                               blockFirstId, sampleRate, globalGain, ops))])
      && (GetVoiceIdx(slots, voiceId).None? ==> r == slots)
      && (polyModulationId != GAIN_POLY_MOD_ID ==> r == slots)
  {
    match GetVoiceIdx(slots, voiceId)
    case None =>
    case Some(i) =>
      if polyModulationId != GAIN_POLY_MOD_ID {
        assert slots[i := Some(slots[i].value)] == slots;
      }
  }

  /** The `MonoAutomation` arm of the event loop: every live voice is
      automated. */
  function MonoAutomateSlots<S>(slots: seq<Slot<S>>, polyModulationId: u32, normalizedValue: real, sampleRate: real,
                                previewPlain: real -> real, ops: SmootherOps<S>): (r: seq<Slot<S>>)
    ensures Retains(slots, r)
    ensures forall i :: 0 <= i < |slots| ==> r[i].Some? == slots[i].Some?
    ensures forall i :: 0 <= i < |slots| && slots[i].Some? ==>
      r[i] == Some(MonoAutomated(slots[i].value, polyModulationId, normalizedValue, sampleRate, previewPlain, ops))
  {
    seq(|slots|, i requires 0 <= i < |slots| =>
      match slots[i]
      case None => None
      case Some(v) => Some(MonoAutomated(v, polyModulationId, normalizedValue, sampleRate, previewPlain, ops)))
  }

  /** The gain value a voice uses for sample `k` of a sub-block: its own
      override's, or the global gain's. */
  function GainAt<S>(v: Voice<S>, globalGain: S, k: nat, ops: SmootherOps<S>): (r: real)
    ensures v.voiceGain.Some? ==> r == ops.valueAt(v.voiceGain.value.1, k)
    ensures v.voiceGain.None? ==> r == ops.valueAt(globalGain, k)
  {
    match v.voiceGain
    case Some(g) => ops.valueAt(g.1, k)
    case None => ops.valueAt(globalGain, k)
  }

  /** The amplitude of a voice at sample `k` of a sub-block: square-rooted
      velocity times gain times envelope. */
  function Amplitude<S>(v: Voice<S>, globalGain: S, k: nat, ops: SmootherOps<S>): (r: real)
    ensures ops.valueAt(v.ampEnvelope, k) == 0.0 ==> r == 0.0
  {
    v.velocitySqrt * GainAt(v, globalGain, k, ops) * ops.valueAt(v.ampEnvelope, k)
  }

  /** What a voice adds to sample `k` of a sub-block. */
  function VoiceSample<S>(v: Voice<S>, globalGain: S, k: nat, ops: SmootherOps<S>): (r: real)
    ensures ops.valueAt(v.ampEnvelope, k) == 0.0 ==> r == 0.0
  {
    TriangleWave(PhaseAfter(v.phase, v.phaseDelta, k)) * Amplitude(v, globalGain, k, ops)
  }

  /** A voice after rendering `n` samples: phase advanced, envelope and
      gain override smoothers advanced by one block of `n`. */
  function Rendered<S>(v: Voice<S>, n: nat, ops: SmootherOps<S>): (r: Voice<S>)
    ensures r == v.(phase := r.phase, ampEnvelope := r.ampEnvelope, voiceGain := r.voiceGain)
    ensures r.phase == PhaseAfter(v.phase, v.phaseDelta, n) && r.ampEnvelope == ops.advance(v.ampEnvelope, n)
    ensures r.voiceGain.Some? == v.voiceGain.Some?
    ensures v.voiceGain.Some? ==> r.voiceGain.value == (v.voiceGain.value.0, ops.advance(v.voiceGain.value.1, n))
  {
    v.(phase := PhaseAfter(v.phase, v.phaseDelta, n),
       ampEnvelope := ops.advance(v.ampEnvelope, n),
       voiceGain := match v.voiceGain
         case Some(g) => Some((g.0, ops.advance(g.1, n)))
         case None => None)
  }

  function RenderedSlot<S>(s: Slot<S>, n: nat, ops: SmootherOps<S>): Slot<S> {
    match s
    case None => None
    case Some(v) => Some(Rendered(v, n, ops))
  }

  /** The voice loop of a sub-block of `n` samples, slot by slot in index
      order: the rendered slots and the mix, which starts at zero and gets
      each live voice's samples added in turn. */
  function RenderSlots<S>(slots: seq<Slot<S>>, globalGain: S, n: nat, ops: SmootherOps<S>): (r: (seq<Slot<S>>, seq<real>))
    ensures |r.0| == |slots| && |r.1| == n
    ensures forall i :: 0 <= i < |slots| ==> r.0[i] == RenderedSlot(slots[i], n, ops)
    ensures Retains(slots, r.0)
    decreases |slots|
  {
    if slots == [] then ([], seq(n, k => 0.0))
    else
      var p := RenderSlots(slots[..|slots| - 1], globalGain, n, ops);
      var last := slots[|slots| - 1];
      assert forall i :: 0 <= i < |slots| - 1 ==> slots[i] == slots[..|slots| - 1][i];
      (p.0 + [RenderedSlot(last, n, ops)], MixIn(p.1, last, globalGain, ops))
  }

  /** The mix after slot `s` is added in: unchanged for an empty slot, each
      sample raised by the voice's for a live one. */
  function MixIn<S>(mix: seq<real>, s: Slot<S>, globalGain: S, ops: SmootherOps<S>): (r: seq<real>)
    ensures |r| == |mix|
    ensures s.None? ==> r == mix
    ensures s.Some? ==> forall k :: 0 <= k < |mix| ==> r[k] == mix[k] + VoiceSample(s.value, globalGain, k, ops)
  {
    match s
    case None => mix
    case Some(v) => seq(|mix|, k requires 0 <= k < |mix| => mix[k] + VoiceSample(v, globalGain, k, ops))
  }

  /** `now` is `before` with the voice's first `count` samples added from
      index `start` on, and nothing else changed. */
  predicate Raised<S>(now: seq<real>, before: seq<real>, start: nat, count: nat, v: Voice<S>, globalGain: S,
                      ops: SmootherOps<S>)
  {
    && |now| == |before|
    && forall k :: 0 <= k < |now| ==>
         now[k] == if start <= k < start + count then before[k] + VoiceSample(v, globalGain, k - start, ops) else before[k]
  }

  /** Adding the next sample raises one more index. */
  lemma RaisedStep<S>(now: seq<real>, before: seq<real>, start: nat, count: nat, v: Voice<S>, globalGain: S,
                      ops: SmootherOps<S>)
    requires Raised(now, before, start, count, v, globalGain, ops) && start + count < |now|
    ensures Raised(now[start + count := now[start + count] + VoiceSample(v, globalGain, count, ops)],
                   before, start, count + 1, v, globalGain, ops)
  {
  }

  /** The voice loop one slot further. */
  lemma RenderSlotsSnoc<S>(slots: seq<Slot<S>>, i: nat, globalGain: S, n: nat, ops: SmootherOps<S>)
    requires i < |slots|
    ensures var p := RenderSlots(slots[..i], globalGain, n, ops);
      RenderSlots(slots[..i + 1], globalGain, n, ops) ==
        (p.0 + [RenderedSlot(slots[i], n, ops)], MixIn(p.1, slots[i], globalGain, ops))
  {
    assert slots[..i + 1][..i] == slots[..i];
  }

  /** A voice whose phase and increment lie in [0, 1) and whose amplitude
      stays within [-a, a] contributes samples within [-a, a]. */
  lemma VoiceSampleBounded<S>(v: Voice<S>, globalGain: S, n: nat, a: real, ops: SmootherOps<S>, k: nat)
    requires 0.0 <= v.phase < 1.0 && 0.0 <= v.phaseDelta < 1.0
    requires -a <= Amplitude(v, globalGain, k, ops) <= a
    ensures -a <= VoiceSample(v, globalGain, k, ops) <= a
  {
    PhaseStaysWrapped(v.phase, v.phaseDelta, k);
    var t := TriangleWave(PhaseAfter(v.phase, v.phaseDelta, k));
    var m := Amplitude(v, globalGain, k, ops);
    assert VoiceSample(v, globalGain, k, ops) == t * m;
    if m >= 0.0 {
      assert -m <= t * m <= m;
    } else {
      assert m <= t * m <= -m;
    }
  }

  /** The voices a sub-block may render: phase and increment in [0, 1), and
      amplitude within [-a, a] at each of the `n` samples. */
  predicate Tame<S>(s: Slot<S>, globalGain: S, n: nat, a: real, ops: SmootherOps<S>) {
    s.Some? ==>
      && 0.0 <= s.value.phase < 1.0 && 0.0 <= s.value.phaseDelta < 1.0
      && forall k :: 0 <= k < n ==> -a <= Amplitude(s.value, globalGain, k, ops) <= a
  }

  /** `count` voices' worth of the amplitude bound `a`. */
  function Bound(count: nat, a: real): real { count as real * a }

  /** Every sample of `mix` lies within [-b, b]. */
  predicate Within(mix: seq<real>, b: real) {
    forall k :: 0 <= k < |mix| ==> -b <= mix[k] <= b
  }

  lemma BoundStep(count: nat, a: real)
    ensures Bound(count + 1, a) == Bound(count, a) + a
  {
  }

  /** The mix of a sub-block is bounded by the number of live voices times
      the per-voice amplitude bound. */
  lemma {:induction false} MixBounded<S>(slots: seq<Slot<S>>, globalGain: S, n: nat, a: real, ops: SmootherOps<S>)
    requires a >= 0.0
    requires forall i :: 0 <= i < |slots| ==> Tame(slots[i], globalGain, n, a, ops)
    ensures Within(RenderSlots(slots, globalGain, n, ops).1, Bound(LiveCount(slots), a))
    decreases |slots|
  {
    if slots == [] {
      assert Bound(0, a) == 0.0;
    } else {
      var init := slots[..|slots| - 1];
      var last := slots[|slots| - 1];
      assert forall i :: 0 <= i < |init| ==> init[i] == slots[i];
      MixBounded(init, globalGain, n, a, ops);
      MixStepBounded(slots, globalGain, n, a, ops);
    }
  }

  /** One more slot raises the mix bound by at most one voice's amplitude. */
  lemma MixStepBounded<S>(slots: seq<Slot<S>>, globalGain: S, n: nat, a: real, ops: SmootherOps<S>)
    requires a >= 0.0 && slots != []
    requires Tame(slots[|slots| - 1], globalGain, n, a, ops)
    requires Within(RenderSlots(slots[..|slots| - 1], globalGain, n, ops).1, Bound(LiveCount(slots[..|slots| - 1]), a))
    ensures Within(RenderSlots(slots, globalGain, n, ops).1, Bound(LiveCount(slots), a))
  {
    var init := slots[..|slots| - 1];
    var last := slots[|slots| - 1];
    LiveCountSplit(init, last);
    assert init + [last] == slots;
    var p := RenderSlots(init, globalGain, n, ops).1;
    var mix := RenderSlots(slots, globalGain, n, ops).1;
    var ca := Bound(LiveCount(init), a);
    if last.Some? {
      BoundStep(LiveCount(init), a);
      forall k | 0 <= k < n
        ensures -(ca + a) <= mix[k] <= ca + a
      {
        VoiceSampleBounded(last.value, globalGain, n, a, ops, k);
        assert mix[k] == p[k] + VoiceSample(last.value, globalGain, k, ops);
      }
    } else {
      assert mix == p;
      assert LiveCount(slots) == LiveCount(init);
      forall k | 0 <= k < n
        ensures -ca <= mix[k] <= ca
      {
        assert mix[k] == p[k];
      }
    }
  }

  lemma {:induction false} LiveCountSplit<S>(init: seq<Slot<S>>, last: Slot<S>)
    ensures LiveCount(init + [last]) == LiveCount(init) + (if last.Some? then 1 else 0)
  {
    if init == [] {
      assert [last][1..] == [];
    } else {
      LiveCountSplit(init[1..], last);
      assert (init + [last])[1..] == init[1..] + [last];
    }
  }
}
