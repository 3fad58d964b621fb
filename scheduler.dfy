/** How `process` in lib.rs splits a host buffer into sub-blocks: each
    sub-block starts by handling every pending event that is due, and ends
    at the earlier of `MAX_BLOCK_SIZE` samples later, the end of the buffer,
    and the timing of the next pending event. */
module Scheduler {
  import opened Basics
  import opened NoteEvents

  /** `MAX_BLOCK_SIZE`. */
  const MAX_BLOCK_SIZE: nat := 64

  /** `event.timing() as usize`. */
  function Timing(e: NoteEvent): nat {
    e.timing as nat
  }

  /** The `'events` loop's consumption: from the pending event `k`, every
      event whose timing is at or before the sub-block start is handled;
      the result is the first event left pending. */
  function Due(events: seq<NoteEvent>, k: nat, blockStart: nat): (j: nat)
    requires k <= |events|
    ensures k <= j <= |events|
    ensures forall i :: k <= i < j ==> Timing(events[i]) <= blockStart
    ensures j < |events| ==> Timing(events[j]) > blockStart
    decreases |events| - k
  {
    if k < |events| && Timing(events[k]) <= blockStart then Due(events, k + 1, blockStart) else k
  }

  /** Where a sub-block starts without a pending event in the way:
      `(block_start + MAX_BLOCK_SIZE).min(num_samples)`. */
  function NaturalEnd(blockStart: nat, numSamples: nat): (e: nat)
    ensures e <= blockStart + MAX_BLOCK_SIZE && e <= numSamples
    ensures e == blockStart + MAX_BLOCK_SIZE || e == numSamples
  {
    Min(blockStart + MAX_BLOCK_SIZE, numSamples)
  }

  /** The sub-block end once the events are handled: the natural end, cut
      short to the timing of the first pending event when that comes
      earlier. */
  function BlockEnd(events: seq<NoteEvent>, j: nat, blockStart: nat, numSamples: nat): (e: nat)
    requires j <= |events|
    ensures e <= NaturalEnd(blockStart, numSamples)
    ensures j < |events| ==> e <= Timing(events[j])
    ensures e == NaturalEnd(blockStart, numSamples) || (j < |events| && e == Timing(events[j]))
  {
    var natural := NaturalEnd(blockStart, numSamples);
    if j < |events| && Timing(events[j]) < natural then Timing(events[j]) else natural
  }

  /** One sub-block: the samples [start, end) and the events
      [first, next) handled at its start. */
  datatype SubBlock = SubBlock(start: nat, end: nat, first: nat, next: nat)

  /** The sub-blocks `process` renders from `blockStart` on, with event `k`
      the first pending one. */
  function Schedule(events: seq<NoteEvent>, k: nat, blockStart: nat, numSamples: nat): (r: seq<SubBlock>)
    requires k <= |events|
    ensures blockStart >= numSamples <==> r == []
    ensures forall i :: 0 <= i < |r| ==> k <= r[i].first <= r[i].next <= |events| && blockStart <= r[i].start < r[i].end
    decreases numSamples - blockStart
  {
    if blockStart >= numSamples then []
    else
      var j := Due(events, k, blockStart);
      var e := BlockEnd(events, j, blockStart, numSamples);
      [SubBlock(blockStart, e, k, j)] + Schedule(events, j, e, numSamples)
  }

  /** `r` tiles [blockStart, numSamples) with blocks of 1 to
      `MAX_BLOCK_SIZE` samples that consume the events from `k` on, in
      order and without gaps. */
  predicate Tiles(r: seq<SubBlock>, events: seq<NoteEvent>, k: nat, blockStart: nat, numSamples: nat) {
    && (blockStart < numSamples ==>
          |r| > 0 && r[0].start == blockStart && r[0].first == k && r[|r| - 1].end == numSamples)
    && BlocksFit(r, events, numSamples)
    && Chained(r)
  }

  /** Every block holds 1 to `MAX_BLOCK_SIZE` samples of the buffer. */
  predicate BlocksFit(r: seq<SubBlock>, events: seq<NoteEvent>, numSamples: nat) {
    forall i :: 0 <= i < |r| ==>
      r[i].start < r[i].end <= r[i].start + MAX_BLOCK_SIZE && r[i].end <= numSamples
      && r[i].first <= r[i].next <= |events|
  }

  /** Each block starts where the one before it ends, with the events that
      one left pending. */
  predicate Chained(r: seq<SubBlock>) {
    forall i :: 0 <= i < |r| - 1 ==> r[i].end == r[i + 1].start && r[i].next == r[i + 1].first
  }

  lemma ScheduleTiles(events: seq<NoteEvent>, k: nat, blockStart: nat, numSamples: nat)
    requires k <= |events|
    ensures Tiles(Schedule(events, k, blockStart, numSamples), events, k, blockStart, numSamples)
  {
    ScheduleEndsAtTheEnd(events, k, blockStart, numSamples);
    ScheduleBlocksFit(events, k, blockStart, numSamples);
    ScheduleChained(events, k, blockStart, numSamples);
  }

  lemma {:induction false} ScheduleEndsAtTheEnd(events: seq<NoteEvent>, k: nat, blockStart: nat, numSamples: nat)
    requires k <= |events|
    ensures var r := Schedule(events, k, blockStart, numSamples);
      blockStart < numSamples ==> |r| > 0 && r[0].start == blockStart && r[0].first == k && r[|r| - 1].end == numSamples
    decreases numSamples - blockStart
  {
    if blockStart < numSamples {
      var j := Due(events, k, blockStart);
      var e := BlockEnd(events, j, blockStart, numSamples);
      ScheduleEndsAtTheEnd(events, j, e, numSamples);
    }
  }

  lemma {:induction false} ScheduleBlocksFit(events: seq<NoteEvent>, k: nat, blockStart: nat, numSamples: nat)
    requires k <= |events|
    ensures BlocksFit(Schedule(events, k, blockStart, numSamples), events, numSamples)
    decreases numSamples - blockStart
  {
    if blockStart < numSamples {
      var j := Due(events, k, blockStart);
      var e := BlockEnd(events, j, blockStart, numSamples);
      var rest := Schedule(events, j, e, numSamples);
      ScheduleBlocksFit(events, j, e, numSamples);
      var r := Schedule(events, k, blockStart, numSamples);
      assert r == [SubBlock(blockStart, e, k, j)] + rest;
      assert forall i :: 1 <= i < |r| ==> r[i] == rest[i - 1];
    }
  }

  lemma {:induction false} ScheduleChained(events: seq<NoteEvent>, k: nat, blockStart: nat, numSamples: nat)
    requires k <= |events|
    ensures Chained(Schedule(events, k, blockStart, numSamples))
    decreases numSamples - blockStart
  {
    if blockStart < numSamples {
      var j := Due(events, k, blockStart);
      var e := BlockEnd(events, j, blockStart, numSamples);
      var rest := Schedule(events, j, e, numSamples);
      ScheduleChained(events, j, e, numSamples);
      ScheduleEndsAtTheEnd(events, j, e, numSamples);
      var r := Schedule(events, k, blockStart, numSamples);
      assert r == [SubBlock(blockStart, e, k, j)] + rest;
      assert forall i :: 1 <= i < |r| ==> r[i] == rest[i - 1];
    }
  }

  /** Every event a block of `r` handles was due at its start, and the event
      left pending after a block comes after its start and no earlier than
      its end. */
  predicate HandlesDueEvents(r: seq<SubBlock>, events: seq<NoteEvent>) {
    && (forall i, m :: 0 <= i < |r| && r[i].first <= m < r[i].next && m < |events| ==> Timing(events[m]) <= r[i].start)
    && (forall i :: 0 <= i < |r| && r[i].next < |events| ==>
          r[i].start < Timing(events[r[i].next]) && r[i].end <= Timing(events[r[i].next]))
  }

  lemma {:induction false} ScheduleHandlesDueEvents(events: seq<NoteEvent>, k: nat, blockStart: nat, numSamples: nat)
    requires k <= |events|
    ensures HandlesDueEvents(Schedule(events, k, blockStart, numSamples), events)
    decreases numSamples - blockStart
  {
    if blockStart < numSamples {
      var j := Due(events, k, blockStart);
      var e := BlockEnd(events, j, blockStart, numSamples);
      var rest := Schedule(events, j, e, numSamples);
      ScheduleHandlesDueEvents(events, j, e, numSamples);
      var r := Schedule(events, k, blockStart, numSamples);
      assert r == [SubBlock(blockStart, e, k, j)] + rest;
      assert forall i :: 1 <= i < |r| ==> r[i] == rest[i - 1];
    }
  }

  /** The host delivers events in timing order. */
  predicate Sorted(events: seq<NoteEvent>) {
    forall i, j :: 0 <= i <= j < |events| ==> Timing(events[i]) <= Timing(events[j])
  }

  /** The first event the whole schedule leaves pending is timed at or past
      the end of the buffer, whatever the order of the events. */
  lemma LeftoverIsPastTheEnd(events: seq<NoteEvent>, numSamples: nat)
    requires numSamples > 0
    ensures var r := Schedule(events, 0, 0, numSamples);
      r[|r| - 1].next < |events| ==> Timing(events[r[|r| - 1].next]) >= numSamples
  {
    var r := Schedule(events, 0, 0, numSamples);
    ScheduleTiles(events, 0, 0, numSamples);
    var b := r[|r| - 1];
    if b.next < |events| {
      assert b.next == Due(events, b.first, b.start) by {
        ScheduleBlockIsDue(events, 0, 0, numSamples, |r| - 1);
      }
      assert b.end == BlockEnd(events, b.next, b.start, numSamples) by {
        ScheduleBlockIsDue(events, 0, 0, numSamples, |r| - 1);
      }
    }
  }

  /** Each scheduled block is the one `process` computes: its pending index
      is `Due` and its end is `BlockEnd`. */
  lemma {:induction false} ScheduleBlockIsDue(events: seq<NoteEvent>, k: nat, blockStart: nat, numSamples: nat, i: nat)
    requires k <= |events|
    requires i < |Schedule(events, k, blockStart, numSamples)|
    ensures var b := Schedule(events, k, blockStart, numSamples)[i];
      b.first <= |events| && b.next == Due(events, b.first, b.start) && b.end == BlockEnd(events, b.next, b.start, numSamples)
    decreases numSamples - blockStart
  {
    var j := Due(events, k, blockStart);
    var e := BlockEnd(events, j, blockStart, numSamples);
    if i > 0 {
      ScheduleBlockIsDue(events, j, e, numSamples, i - 1);
    }
  }

  /** With events in timing order, the schedule handles exactly the events
      timed before the end of the buffer. */
  lemma ConsumedExactlyBeforeTheEnd(events: seq<NoteEvent>, numSamples: nat)
    requires numSamples > 0 && Sorted(events)
    ensures var r := Schedule(events, 0, 0, numSamples);
      forall m :: 0 <= m < |events| ==> (m < r[|r| - 1].next <==> Timing(events[m]) < numSamples)
  {
    ScheduleTiles(events, 0, 0, numSamples);
    forall m | 0 <= m < |events|
      ensures var r := Schedule(events, 0, 0, numSamples); m < r[|r| - 1].next <==> Timing(events[m]) < numSamples
    {
      ConsumedBeforeTheEnd(events, numSamples, m);
      PendingFromTheEnd(events, numSamples, m);
    }
  }

  /** Every event the schedule handles is timed before the end of the
      buffer, whatever the order of the events. */
  lemma ConsumedBeforeTheEnd(events: seq<NoteEvent>, numSamples: nat, m: nat)
    requires numSamples > 0 && m < |events|
    ensures var r := Schedule(events, 0, 0, numSamples);
      |r| > 0 && (m < r[|r| - 1].next ==> Timing(events[m]) < numSamples)
  {
    var r := Schedule(events, 0, 0, numSamples);
    ScheduleTiles(events, 0, 0, numSamples);
    if m < r[|r| - 1].next {
      ScheduleHandlesDueEvents(events, 0, 0, numSamples);
      BlockOfConsumed(r, m, |r| - 1);
      var i :| 0 <= i <= |r| - 1 && r[i].first <= m < r[i].next;
      assert Timing(events[m]) <= r[i].start < numSamples;
    }
  }

  /** With events in timing order, every event the schedule leaves pending
      is timed at or past the end of the buffer. */
  lemma PendingFromTheEnd(events: seq<NoteEvent>, numSamples: nat, m: nat)
    requires numSamples > 0 && Sorted(events) && m < |events|
    ensures var r := Schedule(events, 0, 0, numSamples);
      |r| > 0 && (m >= r[|r| - 1].next ==> Timing(events[m]) >= numSamples)
  {
    var r := Schedule(events, 0, 0, numSamples);
    ScheduleTiles(events, 0, 0, numSamples);
    var last := r[|r| - 1].next;
    if m >= last {
      LeftoverIsPastTheEnd(events, numSamples);
      assert Timing(events[last]) <= Timing(events[m]);
    }
  }

  /** The block that handles event `m`. */
  lemma {:induction false} BlockOfConsumed(r: seq<SubBlock>, m: nat, i: nat)
    requires i < |r| && r[0].first <= m < r[i].next
    requires forall j :: 0 <= j < |r| ==> r[j].first <= r[j].next
    requires forall j :: 0 <= j < |r| - 1 ==> r[j].next == r[j + 1].first
    ensures exists j :: 0 <= j <= i && r[j].first <= m < r[j].next
    decreases i
  {
    if i > 0 && m < r[i].first {
      BlockOfConsumed(r, m, i - 1);
    }
  }

  /** With events in timing order, every event is handled at the start of
      a sub-block placed exactly at its timing: the blocks are split at
      event timings, so rendering is sample accurate. */
  lemma SortedEventsLandOnBlockStarts(events: seq<NoteEvent>, numSamples: nat, i: nat, m: nat)
    requires Sorted(events) && m < |events|
    requires var r := Schedule(events, 0, 0, numSamples); i < |r| && r[i].first <= m < r[i].next
    ensures Timing(events[m]) == Schedule(events, 0, 0, numSamples)[i].start
  {
    var r := Schedule(events, 0, 0, numSamples);
    ScheduleTiles(events, 0, 0, numSamples);
    ScheduleHandlesDueEvents(events, 0, 0, numSamples);
    if i > 0 {
      var p := r[i - 1];
      assert p.next == r[i].first <= m;
      assert p.end <= Timing(events[p.next]) <= Timing(events[m]);
    }
  }
}
