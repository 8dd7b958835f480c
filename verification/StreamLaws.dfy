/** What each call does to a jitter buffer in a run, told by the call and the state it finds: when a push starts over
    and what it keeps, when a pull gives a block and when it stops the stream. */
module StreamLaws {
  import opened Words
  import opened VbanProtocol
  import opened StreamBuffer
  import opened StreamEpochs
  import opened StreamRuns
  import opened StreamOutput

  ghost predicate ValidEvents(events: seq<Event>) {
    forall i | 0 <= i < |events| :: ValidEvent(events[i])
  }

  lemma RunLast(b: Buffer, events: seq<Event>)
    requires Fresh(b) && ValidEvents(events) && events != []
    ensures Run(b, events) == StreamRuns.Next(Run(b, events[..|events| - 1]), events[|events| - 1])
  {
    hide StreamRuns.Next;
  }

  // Pushes.

  /** There is no stream, the packet is of another format, or nothing has been stored for a quarter of a second. */
  predicate NoStream(b: Buffer, p: Packet, now: nat)
    requires now < TWO64 && b.lastProgress < TWO64
  {
    || !b.initialized
    || p.format != b.format
    || (if now >= b.lastProgress then now - b.lastProgress else now + TWO64 - b.lastProgress) > 250_000_000
  }

  /** The number has not been seen lately. */
  predicate IsNew(b: Buffer, p: Packet) {
    p.sequence !in b.pending && p.sequence !in b.recent
  }

  /** The number is not one of the half range behind the expected one. */
  predicate NotLate(b: Buffer, p: Packet) {
    Ahead(p.sequence, b.expected) < 0x8000_0000
  }

  /** The packet is too far ahead, or too much is waiting. */
  ghost predicate TooMuch(b: Buffer, p: Packet) {
    || Ahead(p.sequence, b.expected) > 512
    || |b.pending| >= 512
    || (if b.format.channels == 0 then 0 else |b.fifo| / b.Channels()) + FramesIn(b.pending) > b.format.rate / 4
  }

  ghost predicate StartsEpoch(b: Buffer, p: Packet, now: nat)
    requires now < TWO64 && b.lastProgress < TWO64
  {
    NoStream(b, p, now) || (IsNew(b, p) && NotLate(b, p) && TooMuch(b, p))
  }

  /** Everything before the packet is forgotten, and the packet waits alone. */
  ghost predicate Restarted(b: Buffer, c: Buffer, p: Packet, now: nat)
    requires now < TWO64 && b.lastProgress < TWO64
  {
    && c.initialized && !c.playing && c.format == p.format && c.expected == c.newest == p.sequence
    && c.pending == map[p.sequence := p] && c.fifo == [] && c.recent == [] && c.previousFrames == 0
    && c.first == c.lastProgress == c.lastValid == now && c.lastEnd == b.lastEnd
    && c.counters.received == b.counters.received + 1 && c.counters.lost == b.counters.lost
    && c.counters.duplicates == b.counters.duplicates && c.counters.late == b.counters.late
    && c.counters.reordered == b.counters.reordered && c.targetMs == b.targetMs
    && c.counters.discontinuities == b.counters.discontinuities + (if b.initialized then 1 else 0)
    && c.counters.overruns == b.counters.overruns + (if NoStream(b, p, now) then 0 else 1)
    && c.counters.underruns == b.counters.underruns && c.counters.driftCorrections == b.counters.driftCorrections
  }

  /** Nothing that was there is touched. */
  ghost predicate Untouched(b: Buffer, c: Buffer, now: nat) {
    && c.initialized == b.initialized && c.playing == b.playing && c.format == b.format && c.expected == b.expected
    && c.fifo == b.fifo && c.recent == b.recent && c.previousFrames == b.previousFrames
    && c.first == b.first && c.base == b.base && c.emitted == b.emitted && c.lastEnd == b.lastEnd && c.lastValid == now
    && c.counters.received == b.counters.received + 1 && c.counters.lost == b.counters.lost
    && c.counters.discontinuities == b.counters.discontinuities && c.targetMs == b.targetMs
    && c.counters.overruns == b.counters.overruns && c.counters.underruns == b.counters.underruns
    && c.counters.driftCorrections == b.counters.driftCorrections
  }

  /** A push that starts no epoch keeps every packet that waits; it stores one that is new and not late, and only
      counts any other. */
  ghost predicate Kept(b: Buffer, c: Buffer, p: Packet, now: nat) {
    && Untouched(b, c, now)
    && (if IsNew(b, p) && NotLate(b, p) then
          && Ahead(p.sequence, b.expected) <= 512
          && c.pending == b.pending[p.sequence := p] && c.lastProgress == now
          && c.counters.duplicates == b.counters.duplicates && c.counters.late == b.counters.late
          && if Ahead(p.sequence, b.newest) < 0x8000_0000 then
               c.newest == p.sequence && c.counters.reordered == b.counters.reordered
             else c.newest == b.newest && c.counters.reordered == b.counters.reordered + 1
        else
          && c.pending == b.pending && c.lastProgress == b.lastProgress && c.newest == b.newest
          && c.counters.reordered == b.counters.reordered
          && if IsNew(b, p) then
               c.counters.late == b.counters.late + 1 && c.counters.duplicates == b.counters.duplicates
             else c.counters.duplicates == b.counters.duplicates + 1 && c.counters.late == b.counters.late)
  }

  lemma PushOutcome(b: Buffer, p: Packet, now: nat)
    requires now < TWO64 && b.lastProgress < TWO64
    ensures StartsEpoch(b, p, now) ==> Restarted(b, Push(b, p, now), p, now)
    ensures !StartsEpoch(b, p, now) ==> Kept(b, Push(b, p, now), p, now)
  {
    if NoStream(b, p, now) {
      OpeningOutcome(b, p, now);
    } else {
      GoingOn(b, p, now);
    }
  }

  lemma OpeningOutcome(b: Buffer, p: Packet, now: nat)
    requires now < TWO64 && b.lastProgress < TWO64 && NoStream(b, p, now)
    ensures Restarted(b, Push(b, p, now), p, now)
  {
    hide Ahead, FramesIn;
    assert Ahead(p.sequence, p.sequence) == 0 by { NoDistance(p.sequence); }
    assert FramesIn(map[]) == 0 by { NothingIn(); }
  }

  lemma GoingOn(b: Buffer, p: Packet, now: nat)
    requires now < TWO64 && b.lastProgress < TWO64 && !NoStream(b, p, now)
    ensures StartsEpoch(b, p, now) ==> Restarted(b, Push(b, p, now), p, now)
    ensures !StartsEpoch(b, p, now) ==> Kept(b, Push(b, p, now), p, now)
  {
    hide Ahead, FramesIn;
    assert Ahead(p.sequence, p.sequence) == 0 by { NoDistance(p.sequence); }
  }

  lemma NothingIn()
    ensures FramesIn(map[]) == 0
  {
  }

  /** The history of the run: a new epoch with the packet accepted first, the same epoch with the packet accepted, or
      no change. */
  ghost predicate EpochAfter(s: State, t: State, p: Packet, now: nat)
    requires now < TWO64 && s.buffer.lastProgress < TWO64
  {
    var b, h := s.buffer, s.history;
    if StartsEpoch(b, p, now) then
      t.history == History(p.sequence, [], map[p.sequence as nat := p], [], b.counters.lost)
    else if IsNew(b, p) && NotLate(b, p) then
      t.history == h.(accepted := h.accepted[h.start + |h.log| + Ahead(p.sequence, b.expected) := p])
    else t.history == h
  }

  /** In every run: an event begins a new epoch if and only if it is a push without a stream to go on with, or one of
      a new number that is not late and finds too much ahead or waiting. Every other push keeps all that waits, and
      stores its packet if its number is new and not late. */
  lemma PushInRun(b: Buffer, events: seq<Event>)
    requires Fresh(b) && ValidEvents(events) && events != [] && events[|events| - 1].PushEvent?
    ensures Run(b, events[..|events| - 1]).buffer.lastProgress < TWO64
    ensures var s, t := Run(b, events[..|events| - 1]), Run(b, events);
            var p, now := events[|events| - 1].packet, events[|events| - 1].now;
            && (if StartsEpoch(s.buffer, p, now) then Restarted(s.buffer, t.buffer, p, now)
                else Kept(s.buffer, t.buffer, p, now))
            && EpochAfter(s, t, p, now)
  {
    hide Run, Epoch, Bounded, Push, Restarted, Kept, ValidPacket, Over;
    RunLast(b, events);
    var s, e := Run(b, events[..|events| - 1]), events[|events| - 1];
    PushOutcome(s.buffer, e.packet, e.now);
    PushHistory(s, e.packet, e.now);
  }

  lemma PushHistory(s: State, p: Packet, now: nat)
    requires now < TWO64 && s.buffer.lastProgress < TWO64
    ensures EpochAfter(s, State(Push(s.buffer, p, now), Pushed(s, p, now)), p, now)
  {
    hide Ahead, FramesIn, Push;
  }

  /** No pull and no reset begins an epoch: the history only goes on. */
  lemma OthersKeepEpoch(b: Buffer, events: seq<Event>)
    requires Fresh(b) && ValidEvents(events) && events != [] && !events[|events| - 1].PushEvent?
    ensures var h, g := Run(b, events[..|events| - 1]).history, Run(b, events).history;
            && g.start == h.start && g.accepted == h.accepted && g.lostBefore == h.lostBefore
            && h.log <= g.log && h.taken <= g.taken
  {
    hide Run, Epoch, Bounded, Pull, Over;
    RunLast(b, events);
  }

  // Pulls.

  /** When a block is due on a buffer that has a stream, if that is decided at the reading. */
  function DueTime(b: Buffer, now: nat): Option<nat> {
    if b.playing then Some(b.base + FramesToNs(b.emitted, b.format.rate))
    else if now >= b.first + b.targetMs * 1_000_000 then Some(if now < b.lastEnd then b.lastEnd else now)
    else None
  }

  /** Nothing was stored for more than a quarter of a second, on unsigned readings. */
  predicate Stalled(now: nat, stored: nat)
    requires now < TWO64 && stored < TWO64
  {
    (if now >= stored then now - stored else now + TWO64 - stored) > 250_000_000
  }

  /** The stream is dropped, with all that waited. */
  predicate Dropped(c: Buffer) {
    !c.initialized && !c.playing && c.pending == map[] && c.fifo == []
  }

  /** The stream waits as it is. */
  predicate Waits(b: Buffer, c: Buffer) {
    && c.initialized && c.pending == b.pending && c.fifo == b.fifo && c.recent == b.recent && c.expected == b.expected
    && c.format == b.format && c.first == b.first && c.lastProgress == b.lastProgress && c.lastEnd == b.lastEnd
    && c.previousFrames == b.previousFrames && c.counters == b.counters && c.targetMs == b.targetMs
  }

  /** A pull that gives no block: it drops a stalled stream, and one whose block was due more than a tenth of a second
      ago; it waits for a block that is not due yet. */
  lemma PullWithoutBlock(b: Buffer, now: nat)
    requires now < TWO64 && b.lastProgress < TWO64 && b.initialized && SoundFormat(b.format)
    requires var due := DueTime(b, now);
             Stalled(now, b.lastProgress) || due.None? || now < due.value || now > due.value + 100_000_000
    ensures var r, due := Pull(b, now), DueTime(b, now);
            && r.block == None && r.entries == [] && r.input == []
            && r.buffer.lastEnd == b.lastEnd && r.buffer.targetMs == b.targetMs
            && r.buffer.counters
               == b.counters.(discontinuities := b.counters.discontinuities
                    + if !Stalled(now, b.lastProgress) && due.Some? && now > due.value + 100_000_000 then 1 else 0)
            && (if Stalled(now, b.lastProgress) || (due.Some? && now > due.value + 100_000_000) then Dropped(r.buffer)
                else
                  && Waits(b, r.buffer) && r.buffer.playing == due.Some?
                  && (due.Some? ==> r.buffer.base + FramesToNs(r.buffer.emitted, b.format.rate) == due.value))
  {
    assert FramesToNs(0, b.format.rate) == 0;
    hide FramesToNs;
  }

  /** A pull that finds a block due gives it: ten milliseconds of the stream, in its format, at the time it was due. */
  lemma PullGivesBlock(b: Buffer, now: nat)
    requires now < TWO64 && b.lastProgress < TWO64 && b.initialized && SoundFormat(b.format)
    requires var due := DueTime(b, now);
             !Stalled(now, b.lastProgress) && due.Some? && due.value <= now <= due.value + 100_000_000
    ensures var r, due := Pull(b, now), DueTime(b, now);
            && r.buffer.lastEnd >= due.value
            && r.block.Some? && r.block.value.timestamp == due.value && r.block.value.format == b.format
            && r.block.value.frames == (if b.format.rate / 100 > 1 then b.format.rate / 100 else 1)
            && MadeOf(b, r)
            && r.buffer.targetMs == b.targetMs && r.buffer.lastProgress == b.lastProgress && r.buffer.first == b.first
            && r.buffer.counters.underruns == b.counters.underruns + (if r.buffer.initialized then 0 else 1)
            && (!r.buffer.initialized ==> !r.buffer.playing)
            && (r.buffer.initialized ==>
                  && r.buffer.playing && r.buffer.format == b.format
                  && r.buffer.base + FramesToNs(r.buffer.emitted, b.format.rate) == r.buffer.lastEnd)
  {
    assert FramesToNs(0, b.format.rate) == 0;
    hide FramesToNs, Make, Consumption, Resampled;
    match Prepare(b, now)
    case NotYet(p) => assert false;
    case Now(p, timestamp) =>
      SameDepth(b, p);
      MakeGives(p, timestamp);
  }

  /** The samples of a block: those taken from the queue, stretched or shrunk to ten milliseconds if it is a frame
      more or less. */
  ghost predicate MadeOf(b: Buffer, r: Pulled)
    requires r.block.Some?
  {
    var consume, frames, channels := Consumption(b), r.block.value.frames, b.Channels();
    && |r.input| == consume * channels
    && r.block.value.samples == if consume == frames then r.input
                                else Resampled(r.input, consume, frames, channels, frames)
  }

  lemma SameDepth(b: Buffer, p: Buffer)
    requires p.fifo == b.fifo && p.pending == b.pending && p.format == b.format && p.targetMs == b.targetMs
    ensures Consumption(p) == Consumption(b)
  {
    hide FramesIn;
  }

  lemma MakeGives(b: Buffer, timestamp: nat)
    requires b.initialized && b.playing && b.Channels() > 0 && b.format.rate > 0
    requires timestamp == b.base + FramesToNs(b.emitted, b.format.rate)
    ensures var r := Make(b, timestamp);
            && r.buffer.lastEnd >= timestamp
            && r.block.Some? && r.block.value.timestamp == timestamp && r.block.value.format == b.format
            && r.block.value.frames == (if b.format.rate / 100 > 1 then b.format.rate / 100 else 1)
            && r.buffer.counters.driftCorrections
               == b.counters.driftCorrections + (if Consumption(b) == r.block.value.frames then 0 else 1)
            && MadeOf(b, r)
            && r.buffer.targetMs == b.targetMs && r.buffer.lastProgress == b.lastProgress && r.buffer.first == b.first
            && r.buffer.counters.underruns == b.counters.underruns + (if r.buffer.initialized then 0 else 1)
            && (!r.buffer.initialized ==> !r.buffer.playing)
            && (r.buffer.initialized ==>
                  && r.buffer.playing && r.buffer.format == b.format
                  && r.buffer.base + FramesToNs(r.buffer.emitted, b.format.rate) == r.buffer.lastEnd)
  {
    hide Fill, FramesToNs, Consumption, Resampled;
    var consume := Consumption(b);
    FillKeepsClock(Corrected(b), consume);
    FloorsDiffer(b.emitted, BlockFrames(b.format.rate), b.format.rate);
  }

  /** The queue's depth is corrected by one frame a block: down when it is more than a third of its target, and a
      block, too deep, up when it is as much too shallow but still holds a block; and not at all in between. */
  lemma CorrectionFollowsDepth(b: Buffer)
    requires SoundFormat(b.format)
    ensures var frames := if b.format.rate / 100 > 1 then b.format.rate / 100 else 1;
            var depth, target := BufferedFrames(b), b.format.rate * b.targetMs / 1000;
            var margin := if frames < target / 3 then target / 3 else frames;
            && -1 <= Consumption(b) - frames <= 1
            && (Consumption(b) == frames + 1 <==> depth > target + margin)
            && (Consumption(b) == frames - 1 <==>
                  depth <= target + margin && depth + margin < target && depth >= frames > 1)
  {
    hide FramesIn;
  }
}
