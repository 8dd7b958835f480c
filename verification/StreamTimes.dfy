/** When a run's blocks are due, told by the calls and the readings they bring. */
module StreamTimes {
  import opened Words
  import opened VbanProtocol
  import opened StreamBuffer
  import opened StreamEpochs
  import opened StreamRuns
  import opened StreamOutput
  import opened StreamLaws

  /** The reading of the push that began the epoch, that of the last push that stored its packet, the end of the last
      block, and when the next block is due, if that is decided. */
  datatype Times = Times(begun: nat, stored: nat, end: nat, due: Option<nat>)

  /** A stream that plays is due where its last block ended; one that does not, at the first reading that comes the
      target delay after its opening, but never before the end of the last block of any stream. */
  function Decided(t: Times, targetMs: nat, now: nat): Option<nat> {
    if t.due.Some? then t.due
    else if now >= t.begun + targetMs * 1_000_000 then Some(if now < t.end then t.end else now)
    else None
  }

  /** A block is given on a reading at which it is due, and not overdue by more than a tenth of a second, of a stream
      that stored a packet in the last quarter of a second. */
  predicate Gives(t: Times, targetMs: nat, now: nat)
    requires now < TWO64 && t.stored < TWO64
  {
    var due := Decided(t, targetMs, now);
    !Stalled(now, t.stored) && due.Some? && due.value <= now <= due.value + 100_000_000
  }

  /** A stream is given up on a reading a quarter of a second after it last stored a packet, or a tenth after a block
      was due. */
  predicate GivesUp(t: Times, targetMs: nat, now: nat)
    requires now < TWO64 && t.stored < TWO64
  {
    var due := Decided(t, targetMs, now);
    Stalled(now, t.stored) || (due.Some? && now > due.value + 100_000_000)
  }

  /** How one event moves the times of a run in which it finds the buffer `b`, leaves `c` and hands out `given`. */
  ghost function Moved(t: Times, targetMs: nat, b: Buffer, e: Event, given: seq<Output>, c: Buffer): Times
    requires ValidEvent(e) && b.lastProgress < TWO64 && t.stored < TWO64
  {
    match e
    case PushEvent(p, now) =>
      if StartsEpoch(b, p, now) then Times(now, now, t.end, None)
      else if IsNew(b, p) && NotLate(b, p) then t.(stored := now)
      else t
    case PullEvent(now) =>
      if !b.initialized then t
      else if given != [] then t.(end := given[0].end, due := if c.initialized then Some(given[0].end) else None)
      else if GivesUp(t, targetMs, now) then t.(due := None)
      else t.(due := Decided(t, targetMs, now))
    case ResetEvent => t.(due := None)
  }

  ghost function TimesOf(b: Buffer, events: seq<Event>): (t: Times)
    requires Fresh(b) && ValidEvents(events)
    ensures t.stored < TWO64
  {
    if events == [] then Times(0, 0, 0, None)
    else
      var past, e := events[..|events| - 1], events[|events| - 1];
      Moved(TimesOf(b, past), b.targetMs, Run(b, past).buffer, e, Given(Run(b, past), e), Run(b, events).buffer)
  }

  /** The buffer keeps these times. */
  ghost predicate Keeps(t: Times, targetMs: nat, c: Buffer) {
    && c.targetMs == targetMs && c.lastEnd == t.end && (c.playing <==> t.due.Some?)
    && (!c.initialized ==> !c.playing)
    && (c.initialized ==>
          && c.first == t.begun && c.lastProgress == t.stored
          && (c.playing ==>
                && t.due.value == c.base + FramesToNs(c.emitted, c.format.rate)
                && t.due.value >= t.begun + targetMs * 1_000_000))
  }

  /** What a pull does to a stream, by the times alone. */
  ghost predicate PullsByTimes(t: Times, targetMs: nat, b: Buffer, now: nat, given: seq<Output>, c: Buffer)
    requires now < TWO64 && t.stored < TWO64
  {
    if b.initialized && Gives(t, targetMs, now) then
      && |given| == 1 && given[0].block.format == b.format
      && given[0].block.frames == (if b.format.rate / 100 > 1 then b.format.rate / 100 else 1)
      && given[0].block.timestamp == Decided(t, targetMs, now).value
      && t.begun + targetMs * 1_000_000 <= given[0].block.timestamp <= now
    else
      && given == []
      && if !b.initialized then c == b
         else if GivesUp(t, targetMs, now) then Dropped(c)
         else Waits(b, c)
  }

  lemma PullMoves(s: State, now: nat, t: Times, targetMs: nat)
    requires Good(s) && now < TWO64 && Keeps(t, targetMs, s.buffer) && t.stored < TWO64
    ensures var b, given, c := s.buffer, Given(s, PullEvent(now)), Next(s, PullEvent(now)).buffer;
            && PullsByTimes(t, targetMs, b, now, given, c)
            && Keeps(Moved(t, targetMs, b, PullEvent(now), given, c), targetMs, c)
  {
    hide Epoch, Bounded, Over, Pull, FramesToNs, Used, DueTime;
    var b := s.buffer;
    if b.initialized {
      FormatOf(s);
      DueIsDecided(b, t, targetMs, now);
      if Gives(t, targetMs, now) {
        PullGivesBlock(b, now);
      } else {
        PullWithoutBlock(b, now);
      }
    } else {
      NoStreamNoBlock(b, now);
    }
  }

  lemma DueIsDecided(b: Buffer, t: Times, targetMs: nat, now: nat)
    requires Keeps(t, targetMs, b) && b.initialized
    ensures DueTime(b, now) == Decided(t, targetMs, now) && b.lastProgress == t.stored
  {
    hide FramesToNs;
  }

  lemma NoStreamNoBlock(b: Buffer, now: nat)
    requires now < TWO64 && b.lastProgress < TWO64 && !b.initialized
    ensures Pull(b, now) == Pulled(b, None, [], [])
  {
  }

  lemma {:induction false} TimesAreKept(b: Buffer, events: seq<Event>)
    requires Fresh(b) && ValidEvents(events)
    ensures Keeps(TimesOf(b, events), b.targetMs, Run(b, events).buffer)
  {
    hide Good, Given, StreamRuns.Next, Keeps, ValidEvent, Moved;
    if events == [] {
      TimesAtFirst(b);
    } else {
      var past, e := events[..|events| - 1], events[|events| - 1];
      TimesAreKept(b, past);
      RunLast(b, events);
      EventMoves(Run(b, past), e, TimesOf(b, past), b.targetMs);
    }
  }

  lemma TimesAtFirst(b: Buffer)
    requires Fresh(b)
    ensures Keeps(TimesOf(b, []), b.targetMs, Run(b, []).buffer)
  {
    hide Good;
  }

  lemma EventMoves(s: State, e: Event, t: Times, targetMs: nat)
    requires Good(s) && ValidEvent(e) && Keeps(t, targetMs, s.buffer) && t.stored < TWO64
    ensures var c := Next(s, e).buffer; Keeps(Moved(t, targetMs, s.buffer, e, Given(s, e), c), targetMs, c)
  {
    hide Epoch, Bounded, Over, Pull, Push, Pushed, FramesToNs, Used, Decided, GivesUp, ValidPacket, StartsEpoch;
    match e
    case PushEvent(p, now) =>
      PushOutcome(s.buffer, p, now);
    case PullEvent(now) => PullMoves(s, now, t, targetMs);
    case ResetEvent => ResetMoves(s.buffer, t, targetMs);
  }

  lemma ResetMoves(b: Buffer, t: Times, targetMs: nat)
    requires Keeps(t, targetMs, b)
    ensures Keeps(t.(due := None), targetMs, Reset(b))
  {
  }

  /** In every run a pull gives a block if and only if there is a stream that stored a packet in the last quarter of a
      second, whose opening lies the target delay back, and a block is due and not overdue by more than a tenth of a
      second; the block begins when it was due, so none begins or is given before the target delay has passed. A pull
      that gives none loses what waits only when it gives the stream up. */
  lemma PullInRun(b: Buffer, events: seq<Event>, now: nat)
    requires Fresh(b) && ValidEvents(events) && now < TWO64
    ensures ValidEvents(events + [PullEvent(now)])
    ensures var before, after := Run(b, events), Run(b, events + [PullEvent(now)]);
            exists given ::
              && Outputs(b, events + [PullEvent(now)]) == Outputs(b, events) + given
              && PullsByTimes(TimesOf(b, events), b.targetMs, before.buffer, now, given, after.buffer)
  {
    hide Good, StreamRuns.Next, Keeps, Given, Moved, PullsByTimes, ValidEvent;
    var longer := events + [PullEvent(now)];
    assert longer[..|longer| - 1] == events;
    assert ValidEvent(PullEvent(now)) by { PullIsValid(now); }
    TimesAreKept(b, events);
    RunLast(b, longer);
    PullMoves(Run(b, events), now, TimesOf(b, events), b.targetMs);
    assert Outputs(b, longer) == Outputs(b, events) + Given(Run(b, events), PullEvent(now));
  }

  lemma PullIsValid(now: nat)
    requires now < TWO64
    ensures ValidEvent(PullEvent(now))
  {
  }
}
