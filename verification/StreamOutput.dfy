/** When the jitter buffer's blocks play: over a buffer's whole life their times never overlap. */
module StreamOutput {
  import opened Words
  import opened VbanProtocol
  import opened StreamBuffer
  import opened StreamEpochs
  import opened StreamRuns

  /** A block with the time it ends; `first` says that it opens a playing run. */
  datatype Output = Output(block: Block, end: nat, first: bool)

  /** The blocks a run hands out. */
  ghost function Outputs(b: Buffer, events: seq<Event>): seq<Output>
    requires Fresh(b) && forall i | 0 <= i < |events| :: ValidEvent(events[i])
  {
    if events == [] then []
    else
      var before, e := Run(b, events[..|events| - 1]), events[|events| - 1];
      Outputs(b, events[..|events| - 1]) + Given(before, e)
  }

  /** What one event hands out. */
  ghost function Given(s: State, e: Event): seq<Output>
    requires Good(s) && ValidEvent(e)
  {
    assert s.buffer.initialized ==> s.buffer.Channels() > 0 by { if s.buffer.initialized { FormatOf(s); } }
    if !e.PullEvent? then []
    else
      var r := Pull(s.buffer, e.now);
      if r.block.None? then []
          else [Output(r.block.value, r.buffer.lastEnd, !s.buffer.playing || s.buffer.emitted == 0)]
  }

  /** The buffer's clock stands at the end of the last block, and a playing run goes on from there. */
  ghost predicate InTime(b: Buffer, end: nat) {
    && b.lastEnd == end
    && (b.playing ==> b.format.rate > 0 &&
                      if b.emitted > 0 then b.base + FramesToNs(b.emitted, b.format.rate) == end else b.base >= end)
  }

  /** The block takes as long as its frames, up to a nanosecond of rounding. */
  ghost predicate LastsItsFrames(o: Output) {
    && o.block.timestamp <= o.end
    && o.block.format.rate * (o.end - o.block.timestamp) < o.block.frames * SECOND + o.block.format.rate
    && o.block.frames * SECOND < o.block.format.rate * (o.end - o.block.timestamp) + o.block.format.rate
  }

  lemma PushInTime(b: Buffer, p: Packet, now: nat, end: nat)
    requires now < TWO64 && b.lastProgress < TWO64 && InTime(b, end)
    ensures InTime(Push(b, p, now), end)
  {
    hide Overruns, Ahead, FramesToNs, IsOld;
  }

  lemma PrepareInTime(b: Buffer, now: nat, end: nat)
    requires now < TWO64 && b.lastProgress < TWO64 && InTime(b, end)
    ensures var r := Prepare(b, now);
            && InTime(r.buffer, end)
            && (r.Now? ==>
                  && b.initialized && r.buffer.playing && r.buffer.format == b.format
                  && r.timestamp == r.buffer.base + FramesToNs(r.buffer.emitted, r.buffer.format.rate) >= end
                  && (b.playing && b.emitted > 0 ==> r.timestamp == end))
  {
    assert FramesToNs(0, b.format.rate) == 0;
    hide FramesToNs;
  }

  lemma MakeInTime(b: Buffer, timestamp: nat, end: nat)
    requires InTime(b, end) && b.playing && b.Channels() > 0
    requires timestamp == b.base + FramesToNs(b.emitted, b.format.rate)
    ensures var r := Make(b, timestamp);
            && r.block.Some? && r.block.value.timestamp == timestamp
            && InTime(r.buffer, r.buffer.lastEnd)
            && LastsItsFrames(Output(r.block.value, r.buffer.lastEnd, false))
  {
    hide Fill, FramesToNs, Consumption, LastsItsFrames, Resampled;
    var d := Corrected(b);
    var filled := Fill(d, Consumption(b));
    FillKeepsClock(d, Consumption(b));
    var frames := BlockFrames(b.format.rate);
    FloorsDiffer(b.emitted, frames, b.format.rate);
    var r := Make(b, timestamp);
    Lasts(Output(r.block.value, r.buffer.lastEnd, false), b.base, b.emitted);
  }

  lemma Lasts(o: Output, base: nat, emitted: nat)
    requires o.block.format.rate > 0
    requires o.block.timestamp == base + FramesToNs(emitted, o.block.format.rate)
    requires o.end == base + FramesToNs(emitted + o.block.frames, o.block.format.rate)
    ensures LastsItsFrames(o)
  {
    hide FramesToNs;
    FloorsDiffer(emitted, o.block.frames, o.block.format.rate);
  }

  /** The floors of two exact durations differ by their exact difference, up to one. */
  lemma FloorsDiffer(e: nat, frames: nat, rate: nat)
    requires rate > 0
    ensures FramesToNs(e, rate) <= FramesToNs(e + frames, rate)
    ensures var d := FramesToNs(e + frames, rate) - FramesToNs(e, rate);
            rate * d < frames * SECOND + rate && frames * SECOND < rate * d + rate
  {
    hide FramesToNs;
    FramesToNsIsFloor(e, rate);
    FramesToNsIsFloor(e + frames, rate);
    var x, y := FramesToNs(e, rate), FramesToNs(e + frames, rate);
    Distribute(SECOND, e, frames);
    ProductMonotone(e, e + frames, SECOND);
    FloorOrder(rate, x, y, e * SECOND, (e + frames) * SECOND);
    Distribute(rate, y - x, x);
    Distribute(rate, x, 1);
    Distribute(rate, y, 1);
  }

  lemma FloorOrder(rate: nat, x: nat, y: nat, a: nat, b: nat)
    requires rate > 0 && rate * x <= a <= b < rate * (y + 1)
    ensures x <= y
  {
    CancelFactorStrict(x, y + 1, rate);
  }

  lemma CancelFactorStrict(a: nat, b: nat, c: nat)
    requires c * a < c * b
    ensures a < b
  {
    if b <= a {
      ProductMonotone(b, a, c);
    }
  }

  /** The outputs follow one another without overlap, and without a gap while a run goes on. */
  ghost predicate Consecutive(o: seq<Output>, end: nat) {
    if o == [] then end == 0
    else
      var last, before := o[|o| - 1], o[..|o| - 1];
      && last.end == end && LastsItsFrames(last)
      && Consecutive(before, if before == [] then 0 else before[|before| - 1].end)
      && last.block.timestamp >= (if before == [] then 0 else before[|before| - 1].end)
      && (!last.first ==> last.block.timestamp == if before == [] then 0 else before[|before| - 1].end)
  }

  lemma StepInTime(s: State, e: Event, end: nat)
    requires Good(s) && ValidEvent(e) && InTime(s.buffer, end)
    ensures var given := Given(s, e);
            && InTime(Next(s, e).buffer, if given == [] then end else given[0].end)
            && |given| <= 1
            && (given != [] ==>
                  && given[0].block.timestamp >= end && LastsItsFrames(given[0])
                  && (!given[0].first ==> given[0].block.timestamp == end))
  {
    hide Push, Prepare, Make, Pushed, Epoch, Bounded, InTime, LastsItsFrames, ValidPacket;
    match e
    case PushEvent(p, now) => PushInTime(s.buffer, p, now, end);
    case PullEvent(now) =>
      if s.buffer.initialized {
        FormatOf(s);
      }
      PullInTime(s.buffer, now, end);
    case ResetEvent => ResetInTime(s.buffer, end);
  }

  lemma ResetInTime(b: Buffer, end: nat)
    requires InTime(b, end)
    ensures InTime(Reset(b), end)
  {
  }

  lemma PullInTime(b: Buffer, now: nat, end: nat)
    requires now < TWO64 && b.lastProgress < TWO64 && InTime(b, end) && (b.initialized ==> b.Channels() > 0)
    ensures var r := Pull(b, now);
            match r.block
            case None => InTime(r.buffer, end)
            case Some(block) =>
              && InTime(r.buffer, r.buffer.lastEnd) && block.timestamp >= end
              && LastsItsFrames(Output(block, r.buffer.lastEnd, !b.playing || b.emitted == 0))
              && (b.playing && b.emitted > 0 ==> block.timestamp == end)
  {
    hide Prepare, Make, InTime, FramesToNs;
    PrepareInTime(b, now, end);
    match Prepare(b, now)
    case NotYet(p) =>
    case Now(p, timestamp) => MakeInTime(p, timestamp, end);
  }

  lemma {:induction false} OutputsAreConsecutive(b: Buffer, events: seq<Event>)
    requires Fresh(b) && forall i | 0 <= i < |events| :: ValidEvent(events[i])
    ensures var o := Outputs(b, events);
            && Consecutive(o, if o == [] then 0 else o[|o| - 1].end)
            && InTime(Run(b, events).buffer, if o == [] then 0 else o[|o| - 1].end)
  {
    hide Given, Next, Good, LastsItsFrames, ValidEvent;
    if events != [] {
      var past, e := events[..|events| - 1], events[|events| - 1];
      OutputsAreConsecutive(b, past);
      var o := Outputs(b, past);
      var end := if o == [] then 0 else o[|o| - 1].end;
      StepInTime(Run(b, past), e, end);
      var given := Given(Run(b, past), e);
      if given == [] {
        assert Outputs(b, events) == o;
      } else {
        assert given == [given[0]];
        assert Outputs(b, events)[..|o|] == o;
      }
    }
  }

  lemma {:induction false} ConsecutiveOrders(o: seq<Output>, end: nat, i: nat, j: nat)
    requires Consecutive(o, end) && i < j < |o|
    ensures o[i].end <= o[j].block.timestamp <= o[j].end <= end
  {
    var before := o[..|o| - 1];
    if j < |o| - 1 {
      ConsecutiveOrders(before, before[|before| - 1].end, i, j);
    } else if i < |o| - 2 {
      ConsecutiveOrders(before, before[|before| - 1].end, i, |o| - 2);
    }
  }

  lemma {:induction false} ConsecutiveParts(o: seq<Output>, end: nat, j: nat)
    requires Consecutive(o, end) && j < |o|
    ensures LastsItsFrames(o[j])
    ensures !o[j].first ==> o[j].block.timestamp == if j == 0 then 0 else o[j - 1].end
  {
    hide LastsItsFrames;
    if j < |o| - 1 {
      var before := o[..|o| - 1];
      ConsecutiveParts(before, before[|before| - 1].end, j);
    }
  }

  ghost predicate InOrder(o: seq<Output>, i: nat, j: nat)
    requires i < j < |o|
  {
    && o[i].end <= o[j].block.timestamp && LastsItsFrames(o[j])
    && (!o[j].first ==> o[j].block.timestamp == o[j - 1].end)
  }

  lemma ConsecutiveInOrder(o: seq<Output>, end: nat, i: nat, j: nat)
    requires Consecutive(o, end) && i < j < |o|
    ensures InOrder(o, i, j)
  {
    hide Consecutive, LastsItsFrames;
    ConsecutiveOrders(o, end, i, j);
    ConsecutiveParts(o, end, j);
  }

  /** Over the buffer's whole life, whatever the clock reads: no block starts before an earlier one has ended, and
      within a playing run each block starts exactly where the one before it ended. */
  lemma TimestampsNeverGoBack(b: Buffer, events: seq<Event>, i: nat, j: nat)
    requires Fresh(b) && forall k | 0 <= k < |events| :: ValidEvent(events[k])
    requires i < j < |Outputs(b, events)|
    ensures InOrder(Outputs(b, events), i, j)
  {
    hide *;
    var o := Outputs(b, events);
    OutputsAreConsecutive(b, events);
    ConsecutiveInOrder(o, o[|o| - 1].end, i, j);
  }

  /** The stall test takes the difference of two unsigned clock readings. On clocks that stay below half their range
      it stops the stream not only after a quarter of a second without progress, but exactly also when the reading is
      older than the last push's. */
  lemma StallStopsExactly(b: Buffer, now: nat)
    requires b.initialized && b.format.rate > 0 && now < TWO64 / 2 && b.lastProgress < TWO64 / 2
    ensures Prepare(b, now) == NotYet(Stopped(b)) <==> now < b.lastProgress || now > b.lastProgress + 250_000_000
  {
    hide FramesToNs;
    assert !Stopped(b).initialized;
  }

  /** So in any run: a pull whose reading is older than the last push empties the buffer, and everything that waited
      to be played is lost. */
  lemma OldReadingEmptiesTheBuffer(b: Buffer, events: seq<Event>, now: nat)
    requires Fresh(b) && forall k | 0 <= k < |events| :: ValidEvent(events[k])
    requires var c := Run(b, events).buffer; c.initialized && now < c.lastProgress < TWO64 / 2
    ensures forall k | 0 <= k < |events| + 1 :: ValidEvent((events + [PullEvent(now)])[k])
    ensures var c := Run(b, events + [PullEvent(now)]).buffer; !c.initialized && c.pending == map[] && c.fifo == []
  {
    hide Good, Fresh, Prepare;
    var s := Run(b, events);
    assert (events + [PullEvent(now)])[..|events|] == events;
    FormatOf(s);
    TableRate(s.buffer.format);
    StallStopsExactly(s.buffer, now);
  }

  lemma TableRate(f: Format)
    requires SoundFormat(f)
    ensures f.rate > 0
  {
  }

  /** A packet, and a pull whose reading was taken a nanosecond before it. */
  ghost function TwoCalls(p: Packet, now: nat): (e: seq<Event>)
    requires ValidPacket(p) && 0 < now < TWO64
    ensures |e| == 2 && forall k | 0 <= k < |e| :: ValidEvent(e[k])
  {
    [PushEvent(p, now), PullEvent(now - 1)]
  }

  lemma FirstPacketStored(b: Buffer, p: Packet, now: nat)
    requires Fresh(b) && ValidPacket(p) && 0 < now < TWO64
    ensures var one := Run(b, TwoCalls(p, now)[..1]).buffer;
            one.initialized && one.pending == map[p.sequence := p] && one.lastProgress == now
  {
    hide ValidPacket, Good;
    var events := TwoCalls(p, now)[..1];
    assert events == [PushEvent(p, now)] && events[..0] == [];
    OpeningPush(b, p, now);
  }

  /** Two calls are enough: the only packet is stored, and the pull loses it. */
  lemma OnePacketIsLost(b: Buffer, p: Packet, now: nat)
    requires Fresh(b) && ValidPacket(p) && 0 < now < TWO64 / 2
    ensures var one := Run(b, TwoCalls(p, now)[..1]).buffer; one.initialized && one.pending == map[p.sequence := p]
    ensures var two := Run(b, TwoCalls(p, now)).buffer; !two.initialized && two.pending == map[] && two.fifo == []
  {
    hide *;
    FirstPacketStored(b, p, now);
    PullIsSecond(p, now);
    OldReadingEmptiesTheBuffer(b, TwoCalls(p, now)[..1], now - 1);
  }

  lemma PullIsSecond(p: Packet, now: nat)
    requires ValidPacket(p) && 0 < now < TWO64
    ensures TwoCalls(p, now)[..1] + [PullEvent(now - 1)] == TwoCalls(p, now)
  {
  }
}
