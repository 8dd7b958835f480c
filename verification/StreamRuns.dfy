/** The jitter buffer over every interleaving of pushes, pulls and resets. */
module StreamRuns {
  import opened Words
  import opened VbanProtocol
  import opened StreamBuffer
  import opened StreamEpochs

  datatype Event = PushEvent(packet: Packet, now: nat) | PullEvent(now: nat) | ResetEvent

  datatype State = State(buffer: Buffer, history: History)

  ghost predicate ValidEvent(e: Event) {
    match e
    case PushEvent(p, now) => ValidPacket(p) && now < TWO64
    case PullEvent(now) => now < TWO64
    case ResetEvent => true
  }

  ghost predicate Good(s: State) {
    && s.buffer.lastProgress < TWO64
    && Bounded(s.buffer)
    && (s.buffer.initialized ==> Epoch(s.buffer, s.history))
    && (!s.buffer.initialized ==>
          s.buffer.pending == map[] && s.buffer.fifo == [] && !s.buffer.playing && Over(s.buffer, s.history))
  }

  /** Numbers are played in ascending order, each packet once and under its own number; every number passed was played
      or had no packet. A concealed number has silence of the size of the packet before its gap and of one accepted at
      most eight numbers behind it. */
  ghost predicate PlayedOnce(h: History) {
    var p := PlayedNumbers(h.start, h.log);
    && |h.log| == |p| + Missing(h.log)
    && (forall i, j | 0 <= i < j < |p| :: p[i] < p[j])
    && (forall n | n in p :: n in h.accepted && h.log[n - h.start] == Played(h.accepted[n]))
    && (forall n | n in h.accepted && n < h.Position() :: n in p)
    && Faithful(h)
  }

  /** An epoch that has ended: what was handed out is the beginning of its sound or, after an underrun, all of it, every
      accepted packet played, and silence to complete the last block. */
  ghost predicate Ended(h: History, channels: nat) {
    PlayedOnce(h) && (h.taken <= Rendered(h.log, channels) || Drained(h, channels))
  }

  /** The last epoch has ended; its losses are those counted, until the counters are reset. */
  ghost predicate Over(b: Buffer, h: History) {
    && (exists channels: nat :: Ended(h, channels))
    && (b.format != NO_FORMAT ==> Ended(h, b.Channels()) && b.counters.lost == h.lostBefore + Missing(h.log))
  }

  /** An epoch that is broken off, the buffer stopped or reset. */
  lemma EpochOver(b: Buffer, h: History, d: Buffer)
    requires Epoch(b, h)
    requires d.format == NO_FORMAT || (d.format == b.format && d.counters.lost == b.counters.lost)
    ensures Over(d, h)
  {
    hide PlayedOnce, AtTail, Waiting, Kept, Faithful, Recalled, Rendered, Missing;
    EpochPlayedOnce(b, h);
    assert h.taken <= h.taken + b.fifo;
    assert Ended(h, b.Channels());
  }

  lemma OverStays(b: Buffer, h: History, d: Buffer)
    requires Over(b, h)
    requires d.format == NO_FORMAT || (d.format == b.format && d.counters.lost == b.counters.lost)
    ensures Over(d, h)
  {
    hide Ended, Missing;
  }

  /** The epoch a packet opens; it is accepted at once. */
  function Opening(p: Packet, lost: nat): History {
    History(p.sequence, [], map[p.sequence as nat := p], [], lost)
  }

  /** The history after a push: unchanged, one packet longer, or that of a new epoch. */
  ghost function Pushed(s: State, p: Packet, now: nat): History
    requires now < TWO64 && s.buffer.lastProgress < TWO64
  {
    var b, h := s.buffer, s.history;
    if StartsOver(b, p, now) then Opening(p, b.counters.lost)
    else if Repeated(b, p) || IsOld(p.sequence, b.expected) then h
    else if Overruns(b, p) then Opening(p, b.counters.lost)
    else h.(accepted := h.accepted[h.Position() + Ahead(p.sequence, b.expected) := p])
  }

  ghost function Next(s: State, e: Event): State
    requires Good(s) && ValidEvent(e)
  {
    match e
    case PushEvent(p, now) => State(Push(s.buffer, p, now), Pushed(s, p, now))
    case PullEvent(now) =>
      assert s.buffer.initialized ==> s.buffer.Channels() > 0 by { if s.buffer.initialized { FormatOf(s); } }
      var r := Pull(s.buffer, now);
      State(r.buffer, Used(s.history, r))
    case ResetEvent => State(Reset(s.buffer), s.history)
  }

  lemma FormatOf(s: State)
    requires Good(s) && s.buffer.initialized
    ensures SoundFormat(s.buffer.format) && s.buffer.Channels() > 0
  {
    EpochFormat(s.buffer, s.history);
  }

  // Pushing.

  /** Starting over always lets the packet in. */
  lemma OpeningPush(b: Buffer, p: Packet, now: nat)
    requires now < TWO64 && b.lastProgress < TWO64 && StartsOver(b, p, now)
    ensures Push(b, p, now) == Insert(Opened(b, p, now), p, now)
  {
    assert FramesIn(map[]) == 0;
  }

  lemma OpeningIsGood(b: Buffer, p: Packet, now: nat)
    requires ValidPacket(p) && now < TWO64
    ensures Good(State(Insert(Begin(b, p, now), p, now), Opening(p, b.counters.lost)))
  {
    hide Epoch, FramesIn, FollowedBy, ValidPacket;
    var c := Insert(Begin(b, p, now), p, now);
    OpeningIsEpoch(b, p, now);
    OpeningIsBounded(c, p);
  }

  lemma OpeningIsBounded(c: Buffer, p: Packet)
    requires c.fifo == [] && c.pending == map[p.sequence as nat := p] && ValidPacket(p)
    ensures Bounded(c)
  {
    FramesInAdd(map[], p.sequence, p);
    assert FramesIn(map[]) == 0;
    assert c.pending == map[][p.sequence := p];
    assert QueueHolds(c.fifo, c.Channels(), 0);
  }

  lemma OpeningIsEpoch(b: Buffer, p: Packet, now: nat)
    requires ValidPacket(p)
    ensures Epoch(Insert(Begin(b, p, now), p, now), Opening(p, b.counters.lost))
  {
    hide Waiting, Kept, Faithful, Accounted, Recalled, AtTail, IsOld, Wrap;
    var c, h := Insert(Begin(b, p, now), p, now), Opening(p, b.counters.lost);
    OpeningPacket(c, h, p);
    OpeningLog(c, h, p);
  }

  lemma OpeningPacket(c: Buffer, h: History, p: Packet)
    requires ValidPacket(p) && h == Opening(p, h.lostBefore)
    requires c.pending == map[p.sequence := p] && c.expected == p.sequence && c.format == p.format
    ensures Wrap(h.Position()) == c.expected && Waiting(c, h) && Kept(c, h)
  {
    hide ValidPacket;
    assert Wrap(p.sequence) == p.sequence;
  }

  lemma OpeningLog(c: Buffer, h: History, p: Packet)
    requires h == Opening(p, h.lostBefore)
    requires c.fifo == [] && c.recent == [] && c.previousFrames == 0 && c.counters.lost == h.lostBefore
    ensures Faithful(h) && Accounted(c, h) && Recalled(c, h) && AtTail(c, h)
  {
    hide ValidPacket, Fits, Wrap;
  }

  lemma InsertKeepsKept(b: Buffer, h: History, p: Packet, now: nat)
    requires Kept(b, h) && b.expected == Wrap(h.Position()) && ValidPacket(p) && p.format == b.format
    requires !Repeated(b, p) && Ahead(p.sequence, b.expected) <= WINDOW
    ensures var n := h.Position() + Ahead(p.sequence, b.expected);
            n !in h.accepted && Kept(Insert(b, p, now), h.(accepted := h.accepted[n := p]))
  {
    hide Ahead, Wrap, ValidPacket;
    var n := h.Position() + Ahead(p.sequence, b.expected);
    assert Wrap(n) == p.sequence by { WrapOfAhead(p.sequence, h.Position()); }
  }

  lemma InsertKeepsWaiting(b: Buffer, h: History, p: Packet, now: nat)
    requires Waiting(b, h) && Ahead(p.sequence, b.expected) <= WINDOW
    requires h.Position() + Ahead(p.sequence, b.expected) !in h.accepted
    ensures Waiting(Insert(b, p, now), h.(accepted := h.accepted[h.Position() + Ahead(p.sequence, b.expected) := p]))
  {
    hide Ahead;
  }

  lemma AcceptingKeepsFaithful(h: History, n: nat, p: Packet)
    requires Faithful(h) && n !in h.accepted
    ensures Faithful(h.(accepted := h.accepted[n := p]))
  {
    var g := h.(accepted := h.accepted[n := p]);
    forall i | 0 <= i < |g.log| ensures Fits(g, i) {
      FitsStays(h, g, i);
    }
  }

  lemma InsertKeepsEpoch(b: Buffer, h: History, p: Packet, now: nat)
    requires Epoch(b, h) && ValidPacket(p) && p.format == b.format
    requires !Repeated(b, p) && Ahead(p.sequence, b.expected) <= WINDOW
    ensures var n := h.Position() + Ahead(p.sequence, b.expected);
            n !in h.accepted && Epoch(Insert(b, p, now), h.(accepted := h.accepted[n := p]))
  {
    hide Waiting, Kept, Faithful, Rendered, Missing, Recalled, AtTail, Ahead, Wrap, ValidPacket, IsOld;
    var n := h.Position() + Ahead(p.sequence, b.expected);
    InsertKeepsKept(b, h, p, now);
    InsertKeepsWaiting(b, h, p, now);
    AcceptingKeepsFaithful(h, n, p);
    InsertKeepsTail(b, h, p, now, n);
  }

  lemma InsertIsBounded(b: Buffer, p: Packet, now: nat)
    requires Bounded(b) && !Repeated(b, p) && !Overruns(b, p) && ValidPacket(p)
    ensures Bounded(Insert(b, p, now)) && Ahead(p.sequence, b.expected) <= WINDOW
  {
    hide QueueHolds, Ahead, IsOld, Overruns, FramesIn, Bounded;
    HasRoom(b, p);
    FramesInAdd(b.pending, p.sequence, p);
    SameQueue(b, Insert(b, p, now));
  }

  lemma HasRoom(b: Buffer, p: Packet)
    requires !Overruns(b, p)
    ensures Ahead(p.sequence, b.expected) <= WINDOW && |b.pending| < WINDOW && FramesIn(b.pending) <= b.format.rate / 4
  {
    hide Ahead, FramesIn;
    DivisionNonNegative(b);
  }

  lemma DivisionNonNegative(b: Buffer)
    ensures BufferedFrames(b) >= FramesIn(b.pending)
  {
    if b.format.channels != 0 {
      DivisionFloor(|b.fifo|, b.Channels());
    }
  }

  lemma InsertIsGood(s: State, p: Packet, now: nat)
    requires Good(s) && s.buffer.initialized && ValidPacket(p) && p.format == s.buffer.format && now < TWO64
    requires !Repeated(s.buffer, p) && !Overruns(s.buffer, p)
    ensures var n := s.history.Position() + Ahead(p.sequence, s.buffer.expected);
            && n !in s.history.accepted
            && Good(State(Insert(s.buffer, p, now), s.history.(accepted := s.history.accepted[n := p])))
  {
    hide Epoch, Bounded, Overruns, Repeated, Ahead, IsOld, ValidPacket;
    InsertIsBounded(s.buffer, p, now);
    InsertKeepsEpoch(s.buffer, s.history, p, now);
  }

  lemma SameQueue(b: Buffer, d: Buffer)
    requires Bounded(b) && d.fifo == b.fifo && d.format == b.format
    requires (|d.pending| <= WINDOW && FramesIn(d.pending) <= d.format.rate / 4 + 256) || d.pending == b.pending
    ensures Bounded(d)
  {
    hide QueueHolds, FramesIn;
    var q: nat :| q <= 255 && QueueHolds(b.fifo, b.Channels(), q);
    assert QueueHolds(d.fifo, d.Channels(), q);
  }

  lemma InsertKeepsTail(b: Buffer, h: History, p: Packet, now: nat, n: nat)
    requires Recalled(b, h) && AtTail(b, h)
    ensures Recalled(Insert(b, p, now), h.(accepted := h.accepted[n := p]))
    ensures AtTail(Insert(b, p, now), h.(accepted := h.accepted[n := p]))
  {
    hide PlayedNumbers, IsTail, Dense, FramesOf;
    var g := h.(accepted := h.accepted[n := p]);
    var q := PlayedNumbers(h.start, h.log);
    if h.log != [] && h.Position() != q[|q| - 1] + 1 {
      var m :| m in h.accepted && h.Position() <= m <= q[|q| - 1] + 1 + CONCEAL;
      assert m in g.accepted;
    }
  }

  /** A packet turned away leaves the epoch as it is. */
  lemma CountingIsGood(s: State, c: Counters, now: nat)
    requires Good(s) && c.lost == s.buffer.counters.lost
    ensures Good(State(s.buffer.(counters := c, lastValid := now), s.history))
  {
    hide Epoch, Bounded, Over;
    SameQueue(s.buffer, s.buffer.(counters := c, lastValid := now));
    if !s.buffer.initialized {
      OverStays(s.buffer, s.history, s.buffer.(counters := c, lastValid := now));
    }
    if s.buffer.initialized {
      SameEpoch(s.buffer, s.buffer.(counters := c, lastValid := now), s.history);
    }
  }

  lemma PushIsGood(s: State, p: Packet, now: nat)
    requires Good(s) && ValidPacket(p) && now < TWO64
    ensures Good(State(Push(s.buffer, p, now), Pushed(s, p, now)))
  {
    hide Good, Insert, Begin, Ahead, Wrap, FramesIn, Overruns, ValidPacket, IsOld;
    var b := s.buffer;
    assert b.lastProgress < TWO64 by { Clock(s); }
    var o := Opened(b, p, now);
    if StartsOver(b, p, now) {
      OpeningPush(b, p, now);
      var c := b.counters.(received := b.counters.received + 1);
      OpeningIsGood(if b.initialized then b.(counters := c.(discontinuities := c.discontinuities + 1), lastValid := now)
                    else b.(counters := c, lastValid := now), p, now);
    } else {
      CountingIsGood(s, o.counters, now);
      if Repeated(o, p) {
        CountingIsGood(s, o.counters.(duplicates := o.counters.duplicates + 1), now);
      } else if IsOld(p.sequence, o.expected) {
        CountingIsGood(s, o.counters.(late := o.counters.late + 1), now);
      } else {
        SameOverrun(b, o, p);
        if Overruns(o, p) {
          OpeningIsGood(o.(counters := o.counters.(discontinuities := o.counters.discontinuities + 1,
                                                   overruns := o.counters.overruns + 1)), p, now);
        } else {
          InsertIsGood(State(o, s.history), p, now);
        }
      }
    }
  }

  lemma Clock(s: State)
    requires Good(s)
    ensures s.buffer.lastProgress < TWO64
  {
  }

  lemma SameOverrun(b: Buffer, o: Buffer, p: Packet)
    requires o.pending == b.pending && o.fifo == b.fifo && o.format == b.format && o.expected == b.expected
    ensures Overruns(o, p) == Overruns(b, p)
  {
  }

  // Pulling.

  lemma EmptyIsGood(b: Buffer, h: History)
    requires b.pending == map[] && b.fifo == [] && !b.initialized && !b.playing && b.lastProgress < TWO64 && Over(b, h)
    ensures Good(State(b, h))
  {
    assert FramesIn(map[]) == 0;
    assert QueueHolds(b.fifo, b.Channels(), 0);
  }

  /** Apart from clocks and counters, the preparation leaves the buffer as it is, or stops it. */
  lemma PrepareIsGood(s: State, now: nat)
    requires Good(s) && now < TWO64
    ensures var r := Prepare(s.buffer, now);
            && Good(State(r.buffer, s.history))
            && (r.Now? ==> s.buffer.initialized && r.buffer.initialized && SameStream(s.buffer, r.buffer))
  {
    hide Epoch, Bounded, QueueHolds, FramesIn, FramesToNs, Over;
    var b := s.buffer;
    var r := Prepare(b, now);
    if r.buffer.initialized {
      SameEpoch(b, r.buffer, s.history);
      SameQueue(b, r.buffer);
    } else if r.buffer != b {
      EpochOver(b, s.history, r.buffer);
      EmptyIsGood(r.buffer, s.history);
    }
  }

  /** What is taken from the queue goes on where the last taking ended. */
  lemma TakingKeepsEpoch(b: Buffer, h: History, n: nat)
    requires Epoch(b, h) && n <= |b.fifo|
    ensures Epoch(b.(fifo := Rest(b.fifo, n)), h.(taken := h.taken + Head(b.fifo, n)))
  {
    hide AtTail, Waiting, Kept, Faithful, Recalled, Rendered, Missing;
    var c, g := b.(fifo := Rest(b.fifo, n)), h.(taken := h.taken + Head(b.fifo, n));
    assert h.taken + b.fifo == g.taken + c.fifo;
    TakingKeepsPackets(b, h, c, g);
    TakingKeepsTail(b, h, c, g);
  }

  lemma TakingKeepsPackets(b: Buffer, h: History, c: Buffer, g: History)
    requires Waiting(b, h) && Kept(b, h) && Faithful(h)
    requires c.pending == b.pending && c.expected == b.expected && c.format == b.format
    requires g.start == h.start && g.log == h.log && g.accepted == h.accepted
    ensures Waiting(c, g) && Kept(c, g) && Faithful(g)
  {
    hide Ahead, Wrap, ValidPacket;
    forall i | 0 <= i < |g.log| ensures Fits(g, i) {
      FitsStays(h, g, i);
    }
  }

  lemma TakingKeepsTail(b: Buffer, h: History, c: Buffer, g: History)
    requires Recalled(b, h) && AtTail(b, h)
    requires c.recent == b.recent && c.previousFrames == b.previousFrames
    requires g.start == h.start && g.log == h.log && g.accepted == h.accepted
    ensures Recalled(c, g) && AtTail(c, g)
  {
    hide IsTail, Dense, PlayedNumbers, FramesOf;
  }

  lemma QueueShort(fifo: seq<real>, channels: nat, q: nat, m: nat)
    requires QueueHolds(fifo, channels, q) && q < m
    ensures |fifo| <= m * channels
  {
    ProductMonotone(q, m, channels);
  }

  /** Everything accepted was played, and the last block is completed with silence. */
  ghost predicate Drained(h: History, channels: nat) {
    && (forall n | n in h.accepted :: h.start <= n < h.Position() && h.log[n - h.start] == Played(h.accepted[n]))
    && exists k: nat :: h.taken == Rendered(h.log, channels) + Silence(k)
  }

  lemma AllPlayed(b: Buffer, h: History, n: nat)
    requires Epoch(b, h) && b.pending == map[] && |b.fifo| <= n
    ensures Drained(h.(taken := h.taken + Head(b.fifo, n)), b.Channels())
  {
    hide Waiting, Faithful, Recalled, Rendered, Missing, Wrap, AtTail, ValidPacket;
    var g := h.(taken := h.taken + Head(b.fifo, n));
    assert Head(b.fifo, n) == b.fifo + Silence(n - |b.fifo|);
    assert g.taken == Rendered(g.log, b.Channels()) + Silence(n - |b.fifo|);
  }

  lemma EmitIsGood(filled: Filled, g: History, consume: nat, timestamp: nat, q: nat)
    requires filled.ok && Epoch(filled.buffer, g) && filled.buffer.initialized && filled.buffer.lastProgress < TWO64
    requires 0 < consume <= q <= consume + 255 && QueueHolds(filled.buffer.fifo, filled.buffer.Channels(), q)
    requires |filled.buffer.pending| <= WINDOW && FramesIn(filled.buffer.pending) <= filled.buffer.format.rate / 4 + 256
    ensures var r := Emit(filled, consume, timestamp);
            Good(State(r.buffer, g.(taken := g.taken + r.input))) && r.buffer.initialized
  {
    hide Epoch, FramesIn, QueueHolds, BlockFrames, FramesToNs, Resampled;
    var f := filled.buffer;
    var r, n := Emit(filled, consume, timestamp), consume * f.Channels();
    QueueShrinks(f.fifo, f.Channels(), q, consume);
    TakingKeepsEpoch(f, g, n);
    SameEpoch(f.(fifo := Rest(f.fifo, n)), r.buffer, g.(taken := g.taken + Head(f.fifo, n)));
    assert QueueHolds(r.buffer.fifo, r.buffer.Channels(), q - consume);
  }

  lemma EmitDrains(filled: Filled, g: History, consume: nat, timestamp: nat, q: nat)
    requires !filled.ok && Epoch(filled.buffer, g) && filled.buffer.lastProgress < TWO64
    requires q < consume && QueueHolds(filled.buffer.fifo, filled.buffer.Channels(), q)
    requires filled.buffer.pending == map[]
    ensures var r := Emit(filled, consume, timestamp);
            && Good(State(r.buffer, g.(taken := g.taken + r.input)))
            && !r.buffer.initialized && Drained(g.(taken := g.taken + r.input), filled.buffer.Channels())
  {
    hide Epoch, QueueHolds, BlockFrames, FramesToNs, Resampled, Drained, Over;
    var f := filled.buffer;
    var r := Emit(filled, consume, timestamp);
    QueueShort(f.fifo, f.Channels(), q, consume);
    AllPlayed(f, g, consume * f.Channels());
    DrainedOver(f, g, r.buffer, g.(taken := g.taken + r.input));
    EmptyIsGood(r.buffer, g.(taken := g.taken + r.input));
  }

  lemma DrainedOver(b: Buffer, h: History, d: Buffer, g: History)
    requires Epoch(b, h) && Drained(g, b.Channels()) && g == h.(taken := g.taken)
    requires d.format == b.format && d.counters.lost == b.counters.lost
    ensures Over(d, g)
  {
    hide PlayedOnce, AtTail, Waiting, Kept, Faithful, Recalled, Rendered, Missing, Drained;
    EpochPlayedOnce(b, h);
    SamePlayed(h, g);
    assert Ended(g, b.Channels());
  }

  lemma SamePlayed(h: History, g: History)
    requires PlayedOnce(h) && g == h.(taken := g.taken)
    ensures PlayedOnce(g)
  {
    hide PlayedNumbers, Missing;
    forall i | 0 <= i < |g.log| ensures Fits(g, i) {
      FitsStays(h, g, i);
    }
  }

  /** The history with what a block used up. */
  function Used(h: History, r: Pulled): History {
    h.(log := h.log + r.entries, taken := h.taken + r.input)
  }

  /** The block takes what the queue was filled with. */
  lemma MakeIsGood(b: Buffer, h: History, timestamp: nat)
    requires Epoch(b, h) && Bounded(b) && b.Channels() > 0 && b.initialized && b.lastProgress < TWO64
    ensures var r := Make(b, timestamp);
            && Good(State(r.buffer, Used(h, r)))
            && (!r.buffer.initialized ==> Drained(Used(h, r), b.Channels()))
  {
    hide Epoch, FramesIn, QueueHolds, Consumption, Good, Fill, Emit, Drained;
    var consume, d := Consumption(b), Corrected(b);
    SameEpoch(b, d, h);
    var q: nat :| q <= 255 && QueueHolds(b.fifo, b.Channels(), q);
    var q' := FillKeeps(d, h, consume, q);
    var filled := Fill(d, consume);
    FillKeepsClock(d, consume);
    var g := h.With(filled.entries);
    var r := Make(b, timestamp);
    EmitUses(filled, consume, timestamp, h);
    if filled.ok {
      EmitIsGood(filled, g, consume, timestamp, q');
    } else {
      EmitDrains(filled, g, consume, timestamp, q');
    }
  }

  lemma EmitUses(filled: Filled, consume: nat, timestamp: nat, h: History)
    requires consume > 0
    ensures var r := Emit(filled, consume, timestamp);
            Used(h, r) == h.With(filled.entries).(taken := h.taken + r.input)
  {
  }

  /** What filling has nothing to do with. */
  ghost predicate SameClock(b: Buffer, f: Buffer) {
    && f.lastProgress == b.lastProgress && f.initialized == b.initialized && f.playing == b.playing
    && f.base == b.base && f.emitted == b.emitted && f.lastEnd == b.lastEnd && f.format == b.format
    && f.first == b.first && f.targetMs == b.targetMs
    && f.counters == b.counters.(lost := f.counters.lost, discontinuities := f.counters.discontinuities)
  }

  lemma AdvanceKeepsClock(b: Buffer)
    ensures SameClock(b, Advance(b).buffer)
  {
    hide Gap, Nearest, CanConceal, Ahead, Remember, Next32;
  }

  lemma {:induction false} FillKeepsClock(b: Buffer, frames: nat)
    requires b.Channels() > 0
    ensures SameClock(b, Fill(b, frames).buffer)
    decreases |b.pending|, Gap(b)
  {
    hide Gap, Advance;
    AdvanceKeepsClock(b);
    if |b.fifo| / b.Channels() < frames && Advance(b).ok {
      FillKeepsClock(Advance(b).buffer, frames);
    }
  }

  lemma PullIsGood(s: State, now: nat)
    requires Good(s) && now < TWO64 && (s.buffer.initialized ==> s.buffer.Channels() > 0)
    ensures var r := Pull(s.buffer, now);
            Good(State(r.buffer, Used(s.history, r)))
  {
    hide Epoch, Bounded, Make, Prepare, Fill, Emit, Drained;
    PrepareIsGood(s, now);
    match Prepare(s.buffer, now)
    case NotYet(p) =>
      assert Used(s.history, Pulled(p, None, [], [])) == s.history;
    case Now(p, timestamp) =>
      MakeIsGood(p, s.history, timestamp);
  }

  // Runs.

  /** A buffer as it is constructed; the numbers it expects before its first packet are not used. */
  ghost predicate Fresh(b: Buffer) {
    && b.pending == map[] && b.fifo == [] && b.recent == [] && b.format == NO_FORMAT && b.counters == ZERO
    && b.lastProgress == 0 && b.emitted == 0 && b.base == 0 && b.lastEnd == 0 && !b.initialized && !b.playing
  }

  lemma NextIsGood(s: State, e: Event)
    requires Good(s) && ValidEvent(e)
    ensures Good(Next(s, e))
  {
    hide Epoch, Bounded, Push, Pull, Pushed, ValidPacket, Over;
    match e
    case PushEvent(p, now) => PushIsGood(s, p, now);
    case PullEvent(now) =>
      if s.buffer.initialized {
        FormatOf(s);
      }
      PullIsGood(s, now);
    case ResetEvent =>
      if s.buffer.initialized {
        EpochOver(s.buffer, s.history, Reset(s.buffer));
      } else {
        OverStays(s.buffer, s.history, Reset(s.buffer));
      }
      EmptyIsGood(Reset(s.buffer), s.history);
  }

  /** The state after any run of valid events. */
  ghost function Run(b: Buffer, events: seq<Event>): (s: State)
    requires Fresh(b) && forall i | 0 <= i < |events| :: ValidEvent(events[i])
    ensures Good(s)
  {
    hide Good, Next, Over;
    if events == [] then
      NothingOver(b);
      EmptyIsGood(b, History(0, [], map[], [], 0));
      State(b, History(0, [], map[], [], 0))
    else
      var before := Run(b, events[..|events| - 1]);
      NextIsGood(before, events[|events| - 1]);
      Next(before, events[|events| - 1])
  }

  lemma NothingOver(b: Buffer)
    requires b.format == NO_FORMAT
    ensures Over(b, History(0, [], map[], [], 0))
  {
    var h := History(0, [], map[], [], 0);
    assert PlayedNumbers(h.start, h.log) == [] && Missing(h.log) == 0;
    assert Ended(h, 0);
  }

  /** Numbers are played in strictly ascending order, and every number passed was played or counted as lost. */
  lemma {:induction false} PlayedInOrder(start: nat, log: seq<Entry>)
    ensures var p := PlayedNumbers(start, log);
            && |log| == |p| + Missing(log)
            && (forall i, j | 0 <= i < j < |p| :: p[i] < p[j])
            && (forall n :: n in p <==> start <= n < start + |log| && log[n - start].Played?)
  {
    hide PlayedNumbers, Missing;
    if log == [] {
      NonePlayed(start);
    } else {
      var n := |log| - 1;
      PlayedInOrder(start, log[..n]);
      assert log[..n] + [log[n]] == log;
      AppendEntry(log[..n], log[n], start, 0);
      var p, q := PlayedNumbers(start, log[..n]), PlayedNumbers(start, log);
      forall m ensures m in q <==> start <= m < start + |log| && log[m - start].Played? {
        assert m in q <==> m in p || (log[n].Played? && m == start + n);
      }
    }
  }

  lemma NonePlayed(start: nat)
    ensures PlayedNumbers(start, []) == [] && Missing([]) == 0
  {
  }

  /** The samples handed out and queued are those of the numbers passed, played once and in order; and the numbers
      passed are the packets played plus the losses counted. */
  ghost predicate InOrderOnce(b: Buffer, h: History) {
    && PlayedOnce(h)
    && h.taken + b.fifo == Rendered(h.log, b.Channels())
    && b.counters.lost == h.lostBefore + Missing(h.log)
    && b.expected == Wrap(h.Position())
  }

  /** In every run: an epoch that lasts has handed out and queued the sound of the numbers passed; one that has ended
      has handed out the beginning of it or, after an underrun, all of it and silence. */
  lemma EpochIsAccounted(b: Buffer, events: seq<Event>)
    requires Fresh(b) && forall i | 0 <= i < |events| :: ValidEvent(events[i])
    ensures var s := Run(b, events);
            if s.buffer.initialized then InOrderOnce(s.buffer, s.history) else Over(s.buffer, s.history)
  {
    hide Run, Fresh, InOrderOnce, Epoch, Bounded, ValidEvent, Over;
    if Run(b, events).buffer.initialized {
      EpochInOrder(Run(b, events).buffer, Run(b, events).history);
    }
  }

  lemma EpochInOrder(b: Buffer, h: History)
    requires Epoch(b, h)
    ensures InOrderOnce(b, h)
  {
    hide Waiting, Kept, Faithful, Recalled, AtTail, Rendered, Missing, PlayedOnce, Wrap;
    EpochPlayedOnce(b, h);
  }

  lemma EpochPlayedOnce(b: Buffer, h: History)
    requires Epoch(b, h)
    ensures PlayedOnce(h)
  {
    hide Waiting, Recalled, AtTail, Rendered, Missing, PlayedNumbers, Wrap, FollowedBy;
    PlayedInOrder(h.start, h.log);
    forall n | n in PlayedNumbers(h.start, h.log)
      ensures n in h.accepted && h.log[n - h.start] == Played(h.accepted[n])
    {
      assert Fits(h, n - h.start);
    }
  }

  /** Memory stays bounded: a window of packets, and the queue. */
  lemma MemoryIsBounded(b: Buffer, events: seq<Event>)
    requires Fresh(b) && forall i | 0 <= i < |events| :: ValidEvent(events[i])
    ensures var c := Run(b, events).buffer;
            && |c.pending| <= 512 && BufferedFrames(c) <= c.format.rate / 4 + 511
            && (c.format.channels > 0 ==> |c.fifo| / c.Channels() <= 255)
            && (forall k | k in c.pending :: Ahead(k, c.expected) <= 512)
  {
    hide Kept, Faithful, Accounted, Recalled, AtTail, Run, FramesIn, QueueHolds, Ahead, Wrap, Fresh;
    var c := Run(b, events).buffer;
    var q: nat :| q <= 255 && QueueHolds(c.fifo, c.Channels(), q);
    if c.format.channels > 0 {
      QueueLength(c.fifo, c.Channels(), q);
    }
  }

  /** The list of recent numbers turns away only what is late in any case. */
  lemma RecentIsLate(b: Buffer, events: seq<Event>, number: Word32)
    requires Fresh(b) && forall i | 0 <= i < |events| :: ValidEvent(events[i])
    requires Run(b, events).buffer.initialized && number in Run(b, events).buffer.recent
    ensures IsOld(number, Run(b, events).buffer.expected)
  {
    hide Epoch, Run, Bounded, Fresh, ValidEvent, Over;
    RecentIsOld(Run(b, events).buffer, Run(b, events).history, number);
  }

  /** In every run: the list holds the numbers played last in the epoch, 128 of them or all there were. */
  lemma RecentAreLastPlayed(b: Buffer, events: seq<Event>)
    requires Fresh(b) && forall i | 0 <= i < |events| :: ValidEvent(events[i])
    requires Run(b, events).buffer.initialized
    ensures var s := Run(b, events);
            var p, recent := PlayedNumbers(s.history.start, s.history.log), s.buffer.recent;
            && |recent| == Min(128, |p|)
            && forall j | 0 <= j < |recent| :: recent[j] == Wrap(p[|p| - |recent| + j])
  {
    hide Waiting, Kept, Faithful, Accounted, PlayedNumbers, Run, Bounded, Fresh, ValidEvent, Over, AtTail, Wrap;
  }

  lemma RecentIsOld(c: Buffer, h: History, number: Word32)
    requires Epoch(c, h) && number in c.recent
    ensures IsOld(number, c.expected)
  {
    hide Waiting, Kept, Faithful, Accounted, PlayedNumbers, FramesOf, Wrap, Ahead, IsOld;
    var p := PlayedNumbers(h.start, h.log);
    var j :| 0 <= j < |c.recent| && c.recent[j] == number;
    var n := p[|p| - |c.recent| + j];
    assert h.Position() <= p[|p| - 1] + 9;
    assert p[|p| - 1] <= n + 521 * 128;
    Behind(n, h.Position());
  }

  lemma Behind(n: nat, position: nat)
    requires n < position <= n + HALF32
    ensures IsOld(Wrap(n), Wrap(position))
  {
  }
}
