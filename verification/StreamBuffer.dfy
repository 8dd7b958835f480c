/** The jitter buffer of src/stream-buffer.cpp. Samples are exact numbers; clock readings are 64-bit words, whose
    differences wrap, while output times are unbounded. */
module StreamBuffer {
  import opened Words
  import opened VbanProtocol

  const STALL: nat := 250_000_000
  const BACKLOG: nat := 100_000_000
  const WINDOW: nat := 512
  const CONCEAL: nat := 8
  const HISTORY: nat := 128
  const NO_FORMAT := Format(0, 0, 0)

  datatype Counters = Counters(
    received: nat, lost: nat, duplicates: nat, reordered: nat, late: nat,
    underruns: nat, overruns: nat, discontinuities: nat, driftCorrections: nat)

  const ZERO := Counters(0, 0, 0, 0, 0, 0, 0, 0, 0)

  datatype Buffer = Buffer(
    targetMs: nat, format: Format, counters: Counters,
    pending: map<Word32, Packet>, fifo: seq<real>, recent: seq<Word32>,
    expected: Word32, newest: Word32, previousFrames: nat,
    first: nat, lastValid: nat, lastProgress: nat, base: nat, emitted: nat, lastEnd: nat,
    initialized: bool, playing: bool)
  {
    function Channels(): nat {
      format.OutputChannels()
    }
  }

  datatype Block = Block(format: Format, frames: nat, timestamp: nat, samples: seq<real>)

  function Reset(b: Buffer): Buffer {
    b.(pending := map[], fifo := [], recent := [], format := NO_FORMAT, counters := ZERO,
       first := 0, lastValid := 0, lastProgress := 0, base := 0, emitted := 0, previousFrames := 0,
       initialized := false, playing := false)
  }

  function Begin(b: Buffer, p: Packet, now: nat): Buffer {
    b.(pending := map[], fifo := [], recent := [], format := p.format, expected := p.sequence, newest := p.sequence,
       first := now, lastProgress := now, playing := false, initialized := true, previousFrames := 0)
  }

  ghost function FramesIn(pending: map<Word32, Packet>): nat {
    if pending == map[] then 0 else var k :| k in pending; pending[k].frames + FramesIn(pending - {k})
  }

  /** The sum does not depend on the order of the packets. */
  lemma {:induction false} FramesInSplit(pending: map<Word32, Packet>, k: Word32)
    requires k in pending
    ensures FramesIn(pending) == pending[k].frames + FramesIn(pending - {k})
    decreases |pending|
  {
    var j :| j in pending && FramesIn(pending) == pending[j].frames + FramesIn(pending - {j});
    if j != k {
      FramesInSplit(pending - {j}, k);
      FramesInSplit(pending - {k}, j);
      assert pending - {j} - {k} == pending - {k} - {j};
    }
  }

  lemma FramesInAdd(pending: map<Word32, Packet>, k: Word32, p: Packet)
    requires k !in pending
    ensures FramesIn(pending[k := p]) == FramesIn(pending) + p.frames
  {
    FramesInSplit(pending[k := p], k);
    assert pending[k := p] - {k} == pending;
  }

  ghost function BufferedFrames(b: Buffer): nat {
    (if b.format.channels == 0 then 0 else |b.fifo| / b.Channels()) + FramesIn(b.pending)
  }

  /** A new stream, another format, or no progress for a quarter of a second starts over. */
  predicate StartsOver(b: Buffer, p: Packet, now: nat)
    requires now < TWO64 && b.lastProgress < TWO64
  {
    !b.initialized || p.format != b.format || Sub64(now, b.lastProgress) > STALL
  }

  ghost function Opened(b: Buffer, p: Packet, now: nat): Buffer
    requires now < TWO64 && b.lastProgress < TWO64
  {
    var counted := b.(counters := b.counters.(received := b.counters.received + 1), lastValid := now);
    if !StartsOver(b, p, now) then counted
    else
      var c := counted.counters;
      var ended := counted.(counters := c.(discontinuities := c.discontinuities + 1));
      Begin(if b.initialized then ended else counted, p, now)
  }

  predicate Repeated(b: Buffer, p: Packet) {
    p.sequence in b.pending || p.sequence in b.recent
  }

  ghost predicate Overruns(b: Buffer, p: Packet) {
    Ahead(p.sequence, b.expected) > WINDOW || |b.pending| >= WINDOW || BufferedFrames(b) > b.format.rate / 4
  }

  function Insert(b: Buffer, p: Packet, now: nat): Buffer {
    var c := b.counters;
    var earlier := IsOld(p.sequence, b.newest);
    b.(counters := if earlier then c.(reordered := c.reordered + 1) else c,
       newest := if earlier then b.newest else p.sequence,
       lastProgress := now,
       pending := b.pending[p.sequence := p])
  }

  ghost function Push(b: Buffer, p: Packet, now: nat): Buffer
    requires now < TWO64 && b.lastProgress < TWO64
  {
    var o := Opened(b, p, now);
    var c := o.counters;
    if Repeated(o, p) then o.(counters := c.(duplicates := c.duplicates + 1))
    else if IsOld(p.sequence, o.expected) then o.(counters := c.(late := c.late + 1))
    else if Overruns(o, p) then
      var overrun := o.(counters := c.(discontinuities := c.discontinuities + 1, overruns := c.overruns + 1));
      Insert(Begin(overrun, p, now), p, now)
    else Insert(o, p, now)
  }

  /** What became of one sequence number. */
  datatype Entry = Played(packet: Packet) | Concealed(frames: nat) | Skipped

  ghost predicate IsNearest(pending: map<Word32, Packet>, expected: Word32, k: Word32) {
    && k in pending && Ahead(k, expected) < TWO32 - 1
    && forall j | j in pending :: Ahead(k, expected) <= Ahead(j, expected)
  }

  /** The pending number that comes first after the expected one. */
  ghost function Nearest(pending: map<Word32, Packet>, expected: Word32): (n: Option<Word32>)
    ensures n.Some? ==> IsNearest(pending, expected, n.value)
    ensures n.None? ==> forall k | k in pending :: !IsNearest(pending, expected, k)
  {
    if exists k :: IsNearest(pending, expected, k) then var k :| IsNearest(pending, expected, k); Some(k) else None
  }

  lemma NearestUnique(pending: map<Word32, Packet>, expected: Word32, k: Word32)
    requires IsNearest(pending, expected, k)
    ensures Nearest(pending, expected) == Some(k)
  {
    var n := Nearest(pending, expected).value;
    assert Ahead(n, expected) == Ahead(k, expected);
  }

  function Silence(n: nat): (z: seq<real>)
    ensures |z| == n
  {
    seq(n, _ => 0.0)
  }

  function Remember(recent: seq<Word32>, number: Word32): seq<Word32> {
    var all := recent + [number];
    if |all| > HISTORY then all[1..] else all
  }

  /** The expected packet is moved to the queue. */
  function Consume(b: Buffer): Buffer
    requires b.expected in b.pending
  {
    var p := b.pending[b.expected];
    b.(fifo := b.fifo + p.samples, previousFrames := p.frames, recent := Remember(b.recent, b.expected),
       pending := b.pending - {b.expected}, expected := Next32(b.expected))
  }

  /** The expected packet is replaced by as much silence as the packet before it had. */
  function Conceal(b: Buffer): Buffer {
    b.(fifo := b.fifo + Silence(b.previousFrames * b.Channels()), expected := Next32(b.expected),
       counters := b.counters.(lost := b.counters.lost + 1))
  }

  /** The gap in front of the next packet is given up. */
  function Jump(b: Buffer, next: Word32): Buffer {
    b.(expected := next,
       counters := b.counters.(lost := b.counters.lost + Ahead(next, b.expected),
                               discontinuities := b.counters.discontinuities + 1))
  }

  predicate CanConceal(b: Buffer, next: Word32)
    requires next in b.pending
  {
    Ahead(next, b.expected) <= CONCEAL && b.previousFrames != 0 && b.previousFrames == b.pending[next].frames
  }

  function Skips(n: nat): (s: seq<Entry>)
    ensures |s| == n && forall i | 0 <= i < n :: s[i] == Skipped
  {
    seq(n, _ => Skipped)
  }

  /** The distance to the nearest pending packet. */
  ghost function Gap(b: Buffer): nat {
    var n := Nearest(b.pending, b.expected);
    if n.None? then 0 else Ahead(n.value, b.expected)
  }

  lemma ConcealNarrowsGap(b: Buffer)
    requires b.expected !in b.pending && Nearest(b.pending, b.expected).Some?
    ensures Gap(Conceal(b)) + 1 == Gap(b)
    ensures Nearest(b.pending, Next32(b.expected)) == Nearest(b.pending, b.expected)
  {
    var n := Nearest(b.pending, b.expected).value;
    forall j | j in b.pending ensures Ahead(j, Next32(b.expected)) + 1 == Ahead(j, b.expected) {
    }
    NearestUnique(b.pending, Next32(b.expected), n);
  }

  datatype Filled = Filled(buffer: Buffer, ok: bool, entries: seq<Entry>)

  /** One turn of the filling loop; it fails when nothing is pending. */
  ghost function Advance(b: Buffer): (r: Filled)
    ensures r.ok ==> |r.buffer.pending| < |b.pending| || (r.buffer.pending == b.pending && Gap(r.buffer) < Gap(b))
    ensures r.buffer.format == b.format
  {
    if b.expected in b.pending then
      assert |b.pending - {b.expected}| < |b.pending| by { SmallerMap(b.pending, b.expected); }
      Filled(Consume(b), true, [Played(b.pending[b.expected])])
    else
      var n := Nearest(b.pending, b.expected);
      if n.None? then Filled(b, false, [])
      else if CanConceal(b, n.value) then
        ConcealNarrowsGap(b);
        Filled(Conceal(b), true, [Concealed(b.previousFrames)])
      else
        assert |b.pending - {n.value}| < |b.pending| by { SmallerMap(b.pending, n.value); }
        Filled(Consume(Jump(b, n.value)), true, Skips(Ahead(n.value, b.expected)) + [Played(b.pending[n.value])])
  }

  lemma SmallerMap(pending: map<Word32, Packet>, k: Word32)
    requires k in pending
    ensures |pending - {k}| == |pending| - 1
  {
    assert pending == (pending - {k})[k := pending[k]];
  }

  /** Fills the queue with at least `frames` frames, or as many as there are. */
  ghost function Fill(b: Buffer, frames: nat): (r: Filled)
    requires b.Channels() > 0
    ensures r.buffer.format == b.format
    decreases |b.pending|, Gap(b)
  {
    if |b.fifo| / b.Channels() >= frames then Filled(b, true, [])
    else
      var step := Advance(b);
      if !step.ok then step
      else var rest := Fill(step.buffer, frames); rest.(entries := step.entries + rest.entries)
  }

  function Stopped(b: Buffer): Buffer {
    b.(pending := map[], fifo := [], initialized := false, playing := false)
  }

  function BlockFrames(rate: nat): nat {
    if rate / 100 > 1 then rate / 100 else 1
  }

  /** How many queued frames one block is made of: one more or less while the queue is far from its target. */
  ghost function Consumption(b: Buffer): (c: nat)
    ensures c > 0
  {
    var frames, queued := BlockFrames(b.format.rate), BufferedFrames(b);
    var target := b.format.rate * b.targetMs / 1000;
    var margin := if frames < target / 3 then target / 3 else frames;
    if queued > target + margin then frames + 1
    else if queued + margin < target && queued >= frames && frames > 1 then frames - 1
    else frames
  }

  /** The first `n` queued samples; silence where there are none. */
  function Head(fifo: seq<real>, n: nat): (h: seq<real>)
    ensures |h| == n
  {
    if n <= |fifo| then fifo[..n] else fifo + Silence(n - |fifo|)
  }

  function Rest(fifo: seq<real>, n: nat): seq<real> {
    if n <= |fifo| then fifo[n..] else []
  }

  function Row(input: seq<real>, channels: nat, f: nat): (r: seq<real>)
    requires (f + 1) * channels <= |input|
    ensures |r| == channels
  {
    Distribute(channels, f, 1);
    input[f * channels..(f + 1) * channels]
  }

  function Blend(a: seq<real>, b: seq<real>, mix: real): (r: seq<real>)
    requires |a| == |b|
    ensures |r| == |a|
  {
    seq(|a|, c requires 0 <= c < |a| => a[c] * (1.0 - mix) + b[c] * mix)
  }

  function Position(f: nat, consume: nat, frames: nat): real
    requires consume > 0
  {
    if frames > 1 then f as real * (consume - 1) as real / (frames - 1) as real else 0.0
  }

  lemma PositionInRange(f: nat, consume: nat, frames: nat)
    requires consume > 0 && f < frames
    ensures 0.0 <= Position(f, consume, frames) <= (consume - 1) as real
  {
    if frames > 1 {
      RatioInRange(f as real, (frames - 1) as real, (consume - 1) as real);
    }
  }

  lemma RatioInRange(f: real, n: real, c: real)
    requires 0.0 <= f <= n && n > 0.0 && c >= 0.0
    ensures 0.0 <= f * c / n <= c
  {
    assert 0.0 <= f * c <= n * c;
    assert n * c / n == c;
  }

  /** The first `n` frames of a block stretched or shrunk from `consume` to `frames` frames. */
  function Resampled(input: seq<real>, consume: nat, frames: nat, channels: nat, n: nat): (r: seq<real>)
    requires consume > 0 && |input| == consume * channels && n <= frames
    ensures |r| == n * channels
  {
    if n == 0 then []
    else
      PositionInRange(n - 1, consume, frames);
      var position := Position(n - 1, consume, frames);
      var a := position.Floor;
      var b := if a + 1 < consume then a + 1 else consume - 1;
      ProductMonotone(a + 1, consume, channels);
      ProductMonotone(b + 1, consume, channels);
      Distribute(channels, n - 1, 1);
      Resampled(input, consume, frames, channels, n - 1)
      + Blend(Row(input, channels, a), Row(input, channels, b), position - a as real)
  }

  /** Whether the call gets as far as making a block, and the buffer at that point. */
  datatype Ready = NotYet(buffer: Buffer) | Now(buffer: Buffer, timestamp: nat)

  function Prepare(b: Buffer, now: nat): Ready
    requires now < TWO64 && b.lastProgress < TWO64
  {
    if !b.initialized || b.format.rate == 0 then NotYet(b)
    else if Sub64(now, b.lastProgress) > STALL then NotYet(Stopped(b))
    else if !b.playing && now < b.first + b.targetMs * 1_000_000 then NotYet(b)
    else
      var p := if b.playing then b else b.(base := Max(now, b.lastEnd), emitted := 0, playing := true);
      var timestamp := p.base + FramesToNs(p.emitted, p.format.rate);
      if now < timestamp then NotYet(p)
      else if now - timestamp > BACKLOG then
        NotYet(Stopped(p.(counters := p.counters.(discontinuities := p.counters.discontinuities + 1))))
      else Now(p, timestamp)
  }

  datatype Pulled = Pulled(buffer: Buffer, block: Option<Block>, entries: seq<Entry>, input: seq<real>)

  /** The block made from `consume` queued frames once the queue is filled; `entries` and `input` say which numbers were
      used up and which samples went into it. */
  function Emit(filled: Filled, consume: nat, timestamp: nat): (r: Pulled)
    requires consume > 0
  {
    var f := filled.buffer;
    var frames, channels := BlockFrames(f.format.rate), f.Channels();
    var input := Head(f.fifo, consume * channels);
    var emitted := f.emitted + frames;
    var after := f.(fifo := Rest(f.fifo, consume * channels), emitted := emitted,
                    lastEnd := f.base + FramesToNs(emitted, f.format.rate),
                    counters := if filled.ok then f.counters else f.counters.(underruns := f.counters.underruns + 1));
    Pulled(
      if filled.ok then after else Stopped(after),
      Some(Block(f.format, frames, timestamp,
                 if consume == frames then input else Resampled(input, consume, frames, channels, frames))),
      filled.entries, input)
  }

  /** The buffer with a drift correction counted. */
  ghost function Corrected(b: Buffer): Buffer {
    if Consumption(b) == BlockFrames(b.format.rate) then b
    else b.(counters := b.counters.(driftCorrections := b.counters.driftCorrections + 1))
  }

  ghost function Make(b: Buffer, timestamp: nat): (r: Pulled)
    requires b.Channels() > 0
  {
    Emit(Fill(Corrected(b), Consumption(b)), Consumption(b), timestamp)
  }

  ghost function Pull(b: Buffer, now: nat): Pulled
    requires now < TWO64 && b.lastProgress < TWO64 && (b.initialized ==> b.Channels() > 0)
  {
    match Prepare(b, now)
    case NotYet(p) => Pulled(p, None, [], [])
    case Now(p, timestamp) => Make(p, timestamp)
  }
}
