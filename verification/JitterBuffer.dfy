/** The jitter buffer as an object: every operation is its specification in StreamBuffer. */
module JitterBuffer {
  import opened Words
  import opened VbanProtocol
  import opened StreamBuffer

  class JitterBuffer {
    const targetMs: nat
    var format: Format
    var counters: Counters
    var pending: map<Word32, Packet>
    var fifo: seq<real>
    var recent: seq<Word32>
    var expected: Word32
    var newest: Word32
    var previousFrames: nat
    var first: nat
    var lastValid: nat
    var lastProgress: nat
    var base: nat
    var emitted: nat
    var lastEnd: nat
    var initialized: bool
    var playing: bool

    ghost function Model(): Buffer
      reads this
    {
      Buffer(targetMs, format, counters, pending, fifo, recent, expected, newest, previousFrames,
             first, lastValid, lastProgress, base, emitted, lastEnd, initialized, playing)
    }

    constructor (targetMs: nat)
      ensures Model() == Buffer(targetMs, NO_FORMAT, ZERO, map[], [], [], 0, 0, 0, 0, 0, 0, 0, 0, 0, false, false)
    {
      this.targetMs := targetMs;
      format, counters := NO_FORMAT, ZERO;
      pending, fifo, recent := map[], [], [];
      expected, newest, previousFrames := 0, 0, 0;
      first, lastValid, lastProgress, base, emitted, lastEnd := 0, 0, 0, 0, 0, 0;
      initialized, playing := false, false;
    }

    method Reset()
      modifies this
      ensures Model() == StreamBuffer.Reset(old(Model()))
    {
      Clear();
      ZeroClocks();
      format, counters := NO_FORMAT, ZERO;
      previousFrames := 0;
      initialized, playing := false, false;
    }

    method Clear()
      modifies this`pending, this`fifo, this`recent
      ensures pending == map[] && fifo == [] && recent == []
    {
      pending, fifo, recent := map[], [], [];
    }

    method ZeroClocks()
      modifies this`first, this`lastValid, this`lastProgress, this`base, this`emitted
      ensures first == lastValid == lastProgress == base == emitted == 0
    {
      first, lastValid, lastProgress, base, emitted := 0, 0, 0, 0, 0;
    }

    method Begin(p: Packet, now: nat)
      modifies this
      ensures Model() == StreamBuffer.Begin(old(Model()), p, now)
    {
      Clear();
      format := p.format;
      expected, newest := p.sequence, p.sequence;
      first, lastProgress := now, now;
      playing := false;
      initialized := true;
      previousFrames := 0;
    }

    method BufferedFrames() returns (n: nat)
      ensures n == StreamBuffer.BufferedFrames(Model())
    {
      n := if format.channels == 0 then 0 else |fifo| / format.OutputChannels();
      var rest := pending;
      while rest != map[]
        invariant n + FramesIn(rest) == StreamBuffer.BufferedFrames(Model())
        decreases |rest|
      {
        var k :| k in rest;
        FramesInSplit(rest, k);
        SmallerMap(rest, k);
        n := n + rest[k].frames;
        rest := rest - {k};
      }
    }

    /** Counts the packet, and starts over if the stream does. */
    method Open(p: Packet, now: nat)
      requires now < TWO64 && lastProgress < TWO64
      modifies this
      ensures Model() == Opened(old(Model()), p, now)
    {
      counters := counters.(received := counters.received + 1);
      lastValid := now;
      if !initialized || p.format != format || Sub64(now, lastProgress) > STALL {
        if initialized {
          counters := counters.(discontinuities := counters.discontinuities + 1);
        }
        Begin(p, now);
      }
    }

    method Push(p: Packet, now: nat)
      requires now < TWO64 && lastProgress < TWO64
      modifies this
      ensures Model() == StreamBuffer.Push(old(Model()), p, now)
    {
      hide StreamBuffer.BufferedFrames, Ahead, StreamBuffer.Begin, Opened, Insert;
      Open(p, now);
      if p.sequence in pending || p.sequence in recent {
        counters := counters.(duplicates := counters.duplicates + 1);
        return;
      }
      var distance := Ahead(p.sequence, expected);
      if distance >= HALF32 {
        counters := counters.(late := counters.late + 1);
        return;
      }
      var queued := BufferedFrames();
      if distance > WINDOW || |pending| >= WINDOW || queued > format.rate / 4 {
        counters := counters.(discontinuities := counters.discontinuities + 1, overruns := counters.overruns + 1);
        Begin(p, now);
      }
      Admit(p, now);
    }

    method Admit(p: Packet, now: nat)
      modifies this
      ensures Model() == Insert(old(Model()), p, now)
    {
      hide Ahead;
      if Ahead(p.sequence, newest) >= HALF32 {
        counters := counters.(reordered := counters.reordered + 1);
      } else {
        newest := p.sequence;
      }
      lastProgress := now;
      pending := pending[p.sequence := p];
    }

    /** The packet that comes first after the expected number, however the map is ordered. */
    method FindNearest() returns (next: Option<Word32>, gap: Word32)
      ensures next == Nearest(pending, expected)
      ensures next.Some? ==> next.value in pending && gap == Ahead(next.value, expected)
    {
      next, gap := None, TWO32 - 1;
      var rest := pending.Keys;
      while rest != {}
        invariant rest <= pending.Keys
        invariant next.Some? ==> next.value in pending && gap == Ahead(next.value, expected) < TWO32 - 1
        invariant next.None? ==> gap == TWO32 - 1
        invariant forall j | j in pending && j !in rest :: gap <= Ahead(j, expected)
        decreases |rest|
      {
        var candidate :| candidate in rest;
        var d := Ahead(candidate, expected);
        if d < gap {
          next, gap := Some(candidate), d;
        }
        rest := rest - {candidate};
      }
      if next.Some? {
        NearestUnique(pending, expected, next.value);
      }
    }

    /** Moves the packet with the expected number to the queue. */
    method TakeExpected()
      requires expected in pending
      modifies this
      ensures Model() == Consume(old(Model()))
    {
      hide Remember, Next32;
      fifo := fifo + pending[expected].samples;
      previousFrames := pending[expected].frames;
      Recall(expected);
      pending := pending - {expected};
      expected := Next32(expected);
    }

    /** Keeps the last 128 numbers. */
    method Recall(number: Word32)
      modifies this`recent
      ensures recent == Remember(old(recent), number)
    {
      recent := recent + [number];
      if |recent| > HISTORY {
        recent := recent[1..];
      }
    }

    /** Replaces the expected number by silence. */
    method ConcealExpected()
      modifies this
      ensures Model() == Conceal(old(Model()))
    {
      fifo := fifo + Silence(previousFrames * format.OutputChannels());
      counters := counters.(lost := counters.lost + 1);
      expected := Next32(expected);
    }

    /** Gives up the numbers in front of `next`. */
    method JumpTo(next: Word32, gap: Word32)
      requires gap == Ahead(next, expected)
      modifies this
      ensures Model() == Jump(old(Model()), next)
    {
      counters := counters.(lost := counters.lost + gap, discontinuities := counters.discontinuities + 1);
      expected := next;
    }

    /** One turn of the filling loop. */
    method AdvanceOnce() returns (ok: bool)
      modifies this
      ensures var step := Advance(old(Model())); Model() == step.buffer && ok == step.ok
    {
      hide Consume, Conceal, Ahead, Nearest;
      if expected in pending {
        TakeExpected();
        return true;
      }
      if pending == map[] {
        return false;
      }
      var next, gap := FindNearest();
      if next.None? {
        return false;
      }
      if gap <= CONCEAL && previousFrames != 0 && previousFrames == pending[next.value].frames {
        ConcealExpected();
      } else {
        JumpTo(next.value, gap);
        TakeExpected();
      }
      return true;
    }

    method Fill(frames: nat) returns (ok: bool)
      requires format.OutputChannels() > 0
      modifies this
      ensures var f := StreamBuffer.Fill(old(Model()), frames); Model() == f.buffer && ok == f.ok
    {
      hide Advance, Gap;
      var channels := format.OutputChannels();
      while |fifo| / channels < frames
        invariant channels == format.OutputChannels() > 0
        invariant StreamBuffer.Fill(Model(), frames).buffer == StreamBuffer.Fill(old(Model()), frames).buffer
        invariant StreamBuffer.Fill(Model(), frames).ok == StreamBuffer.Fill(old(Model()), frames).ok
        decreases |pending|, Gap(Model())
      {
        var advanced := AdvanceOnce();
        if !advanced {
          return false;
        }
      }
      return true;
    }

    /** The block stretched or shrunk by one frame. */
    method Resample(input: seq<real>, consume: nat, frames: nat, channels: nat) returns (samples: seq<real>)
      requires consume > 0 && |input| == consume * channels
      ensures samples == Resampled(input, consume, frames, channels, frames)
    {
      hide Row, Blend, Position;
      samples := [];
      for f := 0 to frames
        invariant samples == Resampled(input, consume, frames, channels, f)
      {
        PositionInRange(f, consume, frames);
        var pos := Position(f, consume, frames);
        var a := pos.Floor;
        var b := Min(a + 1, consume - 1);
        ProductMonotone(a + 1, consume, channels);
        ProductMonotone(b + 1, consume, channels);
        samples := samples + Blend(Row(input, channels, a), Row(input, channels, b), pos - a as real);
      }
    }

    /** Whether a block is due. */
    method Due(now: nat) returns (timestamp: Option<nat>)
      requires now < TWO64 && lastProgress < TWO64
      modifies this
      ensures Prepare(old(Model()), now) == match timestamp case None => NotYet(Model()) case Some(t) => Now(Model(), t)
      ensures timestamp.Some? ==> old(initialized) && format == old(format)
    {
      hide FramesToNs;
      if !initialized || format.rate == 0 {
        return None;
      }
      if Sub64(now, lastProgress) > STALL {
        Stop();
        return None;
      }
      if !playing {
        if now < first + targetMs * 1_000_000 {
          return None;
        }
        base := Max(now, lastEnd);
        emitted := 0;
        playing := true;
      }
      var t := base + FramesToNs(emitted, format.rate);
      if now < t {
        return None;
      }
      if now - t > BACKLOG {
        counters := counters.(discontinuities := counters.discontinuities + 1);
        Stop();
        return None;
      }
      return Some(t);
    }

    method Stop()
      modifies this
      ensures Model() == Stopped(old(Model()))
    {
      pending, fifo := map[], [];
      initialized, playing := false, false;
    }

    /** How much of the queue the next block takes, counting a drift correction. */
    method Correct() returns (consume: nat)
      requires format.OutputChannels() > 0
      modifies this
      ensures Model() == Corrected(old(Model())) && consume == Consumption(old(Model()))
    {
      var frames := BlockFrames(format.rate);
      var queued := BufferedFrames();
      var target := format.rate * targetMs / 1000;
      var margin := Max(frames, target / 3);
      consume := frames;
      if queued > target + margin {
        consume := consume + 1;
        counters := counters.(driftCorrections := counters.driftCorrections + 1);
      } else if queued + margin < target && queued >= frames && frames > 1 {
        consume := consume - 1;
        counters := counters.(driftCorrections := counters.driftCorrections + 1);
      }
    }

    /** Takes samples from the queue; silence where there are none. */
    method Take(n: nat) returns (input: seq<real>)
      modifies this`fifo
      ensures input == Head(old(fifo), n) && fifo == Rest(old(fifo), n)
    {
      if n <= |fifo| {
        input, fifo := fifo[..n], fifo[n..];
      } else {
        input, fifo := fifo + Silence(n - |fifo|), [];
      }
    }

    /** Makes the block from a filled queue. */
    method EmitBlock(ok: bool, consume: nat, timestamp: nat, ghost entries: seq<Entry>) returns (block: Block)
      requires consume > 0
      modifies this
      ensures var r := Emit(Filled(old(Model()), ok, entries), consume, timestamp);
              Model() == r.buffer && r.block == Some(block)
    {
      hide FramesToNs, Resampled, Head, Rest, BlockFrames;
      var frames := BlockFrames(format.rate);
      var channels := format.OutputChannels();
      if !ok {
        counters := counters.(underruns := counters.underruns + 1);
      }
      var input := Take(consume * channels);
      var samples := input;
      if consume != frames {
        samples := Resample(input, consume, frames, channels);
      }
      emitted := emitted + frames;
      lastEnd := base + FramesToNs(emitted, format.rate);
      block := Block(format, frames, timestamp, samples);
      if !ok {
        Stop();
      }
    }

    method Pull(now: nat) returns (block: Option<Block>)
      requires now < TWO64 && lastProgress < TWO64 && (initialized ==> format.OutputChannels() > 0)
      modifies this
      ensures var r := StreamBuffer.Pull(old(Model()), now); Model() == r.buffer && block == r.block
    {
      hide Prepare, StreamBuffer.Fill, Consumption, Emit;
      var timestamp := Due(now);
      if timestamp.None? {
        return None;
      }
      ghost var due := Model();
      var consume := Correct();
      var filled := Fill(consume);
      var made := EmitBlock(filled, consume, timestamp.value, StreamBuffer.Fill(Corrected(due), consume).entries);
      return Some(made);
    }
  }
}
