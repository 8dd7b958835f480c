/** The clock tracker of src/return-audio.hpp: where the next block of a source goes on the shared timeline. */
module MonitorClock {
  import opened Words
  import opened VbanProtocol

  /** C++ integer division and remainder, which truncate toward zero. */
  function Quotient(a: int, b: int): int
    requires b > 0
  {
    if a >= 0 then a / b else -((-a) / b)
  }

  function Remainder(a: int, b: int): int
    requires b > 0
  {
    a - Quotient(a, b) * b
  }

  function NsToFrames(ns: int, rate: nat): int {
    Quotient(ns, 1_000_000_000) * rate + Quotient(Remainder(ns, 1_000_000_000) * rate, 1_000_000_000)
  }

  datatype Clock = Clock(
    initialized: bool, discontinuity: bool, offset: int, next: int, expected: int, adjusted: nat, arrivalError: real)

  const FRESH := Clock(false, false, 0, 0, 0, 0, 0.0)

  /** Re-anchoring: an unknown source, or a timestamp more than half a second off. */
  function Anchor(c: Clock, ts: int, now: int, rate: nat): Clock {
    if !c.initialized || Abs(ts - c.expected) > rate / 2 then
      var offset := if Abs(ts - now) < rate * 2 then 0 else now - ts;
      c.(discontinuity := c.initialized, offset := offset, next := ts + offset, initialized := true,
          arrivalError := 0.0)
    else c.(discontinuity := false)
  }

  /** One step of the low-pass filter over the arrival errors of a foreign clock. */
  function LowPass(estimate: real, error: int, frames: nat, rate: nat): real
    requires rate > 0
  {
    var share := frames as real / rate as real;
    estimate + (error as real - estimate) * (if share < 1.0 then share else 1.0)
  }

  function Correction(estimate: real, rate: nat): int {
    if estimate > rate as real / 200.0 then -1 else if estimate < -(rate as real / 200.0) then 1 else 0
  }

  /** The low-pass estimate of a foreign clock's arrival error, which moves the offset by at most one frame. */
  function Follow(c: Clock, ts: int, now: int, frames: nat, rate: nat): Clock
    requires rate > 0
  {
    if c.offset == 0 then c
    else
      var estimate := LowPass(c.arrivalError, ts + c.offset - now, frames, rate);
      var correction := Correction(estimate, rate);
      c.(offset := c.offset + correction, arrivalError := estimate + correction as real)
  }

  /** Placing the block: exactly after its predecessor, one frame longer or shorter, or at a new anchor. */
  function Place(c: Clock, ts: int, frames: nat, rate: nat): (Clock, int) {
    var error := ts + c.offset - c.next;
    var jump := Abs(error) > rate / 100;
    var start := if jump then ts + c.offset else c.next;
    var adjusted :=
      if jump || frames <= 1 || Abs(error) <= 1 then frames else if error > 0 then frames + 1 else frames - 1;
    (c.(discontinuity := c.discontinuity || jump, adjusted := adjusted, next := start + adjusted,
        expected := ts + frames),
     start)
  }

  function Position(c: Clock, timestamp: nat, arrival: nat, frames: nat, rate: nat): (Clock, int)
    requires rate > 0
  {
    var ts, now := NsToFrames(timestamp, rate), NsToFrames(arrival, rate);
    Place(Follow(Anchor(c, ts, now, rate), ts, now, frames, rate), ts, frames, rate)
  }

  class MonitorClock {
    var initialized: bool
    var discontinuity: bool
    var offset: int
    var next: int
    var expectedTimestamp: int
    var adjustedFrames: nat
    var arrivalError: real

    ghost function Model(): Clock
      reads this
    {
      Clock(initialized, discontinuity, offset, next, expectedTimestamp, adjustedFrames, arrivalError)
    }

    constructor ()
      ensures Model() == FRESH
    {
      initialized, discontinuity, offset, next, expectedTimestamp, adjustedFrames, arrivalError :=
        false, false, 0, 0, 0, 0, 0.0;
    }

    method Reset()
      modifies this
      ensures Model() == FRESH
    {
      initialized, discontinuity := false, false;
      offset, next, expectedTimestamp, adjustedFrames, arrivalError := 0, 0, 0, 0, 0.0;
    }

    method AnchorTo(ts: int, now: int, rate: nat)
      modifies this
      ensures Model() == Anchor(old(Model()), ts, now, rate)
    {
      discontinuity := false;
      if !initialized || Abs(ts - expectedTimestamp) > rate / 2 {
        discontinuity := initialized;
        offset := if Abs(ts - now) < rate * 2 then 0 else now - ts;
        next := ts + offset;
        initialized := true;
        arrivalError := 0.0;
      }
    }

    method FollowArrival(ts: int, now: int, frames: nat, rate: nat)
      requires rate > 0
      modifies this
      ensures Model() == Follow(old(Model()), ts, now, frames, rate)
    {
      hide LowPass, Correction;
      if offset != 0 {
        arrivalError := LowPass(arrivalError, ts + offset - now, frames, rate);
        var correction := Correction(arrivalError, rate);
        offset := offset + correction;
        arrivalError := arrivalError + correction as real;
      }
    }

    method PositionBlock(timestamp: nat, arrival: nat, frames: nat, rate: nat) returns (start: int)
      requires rate > 0
      modifies this
      ensures (Model(), start) == Position(old(Model()), timestamp, arrival, frames, rate)
    {
      hide NsToFrames, Anchor, Follow;
      var ts, now := NsToFrames(timestamp, rate), NsToFrames(arrival, rate);
      AnchorTo(ts, now, rate);
      FollowArrival(ts, now, frames, rate);
      adjustedFrames := frames;
      var error := ts + offset - next;
      if Abs(error) > rate / 100 {
        next := ts + offset;
        discontinuity := true;
      } else if frames > 1 && Abs(error) > 1 {
        adjustedFrames := if error > 0 then frames + 1 else frames - 1;
      }
      start := next;
      next := next + adjustedFrames;
      expectedTimestamp := ts + frames;
    }
  }

  /** One block of a source, as `service` hands it to the clock. */
  datatype Block = Block(timestamp: nat, arrival: nat, frames: nat)

  function After(blocks: seq<Block>, rate: nat): Clock
    requires rate > 0
    decreases |blocks|, 1
  {
    if blocks == [] then FRESH else Placed(blocks, rate).0
  }

  /** Clock and start position that the last of the blocks leads to. */
  function Placed(blocks: seq<Block>, rate: nat): (Clock, int)
    requires rate > 0 && blocks != []
    decreases |blocks|, 0
  {
    var b := blocks[|blocks| - 1];
    Position(After(blocks[..|blocks| - 1], rate), b.timestamp, b.arrival, b.frames, rate)
  }

  function Timestamp(b: Block, rate: nat): int {
    NsToFrames(b.timestamp, rate)
  }

  /** The first block arrives within two seconds of its timestamp, so the source's own clock is used. */
  predicate Direct(blocks: seq<Block>, rate: nat) {
    blocks != [] ==> Abs(Timestamp(blocks[0], rate) - NsToFrames(blocks[0].arrival, rate)) < rate * 2
  }

  /** Every block has more than one frame, and consecutive timestamps differ from the block length by at most one
      frame. */
  predicate Drifting(blocks: seq<Block>, rate: nat) {
    blocks != [] ==>
      var n := |blocks| - 1;
      && blocks[n].frames > 1
      && (n > 0 ==> Abs(Timestamp(blocks[n], rate) - (Timestamp(blocks[n - 1], rate) + blocks[n - 1].frames)) <= 1)
      && Drifting(blocks[..n], rate)
  }

  /** The clock follows its source: the next block is due within one frame of the timestamp it should carry. */
  ghost predicate Locked(c: Clock) {
    c.initialized && c.offset == 0 && Abs(c.expected - c.next) <= 1
  }

  /** The block was placed without a jump, within two frames of its timestamp, and changed by at most one frame. */
  ghost predicate Tracked(c: Clock, start: int, b: Block, rate: nat) {
    && !c.discontinuity
    && Abs(start - Timestamp(b, rate)) <= 2
    && Abs(c.adjusted - b.frames) <= 1
    && c.next == start + c.adjusted
    && c.expected == Timestamp(b, rate) + b.frames
  }

  lemma LockedStep(c: Clock, b: Block, rate: nat)
    requires rate >= 200 && b.frames > 1
    requires if c.initialized then Locked(c) && Abs(Timestamp(b, rate) - c.expected) <= 1 else Direct([b], rate)
    ensures var (c', start) := Position(c, b.timestamp, b.arrival, b.frames, rate);
            Locked(c') && Tracked(c', start, b, rate) && (c.initialized ==> start == c.next)
  {
    hide NsToFrames, LowPass, Correction;
  }

  /** For any number of blocks of a drifting source: no discontinuity is ever reported, every block starts exactly where
      its predecessor's adjusted length ends, and stays within two frames of its timestamp. */
  lemma {:induction false} DriftIsAbsorbed(blocks: seq<Block>, rate: nat)
    requires rate >= 200 && blocks != [] && Direct(blocks, rate) && Drifting(blocks, rate)
    ensures var (c, start) := Placed(blocks, rate);
            var n := |blocks| - 1;
            && Locked(c) && Tracked(c, start, blocks[n], rate)
            && (n > 0 ==> start == Placed(blocks[..n], rate).1 + Placed(blocks[..n], rate).0.adjusted)
  {
    hide Position, NsToFrames;
    var n := |blocks| - 1;
    if n > 0 {
      DriftIsAbsorbed(blocks[..n], rate);
    }
    LockedStep(After(blocks[..n], rate), blocks[n], rate);
  }

  /** For every source whatsoever, a block that is not reported as a discontinuity starts exactly where the one before
      it ended, is at most one frame longer or shorter, and moves the offset of a foreign clock by at most one frame. */
  lemma BlocksAreContiguous(c: Clock, timestamp: nat, arrival: nat, frames: nat, rate: nat)
    requires rate > 0 && c.initialized
    ensures var (c', start) := Position(c, timestamp, arrival, frames, rate);
            && Abs(c'.adjusted - frames) <= 1 && (frames > 0 ==> c'.adjusted > 0)
            && c'.next == start + c'.adjusted
            && (!c'.discontinuity ==> start == c.next && Abs(c'.offset - c.offset) <= 1)
  {
    hide NsToFrames, LowPass;
  }

  /** The split division is the exact quotient, cut toward zero: also for the negative durations a sync offset gives. */
  lemma NsToFramesTruncates(ns: int, rate: nat)
    ensures NsToFrames(-ns, rate) == -NsToFrames(ns, rate)
    ensures ns >= 0 ==>
              && NsToFrames(ns, rate) >= 0
              && SECOND * NsToFrames(ns, rate) <= ns * rate < SECOND * (NsToFrames(ns, rate) + 1)
    ensures ns <= 0 ==>
              && NsToFrames(ns, rate) <= 0
              && SECOND * (NsToFrames(ns, rate) - 1) < ns * rate <= SECOND * NsToFrames(ns, rate)
  {
    hide NsToFrames;
    NsToFramesIsOdd(ns, rate);
    NsToFramesIsFloor(Abs(ns), rate);
    if ns <= 0 {
      Negated(SECOND, NsToFrames(-ns, rate), -ns, rate);
    }
  }

  lemma Negated(unit: nat, f: int, n: int, rate: nat)
    requires unit * f <= n * rate < unit * (f + 1)
    ensures unit * (-f - 1) < -n * rate <= unit * -f
  {
    Distribute(unit, f + 1, -f - 1);
    Distribute(unit, f, -f);
    assert -n * rate == -(n * rate);
  }

  lemma NsToFramesIsOdd(ns: int, rate: nat)
    ensures NsToFrames(-ns, rate) == -NsToFrames(ns, rate)
  {
    var n := Abs(ns);
    var q, r := n / SECOND, n % SECOND;
    assert Quotient(n, SECOND) == q && Quotient(-n, SECOND) == -q;
    assert Remainder(n, SECOND) == r && Remainder(-n, SECOND) == -r;
    assert (-q) * rate == -(q * rate) && (-r) * rate == -(r * rate);
  }

  lemma NsToFramesIsFloor(ns: nat, rate: nat)
    ensures NsToFrames(ns, rate) >= 0
    ensures SECOND * NsToFrames(ns, rate) <= ns * rate < SECOND * (NsToFrames(ns, rate) + 1)
  {
    var q, r := ns / SECOND, ns % SECOND;
    assert ns == SECOND * q + r && NsToFrames(ns, rate) == q * rate + (r * rate) / SECOND;
    DivisionFloor(r * rate, SECOND);
    FloorSplit(SECOND, q, r, rate, (r * rate) / SECOND);
  }

  /** Capture timestamps a source with a perfect sample clock would carry: the time of the first frame plus the length
      of all frames before the block, cut to nanoseconds once for the callback and once for the part of it. */
  ghost predicate IdealTimestamp(b: Block, start: nat, callback: nat, total: nat, rate: nat) {
    callback <= total && b.timestamp == start + FramesToNs(callback, rate) + FramesToNs(total - callback, rate)
  }

  /** The two truncations cost less than one frame together. */
  lemma IdealTimestampWithinOne(b: Block, start: nat, callback: nat, total: nat, rate: nat)
    requires 0 < rate < SECOND / 2 && IdealTimestamp(b, start, callback, total, rate)
    ensures NsToFrames(start, rate) + total - 1 <= Timestamp(b, rate) <= NsToFrames(start, rate) + total
  {
    hide NsToFrames, FramesToNs;
    NsToFramesIsFloor(start, rate);
    NsToFramesIsFloor(b.timestamp, rate);
    FramesToNsIsFloor(callback, rate);
    FramesToNsIsFloor(total - callback, rate);
    FloorArithmetic(start, FramesToNs(callback, rate), FramesToNs(total - callback, rate), callback,
        total - callback, rate,
                    NsToFrames(start, rate), NsToFrames(b.timestamp, rate));
  }

  lemma FloorArithmetic(start: nat, c: nat, p: nat, callback: nat, part: nat, rate: nat, f: int, t: int)
    requires 2 * rate < SECOND
    requires SECOND * f <= start * rate < SECOND * (f + 1)
    requires rate * c <= callback * SECOND < rate * (c + 1)
    requires rate * p <= part * SECOND < rate * (p + 1)
    requires SECOND * t <= (start + c + p) * rate < SECOND * (t + 1)
    ensures f + callback + part - 1 <= t <= f + callback + part
  {
    assert (start + c + p) * rate == start * rate + rate * c + rate * p;
    assert rate * (c + 1) == rate * c + rate && rate * (p + 1) == rate * p + rate;
  }

  function Total(blocks: seq<Block>): nat {
    if blocks == [] then 0 else Total(blocks[..|blocks| - 1]) + blocks[|blocks| - 1].frames
  }

  /** A source whose timestamps are ideal, split into callbacks and parts of callbacks in any way. */
  ghost predicate Ideal(blocks: seq<Block>, start: nat, rate: nat) {
    blocks != [] ==>
      var n := |blocks| - 1;
      && (exists callback: nat :: IdealTimestamp(blocks[n], start, callback, Total(blocks[..n]), rate))
      && Ideal(blocks[..n], start, rate)
  }

  /** The state of a clock whose source has delivered `total` frames without a fault since frame `first`. */
  ghost predicate InStep(c: Clock, first: int, total: nat) {
    c.initialized && c.offset == 0 && c.next == first + total && 0 <= c.next - c.expected <= 1
  }

  lemma InStepStays(c: Clock, b: Block, first: int, total: nat, rate: nat)
    requires rate >= 200
    requires first + total - 1 <= Timestamp(b, rate) <= first + total
    requires if c.initialized then InStep(c, first, total)
             else total == 0 && Timestamp(b, rate) == first && Abs(first - NsToFrames(b.arrival, rate)) < rate * 2
    ensures var (c', start) := Position(c, b.timestamp, b.arrival, b.frames, rate);
            && start == first + total
            && c'.adjusted == b.frames && !c'.discontinuity
            && InStep(c', first, total + b.frames)
  {
    hide NsToFrames, LowPass, Correction;
  }

  /** An ideal source is passed through untouched for ever: no block is stretched, shrunk or moved, and each starts
      exactly as many frames after the first as there are frames before it. */
  lemma {:induction false} IdealSourceIsUntouched(blocks: seq<Block>, start: nat, rate: nat)
    requires 200 <= rate < SECOND / 2 && blocks != [] && Direct(blocks, rate) && Ideal(blocks, start, rate)
    ensures var (c, position) := Placed(blocks, rate);
            var n := |blocks| - 1;
            && position == NsToFrames(start, rate) + Total(blocks[..n])
            && c.adjusted == blocks[n].frames && !c.discontinuity
            && InStep(c, NsToFrames(start, rate), Total(blocks))
  {
    hide Position, NsToFrames, IdealTimestamp, InStep;
    var n := |blocks| - 1;
    var before, b := blocks[..n], blocks[n];
    var callback: nat :| IdealTimestamp(b, start, callback, Total(before), rate);
    IdealTimestampWithinOne(b, start, callback, Total(before), rate);
    if n > 0 {
      IdealSourceIsUntouched(before, start, rate);
      InStepIsInitialized(After(before, rate), NsToFrames(start, rate), Total(before));
    } else {
      FirstIdealTimestamp(b, start, callback, rate);
    }
    InStepStays(After(before, rate), b, NsToFrames(start, rate), Total(before), rate);
  }

  lemma InStepIsInitialized(c: Clock, first: int, total: nat)
    requires InStep(c, first, total)
    ensures c.initialized
  {
  }

  lemma FirstIdealTimestamp(b: Block, start: nat, callback: nat, rate: nat)
    requires rate > 0 && IdealTimestamp(b, start, callback, 0, rate)
    ensures Timestamp(b, rate) == NsToFrames(start, rate)
  {
    assert FramesToNs(0, rate) == 0;
    hide NsToFrames;
  }

  /** Where a block goes when the clock is anchored anew: where its timestamp says if that is within two seconds of
      its arrival, else where it arrives. */
  function AnchoredAt(ts: int, now: int, rate: nat): int {
    if Abs(ts - now) < rate * 2 then ts else now
  }

  /** The first block of a source, and one whose timestamp is more than half a second off what was expected, anchor
      the clock; only the latter is a discontinuity. The block keeps its length. */
  lemma AnchoringBlock(c: Clock, timestamp: nat, arrival: nat, frames: nat, rate: nat)
    requires rate >= 200
    requires !c.initialized || Abs(NsToFrames(timestamp, rate) - c.expected) > rate / 2
    ensures var ts, now := NsToFrames(timestamp, rate), NsToFrames(arrival, rate);
            var (c', start) := Position(c, timestamp, arrival, frames, rate);
            && start == AnchoredAt(ts, now, rate) && c'.adjusted == frames && (c'.discontinuity <==> c.initialized)
            && c'.initialized && c'.next == start + frames && c'.expected == ts + frames && c'.offset == start - ts
  {
    hide NsToFrames;
    assert LowPass(0.0, 0, frames, rate) == 0.0;
    hide LowPass;
  }

  /** Any other block follows its predecessor, a frame longer or shorter when it is due more than a frame after or
      before it, unless it is due more than a hundredth of a second from there: then it goes where it is due, which is
      a discontinuity. A source on the shared clock stays on it. */
  lemma FollowingBlock(c: Clock, timestamp: nat, arrival: nat, frames: nat, rate: nat)
    requires rate >= 200 && c.initialized && Abs(NsToFrames(timestamp, rate) - c.expected) <= rate / 2
    ensures var ts := NsToFrames(timestamp, rate);
            var (c', start) := Position(c, timestamp, arrival, frames, rate);
            var due := ts + c'.offset;
            && c'.expected == ts + frames && c'.next == start + c'.adjusted && (c.offset == 0 ==> c'.offset == 0)
            && (c'.discontinuity <==> Abs(due - c.next) > rate / 100)
            && start == (if Abs(due - c.next) > rate / 100 then due else c.next)
            && c'.adjusted == (if frames <= 1 || Abs(due - c.next) > rate / 100 then frames
                               else if due > c.next + 1 then frames + 1
                               else if due < c.next - 1 then frames - 1
                               else frames)
  {
    hide NsToFrames, LowPass, Correction;
  }

  /** The offset of a foreign clock follows the arrivals: the estimate of how late blocks are due moves towards the
      error of this one, by the block's share of a second, and the offset by one frame against an estimate of more
      than a two-hundredth of a second. */
  lemma OffsetFollowsArrivals(c: Clock, timestamp: nat, arrival: nat, frames: nat, rate: nat)
    requires rate >= 200 && frames <= rate && c.initialized && c.offset != 0
    requires Abs(NsToFrames(timestamp, rate) - c.expected) <= rate / 2
    ensures var error := NsToFrames(timestamp, rate) + c.offset - NsToFrames(arrival, rate);
            var c' := Position(c, timestamp, arrival, frames, rate).0;
            var estimate := c'.arrivalError - (c'.offset - c.offset) as real;
            && (estimate - c.arrivalError) * rate as real == (error as real - c.arrivalError) * frames as real
            && (c'.offset == c.offset - 1 <==> estimate > rate as real / 200.0)
            && (c'.offset == c.offset + 1 <==> estimate < -(rate as real / 200.0))
            && -1 <= c'.offset - c.offset <= 1
  {
    hide *;
    var error := NsToFrames(timestamp, rate) + c.offset - NsToFrames(arrival, rate);
    ShareOfSecond(c.arrivalError, error, frames, rate);
    FollowedOffset(c, timestamp, arrival, frames, rate);
    CorrectionIs(LowPass(c.arrivalError, error, frames, rate), rate);
  }

  lemma FollowedOffset(c: Clock, timestamp: nat, arrival: nat, frames: nat, rate: nat)
    requires rate >= 200 && c.initialized && c.offset != 0
    requires Abs(NsToFrames(timestamp, rate) - c.expected) <= rate / 2
    ensures var error := NsToFrames(timestamp, rate) + c.offset - NsToFrames(arrival, rate);
            var c' := Position(c, timestamp, arrival, frames, rate).0;
            var estimate := LowPass(c.arrivalError, error, frames, rate);
            && c'.offset == c.offset + Correction(estimate, rate)
            && c'.arrivalError == estimate + Correction(estimate, rate) as real
  {
    hide NsToFrames, LowPass, Correction;
  }

  lemma CorrectionIs(estimate: real, rate: nat)
    ensures -1 <= Correction(estimate, rate) <= 1
    ensures Correction(estimate, rate) == -1 <==> estimate > rate as real / 200.0
    ensures Correction(estimate, rate) == 1 <==> estimate < -(rate as real / 200.0)
  {
  }

  lemma ShareOfSecond(estimate: real, error: int, frames: nat, rate: nat)
    requires 0 < rate && frames <= rate
    ensures (LowPass(estimate, error, frames, rate) - estimate) * rate as real
            == (error as real - estimate) * frames as real
  {
    var d, share := error as real - estimate, frames as real / rate as real;
    assert share <= 1.0;
    assert share * rate as real == frames as real;
    assert d * share * rate as real == d * (share * rate as real);
  }
}
