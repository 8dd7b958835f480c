/** A tap as the object it is: its clock, its retimer and its timeline, updated in place. */
module SourceTap {
  import opened Words
  import opened StereoTimeline
  import opened TimelineHistory
  import opened MonitorTap
  import Clocks = MonitorClock
  import Retimer = StereoRetimer

  function Interleaved(left: seq<real>, right: seq<real>): (r: seq<real>)
    requires |left| == |right|
    ensures |r| == 2 * |left|
    ensures Retimer.Channel(r, 0) == left && Retimer.Channel(r, 1) == right
  {
    seq(2 * |left|, i requires 0 <= i < 2 * |left| => if i % 2 == 0 then left[i / 2] else right[i / 2])
  }

  class SourceTap {
    const clock: Clocks.MonitorClock
    const retimer: Retimer.StereoRetimer
    const timeline: StereoTimeline
    ghost var ops: seq<Op>

    ghost function Model(): Tap
      reads this, clock, retimer
    {
      Tap(clock.Model(), if retimer.havePrevious then Some(retimer.previous) else None, ops)
    }

    /** The slots are what all the operations so far have left. */
    ghost predicate Valid()
      reads this, timeline, timeline.data
    {
      AllRepresentable(ops) && timeline.data[..] == Data(ops)
    }

    constructor ()
      ensures Valid() && Model() == NEW
    {
      clock := new Clocks.MonitorClock();
      retimer := new Retimer.StereoRetimer();
      timeline := new StereoTimeline();
      ops := [];
    }

    method ResizeTimeline(capacity: nat)
      requires Valid()
      modifies this`ops, timeline
      ensures Valid() && ops == old(ops) + [Op.Resize(capacity)]
      ensures timeline.data == old(timeline.data) || fresh(timeline.data)
    {
      hide Data;
      timeline.Resize(capacity);
      LifeThen(ops, Op.Resize(capacity));
      ops := ops + [Op.Resize(capacity)];
    }

    method ClearTimeline()
      requires Valid()
      modifies this`ops, timeline.data
      ensures Valid() && ops == old(ops) + [Op.Clear]
    {
      hide Data;
      timeline.Clear();
      LifeThen(ops, Op.Clear);
      ops := ops + [Op.Clear];
    }

    method ResetAudio()
      requires Valid()
      modifies this, clock, retimer, timeline.data
      ensures Valid() && Model() == Next(old(Model()), Reset)
    {
      ClearTimeline();
      clock.Reset();
      retimer.Reset();
    }

    method Retime(input: Input, adjusted: nat) returns (samples: seq<Sample>)
      requires input.Valid() && adjusted > 0
      modifies retimer
      ensures samples == Pcm(old(Model()).carried, input, adjusted)
      ensures retimer.havePrevious && retimer.previous == LastFrame(input)
    {
      hide Retimer.Retimed, Pcm, Interleaved;
      PcmIs(Model().carried, input, adjusted);
      var pcm := retimer.Process(Interleaved(input.left, input.right), |input.left|, adjusted);
      samples := Zip(Retimer.Channel(pcm, 0), Retimer.Channel(pcm, 1));
      Ends(input);
    }

    /** Lays retimed samples down. */
    method PutSamples(samples: seq<Sample>, gain: real, start: int, cursor: int)
      requires Valid() && InRange(start) && InRange(start + |samples|)
      modifies this`ops, timeline.data
      ensures Valid() && ops == old(ops) + [Op.Put(start, samples, gain, cursor)]
    {
      hide Data;
      var late := timeline.Put(start, samples, gain, cursor);
      LifeThen(ops, Op.Put(start, samples, gain, cursor));
      ops := ops + [Op.Put(start, samples, gain, cursor)];
    }

    /** Serves one resampled block. */
    method ServeBlock(input: Input, capacity: nat, cursor: int)
      requires Valid() && input.Valid()
      requires var (placed, start) := Placed(Model(), input);
               InRange(start + input.shift) && InRange(start + input.shift + placed.adjusted)
      modifies this, clock, retimer, timeline, timeline.data
      ensures Valid() && Model() == Served(old(Model()), input, capacity, cursor)
    {
      hide Clocks.Position, Data, Pcm;
      PlacedLength(Model(), input);
      ResizeTimeline(capacity);
      var start := clock.PositionBlock(input.timestamp, input.arrival, |input.left|, input.rate);
      if clock.discontinuity {
        retimer.Reset();
        ClearTimeline();
      }
      var samples := Retime(input, clock.adjustedFrames);
      PutSamples(samples, input.gain, start + input.shift, cursor);
    }

    /** Adds the tap's part to a block of the mix. */
    method Mix(cursor: int, out: array<Sample>)
      requires Valid() && InRange(cursor) && InRange(cursor + out.Length) && out as object != timeline.data
      modifies this, timeline.data, out
      ensures Valid() && Model() == Next(old(Model()), Play(cursor, out.Length))
      ensures out[..] == Summed(old(out[..]), Contribution(old(ops), cursor, out.Length))
    {
      timeline.Mix(cursor, out);
      LifeThen(ops, Op.Mix(cursor, out.Length));
      ops := ops + [Op.Mix(cursor, out.Length)];
    }
  }

  lemma Ends(input: Input)
    requires input.Valid()
    ensures var r := Interleaved(input.left, input.right);
            |r| == |input.left| * 2 && (r[|r| - 2], r[|r| - 1]) == LastFrame(input)
            && (r[0], r[1]) == (input.left[0], input.right[0])
  {
    hide Interleaved, Retimer.Channel;
    var r, n := Interleaved(input.left, input.right), |input.left|;
    assert r[0] == Retimer.Channel(r, 0)[0] && r[1] == Retimer.Channel(r, 1)[0];
    assert r[(n - 1) * 2] == Retimer.Channel(r, 0)[n - 1] && r[(n - 1) * 2 + 1] == Retimer.Channel(r, 1)[n - 1];
  }
}
