/** One source's way through the return worker (src/monitor-return.cpp): its clock places each block, the retimer
    gives it the length the clock asked for, and the timeline holds it until it is mixed. Together they play the
    source without gap or overlap. */
module MonitorTap {
  import opened Words
  import opened StereoTimeline
  import opened TimelineHistory
  import Clocks = MonitorClock
  import Retimer = StereoRetimer
  import Worker = MonitorWorker

  type Rate = r: nat | 0 < r witness 48_000

  /** A block resampled to the output's rate; `shift` is its sync delay without the resampler's own, in frames. */
  datatype Input = Input(
    rate: Rate, timestamp: nat, arrival: nat, left: seq<real>, right: seq<real>, shift: int, gain: real)
  {
    predicate Valid() {
      left != [] && |left| == |right|
    }
  }

  /** The tap serves a block, is reset, or is mixed. */
  datatype Step = Serve(input: Input, capacity: nat, cursor: int) | Reset | Play(cursor: int, frames: nat)

  /** The clock, the frame the retimer carries over, and all that has been done to the timeline. */
  datatype Tap = Tap(clock: Clocks.Clock, carried: Option<Sample>, ops: seq<Op>)

  const NEW := Tap(Clocks.FRESH, None, [])

  function Placed(tap: Tap, input: Input): (Clocks.Clock, int)
  {
    Clocks.Position(tap.clock, input.timestamp, input.arrival, |input.left|, input.rate)
  }

  lemma PlacedLength(tap: Tap, input: Input)
    requires input.Valid()
    ensures Placed(tap, input).0.adjusted > 0
    ensures Placed(tap, input).0.initialized
    ensures Abs(Placed(tap, input).0.adjusted - |input.left|) <= 1
    ensures Placed(tap, input).0.next == Placed(tap, input).1 + Placed(tap, input).0.adjusted
    ensures tap.clock.initialized && !Placed(tap, input).0.discontinuity ==>
            Placed(tap, input).1 == tap.clock.next
  {
    hide Clocks.NsToFrames, Clocks.LowPass, Clocks.Correction;
  }

  /** A block is placed within a hundredth of a second of the time it is due by its own stamp. */
  lemma PlacedNearDue(tap: Tap, input: Input)
    ensures var (clock, start) := Placed(tap, input);
            Abs(start - (Clocks.NsToFrames(input.timestamp, input.rate) + clock.offset)) <= input.rate / 100
  {
    hide Clocks.NsToFrames, Clocks.LowPass, Clocks.Correction;
  }

  function Zip(left: seq<real>, right: seq<real>): (z: seq<Sample>)
    requires |left| == |right|
    ensures |z| == |left| && forall i | 0 <= i < |z| :: z[i].0 == left[i] && z[i].1 == right[i]
  {
    seq(|left|, i requires 0 <= i < |left| => (left[i], right[i]))
  }

  /** Both channels of the block, retimed from the frame carried over; the first block carries its own first frame. */
  function Pcm(carried: Option<Sample>, input: Input, adjusted: nat): (pcm: seq<Sample>)
    requires input.Valid() && adjusted > 0
    ensures |pcm| == adjusted
  {
    var before := if carried.Some? then carried.value else (input.left[0], input.right[0]);
    Zip(Retimer.Retimed(before.0, input.left, adjusted), Retimer.Retimed(before.1, input.right, adjusted))
  }

  lemma PcmIs(carried: Option<Sample>, input: Input, adjusted: nat)
    requires input.Valid() && adjusted > 0
    ensures var before := if carried.Some? then carried.value else (input.left[0], input.right[0]);
            Pcm(carried, input, adjusted)
            == Zip(Retimer.Retimed(before.0, input.left, adjusted), Retimer.Retimed(before.1, input.right, adjusted))
  {
  }

  function LastFrame(input: Input): Sample
    requires input.Valid()
  {
    (input.left[|input.left| - 1], input.right[|input.right| - 1])
  }

  /** A discontinuity clears the timeline and the carried frame before the block is laid down. */
  function Served(tap: Tap, input: Input, capacity: nat, cursor: int): Tap
    requires input.Valid()
  {
    PlacedLength(tap, input);
    var (clock, start) := Placed(tap, input);
    var carried := if clock.discontinuity then None else tap.carried;
    Tap(clock, Some(LastFrame(input)),
        tap.ops + [Op.Resize(capacity)] + (if clock.discontinuity then [Op.Clear] else [])
        + [Op.Put(start + input.shift, Pcm(carried, input, clock.adjusted), input.gain, cursor)])
  }

  function Next(tap: Tap, step: Step): Tap
    requires (step.Serve? ==> step.input.Valid())
  {
    match step
    case Serve(input, capacity, cursor) => Served(tap, input, capacity, cursor)
    case Reset => Tap(Clocks.FRESH, None, tap.ops + [Op.Clear])
    case Play(cursor, frames) => tap.(ops := tap.ops + [Op.Mix(cursor, frames)])
  }

  predicate ValidSteps(steps: seq<Step>) {
    forall i | 0 <= i < |steps| :: steps[i].Serve? ==> steps[i].input.Valid()
  }

  function Run(steps: seq<Step>): Tap
    requires ValidSteps(steps)
  {
    if steps == [] then NEW else Next(Run(steps[..|steps| - 1]), steps[|steps| - 1])
  }

  /** What a tap has to play since it was last emptied: `sound` from time `first` on. */
  datatype Stretch = Silent | Sounding(first: int, sound: seq<Sample>, shift: int, capacity: nat)

  function ScaledAll(samples: seq<Sample>, gain: real): (r: seq<Sample>)
    ensures |r| == |samples|
  {
    seq(|samples|, i requires 0 <= i < |samples| => Scaled(samples[i], gain))
  }

  /** The block goes on where the stretch ends. */
  predicate Continues(tap: Tap, stretch: Stretch, input: Input, capacity: nat)
  {
    stretch.Sounding? && stretch.capacity == capacity && !Placed(tap, input).0.discontinuity
  }

  function Extended(tap: Tap, stretch: Stretch, input: Input, capacity: nat): Stretch
    requires input.Valid()
  {
    PlacedLength(tap, input);
    var (clock, start) := Placed(tap, input);
    var carried := if clock.discontinuity then None else tap.carried;
    var sound := ScaledAll(Pcm(carried, input, clock.adjusted), input.gain);
    if Continues(tap, stretch, input, capacity) then stretch.(sound := stretch.sound + sound)
    else Sounding(start + input.shift, sound, input.shift, capacity)
  }

  function Heard(steps: seq<Step>): Stretch
    requires ValidSteps(steps)
  {
    if steps == [] then Silent
    else
      var before := steps[..|steps| - 1];
      match steps[|steps| - 1]
      case Serve(input, capacity, _) => Extended(Run(before), Heard(before), input, capacity)
      case Reset => Silent
      case Play(_, _) => Heard(before)
  }

  /** The block comes neither too late nor too early for the window, and the sync delay has not changed in
      mid-stretch. */
  ghost predicate OnTime(tap: Tap, stretch: Stretch, step: Step)
  {
    step.Serve? ==>
      var (clock, start) := Placed(tap, step.input);
      && step.cursor <= start + step.input.shift
      && start + step.input.shift + clock.adjusted <= step.cursor + step.capacity
      && (Continues(tap, stretch, step.input, step.capacity) ==> step.input.shift == stretch.shift)
  }

  ghost predicate AllOnTime(steps: seq<Step>)
    requires ValidSteps(steps)
  {
    steps != [] ==>
      var before := steps[..|steps| - 1];
      OnTime(Run(before), Heard(before), steps[|steps| - 1]) && AllOnTime(before)
  }

  /** The stretch, as a map from times to samples. */
  function Laid(first: int, sound: seq<Sample>): map<int, Sample> {
    if sound == [] then map[]
    else Laid(first, sound[..|sound| - 1])[first + |sound| - 1 := sound[|sound| - 1]]
  }

  lemma {:induction false} LaidAt(first: int, sound: seq<Sample>, t: int)
    ensures t in Laid(first, sound) <==> first <= t < first + |sound|
    ensures t in Laid(first, sound) ==> Laid(first, sound)[t] == sound[t - first]
  {
    if sound != [] {
      LaidAt(first, sound[..|sound| - 1], t);
    }
  }

  /** The timeline's map is the stretch, and the clock stands at its end. */
  ghost predicate Tiled(tap: Tap, stretch: Stretch) {
    match stretch
    case Silent => Ideal(tap.ops) == map[]
    case Sounding(first, sound, shift, capacity) =>
      && Ideal(tap.ops) == Laid(first, sound) && Size(tap.ops) == capacity
      && tap.clock.initialized && tap.clock.next + shift == first + |sound|
  }

  /** Samples laid down where the stretch ends, inside the window, extend it. */
  lemma {:induction false} LaidGrows(
    first: int, sound: seq<Sample>, samples: seq<Sample>, gain: real, cursor: int, size: nat, n: nat)
    requires n <= |samples| && cursor <= first + |sound| && first + |sound| + n <= cursor + size
    ensures FirstPut(Laid(first, sound), first + |sound|, samples, gain, cursor, size, n)
            == Laid(first, sound + ScaledAll(samples[..n], gain))
  {
    if n == 0 {
      assert sound + ScaledAll(samples[..0], gain) == sound;
    } else {
      LaidGrows(first, sound, samples, gain, cursor, size, n - 1);
      var before, after := sound + ScaledAll(samples[..n - 1], gain), sound + ScaledAll(samples[..n], gain);
      assert after == before + [Scaled(samples[n - 1], gain)] && after[..|after| - 1] == before;
      LaidAt(first, before, first + |sound| + n - 1);
    }
  }

  /** What serving does to the map. */
  lemma ServedIdeal(ops: seq<Op>, capacity: nat, clear: bool, put: Op)
    requires put.Put?
    ensures var after := ops + [Op.Resize(capacity)] + (if clear then [Op.Clear] else []) + [put];
            && Size(after) == capacity
            && Ideal(after) == FirstPut(if clear || Size(ops) != capacity then map[] else Ideal(ops),
                                        put.start, put.samples, put.gain, put.cursor, capacity, |put.samples|)
  {
    hide FirstPut;
    var resized := ops + [Op.Resize(capacity)];
    assert resized[..|resized| - 1] == ops;
    var cleared := resized + (if clear then [Op.Clear] else []);
    if clear {
      assert cleared[..|cleared| - 1] == resized;
    } else {
      assert cleared == resized;
    }
    assert Size(cleared) == capacity;
    assert (cleared + [put])[..|cleared|] == cleared;
  }

  lemma ServedTiles(tap: Tap, stretch: Stretch, step: Step)
    requires step.Serve? && step.input.Valid() && Tiled(tap, stretch) && OnTime(tap, stretch, step)
    ensures Tiled(Served(tap, step.input, step.capacity, step.cursor),
                  Extended(tap, stretch, step.input, step.capacity))
  {
    hide Placed, Pcm, Ideal, Size, FirstPut, ScaledAll;
    var input, capacity, cursor := step.input, step.capacity, step.cursor;
    PlacedLength(tap, input);
    var (clock, start) := Placed(tap, input);
    var carried := if clock.discontinuity then None else tap.carried;
    var pcm := Pcm(carried, input, clock.adjusted);
    var put := Op.Put(start + input.shift, pcm, input.gain, cursor);
    ServedIdeal(tap.ops, capacity, clock.discontinuity, put);
    assert pcm[..|pcm|] == pcm;
    if Continues(tap, stretch, input, capacity) {
      LaidGrows(stretch.first, stretch.sound, pcm, input.gain, cursor, capacity, |pcm|);
    } else {
      LaidGrows(start + input.shift, [], pcm, input.gain, cursor, capacity, |pcm|);
      assert [] + ScaledAll(pcm, input.gain) == ScaledAll(pcm, input.gain);
      assert Laid(start + input.shift, []) == map[];
    }
  }

  lemma ResetIsEmpty(ops: seq<Op>)
    ensures Ideal(ops + [Op.Clear]) == map[]
  {
  }

  lemma PlayTiles(tap: Tap, stretch: Stretch, cursor: int, frames: nat)
    requires Tiled(tap, stretch)
    ensures Tiled(tap.(ops := tap.ops + [Op.Mix(cursor, frames)]), stretch)
  {
    assert (tap.ops + [Op.Mix(cursor, frames)])[..|tap.ops|] == tap.ops;
  }

  /** Whatever the source and its clock do: as long as blocks come on time, the timeline holds exactly the retimed
      stream since it was last emptied, each block laid down where the one before it ended. */
  lemma {:induction false} BlocksTileTheTimeline(steps: seq<Step>)
    requires ValidSteps(steps) && AllOnTime(steps)
    ensures Tiled(Run(steps), Heard(steps))
  {
    hide Served, Extended, OnTime, Ideal, Size;
    if steps == [] {
      assert Ideal([]) == map[] by { NothingPut(); }
    } else {
      var before, step := steps[..|steps| - 1], steps[|steps| - 1];
      BlocksTileTheTimeline(before);
      match step
      case Serve(_, _, _) => ServedTiles(Run(before), Heard(before), step);
      case Reset => ResetIsEmpty(Run(before).ops);
      case Play(cursor, frames) => PlayTiles(Run(before), Heard(before), cursor, frames);
    }
  }

  lemma NothingPut()
    ensures Ideal([]) == map[]
  {
  }

  /** What a stretch gives for a time. */
  function At(stretch: Stretch, t: int): Sample {
    if stretch.Sounding? && stretch.first <= t < stretch.first + |stretch.sound| then stretch.sound[t - stretch.first]
    else SILENCE
  }

  /** The mixed stream is the retimed stream: at each of its times a mix adds the stretch's sample, the one after the
      one it added for the time before, without gap or overlap. */
  lemma MixPlaysTheStretch(steps: seq<Step>, cursor: int, frames: nat, i: nat)
    requires ValidSteps(steps) && AllOnTime(steps)
    requires ReadyFor(Run(steps).ops, cursor, Size(Run(steps).ops)) && SafeWindow(cursor, frames)
    requires InRange(cursor) && InRange(cursor + frames) && i < frames
    ensures Contribution(Run(steps).ops, cursor, frames)[i] == At(Heard(steps), cursor + i)
  {
    hide Run, Heard, AllOnTime, Ideal, Contribution, Advancing, AllSafe, SafeWindow, Floor;
    BlocksTileTheTimeline(steps);
    MixEmitsFirstPut(Run(steps).ops, cursor, frames, i);
    var stretch := Heard(steps);
    if stretch.Sounding? {
      LaidAt(stretch.first, stretch.sound, cursor + i);
    }
  }

  /** To the worker, serving a block is a series of works, so its cursor theorems are about these taps too. */
  lemma ServingIsWork(tap: Tap, input: Input, capacity: nat, cursor: int)
    requires input.Valid()
    ensures exists work :: Served(tap, input, capacity, cursor).ops == Worker.WithWork(tap.ops, work, cursor)
  {
    hide Placed, Pcm;
    PlacedLength(tap, input);
    var (clock, start) := Placed(tap, input);
    var pcm := Pcm(if clock.discontinuity then None else tap.carried, input, clock.adjusted);
    var sized, put := [Worker.SetCapacity(capacity)], Worker.PutBlock(start + input.shift, pcm, input.gain);
    var cleared := sized + if clock.discontinuity then [Worker.ResetAudio] else [];
    Worker.WorkThen(tap.ops, [], Worker.SetCapacity(capacity), cursor);
    Worker.WorkThen(tap.ops, sized, Worker.ResetAudio, cursor);
    Worker.WorkThen(tap.ops, cleared, put, cursor);
    assert [] + sized == sized;
    assert cleared == if clock.discontinuity then sized + [Worker.ResetAudio] else sized;
    assert Served(tap, input, capacity, cursor).ops == Worker.WithWork(tap.ops, cleared + [put], cursor);
  }

  /** The first block of a source, captured while the worker attaches it: it is stamped with the clock's start, and the
      resampler is one frame late. */
  const EARLY := Input(48_000, 0, Worker.SECOND_TURN, [1.0], [1.0], Clocks.NsToFrames(-20_834, 48_000), 1.0)

  /** What the worker does when it loses a frame is the serving of such a block, once attaching the source and seeing
      its format for the first time have each reset the tap. */
  lemma EarlyBlockIsServed()
    ensures EARLY.Valid() && EARLY.shift == -1
    ensures var tap := Next(Next(Tap(Clocks.FRESH, None, [Op.Clear]), Reset), Reset);
            Next(tap, Serve(EARLY, 48_000, -100)).ops
            == Worker.WithWork([Op.Clear], Worker.OneFrame(0, 0).work, -100)
  {
    hide Placed, Pcm, Clocks.NsToFrames, Clocks.Position;
    EarlyBlockPlaced();
    var reset: seq<Worker.Work> := [Worker.ResetAudio];
    var sized := reset + reset + [Worker.SetCapacity(48_000)];
    Worker.WorkThen([Op.Clear], [], Worker.ResetAudio, -100);
    Worker.WorkThen([Op.Clear], reset, Worker.ResetAudio, -100);
    Worker.WorkThen([Op.Clear], reset + reset, Worker.SetCapacity(48_000), -100);
    Worker.WorkThen([Op.Clear], sized, Worker.PutBlock(-1, [(1.0, 1.0)], 1.0), -100);
    assert [] + reset == reset;
    assert Worker.OneFrame(0, 0).work == sized + [Worker.PutBlock(-1, [(1.0, 1.0)], 1.0)];
  }

  lemma EarlyBlockPlaced()
    ensures EARLY.Valid() && EARLY.shift == -1 && EARLY.gain == 1.0 && Pcm(None, EARLY, 1) == [(1.0, 1.0)]
    ensures forall ops ::
              var (clock, start) := Placed(Tap(Clocks.FRESH, None, ops), EARLY);
              start == 0 && clock.adjusted == 1 && !clock.discontinuity
  {
    hide Clocks.Position, Pcm, Clocks.NsToFrames;
    EarlyShift();
    EarlyPcm(EARLY);
    FirstPosition();
  }

  lemma EarlyShift()
    ensures Clocks.NsToFrames(-20_834, 48_000) == -1
  {
  }

  lemma EarlyPcm(input: Input)
    requires input.left == input.right == [1.0]
    ensures Pcm(None, input, 1) == [(1.0, 1.0)]
  {
    hide Retimer.OutputPosition, Retimer.Interpolate;
    PcmIs(None, input, 1);
  }

  lemma FirstPosition()
    ensures var (clock, start) := Clocks.Position(Clocks.FRESH, 0, Worker.SECOND_TURN, 1, 48_000);
            start == 0 && clock.adjusted == 1 && !clock.discontinuity
  {
    hide Clocks.LowPass, Clocks.Correction, Clocks.NsToFrames;
    assert Clocks.NsToFrames(0, 48_000) == 0 by { Clocks.NsToFramesIsFloor(0, 48_000); }
    assert 0 <= Clocks.NsToFrames(Worker.SECOND_TURN, 48_000) < 1000 by {
      Clocks.NsToFramesIsFloor(Worker.SECOND_TURN, 48_000);
    }
  }
}
