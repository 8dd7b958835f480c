/** A drifting source from its blocks to the mix: it is played as one stream, stretched or shrunk by a frame now and
    then. */
module MonitorStream {
  import opened Words
  import opened StereoTimeline
  import opened TimelineHistory
  import opened MonitorTap
  import Clocks = MonitorClock
  import Retimer = StereoRetimer

  /** The blocks served, as the clock sees them. */
  function Blocks(steps: seq<Step>): seq<Clocks.Block> {
    if steps == [] then []
    else
      var before := Blocks(steps[..|steps| - 1]);
      match steps[|steps| - 1]
      case Serve(input, _, _) => before + [Clocks.Block(input.timestamp, input.arrival, |input.left|)]
      case _ => before
  }

  /** The blocks of one channel, with the lengths the clock asked for. */
  function Channel(steps: seq<Step>, right: bool): seq<Retimer.Block>
    requires ValidSteps(steps)
  {
    if steps == [] then []
    else
      var before := steps[..|steps| - 1];
      match steps[|steps| - 1]
      case Serve(input, _, _) =>
        Channel(before, right)
        + [Retimer.Block(if right then input.right else input.left, Placed(Run(before), input).0.adjusted)]
      case _ => Channel(before, right)
  }

  /** The steps since the tap was last reset. */
  function SinceReset(steps: seq<Step>): (tail: seq<Step>)
    ensures ValidSteps(steps) ==> ValidSteps(tail)
  {
    if steps == [] then []
    else
      match steps[|steps| - 1]
      case Reset => []
      case step => SinceReset(steps[..|steps| - 1]) + [step]
  }

  /** A reset leaves nothing of what was before it but the timeline's slots. */
  lemma {:induction false} ResetForgets(steps: seq<Step>)
    requires ValidSteps(steps)
    ensures Run(SinceReset(steps)).clock == Run(steps).clock && Run(SinceReset(steps)).carried == Run(steps).carried
    ensures Heard(SinceReset(steps)) == Heard(steps)
  {
    hide Placed, Pcm, ScaledAll;
    if steps != [] && !steps[|steps| - 1].Reset? {
      var before := steps[..|steps| - 1];
      ResetForgets(before);
      var tail := SinceReset(steps);
      assert tail[..|tail| - 1] == SinceReset(before) && tail[|tail| - 1] == steps[|steps| - 1];
      SamePlaced(Run(before), Run(SinceReset(before)));
    }
  }

  lemma SamePlaced(a: Tap, b: Tap)
    requires a.clock == b.clock
    ensures forall input :: Placed(a, input) == Placed(b, input)
  {
  }

  /** The tap is never reset, and the output's rate stays the same. */
  predicate NeverReset(steps: seq<Step>, rate: nat) {
    forall i | 0 <= i < |steps| :: !steps[i].Reset? && (steps[i].Serve? ==> steps[i].input.rate == rate)
  }

  /** Nor does its volume, sync delay or capacity change. */
  predicate Uninterrupted(steps: seq<Step>, capacity: nat, shift: int, gain: real, rate: nat) {
    && NeverReset(steps, rate)
    && forall i | 0 <= i < |steps| ::
         steps[i].Serve? ==>
           steps[i].capacity == capacity && steps[i].input.shift == shift && steps[i].input.gain == gain
  }

  /** A source that uses its own clock and drifts by at most a frame per block. */
  predicate DriftingSource(steps: seq<Step>, rate: nat) {
    Clocks.Direct(Blocks(steps), rate) && Clocks.Drifting(Blocks(steps), rate)
  }

  lemma SourcePrefix(steps: seq<Step>, rate: nat)
    requires steps != [] && DriftingSource(steps, rate)
    ensures DriftingSource(steps[..|steps| - 1], rate)
  {
    hide Clocks.NsToFrames;
    var before, all := Blocks(steps[..|steps| - 1]), Blocks(steps);
    if steps[|steps| - 1].Serve? {
      assert all[..|all| - 1] == before;
      assert before != [] ==> before[0] == all[0];
    }
  }

  /** The tap's clock is the clock of the drift theorem. */
  lemma {:induction false} ClockIsAfter(steps: seq<Step>, rate: nat)
    requires rate > 0 && ValidSteps(steps) && NeverReset(steps, rate)
    ensures Run(steps).clock == Clocks.After(Blocks(steps), rate)
  {
    hide Clocks.Position;
    if steps != [] {
      ClockIsAfter(steps[..|steps| - 1], rate);
      if steps[|steps| - 1].Serve? {
        assert Blocks(steps)[..|Blocks(steps)| - 1] == Blocks(steps[..|steps| - 1]);
      }
    }
  }

  /** Where the first block of the source went, and its first samples. */
  datatype Origin = Origin(start: int, left: real, right: real)

  function First(steps: seq<Step>): Option<Origin>
    requires ValidSteps(steps)
  {
    if steps == [] then None
    else
      var before := First(steps[..|steps| - 1]);
      match steps[|steps| - 1]
      case Serve(input, _, _) =>
        if before.Some? then before
        else Some(Origin(Clocks.NsToFrames(input.timestamp, input.rate) + input.shift, input.left[0], input.right[0]))
      case _ => before
  }

  /** Both channels of the retimed stream. */
  function Stream(o: Origin, left: seq<Retimer.Block>, right: seq<Retimer.Block>): seq<Sample>
    requires Matching(left, right)
  {
    StreamLength(o.left, o.right, left, right);
    Zip(Retimer.StreamOut(o.left, left), Retimer.StreamOut(o.right, right))
  }

  predicate Matching(left: seq<Retimer.Block>, right: seq<Retimer.Block>) {
    && |left| == |right|
    && forall i | 0 <= i < |left| :: left[i].Valid() && right[i].Valid() && left[i].adjusted == right[i].adjusted
  }

  lemma {:induction false} StreamLength(l: real, r: real, left: seq<Retimer.Block>, right: seq<Retimer.Block>)
    requires Matching(left, right)
    ensures |Retimer.StreamOut(l, left)| == |Retimer.StreamOut(r, right)|
  {
    if left != [] {
      StreamLength(l, r, left[..|left| - 1], right[..|right| - 1]);
    }
  }

  /** What the tap has to play is the retimed stream of the whole source. */
  ghost predicate OneStretch(steps: seq<Step>, capacity: nat, shift: int, gain: real)
    requires ValidSteps(steps)
  {
    var left, right := Channel(steps, false), Channel(steps, true);
    && Matching(left, right)
    && match First(steps)
       case None => Blocks(steps) == [] && left == [] && Heard(steps) == Silent
           && Run(steps).carried == None
       case Some(o) =>
         && Blocks(steps) != []
         && Heard(steps) == Sounding(o.start, ScaledAll(Stream(o, left, right), gain), shift, capacity)
         && Run(steps).carried == Some((Retimer.LastSample(o.left, left), Retimer.LastSample(o.right, right)))
  }

  /** The placing of a block of a drifting source. */
  lemma PlacedWithoutJump(steps: seq<Step>, rate: nat)
    requires rate >= 200 && ValidSteps(steps) && steps != [] && steps[|steps| - 1].Serve?
    requires DriftingSource(steps, rate) && NeverReset(steps, rate)
    ensures var before, input := steps[..|steps| - 1], steps[|steps| - 1].input;
            var (clock, start) := Placed(Run(before), input);
            && !clock.discontinuity && clock.adjusted > 0 && Abs(clock.adjusted - |input.left|) <= 1
            && (Blocks(before) == [] ==> start == Clocks.NsToFrames(input.timestamp, rate))
  {
    hide Clocks.Position, Clocks.Drifting, Clocks.NsToFrames;
    var before, input := steps[..|steps| - 1], steps[|steps| - 1].input;
    var all := Blocks(steps);
    assert all[..|all| - 1] == Blocks(before);
    ClockIsAfter(before, rate);
    Clocks.DriftIsAbsorbed(all, rate);
    PlacedLength(Run(before), input);
    if Blocks(before) == [] {
      FirstStart(all[0], rate);
    }
  }

  lemma FirstStart(b: Clocks.Block, rate: nat)
    requires rate > 0 && Clocks.Direct([b], rate)
    ensures Clocks.Position(Clocks.FRESH, b.timestamp, b.arrival, b.frames, rate).1
            == Clocks.NsToFrames(b.timestamp, rate)
  {
    hide Clocks.NsToFrames, Clocks.LowPass, Clocks.Correction;
  }

  lemma StreamOutGrows(first: real, blocks: seq<Retimer.Block>, b: Retimer.Block)
    requires Retimer.ValidStream(blocks) && b.Valid()
    ensures Retimer.ValidStream(blocks + [b])
    ensures Retimer.StreamOut(first, blocks + [b])
            == Retimer.StreamOut(first, blocks)
                + Retimer.Retimed(Retimer.LastSample(first, blocks), b.input, b.adjusted)
    ensures Retimer.LastSample(first, blocks + [b]) == b.input[|b.input| - 1]
  {
    hide Retimer.Retimed;
    assert (blocks + [b])[..|blocks|] == blocks;
  }

  lemma StreamGrows(o: Origin, left: seq<Retimer.Block>, right: seq<Retimer.Block>, l: Retimer.Block, r: Retimer.Block)
    requires Matching(left, right) && l.Valid() && r.Valid() && l.adjusted == r.adjusted
    ensures Matching(left + [l], right + [r])
    ensures Stream(o, left + [l], right + [r])
            == Stream(o, left, right)
               + Zip(Retimer.Retimed(Retimer.LastSample(o.left, left), l.input, l.adjusted),
                     Retimer.Retimed(Retimer.LastSample(o.right, right), r.input, r.adjusted))
    ensures Retimer.LastSample(o.left, left + [l]) == l.input[|l.input| - 1]
    ensures Retimer.LastSample(o.right, right + [r]) == r.input[|r.input| - 1]
  {
    hide Retimer.Retimed, Retimer.StreamOut, Retimer.LastSample;
    StreamOutGrows(o.left, left, l);
    StreamOutGrows(o.right, right, r);
    StreamLength(o.left, o.right, left, right);
  }

  lemma ScaledGrows(a: seq<Sample>, b: seq<Sample>, gain: real)
    ensures ScaledAll(a + b, gain) == ScaledAll(a, gain) + ScaledAll(b, gain)
  {
  }

  /** What serving a block without a jump does to what the tap has to play. */
  lemma ServeExtends(tap: Tap, stretch: Stretch, input: Input, capacity: nat)
    requires input.Valid() && !Placed(tap, input).0.discontinuity
    requires Placed(tap, input).0.adjusted > 0
    requires stretch.Sounding? ==> stretch.capacity == capacity
    ensures var (clock, start) := Placed(tap, input);
            var sound := ScaledAll(Pcm(tap.carried, input, clock.adjusted), input.gain);
            Extended(tap, stretch, input, capacity)
            == if stretch.Sounding? then stretch.(sound := stretch.sound + sound)
               else Sounding(start + input.shift, sound, input.shift, capacity)
  {
    hide Placed, Pcm, ScaledAll;
  }

  /** A served block extends the stretch by its retimed samples. */
  lemma ServeKeepsStretch(steps: seq<Step>, capacity: nat, shift: int, gain: real, rate: nat)
    requires rate >= 200 && ValidSteps(steps) && steps != [] && steps[|steps| - 1].Serve?
    requires DriftingSource(steps, rate) && Uninterrupted(steps, capacity, shift, gain, rate)
    requires OneStretch(steps[..|steps| - 1], capacity, shift, gain)
    ensures OneStretch(steps, capacity, shift, gain)
  {
    hide Placed, Retimer.Retimed, Retimer.LastSample, Stream, ScaledAll, DriftingSource, Blocks, First, Channel,
         Extended, Pcm, Zip, Heard, Run;
    var before, input := steps[..|steps| - 1], steps[|steps| - 1].input;
    var tap := Run(before);
    PlacedWithoutJump(steps, rate);
    var (clock, start) := Placed(tap, input);
    var left, right := Channel(before, false), Channel(before, true);
    Parts(steps);
    var o := First(steps).value;
    StreamGrows(o, left, right, Retimer.Block(input.left, clock.adjusted), Retimer.Block(input.right, clock.adjusted));
    ServeExtends(tap, Heard(before), input, capacity);
    PcmIs(tap.carried, input, clock.adjusted);
    ScaledGrows(Stream(o, left, right), Pcm(tap.carried, input, clock.adjusted), gain);
    NoStream(o);
    assert First(before).None? ==>
        [] + Pcm(tap.carried, input, clock.adjusted) == Pcm(tap.carried, input, clock.adjusted);
  }

  /** What the last block adds to each part of the picture. */
  lemma Parts(steps: seq<Step>)
    requires ValidSteps(steps) && steps != [] && steps[|steps| - 1].Serve?
    ensures var before, input := steps[..|steps| - 1], steps[|steps| - 1].input;
            var adjusted := Placed(Run(before), input).0.adjusted;
            && Blocks(steps) != [] && First(steps).Some?
            && Heard(steps) ==
                 Extended(Run(before), Heard(before), input, steps[|steps| - 1].capacity)
            && Run(steps).carried == Some(LastFrame(input))
            && Channel(steps, false) == Channel(before, false) + [Retimer.Block(input.left, adjusted)]
            && Channel(steps, true) == Channel(before, true) + [Retimer.Block(input.right, adjusted)]
            && First(steps) ==
                 if First(before).Some? then First(before)
                 else Some(Origin(Clocks.NsToFrames(input.timestamp, input.rate) + input.shift, input.left[0],
                     input.right[0]))
  {
    hide Extended, Placed, Clocks.NsToFrames, Pcm;
  }

  lemma NoStream(o: Origin)
    ensures Matching([], []) && Stream(o, [], []) == []
    ensures Retimer.LastSample(o.left, []) == o.left && Retimer.LastSample(o.right, []) == o.right
  {
  }

  lemma {:induction false} DriftingSourceIsOneStretch(
    steps: seq<Step>, capacity: nat, shift: int, gain: real, rate: nat)
    requires rate >= 200 && ValidSteps(steps)
    requires DriftingSource(steps, rate) && Uninterrupted(steps, capacity, shift, gain, rate)
    ensures OneStretch(steps, capacity, shift, gain)
  {
    hide OneStretch, DriftingSource;
    if steps == [] {
      EmptyStretch(capacity, shift, gain);
    } else {
      SourcePrefix(steps, rate);
      DriftingSourceIsOneStretch(steps[..|steps| - 1], capacity, shift, gain, rate);
      if steps[|steps| - 1].Serve? {
        ServeKeepsStretch(steps, capacity, shift, gain, rate);
      } else {
        PlayKeepsStretch(steps, capacity, shift, gain);
      }
    }
  }

  lemma EmptyStretch(capacity: nat, shift: int, gain: real)
    ensures OneStretch([], capacity, shift, gain)
  {
  }

  lemma PlayKeepsStretch(steps: seq<Step>, capacity: nat, shift: int, gain: real)
    requires ValidSteps(steps) && steps != [] && steps[|steps| - 1].Play?
    requires OneStretch(steps[..|steps| - 1], capacity, shift, gain)
    ensures OneStretch(steps, capacity, shift, gain)
  {
    hide Retimer.LastSample, Stream, ScaledAll, Matching;
  }

  /** The sample of the whole source's retimed stream for a time. */
  function StreamAt(steps: seq<Step>, gain: real, t: int): Sample
    requires ValidSteps(steps) && Matching(Channel(steps, false), Channel(steps, true))
  {
    match First(steps)
    case None => SILENCE
    case Some(o) =>
      var sound := Stream(o, Channel(steps, false), Channel(steps, true));
      if o.start <= t < o.start + |sound| then Scaled(sound[t - o.start], gain) else SILENCE
  }

  /** The blocks served, in their order. */
  function ServedInputs(steps: seq<Step>): seq<Input> {
    if steps == [] then []
    else
      var before := ServedInputs(steps[..|steps| - 1]);
      match steps[|steps| - 1]
      case Serve(input, _, _) => before + [input]
      case _ => before
  }

  /** The left channel is made of the left samples of the blocks served, the right one of the right samples. */
  lemma {:induction false} ChannelsAreInputs(steps: seq<Step>)
    requires ValidSteps(steps)
    ensures var inputs := ServedInputs(steps);
            && |Channel(steps, false)| == |Channel(steps, true)| == |Blocks(steps)| == |inputs|
            && (forall k | 0 <= k < |inputs| ::
                  && inputs[k].Valid()
                  && Channel(steps, false)[k].input == inputs[k].left
                  && Channel(steps, true)[k].input == inputs[k].right
                  && Channel(steps, false)[k].adjusted == Channel(steps, true)[k].adjusted)
            && (if inputs == [] then First(steps) == None
                else
                  First(steps) == Some(Origin(Clocks.NsToFrames(inputs[0].timestamp, inputs[0].rate) + inputs[0].shift,
                                              inputs[0].left[0], inputs[0].right[0])))
  {
    hide Placed, Clocks.NsToFrames;
    if steps != [] {
      ChannelsAreInputs(steps[..|steps| - 1]);
    }
  }

  /** What a listener hears at a time, channel by channel. */
  ghost predicate HeardAs(tail: seq<Step>, gain: real, t: int, heard: Sample)
    requires ValidSteps(tail) && Matching(Channel(tail, false), Channel(tail, true))
  {
    match First(tail)
    case None => heard.0 == 0.0 && heard.1 == 0.0
    case Some(o) =>
      var left := Retimer.StreamOut(o.left, Channel(tail, false));
      var right := Retimer.StreamOut(o.right, Channel(tail, true));
      if o.start <= t < o.start + |left| && t < o.start + |right| then
        heard.0 == left[t - o.start] * gain && heard.1 == right[t - o.start] * gain
      else heard.0 == 0.0 && heard.1 == 0.0
  }

  lemma StreamAtIsHeard(tail: seq<Step>, gain: real, t: int)
    requires ValidSteps(tail) && Matching(Channel(tail, false), Channel(tail, true))
    ensures HeardAs(tail, gain, t, StreamAt(tail, gain, t))
  {
    hide Channel, First, Retimer.StreamOut, Matching;
    if First(tail).Some? {
      var o := First(tail).value;
      StreamLength(o.left, o.right, Channel(tail, false), Channel(tail, true));
    }
  }

  /** From the source to the mix: for any number of blocks of a drifting source since its tap was last reset, the
      clock's corrections, the retimer and the timeline together play the retimed stream of all these blocks, one
      frame for every frame of time, the left channel on the left and the right one on the right. */
  lemma DriftingSourceIsPlayed(
    steps: seq<Step>, capacity: nat, shift: int, gain: real, rate: nat, cursor: int, frames: nat, i: nat)
    requires rate >= 200 && ValidSteps(steps) && AllOnTime(steps)
    requires DriftingSource(SinceReset(steps), rate) && Uninterrupted(SinceReset(steps), capacity, shift, gain, rate)
    requires ReadyFor(Run(steps).ops, cursor, Size(Run(steps).ops)) && SafeWindow(cursor, frames)
    requires InRange(cursor) && InRange(cursor + frames) && i < frames
    ensures Matching(Channel(SinceReset(steps), false), Channel(SinceReset(steps), true))
    ensures HeardAs(SinceReset(steps), gain, cursor + i, Contribution(Run(steps).ops, cursor, frames)[i])
  {
    hide Run, Heard, AllOnTime, DriftingSource, Uninterrupted, Channel, Blocks, Contribution, Advancing, AllSafe, Floor,
         SafeWindow, First, Stream, Matching, Retimer.LastSample, Size, SinceReset, HeardAs;
    var tail := SinceReset(steps);
    DriftingSourceIsOneStretch(tail, capacity, shift, gain, rate);
    ResetForgets(steps);
    MixPlaysTheStretch(steps, cursor, frames, i);
    assert Contribution(Run(steps).ops, cursor, frames)[i] == StreamAt(tail, gain, cursor + i);
    StreamAtIsHeard(tail, gain, cursor + i);
  }
}
