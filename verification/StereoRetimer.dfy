/** The interpolating retimer of src/return-audio.hpp, in exact arithmetic. */
module StereoRetimer {
  import opened Words

  /** A product, named so that proofs can treat it as a unit. */
  function Times(a: real, b: real): real {
    a * b
  }

  function AbsReal(x: real): real {
    if x < 0.0 then -x else x
  }

  /** The samples of a channel, the last sample of the previous block being number -1. */
  function Node(previous: real, input: seq<real>, k: int): real
    requires -1 <= k < |input|
  {
    if k < 0 then previous else input[k]
  }

  /** Linear interpolation at a position between the previous block's last sample and this block's. */
  function Interpolate(previous: real, input: seq<real>, x: real): real
    requires input != [] && -1.0 <= x <= (|input| - 1) as real
  {
    var a := x.Floor;
    var b := if a + 1 < |input| then a + 1 else |input| - 1;
    var left := Node(previous, input, a);
    left + Times(input[b] - left, x - a as real)
  }

  function Ratio(frames: nat, adjusted: nat): real
    requires adjusted > 0
  {
    frames as real / adjusted as real
  }

  /** Where in the input output sample `i` lies. */
  function OutputPosition(i: int, frames: nat, adjusted: nat): real
    requires adjusted > 0
  {
    Times((i + 1) as real, frames as real) / adjusted as real - 1.0
  }

  lemma TimesQuotient(p: real, f: real, n: real)
    requires n > 0.0
    ensures Times(p, f) / n == Times(p, f / n)
    ensures Times(n, f / n) == f
  {
  }

  lemma TimesOrder(a: real, b: real, c: real)
    requires a <= b && c >= 0.0
    ensures Times(a, c) <= Times(b, c)
    ensures Times(c, a) <= Times(c, b)
  {
  }

  lemma TimesLinear(a: real, b: real, c: real)
    ensures Times(a + b, c) == Times(a, c) + Times(b, c)
    ensures Times(c, a + b) == Times(c, a) + Times(c, b)
    ensures Times(0.0, c) == Times(c, 0.0) == 0.0 && Times(1.0, c) == Times(c, 1.0) == c
  {
  }

  lemma PositionsInRange(i: int, frames: nat, adjusted: nat)
    requires 0 < frames && -1 <= i < adjusted && 0 < adjusted
    ensures Ratio(frames, adjusted) > 0.0
    ensures OutputPosition(i, frames, adjusted) == Times((i + 1) as real, Ratio(frames, adjusted)) - 1.0
    ensures -1.0 <= OutputPosition(i, frames, adjusted) <= (frames - 1) as real
    ensures i == adjusted - 1 ==> OutputPosition(i, frames, adjusted) == (frames - 1) as real
  {
    hide Times;
    var n, f, r := adjusted as real, frames as real, Ratio(frames, adjusted);
    TimesQuotient((i + 1) as real, f, n);
    assert r > 0.0;
    TimesOrder((i + 1) as real, n, r);
    TimesOrder(0.0, (i + 1) as real, r);
    TimesLinear(0.0, 0.0, r);
  }

  lemma PositionStep(i: nat, frames: nat, adjusted: nat)
    requires 0 < frames && i < adjusted
    ensures OutputPosition(i, frames, adjusted) - OutputPosition(i - 1, frames, adjusted) == Ratio(frames, adjusted)
  {
    hide *;
    PositionsInRange(i, frames, adjusted);
    PositionsInRange(i - 1, frames, adjusted);
    assert (i + 1) as real == i as real + 1.0 && (i - 1 + 1) as real == i as real;
    TimesLinear(i as real, 1.0, Ratio(frames, adjusted));
  }

  /** The retimed form of one channel of a block. */
  function Retimed(previous: real, input: seq<real>, adjusted: nat): (output: seq<real>)
    requires input != [] && adjusted > 0
    ensures |output| == adjusted
  {
    if |input| == adjusted then input
    else
      seq(adjusted, i requires 0 <= i < adjusted =>
        PositionsInRange(i, |input|, adjusted); Interpolate(previous, input, OutputPosition(i, |input|, adjusted)))
  }

  /** One channel of interleaved stereo. */
  function Channel(samples: seq<real>, c: nat): (r: seq<real>)
    requires c < 2 && |samples| % 2 == 0
    ensures |r| == |samples| / 2
    ensures forall f | 0 <= f < |r| :: r[f] == samples[f * 2 + c]
  {
    seq(|samples| / 2, f requires 0 <= f < |samples| / 2 => samples[f * 2 + c])
  }

  class StereoRetimer {
    var havePrevious: bool
    var previous: (real, real)
    var output: seq<real>

    constructor ()
      ensures !havePrevious
    {
      havePrevious, previous, output := false, (0.0, 0.0), [];
    }

    method Reset()
      modifies this
      ensures !havePrevious
    {
      havePrevious := false;
    }

    method Stretch(input: seq<real>, frames: nat, adjusted: nat)
      requires |input| == frames * 2 && frames > 0 && adjusted > 0 && frames != adjusted
      modifies `output
      ensures |output| == adjusted * 2
      ensures Channel(output, 0) == Retimed(previous.0, Channel(input, 0), adjusted)
      ensures Channel(output, 1) == Retimed(previous.1, Channel(input, 1), adjusted)
    {
      hide Retimed, OutputPosition;
      output := [];
      for i := 0 to adjusted
        invariant |output| == i * 2
        invariant forall k | 0 <= k < i ::
                    && output[k * 2] == Retimed(previous.0, Channel(input, 0), adjusted)[k]
                    && output[k * 2 + 1] == Retimed(previous.1, Channel(input, 1), adjusted)[k]
      {
        RetimedSample(previous.0, Channel(input, 0), adjusted, i);
        RetimedSample(previous.1, Channel(input, 1), adjusted, i);
        var position := OutputPosition(i, frames, adjusted);
        var a := position.Floor;
        var b := if a + 1 < frames then a + 1 else frames - 1;
        var fraction := position - a as real;
        var l, r := if a < 0 then previous.0 else input[a * 2], if a < 0 then previous.1 else input[a * 2 + 1];
        output := output + [l + Times(input[b * 2] - l, fraction), r + Times(input[b * 2 + 1] - r, fraction)];
      }
    }

    method Process(input: seq<real>, frames: nat, adjusted: nat) returns (result: seq<real>)
      requires |input| == frames * 2
      modifies this
      ensures frames == 0 || adjusted == 0 ==>
                result == input && havePrevious == old(havePrevious) && previous == old(previous)
      ensures frames > 0 && adjusted > 0 ==>
                var before := if old(havePrevious) then old(previous) else (input[0], input[1]);
                && havePrevious && previous == (input[frames * 2 - 2], input[frames * 2 - 1])
                && |result| == adjusted * 2
                && Channel(result, 0) == Retimed(before.0, Channel(input, 0), adjusted)
                && Channel(result, 1) == Retimed(before.1, Channel(input, 1), adjusted)
    {
      if frames == 0 || adjusted == 0 {
        return input;
      }
      if !havePrevious {
        previous, havePrevious := (input[0], input[1]), true;
      }
      result := input;
      if frames != adjusted {
        Stretch(input, frames, adjusted);
        result := output;
      }
      previous := (input[(frames - 1) * 2], input[(frames - 1) * 2 + 1]);
    }
  }

  lemma RetimedSample(previous: real, input: seq<real>, adjusted: nat, i: nat)
    requires input != [] && |input| != adjusted && i < adjusted
    ensures -1.0 <= OutputPosition(i, |input|, adjusted) <= (|input| - 1) as real
    ensures Retimed(previous, input, adjusted)[i] == Interpolate(previous, input, OutputPosition(i, |input|, adjusted))
  {
    PositionsInRange(i, |input|, adjusted);
  }

  /** No two neighbouring samples, the previous block's last one included, differ by more than `step`. */
  ghost predicate StepsWithin(previous: real, input: seq<real>, step: real) {
    forall k | 0 <= k < |input| :: AbsReal(input[k] - Node(previous, input, k - 1)) <= step
  }

  ghost predicate Within(previous: real, input: seq<real>, low: real, high: real) {
    low <= previous <= high && forall k | 0 <= k < |input| :: low <= input[k] <= high
  }

  lemma Convex(a: real, b: real, t: real, low: real, high: real)
    requires 0.0 <= t <= 1.0 && low <= a <= high && low <= b <= high
    ensures low <= a + Times(b - a, t) <= high
  {
    hide Times;
    var d := b - a;
    TimesLinear(d, -d, t);
    TimesLinear(t, 1.0 - t, d);
    if d >= 0.0 {
      TimesOrder(0.0, d, t);
      Fraction(d, t);
    } else {
      TimesOrder(d, 0.0, t);
      Fraction(-d, t);
    }
  }

  lemma Fraction(d: real, t: real)
    requires 0.0 <= t <= 1.0 && d >= 0.0
    ensures 0.0 <= Times(d, t) <= d
  {
    hide Times;
    TimesOrder(t, 1.0, d);
    TimesOrder(0.0, t, d);
    TimesLinear(0.0, 0.0, d);
  }

  /** Every interpolated value lies between the least and the greatest sample it can be drawn from. */
  lemma InterpolationInHull(previous: real, input: seq<real>, x: real, low: real, high: real)
    requires input != [] && -1.0 <= x <= (|input| - 1) as real && Within(previous, input, low, high)
    ensures low <= Interpolate(previous, input, x) <= high
  {
    var a := x.Floor;
    var b := if a + 1 < |input| then a + 1 else |input| - 1;
    Convex(Node(previous, input, a), input[b], x - a as real, low, high);
  }

  lemma ScaledStep(d: real, t: real, step: real)
    requires AbsReal(d) <= step && t >= 0.0
    ensures AbsReal(Times(d, t)) <= Times(step, t)
  {
    hide Times;
    TimesOrder(d, step, t);
    TimesOrder(-d, step, t);
    TimesLinear(d, -d, t);
  }

  /** Inside one segment, and up to its right end, interpolation is a straight line. */
  lemma OnSegment(previous: real, input: seq<real>, k: int, x: real)
    requires -1 <= k < |input| - 1 && k as real <= x <= (k + 1) as real
    ensures Interpolate(previous, input, x) ==
              Node(previous, input, k) + Times(Node(previous, input, k + 1) - Node(previous, input, k), x - k as real)
  {
    hide Times;
    if x == (k + 1) as real {
      assert x.Floor == k + 1;
      TimesLinear(0.0, 0.0, Node(previous, input, k + 1) - Node(previous, input, k));
      InterpolateAtNode(previous, input, k + 1);
    } else {
      assert x.Floor == k;
    }
  }

  lemma SegmentSlope(previous: real, input: seq<real>, k: int, x: real, y: real, step: real)
    requires -1 <= k < |input| - 1 && k as real <= x <= y <= (k + 1) as real && StepsWithin(previous, input, step)
    ensures AbsReal(Interpolate(previous, input, y) - Interpolate(previous, input, x)) <= Times(step, y - x)
  {
    hide Times, Interpolate;
    OnSegment(previous, input, k, x);
    OnSegment(previous, input, k, y);
    var d := Node(previous, input, k + 1) - Node(previous, input, k);
    assert AbsReal(d) <= step;
    ScaledStep(d, y - x, step);
    TimesLinear(x - k as real, y - x, d);
    assert x - k as real + (y - x) == y - k as real;
  }

  lemma InterpolateAtNode(previous: real, input: seq<real>, k: int)
    requires -1 <= k < |input| && input != []
    ensures Interpolate(previous, input, k as real) == Node(previous, input, k)
  {
    hide Times;
    assert (k as real).Floor == k;
    TimesLinear(0.0, 0.0, input[if k + 1 < |input| then k + 1 else |input| - 1] - Node(previous, input, k));
  }

  /** Between any two positions the interpolated signal changes no faster than its steepest input step. */
  lemma {:induction false} SlopeBound(previous: real, input: seq<real>, x: real, y: real, step: real)
    requires input != [] && -1.0 <= x <= y <= (|input| - 1) as real && StepsWithin(previous, input, step)
    ensures AbsReal(Interpolate(previous, input, y) - Interpolate(previous, input, x)) <= Times(step, y - x)
    decreases y.Floor - x.Floor
  {
    hide Interpolate, StepsWithin, Times;
    var k := x.Floor;
    if x == y {
      TimesLinear(0.0, 0.0, step);
    } else if y <= (k + 1) as real {
      SegmentSlope(previous, input, k, x, y, step);
    } else {
      var z := (k + 1) as real;
      SegmentSlope(previous, input, k, x, z, step);
      SlopeBound(previous, input, z, y, step);
      TimesLinear(y - z, z - x, step);
      assert y - z + (z - x) == y - x;
    }
  }

  /** Output sample `i`; number -1 is the last output of the previous block. */
  function Output(previous: real, input: seq<real>, adjusted: nat, i: int): real
    requires input != [] && adjusted > 0 && -1 <= i < adjusted
  {
    if i < 0 then previous else Retimed(previous, input, adjusted)[i]
  }

  /** A retimed block ends exactly on its last input sample, so blocks join where they did before. */
  lemma BlockEndsOnInput(previous: real, input: seq<real>, adjusted: nat)
    requires input != [] && adjusted > 0
    ensures Output(previous, input, adjusted, adjusted - 1) == input[|input| - 1]
  {
    hide Retimed, OutputPosition, Interpolate, Ratio;
    PositionsInRange(adjusted - 1, |input|, adjusted);
    InterpolateAtNode(previous, input, |input| - 1);
    if |input| == adjusted {
      Untouched(previous, input);
    } else {
      RetimedSample(previous, input, adjusted, adjusted - 1);
    }
  }

  /** Without a correction the samples pass through unchanged. */
  lemma Untouched(previous: real, input: seq<real>)
    requires input != []
    ensures Retimed(previous, input, |input|) == input
  {
  }

  /** The output samples lie evenly over the block: a straight line comes out as the same line, read at every
      `ratio`-th of a sample from the previous block's last one on. */
  lemma LineStaysLine(previous: real, input: seq<real>, adjusted: nat, a: real, b: real, i: nat)
    requires input != [] && i < adjusted
    requires forall k | -1 <= k < |input| :: Node(previous, input, k) == a + Times(b, k as real)
    ensures var x := Times((i + 1) as real, |input| as real) / adjusted as real - 1.0;
            Retimed(previous, input, adjusted)[i] == a + Times(b, x)
  {
    hide *;
    PositionIs(i, |input|, adjusted);
    PositionsInRange(i, |input|, adjusted);
    var x := OutputPosition(i, |input|, adjusted);
    if |input| == adjusted {
      Untouched(previous, input);
      WholePosition(i, adjusted);
      NodeInside(previous, input, i);
    } else {
      RetimedSample(previous, input, adjusted, i);
      OnLine(previous, input, x, a, b);
    }
  }

  lemma NodeInside(previous: real, input: seq<real>, k: nat)
    requires k < |input|
    ensures Node(previous, input, k) == input[k]
  {
  }

  lemma PositionIs(i: nat, frames: nat, adjusted: nat)
    requires adjusted > 0
    ensures OutputPosition(i, frames, adjusted) == Times((i + 1) as real, frames as real) / adjusted as real - 1.0
  {
    hide Times;
  }

  lemma WholePosition(i: nat, n: nat)
    requires n > 0
    ensures Times((i + 1) as real, n as real) / n as real - 1.0 == i as real
  {
    hide Times;
    TimesQuotient((i + 1) as real, n as real, n as real);
    assert n as real / n as real == 1.0;
    TimesLinear(0.0, 0.0, (i + 1) as real);
  }

  lemma OnLine(previous: real, input: seq<real>, x: real, a: real, b: real)
    requires input != [] && -1.0 <= x <= (|input| - 1) as real
    requires forall k | -1 <= k < |input| :: Node(previous, input, k) == a + Times(b, k as real)
    ensures Interpolate(previous, input, x) == a + Times(b, x)
  {
    hide Times;
    var k := x.Floor;
    if k < |input| - 1 {
      OnSegment(previous, input, k, x);
      assert (k + 1) as real == k as real + 1.0;
      TimesLinear(k as real, 1.0, b);
      TimesLinear(k as real, x - k as real, b);
      assert k as real + (x - k as real) == x;
    } else {
      assert x == k as real;
      InterpolateAtNode(previous, input, k);
    }
  }

  /** Neighbouring outputs of a block, across its left edge too, differ by at most the stretching ratio times the
      largest input step, and every output stays within the range of the samples. */
  lemma BlockIsSmooth(previous: real, input: seq<real>, adjusted: nat, i: nat, step: real, low: real, high: real)
    requires input != [] && i < adjusted
    requires StepsWithin(previous, input, step) && Within(previous, input, low, high)
    ensures AbsReal(Output(previous, input, adjusted, i) - Output(previous, input, adjusted, i - 1))
            <= Times(step, Ratio(|input|, adjusted))
    ensures low <= Output(previous, input, adjusted, i) <= high
  {
    hide Retimed, OutputPosition, Interpolate, StepsWithin, Times;
    if |input| == adjusted {
      Untouched(previous, input);
      UnchangedSteps(previous, input, i, step);
    } else {
      hide Ratio, Within;
      PositionsInRange(i - 1, |input|, adjusted);
      PositionStep(i, |input|, adjusted);
      RetimedSample(previous, input, adjusted, i);
      var x, y := OutputPosition(i - 1, |input|, adjusted), OutputPosition(i, |input|, adjusted);
      PositionsInRange(i, |input|, adjusted);
      SlopeBound(previous, input, x, y, step);
      InterpolationInHull(previous, input, y, low, high);
      if i == 0 {
        InterpolateAtNode(previous, input, -1);
        FirstPosition(|input|, adjusted);
      } else {
        RetimedSample(previous, input, adjusted, i - 1);
      }
    }
  }

  lemma FirstPosition(frames: nat, adjusted: nat)
    requires adjusted > 0
    ensures OutputPosition(-1, frames, adjusted) == -1.0 == (-1) as real
  {
  }

  lemma UnchangedSteps(previous: real, input: seq<real>, i: nat, step: real)
    requires i < |input| && StepsWithin(previous, input, step)
    ensures AbsReal(input[i] - Node(previous, input, i - 1)) <= step == Times(step, Ratio(|input|, |input|))
  {
    hide Ratio;
    WholeRatio(|input|);
    TimesLinear(0.0, 0.0, step);
  }

  lemma WholeRatio(n: nat)
    requires n > 0
    ensures Ratio(n, n) == 1.0
  {
    assert n as real / n as real == 1.0;
  }

  /** One block of a stream: the samples of a channel and the length the clock asked for. */
  datatype Block = Block(input: seq<real>, adjusted: nat)
  {
    predicate Valid() {
      input != [] && 0 < adjusted && |input| - 1 <= adjusted <= |input| + 1
    }
  }

  ghost predicate ValidStream(blocks: seq<Block>) {
    forall i | 0 <= i < |blocks| :: blocks[i].Valid()
  }

  /** The last sample of a stream; before the first block it is that block's own first sample. */
  function LastSample(first: real, blocks: seq<Block>): real
    requires ValidStream(blocks)
  {
    if blocks == [] then first
    else var b := blocks[|blocks| - 1]; b.input[|b.input| - 1]
  }

  function StreamIn(blocks: seq<Block>): seq<real> {
    if blocks == [] then [] else StreamIn(blocks[..|blocks| - 1]) + blocks[|blocks| - 1].input
  }

  function StreamOut(first: real, blocks: seq<Block>): seq<real>
    requires ValidStream(blocks)
  {
    if blocks == [] then []
    else
      var n := |blocks| - 1;
      StreamOut(first, blocks[..n]) + Retimed(LastSample(first, blocks[..n]), blocks[n].input, blocks[n].adjusted)
  }

  lemma EndsOnTail(first: real, head: seq<real>, tail: seq<real>)
    requires tail != []
    ensures EndsOn(first, head + tail, tail[|tail| - 1])
  {
  }

  lemma EmptyEnds(first: real)
    ensures EndsOn(first, [], first)
  {
  }

  lemma {:induction false} StreamEnds(first: real, blocks: seq<Block>)
    requires ValidStream(blocks)
    ensures EndsOn(first, StreamIn(blocks), LastSample(first, blocks))
    ensures EndsOn(first, StreamOut(first, blocks), LastSample(first, blocks))
  {
    hide Retimed, EndsOn, OutputPosition, Interpolate;
    if blocks == [] {
      EmptyEnds(first);
    } else {
      var n := |blocks| - 1;
      var previous, b := LastSample(first, blocks[..n]), blocks[n];
      var out := Retimed(previous, b.input, b.adjusted);
      BlockEndsOnInput(previous, b.input, b.adjusted);
      assert out[|out| - 1] == b.input[|b.input| - 1];
      EndsOnTail(first, StreamIn(blocks[..n]), b.input);
      EndsOnTail(first, StreamOut(first, blocks[..n]), out);
    }
  }

  lemma StretchAtMostDouble(b: Block, step: real)
    requires b.Valid() && step >= 0.0
    ensures Times(step, Ratio(|b.input|, b.adjusted)) <= step * 2.0
  {
    HalfOrMore(|b.input| as real, b.adjusted as real);
    TimesOrder(Ratio(|b.input|, b.adjusted), 2.0, step);
  }

  lemma HalfOrMore(f: real, n: real)
    requires n > 0.0 && f <= 2.0 * n
    ensures f / n <= 2.0
  {
    var q := f / n;
    assert n * q == f;
  }

  /** A whole stream of blocks, each stretched or shrunk by at most one frame, stays within the range of its input and
      never moves between neighbouring samples by more than twice the largest step of its input. */
  lemma {:induction false} StreamIsSmooth(first: real, blocks: seq<Block>, step: real, low: real, high: real)
    requires ValidStream(blocks) && step >= 0.0
    requires StepsWithin(first, StreamIn(blocks), step) && Within(first, StreamIn(blocks), low, high)
    ensures StepsWithin(first, StreamOut(first, blocks), step * 2.0)
    ensures Within(first, StreamOut(first, blocks), low, high)
  {
    hide Retimed, EndsOn, LastSample;
    if blocks != [] {
      var n := |blocks| - 1;
      var before, b := blocks[..n], blocks[n];
      var previous := LastSample(first, before);
      StreamEnds(first, before);
      SplitRun(first, StreamIn(before), b.input, previous, step, low, high);
      StreamIsSmooth(first, before, step, low, high);
      BlockRunIsSmooth(previous, b, step, low, high);
      JoinRuns(first, StreamOut(first, before), Retimed(previous, b.input, b.adjusted), previous, step * 2.0,
          low, high);
    }
  }

  lemma BlockRunIsSmooth(previous: real, b: Block, step: real, low: real, high: real)
    requires b.Valid() && step >= 0.0
    requires StepsWithin(previous, b.input, step) && Within(previous, b.input, low, high)
    ensures StepsWithin(previous, Retimed(previous, b.input, b.adjusted), step * 2.0)
    ensures Within(previous, Retimed(previous, b.input, b.adjusted), low, high)
  {
    hide Ratio, Retimed;
    var out := Retimed(previous, b.input, b.adjusted);
    StretchAtMostDouble(b, step);
    forall i | 0 <= i < |out|
      ensures AbsReal(out[i] - Node(previous, out, i - 1)) <= step * 2.0 && low <= out[i] <= high
    {
      BlockIsSmooth(previous, b.input, b.adjusted, i, step, low, high);
    }
  }

  /** The sample in front of what follows a run. */
  ghost predicate EndsOn(first: real, head: seq<real>, last: real) {
    last == if head == [] then first else head[|head| - 1]
  }

  lemma JoinRuns(first: real, head: seq<real>, tail: seq<real>, last: real, step: real, low: real, high: real)
    requires EndsOn(first, head, last)
    requires StepsWithin(first, head, step) && Within(first, head, low, high)
    requires StepsWithin(last, tail, step) && Within(last, tail, low, high)
    ensures StepsWithin(first, head + tail, step) && Within(first, head + tail, low, high)
  {
    var whole := head + tail;
    forall k | 0 <= k < |whole|
      ensures AbsReal(whole[k] - Node(first, whole, k - 1)) <= step && low <= whole[k] <= high
    {
      if k < |head| {
        assert whole[k] == head[k] && Node(first, whole, k - 1) == Node(first, head, k - 1);
      } else {
        assert whole[k] == tail[k - |head|] && Node(first, whole, k - 1) == Node(last, tail, k - |head| - 1);
      }
    }
  }

  lemma SplitRun(first: real, head: seq<real>, tail: seq<real>, last: real, step: real, low: real, high: real)
    requires EndsOn(first, head, last)
    requires StepsWithin(first, head + tail, step) && Within(first, head + tail, low, high)
    ensures StepsWithin(first, head, step) && Within(first, head, low, high)
    ensures StepsWithin(last, tail, step) && Within(last, tail, low, high)
  {
    var whole := head + tail;
    forall k | 0 <= k < |head|
      ensures AbsReal(head[k] - Node(first, head, k - 1)) <= step && low <= head[k] <= high
    {
      assert whole[k] == head[k] && Node(first, whole, k - 1) == Node(first, head, k - 1);
    }
    forall k | 0 <= k < |tail|
      ensures AbsReal(tail[k] - Node(last, tail, k - 1)) <= step && low <= tail[k] <= high
    {
      assert whole[|head| + k] == tail[k] && Node(first, whole, |head| + k - 1) == Node(last, tail, k - 1);
    }
    assert head != [] ==> whole[|head| - 1] == last;
  }
}
