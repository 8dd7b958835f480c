/** A block that corrects the drift of a foreign clock: one frame more or less of the stream is spread over its
    length. */
module DriftBlock {
  import opened Words
  import opened StreamBuffer

  /** Every frame of the block is a blend of two neighbouring frames of its input. */
  lemma {:induction false} FrameIsBlend(input: seq<real>, consume: nat, frames: nat, channels: nat, n: nat, f: nat)
    requires consume > 0 && |input| == consume * channels && f < n <= frames
    ensures (f + 1) * channels <= n * channels
    ensures 0.0 <= Position(f, consume, frames) <= (consume - 1) as real
    ensures var a := Position(f, consume, frames).Floor;
            var b := if a + 1 < consume then a + 1 else consume - 1;
            && (a + 1) * channels <= |input| && (b + 1) * channels <= |input|
            && Row(Resampled(input, consume, frames, channels, n), channels, f)
               == Blend(Row(input, channels, a), Row(input, channels, b), Position(f, consume, frames) - a as real)
  {
    hide Position, Blend;
    PositionInRange(f, consume, frames);
    var a := Position(f, consume, frames).Floor;
    var b := if a + 1 < consume then a + 1 else consume - 1;
    ProductMonotone(a + 1, consume, channels);
    ProductMonotone(b + 1, consume, channels);
    ProductMonotone(f + 1, n, channels);
    Distribute(channels, n - 1, 1);
    if f < n - 1 {
      FrameIsBlend(input, consume, frames, channels, n - 1, f);
      var before := Resampled(input, consume, frames, channels, n - 1);
      var after := Resampled(input, consume, frames, channels, n);
      RowOfPrefix(before, after, channels, f);
    } else {
      Distribute(channels, f, 1);
    }
  }

  lemma RowOfPrefix(p: seq<real>, s: seq<real>, channels: nat, f: nat)
    requires (f + 1) * channels <= |p| && p <= s
    ensures Row(s, channels, f) == Row(p, channels, f)
  {
    Distribute(channels, f, 1);
  }

  /** The first and the last frame are the input's, so that blocks join without a jump. */
  lemma EndsAreKept(input: seq<real>, consume: nat, frames: nat, channels: nat)
    requires consume > 0 && frames > 1 && |input| == consume * channels
    ensures channels <= frames * channels && channels <= |input|
    ensures (frames - 1 + 1) * channels <= |Resampled(input, consume, frames, channels, frames)|
    ensures (consume - 1 + 1) * channels <= |input|
    ensures var r := Resampled(input, consume, frames, channels, frames);
            && Row(r, channels, 0) == Row(input, channels, 0)
            && Row(r, channels, frames - 1) == Row(input, channels, consume - 1)
  {
    hide Row, Resampled, Position, Blend;
    FrameIsBlend(input, consume, frames, channels, frames, 0);
    FrameIsBlend(input, consume, frames, channels, frames, frames - 1);
    EndPositions(consume, frames);
    BlendWithNothing(Row(input, channels, 0), Row(input, channels, if 1 < consume then 1 else consume - 1));
    BlendWithNothing(Row(input, channels, consume - 1), Row(input, channels, consume - 1));
  }

  lemma BlendWithNothing(a: seq<real>, b: seq<real>)
    requires |a| == |b|
    ensures Blend(a, b, 0.0) == a
  {
  }

  lemma EndPositions(consume: nat, frames: nat)
    requires consume > 0 && frames > 1
    ensures Position(0, consume, frames) == 0.0
    ensures Position(frames - 1, consume, frames) == (consume - 1) as real
  {
    Whole((frames - 1) as real, (consume - 1) as real);
    assert 0 as real * (consume - 1) as real == 0.0;
  }

  lemma Whole(n: real, c: real)
    requires n > 0.0
    ensures n * c / n == c
  {
  }

  /** No sample leaves the range of the samples it is made from. */
  lemma SamplesStayInRange(
    input: seq<real>, consume: nat, frames: nat, channels: nat, f: nat, c: nat, low: real, high: real)
    requires consume > 0 && |input| == consume * channels && f < frames && c < channels
    requires forall k | 0 <= k < |input| :: low <= input[k] <= high
    ensures (f + 1) * channels <= frames * channels
    ensures low <= Row(Resampled(input, consume, frames, channels, frames), channels, f)[c] <= high
  {
    hide Resampled, Position, Row;
    FrameIsBlend(input, consume, frames, channels, frames, f);
    var a := Position(f, consume, frames).Floor;
    var b := if a + 1 < consume then a + 1 else consume - 1;
    RowInRange(input, channels, a, c, low, high);
    RowInRange(input, channels, b, c, low, high);
    var mix := Position(f, consume, frames) - a as real;
    Between(Row(input, channels, a)[c], Row(input, channels, b)[c], mix, low, high);
  }

  lemma RowInRange(input: seq<real>, channels: nat, f: nat, c: nat, low: real, high: real)
    requires (f + 1) * channels <= |input| && c < channels && forall k | 0 <= k < |input| :: low <= input[k] <= high
    ensures low <= Row(input, channels, f)[c] <= high
  {
    Distribute(channels, f, 1);
  }

  lemma Between(x: real, y: real, mix: real, low: real, high: real)
    requires low <= x <= high && low <= y <= high && 0.0 <= mix <= 1.0
    ensures low <= x * (1.0 - mix) + y * mix <= high
  {
    Nonnegative(x - low, 1.0 - mix);
    Nonnegative(y - low, mix);
    Nonnegative(high - x, 1.0 - mix);
    Nonnegative(high - y, mix);
  }

  lemma Nonnegative(x: real, y: real)
    requires x >= 0.0 && y >= 0.0
    ensures x * y >= 0.0
  {
  }
}
