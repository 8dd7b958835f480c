/** The tagged circular timeline of src/return-audio.hpp, against a plain map from times to samples. */
module StereoTimeline {
  import opened Words

  type Sample = (real, real)

  /** A slot: the time it holds a sample for, with -1 for none, and the sample. */
  datatype Frame = Frame(tag: int, sample: Sample)

  const SILENCE: Sample := (0.0, 0.0)
  const EMPTY := Frame(-1, SILENCE)

  /** Times are 64-bit; converted to `size_t`, negative ones wrap around. */
  predicate InRange(time: int) {
    -0x8000_0000_0000_0000 <= time < 0x8000_0000_0000_0000
  }

  function Slot(time: int, size: nat): (k: nat)
    requires size > 0 && InRange(time)
    ensures k < size
  {
    (if time < 0 then time + TWO64 else time) % size
  }

  /** Each channel is scaled for itself. */
  function Scaled(s: Sample, gain: real): (r: Sample)
    ensures r.0 == s.0 * gain && r.1 == s.1 * gain
  {
    (s.0 * gain, s.1 * gain)
  }

  function PutOne(data: seq<Frame>, time: int, sample: Sample, cursor: int): (r: seq<Frame>)
    requires data != [] && InRange(time)
    ensures |r| == |data|
  {
    if time < cursor || time >= cursor + |data| then data
    else
      var k := Slot(time, |data|);
      if data[k].tag == time then data else data[k := Frame(time, sample)]
  }

  /** The first `n` samples of a block. */
  function PutSome(data: seq<Frame>, start: int, samples: seq<Sample>, gain: real, cursor: int, n: nat): (r: seq<Frame>)
    requires n <= |samples| && InRange(start) && InRange(start + n)
    ensures |r| == |data|
  {
    if n == 0 || data == [] then data
    else PutOne(PutSome(data, start, samples, gain, cursor, n - 1), start + n - 1, Scaled(samples[n - 1], gain), cursor)
  }

  function LateFrames(start: int, frames: nat, cursor: int): nat {
    if cursor <= start then 0 else if start + frames <= cursor then frames else cursor - start
  }

  function MixOne(data: seq<Frame>, time: int): (r: (seq<Frame>, Sample))
    requires data != [] && InRange(time)
    ensures |r.0| == |data|
  {
    var k := Slot(time, |data|);
    if data[k].tag == time then (data[k := data[k].(tag := -1)], data[k].sample) else (data, SILENCE)
  }

  /** The timeline after `n` frames of a mix, and what they contributed. */
  function MixSome(data: seq<Frame>, start: int, n: nat): (r: (seq<Frame>, seq<Sample>))
    requires InRange(start) && InRange(start + n)
    ensures |r.0| == |data| && |r.1| == n
  {
    if n == 0 then (data, [])
    else
      var before := MixSome(data, start, n - 1);
      if data == [] then (data, before.1 + [SILENCE])
      else
        var (after, sample) := MixOne(before.0, start + n - 1);
        (after, before.1 + [sample])
  }

  function Cleared(data: seq<Frame>): (r: seq<Frame>)
    ensures |r| == |data|
  {
    seq(|data|, i requires 0 <= i < |data| => data[i].(tag := -1))
  }

  function Resized(data: seq<Frame>, size: nat): (r: seq<Frame>)
    ensures |r| == size
  {
    if size != |data| then seq(size, _ => EMPTY) else data
  }

  /** Each channel is added for itself. */
  function Summed(out: seq<Sample>, contribution: seq<Sample>): (r: seq<Sample>)
    requires |out| == |contribution|
    ensures |r| == |out|
    ensures forall i | 0 <= i < |r| ::
              r[i].0 == out[i].0 + contribution[i].0 && r[i].1 == out[i].1 + contribution[i].1
  {
    seq(|out|, i requires 0 <= i < |out| => (out[i].0 + contribution[i].0, out[i].1 + contribution[i].1))
  }

  class StereoTimeline {
    var data: array<Frame>

    constructor ()
      ensures data[..] == [] && fresh(data)
    {
      data := new Frame[0];
    }

    method Resize(size: nat)
      modifies this
      ensures data[..] == Resized(old(data[..]), size)
      ensures data == old(data) || fresh(data)
    {
      if size != data.Length {
        data := new Frame[size](_ => EMPTY);
      }
    }

    method Clear()
      modifies data
      ensures data[..] == Cleared(old(data[..]))
    {
      for i := 0 to data.Length
        invariant forall k | 0 <= k < i :: data[k] == old(data[k]).(tag := -1)
        invariant forall k | i <= k < data.Length :: data[k] == old(data[k])
      {
        data[i] := data[i].(tag := -1);
      }
    }

    method Put(start: int, samples: seq<Sample>, gain: real, cursor: int) returns (late: nat)
      requires InRange(start) && InRange(start + |samples|)
      modifies data
      ensures data[..] == PutSome(old(data[..]), start, samples, gain, cursor, |samples|)
      ensures late == if data.Length == 0 then 0 else LateFrames(start, |samples|, cursor)
    {
      late := 0;
      if data.Length == 0 {
        return;
      }
      for i := 0 to |samples|
        invariant data[..] == PutSome(old(data[..]), start, samples, gain, cursor, i)
        invariant late == LateFrames(start, i, cursor)
      {
        var time := start + i;
        if time < cursor {
          late := late + 1;
          continue;
        }
        if time >= cursor + data.Length {
          continue;
        }
        var k := Slot(time, data.Length);
        if data[k].tag == time {
          continue;
        }
        data[k] := Frame(time, Scaled(samples[i], gain));
      }
    }

    /** Adds the slot's sample for a time, if it holds one, and empties the slot. */
    method MixFrame(time: int, out: array<Sample>, i: nat)
      requires InRange(time) && data.Length > 0 && i < out.Length && out as object != data
      modifies data, out
      ensures data[..] == MixOne(old(data[..]), time).0
      ensures forall k | 0 <= k < out.Length && k != i :: out[k] == old(out[k])
      ensures var sample := MixOne(old(data[..]), time).1;
              out[i] == (old(out[i]).0 + sample.0, old(out[i]).1 + sample.1)
    {
      var k := Slot(time, data.Length);
      if data[k].tag == time {
        out[i] := (out[i].0 + data[k].sample.0, out[i].1 + data[k].sample.1);
        data[k] := data[k].(tag := -1);
      }
    }

    method Mix(start: int, out: array<Sample>)
      requires InRange(start) && InRange(start + out.Length) && out as object != data
      modifies data, out
      ensures data[..] == MixSome(old(data[..]), start, out.Length).0
      ensures out[..] == Summed(old(out[..]), MixSome(old(data[..]), start, out.Length).1)
    {
      hide MixOne;
      if data.Length == 0 {
        NothingToMix(data[..], start, out.Length);
        assert out[..] == Summed(out[..], MixSome(data[..], start, out.Length).1);
        return;
      }
      for i := 0 to out.Length
        invariant data[..] == MixSome(old(data[..]), start, i).0
        invariant out[..i] == Summed(old(out[..i]), MixSome(old(data[..]), start, i).1)
        invariant forall k | i <= k < out.Length :: out[k] == old(out[k])
      {
        ghost var before := out[..i];
        MixFrame(start + i, out, i);
        assert out[..i + 1] == before + [out[i]];
        assert old(out[..i + 1]) == old(out[..i]) + [old(out[i])];
      }
      assert out[..] == out[..out.Length] && old(out[..]) == old(out[..out.Length]);
    }
  }

  lemma {:induction false} NothingToMix(data: seq<Frame>, start: int, n: nat)
    requires data == [] && InRange(start) && InRange(start + n)
    ensures MixSome(data, start, n).1 == seq(n, _ => SILENCE)
  {
    if n > 0 {
      NothingToMix(data, start, n - 1);
    }
  }
}
