/** Whole lives of a timeline: it refines a map from times to the first sample put for them. */
module TimelineHistory {
  import opened Words
  import opened StereoTimeline

  datatype Op =
    | Clear
    | Resize(size: nat)
    | Put(start: int, samples: seq<Sample>, gain: real, cursor: int)
    | Mix(cursor: int, frames: nat)

  ghost predicate Representable(op: Op) {
    match op
    case Clear => true
    case Resize(_) => true
    case Put(start, samples, _, _) => InRange(start) && InRange(start + |samples|)
    case Mix(cursor, frames) => InRange(cursor) && InRange(cursor + frames)
  }

  ghost predicate AllRepresentable(ops: seq<Op>) {
    forall i | 0 <= i < |ops| :: Representable(ops[i])
  }

  function Apply(data: seq<Frame>, op: Op): seq<Frame>
    requires Representable(op)
  {
    match op
    case Clear => Cleared(data)
    case Resize(size) => Resized(data, size)
    case Put(start, samples, gain, cursor) => PutSome(data, start, samples, gain, cursor, |samples|)
    case Mix(cursor, frames) => MixSome(data, cursor, frames).0
  }

  function Data(ops: seq<Op>): seq<Frame>
    requires AllRepresentable(ops)
  {
    if ops == [] then [] else Apply(Data(ops[..|ops| - 1]), ops[|ops| - 1])
  }

  /** The plain specification: every time in the window keeps the first sample put for it. */
  function FirstPut(
    ideal: map<int, Sample>, start: int, samples: seq<Sample>, gain: real, cursor: int, size: nat, n: nat)
    : map<int, Sample>
    requires n <= |samples|
  {
    if n == 0 then ideal
    else
      var before, time := FirstPut(ideal, start, samples, gain, cursor, size, n - 1), start + n - 1;
      if cursor <= time < cursor + size && time !in before then before[time := Scaled(samples[n - 1], gain)] else before
  }

  function Size(ops: seq<Op>): nat {
    if ops == [] then 0
    else var op := ops[|ops| - 1]; if op.Resize? then op.size else Size(ops[..|ops| - 1])
  }

  function Ideal(ops: seq<Op>): map<int, Sample> {
    if ops == [] then map[]
    else
      var before, op := ops[..|ops| - 1], ops[|ops| - 1];
      match op
      case Clear => map[]
      case Resize(size) => if size == Size(before) then Ideal(before) else map[]
      case Put(start, samples, gain, cursor) =>
        FirstPut(Ideal(before), start, samples, gain, cursor, Size(before), |samples|)
      case Mix(_, _) => Ideal(before)
  }

  lemma NoLife()
    ensures AllRepresentable([]) && Data([]) == [] && Size([]) == 0 && Ideal([]) == map[]
  {
  }

  /** A life one operation longer. */
  lemma LifeThen(ops: seq<Op>, op: Op)
    requires AllRepresentable(ops) && Representable(op)
    ensures AllRepresentable(ops + [op]) && Data(ops + [op]) == Apply(Data(ops), op)
    ensures Size(ops + [op]) == if op.Resize? then op.size else Size(ops)
    ensures op.Clear? ==> Ideal(ops + [op]) == map[]
    ensures op.Resize? ==> Ideal(ops + [op]) == if op.size == Size(ops) then Ideal(ops) else map[]
  {
    assert (ops + [op])[..|ops|] == ops;
  }

  /** The earliest cursor the next operation may use: none after a clear, else the latest used, or the end of the
      latest mix. */
  function Floor(ops: seq<Op>): Option<int> {
    if ops == [] then None
    else
      match ops[|ops| - 1]
      case Clear => None
      case Resize(size) => if size == Size(ops[..|ops| - 1]) then Floor(ops[..|ops| - 1]) else None
      case Put(_, _, _, cursor) => Some(cursor)
      case Mix(cursor, frames) => Some(cursor + frames)
  }

  predicate AtLeast(cursor: int, floor: Option<int>) {
    floor.Some? ==> floor.value <= cursor
  }

  /** Since the last clear the cursor has only advanced, past every mix. */
  ghost predicate Advancing(ops: seq<Op>) {
    ops != [] ==>
      var before, op := ops[..|ops| - 1], ops[|ops| - 1];
      && Advancing(before)
      && (op.Put? || op.Mix? ==> AtLeast(op.cursor, Floor(before)))
  }

  /** The window of times that may be put does not contain -1, the tag of an empty slot. */
  predicate SafeWindow(cursor: int, size: nat) {
    cursor >= 0 || cursor + size < 0
  }

  ghost predicate AllSafe(ops: seq<Op>) {
    ops != [] ==>
      var before, op := ops[..|ops| - 1], ops[|ops| - 1];
      && AllSafe(before)
      && (op.Put? ==> SafeWindow(op.cursor, Size(before)) && InRange(op.cursor) && InRange(op.cursor + Size(before)))
      && (op.Mix? ==> SafeWindow(op.cursor, op.frames))
  }

  /** From the cursor on, the slots hold exactly the samples of the map. */
  ghost predicate Represents(data: seq<Frame>, ideal: map<int, Sample>, cursor: int) {
    && (forall k | 0 <= k < |data| :: data[k].tag != -1 ==>
          && InRange(data[k].tag) && k == Slot(data[k].tag, |data|) && data[k].tag < cursor + |data|
          && data[k].tag in ideal && ideal[data[k].tag] == data[k].sample)
    && (forall t | t in ideal && t >= cursor :: Holds(data, t, ideal[t]))
    && -1 !in ideal
  }

  ghost predicate Holds(data: seq<Frame>, t: int, sample: Sample) {
    data != [] && InRange(t) && data[Slot(t, |data|)] == Frame(t, sample)
  }

  /** Two times of one safe window never share a slot. */
  lemma SlotInjective(a: int, b: int, cursor: int, size: nat)
    requires size > 0 && InRange(a) && InRange(b)
    requires cursor <= a < cursor + size && cursor <= b < cursor + size && (cursor >= 0 || cursor + size < 0)
    requires Slot(a, size) == Slot(b, size)
    ensures a == b
  {
    var x, y := if a < 0 then a + TWO64 else a, if b < 0 then b + TWO64 else b;
    if x < y {
      SameResidue(x, y, size);
    } else if y < x {
      SameResidue(y, x, size);
    }
  }

  lemma SameResidue(x: nat, y: nat, size: nat)
    requires size > 0 && x < y && x % size == y % size
    ensures y - x >= size
  {
    DivMod(x, size);
    DivMod(y, size);
    var p, q := x / size, y / size;
    Distribute(size, q, -p);
    if q - p < 1 {
      ProductMonotone(q - p, 0, size);
    } else {
      ProductMonotone(1, q - p, size);
    }
  }

  lemma PutOneRepresents(data: seq<Frame>, ideal: map<int, Sample>, cursor: int, time: int, sample: Sample)
    requires data != [] && InRange(time) && SafeWindow(cursor, |data|) && Represents(data, ideal, cursor)
    ensures Represents(
              PutOne(data, time, sample, cursor),
              if cursor <= time < cursor + |data| && time !in ideal then ideal[time := sample] else ideal,
              cursor)
  {
    hide Slot;
    var size, after := |data|, PutOne(data, time, sample, cursor);
    if cursor <= time < cursor + size {
      var k := Slot(time, size);
      if time in ideal {
        assert Holds(data, time, ideal[time]);
      } else {
        forall t | t in ideal && t >= cursor ensures Holds(after, t, ideal[t]) {
          assert Holds(data, t, ideal[t]);
          if Slot(t, size) == k {
            SlotInjective(t, time, cursor, size);
          }
        }
      }
    }
  }

  lemma {:induction false} PutSomeRepresents(
    data: seq<Frame>, ideal: map<int, Sample>, start: int, samples: seq<Sample>, gain: real, cursor: int, n: nat)
    requires n <= |samples| && InRange(start) && InRange(start + n) && SafeWindow(cursor, |data|)
    requires Represents(data, ideal, cursor)
    ensures Represents(PutSome(data, start, samples, gain, cursor, n),
                       FirstPut(ideal, start, samples, gain, cursor, |data|, n), cursor)
  {
    hide Represents, PutOne, SafeWindow;
    if data == [] {
      NothingToPut(ideal, start, samples, gain, cursor, n);
    } else if n > 0 {
      PutSomeRepresents(data, ideal, start, samples, gain, cursor, n - 1);
      PutOneRepresents(PutSome(data, start, samples, gain, cursor, n - 1),
                       FirstPut(ideal, start, samples, gain, cursor, |data|, n - 1),
                       cursor, start + n - 1, Scaled(samples[n - 1], gain));
    }
  }

  lemma {:induction false} NothingToPut(
    ideal: map<int, Sample>, start: int, samples: seq<Sample>, gain: real, cursor: int, n: nat)
    requires n <= |samples|
    ensures FirstPut(ideal, start, samples, gain, cursor, 0, n) == ideal
  {
    if n > 0 {
      NothingToPut(ideal, start, samples, gain, cursor, n - 1);
    }
  }

  /** What the map has for a time; silence where nothing was put. */
  function Lookup(ideal: map<int, Sample>, time: int): Sample {
    if time in ideal then ideal[time] else SILENCE
  }

  lemma MixOneRepresents(data: seq<Frame>, ideal: map<int, Sample>, time: int)
    requires data != [] && InRange(time) && time != -1 && Represents(data, ideal, time)
    ensures Represents(MixOne(data, time).0, ideal, time + 1)
    ensures MixOne(data, time).1 == Lookup(ideal, time)
  {
    hide Slot;
    var size, after := |data|, MixOne(data, time).0;
    if time in ideal {
      assert Holds(data, time, ideal[time]);
    }
    forall t | t in ideal && t >= time + 1 ensures Holds(after, t, ideal[t]) {
      assert Holds(data, t, ideal[t]);
    }
  }

  lemma {:induction false} MixSomeRepresents(data: seq<Frame>, ideal: map<int, Sample>, start: int, n: nat)
    requires InRange(start) && InRange(start + n) && SafeWindow(start, n) && Represents(data, ideal, start)
    ensures Represents(MixSome(data, start, n).0, ideal, start + n)
    ensures forall i | 0 <= i < n :: MixSome(data, start, n).1[i] == Lookup(ideal, start + i)
  {
    hide Represents, MixOne;
    if n > 0 {
      MixSomeRepresents(data, ideal, start, n - 1);
      if data == [] {
        EmptyRepresentsNothing(ideal, start + n - 1);
      } else {
        MixOneRepresents(MixSome(data, start, n - 1).0, ideal, start + n - 1);
      }
    }
  }

  lemma EmptyRepresentsNothing(ideal: map<int, Sample>, time: int)
    requires Represents([], ideal, time)
    ensures Lookup(ideal, time) == SILENCE && Represents([], ideal, time + 1)
  {
  }

  /** A later cursor asks for less. */
  lemma RepresentsLater(data: seq<Frame>, ideal: map<int, Sample>, cursor: int, later: int)
    requires Represents(data, ideal, cursor) && cursor <= later
    ensures Represents(data, ideal, later)
  {
    hide Slot;
  }

  lemma ClearedRepresents(data: seq<Frame>, size: nat, cursor: int)
    ensures Represents(Cleared(data), map[], cursor)
    ensures Represents(seq(size, _ => EMPTY), map[], cursor)
  {
  }

  lemma {:induction false} SizeIsLength(ops: seq<Op>)
    requires AllRepresentable(ops)
    ensures |Data(ops)| == Size(ops)
  {
    if ops != [] {
      SizeIsLength(ops[..|ops| - 1]);
    }
  }

  /** In every life in which the cursor only advances between clears, the slots represent the map. */
  lemma {:induction false} TimelineRepresentsMap(ops: seq<Op>, cursor: int)
    requires AllRepresentable(ops) && Advancing(ops) && AllSafe(ops) && AtLeast(cursor, Floor(ops))
    ensures Represents(Data(ops), Ideal(ops), cursor)
  {
    hide Represents, SafeWindow, Cleared, PutSome, MixSome, FirstPut;
    if ops == [] {
      ClearedRepresents([], 0, cursor);
    } else {
      var before, op := ops[..|ops| - 1], ops[|ops| - 1];
      SizeIsLength(before);
      match op
      case Clear => ClearedRepresents(Data(before), 0, cursor);
      case Resize(size) =>
        if size == Size(before) {
          TimelineRepresentsMap(before, cursor);
        } else {
          ClearedRepresents([], size, cursor);
        }
      case Put(start, samples, gain, at) =>
        TimelineRepresentsMap(before, at);
        PutSomeRepresents(Data(before), Ideal(before), start, samples, gain, at, |samples|);
        RepresentsLater(Data(ops), Ideal(ops), at, cursor);
      case Mix(at, frames) =>
        TimelineRepresentsMap(before, at);
        MixSomeRepresents(Data(before), Ideal(before), at, frames);
        RepresentsLater(Data(ops), Ideal(ops), at + frames, cursor);
    }
  }

  /** What a mix adds to the output. */
  function Contribution(ops: seq<Op>, cursor: int, frames: nat): (r: seq<Sample>)
    requires AllRepresentable(ops) && InRange(cursor) && InRange(cursor + frames)
    ensures |r| == frames
  {
    MixSome(Data(ops), cursor, frames).1
  }

  /** The timeline is a map: after any such life, a mix contributes at each of its times exactly the first sample put
      for that time within its window, times its gain, or silence. */
  lemma MixEmitsFirstPut(ops: seq<Op>, cursor: int, frames: nat, i: nat)
    requires AllRepresentable(ops) && Advancing(ops) && AllSafe(ops) && AtLeast(cursor, Floor(ops))
    requires InRange(cursor) && InRange(cursor + frames) && SafeWindow(cursor, frames) && i < frames
    ensures Contribution(ops, cursor, frames)[i] == Lookup(Ideal(ops), cursor + i)
  {
    hide Represents;
    TimelineRepresentsMap(ops, cursor);
    MixSomeRepresents(Data(ops), Ideal(ops), cursor, frames);
  }

  /** A life in which a window at `cursor` may follow. */
  ghost predicate ReadyFor(ops: seq<Op>, cursor: int, size: nat) {
    AllRepresentable(ops) && Advancing(ops) && AllSafe(ops) && Size(ops) == size && AtLeast(cursor, Floor(ops))
  }

  /** One more block is put, and the whole window mixed: every time gives the first sample ever put for it, or
      silence. */
  ghost predicate Serves(ops: seq<Op>, put: Op, cursor: int, size: nat)
    requires AllRepresentable(ops) && Representable(put) && InRange(cursor) && InRange(cursor + size)
  {
    var life := ops + [put];
    assert AllRepresentable(life);
    forall i | 0 <= i < size :: Contribution(life, cursor, size)[i] == Lookup(Ideal(life), cursor + i)
  }

  ghost predicate PutAt(put: Op, cursor: int) {
    put.Put? && put.cursor == cursor && Representable(put)
  }

  /** A window is served faithfully in every life if and only if it does not contain -1. */
  lemma WindowServedIffSafe(cursor: int, size: nat)
    requires size > 0 && InRange(cursor) && InRange(cursor + size)
    ensures SafeWindow(cursor, size) <==>
              forall ops, put | ReadyFor(ops, cursor, size) && PutAt(put, cursor) :: Serves(ops, put, cursor, size)
  {
    hide Serves, AllRepresentable, Advancing, AllSafe, Size, Floor;
    if SafeWindow(cursor, size) {
      forall ops, put | ReadyFor(ops, cursor, size) && PutAt(put, cursor) ensures Serves(ops, put, cursor, size) {
        SafeWindowServes(ops, put, cursor, size);
      }
    } else {
      var ops, put := FrameAtMinusOne(cursor, size);
    }
  }

  lemma SafeWindowServes(ops: seq<Op>, put: Op, cursor: int, size: nat)
    requires SafeWindow(cursor, size) && ReadyFor(ops, cursor, size) && PutAt(put, cursor)
    requires InRange(cursor) && InRange(cursor + size)
    ensures Serves(ops, put, cursor, size)
  {
    hide SafeWindow, Floor, Ideal, Contribution, Size;
    var life := ops + [put];
    assert life[..|life| - 1] == ops;
    assert AtLeast(cursor, Floor(life)) by { PutFloor(ops, put); }
    forall i | 0 <= i < size ensures Contribution(life, cursor, size)[i] == Lookup(Ideal(life), cursor + i) {
      MixEmitsFirstPut(life, cursor, size, i);
    }
  }

  lemma PutFloor(ops: seq<Op>, put: Op)
    requires put.Put?
    ensures Floor(ops + [put]) == Some(put.cursor)
  {
  }

  /** In a window that contains -1, a frame put for that time into empty slots is taken for one that is there already,
      and silence is mixed in its place. */
  lemma FrameAtMinusOne(cursor: int, size: nat) returns (ops: seq<Op>, put: Op)
    requires InRange(cursor) && InRange(cursor + size) && !SafeWindow(cursor, size)
    ensures ReadyFor(ops, cursor, size) && PutAt(put, cursor) && !Serves(ops, put, cursor, size)
  {
    hide Slot;
    ops, put := [Resize(size)], Put(-1, [(1.0, 1.0)], 1.0, cursor);
    var life := ops + [put];
    assert ops[..0] == [] && life[..1] == ops;
    assert size > 0;
    ResizeFirst(size, cursor);
    assert Data(ops) == seq(size, _ => EMPTY);
    assert PutSome(Data(ops), -1, put.samples, 1.0, cursor, 0) == Data(ops);
    assert Data(life) == PutOne(Data(ops), -1, Scaled((1.0, 1.0), 1.0), cursor) == Data(ops);
    EmptyIsSilent(Data(life), cursor, size);
    var i := -1 - cursor;
    assert FirstPut(map[], -1, put.samples, 1.0, cursor, size, 0) == map[];
    assert Lookup(Ideal(life), cursor + i) == (1.0, 1.0);
    assert Contribution(life, cursor, size)[i] == SILENCE;
  }

  lemma ResizeFirst(size: nat, cursor: int)
    requires size > 0
    ensures ReadyFor([Resize(size)], cursor, size)
  {
    var ops := [Resize(size)];
    assert ops[..0] == [];
    assert Advancing([]) && AllSafe([]);
    assert Floor(ops) == None && Size(ops) == size;
  }

  lemma {:induction false} EmptyIsSilent(data: seq<Frame>, start: int, n: nat)
    requires InRange(start) && InRange(start + n) && forall k | 0 <= k < |data| :: data[k] == EMPTY
    ensures MixSome(data, start, n).0 == data
    ensures forall i | 0 <= i < n :: MixSome(data, start, n).1[i] == SILENCE
  {
    hide Slot;
    if n > 0 {
      EmptyIsSilent(data, start, n - 1);
    }
  }

  /** Neither a clear nor a change of size lies between two operations. */
  ghost predicate Undisturbed(ops: seq<Op>, j: nat, k: nat)
    requires j <= k <= |ops|
  {
    forall i | j < i < k :: !ops[i].Clear? && (ops[i].Resize? ==> ops[i].size == Size(ops[..i]))
  }

  lemma {:induction false} FloorPastMix(ops: seq<Op>, j: nat, m: nat)
    requires Advancing(ops) && j < m <= |ops| && ops[j].Mix? && Undisturbed(ops, j, m)
    ensures Floor(ops[..m]).Some? && ops[j].cursor + ops[j].frames <= Floor(ops[..m]).value
  {
    assert ops[..m][..m - 1] == ops[..m - 1];
    if j < m - 1 {
      FloorPastMix(ops, j, m - 1);
      AdvancingAt(ops, m - 1);
    }
  }

  lemma {:induction false} AdvancingAt(ops: seq<Op>, k: nat)
    requires Advancing(ops) && k < |ops|
    ensures ops[k].Put? || ops[k].Mix? ==> AtLeast(ops[k].cursor, Floor(ops[..k]))
  {
    hide Floor, AtLeast;
    if k < |ops| - 1 {
      AdvancingAt(ops[..|ops| - 1], k);
      assert ops[..|ops| - 1][..k] == ops[..k];
    }
  }

  /** No frame is emitted twice: as long as the timeline is not cleared, a later mix begins where an earlier one has
      ended, or after it. */
  lemma NoFrameTwice(ops: seq<Op>, j: nat, k: nat)
    requires Advancing(ops) && j < k < |ops| && ops[j].Mix? && ops[k].Mix? && Undisturbed(ops, j, k)
    ensures ops[j].cursor + ops[j].frames <= ops[k].cursor
  {
    FloorPastMix(ops, j, k);
    AdvancingAt(ops, k);
  }

  // The same in terms of the operations themselves.

  /** The put at `p` holds a sample for the time `t`, which lies in its window. */
  ghost predicate PutsFor(ops: seq<Op>, p: nat, t: int)
    requires p < |ops|
  {
    && ops[p].Put? && ops[p].start <= t < ops[p].start + |ops[p].samples|
    && ops[p].cursor <= t < ops[p].cursor + Size(ops[..p])
  }

  /** It is the first such put since the timeline was last emptied. */
  ghost predicate FirstFor(ops: seq<Op>, p: nat, t: int)
    requires p < |ops|
  {
    && PutsFor(ops, p, t) && Undisturbed(ops, p, |ops|)
    && forall q | 0 <= q < p && PutsFor(ops, q, t) :: !Undisturbed(ops, q, |ops|)
  }

  ghost predicate NoneFor(ops: seq<Op>, t: int) {
    forall q | 0 <= q < |ops| && PutsFor(ops, q, t) :: !Undisturbed(ops, q, |ops|)
  }

  /** What one put leaves in the map. */
  lemma {:induction false} FirstPutAt(
    ideal: map<int, Sample>, start: int, samples: seq<Sample>, gain: real, cursor: int, size: nat, n: nat, t: int)
    requires n <= |samples|
    ensures var after := FirstPut(ideal, start, samples, gain, cursor, size, n);
            if t in ideal then t in after && after[t] == ideal[t]
            else if start <= t < start + n && cursor <= t < cursor + size then
              t in after && after[t].0 == samples[t - start].0 * gain && after[t].1 == samples[t - start].1 * gain
            else t !in after
  {
    if n > 0 {
      FirstPutAt(ideal, start, samples, gain, cursor, size, n - 1, t);
    }
  }

  ghost predicate Disturbs(ops: seq<Op>, op: Op) {
    op.Clear? || (op.Resize? && op.size != Size(ops))
  }

  lemma UndisturbedThen(ops: seq<Op>, op: Op, p: nat)
    requires p < |ops|
    ensures Undisturbed(ops + [op], p, |ops| + 1) <==> Undisturbed(ops, p, |ops|) && !Disturbs(ops, op)
    ensures forall t :: PutsFor(ops + [op], p, t) <==> PutsFor(ops, p, t)
  {
    var all := ops + [op];
    assert all[..p] == ops[..p];
    assert forall i | 0 <= i <= |ops| :: all[..i] == ops[..i];
    assert all[|ops|] == op && ops[..|ops|] == ops;
    assert forall i | 0 <= i < |ops| :: all[i] == ops[i];
  }

  lemma IdealThen(ops: seq<Op>, op: Op, t: int)
    ensures Disturbs(ops, op) ==> t !in Ideal(ops + [op])
    ensures !Disturbs(ops, op) && !op.Put? ==> Ideal(ops + [op]) == Ideal(ops)
    ensures op.Put? ==>
              Ideal(ops + [op])
              == FirstPut(Ideal(ops), op.start, op.samples, op.gain, op.cursor, Size(ops), |op.samples|)
  {
    hide FirstPut;
    assert (ops + [op])[..|ops|] == ops;
  }

  /** The sample of the put at `p` for the time `t`, channel by channel. */
  ghost predicate HasSampleOf(ideal: map<int, Sample>, op: Op, t: int)
    requires op.Put? && op.start <= t < op.start + |op.samples|
  {
    && t in ideal
    && ideal[t].0 == op.samples[t - op.start].0 * op.gain
    && ideal[t].1 == op.samples[t - op.start].1 * op.gain
  }

  lemma {:induction false} IdealIsFirst(ops: seq<Op>, t: int)
    ensures NoneFor(ops, t) ==> t !in Ideal(ops)
    ensures forall p | 0 <= p < |ops| && FirstFor(ops, p, t) :: HasSampleOf(Ideal(ops), ops[p], t)
    ensures NoneFor(ops, t) || exists p :: 0 <= p < |ops| && FirstFor(ops, p, t)
  {
    if ops != [] {
      var n := |ops| - 1;
      IdealIsFirst(ops[..n], t);
      assert ops[..n] + [ops[n]] == ops;
      IdealIsFirstThen(ops[..n], ops[n], t);
    }
  }

  lemma IdealIsFirstThen(ops: seq<Op>, op: Op, t: int)
    requires NoneFor(ops, t) ==> t !in Ideal(ops)
    requires forall p | 0 <= p < |ops| && FirstFor(ops, p, t) :: HasSampleOf(Ideal(ops), ops[p], t)
    requires NoneFor(ops, t) || exists p :: 0 <= p < |ops| && FirstFor(ops, p, t)
    ensures NoneFor(ops + [op], t) ==> t !in Ideal(ops + [op])
    ensures forall p | 0 <= p < |ops + [op]| && FirstFor(ops + [op], p, t) ::
              HasSampleOf(Ideal(ops + [op]), (ops + [op])[p], t)
    ensures NoneFor(ops + [op], t) || exists p :: 0 <= p < |ops + [op]| && FirstFor(ops + [op], p, t)
  {
    hide Ideal, FirstPut, Undisturbed, PutsFor, HasSampleOf, Size;
    var all, n := ops + [op], |ops|;
    forall p | 0 <= p < n
      ensures Undisturbed(all, p, n + 1) <==> Undisturbed(ops, p, n) && !Disturbs(ops, op)
      ensures PutsFor(all, p, t) <==> PutsFor(ops, p, t)
    {
      UndisturbedThen(ops, op, p);
    }
    LastPut(ops, op, t);
    IdealThen(ops, op, t);
    if Disturbs(ops, op) {
      assert NoneFor(all, t);
    } else if p :| 0 <= p < n && FirstFor(ops, p, t) {
      EarlierPutStays(ops, op, p, t);
      assert FirstFor(all, p, t);
      assert forall q | 0 <= q <= n && FirstFor(all, q, t) :: q == p;
    } else {
      assert NoneFor(ops, t);
      if PutsFor(all, n, t) {
        assert FirstFor(all, n, t);
      } else {
        assert NoneFor(all, t);
      }
    }
  }

  /** The last operation, if it is a put. */
  lemma LastPut(ops: seq<Op>, op: Op, t: int)
    ensures Undisturbed(ops + [op], |ops|, |ops| + 1) && (ops + [op])[|ops|] == op
    ensures PutsFor(ops + [op], |ops|, t) ==> op.Put? && !Disturbs(ops, op)
    ensures PutsFor(ops + [op], |ops|, t) && t !in Ideal(ops) ==> HasSampleOf(Ideal(ops + [op]), op, t)
    ensures op.Put? && !PutsFor(ops + [op], |ops|, t) && t !in Ideal(ops) ==> t !in Ideal(ops + [op])
  {
    hide FirstPut, Ideal, Size;
    assert (ops + [op])[..|ops|] == ops;
    IdealThen(ops, op, t);
    if op.Put? {
      FirstPutAt(Ideal(ops), op.start, op.samples, op.gain, op.cursor, Size(ops), |op.samples|, t);
    }
  }

  lemma EarlierPutStays(ops: seq<Op>, op: Op, p: nat, t: int)
    requires p < |ops| && FirstFor(ops, p, t) && HasSampleOf(Ideal(ops), ops[p], t) && !Disturbs(ops, op)
    ensures HasSampleOf(Ideal(ops + [op]), (ops + [op])[p], t)
  {
    hide FirstPut, Ideal, Size, Undisturbed, HasSampleOf, Disturbs;
    IdealThen(ops, op, t);
    assert (ops + [op])[p] == ops[p];
    if op.Put? {
      FirstPutAt(Ideal(ops), op.start, op.samples, op.gain, op.cursor, Size(ops), |op.samples|, t);
      SampleStays(Ideal(ops), Ideal(ops + [op]), ops[p], t);
    }
  }

  lemma SampleStays(ideal: map<int, Sample>, after: map<int, Sample>, op: Op, t: int)
    requires op.Put? && op.start <= t < op.start + |op.samples| && HasSampleOf(ideal, op, t)
    requires t in ideal ==> t in after && after[t] == ideal[t]
    ensures HasSampleOf(after, op, t)
  {
  }

  /** What a mix adds at a time, told by the puts alone and channel by channel: the first put for that time since the
      timeline was last emptied gives its left sample times its gain on the left and its right one on the right; no
      put, silence. */
  lemma MixByPuts(ops: seq<Op>, cursor: int, frames: nat, i: nat, p: nat)
    requires AllRepresentable(ops) && Advancing(ops) && AllSafe(ops) && AtLeast(cursor, Floor(ops))
    requires InRange(cursor) && InRange(cursor + frames) && SafeWindow(cursor, frames) && i < frames
    ensures p < |ops| && FirstFor(ops, p, cursor + i) ==>
              var put, mixed := ops[p], Contribution(ops, cursor, frames)[i];
              && mixed.0 == put.samples[cursor + i - put.start].0 * put.gain
              && mixed.1 == put.samples[cursor + i - put.start].1 * put.gain
    ensures NoneFor(ops, cursor + i) ==>
              Contribution(ops, cursor, frames)[i].0 == 0.0 && Contribution(ops, cursor, frames)[i].1 == 0.0
  {
    hide Advancing, AllSafe, Floor, Ideal, Contribution, SafeWindow, NoneFor, Undisturbed;
    MixEmitsFirstPut(ops, cursor, frames, i);
    IdealIsFirst(ops, cursor + i);
    if p < |ops| && FirstFor(ops, p, cursor + i) {
      assert HasSampleOf(Ideal(ops), ops[p], cursor + i);
    }
  }
}
