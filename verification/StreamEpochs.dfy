/** What the jitter buffer does with the packets of one stream, over whole runs. Between two calls of `begin` every
    sequence number is unwrapped to an unbounded one, and a history records what became of each. */
module StreamEpochs {
  import opened Words
  import opened VbanProtocol
  import opened StreamBuffer

  /** One epoch: `log[i]` is what became of number `start + i`, `accepted` are the packets let in, by number, and
      `taken` is what left the queue. */
  datatype History = History(start: nat, log: seq<Entry>, accepted: map<nat, Packet>, taken: seq<real>, lostBefore: nat)
  {
    function Position(): nat {
      start + |log|
    }

    function With(entries: seq<Entry>): History {
      this.(log := log + entries)
    }
  }

  function FramesOf(e: Entry): nat {
    match e
    case Played(p) => p.frames
    case Concealed(f) => f
    case Skipped => 0
  }

  /** The samples one entry contributes: the packet's own, silence for a concealed number, nothing for a skipped one. */
  function Sound(e: Entry, channels: nat): seq<real> {
    match e
    case Played(p) => p.samples
    case Concealed(f) => Silence(f * channels)
    case Skipped => []
  }

  function Rendered(log: seq<Entry>, channels: nat): seq<real> {
    if log == [] then [] else Rendered(log[..|log| - 1], channels) + Sound(log[|log| - 1], channels)
  }

  /** How many numbers had no packet. */
  function Missing(log: seq<Entry>): nat {
    if log == [] then 0 else Missing(log[..|log| - 1]) + if log[|log| - 1].Played? then 0 else 1
  }

  /** The numbers that were played, in order. */
  function PlayedNumbers(start: nat, log: seq<Entry>): (p: seq<nat>)
    ensures forall j | 0 <= j < |p| :: start <= p[j] < start + |log|
  {
    if log == [] then []
    else PlayedNumbers(start, log[..|log| - 1]) + if log[|log| - 1].Played? then [start + |log| - 1] else []
  }

  lemma {:induction false} SkipsAreSilentLosses(log: seq<Entry>, n: nat, start: nat, channels: nat)
    ensures Rendered(log + Skips(n), channels) == Rendered(log, channels)
    ensures Missing(log + Skips(n)) == Missing(log) + n
    ensures PlayedNumbers(start, log + Skips(n)) == PlayedNumbers(start, log)
  {
    hide Rendered, Missing, PlayedNumbers;
    if n == 0 {
      assert log + Skips(n) == log;
    } else {
      SkipsAreSilentLosses(log, n - 1, start, channels);
      AppendEntry(log + Skips(n - 1), Skipped, start, channels);
      assert log + Skips(n - 1) + [Skipped] == log + Skips(n);
    }
  }

  lemma AppendEntry(log: seq<Entry>, e: Entry, start: nat, channels: nat)
    ensures Rendered(log + [e], channels) == Rendered(log, channels) + Sound(e, channels)
    ensures Missing(log + [e]) == Missing(log) + if e.Played? then 0 else 1
    ensures PlayedNumbers(start, log + [e]) == PlayedNumbers(start, log) + if e.Played? then [start + |log|] else []
  {
    assert (log + [e])[..|log + [e]| - 1] == log;
  }

  // The invariant.

  /** Every waiting packet is an accepted one, at most a window ahead. */
  ghost predicate Waiting(b: Buffer, h: History) {
    forall k | k in b.pending ::
      Ahead(k, b.expected) <= WINDOW && h.Position() + Ahead(k, b.expected) in h.accepted
      && h.accepted[h.Position() + Ahead(k, b.expected)] == b.pending[k]
  }

  /** Every accepted packet is waiting, or was played under its own number: none is dropped, none is skipped. */
  ghost predicate Kept(b: Buffer, h: History) {
    forall n | n in h.accepted ::
      && h.start <= n <= h.Position() + WINDOW
      && ValidPacket(h.accepted[n]) && h.accepted[n].format == b.format && h.accepted[n].sequence == Wrap(n)
      && (n < h.Position() ==> h.log[n - h.start] == Played(h.accepted[n]))
      && (n >= h.Position() ==> Wrap(n) in b.pending && b.pending[Wrap(n)] == h.accepted[n])
  }

  /** A packet of the given size was accepted for one of the eight numbers that follow. */
  ghost predicate FollowedBy(h: History, n: nat, frames: nat) {
    exists m :: n < m <= n + 8 && m in h.accepted && h.accepted[m].frames == frames
  }

  /** The size of the entry in front of entry `i`. */
  function SizeBefore(log: seq<Entry>, i: nat): nat
    requires i <= |log|
  {
    if i == 0 then 0 else FramesOf(log[i - 1])
  }

  /** How many numbers were skipped immediately before entry `i`. */
  function SkipsBefore(log: seq<Entry>, i: nat): (n: nat)
    requires i <= |log|
    ensures n <= i
  {
    if i == 0 || !log[i - 1].Skipped? then 0 else 1 + SkipsBefore(log, i - 1)
  }

  /** A gap is skipped only if it is longer than eight numbers or lies between packets of different sizes. */
  predicate GapGivenUp(log: seq<Entry>, i: nat, frames: nat)
    requires i <= |log|
  {
    var n := SkipsBefore(log, i);
    n > 0 ==> n > 8 || SizeBefore(log, i - n) != frames
  }

  lemma {:induction false} SameGap(a: seq<Entry>, b: seq<Entry>, i: nat)
    requires i <= |a| && a <= b
    ensures SkipsBefore(b, i) == SkipsBefore(a, i)
    ensures forall frames :: GapGivenUp(a, i, frames) <==> GapGivenUp(b, i, frames)
  {
    SameSkips(a, b, i);
    var n := SkipsBefore(a, i);
    if i - n > 0 {
      assert a[i - n - 1] == b[i - n - 1];
    }
  }

  lemma {:induction false} SameSkips(a: seq<Entry>, b: seq<Entry>, i: nat)
    requires i <= |a| && a <= b
    ensures SkipsBefore(b, i) == SkipsBefore(a, i)
  {
    if i > 0 {
      assert a[i - 1] == b[i - 1];
      SameSkips(a, b, i - 1);
    }
  }

  lemma {:induction false} SkippedGap(log: seq<Entry>, n: nat)
    requires log == [] || !log[|log| - 1].Skipped?
    ensures SkipsBefore(log + Skips(n), |log| + n) == n
    ensures SizeBefore(log + Skips(n), |log|) == SizeBefore(log, |log|)
  {
    if n == 0 {
      assert log + Skips(0) == log;
    } else {
      SkippedGap(log, n - 1);
      var a, b := log + Skips(n - 1), log + Skips(n);
      assert a <= b && b[|log| + n - 1] == Skipped;
      SameSkips(a, b, |log| + n - 1);
    }
    if |log| > 0 {
      assert (log + Skips(n))[|log| - 1] == log[|log| - 1];
    }
  }

  /** Whatever was played had been accepted for that number; silence fills only a short gap between packets of its
      size. */
  ghost predicate Fits(h: History, i: nat)
    requires i < |h.log|
  {
    match h.log[i]
    case Played(p) =>
      h.start + i in h.accepted && h.accepted[h.start + i] == p && GapGivenUp(h.log, i, p.frames)
    case Concealed(f) => 1 <= SizeBefore(h.log, i) == f && FollowedBy(h, h.start + i, f)
    case Skipped => true
  }

  ghost predicate Faithful(h: History) {
    forall i | 0 <= i < |h.log| :: Fits(h, i)
  }

  /** What was taken and what is queued is the log's sound, and the counter of lost packets counts its gaps. */
  ghost predicate Accounted(b: Buffer, h: History) {
    && h.taken + b.fifo == Rendered(h.log, b.Channels())
    && b.counters.lost == h.lostBefore + Missing(h.log)
  }

  /** The list holds the stored forms of the last numbers, 128 at most. */
  ghost predicate IsTail(recent: seq<Word32>, p: seq<nat>) {
    && |recent| == Min(HISTORY, |p|)
    && forall j | 0 <= j < |recent| :: recent[j] == Wrap(p[|p| - |recent| + j])
  }

  lemma TailGrows(recent: seq<Word32>, p: seq<nat>, n: nat)
    requires IsTail(recent, p)
    ensures IsTail(Remember(recent, Wrap(n)), p + [n])
  {
    hide Wrap;
    var q, r := p + [n], Remember(recent, Wrap(n));
    forall j | 0 <= j < |r| ensures r[j] == Wrap(q[|q| - |r| + j]) {
      var all := recent + [Wrap(n)];
      assert r[j] == all[|all| - |r| + j];
    }
  }

  /** Packets played one after the other are close. */
  ghost predicate Dense(p: seq<nat>) {
    forall j | 0 <= j < |p| :: p[|p| - 1] <= p[j] + 521 * (|p| - 1 - j)
  }

  lemma DenseGrows(p: seq<nat>, n: nat)
    requires Dense(p) && (p != [] ==> n <= p[|p| - 1] + 521)
    ensures Dense(p + [n])
  {
  }

  /** The list of recent numbers holds the last ones played. */
  ghost predicate Recalled(b: Buffer, h: History) {
    var p := PlayedNumbers(h.start, h.log);
    IsTail(b.recent, p) && Dense(p)
  }

  /** Where the buffer stands behind the last packet played: at the next number, or within the gap it is concealing. */
  ghost predicate AtTail(b: Buffer, h: History) {
    if h.log == [] then b.previousFrames == 0 && h.start in h.accepted
    else
      var p := PlayedNumbers(h.start, h.log);
      && b.previousFrames == FramesOf(h.log[|h.log| - 1]) && 1 <= b.previousFrames <= 256
      && |p| > 0
      && (h.Position() == p[|p| - 1] + 1
          || exists n :: n in h.accepted && h.Position() <= n <= p[|p| - 1] + 1 + CONCEAL)
  }

  ghost predicate SoundFormat(f: Format) {
    f.rate in SAMPLE_RATES && 1 <= f.channels <= 8
  }

  /** The state of an epoch, also in the middle of giving up a gap. */
  ghost predicate Running(b: Buffer, h: History) {
    && SoundFormat(b.format)
    && b.expected == Wrap(h.Position())
    && Waiting(b, h) && Kept(b, h) && Faithful(h) && Accounted(b, h) && Recalled(b, h)
  }

  ghost predicate QueueHolds(fifo: seq<real>, channels: nat, frames: nat) {
    |fifo| == frames * channels
  }

  /** Memory use: the queue is short, and the packets that wait are few. */
  ghost predicate Bounded(b: Buffer) {
    && (exists q: nat :: q <= 255 && QueueHolds(b.fifo, b.Channels(), q))
    && |b.pending| <= WINDOW
    && FramesIn(b.pending) <= b.format.rate / 4 + 256
  }

  ghost predicate Epoch(b: Buffer, h: History) {
    Running(b, h) && AtTail(b, h)
  }

  // One turn of the filling loop.

  /** Later entries and later packets do not disturb an entry. */
  lemma FitsStays(h: History, g: History, i: nat)
    requires i < |h.log| && Fits(h, i)
    requires g.start == h.start && h.log <= g.log
    requires forall m | m in h.accepted :: m in g.accepted && g.accepted[m] == h.accepted[m]
    ensures Fits(g, i)
  {
    hide SkipsBefore, GapGivenUp;
    assert g.log[i] == h.log[i];
    SameGap(h.log, g.log, i);
    if i > 0 {
      assert g.log[i - 1] == h.log[i - 1];
    }
    if h.log[i].Concealed? {
      var m :| h.start + i < m <= h.start + i + 8 && m in h.accepted && h.accepted[m].frames == h.log[i].frames;
    }
  }

  lemma FaithfulGrows(h: History, e: Entry)
    requires Faithful(h)
    requires e.Played? ==>
               && h.Position() in h.accepted && h.accepted[h.Position()] == e.packet
               && GapGivenUp(h.log, |h.log|, e.packet.frames)
    requires e.Concealed? ==> 1 <= SizeBefore(h.log, |h.log|) == e.frames && FollowedBy(h, h.Position(), e.frames)
    ensures Faithful(h.With([e]))
  {
    var g := h.With([e]);
    forall i | 0 <= i < |g.log| ensures Fits(g, i) {
      if i < |h.log| {
        FitsStays(h, g, i);
      } else {
        LastFits(h, e);
      }
    }
  }

  lemma LastFits(h: History, e: Entry)
    requires e.Played? ==>
               && h.Position() in h.accepted && h.accepted[h.Position()] == e.packet
               && GapGivenUp(h.log, |h.log|, e.packet.frames)
    requires e.Concealed? ==> 1 <= SizeBefore(h.log, |h.log|) == e.frames && FollowedBy(h, h.Position(), e.frames)
    ensures Fits(h.With([e]), |h.log|)
  {
    hide SkipsBefore, GapGivenUp;
    var g := h.With([e]);
    assert g.log[|h.log|] == e;
    SameGap(h.log, g.log, |h.log|);
    if e.Concealed? {
      var m :| h.Position() < m <= h.Position() + 8 && m in h.accepted && h.accepted[m].frames == e.frames;
      assert m in g.accepted;
    }
  }

  lemma AheadOfNext(k: Word32, w: Word32)
    requires k != w
    ensures Ahead(k, Next32(w)) + 1 == Ahead(k, w)
  {
  }

  lemma ConsumeKeepsWaiting(b: Buffer, h: History)
    requires Waiting(b, h) && b.expected in b.pending
    ensures Waiting(Consume(b), h.With([Played(b.pending[b.expected])]))
  {
    hide Ahead, Next32, Remember;
    forall k | k in b.pending && k != b.expected ensures Ahead(k, Next32(b.expected)) + 1 == Ahead(k, b.expected) {
      AheadOfNext(k, b.expected);
    }
  }

  lemma ConsumeKeepsKept(b: Buffer, h: History)
    requires Kept(b, h) && b.expected == Wrap(h.Position()) && b.expected in b.pending
    requires h.Position() in h.accepted && h.accepted[h.Position()] == b.pending[b.expected]
    ensures Kept(Consume(b), h.With([Played(b.pending[b.expected])]))
  {
    hide Ahead, Next32, Remember, Wrap;
    forall n | n in h.accepted && n > h.Position() ensures Wrap(n) != b.expected {
      Distinct(n, h.Position());
    }
  }

  lemma Distinct(n: nat, m: nat)
    requires m < n < m + TWO32
    ensures Wrap(n) != Wrap(m)
  {
    AheadOfWrapped(n, m);
  }

  lemma ConsumeKeepsRecall(b: Buffer, h: History)
    requires Recalled(b, h) && b.expected == Wrap(h.Position()) && b.expected in b.pending
    requires PlayedNumbers(h.start, h.log) != [] ==>
               h.Position() <= PlayedNumbers(h.start, h.log)[|PlayedNumbers(h.start, h.log)| - 1] + 521
    ensures Recalled(Consume(b), h.With([Played(b.pending[b.expected])]))
  {
    hide Wrap, Ahead, Next32, PlayedNumbers, Dense, IsTail, Remember;
    DenseGrows(PlayedNumbers(h.start, h.log), h.Position());
    TailGrows(b.recent, PlayedNumbers(h.start, h.log), h.Position());
    AppendEntry(h.log, Played(b.pending[b.expected]), h.start, 0);
    var p := PlayedNumbers(h.start, h.log);
    var q := PlayedNumbers(h.start, h.With([Played(b.pending[b.expected])]).log);
    assert q == p + [h.Position()];
  }

  /** The expected packet is played under its number. */
  lemma ConsumeKeeps(b: Buffer, h: History)
    requires Running(b, h) && b.expected in b.pending
    requires GapGivenUp(h.log, |h.log|, b.pending[b.expected].frames)
    requires PlayedNumbers(h.start, h.log) != [] ==>
               h.Position() <= PlayedNumbers(h.start, h.log)[|PlayedNumbers(h.start, h.log)| - 1] + 521
    ensures Epoch(Consume(b), h.With([Played(b.pending[b.expected])]))
  {
    hide Waiting, Kept, Faithful, Recalled, Rendered, Missing, PlayedNumbers, Next32, Wrap;
    assert h.Position() in h.accepted && h.accepted[h.Position()] == b.pending[b.expected] by { Front(b, h); }
    assert 1 <= b.pending[b.expected].frames <= 256 by { Front(b, h); }
    var e := Played(b.pending[b.expected]);
    AppendEntry(h.log, e, h.start, b.Channels());
    WrapStep(h.Position());
    FaithfulGrows(h, e);
    ConsumeKeepsWaiting(b, h);
    ConsumeKeepsKept(b, h);
    ConsumeKeepsRecall(b, h);
    assert Rendered(h.With([e]).log, b.Channels()) == h.taken + b.fifo + b.pending[b.expected].samples;
  }

  lemma Front(b: Buffer, h: History)
    requires Waiting(b, h) && Kept(b, h) && b.expected in b.pending
    ensures h.Position() in h.accepted && h.accepted[h.Position()] == b.pending[b.expected]
    ensures ValidPacket(b.pending[b.expected]) && b.pending[b.expected].format == b.format
  {
    hide ValidPacket, Ahead, Wrap;
    NoDistance(b.expected);
    assert Ahead(b.expected, b.expected) == 0;
  }

  /** The nearest packet is the first accepted one that has not been played. */
  lemma NearestIsNext(b: Buffer, h: History, k: Word32)
    requires Waiting(b, h) && Kept(b, h) && b.expected == Wrap(h.Position()) && b.expected !in b.pending
    requires IsNearest(b.pending, b.expected, k)
    ensures ValidPacket(b.pending[k])
    ensures 1 <= Ahead(k, b.expected) <= WINDOW
    ensures var n := h.Position() + Ahead(k, b.expected);
            && n in h.accepted && h.accepted[n] == b.pending[k]
            && forall m | m in h.accepted && m >= h.Position() :: n <= m
  {
    hide Ahead, Wrap, ValidPacket;
    forall m | m in h.accepted && m >= h.Position() ensures Ahead(Wrap(m), b.expected) == m - h.Position() {
      AheadOfWrapped(m, h.Position());
    }
    assert Ahead(k, b.expected) != 0 by { SameWord(k, b.expected); }
  }

  lemma NoDistance(a: Word32)
    ensures Ahead(a, a) == 0
  {
  }

  lemma SameWord(a: Word32, b: Word32)
    requires a != b
    ensures Ahead(a, b) != 0
  {
  }

  lemma ConcealKeepsWaiting(b: Buffer, h: History, e: Entry)
    requires Waiting(b, h) && b.expected !in b.pending
    ensures Waiting(Conceal(b), h.With([e]))
  {
    hide Ahead, Next32;
    forall k | k in b.pending ensures Ahead(k, Next32(b.expected)) + 1 == Ahead(k, b.expected) {
      AheadOfNext(k, b.expected);
    }
  }

  /** A number without a packet is concealed by as much silence as its neighbours on both sides have sound. */
  lemma ConcealKeeps(b: Buffer, h: History, k: Word32)
    requires Epoch(b, h) && b.expected !in b.pending && IsNearest(b.pending, b.expected, k) && CanConceal(b, k)
    ensures Epoch(Conceal(b), h.With([Concealed(b.previousFrames)]))
  {
    hide Waiting, Kept, Faithful, Recalled, Rendered, Missing, PlayedNumbers, Next32, Wrap;
    var e := Concealed(b.previousFrames);
    var n := h.Position() + Ahead(k, b.expected);
    NearestIsNext(b, h, k);
    AppendEntry(h.log, e, h.start, b.Channels());
    WrapStep(h.Position());
    FaithfulGrows(h, e);
    ConcealKeepsWaiting(b, h, e);
    assert Kept(Conceal(b), h.With([e])) by { ConcealKeepsKept(b, h, e); }
    assert Recalled(Conceal(b), h.With([e])) by { ConcealKeepsRecall(b, h, e); }
    assert Rendered(h.With([e]).log, b.Channels()) == h.taken + b.fifo + Silence(b.previousFrames * b.Channels());
    assert AtTail(Conceal(b), h.With([e])) by {
      var p := PlayedNumbers(h.start, h.log);
      assert n in h.With([e]).accepted;
      if h.Position() != p[|p| - 1] + 1 {
        var m :| m in h.accepted && h.Position() <= m <= p[|p| - 1] + 1 + CONCEAL;
        assert n <= m;
      }
    }
  }

  lemma ConcealKeepsKept(b: Buffer, h: History, e: Entry)
    requires Kept(b, h) && b.expected == Wrap(h.Position()) && b.expected !in b.pending
    ensures Kept(Conceal(b), h.With([e]))
  {
    hide Wrap, Next32;
  }

  lemma ConcealKeepsRecall(b: Buffer, h: History, e: Entry)
    requires Recalled(b, h) && !e.Played?
    ensures Recalled(Conceal(b), h.With([e]))
  {
    hide PlayedNumbers, Wrap, Next32, IsTail, Dense;
    AppendEntry(h.log, e, h.start, 0);
    assert PlayedNumbers(h.start, h.With([e]).log) == PlayedNumbers(h.start, h.log);
  }

  lemma JumpKeepsWaiting(b: Buffer, h: History, k: Word32)
    requires Waiting(b, h) && IsNearest(b.pending, b.expected, k)
    ensures Waiting(Jump(b, k), h.With(Skips(Ahead(k, b.expected))))
  {
    hide Ahead;
    forall j | j in b.pending ensures Ahead(j, k) + Ahead(k, b.expected) == Ahead(j, b.expected) {
      AheadChain(j, k, b.expected);
    }
  }

  lemma AheadChain(j: Word32, k: Word32, w: Word32)
    requires Ahead(k, w) <= Ahead(j, w)
    ensures Ahead(j, k) + Ahead(k, w) == Ahead(j, w)
  {
  }

  lemma JumpKeepsKept(b: Buffer, h: History, k: Word32)
    requires Waiting(b, h) && Kept(b, h) && b.expected == Wrap(h.Position()) && b.expected !in b.pending
    requires IsNearest(b.pending, b.expected, k)
    ensures Kept(Jump(b, k), h.With(Skips(Ahead(k, b.expected))))
  {
    hide Waiting, Ahead, Wrap, ValidPacket;
    NearestIsNext(b, h, k);
  }

  lemma JumpKeepsFaithful(h: History, n: nat)
    requires Faithful(h)
    ensures Faithful(h.With(Skips(n)))
  {
    var g := h.With(Skips(n));
    forall i | 0 <= i < |g.log| ensures Fits(g, i) {
      if i < |h.log| {
        FitsStays(h, g, i);
      } else {
        assert g.log[i] == Skips(n)[i - |h.log|];
      }
    }
  }

  lemma JumpKeepsRecall(b: Buffer, h: History, k: Word32)
    requires Recalled(b, h)
    ensures Recalled(Jump(b, k), h.With(Skips(Ahead(k, b.expected))))
  {
    hide PlayedNumbers, Wrap, Ahead, Dense, IsTail;
    SkipsAreSilentLosses(h.log, Ahead(k, b.expected), h.start, 0);
  }

  /** A gap that cannot be concealed is given up, and the packet behind it played at once. */
  lemma JumpKeeps(b: Buffer, h: History, k: Word32)
    requires Epoch(b, h) && b.expected !in b.pending && IsNearest(b.pending, b.expected, k) && !CanConceal(b, k)
    ensures Epoch(Consume(Jump(b, k)), h.With(Skips(Ahead(k, b.expected)) + [Played(b.pending[k])]))
  {
    hide Waiting, Kept, Faithful, Recalled, Rendered, Missing, PlayedNumbers, Next32, Wrap, Ahead, Consume;
    var g := h.With(Skips(Ahead(k, b.expected)));
    NearestIsNext(b, h, k);
    assert Wrap(g.Position()) == k by { WrapOfAhead(k, h.Position()); }
    SkipsAreSilentLosses(h.log, Ahead(k, b.expected), h.start, b.Channels());
    JumpKeepsWaiting(b, h, k);
    JumpKeepsKept(b, h, k);
    JumpKeepsFaithful(h, Ahead(k, b.expected));
    JumpKeepsRecall(b, h, k);
    assert PlayedNumbers(h.start, h.log) != [] ==>
        h.Position() <= PlayedNumbers(h.start, h.log)[|PlayedNumbers(h.start, h.log)| - 1] + 9;
    assert b.pending[k].frames >= 1 by { assert ValidPacket(b.pending[k]); }
    JumpIsGivenUp(b, h, k);
    ConsumeKeeps(Jump(b, k), g);
    assert g.With([Played(b.pending[k])]) == h.With(Skips(Ahead(k, b.expected)) + [Played(b.pending[k])]);
  }

  lemma JumpIsGivenUp(b: Buffer, h: History, k: Word32)
    requires AtTail(b, h) && k in b.pending && b.pending[k].frames >= 1 && !CanConceal(b, k)
    ensures var log := h.log + Skips(Ahead(k, b.expected)); GapGivenUp(log, |log|, b.pending[k].frames)
  {
    hide PlayedNumbers, Ahead;
    SkippedGap(h.log, Ahead(k, b.expected));
  }

  lemma AdvanceKeeps(b: Buffer, h: History)
    requires Epoch(b, h)
    ensures var step := Advance(b); Epoch(step.buffer, h.With(step.entries)) && (!step.ok ==> b.pending == map[])
  {
    hide Running, AtTail, Ahead, Consume, Conceal, Jump, FramesOf;
    var n := Nearest(b.pending, b.expected);
    if b.expected in b.pending {
      ConsumeReady(b, h);
    } else if n.None? {
      assert h.With([]) == h;
      NoneNearest(b, h);
    } else if CanConceal(b, n.value) {
      ConcealKeeps(b, h, n.value);
    } else {
      JumpKeeps(b, h, n.value);
    }
  }

  lemma ConsumeReady(b: Buffer, h: History)
    requires Epoch(b, h) && b.expected in b.pending
    ensures Epoch(Consume(b), h.With([Played(b.pending[b.expected])]))
  {
    hide Waiting, Kept, Faithful, Recalled, Rendered, Missing, Next32, Wrap, Ahead, Consume;
    assert SkipsBefore(h.log, |h.log|) == 0;
    ConsumeKeeps(b, h);
  }

  lemma NoneNearest(b: Buffer, h: History)
    requires Epoch(b, h) && Nearest(b.pending, b.expected).None?
    ensures b.pending == map[]
  {
    hide Kept, Faithful, Accounted, Recalled, AtTail, Wrap, Ahead;
    if b.pending != map[] {
      var k := Minimum(b.pending.Keys, b.expected);
    }
  }

  lemma {:induction false} Minimum(keys: set<Word32>, w: Word32) returns (k: Word32)
    requires keys != {}
    ensures k in keys && forall j | j in keys :: Ahead(k, w) <= Ahead(j, w)
    decreases |keys|
  {
    k :| k in keys;
    if keys != {k} {
      var j := Minimum(keys - {k}, w);
      if Ahead(j, w) < Ahead(k, w) {
        k := j;
      }
    }
  }

  // Filling the queue.

  lemma QueueLength(fifo: seq<real>, channels: nat, q: nat)
    requires QueueHolds(fifo, channels, q) && channels > 0
    ensures |fifo| / channels == q
  {
    var d := |fifo| / channels;
    DivisionFloor(|fifo|, channels);
    if d < q {
      ProductMonotone(d + 1, q, channels);
    } else if d > q {
      ProductMonotone(q + 1, d, channels);
      Distribute(channels, q, 1);
    }
  }

  lemma QueueGrows(fifo: seq<real>, channels: nat, q: nat, more: seq<real>, m: nat)
    requires QueueHolds(fifo, channels, q) && |more| == m * channels
    ensures QueueHolds(fifo + more, channels, q + m)
  {
    Distribute(channels, q, m);
  }

  lemma QueueShrinks(fifo: seq<real>, channels: nat, q: nat, m: nat)
    requires QueueHolds(fifo, channels, q) && m <= q
    ensures m * channels <= |fifo| && QueueHolds(fifo[m * channels..], channels, q - m)
  {
    ProductMonotone(m, q, channels);
    Distribute(channels, q - m, m);
  }

  /** Fewer packets wait than before, and the queue got at most one packet longer. */
  ghost predicate GrownByOne(b: Buffer, c: Buffer, q: nat, q': nat) {
    && QueueHolds(c.fifo, b.Channels(), q') && q' <= q + 256
    && |c.pending| <= |b.pending| && FramesIn(c.pending) <= FramesIn(b.pending)
  }

  lemma AdvanceBounded(b: Buffer, h: History, q: nat) returns (q': nat)
    requires Epoch(b, h) && QueueHolds(b.fifo, b.Channels(), q)
    ensures GrownByOne(b, Advance(b).buffer, q, q')
  {
    hide Faithful, Accounted, Recalled, Ahead, Wrap, Waiting, Remember, QueueHolds, Consume, Conceal, Jump, FramesIn,
         GrownByOne, CanConceal, AtTail;
    var n := Nearest(b.pending, b.expected);
    if b.expected in b.pending {
      Front(b, h);
      q' := ConsumeBounded(b, b.expected, q);
    } else if n.None? {
      q' := UnchangedBounded(b, q);
    } else if CanConceal(b, n.value) {
      q' := ConcealBounded(b, h, q);
    } else {
      NearestIsNext(b, h, n.value);
      q' := ConsumeBounded(b, n.value, q);
    }
  }

  lemma UnchangedBounded(b: Buffer, q: nat) returns (q': nat)
    requires QueueHolds(b.fifo, b.Channels(), q)
    ensures GrownByOne(b, b, q, q')
  {
    q' := q;
  }

  lemma ConcealBounded(b: Buffer, h: History, q: nat) returns (q': nat)
    requires QueueHolds(b.fifo, b.Channels(), q) && AtTail(b, h)
    ensures GrownByOne(b, Conceal(b), q, q')
  {
    hide QueueHolds, FramesIn, PlayedNumbers, FramesOf;
    q' := q + b.previousFrames;
    QueueGrows(b.fifo, b.Channels(), q, Silence(b.previousFrames * b.Channels()), b.previousFrames);
  }

  /** Also when numbers before `k` are given up. */
  lemma ConsumeBounded(b: Buffer, k: Word32, q: nat) returns (q': nat)
    requires QueueHolds(b.fifo, b.Channels(), q) && k in b.pending
    requires ValidPacket(b.pending[k]) && b.pending[k].format == b.format
    ensures k == b.expected ==> GrownByOne(b, Consume(b), q, q')
    ensures GrownByOne(b, Consume(Jump(b, k)), q, q')
  {
    hide QueueHolds, FramesIn, Ahead, Remember;
    var p := b.pending[k];
    q' := q + p.frames;
    QueueGrows(b.fifo, b.Channels(), q, p.samples, p.frames);
    FramesInSplit(b.pending, k);
    SmallerMap(b.pending, k);
  }

  lemma EpochFormat(b: Buffer, h: History)
    requires Epoch(b, h)
    ensures SoundFormat(b.format) && b.Channels() > 0
  {
  }

  /** Filling takes accepted packets in order until there is enough, or until none is left. */
  lemma {:induction false} FillKeeps(b: Buffer, h: History, frames: nat, q: nat) returns (q': nat)
    requires Epoch(b, h) && b.Channels() > 0 && QueueHolds(b.fifo, b.Channels(), q)
    ensures var r := Fill(b, frames);
            && Epoch(r.buffer, h.With(r.entries))
            && QueueHolds(r.buffer.fifo, b.Channels(), q') && q' <= Max(q, frames + 255)
            && |r.buffer.pending| <= |b.pending| && FramesIn(r.buffer.pending) <= FramesIn(b.pending)
            && if r.ok then q' >= frames else q' < frames && r.buffer.pending == map[]
    decreases |b.pending|, Gap(b)
  {
    hide Epoch, QueueHolds, Advance, FramesIn, Gap;
    QueueLength(b.fifo, b.Channels(), q);
    q' := q;
    if q >= frames {
      assert h.With([]) == h;
    } else {
      var step := Advance(b);
      AdvanceKeeps(b, h);
      q' := AdvanceBounded(b, h, q);
      if step.ok {
        q' := FillKeeps(step.buffer, h.With(step.entries), frames, q');
        var rest := Fill(step.buffer, frames);
        assert h.With(step.entries).With(rest.entries) == h.With(step.entries + rest.entries);
      } else {
        StuckAdvance(b, q, q');
      }
    }
  }

  lemma StuckAdvance(b: Buffer, q: nat, q': nat)
    requires !Advance(b).ok && b.Channels() > 0
    requires QueueHolds(b.fifo, b.Channels(), q) && QueueHolds(Advance(b).buffer.fifo, b.Channels(), q')
    ensures Advance(b) == Filled(b, false, []) && q == q'
  {
    hide QueueHolds;
    QueueLength(b.fifo, b.Channels(), q);
    QueueLength(b.fifo, b.Channels(), q');
  }

  ghost predicate SameStream(b: Buffer, d: Buffer) {
    && d.format == b.format && d.expected == b.expected && d.pending == b.pending && d.fifo == b.fifo
    && d.recent == b.recent && d.previousFrames == b.previousFrames && d.counters.lost == b.counters.lost
  }

  /** An epoch does not depend on clocks and the other counters. */
  lemma SameEpoch(b: Buffer, d: Buffer, h: History)
    requires Epoch(b, h) && SameStream(b, d)
    ensures Epoch(d, h)
  {
    hide Waiting, Kept, Recalled, AtTail, Faithful, Rendered, Missing, Wrap;
    SameStreamParts(b, d, h);
  }

  lemma SameStreamParts(b: Buffer, d: Buffer, h: History)
    requires Waiting(b, h) && Kept(b, h) && Recalled(b, h) && AtTail(b, h) && SameStream(b, d)
    ensures Waiting(d, h) && Kept(d, h) && Recalled(d, h) && AtTail(d, h)
  {
    hide Ahead, Wrap, ValidPacket, PlayedNumbers, IsTail, Dense, FramesOf;
  }
}
