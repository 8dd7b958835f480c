/** The return worker of src/monitor-return.cpp: one cursor for all taps, and what it does to their timelines. */
module MonitorWorker {
  import opened Words
  import opened StereoTimeline
  import opened TimelineHistory
  import Clocks = MonitorClock

  const RETURN_FRAMES: nat := 128
  const MAX_BLOCKS: nat := 32

  /** What servicing one tap for one output block does before its mix. Which of it happens depends on the source, the
      ring, the clock and the resampler, so any series is possible. */
  datatype Work = ResetAudio | SetCapacity(size: nat) | PutBlock(position: int, samples: seq<Sample>, gain: real)

  datatype Service = Service(work: seq<Work>, mixes: bool)

  /** The buffer's length as the settings allow it. */
  type BufferMs = b: nat | 20 <= b <= 200 witness 60

  /** Everything one turn of the worker loop reads from outside: the clock, the rate, the buffer's length, the
      look-behind the earliest source asks for, and what servicing the taps does. */
  datatype Moment = Moment(now: nat, rate: nat, bufferMs: BufferMs, lookbehindNs: nat, service: (nat, nat) -> Service)
  {
    function Current(): int {
      Clocks.NsToFrames(now, rate)
    }

    function LatencyNs(): nat {
      bufferMs * 1_000_000 + lookbehindNs
    }

    function Latency(): int {
      Clocks.NsToFrames(LatencyNs(), rate)
    }
  }

  /** A tap, with all that has ever been done to its timeline. */
  datatype Tap = Tap(ops: seq<Op>, dead: bool)

  datatype Worker = Worker(rate: nat, cursor: int, latencyNs: int, taps: map<nat, Tap>)

  const INITIAL := Worker(0, 0, 0, map[])

  /** A source appears (again), a source is destroyed, or the worker loop turns once. */
  datatype Event = Track(id: nat) | Destroy(id: nat) | Turn(moment: Moment)

  function TimelineOp(work: Work, cursor: int): Op {
    match work
    case ResetAudio => Clear
    case SetCapacity(size) => Resize(size)
    case PutBlock(position, samples, gain) => Put(position, samples, gain, cursor)
  }

  function WithWork(ops: seq<Op>, work: seq<Work>, cursor: int): seq<Op> {
    if work == [] then ops
    else WithWork(ops, work[..|work| - 1], cursor) + [TimelineOp(work[|work| - 1], cursor)]
  }

  function Serviced(tap: Tap, service: Service, cursor: int): Tap {
    var worked := WithWork(tap.ops, service.work, cursor);
    tap.(ops := if service.mixes then worked + [Mix(cursor, RETURN_FRAMES)] else worked)
  }

  predicate Reanchors(w: Worker, m: Moment) {
    w.rate != m.rate || w.latencyNs != m.LatencyNs() || w.cursor == 0 || m.Current() - w.cursor > m.Latency() + m.rate
  }

  /** The catching-up loop: at most 32 blocks, each served by every live tap, then the cursor moves on. */
  function SendBlocks(w: Worker, m: Moment, count: nat): Worker
    requires count <= MAX_BLOCKS
    decreases MAX_BLOCKS - count
  {
    if w.cursor + RETURN_FRAMES <= m.Current() - m.Latency() && count < MAX_BLOCKS then
      SendBlocks(
        w.(taps := map id | id in w.taps :: Serviced(w.taps[id], m.service(count, id), w.cursor),
           cursor := w.cursor + RETURN_FRAMES),
        m, count + 1)
    else w
  }

  /** The taps the loop goes through: those in the registry that are not dead. */
  function Live(w: Worker): map<nat, Tap> {
    map id | id in w.taps && !w.taps[id].dead :: w.taps[id]
  }

  function Anchored(w: Worker, m: Moment): Worker {
    if Reanchors(w, m) then
      Worker(m.rate, m.Current() - m.Latency(), m.LatencyNs(),
             map id | id in Live(w) :: w.taps[id].(ops := w.taps[id].ops + [Clear]))
    else w.(taps := Live(w))
  }

  function Next(w: Worker, e: Event): Worker {
    match e
    case Track(id) => if id in w.taps && !w.taps[id].dead then w else w.(taps := w.taps[id := Tap([], false)])
    case Destroy(id) => if id in w.taps then w.(taps := w.taps[id := w.taps[id].(dead := true)]) else w
    case Turn(m) => SendBlocks(Anchored(w, m), m, 0)
  }

  function Run(events: seq<Event>): Worker {
    if events == [] then INITIAL else Next(Run(events[..|events| - 1]), events[|events| - 1])
  }

  /** The cursor never falls behind what has been done to the timeline since its last clear. */
  ghost predicate InOrder(ops: seq<Op>, cursor: int) {
    Advancing(ops) && AtLeast(cursor, Floor(ops))
  }

  ghost predicate Ordered(w: Worker) {
    forall id | id in w.taps :: InOrder(w.taps[id].ops, w.cursor)
  }

  lemma OpInOrder(ops: seq<Op>, op: Op, cursor: int)
    requires InOrder(ops, cursor) && !op.Mix? && (op.Put? ==> op.cursor == cursor)
    ensures InOrder(ops + [op], cursor)
  {
    assert (ops + [op])[..|ops|] == ops;
  }

  lemma {:induction false} WorkInOrder(ops: seq<Op>, work: seq<Work>, cursor: int)
    requires InOrder(ops, cursor)
    ensures InOrder(WithWork(ops, work, cursor), cursor)
  {
    hide InOrder;
    if work != [] {
      WorkInOrder(ops, work[..|work| - 1], cursor);
      OpInOrder(WithWork(ops, work[..|work| - 1], cursor), TimelineOp(work[|work| - 1], cursor), cursor);
    }
  }

  lemma ServiceInOrder(tap: Tap, service: Service, cursor: int)
    requires InOrder(tap.ops, cursor)
    ensures InOrder(Serviced(tap, service, cursor).ops, cursor + RETURN_FRAMES)
  {
    var worked := WithWork(tap.ops, service.work, cursor);
    WorkInOrder(tap.ops, service.work, cursor);
    assert (worked + [Mix(cursor, RETURN_FRAMES)])[..|worked|] == worked;
  }

  lemma ClearInOrder(ops: seq<Op>, cursor: int)
    requires Advancing(ops)
    ensures InOrder(ops + [Clear], cursor)
  {
    assert (ops + [Clear])[..|ops|] == ops;
  }

  lemma {:induction false} SendBlocksOrdered(w: Worker, m: Moment, count: nat)
    requires count <= MAX_BLOCKS && Ordered(w)
    ensures Ordered(SendBlocks(w, m, count))
    decreases MAX_BLOCKS - count
  {
    hide InOrder, Serviced;
    if w.cursor + RETURN_FRAMES <= m.Current() - m.Latency() && count < MAX_BLOCKS {
      forall id | id in w.taps
        ensures InOrder(Serviced(w.taps[id], m.service(count, id), w.cursor).ops, w.cursor + RETURN_FRAMES)
      {
        ServiceInOrder(w.taps[id], m.service(count, id), w.cursor);
      }
      SendBlocksOrdered(
        w.(taps := map id | id in w.taps :: Serviced(w.taps[id], m.service(count, id), w.cursor),
           cursor := w.cursor + RETURN_FRAMES),
        m, count + 1);
    }
  }

  lemma NextOrdered(w: Worker, e: Event)
    requires Ordered(w)
    ensures Ordered(Next(w, e))
  {
    hide SendBlocks;
    match e
    case Track(id) =>
    case Destroy(id) =>
    case Turn(m) =>
      forall id | id in Live(w) ensures InOrder(w.taps[id].ops + [Clear], m.Current() - m.Latency()) {
        ClearInOrder(w.taps[id].ops, m.Current() - m.Latency());
      }
      SendBlocksOrdered(Anchored(w, m), m, 0);
  }

  /** Sources may come and go, the clock, the latency and the rate may change and the worker may fall behind: each time
      the cursor jumps every timeline it will touch has been cleared, so no timeline ever sees a cursor go back. */
  lemma {:induction false} CursorNeverReturns(events: seq<Event>)
    ensures Ordered(Run(events))
  {
    hide Next;
    if events != [] {
      CursorNeverReturns(events[..|events| - 1]);
      NextOrdered(Run(events[..|events| - 1]), events[|events| - 1]);
    }
  }

  ghost predicate CursorsNonNegative(ops: seq<Op>) {
    forall i | 0 <= i < |ops| :: ops[i].Put? || ops[i].Mix? ==> ops[i].cursor >= 0
  }

  ghost predicate NonNegative(w: Worker) {
    w.cursor >= 0 && forall id | id in w.taps :: CursorsNonNegative(w.taps[id].ops)
  }

  lemma {:induction false} WorkNonNegative(ops: seq<Op>, work: seq<Work>, cursor: int)
    requires CursorsNonNegative(ops) && cursor >= 0
    ensures CursorsNonNegative(WithWork(ops, work, cursor))
  {
    if work != [] {
      WorkNonNegative(ops, work[..|work| - 1], cursor);
    }
  }

  lemma {:induction false} SendBlocksNonNegative(w: Worker, m: Moment, count: nat)
    requires count <= MAX_BLOCKS && NonNegative(w)
    ensures NonNegative(SendBlocks(w, m, count))
    decreases MAX_BLOCKS - count
  {
    if w.cursor + RETURN_FRAMES <= m.Current() - m.Latency() && count < MAX_BLOCKS {
      forall id | id in w.taps ensures CursorsNonNegative(Serviced(w.taps[id], m.service(count, id), w.cursor).ops) {
        WorkNonNegative(w.taps[id].ops, m.service(count, id).work, w.cursor);
      }
      SendBlocksNonNegative(
        w.(taps := map id | id in w.taps :: Serviced(w.taps[id], m.service(count, id), w.cursor),
           cursor := w.cursor + RETURN_FRAMES),
        m, count + 1);
    }
  }

  /** Whenever the cursor is anchored anew, the clock has run for at least the latency. */
  ghost predicate AnchorsPastLatency(events: seq<Event>) {
    forall i | 0 <= i < |events| :: AnchorPastLatency(Run(events[..i]), events[i])
  }

  ghost predicate AnchorPastLatency(w: Worker, e: Event) {
    e.Turn? && Reanchors(w, e.moment) ==> e.moment.Current() >= e.moment.Latency()
  }

  lemma AnchorsPrefix(events: seq<Event>)
    requires events != []
    ensures AnchorsPastLatency(events) <==>
              && AnchorsPastLatency(events[..|events| - 1])
              && AnchorPastLatency(Run(events[..|events| - 1]), events[|events| - 1])
  {
    hide Run, AnchorPastLatency;
    var n := |events| - 1;
    assert forall i | 0 <= i < n :: events[..n][..i] == events[..i] && events[..n][i] == events[i];
  }

  lemma {:induction false} SendBlocksAdvances(w: Worker, m: Moment, count: nat)
    requires count <= MAX_BLOCKS
    ensures SendBlocks(w, m, count).cursor >= w.cursor
    ensures w.cursor == m.Current() - m.Latency() ==> SendBlocks(w, m, count) == w
    decreases MAX_BLOCKS - count
  {
    hide Serviced, Moment.Current, Moment.Latency;
    if w.cursor + RETURN_FRAMES <= m.Current() - m.Latency() && count < MAX_BLOCKS {
      SendBlocksAdvances(
        w.(taps := map id | id in w.taps :: Serviced(w.taps[id], m.service(count, id), w.cursor),
           cursor := w.cursor + RETURN_FRAMES),
        m, count + 1);
    }
  }

  /** A turn that anchors the cursor anew sends nothing, so the cursor is then exactly the clock less the latency. */
  lemma NextCursor(w: Worker, e: Event)
    ensures if e.Turn? && Reanchors(w, e.moment) then Next(w, e).cursor == e.moment.Current() - e.moment.Latency()
            else Next(w, e).cursor >= w.cursor
  {
    hide Moment.Current, Moment.Latency, SendBlocks;
    if e.Turn? {
      SendBlocksAdvances(Anchored(w, e.moment), e.moment, 0);
    }
  }

  ghost predicate CursorsOfRunNonNegative(events: seq<Event>) {
    forall i | 0 <= i <= |events| :: Run(events[..i]).cursor >= 0
  }

  /** The cursor is never negative in a run if and only if each time it is anchored anew the clock has run for at
      least the latency. Its own turn decides, before it is taken. */
  lemma {:induction false} CursorNonNegativeIff(events: seq<Event>)
    ensures CursorsOfRunNonNegative(events) <==> AnchorsPastLatency(events)
  {
    hide Run, Next, Reanchors, AnchorsPastLatency, AnchorPastLatency;
    if events == [] {
      NothingHappened();
    } else {
      var n := |events| - 1;
      var before, e := events[..n], events[n];
      CursorNonNegativeIff(before);
      AnchorsPrefix(events);
      RunLast(events);
      if Run(before).cursor >= 0 {
        LastCursor(Run(before), e);
      }
      assert events[..n + 1] == events;
      assert forall i | 0 <= i <= n :: before[..i] == events[..i];
      assert before[..n] == before;
    }
  }

  lemma NothingHappened()
    ensures CursorsOfRunNonNegative([]) && AnchorsPastLatency([])
  {
    var none: seq<Event> := [];
    assert none[..0] == none;
  }

  lemma RunLast(events: seq<Event>)
    requires events != []
    ensures Run(events) == Next(Run(events[..|events| - 1]), events[|events| - 1])
  {
  }

  lemma LastCursor(w: Worker, e: Event)
    requires w.cursor >= 0
    ensures Next(w, e).cursor >= 0 <==> AnchorPastLatency(w, e)
  {
    hide Next, Reanchors, Moment.Current, Moment.Latency;
    NextCursor(w, e);
  }

  lemma {:induction false} RunNonNegative(events: seq<Event>)
    requires CursorsOfRunNonNegative(events)
    ensures NonNegative(Run(events))
  {
    hide SendBlocks, Reanchors, Moment.Current, Moment.Latency;
    assert events[..|events|] == events;
    if events != [] {
      var n := |events| - 1;
      var w, e := Run(events[..n]), events[n];
      assert forall i | 0 <= i <= n :: events[..n][..i] == events[..i];
      RunNonNegative(events[..n]);
      if e.Turn? {
        SendBlocksAdvances(Anchored(w, e.moment), e.moment, 0);
        AnchoredNonNegative(w, e.moment);
        SendBlocksNonNegative(Anchored(w, e.moment), e.moment, 0);
      }
    }
  }

  /** If the turn ends with a cursor that is not negative, it was anchored at one. */
  lemma AnchoredNonNegative(w: Worker, m: Moment)
    requires NonNegative(w) && Next(w, Turn(m)).cursor >= 0
    ensures NonNegative(Anchored(w, m))
  {
    hide SendBlocks, Moment.Current, Moment.Latency;
    SendBlocksAdvances(Anchored(w, m), m, 0);
  }

  /** The window of every put fits 64-bit times. */
  ghost predicate WindowsRepresentable(ops: seq<Op>) {
    && AllRepresentable(ops)
    && forall i | 0 <= i < |ops| ::
         ops[i].Put? ==> InRange(ops[i].cursor) && InRange(ops[i].cursor + Size(ops[..i]))
  }

  lemma {:induction false} NonNegativeIsSafe(ops: seq<Op>)
    requires CursorsNonNegative(ops) && WindowsRepresentable(ops)
    ensures AllSafe(ops)
  {
    if ops != [] {
      var n := |ops| - 1;
      assert forall i | 0 <= i < n :: ops[..n][i] == ops[i] && ops[..n][..i] == ops[..i];
      NonNegativeIsSafe(ops[..n]);
    }
  }

  /** Every operation of a life was in order when it happened. */
  lemma {:induction false} InOrderSoFar(ops: seq<Op>, k: nat)
    requires Advancing(ops) && AllSafe(ops) && k < |ops|
    ensures Advancing(ops[..k]) && AllSafe(ops[..k])
    ensures ops[k].Mix? ==> AtLeast(ops[k].cursor, Floor(ops[..k])) && SafeWindow(ops[k].cursor, ops[k].frames)
  {
    hide Floor, SafeWindow, AtLeast;
    if k < |ops| - 1 {
      InOrderSoFar(ops[..|ops| - 1], k);
      assert ops[..|ops| - 1][..k] == ops[..k];
    }
  }

  /** The mix at index `k` of a tap's life adds at its time `i` the first sample put for that time since the last
      clear. */
  ghost predicate EmitsFirstPut(ops: seq<Op>, k: nat, i: nat)
    requires AllRepresentable(ops) && k < |ops| && ops[k].Mix? && i < ops[k].frames
  {
    Contribution(ops[..k], ops[k].cursor, ops[k].frames)[i] == Lookup(Ideal(ops[..k]), ops[k].cursor + i)
  }

  /** From the worker to the samples: in every run of the worker in which no window of a tap contains the time -1,
      every mix of that tap adds at each of its times exactly the first sample that was put for it, or silence. */
  lemma EveryTapEmitsFirstPut(events: seq<Event>, id: nat, k: nat, i: nat)
    requires id in Run(events).taps && AllRepresentable(Run(events).taps[id].ops) && AllSafe(Run(events).taps[id].ops)
    requires var ops := Run(events).taps[id].ops; k < |ops| && ops[k].Mix? && i < ops[k].frames
    ensures EmitsFirstPut(Run(events).taps[id].ops, k, i)
  {
    hide Run, EmitsFirstPut, AllSafe, AllRepresentable;
    CursorNeverReturns(events);
    OrderedLifeEmitsFirstPut(Run(events).taps[id].ops, k, i);
  }

  /** In particular as long as the clock has run for at least the latency each time the cursor is anchored. */
  lemma EveryTapIsSafe(events: seq<Event>, id: nat)
    requires AnchorsPastLatency(events) && id in Run(events).taps && WindowsRepresentable(Run(events).taps[id].ops)
    ensures AllRepresentable(Run(events).taps[id].ops) && AllSafe(Run(events).taps[id].ops)
  {
    hide Run, AnchorsPastLatency, CursorsOfRunNonNegative;
    CursorNonNegativeIff(events);
    RunNonNegative(events);
    NonNegativeIsSafe(Run(events).taps[id].ops);
  }

  /** No tap ever emits a frame twice, unless its timeline was cleared in between. */
  lemma NoTapEmitsTwice(events: seq<Event>, id: nat, j: nat, k: nat)
    requires id in Run(events).taps
    requires var ops := Run(events).taps[id].ops; j < k < |ops| && ops[j].Mix? && ops[k].Mix? && Undisturbed(ops, j, k)
    ensures var ops := Run(events).taps[id].ops; ops[j].cursor + ops[j].frames <= ops[k].cursor
  {
    hide Run;
    CursorNeverReturns(events);
    NoFrameTwice(Run(events).taps[id].ops, j, k);
  }

  lemma OrderedLifeEmitsFirstPut(ops: seq<Op>, k: nat, i: nat)
    requires Advancing(ops) && AllRepresentable(ops) && AllSafe(ops)
    requires k < |ops| && ops[k].Mix? && i < ops[k].frames
    ensures EmitsFirstPut(ops, k, i)
  {
    hide AllSafe, Advancing, Lookup, Ideal, Contribution, SafeWindow, AtLeast, Floor;
    InOrderSoFar(ops, k);
    assert Representable(ops[k]);
    MixEmitsFirstPut(ops[..k], ops[k].cursor, ops[k].frames, i);
  }

  /** The service that attaches a source and finds its first block, of one frame for the time -1. */
  function OneFrame(count: nat, id: nat): Service {
    Service([ResetAudio, ResetAudio, SetCapacity(48_000), PutBlock(-1, [(1.0, 1.0)], 1.0)], true)
  }

  /** A turn with the shortest buffer and no look-behind. */
  function Early(now: nat): Event {
    Turn(Moment(now, 48_000, 20, 0, OneFrame))
  }

  const FIRST: nat := 17_916_667
  const SECOND_TURN: nat := 20_583_334

  /** In frames: the first turn comes 860 frames after the clock's start, the second one block later, and the latency
      is 960. */
  lemma EarlyFrames()
    ensures Early(FIRST).moment.Current() == 860 && Early(SECOND_TURN).moment.Current() == 988
    ensures Early(FIRST).moment.Latency() == Early(SECOND_TURN).moment.Latency() == 960
    ensures Early(FIRST).moment.LatencyNs() == Early(SECOND_TURN).moment.LatencyNs() == 20_000_000
  {
  }

  const LOST: Op := Put(-1, [(1.0, 1.0)], 1.0, -100)

  /** What the tap has gone through then: anchored, attached, its format seen, its first block laid down and mixed. */
  const EARLY_LIFE: seq<Op> := [Clear, Clear, Clear, Resize(48_000), LOST, Mix(-100, RETURN_FRAMES)]

  /** A worker whose clock has run for less than the latency when it is first anchored: its second turn serves a
      window that contains the time -1, and the frame put for that time is lost. */
  lemma EarlyClockLosesFrame()
    ensures var events := [Track(0), Early(FIRST), Early(SECOND_TURN)];
            && !AnchorsPastLatency(events)
            && 0 in Run(events).taps && Run(events).taps[0].ops == EARLY_LIFE
            && AllRepresentable(EARLY_LIFE) && !EmitsFirstPut(EARLY_LIFE, 5, 99)
  {
    hide Next, Moment.Current, Moment.Latency;
    EarlyRun();
    EarlyMix();
    EarlyAnchor();
  }

  lemma EarlyAnchor()
    ensures !AnchorsPastLatency([Track(0), Early(FIRST), Early(SECOND_TURN)])
  {
    hide Moment.Current, Moment.Latency, Next;
    var events := [Track(0), Early(FIRST), Early(SECOND_TURN)];
    EarlyFrames();
    FirstTrack();
    assert events[..1] == [Track(0)];
    RunThen([], Track(0));
    assert [] + [Track(0)] == [Track(0)];
    assert !AnchorPastLatency(Run(events[..1]), events[1]);
  }

  lemma EarlyRun()
    ensures Run([Track(0), Early(FIRST), Early(SECOND_TURN)])
            == Worker(48_000, 28, 20_000_000,
                      map[0 := Tap(EARLY_LIFE, false)])
  {
    hide Next, Moment.Current, Moment.Latency;
    assert [] + [Track(0)] == [Track(0)] && [Track(0)] + [Early(FIRST)] == [Track(0), Early(FIRST)];
    assert [Track(0), Early(FIRST)] + [Early(SECOND_TURN)] == [Track(0), Early(FIRST), Early(SECOND_TURN)];
    RunThen([], Track(0));
    RunThen([Track(0)], Early(FIRST));
    RunThen([Track(0), Early(FIRST)], Early(SECOND_TURN));
    assert Run([]) == INITIAL;
    FirstTrack();
    FirstTurn();
    SecondTurn();
  }

  lemma RunThen(events: seq<Event>, e: Event)
    ensures Run(events + [e]) == Next(Run(events), e)
  {
    assert (events + [e])[..|events|] == events;
  }

  lemma FirstTrack()
    ensures Next(INITIAL, Track(0)) == Worker(0, 0, 0, map[0 := Tap([], false)])
  {
  }

  lemma FirstTurn()
    ensures Next(Worker(0, 0, 0, map[0 := Tap([], false)]), Early(FIRST))
            == Worker(48_000, -100, 20_000_000, map[0 := Tap([Clear], false)])
  {
    hide Moment.Current, Moment.Latency, Moment.LatencyNs;
    EarlyFrames();
    var w := Worker(0, 0, 0, map[0 := Tap([], false)]);
    assert Live(w) == w.taps;
    assert w.taps[0].ops + [Clear] == [Clear];
    assert Anchored(w, Early(FIRST).moment).taps[0] == Tap([Clear], false);
    assert Anchored(w, Early(FIRST).moment).taps == map[0 := Tap([Clear], false)];
  }

  lemma SecondTurn()
    ensures Next(Worker(48_000, -100, 20_000_000, map[0 := Tap([Clear], false)]), Early(SECOND_TURN))
            == Worker(48_000, 28, 20_000_000,
                      map[0 := Tap(EARLY_LIFE, false)])
  {
    hide TimelineOp, WithWork, Serviced, Moment.Current, Moment.Latency, Moment.LatencyNs;
    EarlyFrames();
    var w := Worker(48_000, -100, 20_000_000, map[0 := Tap([Clear], false)]);
    var m := Early(SECOND_TURN).moment;
    assert Live(w) == w.taps;
    var served := w.(taps := map id | id in w.taps :: Serviced(w.taps[id], m.service(0, id), w.cursor), cursor := 28);
    EarlyService();
    assert SendBlocks(served, m, 1) == served;
    assert served.taps == map[0 := Serviced(w.taps[0], OneFrame(0, 0), -100)];
  }

  lemma EarlyService()
    ensures Serviced(Tap([Clear], false), OneFrame(0, 0), -100) == Tap(EARLY_LIFE, false)
  {
    hide WithWork;
    var reset: seq<Work> := [ResetAudio, ResetAudio];
    var work := OneFrame(0, 0).work;
    WorkThen([Clear], [], ResetAudio, -100);
    WorkThen([Clear], [ResetAudio], ResetAudio, -100);
    WorkThen([Clear], reset, SetCapacity(48_000), -100);
    WorkThen([Clear], reset + [SetCapacity(48_000)], PutBlock(-1, [(1.0, 1.0)], 1.0), -100);
    assert [] + [ResetAudio] == [ResetAudio] && [ResetAudio] + [ResetAudio] == reset;
    assert work == reset + [SetCapacity(48_000)] + [PutBlock(-1, [(1.0, 1.0)], 1.0)];
  }

  lemma WorkThen(ops: seq<Op>, work: seq<Work>, next: Work, cursor: int)
    ensures WithWork(ops, [], cursor) == ops
    ensures WithWork(ops, work + [next], cursor) == WithWork(ops, work, cursor) + [TimelineOp(next, cursor)]
  {
    assert (work + [next])[..|work|] == work;
  }

  /** All slots are empty, so the one for the time -1 seems to be taken. */
  lemma EarlyMix()
    ensures AllRepresentable(EARLY_LIFE) && !EmitsFirstPut(EARLY_LIFE, 5, 99)
  {
    hide Slot;
    var life := EARLY_LIFE[..5];
    var empty := EARLY_LIFE[..4];
    EarlyEmpty(empty);
    assert life == empty + [LOST];
    assert life[..4] == empty;
    assert PutSome(Data(empty), -1, LOST.samples, 1.0, -100, 0) == Data(empty);
    assert Data(life) == PutOne(Data(empty), -1, Scaled((1.0, 1.0), 1.0), -100) == Data(empty);
    EmptyIsSilent(Data(life), -100, RETURN_FRAMES);
    assert Contribution(life, -100, RETURN_FRAMES)[99] == SILENCE;
    assert FirstPut(map[], -1, LOST.samples, 1.0, -100, 48_000, 0) == map[];
    assert Lookup(Ideal(life), -1) == (1.0, 1.0);
  }

  lemma EarlyEmpty(ops: seq<Op>)
    requires ops == [Clear, Clear, Clear, Resize(48_000)]
    ensures AllRepresentable(ops) && Data(ops) == seq(48_000, _ => EMPTY) && Ideal(ops) == map[] && Size(ops) == 48_000
  {
    hide Data, Ideal, Size, Floor;
    NoLife();
    LifeThen([], Clear);
    LifeThen([Clear], Clear);
    LifeThen([Clear, Clear], Clear);
    LifeThen([Clear, Clear, Clear], Resize(48_000));
    assert [] + [Clear] == [Clear] && [Clear] + [Clear] == [Clear, Clear];
    assert [Clear, Clear] + [Clear] == [Clear, Clear, Clear] && [Clear, Clear, Clear] + [Resize(48_000)] == ops;
  }
}
