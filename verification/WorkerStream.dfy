/** A source through whole runs of the return worker: every turn of the loop serves the blocks its ring holds and
    mixes. */
module WorkerStream {
  import opened Words
  import opened StereoTimeline
  import opened TimelineHistory
  import opened MonitorTap
  import Worker = MonitorWorker
  import Services = TapService
  import Stream = MonitorStream
  import Clocks = MonitorClock

  /** Something happens to the worker; in a turn, `feed` is what servicing the source's tap comes to for each block
      sent. */
  datatype Happening = Happening(event: Worker.Event, feed: nat -> Services.Feed)
  {
    ghost predicate Valid() {
      forall count: nat :: feed(count).Valid()
    }
  }

  ghost predicate AllValid(h: seq<Happening>) {
    forall i | 0 <= i < |h| :: h[i].Valid()
  }

  function Events(h: seq<Happening>): seq<Worker.Event> {
    if h == [] then [] else Events(h[..|h| - 1]) + [h[|h| - 1].event]
  }

  function State(h: seq<Happening>): Worker.Worker {
    Worker.Run(Events(h))
  }

  lemma StateThen(h: seq<Happening>)
    requires h != []
    ensures State(h) == Worker.Next(State(h[..|h| - 1]), h[|h| - 1].event)
  {
    hide Worker.Next;
    var before, e := Events(h[..|h| - 1]), h[|h| - 1].event;
    assert (before + [e])[..|before|] == before;
  }

  // The source's steps.

  function PartStep(part: Services.Part, cursor: int): Step {
    match part
    case Fresh => Reset
    case Block(_, input, capacity) => Serve(input, capacity, cursor)
  }

  function PartSteps(parts: seq<Services.Part>, cursor: int): (s: seq<Step>)
    ensures |s| == |parts|
    ensures forall i | 0 <= i < |s| :: s[i] == PartStep(parts[i], cursor)
  {
    seq(|parts|, i requires 0 <= i < |parts| => PartStep(parts[i], cursor))
  }

  function BlockSteps(f: Services.Feed, cursor: int): (s: seq<Step>)
    requires f.Valid()
    ensures ValidSteps(s)
  {
    PartSteps(f.parts, cursor) + if f.plays then [Play(cursor, Worker.RETURN_FRAMES)] else []
  }

  /** Whether the loop goes on to send the block at the cursor. */
  predicate Sends(cursor: int, m: Worker.Moment, count: nat) {
    cursor + Worker.RETURN_FRAMES <= m.Current() - m.Latency() && count < Worker.MAX_BLOCKS
  }

  ghost function SendSteps(cursor: int, m: Worker.Moment, count: nat, h: Happening): (s: seq<Step>)
    requires h.Valid()
    ensures ValidSteps(s)
    decreases Worker.MAX_BLOCKS - count
  {
    if !Sends(cursor, m, count) then []
    else BlockSteps(h.feed(count), cursor) + SendSteps(cursor + Worker.RETURN_FRAMES, m, count + 1, h)
  }

  /** What the tap goes through when the cursor is anchored anew. */
  function AnchorSteps(w: Worker.Worker, m: Worker.Moment): (s: seq<Step>)
    ensures ValidSteps(s)
  {
    if Worker.Reanchors(w, m) then [Reset] else []
  }

  /** All the steps of the tap that the source has now. */
  ghost function Steps(h: seq<Happening>, id: nat): (s: seq<Step>)
    requires AllValid(h)
    ensures ValidSteps(s)
  {
    if h == [] then []
    else
      var before, w, last := Steps(h[..|h| - 1], id), State(h[..|h| - 1]), h[|h| - 1];
      match last.event
      case Track(i) => if i == id && (id !in w.taps || w.taps[id].dead) then [] else before
      case Destroy(_) => before
      case Turn(m) =>
        if id in Worker.Live(w) then
          before + AnchorSteps(w, m) + SendSteps(Worker.Anchored(w, m).cursor, m, 0, last)
        else before
  }

  // The worker's services are these resets and servings.

  /** Servicing the tap does what these resets and servings do. */
  ghost predicate IsServing(before: seq<Step>, service: Worker.Service, f: Services.Feed, cursor: int)
    requires ValidSteps(before) && f.Valid()
  {
    && service.mixes == f.plays
    && ValidSteps(before + PartSteps(f.parts, cursor))
    && Worker.WithWork(Run(before).ops, service.work, cursor)
       == Run(before + PartSteps(f.parts, cursor)).ops
  }

  ghost predicate SendsServe(
    before: seq<Step>, cursor: int, m: Worker.Moment, count: nat, h: Happening, id: nat)
    requires ValidSteps(before) && h.Valid()
    decreases Worker.MAX_BLOCKS - count
  {
    Sends(cursor, m, count) ==>
      && IsServing(before, m.service(count, id), h.feed(count), cursor)
      && SendsServe(before + BlockSteps(h.feed(count), cursor), cursor + Worker.RETURN_FRAMES, m, count + 1, h,
          id)
  }

  /** In every turn the worker does with the source's tap what its feeds say. */
  ghost predicate Serves(h: seq<Happening>, id: nat)
    requires AllValid(h)
  {
    h != [] ==>
      var earlier, w, last := h[..|h| - 1], State(h[..|h| - 1]), h[|h| - 1];
      && Serves(earlier, id)
      && (last.event.Turn? && id in Worker.Live(w) ==>
            var m := last.event.moment;
            SendsServe(Steps(earlier, id) + AnchorSteps(w, m), Worker.Anchored(w, m).cursor, m, 0, last, id))
  }

  lemma RunThen(before: seq<Step>, step: Step)
    requires ValidSteps(before) && (step.Serve? ==> step.input.Valid())
    ensures ValidSteps(before + [step]) && Run(before + [step]) == Next(Run(before), step)
  {
    hide Next;
    assert (before + [step])[..|before|] == before;
  }

  /** For every feed there is a service the worker may perform. */
  lemma {:induction false} SomeServiceServes(before: seq<Step>, f: Services.Feed, cursor: int)
    requires ValidSteps(before) && f.Valid()
    ensures exists service :: IsServing(before, service, f, cursor)
    decreases |f.parts|
  {
    hide Run, Served, PartStep;
    var n := |f.parts| - 1;
    if f.parts == [] {
      assert before + PartSteps([], cursor) == before;
      NoWork(Run(before).ops, cursor);
      assert IsServing(before, Worker.Service([], f.plays), f, cursor);
    } else {
      var g := f.(parts := f.parts[..n]);
      SomeServiceServes(before, g, cursor);
      var service :| IsServing(before, service, g, cursor);
      var done, step := before + PartSteps(g.parts, cursor), PartStep(f.parts[n], cursor);
      assert before + PartSteps(f.parts, cursor) == done + [step];
      StepValid(f.parts[n], cursor);
      RunThen(done, step);
      var work := PartWork(Run(done), f.parts[n], cursor);
      MoreWork(Run(before).ops, service.work, work, cursor);
      assert IsServing(before, Worker.Service(service.work + work, f.plays), f, cursor);
    }
  }

  lemma StepValid(part: Services.Part, cursor: int)
    requires part.Block? ==> part.input.Valid()
    ensures PartStep(part, cursor).Serve? ==> PartStep(part, cursor).input.Valid()
  {
  }

  /** The work of one reset or serving. */
  lemma PartWork(tap: Tap, part: Services.Part, cursor: int) returns (work: seq<Worker.Work>)
    requires part.Block? ==> part.input.Valid()
    ensures PartStep(part, cursor).Serve? ==> PartStep(part, cursor).input.Valid()
    ensures Next(tap, PartStep(part, cursor)).ops == Worker.WithWork(tap.ops, work, cursor)
  {
    hide Served;
    match part
    case Fresh =>
      Worker.WorkThen(tap.ops, [], Worker.ResetAudio, cursor);
      work := [] + [Worker.ResetAudio];
    case Block(_, input, capacity) =>
      ServingIsWork(tap, input, capacity, cursor);
      work :| Served(tap, input, capacity, cursor).ops == Worker.WithWork(tap.ops, work, cursor);
  }

  lemma NoWork(ops: seq<Op>, cursor: int)
    ensures Worker.WithWork(ops, [], cursor) == ops
  {
  }

  lemma {:induction false} MoreWork(ops: seq<Op>, a: seq<Worker.Work>, b: seq<Worker.Work>, cursor: int)
    ensures Worker.WithWork(ops, a + b, cursor) == Worker.WithWork(Worker.WithWork(ops, a, cursor), b, cursor)
  {
    if b == [] {
      assert a + b == a;
    } else {
      var n := |b| - 1;
      MoreWork(ops, a, b[..n], cursor);
      assert (a + b)[..|a + b| - 1] == a + b[..n];
    }
  }

  // The worker's tap follows the source's steps.

  lemma BlockFollows(
    tap: Worker.Tap, before: seq<Step>, service: Worker.Service, f: Services.Feed, cursor: int)
    requires ValidSteps(before) && f.Valid() && IsServing(before, service, f, cursor)
    requires tap.ops == Run(before).ops
    ensures ValidSteps(before + BlockSteps(f, cursor))
    ensures Worker.Serviced(tap, service, cursor).ops == Run(before + BlockSteps(f, cursor)).ops
  {
    hide Run, Worker.WithWork, Served;
    var served := before + PartSteps(f.parts, cursor);
    if f.plays {
      RunThen(served, Play(cursor, Worker.RETURN_FRAMES));
      assert before + BlockSteps(f, cursor) == served + [Play(cursor, Worker.RETURN_FRAMES)];
    } else {
      assert before + BlockSteps(f, cursor) == served;
    }
  }

  lemma {:induction false} SendFollows(
    w: Worker.Worker, before: seq<Step>, m: Worker.Moment, count: nat, h: Happening, id: nat)
    requires ValidSteps(before) && h.Valid() && count <= Worker.MAX_BLOCKS
    requires id in w.taps && w.taps[id].ops == Run(before).ops
    requires SendsServe(before, w.cursor, m, count, h, id)
    ensures ValidSteps(before + SendSteps(w.cursor, m, count, h))
    ensures var after := Worker.SendBlocks(w, m, count);
            && after.taps.Keys == w.taps.Keys
            && after.taps[id].ops == Run(before + SendSteps(w.cursor, m, count, h)).ops
    decreases Worker.MAX_BLOCKS - count
  {
    hide Run, IsServing, Worker.Serviced, BlockSteps, Worker.Moment.Current, Worker.Moment.Latency;
    if Sends(w.cursor, m, count) {
      var steps := BlockSteps(h.feed(count), w.cursor);
      BlockFollows(w.taps[id], before, m.service(count, id), h.feed(count), w.cursor);
      var next := w.(taps := map i | i in w.taps :: Worker.Serviced(w.taps[i], m.service(count, i), w.cursor),
                     cursor := w.cursor + Worker.RETURN_FRAMES);
      SendFollows(next, before + steps, m, count + 1, h, id);
      assert before + steps + SendSteps(next.cursor, m, count + 1, h) == before + SendSteps(w.cursor, m, count, h);
    } else {
      assert before + SendSteps(w.cursor, m, count, h) == before;
    }
  }

  lemma TurnFollows(
    w: Worker.Worker, before: seq<Step>, m: Worker.Moment, h: Happening, id: nat)
    requires ValidSteps(before) && h.Valid()
    requires id in Worker.Live(w) && w.taps[id].ops == Run(before).ops
    requires SendsServe(before + AnchorSteps(w, m), Worker.Anchored(w, m).cursor, m, 0, h, id)
    ensures ValidSteps(before + AnchorSteps(w, m) + SendSteps(Worker.Anchored(w, m).cursor, m, 0, h))
    ensures var after := Worker.Next(w, Worker.Turn(m));
            && id in after.taps
            && after.taps[id].ops
               == Run(before + AnchorSteps(w, m) + SendSteps(Worker.Anchored(w, m).cursor, m, 0, h)).ops
  {
    hide Run, SendsServe, SendSteps, Worker.SendBlocks, Worker.Reanchors, Worker.Moment.Current, Worker.Moment.Latency;
    var anchored := Worker.Anchored(w, m);
    RunThen(before, Reset);
    if !Worker.Reanchors(w, m) {
      assert before + AnchorSteps(w, m) == before;
    }
    SendFollows(anchored, before + AnchorSteps(w, m), m, 0, h, id);
  }

  /** In every run the worker's tap has gone through exactly the source's steps. */
  lemma {:induction false} TapFollows(h: seq<Happening>, id: nat)
    requires AllValid(h) && Serves(h, id) && id in State(h).taps
    ensures State(h).taps[id].ops == Run(Steps(h, id)).ops
  {
    hide Run, State, SendsServe, SendSteps, AnchorSteps, Worker.SendBlocks, Worker.Anchored, Events;
    if h == [] {
      NothingYet();
    } else {
      var earlier, last := h[..|h| - 1], h[|h| - 1];
      var w := State(earlier);
      StateThen(h);
      match last.event
      case Track(i) =>
        if i == id && (id !in w.taps || w.taps[id].dead) {
          NewTap();
        } else {
          TapFollows(earlier, id);
        }
      case Destroy(_) => TapFollows(earlier, id);
      case Turn(m) =>
        if id in Worker.Live(w) {
          TapFollows(earlier, id);
          TurnFollows(w, Steps(earlier, id), m, last, id);
        } else {
          DeadGoes(w, m, id);
        }
    }
  }

  lemma NothingYet()
    ensures State([]).taps == map[]
  {
  }

  lemma NewTap()
    ensures ValidSteps([]) && Run([]) == NEW
  {
  }

  lemma DeadGoes(w: Worker.Worker, m: Worker.Moment, id: nat)
    requires id !in Worker.Live(w)
    ensures id !in Worker.Next(w, Worker.Turn(m)).taps
  {
    hide Worker.Reanchors, Worker.Moment.Current, Worker.Moment.Latency, Worker.Serviced;
    SameTaps(Worker.Anchored(w, m), m, 0);
  }

  lemma {:induction false} SameTaps(w: Worker.Worker, m: Worker.Moment, count: nat)
    requires count <= Worker.MAX_BLOCKS
    ensures Worker.SendBlocks(w, m, count).taps.Keys == w.taps.Keys
    decreases Worker.MAX_BLOCKS - count
  {
    hide Worker.Moment.Current, Worker.Moment.Latency, Worker.Serviced;
    if Sends(w.cursor, m, count) {
      SameTaps(w.(taps := map i | i in w.taps :: Worker.Serviced(w.taps[i], m.service(count, i), w.cursor),
                  cursor := w.cursor + Worker.RETURN_FRAMES), m, count + 1);
    }
  }

  // Blocks that are punctual are on time.

  /** When a block is due by its own stamp, before its sync delay. */
  function Due(tap: Tap, input: Input): int {
    Clocks.NsToFrames(input.timestamp, input.rate) + Placed(tap, input).0.offset
  }

  /** The block is there when the worker comes for its time, and not further ahead than the timeline is long; and the
      sync delay has not changed in the middle of a stretch. */
  ghost predicate Punctual(tap: Tap, stretch: Stretch, input: Input, capacity: nat, cursor: int) {
    && (Continues(tap, stretch, input, capacity) ==> input.shift == stretch.shift)
    && cursor + input.rate / 100 <= Due(tap, input) + input.shift
    && Due(tap, input) + |input.left| + input.shift + input.rate / 100 + 1 <= cursor + capacity
  }

  /** By the clock: a block that has been captured, and is due no earlier than the latency less a hundredth of a second
      ago, is punctual for any block the loop sends, on a worker no further behind than the timeline is long. */
  lemma WithinLatency(
    tap: Tap, stretch: Stretch, input: Input, capacity: nat, cursor: int, m: Worker.Moment, count: nat)
    requires Sends(cursor, m, count)
    requires Continues(tap, stretch, input, capacity) ==> input.shift == stretch.shift
    requires Due(tap, input) + |input.left| <= m.Current()
    requires m.Current() - m.Latency() + input.rate / 100 <= Due(tap, input) + input.shift + Worker.RETURN_FRAMES
    requires m.Current() + input.shift + input.rate / 100 + 1 <= cursor + capacity
    ensures Punctual(tap, stretch, input, capacity, cursor)
  {
    hide Due, Continues, Worker.Moment.Current, Worker.Moment.Latency;
  }

  ghost predicate AllPunctual(before: seq<Step>, parts: seq<Services.Part>, cursor: int)
    requires ValidSteps(before) && forall i | 0 <= i < |parts| :: parts[i].Block? ==> parts[i].input.Valid()
    decreases |parts|
  {
    parts != [] ==>
      var n := |parts| - 1;
      PartsValid(before, parts[..n], cursor);
      var done := before + PartSteps(parts[..n], cursor);
      && AllPunctual(before, parts[..n], cursor)
      && (parts[n].Block? ==> Punctual(Run(done), Heard(done), parts[n].input, parts[n].capacity, cursor))
  }

  lemma PartsValid(before: seq<Step>, parts: seq<Services.Part>, cursor: int)
    requires ValidSteps(before) && forall i | 0 <= i < |parts| :: parts[i].Block? ==> parts[i].input.Valid()
    ensures ValidSteps(before + PartSteps(parts, cursor))
  {
  }

  ghost predicate SendsPunctual(
    before: seq<Step>, cursor: int, m: Worker.Moment, count: nat, h: Happening)
    requires ValidSteps(before) && h.Valid()
    decreases Worker.MAX_BLOCKS - count
  {
    Sends(cursor, m, count) ==>
      var f := h.feed(count);
      && AllPunctual(before, f.parts, cursor)
      && SendsPunctual(before + BlockSteps(f, cursor), cursor + Worker.RETURN_FRAMES, m, count + 1, h)
  }

  /** In every turn the source's blocks are punctual. */
  ghost predicate PunctualSource(h: seq<Happening>, id: nat)
    requires AllValid(h)
  {
    h != [] ==>
      var earlier, w, last := h[..|h| - 1], State(h[..|h| - 1]), h[|h| - 1];
      && PunctualSource(earlier, id)
      && (last.event.Turn? && id in Worker.Live(w) ==>
            var m := last.event.moment;
            SendsPunctual(Steps(earlier, id) + AnchorSteps(w, m), Worker.Anchored(w, m).cursor, m, 0, last))
  }

  /** A punctual block is on time for the window at the cursor. */
  lemma PunctualIsOnTime(before: seq<Step>, input: Input, capacity: nat, cursor: int)
    requires ValidSteps(before) && input.Valid()
    requires Punctual(Run(before), Heard(before), input, capacity, cursor)
    ensures OnTime(Run(before), Heard(before), Serve(input, capacity, cursor))
  {
    hide Run, Heard, Placed, Clocks.NsToFrames;
    PlacedNearDue(Run(before), input);
    PlacedLength(Run(before), input);
  }

  lemma OnTimeThen(before: seq<Step>, step: Step)
    requires ValidSteps(before) && AllOnTime(before) && (step.Serve? ==> step.input.Valid())
    requires OnTime(Run(before), Heard(before), step)
    ensures ValidSteps(before + [step]) && AllOnTime(before + [step])
  {
    hide OnTime, Run, Heard;
    assert (before + [step])[..|before|] == before;
  }

  /** What holds of a tap all of whose blocks have been punctual. */
  ghost predicate Kept(steps: seq<Step>) {
    ValidSteps(steps) && AllOnTime(steps)
  }

  lemma KeptThen(before: seq<Step>, step: Step)
    requires Kept(before) && (step.Serve? ==> step.input.Valid())
    requires OnTime(Run(before), Heard(before), step)
    ensures Kept(before + [step])
  {
    hide OnTime, Run, Heard, AllOnTime;
    OnTimeThen(before, step);
  }

  lemma {:induction false} PartsKept(before: seq<Step>, parts: seq<Services.Part>, cursor: int)
    requires Kept(before) && forall i | 0 <= i < |parts| :: parts[i].Block? ==> parts[i].input.Valid()
    requires AllPunctual(before, parts, cursor)
    ensures Kept(before + PartSteps(parts, cursor))
    decreases |parts|
  {
    hide Run, Heard, OnTime, AllOnTime, Punctual;
    if parts == [] {
      assert before + PartSteps(parts, cursor) == before;
    } else {
      var n := |parts| - 1;
      var done := before + PartSteps(parts[..n], cursor);
      PartsKept(before, parts[..n], cursor);
      if parts[n].Block? {
        PunctualIsOnTime(done, parts[n].input, parts[n].capacity, cursor);
        KeptThen(done, PartStep(parts[n], cursor));
      } else {
        PlayKept(done, PartStep(parts[n], cursor));
      }
      assert before + PartSteps(parts, cursor) == done + [PartStep(parts[n], cursor)];
    }
  }

  lemma BlockKept(before: seq<Step>, f: Services.Feed, cursor: int)
    requires f.Valid() && Kept(before) && AllPunctual(before, f.parts, cursor)
    ensures Kept(before + BlockSteps(f, cursor))
  {
    hide Kept, AllPunctual;
    PartsKept(before, f.parts, cursor);
    var done := before + PartSteps(f.parts, cursor);
    if f.plays {
      PlayKept(done, Play(cursor, Worker.RETURN_FRAMES));
      assert before + BlockSteps(f, cursor) == done + [Play(cursor, Worker.RETURN_FRAMES)];
    } else {
      assert before + BlockSteps(f, cursor) == done;
    }
  }

  lemma PlayKept(before: seq<Step>, step: Step)
    requires Kept(before) && !step.Serve?
    ensures Kept(before + [step])
  {
    hide Run, Heard, AllOnTime, Placed;
    KeptThen(before, step);
  }

  lemma {:induction false} SendsKept(
    before: seq<Step>, cursor: int, m: Worker.Moment, count: nat, h: Happening)
    requires h.Valid() && Kept(before)
    requires SendsPunctual(before, cursor, m, count, h)
    ensures Kept(before + SendSteps(cursor, m, count, h))
    decreases Worker.MAX_BLOCKS - count
  {
    hide AllPunctual, BlockSteps, AllOnTime, Worker.Moment.Current, Worker.Moment.Latency;
    if Sends(cursor, m, count) {
      var steps, next := BlockSteps(h.feed(count), cursor), cursor + Worker.RETURN_FRAMES;
      BlockKept(before, h.feed(count), cursor);
      SendsKept(before + steps, next, m, count + 1, h);
      assert before + steps + SendSteps(next, m, count + 1, h) == before + SendSteps(cursor, m, count, h);
    } else {
      assert before + SendSteps(cursor, m, count, h) == before;
    }
  }

  lemma {:induction false} SourceKept(h: seq<Happening>, id: nat)
    requires AllValid(h) && PunctualSource(h, id)
    ensures Kept(Steps(h, id))
  {
    hide Kept, State, SendsPunctual, SendSteps, Worker.Anchored, Worker.Reanchors;
    NothingKept();
    if h != [] {
      var earlier, last := h[..|h| - 1], h[|h| - 1];
      var w := State(earlier);
      SourceKept(earlier, id);
      if last.event.Turn? && id in Worker.Live(w) {
        var m := last.event.moment;
        AnchorKept(Steps(earlier, id), w, m);
        SendsKept(Steps(earlier, id) + AnchorSteps(w, m), Worker.Anchored(w, m).cursor, m, 0, last);
      }
    }
  }

  lemma NothingKept()
    ensures Kept([])
  {
  }

  lemma AnchorKept(before: seq<Step>, w: Worker.Worker, m: Worker.Moment)
    requires Kept(before)
    ensures Kept(before + AnchorSteps(w, m))
  {
    hide Kept, Worker.Reanchors;
    PlayKept(before, Reset);
    assert before + [] == before;
  }

  lemma {:induction false} PrefixKept(steps: seq<Step>, j: nat)
    requires Kept(steps) && j <= |steps|
    ensures Kept(steps[..j])
  {
    hide Run, Heard, OnTime;
    if j < |steps| {
      var before := steps[..|steps| - 1];
      PrefixKept(before, j);
      assert before[..j] == steps[..j];
    } else {
      assert steps[..j] == steps;
    }
  }

  /** A tap's life only grows; a step that plays adds its mix at the end. */
  lemma {:induction false} OpsGrow(steps: seq<Step>, j: nat)
    requires ValidSteps(steps) && j < |steps|
    ensures var ops, k := Run(steps).ops, |Run(steps[..j]).ops|;
            && k <= |ops| && ops[..k] == Run(steps[..j]).ops
            && (steps[j].Play? ==> k < |ops| && ops[k] == Op.Mix(steps[j].cursor, steps[j].frames))
  {
    hide Placed, Pcm;
    var n := |steps| - 1;
    if j < n {
      OpsGrow(steps[..n], j);
      assert steps[..n][..j] == steps[..j];
      assert Run(steps[..n]).ops <= Run(steps).ops;
    }
  }

  /** The life of the source's tap, at one of its mixes, is one the timeline theorems are about. */
  lemma ReadyToPlay(h: seq<Happening>, id: nat, j: nat)
    requires AllValid(h) && Serves(h, id) && id in State(h).taps
    requires Worker.AnchorsPastLatency(Events(h)) && Worker.WindowsRepresentable(State(h).taps[id].ops)
    requires j < |Steps(h, id)| && Steps(h, id)[j].Play?
    ensures var step, ops := Steps(h, id)[j], Run(Steps(h, id)[..j]).ops;
            && InRange(step.cursor) && InRange(step.cursor + step.frames)
            && ReadyFor(ops, step.cursor, Size(ops)) && SafeWindow(step.cursor, step.frames)
  {
    hide Serves, Worker.AnchorsPastLatency, Worker.Run, Run, Events, Steps, Advancing, AllSafe, SafeWindow, Floor,
         AtLeast, Size, AllValid;
    TapFollows(h, id);
    OpsGrow(Steps(h, id), j);
    Worker.CursorNeverReturns(Events(h));
    Worker.EveryTapIsSafe(Events(h), id);
    LifeReady(Run(Steps(h, id)).ops, |Run(Steps(h, id)[..j]).ops|);
  }

  lemma LifeReady(ops: seq<Op>, k: nat)
    requires AllRepresentable(ops) && Advancing(ops) && AllSafe(ops) && k < |ops| && ops[k].Mix?
    ensures InRange(ops[k].cursor) && InRange(ops[k].cursor + ops[k].frames)
    ensures ReadyFor(ops[..k], ops[k].cursor, Size(ops[..k])) && SafeWindow(ops[k].cursor, ops[k].frames)
  {
    hide Advancing, AllSafe, SafeWindow, Floor, AtLeast, Size;
    Worker.InOrderSoFar(ops, k);
    assert Representable(ops[k]);
  }

  /** From a source's ring to the mix, over whole runs of the worker: sources come and go, are attached and reset, rates
      and settings change, the worker falls behind and is anchored anew. As long as this source's blocks are punctual,
      every mix of its tap adds at each of its times exactly the next sample of the retimed stream since it was last
      emptied. */
  lemma WorkerPlaysSource(h: seq<Happening>, id: nat, j: nat, i: nat)
    requires AllValid(h) && Serves(h, id) && PunctualSource(h, id) && id in State(h).taps
    requires Worker.AnchorsPastLatency(Events(h)) && Worker.WindowsRepresentable(State(h).taps[id].ops)
    requires j < |Steps(h, id)| && Steps(h, id)[j].Play? && i < Steps(h, id)[j].frames
    ensures var step, before := Steps(h, id)[j], Steps(h, id)[..j];
            && InRange(step.cursor) && InRange(step.cursor + step.frames) && AllRepresentable(Run(before).ops)
            && Contribution(Run(before).ops, step.cursor, step.frames)[i] == At(Heard(before), step.cursor + i)
  {
    hide Serves, PunctualSource, Worker.AnchorsPastLatency, Worker.Run, Worker.WindowsRepresentable, Run, Events, Steps,
         State, Heard, AllOnTime, Advancing, AllSafe, SafeWindow, Floor, AtLeast, Size, AllValid, At, Contribution;
    ReadyToPlay(h, id, j);
    SourceKept(h, id);
    PrefixKept(Steps(h, id), j);
    MixPlaysTheStretch(Steps(h, id)[..j], Steps(h, id)[j].cursor, Steps(h, id)[j].frames, i);
  }

  /** If moreover the source has drifted without interruption since its tap was last reset, that is the retimed stream
      of all its blocks since then. */
  lemma WorkerPlaysDriftingSource(
    h: seq<Happening>, id: nat, capacity: nat, shift: int, gain: real, rate: nat, j: nat, i: nat)
    requires rate >= 200 && AllValid(h) && Serves(h, id) && PunctualSource(h, id) && id in State(h).taps
    requires Worker.AnchorsPastLatency(Events(h)) && Worker.WindowsRepresentable(State(h).taps[id].ops)
    requires j < |Steps(h, id)| && Steps(h, id)[j].Play? && i < Steps(h, id)[j].frames
    requires var tail := Stream.SinceReset(Steps(h, id)[..j]);
             Stream.DriftingSource(tail, rate) && Stream.Uninterrupted(tail, capacity, shift, gain, rate)
    ensures var step, before, tail := Steps(h, id)[j], Steps(h, id)[..j], Stream.SinceReset(Steps(h, id)[..j]);
            && InRange(step.cursor) && InRange(step.cursor + step.frames) && AllRepresentable(Run(before).ops)
            && Stream.Matching(Stream.Channel(tail, false), Stream.Channel(tail, true))
            && Stream.HeardAs(tail, gain, step.cursor + i, Contribution(Run(before).ops, step.cursor, step.frames)[i])
  {
    hide Serves, PunctualSource, Worker.AnchorsPastLatency, Worker.Run, Worker.WindowsRepresentable, Run, Events, Steps,
         State, AllOnTime, Advancing, AllSafe, SafeWindow, Floor, AtLeast, Size, AllValid, Contribution,
         Stream.DriftingSource, Stream.Uninterrupted, Stream.Matching, Stream.Channel, Stream.HeardAs,
         Stream.SinceReset;
    ReadyToPlay(h, id, j);
    SourceKept(h, id);
    PrefixKept(Steps(h, id), j);
    Stream.DriftingSourceIsPlayed(
      Steps(h, id)[..j], capacity, shift, gain, rate, Steps(h, id)[j].cursor, Steps(h, id)[j].frames, i);
  }
}
