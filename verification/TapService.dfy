/** What servicing a tap comes to (src/monitor-return.cpp): when the worker resets it, which captured blocks it
    serves, and whether it is mixed. */
module TapService {
  import opened Words
  import opened MonitorTap
  import Clocks = MonitorClock
  import Worker = MonitorWorker

  const MAX_PROCESSED: nat := 128
  const MAX_SYNC: int := 20_000_000_000

  /** The source's sample rate and speakers when a block was captured. */
  datatype Layout = Layout(rate: nat, speakers: nat)

  /** Under which epoch and layout a block was captured. */
  datatype Mark = Mark(epoch: nat, layout: Layout)

  /** What the resampler makes of a block, and by how many nanoseconds it is late. */
  datatype Resampled = Resampled(left: seq<real>, right: seq<real>, offset: nat)
  {
    predicate Valid() {
      left != [] && |left| == |right|
    }
  }

  /** A block in the ring. A resampler for its layout may fail to be created, and may give nothing for the block. */
  datatype Captured = Captured(
    mark: Mark, timestamp: nat, arrival: nat, sync: int, gain: real, creates: bool, output: Option<Resampled>)

  /** What happens to the tap, in order: it is reset, or it serves a block. */
  datatype Part = Fresh | Block(mark: Mark, input: Input, capacity: nat)

  datatype Feed = Feed(parts: seq<Part>, plays: bool)
  {
    predicate Valid() {
      forall i | 0 <= i < |parts| :: parts[i].Block? ==> parts[i].input.Valid()
    }
  }

  /** The worker's side of a tap: its epoch, the layout its resampler is for, and the rate it resamples to. */
  datatype Link = Link(attached: bool, epoch: nat, resampling: Option<Layout>, outputRate: nat)

  const NEW_LINK := Link(false, 0, None, 0)

  /** What the worker reads while it services the tap; `wanted` is that the return is enabled and the source monitored
      and still there, and `plays` that the source is active and still monitored at the end. */
  datatype View = View(
    ready: bool, wanted: bool, detaches: bool, hasSource: bool, active: bool, plays: bool,
    rate: Rate, lookbehindNs: nat, epoch: nat, epochAfter: nat, ring: seq<Captured>)
  {
    predicate Valid() {
      forall i | 0 <= i < |ring| :: ring[i].output.Some? ==> ring[i].output.value.Valid()
    }
  }

  function ResetLink(link: Link, epoch: nat): Link {
    link.(epoch := epoch, resampling := None, outputRate := 0)
  }

  function Delay(sync: int): int {
    Max(-MAX_SYNC, Min(sync, MAX_SYNC))
  }

  /** A second more than the sync delay and the look-behind take. */
  function Capacity(rate: nat, delay: int, lookbehindNs: nat): nat {
    var length: nat := Max(0, delay) + lookbehindNs + 999_999_999;
    DivisionFloor(length, 1_000_000_000);
    ProductMonotone(0, 1 + length / 1_000_000_000, rate);
    rate * (1 + length / 1_000_000_000)
  }

  function InputOf(c: Captured, r: Resampled, rate: Rate): Input {
    Input(rate, c.timestamp, c.arrival, r.left, r.right, Clocks.NsToFrames(Delay(c.sync) - r.offset, rate), c.gain)
  }

  /** The block, if the resampler gives one. */
  function BlockOf(c: Captured, v: View): seq<Part> {
    match c.output
    case None => []
    case Some(r) => [Block(c.mark, InputOf(c, r, v.rate), Capacity(v.rate, Delay(c.sync), v.lookbehindNs))]
  }

  /** The ring is emptied; blocks of another epoch, and those of an inactive source, are dropped. */
  function Drain(link: Link, ring: seq<Captured>, v: View): (Link, seq<Part>) {
    if ring == [] then (link, [])
    else
      var (l, parts) := Drain(link, ring[..|ring| - 1], v);
      var c := ring[|ring| - 1];
      if c.mark.epoch != l.epoch || !v.active then (l, parts)
      else if l.resampling == Some(c.mark.layout) && l.outputRate == v.rate then (l, parts + BlockOf(c, v))
      else
        (l.(resampling := if c.creates then Some(c.mark.layout) else None, outputRate := v.rate),
         parts + [Fresh] + if c.creates then BlockOf(c, v) else [])
  }

  /** The resets in front of the blocks: after attaching the source, a new epoch, or another output rate. */
  function Prepared(link: Link, v: View): (Link, seq<Part>) {
    var (l1, p1) := if link.attached then (link, []) else (ResetLink(link.(attached := true), v.epoch), [Fresh]);
    var (l2, p2) := if l1.epoch != v.epoch then (ResetLink(l1, v.epoch), p1 + [Fresh]) else (l1, p1);
    if l2.outputRate != 0 && l2.outputRate != v.rate then (ResetLink(l2, v.epoch), p2 + [Fresh]) else (l2, p2)
  }

  function Service(link: Link, v: View): (Link, Feed) {
    if !v.ready then (link, Feed([], false))
    else if !v.wanted then
      (ResetLink(link.(attached := link.attached && !v.detaches), v.epoch), Feed([Fresh], false))
    else if !v.hasSource then (link, Feed([], false))
    else
      var (l, resets) := Prepared(link, v);
      var n := if |v.ring| < MAX_PROCESSED then |v.ring| else MAX_PROCESSED;
      var (l', parts) := Drain(l, v.ring[..n], v);
      (l', Feed(resets + parts, v.active && v.plays && l'.epoch == v.epochAfter))
  }

  /** The worker services the tap, or anchors its cursor anew. */
  datatype Visit = Serviced(view: View) | Anchored(epoch: nat)

  function Next(link: Link, visit: Visit): (Link, seq<Part>) {
    match visit
    case Serviced(v) => var (l, feed) := Service(link, v); (l, feed.parts)
    case Anchored(epoch) => (ResetLink(link, epoch), [Fresh])
  }

  /** All that has happened to a tap. */
  function Life(visits: seq<Visit>): (Link, seq<Part>) {
    if visits == [] then (NEW_LINK, [])
    else
      var (link, parts) := Life(visits[..|visits| - 1]);
      var (l, more) := Next(link, visits[|visits| - 1]);
      (l, parts + more)
  }

  // The blocks between two resets.

  /** Two blocks of one capture epoch and layout, resampled to the same rate. */
  predicate SameKind(a: Part, b: Part) {
    a.Block? && b.Block? ==> a.mark == b.mark && a.input.rate == b.input.rate
  }

  ghost predicate Uniform(parts: seq<Part>) {
    parts != [] ==>
      var n := |parts| - 1;
      Uniform(parts[..n]) && (n > 0 ==> SameKind(parts[n - 1], parts[n]))
  }

  /** The worker's side knows what the last block was. */
  ghost predicate Follows(link: Link, parts: seq<Part>) {
    parts != [] && parts[|parts| - 1].Block? ==>
      var b := parts[|parts| - 1];
      && b.mark.epoch == link.epoch && link.resampling == Some(b.mark.layout) && b.input.rate == link.outputRate
  }

  ghost predicate Tidy(link: Link, parts: seq<Part>) {
    Uniform(parts) && Follows(link, parts)
  }

  lemma TidyThen(parts: seq<Part>, part: Part)
    requires Uniform(parts) && (parts != [] ==> SameKind(parts[|parts| - 1], part))
    ensures Uniform(parts + [part])
  {
    assert (parts + [part])[..|parts|] == parts;
  }

  lemma FreshTidy(link: Link, parts: seq<Part>)
    requires Uniform(parts)
    ensures Tidy(link, parts + [Fresh])
  {
    TidyThen(parts, Fresh);
  }

  lemma BlockTidy(link: Link, parts: seq<Part>, c: Captured, v: View)
    requires Tidy(link, parts) && c.mark.epoch == link.epoch
    requires link.resampling == Some(c.mark.layout) && link.outputRate == v.rate
    ensures Tidy(link, parts + BlockOf(c, v))
  {
    if c.output.Some? {
      TidyThen(parts, BlockOf(c, v)[0]);
    } else {
      assert parts + BlockOf(c, v) == parts;
    }
  }

  lemma {:induction false} DrainTidy(link: Link, before: seq<Part>, ring: seq<Captured>, v: View)
    requires Tidy(link, before)
    ensures var (l, parts) := Drain(link, ring, v); Tidy(l, before + parts) && l.epoch == link.epoch
  {
    hide Tidy, BlockOf;
    if ring == [] {
      assert before + [] == before;
    } else {
      DrainTidy(link, before, ring[..|ring| - 1], v);
      var (l, parts) := Drain(link, ring[..|ring| - 1], v);
      if ring[|ring| - 1].mark.epoch == l.epoch && v.active {
        CapturedTidy(l, before, parts, ring[|ring| - 1], v);
      }
    }
  }

  /** One captured block. */
  lemma CapturedTidy(l: Link, before: seq<Part>, parts: seq<Part>, c: Captured, v: View)
    requires Tidy(l, before + parts) && c.mark.epoch == l.epoch && v.active
    ensures l.resampling == Some(c.mark.layout) && l.outputRate == v.rate ==> Tidy(l, before + (parts + BlockOf(c, v)))
    ensures Tidy(l.(resampling := if c.creates then Some(c.mark.layout) else None, outputRate := v.rate),
                 before + (parts + [Fresh] + if c.creates then BlockOf(c, v) else []))
  {
    hide Follows, Uniform, BlockOf;
    var made := l.(resampling := if c.creates then Some(c.mark.layout) else None, outputRate := v.rate);
    if l.resampling == Some(c.mark.layout) && l.outputRate == v.rate {
      BlockTidy(l, before + parts, c, v);
      assert before + (parts + BlockOf(c, v)) == before + parts + BlockOf(c, v);
    }
    FreshTidy(made, before + parts);
    if c.creates {
      BlockTidy(made, before + parts + [Fresh], c, v);
      assert before + (parts + [Fresh] + BlockOf(c, v)) == before + parts + [Fresh] + BlockOf(c, v);
    } else {
      assert before + (parts + [Fresh] + []) == before + parts + [Fresh];
    }
  }

  /** Resets do no harm. */
  lemma PreparedTidy(link: Link, before: seq<Part>, v: View)
    requires Tidy(link, before)
    ensures var (l, resets) := Prepared(link, v);
            && Tidy(l, before + resets) && l.epoch == v.epoch
            && forall i | 0 <= i < |resets| :: resets[i] == Fresh
  {
    hide Follows, Uniform;
    var (l, resets) := Prepared(link, v);
    FreshTidy(l, before);
    FreshTidy(l, before + [Fresh]);
    FreshTidy(l, before + [Fresh] + [Fresh]);
    assert before + [] == before;
    assert before + [Fresh, Fresh] == before + [Fresh] + [Fresh];
    assert before + [Fresh, Fresh, Fresh] == before + [Fresh] + [Fresh] + [Fresh];
    assert resets == [] || resets == [Fresh] || resets == [Fresh, Fresh] || resets == [Fresh, Fresh, Fresh];
    assert resets == [] ==> l == link;
  }

  lemma NextTidy(link: Link, before: seq<Part>, visit: Visit)
    requires Tidy(link, before)
    ensures var (l, more) := Next(link, visit); Tidy(l, before + more)
  {
    hide Tidy, Prepared, Drain;
    assert before + [] == before;
    match visit
    case Anchored(epoch) => TidyReset(link, before, ResetLink(link, epoch));
    case Serviced(v) =>
      if v.ready && !v.wanted {
        TidyReset(link, before, Service(link, v).0);
      } else if v.ready && v.hasSource {
        var (l, resets) := Prepared(link, v);
        var n := if |v.ring| < MAX_PROCESSED then |v.ring| else MAX_PROCESSED;
        PreparedTidy(link, before, v);
        DrainTidy(l, before + resets, v.ring[..n], v);
        assert before + (resets + Drain(l, v.ring[..n], v).1) == before + resets + Drain(l, v.ring[..n], v).1;
      }
  }

  lemma TidyReset(link: Link, before: seq<Part>, l: Link)
    requires Tidy(link, before)
    ensures Tidy(l, before + [Fresh])
  {
    FreshTidy(l, before);
  }

  lemma {:induction false} LifeTidy(visits: seq<Visit>)
    ensures Tidy(Life(visits).0, Life(visits).1)
  {
    hide Next, Tidy;
    if visits == [] {
      NothingTidy();
    } else {
      LifeTidy(visits[..|visits| - 1]);
      NextTidy(Life(visits[..|visits| - 1]).0, Life(visits[..|visits| - 1]).1, visits[|visits| - 1]);
    }
  }

  lemma NothingTidy()
    ensures Tidy(NEW_LINK, [])
  {
  }

  lemma {:induction false} UniformBlocks(parts: seq<Part>, i: nat, j: nat)
    requires Uniform(parts) && i <= j < |parts| && forall k | i <= k <= j :: parts[k].Block?
    ensures SameKind(parts[i], parts[j])
  {
    var n := |parts| - 1;
    if j < n {
      UniformBlocks(parts[..n], i, j);
    } else if i < j {
      UniformBlocks(parts[..n], i, j - 1);
    }
  }

  /** Whatever the signals, the ring and the settings do: the blocks a tap serves between two resets were all captured
      under one epoch and one layout, and resampled to one rate. */
  lemma OneKindBetweenResets(visits: seq<Visit>, i: nat, j: nat)
    requires i <= j < |Life(visits).1| && forall k | i <= k <= j :: Life(visits).1[k].Block?
    ensures SameKind(Life(visits).1[i], Life(visits).1[j])
  {
    hide Life, Uniform, SameKind;
    LifeTidy(visits);
    UniformBlocks(Life(visits).1, i, j);
  }

  /** No block is served that was captured before the last epoch the worker has seen. */
  lemma ServedBlocksAreCurrent(link: Link, v: View, i: nat)
    requires i < |Service(link, v).1.parts| && Service(link, v).1.parts[i].Block?
    ensures Service(link, v).1.parts[i].mark.epoch == v.epoch
  {
    hide Drain, Prepared, Tidy;
    var (l, resets) := Prepared(link, v);
    var n := if |v.ring| < MAX_PROCESSED then |v.ring| else MAX_PROCESSED;
    PreparedFresh(link, v);
    DrainedCurrent(l, v.ring[..n], v);
  }

  lemma PreparedFresh(link: Link, v: View)
    ensures Prepared(link, v).0.epoch == v.epoch
    ensures forall i | 0 <= i < |Prepared(link, v).1| :: Prepared(link, v).1[i] == Fresh
  {
  }

  lemma {:induction false} DrainedCurrent(link: Link, ring: seq<Captured>, v: View)
    ensures Drain(link, ring, v).0.epoch == link.epoch
    ensures forall i | 0 <= i < |Drain(link, ring, v).1| ::
              Drain(link, ring, v).1[i].Block? ==> Drain(link, ring, v).1[i].mark.epoch == link.epoch
  {
    hide InputOf, Capacity, Delay;
    if ring != [] {
      DrainedCurrent(link, ring[..|ring| - 1], v);
    }
  }

  /** A source is reset when it is attached, before any of its blocks. */
  lemma AttachingResets(link: Link, v: View)
    requires v.ready && v.wanted && v.hasSource && !link.attached
    ensures Service(link, v).1.parts != [] && Service(link, v).1.parts[0] == Fresh && Service(link, v).0.attached
  {
    hide Drain;
    var (l, resets) := Prepared(link, v);
    var n := if |v.ring| < MAX_PROCESSED then |v.ring| else MAX_PROCESSED;
    assert resets[0] == Fresh;
    DrainKeepsAttached(l, v.ring[..n], v);
  }

  lemma {:induction false} DrainKeepsAttached(link: Link, ring: seq<Captured>, v: View)
    ensures Drain(link, ring, v).0.attached == link.attached
  {
    if ring != [] {
      DrainKeepsAttached(link, ring[..|ring| - 1], v);
    }
  }

  /** The block of the lost frame in its ring, and what the worker sees when it comes for it: it attaches the source,
      which bumps the epoch, and the block is captured at once. */
  const EARLY_BLOCK := Captured(
    Mark(2, Layout(44_100, 2)), 0, Worker.SECOND_TURN, 0, 1.0, true, Some(Resampled([1.0], [1.0], 20_834)))

  const EARLY_VIEW := View(true, true, false, true, true, true, 48_000, 0, 2, 2, [EARLY_BLOCK])

  /** That service resets the tap twice, serves the block, and mixes. */
  lemma EarlyService()
    ensures var feed := Service(NEW_LINK, EARLY_VIEW).1;
            feed.plays && feed.parts == [Fresh, Fresh, Block(EARLY_BLOCK.mark, EARLY, 48_000)]
  {
    hide Clocks.NsToFrames;
    var v := EARLY_VIEW;
    var attached := Link(true, 2, None, 0);
    assert Prepared(NEW_LINK, v) == (attached, [Fresh]);
    assert v.ring[..1] == [EARLY_BLOCK];
    assert [EARLY_BLOCK][..0] == [];
    assert Drain(attached, [], v) == (attached, []);
    assert Drain(attached, [EARLY_BLOCK], v).1 == [] + [Fresh] + BlockOf(EARLY_BLOCK, v);
    assert Capacity(48_000, 0, 0) == 48_000;
    assert BlockOf(EARLY_BLOCK, EARLY_VIEW) == [Block(EARLY_BLOCK.mark, EARLY, 48_000)];
  }

  /** What a service comes to is a feed of the worker's runs. */
  lemma ServiceIsValid(link: Link, v: View)
    requires v.Valid()
    ensures Service(link, v).1.Valid()
  {
    hide Drain, Prepared;
    var (l, resets) := Prepared(link, v);
    var n := if |v.ring| < MAX_PROCESSED then |v.ring| else MAX_PROCESSED;
    PreparedFresh(link, v);
    DrainedValid(l, v.ring[..n], v);
  }

  lemma {:induction false} DrainedValid(link: Link, ring: seq<Captured>, v: View)
    requires forall i | 0 <= i < |ring| :: ring[i].output.Some? ==> ring[i].output.value.Valid()
    ensures forall i | 0 <= i < |Drain(link, ring, v).1| ::
              Drain(link, ring, v).1[i].Block? ==> Drain(link, ring, v).1[i].input.Valid()
  {
    hide Capacity, Delay, Clocks.NsToFrames;
    if ring != [] {
      DrainedValid(link, ring[..|ring| - 1], v);
    }
  }
}
