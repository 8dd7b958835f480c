/** Servicing a tap, told by the ring: which of its blocks are served, and where the tap is reset. */
module TapDelivery {
  import opened Words
  import opened MonitorTap
  import opened TapService
  import Clocks = MonitorClock

  /** The block was captured under the present epoch, and its source is active. */
  predicate CurrentAt(ring: seq<Captured>, v: View, i: nat)
    requires i < |ring|
  {
    v.active && ring[i].mark.epoch == v.epoch
  }

  /** From `j` on, all current blocks before `n` have the layout. */
  ghost predicate SameLayout(ring: seq<Captured>, v: View, j: nat, n: nat, layout: Layout)
    requires n <= |ring|
  {
    forall k | j <= k < n :: CurrentAt(ring, v, k) ==> ring[k].mark.layout == layout
  }

  /** Before block `n` there is a resampler for the layout and the present rate: from before the service, or created
      for a block since which the layout has not changed. */
  ghost predicate HasResampler(link: Link, ring: seq<Captured>, v: View, n: nat, layout: Layout)
    requires n <= |ring|
  {
    || (link.resampling == Some(layout) && link.outputRate == v.rate && SameLayout(ring, v, 0, n, layout))
    || exists j | 0 <= j < n :: CurrentAt(ring, v, j) && ring[j].creates && SameLayout(ring, v, j, n, layout)
  }

  /** The block reaches the timeline: it is current, has a resampler, and the resampler gives something. */
  ghost predicate ServedAt(link: Link, ring: seq<Captured>, v: View, i: nat)
    requires i < |ring|
  {
    && CurrentAt(ring, v, i) && ring[i].output.Some?
    && (ring[i].creates || HasResampler(link, ring, v, i, ring[i].mark.layout))
  }

  /** The tap is reset in front of the block: it is current, and there is no resampler for it yet. */
  ghost predicate ResetAt(link: Link, ring: seq<Captured>, v: View, i: nat)
    requires i < |ring|
  {
    CurrentAt(ring, v, i) && !HasResampler(link, ring, v, i, ring[i].mark.layout)
  }

  /** What is served is this captured block, at the present rate, its sync delay kept within 20 seconds, and the
      timeline long enough for it: a second more than delay and look-behind, rounded up to seconds. */
  ghost predicate Plays(part: Part, c: Captured, v: View) {
    && part.Block? && c.output.Some? && part.mark == c.mark
    && part.input.rate == v.rate && part.input.timestamp == c.timestamp && part.input.arrival == c.arrival
    && part.input.left == c.output.value.left && part.input.right == c.output.value.right && part.input.gain == c.gain
    && (exists delay: int ::
          && (-20 * SECOND <= c.sync <= 20 * SECOND ==> delay == c.sync)
          && (c.sync > 20 * SECOND ==> delay == 20 * SECOND) && (c.sync < -20 * SECOND ==> delay == -20 * SECOND)
          && part.input.shift == Clocks.NsToFrames(delay - c.output.value.offset, v.rate)
          && LongEnough(part.capacity, v.rate, Max(0, delay) + v.lookbehindNs))
  }

  /** Whole seconds of frames: the least number of them that covers the time, and one more. */
  ghost predicate LongEnough(capacity: nat, rate: nat, ns: int) {
    exists seconds: nat :: capacity == rate * (1 + seconds) && (seconds - 1) * SECOND < ns <= seconds * SECOND
  }

  lemma BlockPlays(c: Captured, r: Resampled, v: View)
    requires c.output == Some(r)
    ensures |BlockOf(c, v)| == 1 && Plays(BlockOf(c, v)[0], c, v)
  {
    hide Clocks.NsToFrames;
    var delay := Delay(c.sync);
    CapacityIsEnough(v.rate, delay, v.lookbehindNs);
    assert -20 * SECOND <= c.sync <= 20 * SECOND ==> delay == c.sync;
  }

  lemma CapacityIsEnough(rate: nat, delay: int, lookbehindNs: nat)
    ensures LongEnough(Capacity(rate, delay, lookbehindNs), rate, Max(0, delay) + lookbehindNs)
  {
    var ns := Max(0, delay) + lookbehindNs;
    var seconds: nat := (ns + 999_999_999) / SECOND;
    assert (seconds - 1) * SECOND < ns <= seconds * SECOND;
  }

  /** The worker's side after `n` blocks. */
  function After(link: Link, ring: seq<Captured>, v: View, n: nat): Link
    requires n <= |ring|
  {
    Drain(link, ring[..n], v).0
  }

  lemma DrainThen(link: Link, ring: seq<Captured>, v: View, n: nat)
    requires n < |ring| && Drain(link, ring[..n], v).0.epoch == v.epoch
    ensures var (l, parts) := Drain(link, ring[..n], v);
            Drain(link, ring[..n + 1], v) ==
              if !CurrentAt(ring, v, n) then (l, parts)
              else if l.resampling == Some(ring[n].mark.layout) && l.outputRate == v.rate then
                (l, parts + BlockOf(ring[n], v))
              else
                (l.(resampling := if ring[n].creates then Some(ring[n].mark.layout) else None, outputRate := v.rate),
                 parts + [Fresh] + if ring[n].creates then BlockOf(ring[n], v) else [])
  {
    assert ring[..n + 1][..n] == ring[..n];
  }

  /** The resampler the worker holds is the one the ring tells of. */
  lemma {:induction false} ResamplerByIndex(link: Link, ring: seq<Captured>, v: View, n: nat)
    requires n <= |ring| && link.epoch == v.epoch
    ensures After(link, ring, v, n).epoch == v.epoch
    ensures forall layout ::
              (After(link, ring, v, n).resampling == Some(layout) && After(link, ring, v, n).outputRate == v.rate)
              <==> HasResampler(link, ring, v, n, layout)
  {
    hide BlockOf, Drain;
    if n == 0 {
      NothingDrained(link, v);
      assert ring[..0] == [];
    } else {
      ResamplerByIndex(link, ring, v, n - 1);
      DrainThen(link, ring, v, n - 1);
      forall layout
        ensures (After(link, ring, v, n).resampling == Some(layout) && After(link, ring, v, n).outputRate == v.rate)
                <==> HasResampler(link, ring, v, n, layout)
      {
        ResamplerThen(link, ring, v, n - 1, layout);
      }
    }
  }

  lemma NothingDrained(link: Link, v: View)
    ensures Drain(link, [], v) == (link, [])
  {
  }

  /** One block more. */
  lemma ResamplerThen(link: Link, ring: seq<Captured>, v: View, n: nat, layout: Layout)
    requires n < |ring|
    ensures HasResampler(link, ring, v, n + 1, layout) <==>
              if !CurrentAt(ring, v, n) then HasResampler(link, ring, v, n, layout)
              else ring[n].mark.layout == layout && (ring[n].creates || HasResampler(link, ring, v, n, layout))
  {
    forall j | 0 <= j <= n
      ensures SameLayout(ring, v, j, n + 1, layout)
              <==> SameLayout(ring, v, j, n, layout) && (CurrentAt(ring, v, n) ==> ring[n].mark.layout == layout)
    {
    }
    assert SameLayout(ring, v, n, n, layout);
  }

  // What is served, in order.

  /** Part `k` is about ring entry `at[k]`: its block, or the reset in front of it. Nothing is out of order or served
      twice. */
  ghost predicate Told(link: Link, ring: seq<Captured>, v: View, n: nat, parts: seq<Part>, at: seq<nat>)
    requires n <= |ring|
  {
    && |at| == |parts|
    && (forall k | 0 <= k < |parts| ::
          && at[k] < n
          && (if parts[k].Fresh? then ResetAt(link, ring, v, at[k])
              else ServedAt(link, ring, v, at[k]) && Plays(parts[k], ring[at[k]], v)))
    && (forall k, m | 0 <= k < m < |parts| :: at[k] < at[m] || (at[k] == at[m] && parts[k].Fresh? && parts[m].Block?))
    && (forall i | 0 <= i < n && ServedAt(link, ring, v, i) :: exists k :: Tells(parts, at, k, i, false))
    && (forall i | 0 <= i < n && ResetAt(link, ring, v, i) :: exists k :: Tells(parts, at, k, i, true))
  }

  ghost predicate Tells(parts: seq<Part>, at: seq<nat>, k: int, i: nat, reset: bool) {
    0 <= k < |parts| && k < |at| && at[k] == i && parts[k].Fresh? == reset
  }

  /** One ring entry more: a reset if there was no resampler for it, and its block if there is one now. */
  lemma ToldThen(link: Link, ring: seq<Captured>, v: View, n: nat, parts: seq<Part>, at: seq<nat>, more: seq<Part>)
    returns (at': seq<nat>)
    requires n < |ring| && Told(link, ring, v, n, parts, at)
    requires |more| <= 2 && (|more| == 2 ==> more[0].Fresh? && more[1].Block?)
    requires ResetAt(link, ring, v, n) <==> |more| > 0 && more[0].Fresh?
    requires ServedAt(link, ring, v, n) <==> |more| > 0 && more[|more| - 1].Block?
    requires |more| > 0 && more[|more| - 1].Block? ==> Plays(more[|more| - 1], ring[n], v)
    ensures Told(link, ring, v, n + 1, parts + more, at')
  {
    hide ServedAt, ResetAt, Plays;
    at' := at + seq(|more|, _ => n);
    var all := parts + more;
    forall i | 0 <= i < n && ServedAt(link, ring, v, i) ensures exists k :: Tells(all, at', k, i, false) {
      var k :| Tells(parts, at, k, i, false);
      assert Tells(all, at', k, i, false);
    }
    forall i | 0 <= i < n && ResetAt(link, ring, v, i) ensures exists k :: Tells(all, at', k, i, true) {
      var k :| Tells(parts, at, k, i, true);
      assert Tells(all, at', k, i, true);
    }
    if ServedAt(link, ring, v, n) {
      assert Tells(all, at', |all| - 1, n, false);
    }
    if ResetAt(link, ring, v, n) {
      assert Tells(all, at', |parts|, n, true);
    }
  }

  lemma {:induction false} DrainTold(link: Link, ring: seq<Captured>, v: View, n: nat) returns (at: seq<nat>)
    requires n <= |ring| && link.epoch == v.epoch
    ensures Told(link, ring, v, n, Drain(link, ring[..n], v).1, at)
  {
    hide Drain, BlockOf, HasResampler, Plays, Told, Tells;
    ResamplerByIndex(link, ring, v, n);
    if n == 0 {
      at := [];
      NothingDrained(link, v);
      NothingTold(link, ring, v);
      assert ring[..0] == [];
    } else {
      var before := DrainTold(link, ring, v, n - 1);
      ResamplerByIndex(link, ring, v, n - 1);
      DrainThen(link, ring, v, n - 1);
      at := EntryTold(link, ring, v, n - 1, before);
    }
  }

  lemma NothingTold(link: Link, ring: seq<Captured>, v: View)
    ensures Told(link, ring, v, 0, [], [])
  {
  }

  lemma EntryTold(link: Link, ring: seq<Captured>, v: View, n: nat, before: seq<nat>) returns (at: seq<nat>)
    requires n < |ring| && Told(link, ring, v, n, Drain(link, ring[..n], v).1, before)
    requires After(link, ring, v, n).epoch == v.epoch
    requires forall layout ::
               (After(link, ring, v, n).resampling == Some(layout) && After(link, ring, v, n).outputRate == v.rate)
               <==> HasResampler(link, ring, v, n, layout)
    ensures Told(link, ring, v, n + 1, Drain(link, ring[..n + 1], v).1, at)
  {
    hide Drain, BlockOf, HasResampler, Plays, Told;
    var (l, parts) := Drain(link, ring[..n], v);
    var c := ring[n];
    DrainThen(link, ring, v, n);
    var block := BlockOf(c, v);
    BlockIs(c, v);
    var more: seq<Part> :=
      if !CurrentAt(ring, v, n) then []
      else if HasResampler(link, ring, v, n, c.mark.layout) then block
      else [Fresh] + if c.creates then block else [];
    at := ToldThen(link, ring, v, n, parts, before, more);
    assert parts + [] == parts;
    assert parts + [Fresh] + block == parts + ([Fresh] + block);
    assert parts + [Fresh] + [] == parts + ([Fresh] + []);
  }

  lemma BlockIs(c: Captured, v: View)
    ensures if c.output.Some? then |BlockOf(c, v)| == 1 && BlockOf(c, v)[0].Block? && Plays(BlockOf(c, v)[0], c, v)
            else BlockOf(c, v) == []
  {
    hide Plays;
    if c.output.Some? {
      BlockPlays(c, c.output.value, v);
    }
  }

  /** The blocks the worker looks at in one service. */
  function LookedAt(v: View): (n: nat)
    ensures n <= |v.ring|
  {
    if |v.ring| < 128 then |v.ring| else 128
  }

  /** The worker's side when it begins with the ring. */
  function Beginning(link: Link, v: View): Link {
    if !link.attached || link.epoch != v.epoch || (link.outputRate != 0 && link.outputRate != v.rate) then
      Link(true, v.epoch, None, 0)
    else link
  }

  /** Exactly one reset in front of all blocks, if the source has just been attached, the epoch has changed or the
      output's rate has; else none. */
  lemma BeginningIsPrepared(link: Link, v: View)
    ensures Prepared(link, v) ==
              if !link.attached || link.epoch != v.epoch || (link.outputRate != 0 && link.outputRate != v.rate) then
                (Beginning(link, v), [Fresh])
              else (link, [])
  {
    var none: seq<Part> := [];
    assert none + [Fresh] == [Fresh];
  }

  /** What a service of a wanted source does, by the entries of its ring: the first 128 are looked at; those captured
      under the present epoch of an active source, with a resampler that gives something, are served, each once, in
      their order and as they were captured, and no others. The tap is reset at the beginning if the source was just
      attached, or epoch or rate changed, and else exactly in front of a current block that has no resampler yet. */
  lemma ServedByIndex(link: Link, v: View) returns (at: seq<nat>)
    requires v.ready && v.wanted && v.hasSource
    ensures var feed := Service(link, v).1;
            var first := !link.attached || link.epoch != v.epoch || (link.outputRate != 0 && link.outputRate != v.rate);
            && (first ==> |feed.parts| > 0 && feed.parts[0] == Fresh)
            && Told(Beginning(link, v), v.ring, v, LookedAt(v), if first then feed.parts[1..] else feed.parts, at)
  {
    hide Drain, Told;
    var l := Beginning(link, v);
    BeginningIsPrepared(link, v);
    at := DrainTold(l, v.ring, v, LookedAt(v));
    var parts := Drain(l, v.ring[..LookedAt(v)], v).1;
    assert ([Fresh] + parts)[1..] == parts && [] + parts == parts;
  }

  /** Otherwise the tap is reset if its source is not wanted, and left alone if the source cannot be had; and it is
      mixed exactly if the source is wanted, active and monitored to the end, and its epoch has not changed. */
  lemma ServiceWithoutBlocks(link: Link, v: View)
    ensures v.ready && !v.wanted ==>
              Service(link, v) == (Link(link.attached && !v.detaches, v.epoch, None, 0), Feed([Fresh], false))
    ensures !v.ready || (v.wanted && !v.hasSource) ==> Service(link, v) == (link, Feed([], false))
    ensures Service(link, v).1.plays <==>
              v.ready && v.wanted && v.hasSource && v.active && v.plays && v.epoch == v.epochAfter
  {
    hide Drain;
    if v.ready && v.wanted && v.hasSource {
      BeginningIsPrepared(link, v);
      DrainedCurrent(Beginning(link, v), v.ring[..LookedAt(v)], v);
    }
  }
}
