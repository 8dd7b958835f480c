/** The return worker as the loop it is: one turn re-anchors the cursor if it must, and catches up block by block. */
module ReturnWorker {
  import opened Words
  import opened StereoTimeline
  import opened TimelineHistory
  import opened MonitorWorker

  class ReturnWorker {
    var rate: nat
    var cursor: int
    var latencyNs: int
    var taps: map<nat, Tap>

    ghost function Model(): Worker
      reads this
    {
      Worker(rate, cursor, latencyNs, taps)
    }

    constructor ()
      ensures Model() == INITIAL
    {
      rate, cursor, latencyNs, taps := 0, 0, 0, map[];
    }

    /** A source appears, again if a tap of its name is about to go. */
    method Track(id: nat)
      modifies this
      ensures Model() == Next(old(Model()), Event.Track(id))
    {
      if id !in taps || taps[id].dead {
        taps := taps[id := Tap([], false)];
      }
    }

    method Destroy(id: nat)
      modifies this
      ensures Model() == Next(old(Model()), Event.Destroy(id))
    {
      if id in taps {
        taps := taps[id := taps[id].(dead := true)];
      }
    }

    /** Drops the dead taps. */
    method Collect()
      modifies this`taps
      ensures taps == Live(old(Model()))
    {
      var rest := taps.Keys;
      while rest != {}
        invariant rest <= taps.Keys <= old(taps).Keys
        invariant forall id | id in taps :: taps[id] == old(taps)[id] && (id in rest || !taps[id].dead)
        invariant forall id | id in old(taps) && !old(taps)[id].dead :: id in taps
        decreases |rest|
      {
        var id :| id in rest;
        rest := rest - {id};
        if taps[id].dead {
          taps := taps - {id};
        }
      }
      assert taps == Live(old(Model()));
    }

    /** Every timeline is cleared before a cursor that has jumped touches it. */
    method ResetTaps()
      modifies this`taps
      ensures taps.Keys == old(taps).Keys
      ensures forall id | id in taps :: taps[id] == old(taps)[id].(ops := old(taps)[id].ops + [Clear])
    {
      var rest := taps.Keys;
      while rest != {}
        invariant rest <= taps.Keys == old(taps).Keys
        invariant forall id | id in taps ::
            taps[id] == if id in rest then old(taps)[id] else old(taps)[id].(ops := old(taps)[id].ops + [Clear])
        decreases |rest|
      {
        var id :| id in rest;
        rest := rest - {id};
        taps := taps[id := taps[id].(ops := taps[id].ops + [Clear])];
      }
    }

    /** Every tap is served for the block at the cursor. */
    method ServeTaps(m: Moment, count: nat)
      modifies this`taps
      ensures taps.Keys == old(taps).Keys
      ensures forall id | id in taps :: taps[id] == Serviced(old(taps)[id], m.service(count, id), cursor)
    {
      hide Serviced;
      var rest := taps.Keys;
      while rest != {}
        invariant rest <= taps.Keys == old(taps).Keys
        invariant forall id | id in taps ::
            taps[id] == if id in rest then old(taps)[id] else Serviced(old(taps)[id], m.service(count, id), cursor)
        decreases |rest|
      {
        var id :| id in rest;
        rest := rest - {id};
        taps := taps[id := Serviced(taps[id], m.service(count, id), cursor)];
      }
    }

    /** The cursor starts anew after a change of rate or latency, and when it is more than a second late. */
    method Anchor(m: Moment)
      modifies this
      ensures Model() == Anchored(old(Model()), m)
    {
      Collect();
      if rate != m.rate || latencyNs != m.LatencyNs() || cursor == 0 || m.Current() - cursor > m.Latency() + m.rate {
        cursor := m.Current() - m.Latency();
        ResetTaps();
      }
      rate, latencyNs := m.rate, m.LatencyNs();
    }

    /** Serves the block at the cursor and moves on. */
    method SendBlock(m: Moment, count: nat)
      requires count < MAX_BLOCKS && cursor + RETURN_FRAMES <= m.Current() - m.Latency()
      modifies this`taps, this`cursor
      ensures SendBlocks(Model(), m, count + 1) == SendBlocks(old(Model()), m, count)
    {
      hide Serviced, Moment.Current, Moment.Latency;
      ServeTaps(m, count);
      cursor := cursor + RETURN_FRAMES;
      assert taps == map id | id in old(taps) :: Serviced(old(taps)[id], m.service(count, id), old(cursor));
    }

    method Turn(m: Moment)
      modifies this
      ensures Model() == Next(old(Model()), Event.Turn(m))
    {
      hide Anchored, Moment.Current, Moment.Latency;
      Anchor(m);
      var target := m.Current() - m.Latency();
      var count := 0;
      while cursor + RETURN_FRAMES <= target && count < MAX_BLOCKS
        invariant count <= MAX_BLOCKS
        invariant SendBlocks(Model(), m, count) == SendBlocks(Anchored(old(Model()), m), m, 0)
        decreases MAX_BLOCKS - count
      {
        SendBlock(m, count);
        count := count + 1;
      }
    }
  }
}
