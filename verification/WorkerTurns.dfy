/** What one turn of the return worker comes to (src/monitor-return.cpp): when it anchors its cursor anew, how many
    blocks it sends otherwise, and which taps are there. */
module WorkerTurns {
  import opened Words
  import opened StereoTimeline
  import opened TimelineHistory
  import opened MonitorWorker
  import Clocks = MonitorClock

  /** A tap after it was served for `n` blocks, the first of them block `count` of the turn, from `cursor` on. */
  function ServedFor(tap: Tap, m: Moment, id: nat, cursor: int, count: nat, n: nat): Tap {
    if n == 0 then tap
    else Serviced(ServedFor(tap, m, id, cursor, count, n - 1), m.service(count + n - 1, id), cursor + 128 * (n - 1))
  }

  lemma {:induction false} ServedFirst(tap: Tap, m: Moment, id: nat, cursor: int, count: nat, n: nat)
    requires n > 0
    ensures ServedFor(Serviced(tap, m.service(count, id), cursor), m, id, cursor + 128, count + 1, n - 1)
            == ServedFor(tap, m, id, cursor, count, n)
  {
    hide Serviced;
    if n > 1 {
      ServedFirst(tap, m, id, cursor, count, n - 1);
    } else {
      assert ServedFor(tap, m, id, cursor, count, 0) == tap;
    }
  }

  /** The whole blocks between the cursor and the point the latency behind the clock. */
  function BlocksDue(cursor: int, target: int): nat {
    if target <= cursor then 0 else (target - cursor) / 128
  }

  ghost predicate Sent(w: Worker, v: Worker, m: Moment, count: nat, n: nat) {
    && v.rate == w.rate && v.latencyNs == w.latencyNs && v.cursor == w.cursor + 128 * n && v.taps.Keys == w.taps.Keys
    && forall id | id in w.taps :: v.taps[id] == ServedFor(w.taps[id], m, id, w.cursor, count, n)
  }

  lemma {:induction false} BlocksAreSent(w: Worker, m: Moment, count: nat)
    requires count <= 32
    ensures Sent(w, SendBlocks(w, m, count), m, count, Min(32 - count, BlocksDue(w.cursor, m.Current() - m.Latency())))
    decreases 32 - count
  {
    hide Serviced, Moment.Current, Moment.Latency;
    var target := m.Current() - m.Latency();
    if w.cursor + 128 <= target && count < 32 {
      var next := w.(taps := map id | id in w.taps :: Serviced(w.taps[id], m.service(count, id), w.cursor),
                     cursor := w.cursor + 128);
      BlocksAreSent(next, m, count + 1);
      OneLess(w.cursor, target);
      var n := Min(32 - count, BlocksDue(w.cursor, target));
      forall id | id in w.taps
        ensures SendBlocks(w, m, count).taps[id] == ServedFor(w.taps[id], m, id, w.cursor, count, n)
      {
        ServedFirst(w.taps[id], m, id, w.cursor, count, n);
      }
    } else {
      NoneDue(w.cursor, target);
    }
  }

  lemma OneLess(cursor: int, target: int)
    requires cursor + 128 <= target
    ensures BlocksDue(cursor, target) == BlocksDue(cursor + 128, target) + 1
  {
  }

  lemma NoneDue(cursor: int, target: int)
    ensures cursor + 128 > target <==> BlocksDue(cursor, target) == 0
  {
  }

  /** The worker starts from the clock less the latency: at its first turn, when the rate or the latency has changed,
      or when it has fallen more than a second behind. */
  predicate StartsAnew(w: Worker, m: Moment) {
    || m.rate != w.rate || m.LatencyNs() != w.latencyNs || w.cursor == 0
    || w.cursor + m.Latency() + m.rate < m.Current()
  }

  ghost predicate IsLive(w: Worker, id: nat) {
    id in w.taps && !w.taps[id].dead
  }

  /** A turn that starts anew clears every live timeline and sends nothing; any other sends every block that is due,
      but no more than 32, to every live tap. After it only live taps are left, and unless it sent 32 the cursor is
      less than a block behind the point it works towards. */
  lemma TurnSends(w: Worker, m: Moment)
    ensures var v, target := Next(w, Turn(m)), m.Current() - m.Latency();
            && (forall id :: id in v.taps <==> IsLive(w, id))
            && v.rate == m.rate && v.latencyNs == m.LatencyNs()
            && if StartsAnew(w, m) then
                 && v.cursor == target
                 && forall id | id in v.taps :: v.taps[id].ops == w.taps[id].ops + [Clear] && !v.taps[id].dead
               else
                 var n := Min(32, BlocksDue(w.cursor, target));
                 && v.cursor == w.cursor + 128 * n && (n < 32 ==> target < v.cursor + 128)
                 && forall id | id in v.taps :: v.taps[id] == ServedFor(w.taps[id], m, id, w.cursor, 0, n)
  {
    hide Moment.Current, Moment.Latency, Moment.LatencyNs, Serviced, SendBlocks;
    var a, target := Anchored(w, m), m.Current() - m.Latency();
    BlocksAreSent(a, m, 0);
    NoneDue(a.cursor, target);
    BlocksLeft(a.cursor, target);
  }

  lemma BlocksLeft(cursor: int, target: int)
    ensures target < cursor + 128 * BlocksDue(cursor, target) + 128
  {
  }

  /** The source is there: it has been tracked, and not destroyed since. */
  predicate IsTracked(events: seq<Event>, id: nat) {
    if events == [] then false
    else
      var last := events[|events| - 1];
      if last == Track(id) then true
      else if last == Destroy(id) then false
      else IsTracked(events[..|events| - 1], id)
  }

  /** In every run the live taps are those of the sources that are there. */
  lemma {:induction false} LiveAreTracked(events: seq<Event>, id: nat)
    ensures IsLive(Run(events), id) <==> IsTracked(events, id)
  {
    hide SendBlocks, Reanchors;
    if events != [] {
      var w, e := Run(events[..|events| - 1]), events[|events| - 1];
      LiveAreTracked(events[..|events| - 1], id);
      if e.Turn? {
        TurnKeepsLive(w, e.moment, id);
      }
    }
  }

  lemma TurnKeepsLive(w: Worker, m: Moment, id: nat)
    ensures IsLive(Next(w, Turn(m)), id) <==> IsLive(w, id)
  {
    hide StartsAnew, Next;
    TurnSends(w, m);
    if IsLive(w, id) && !StartsAnew(w, m) {
      ServedStaysLive(w.taps[id], m, id, w.cursor, 0, Min(32, BlocksDue(w.cursor, m.Current() - m.Latency())));
    }
  }

  lemma {:induction false} ServedStaysLive(tap: Tap, m: Moment, id: nat, cursor: int, count: nat, n: nat)
    ensures ServedFor(tap, m, id, cursor, count, n).dead == tap.dead
  {
    if n > 0 {
      ServedStaysLive(tap, m, id, cursor, count, n - 1);
    }
  }
}
