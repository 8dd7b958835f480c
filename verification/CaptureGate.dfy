/** The rate gate in front of the Program capture (src/frame-sender.cpp). */
module CaptureGate {
  import opened Words

  datatype Gate = Gate(next: nat, previous: nat)

  const OPEN := Gate(0, 0)

  function Admit(g: Gate, timestamp: nat, period: nat): (Gate, bool) {
    var next := if timestamp < g.previous then 0 else g.next;
    if next != 0 && timestamp < next then (Gate(next, timestamp), false)
    else if next == 0 || timestamp - next > period then (Gate(timestamp + period, timestamp), true)
    else (Gate(next + period, timestamp), true)
  }

  class CaptureGate {
    const fps: nat
    var nextTimestamp: nat
    var previousTimestamp: nat

    constructor (fps: nat)
      requires 1 <= fps <= 30
      ensures this.fps == fps && nextTimestamp == previousTimestamp == 0
    {
      this.fps, nextTimestamp, previousTimestamp := fps, 0, 0;
    }

    method Capture(timestamp: nat) returns (passes: bool)
      requires 1 <= fps <= 30
      modifies this
      ensures (Gate(nextTimestamp, previousTimestamp), passes)
              == Admit(old(Gate(nextTimestamp, previousTimestamp)), timestamp, 1_000_000_000 / fps)
    {
      var period := 1_000_000_000 / fps;
      if timestamp < previousTimestamp {
        nextTimestamp := 0;
      }
      previousTimestamp := timestamp;
      if nextTimestamp != 0 && timestamp < nextTimestamp {
        return false;
      }
      if nextTimestamp == 0 || timestamp - nextTimestamp > period {
        nextTimestamp := timestamp + period;
      } else {
        nextTimestamp := nextTimestamp + period;
      }
      passes := true;
    }
  }

  predicate NonDecreasing(times: seq<nat>) {
    forall i, j | 0 <= i <= j < |times| :: times[i] <= times[j]
  }

  function After(times: seq<nat>, period: nat): Gate {
    if times == [] then OPEN else Admit(After(times[..|times| - 1], period), times[|times| - 1], period).0
  }

  /** The timestamps that pass. */
  function Passed(times: seq<nat>, period: nat): seq<nat> {
    if times == [] then []
    else
      var n := |times| - 1;
      var before := Passed(times[..n], period);
      if Admit(After(times[..n], period), times[n], period).1 then before + [times[n]] else before
  }

  /** `k` periods, as a sum. */
  function Periods(k: nat, period: nat): nat {
    if k == 0 then 0 else Periods(k - 1, period) + period
  }

  lemma {:induction false} PeriodsIsProduct(k: nat, period: nat)
    ensures Periods(k, period) == k * period
  {
    if k > 0 {
      PeriodsIsProduct(k - 1, period);
      Distribute(period, k - 1, 1);
    }
  }

  /** The gate's next opening lies between the latest passed frame and one period after it. */
  ghost predicate Opening(passed: seq<nat>, next: nat, period: nat) {
    if passed == [] then next == 0
    else 0 < next && passed[|passed| - 1] <= next <= passed[|passed| - 1] + period
  }

  /** From passed frame `i` on, frames and the next opening are a period apart each, up to `slack` periods in all. */
  ghost predicate Spaced(passed: seq<nat>, next: nat, period: nat, i: nat, slack: nat)
    requires i < |passed| && slack <= 1
  {
    && next >= passed[i] + Periods(|passed| - i - slack, period)
    && forall j | i + slack <= j < |passed| :: passed[j] >= passed[i] + Periods(j - i - slack, period)
  }

  lemma SpacedStep(passed: seq<nat>, next: nat, period: nat, i: nat, slack: nat, time: nat, next': nat)
    requires i < |passed| && slack <= 1 && Spaced(passed, next, period, i, slack)
    requires time >= next && next' >= next + period
    ensures Spaced(passed + [time], next', period, i, slack)
  {
    assert Periods(|passed| + 1 - i - slack, period) == Periods(|passed| - i - slack, period) + period;
  }

  lemma {:induction false} PassedOpening(times: seq<nat>, period: nat)
    requires NonDecreasing(times) && period > 0
    ensures Opening(Passed(times, period), After(times, period).next, period)
    ensures times != [] ==> After(times, period).previous == times[|times| - 1]
    ensures Passed(times, period) != [] ==>
              times != [] && Passed(times, period)[|Passed(times, period)| - 1] <= times[|times| - 1]
  {
    if times != [] {
      PassedOpening(times[..|times| - 1], period);
    }
  }

  lemma {:induction false} PassedSpaced(times: seq<nat>, period: nat, i: nat, slack: nat)
    requires NonDecreasing(times) && period > 0 && i < |Passed(times, period)| && (slack == 1 || (slack == 0 && i == 0))
    ensures Spaced(Passed(times, period), After(times, period).next, period, i, slack)
  {
    hide Spaced;
    var n := |times| - 1;
    var before, g := Passed(times[..n], period), After(times[..n], period);
    PassedOpening(times[..n], period);
    if i < |before| {
      PassedSpaced(times[..n], period, i, slack);
      if Admit(g, times[n], period).1 {
        SpacedStep(before, g.next, period, i, slack, times[n], After(times, period).next);
      }
    } else {
      LatestSpaced(Passed(times, period), After(times, period).next, period, i, slack);
    }
  }

  lemma LatestSpaced(passed: seq<nat>, next: nat, period: nat, i: nat, slack: nat)
    requires |passed| == i + 1 && slack <= 1
    requires next >= passed[i] + (1 - slack) * period
    ensures Spaced(passed, next, period, i, slack)
  {
    assert Periods(1, period) == Periods(0, period) + period;
  }

  /** With timestamps that never go back, the (k+1)-th passed frame comes at least k periods after the first. */
  lemma RateIsLimited(times: seq<nat>, period: nat, k: nat)
    requires NonDecreasing(times) && period > 0 && k < |Passed(times, period)|
    ensures Passed(times, period)[k] >= Passed(times, period)[0] + k * period
  {
    PassedSpaced(times, period, 0, 0);
    PeriodsIsProduct(k, period);
  }

  /** Any window of time that contains the passed frames `i` to `j` is long enough for all but two of them at full
      rate. */
  lemma WindowIsLimited(times: seq<nat>, period: nat, i: nat, j: nat, length: nat)
    requires NonDecreasing(times) && period > 0 && i <= j < |Passed(times, period)|
    requires Passed(times, period)[j] - Passed(times, period)[i] <= length
    ensures j - i + 1 <= length / period + 2
  {
    if j > i {
      PassedSpaced(times, period, i, 1);
      PeriodsIsProduct(j - i - 1, period);
      hide *;
      AtMostQuotient(j - i - 1, length, period);
    } else {
      DivisionFloor(length, period);
    }
  }

  lemma AtMostQuotient(k: nat, length: nat, period: nat)
    requires period > 0 && k * period <= length
    ensures k <= length / period
  {
    DivisionFloor(length, period);
    if k > length / period {
      ProductMonotone(length / period + 1, k, period);
    }
  }

  /** No gap between consecutive source frames exceeds one period. */
  predicate Dense(times: seq<nat>, period: nat) {
    times != [] ==>
      var n := |times| - 1;
      Dense(times[..n], period) && (n > 0 ==> times[n - 1] <= times[n] <= times[n - 1] + period)
  }

  /** The gate opens at fixed multiples of the period after the first passed frame. */
  ghost predicate OnGrid(passed: seq<nat>, next: nat, last: nat, period: nat) {
    && passed != []
    && next == passed[0] + Periods(|passed|, period)
    && last < next
    && forall k | 0 <= k < |passed| :: passed[0] + Periods(k, period) <= passed[k] < passed[0] + Periods(k + 1, period)
  }

  lemma GridStep(passed: seq<nat>, next: nat, last: nat, time: nat, period: nat)
    requires OnGrid(passed, next, last, period) && period > 0 && last <= time <= last + period
    ensures if time < next then OnGrid(passed, next, time, period)
            else time - next <= period && OnGrid(passed + [time], next + period, time, period)
  {
    assert Periods(|passed| + 1, period) == Periods(|passed|, period) + period;
    assert (passed + [time])[0] == passed[0];
  }

  lemma {:induction false} DenseStaysOnGrid(times: seq<nat>, period: nat)
    requires Dense(times, period) && period > 0 && times != []
    ensures OnGrid(Passed(times, period), After(times, period).next, times[|times| - 1], period)
    ensures After(times, period).previous == times[|times| - 1]
  {
    hide OnGrid;
    var n := |times| - 1;
    if n == 0 {
      FirstOnGrid(times, period);
    } else {
      DenseStaysOnGrid(times[..n], period);
      GridNonZero(Passed(times[..n], period), After(times[..n], period).next, times[n - 1], period);
      GridStep(Passed(times[..n], period), After(times[..n], period).next, times[n - 1], times[n], period);
    }
  }

  lemma GridNonZero(passed: seq<nat>, next: nat, last: nat, period: nat)
    requires OnGrid(passed, next, last, period)
    ensures next > 0
  {
  }

  lemma FirstOnGrid(times: seq<nat>, period: nat)
    requires period > 0 && |times| == 1
    ensures OnGrid(Passed(times, period), After(times, period).next, times[0], period)
    ensures After(times, period).previous == times[0]
  {
    assert times[..0] == [];
    assert Passed(times, period) == [times[0]];
    assert Periods(1, period) == Periods(0, period) + period;
  }

  /** When the source never pauses for more than a period the gate does not drift: the (k+1)-th passed frame falls in
      the k-th period after the first, however long the run. */
  lemma RateDoesNotDrift(times: seq<nat>, period: nat, k: nat)
    requires Dense(times, period) && period > 0 && k < |Passed(times, period)|
    ensures var first := Passed(times, period)[0];
            first + k * period <= Passed(times, period)[k] < first + (k + 1) * period
  {
    DenseStaysOnGrid(times, period);
    PeriodsIsProduct(k, period);
    PeriodsIsProduct(k + 1, period);
  }

  lemma {:induction false} OpeningNear(times: seq<nat>, period: nat)
    requires period > 0
    ensures Opening(Passed(times, period), After(times, period).next, period)
    ensures times != [] ==> After(times, period).previous == times[|times| - 1]
  {
    if times != [] {
      OpeningNear(times[..|times| - 1], period);
    }
  }

  /** Whatever the timestamps do: the first frame passes, one whose timestamp goes back passes, and one that comes a
      period or more after the last that passed; of the others none passes before the last that passed. */
  lemma GateOpens(times: seq<nat>, period: nat)
    requires period > 0 && times != []
    ensures var n := |times| - 1;
            var time, before := times[n], Passed(times[..n], period);
            && (before == [] || time < times[n - 1] || time >= before[|before| - 1] + period ==>
                  Passed(times, period) == before + [time])
            && (before != [] && times[n - 1] <= time < before[|before| - 1] ==> Passed(times, period) == before)
  {
    OpeningNear(times[..|times| - 1], period);
    if |times| == 1 {
      assert times[..0] == [];
    }
  }
}
