/** What becomes of a captured picture (src/frame-sender.cpp): it is taken, encoded, queued and transmitted, whatever
    the other threads do between the steps. */
module CaptureDelivery {
  import opened Words
  import opened CaptureSession

  ghost predicate Sound<P, E>(s: Session<P, E>) {
    Indexed(s) && Disjoint(s)
  }

  /** The session after some more steps. */
  function RunOn<P(==), E>(s: Session<P, E>, steps: seq<Step<P>>, encode: (P, int) -> E): (t: Session<P, E>)
    requires Sound(s)
    ensures Sound(t)
  {
    hide Next, Disjoint;
    if steps == [] then s
    else
      var before := RunOn(s, steps[..|steps| - 1], encode);
      NextIndexedDisjoint(before, steps[|steps| - 1], encode);
      Next(before, steps[|steps| - 1], encode)
  }

  /** Other threads' steps, and then one. */
  function Then<P(==), E>(
    s: Session<P, E>, others: seq<Step<P>>, step: Step<P>, encode: (P, int) -> E): (t: Session<P, E>)
    requires Sound(s)
    ensures Sound(t)
  {
    hide Next, Disjoint;
    NextIndexedDisjoint(RunOn(s, others, encode), step, encode);
    Next(RunOn(s, others, encode), step, encode)
  }

  predicate NotEncoder<P>(step: Step<P>) {
    OfCallback(step) || step.Transmit?
  }

  ghost predicate AllOthers<P>(steps: seq<Step<P>>) {
    forall i | 0 <= i < |steps| :: NotEncoder(steps[i])
  }

  /** What the encoder works on stays as it is. */
  ghost predicate LeavesEncoder<P, E>(s: Session<P, E>, t: Session<P, E>)
    requires Indexed(s) && Indexed(t)
  {
    && t.encoder == s.encoder && t.busy == s.busy && t.previous == s.previous && t.previousEncoded == s.previousEncoded
    && t.queued == s.queued
    && (s.busy >= 0 ==> t.pixels[s.busy] == s.pixels[s.busy] && t.owner[s.busy] == s.owner[s.busy])
    && (s.previous >= 0 ==> t.pixels[s.previous] == s.pixels[s.previous])
  }

  lemma OtherStepLeaves<P, E>(s: Session<P, E>, step: Step<P>, encode: (P, int) -> E)
    requires Sound(s) && NotEncoder(step) && Indexed(Next(s, step, encode))
    ensures LeavesEncoder(s, Next(s, step, encode))
  {
    hide ChooseBuffer;
  }

  /** Neither the callback nor the transmitter touches what the encoder works on. */
  lemma {:induction false} OthersLeave<P, E>(s: Session<P, E>, steps: seq<Step<P>>, encode: (P, int) -> E)
    requires Sound(s) && AllOthers(steps)
    ensures LeavesEncoder(s, RunOn(s, steps, encode))
  {
    hide Next, Disjoint, NotEncoder;
    if steps != [] {
      OthersLeave(s, steps[..|steps| - 1], encode);
      NextIndexedDisjoint(RunOn(s, steps[..|steps| - 1], encode), steps[|steps| - 1], encode);
      OtherStepLeaves(RunOn(s, steps[..|steps| - 1], encode), steps[|steps| - 1], encode);
    }
  }

  // The callback.

  ghost predicate NoneEnds<P>(steps: seq<Step<P>>) {
    forall i | 0 <= i < |steps| :: !steps[i].EndCopy?
  }

  lemma {:induction false} CopyingGoesOn<P, E>(s: Session<P, E>, steps: seq<Step<P>>, encode: (P, int) -> E)
    requires Sound(s) && s.producer.Copying? && NoneEnds(steps)
    ensures RunOn(s, steps, encode).producer == s.producer && RunOn(s, steps, encode).captures == s.captures
  {
    hide Disjoint, Indexed, ChooseBuffer;
    if steps != [] {
      CopyingGoesOn(s, steps[..|steps| - 1], encode);
    }
  }

  /** A capture is the newest picture and waits for the encoder, whatever happens while it is copied. */
  lemma CaptureWaits<P, E>(s: Session<P, E>, picture: P, others: seq<Step<P>>, encode: (P, int) -> E)
    requires Sound(s) && s.producer.Idle? && NoneEnds(others)
    ensures var t := Then(Then(s, [], BeginCopy(picture), encode), others, EndCopy, encode);
            && t.captures == s.captures + [picture] && t.producer.Idle? && IsBuffer(t.pending)
            && t.pixels[t.pending] == picture && t.owner[t.pending] == |s.captures|
  {
    hide Disjoint;
    FreeBuffer(s);
    CopyingGoesOn(Then(s, [], BeginCopy(picture), encode), others, encode);
  }

  lemma FreeBuffer<P, E>(s: Session<P, E>)
    requires Sound(s)
    ensures IsBuffer(ChooseBuffer(s))
  {
  }

  predicate KeepsPending<P>(step: Step<P>) {
    !OfCallback(step) && !step.Take?
  }

  ghost predicate AllKeepPending<P>(steps: seq<Step<P>>) {
    forall i | 0 <= i < |steps| :: KeepsPending(steps[i])
  }

  lemma {:induction false} PendingWaits<P, E>(s: Session<P, E>, steps: seq<Step<P>>, encode: (P, int) -> E)
    requires Sound(s) && AllKeepPending(steps)
    ensures var t := RunOn(s, steps, encode);
            && t.pending == s.pending && t.pixels == s.pixels && t.owner == s.owner && t.producer == s.producer
            && t.captures == s.captures
  {
    hide Disjoint, Indexed, ChooseBuffer;
    if steps != [] {
      PendingWaits(s, steps[..|steps| - 1], encode);
    }
  }

  /** Once the encoder waits, it takes the picture that waits for it. */
  lemma PendingIsTaken<P, E>(s: Session<P, E>, steps: seq<Step<P>>, encode: (P, int) -> E)
    requires Sound(s) && s.producer.Idle? && s.pending >= 0 && AllKeepPending(steps)
    requires RunOn(s, steps, encode).encoder.Waiting?
    ensures var t := Then(s, steps, Take, encode);
            && t.encoder == Taken(s.pending) && t.pending == -1 && t.producer.Idle?
            && t.pixels == s.pixels && t.owner == s.owner
  {
    hide Disjoint;
    PendingWaits(s, steps, encode);
  }

  // The encoder.

  ghost predicate IsNewPicture<P, E>(s: Session<P, E>)
    requires Indexed(s) && s.encoder.Taken?
  {
    s.previous < 0 || s.pixels[s.encoder.index] != s.pixels[s.previous]
  }

  /** The encoder has come on in its work on the same buffer. */
  ghost predicate WorksOn<P, E>(s: Session<P, E>, t: Session<P, E>) {
    && Sound(s) && Sound(t) && s.busy >= 0
    && t.busy == s.busy && t.previous == s.previous && t.previousEncoded == s.previousEncoded
    && t.pixels[s.busy] == s.pixels[s.busy] && t.owner[s.busy] == s.owner[s.busy]
    && (s.previous >= 0 ==> t.pixels[s.previous] == s.pixels[s.previous])
  }

  lemma ComparedRight<P, E>(s: Session<P, E>, others: seq<Step<P>>, encode: (P, int) -> E)
    requires Sound(s) && s.encoder.Taken? && AllOthers(others)
    ensures var t, i := Then(s, others, Compare, encode), s.encoder.index;
            && t.encoder == (if IsNewPicture(s) then Changed(i) else Unchanged(i))
            && WorksOn(s, t) && t.queued == s.queued && s.busy == i
  {
    OthersLeave(s, others, encode);
  }

  lemma EncodedRight<P, E>(s: Session<P, E>, quality: int, others: seq<Step<P>>, encode: (P, int) -> E)
    requires Sound(s) && (s.encoder.Changed? || s.encoder.Encoded?) && AllOthers(others)
    ensures var t, i := Then(s, others, Encode(quality), encode), s.encoder.index;
            && t.encoder == Encoded(i, encode(s.pixels[i], quality)) && WorksOn(s, t) && t.queued == s.queued
            && s.busy == i
  {
    OthersLeave(s, others, encode);
  }

  lemma HandedOver<P, E>(s: Session<P, E>, others: seq<Step<P>>, encode: (P, int) -> E)
    requires Sound(s) && s.encoder.Encoded? && AllOthers(others) && LockFree(RunOn(s, others, encode))
    ensures var t, i := Then(s, others, HandOver, encode), s.encoder.index;
            && t.encoder == Queued(i, s.encoder.bytes) && WorksOn(s, t)
            && t.queued == s.queued + [Job(s.encoder.bytes, s.owner[i])]
            && t.ready == Some(Job(s.encoder.bytes, s.owner[i]))
  {
    OthersLeave(s, others, encode);
  }

  lemma ReleasedRight<P, E>(s: Session<P, E>, others: seq<Step<P>>, encode: (P, int) -> E)
    requires Sound(s) && s.encoder.Finished? && AllOthers(others) && LockFree(RunOn(s, others, encode))
    ensures var t, i := Then(s, others, Release, encode), s.encoder.index;
            && t.encoder == Waiting && t.queued == s.queued && t.previousEncoded == s.previousEncoded && t.busy == -1
            && t.previous == (if s.encoder.remember then i else s.previous)
            && t.pixels[i] == s.pixels[i]
  {
    OthersLeave(s, others, encode);
  }

  lemma RefreshedRight<P, E>(s: Session<P, E>, refresh: bool, others: seq<Step<P>>, encode: (P, int) -> E)
    requires Sound(s) && s.encoder.Unchanged? && AllOthers(others) && LockFree(RunOn(s, others, encode))
    ensures var t, i := Then(s, others, if refresh then Refresh else SkipRefresh, encode), s.encoder.index;
            && t.encoder == Finished(i, false) && WorksOn(s, t)
            && t.queued == s.queued + (if refresh then [Job(s.previousEncoded, s.owner[i])] else [])
  {
    OthersLeave(s, others, encode);
  }

  lemma RememberedRight<P, E>(s: Session<P, E>, others: seq<Step<P>>, encode: (P, int) -> E)
    requires Sound(s) && s.encoder.Queued? && AllOthers(others)
    ensures var t, i := Then(s, others, Remember, encode), s.encoder.index;
            && t.encoder == Finished(i, true) && t.pixels[i] == s.pixels[i] && t.queued == s.queued
            && t.previousEncoded == s.encoder.bytes
  {
    OthersLeave(s, others, encode);
  }

  /** A picture that differs from the one encoded last, or is the first, is encoded and queued under its capture, and
      its bytes wait for the transmitter. */
  lemma ChangedIsQueued<P, E>(
    s: Session<P, E>, quality: int, first: seq<Step<P>>, second: seq<Step<P>>, third: seq<Step<P>>,
    encode: (P, int) -> E)
    requires Sound(s) && s.encoder.Taken? && IsNewPicture(s) && AllOthers(first) && AllOthers(second)
             && AllOthers(third)
    requires var t := Then(Then(s, first, Compare, encode), second, Encode(quality), encode);
             LockFree(RunOn(t, third, encode))
    ensures var i, t := s.encoder.index, Then(Then(s, first, Compare, encode), second, Encode(quality), encode);
            var u := Then(t, third, HandOver, encode);
            var bytes := encode(s.pixels[i], quality);
            && u.queued == s.queued + [Job(bytes, s.owner[i])] && u.ready == Some(Job(bytes, s.owner[i]))
            && u.encoder == Queued(i, bytes) && u.busy == i && u.pixels[i] == s.pixels[i]
  {
    hide AllOthers, RunOn, ChooseBuffer, Then, Disjoint;
    ComparedRight(s, first, encode);
    var c := Then(s, first, Compare, encode);
    EncodedRight(c, quality, second, encode);
    HandedOver(Then(c, second, Encode(quality), encode), third, encode);
  }

  /** The queued bytes, and their picture, are kept for the next comparison. */
  lemma QueuedIsKept<P, E>(s: Session<P, E>, first: seq<Step<P>>, second: seq<Step<P>>, encode: (P, int) -> E)
    requires Sound(s) && s.encoder.Queued? && AllOthers(first) && AllOthers(second)
    requires LockFree(RunOn(Then(s, first, Remember, encode), second, encode))
    ensures var i, u := s.encoder.index, Then(Then(s, first, Remember, encode), second, Release, encode);
            && u.encoder == Waiting && u.previous == i && u.previousEncoded == s.encoder.bytes
            && u.pixels[i] == s.pixels[i] && u.queued == s.queued && u.busy == -1
  {
    hide AllOthers, RunOn, ChooseBuffer, Then, Disjoint;
    RememberedRight(s, first, encode);
    ReleasedRight(Then(s, first, Remember, encode), second, encode);
  }

  /** An unchanged picture is queued again with the bytes kept, under its own capture, or not at all; what is kept
      stays. */
  lemma UnchangedIsRefreshed<P, E>(
    s: Session<P, E>, first: seq<Step<P>>, second: seq<Step<P>>, third: seq<Step<P>>, refresh: bool,
    encode: (P, int) -> E)
    requires Sound(s) && s.encoder.Taken? && !IsNewPicture(s) && AllOthers(first) && AllOthers(second)
             && AllOthers(third)
    requires LockFree(RunOn(Then(s, first, Compare, encode), second, encode))
    requires var t := Then(Then(s, first, Compare, encode), second, if refresh then Refresh else SkipRefresh, encode);
             LockFree(RunOn(t, third, encode))
    ensures var i, c := s.encoder.index, Then(s, first, Compare, encode);
            var u := Then(Then(c, second, if refresh then Refresh else SkipRefresh, encode), third, Release, encode);
            && u.queued == s.queued + (if refresh then [Job(s.previousEncoded, s.owner[i])] else [])
            && u.encoder == Waiting && u.previous == s.previous && u.previousEncoded == s.previousEncoded
  {
    hide AllOthers, RunOn, ChooseBuffer, Then, Disjoint;
    ComparedRight(s, first, encode);
    var c := Then(s, first, Compare, encode);
    RefreshedRight(c, refresh, second, encode);
    ReleasedRight(Then(c, second, if refresh then Refresh else SkipRefresh, encode), third, encode);
  }

  // The transmitter.

  ghost predicate AllCallback<P>(steps: seq<Step<P>>) {
    forall i | 0 <= i < |steps| :: OfCallback(steps[i])
  }

  lemma {:induction false} CallbackLeavesQueue<P, E>(s: Session<P, E>, steps: seq<Step<P>>, encode: (P, int) -> E)
    requires Sound(s) && AllCallback(steps)
    ensures RunOn(s, steps, encode).ready == s.ready && RunOn(s, steps, encode).sent == s.sent
  {
    hide Disjoint, Indexed, ChooseBuffer;
    if steps != [] {
      CallbackLeavesQueue(s, steps[..|steps| - 1], encode);
    }
  }

  /** The transmitter's next picture is the one queued last, once. */
  lemma ReadyIsTransmitted<P, E>(s: Session<P, E>, steps: seq<Step<P>>, encode: (P, int) -> E)
    requires Sound(s) && s.ready.Some? && AllCallback(steps) && LockFree(RunOn(s, steps, encode))
    ensures var t := Then(s, steps, Transmit, encode); t.sent == s.sent + [s.ready.value] && t.ready == None
  {
    hide Disjoint;
    CallbackLeavesQueue(s, steps, encode);
  }

  /** What the threads do in between. */
  datatype Between<P> = Between(
    copying: seq<Step<P>>, waiting: seq<Step<P>>, comparing: seq<Step<P>>, encoding: seq<Step<P>>,
    handing: seq<Step<P>>, sending: seq<Step<P>>)
  {
    ghost predicate Valid() {
      && NoneEnds(copying) && AllKeepPending(waiting) && AllOthers(comparing) && AllOthers(encoding)
      && AllOthers(handing)
      && AllCallback(sending)
    }
  }

  /** The session once a capture has been taken. */
  ghost function TakenAfter<P, E>(
    s: Session<P, E>, picture: P, b: Between<P>, encode: (P, int) -> E): (t: Session<P, E>)
    requires Sound(s)
    ensures Sound(t)
  {
    Then(Then(Then(s, [], BeginCopy(picture), encode), b.copying, EndCopy, encode), b.waiting, Take, encode)
  }

  ghost function EncodedAfter<P, E>(
    s: Session<P, E>, picture: P, quality: int, b: Between<P>, encode: (P, int) -> E): (t: Session<P, E>)
    requires Sound(s)
    ensures Sound(t)
  {
    Then(Then(TakenAfter(s, picture, b, encode), b.comparing, Compare, encode), b.encoding, Encode(quality), encode)
  }

  /** The threads get their turns: the callback finds the lock free, the encoder waits for a picture, and the picture
      is a new one. */
  ghost predicate Turns<P, E>(s: Session<P, E>, picture: P, quality: int, b: Between<P>, encode: (P, int) -> E) {
    && Sound(s) && b.Valid() && s.producer.Idle?
    && (var w := Then(Then(s, [], BeginCopy(picture), encode), b.copying, EndCopy, encode);
        RunOn(w, b.waiting, encode).encoder.Waiting?)
    && (var t := TakenAfter(s, picture, b, encode); t.encoder.Taken? && IsNewPicture(t))
    && (var e := EncodedAfter(s, picture, quality, b, encode);
        && LockFree(RunOn(e, b.handing, encode))
        && LockFree(RunOn(Then(e, b.handing, HandOver, encode), b.sending, encode)))
  }

  /** A new picture that is captured is transmitted: its own encoding, under its own capture. */
  lemma CaptureIsTransmitted<P, E>(s: Session<P, E>, picture: P, quality: int, b: Between<P>, encode: (P, int) -> E)
    requires Turns(s, picture, quality, b, encode)
    ensures var h := Then(EncodedAfter(s, picture, quality, b, encode), b.handing, HandOver, encode);
            Then(h, b.sending, Transmit, encode).sent == h.sent + [Job(encode(picture, quality), |s.captures|)]
  {
    hide Then, RunOn, Disjoint, LockFree, IsNewPicture;
    var w := Then(Then(s, [], BeginCopy(picture), encode), b.copying, EndCopy, encode);
    CaptureWaits(s, picture, b.copying, encode);
    PendingIsTaken(w, b.waiting, encode);
    var t := TakenAfter(s, picture, b, encode);
    ChangedIsQueued(t, quality, b.comparing, b.encoding, b.handing, encode);
    var h := Then(EncodedAfter(s, picture, quality, b, encode), b.handing, HandOver, encode);
    ReadyIsTransmitted(h, b.sending, encode);
  }
}
