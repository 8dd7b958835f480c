/** The three picture buffers of src/frame-sender.cpp, shared by the capture callback, the encoder and the transmitter.
    Every step is one thread's action between two lock operations, or one that takes the lock. */
module CaptureSession {
  import opened Words

  /** An encoded picture on its way to the network, with the number of the capture it stands for. */
  datatype Job<E> = Job(bytes: E, capture: nat)

  /** The capture callback holds the lock while it copies a picture into a buffer. */
  datatype Producer<P> = Idle | Copying(index: nat, picture: P)

  /** The encoder: waiting, holding a buffer, having found it equal or different, having encoded it, having handed the
      bytes over, or about to give the buffer back. */
  datatype Encoder<E> =
    | Waiting
    | Taken(index: nat)
    | Unchanged(index: nat)
    | Changed(index: nat)
    | Encoded(index: nat, bytes: E)
    | Queued(index: nat, bytes: E)
    | Finished(index: nat, remember: bool)

  /** `captures`, `queued` and `sent` record the pictures captured, the images handed over and those transmitted;
      `owner` says which capture a buffer holds. */
  datatype Session<P, E> = Session(
    pixels: seq<P>, owner: seq<nat>, pending: int, busy: int, previous: int, previousEncoded: E, ready: Option<Job<E>>,
    producer: Producer<P>, encoder: Encoder<E>, captures: seq<P>, queued: seq<Job<E>>, sent: seq<Job<E>>)

  datatype Step<P> =
    // The capture callback.
    | BeginCopy(picture: P) | CopyPart(partial: P) | EndCopy
    // The encoder.
    | Take | Compare | Refresh | SkipRefresh | Encode(quality: int) | HandOver | Remember | GiveUp | Release
    // The transmitter.
    | Transmit

  function Start<P, E>(blank: P, none: E): Session<P, E> {
    Session([blank, blank, blank], [0, 0, 0], -1, -1, -1, none, None, Idle, Waiting, [], [], [])
  }

  predicate LockFree<P, E>(s: Session<P, E>) {
    s.producer.Idle?
  }

  /** The buffer the callback writes: the one still waiting, else the first that the encoder does not use. */
  function ChooseBuffer<P, E>(s: Session<P, E>): int {
    if s.pending >= 0 then s.pending
    else if 0 != s.busy && 0 != s.previous then 0
    else if 1 != s.busy && 1 != s.previous then 1
    else if 2 != s.busy && 2 != s.previous then 2
    else -1
  }

  function Enqueue<P, E>(s: Session<P, E>, job: Job<E>): Session<P, E> {
    s.(ready := Some(job), queued := s.queued + [job])
  }

  /** The invariants make every index below valid; a step that its thread cannot take now changes nothing. */
  function Next<P(==), E>(s: Session<P, E>, step: Step<P>, encode: (P, int) -> E): Session<P, E>
    requires Indexed(s)
  {
    match step
    case BeginCopy(picture) =>
      var index := ChooseBuffer(s);
      if LockFree(s) && index >= 0 then s.(producer := Copying(index, picture)) else s
    case CopyPart(partial) =>
      if s.producer.Copying? then s.(pixels := s.pixels[s.producer.index := partial]) else s
    case EndCopy =>
      if s.producer.Copying? then
        var index := s.producer.index;
        s.(pixels := s.pixels[index := s.producer.picture], owner := s.owner[index := |s.captures|],
           captures := s.captures + [s.producer.picture], pending := index, producer := Idle)
      else s
    case Take =>
      if s.encoder.Waiting? && LockFree(s) && s.pending >= 0 then
        s.(encoder := Taken(s.pending), busy := s.pending, pending := -1)
      else s
    case Compare =>
      if s.encoder.Taken? then
        s.(encoder := if s.previous >= 0 && s.pixels[s.encoder.index] == s.pixels[s.previous]
                      then Unchanged(s.encoder.index) else Changed(s.encoder.index))
      else s
    case Refresh =>
      if s.encoder.Unchanged? && LockFree(s) then
        Enqueue(s, Job(s.previousEncoded, s.owner[s.encoder.index])).(encoder := Finished(s.encoder.index, false))
      else s
    case SkipRefresh => if s.encoder.Unchanged? then s.(encoder := Finished(s.encoder.index, false)) else s
    case Encode(quality) =>
      if s.encoder.Changed? || s.encoder.Encoded? then
        s.(encoder := Encoded(s.encoder.index, encode(s.pixels[s.encoder.index], quality)))
      else s
    case HandOver =>
      if s.encoder.Encoded? && LockFree(s) then
        Enqueue(s, Job(s.encoder.bytes, s.owner[s.encoder.index])).(encoder := Queued(s.encoder.index, s.encoder.bytes))
      else s
    case Remember =>
      if s.encoder.Queued? then
        s.(previousEncoded := s.encoder.bytes, encoder := Finished(s.encoder.index, true))
      else s
    case GiveUp =>
      if !s.encoder.Waiting? && !s.encoder.Finished? then s.(encoder := Finished(s.encoder.index, false)) else s
    case Release =>
      if s.encoder.Finished? && LockFree(s) then
        s.(previous := if s.encoder.remember then s.encoder.index else s.previous, busy := -1, encoder := Waiting)
      else s
    case Transmit =>
      if s.ready.Some? && LockFree(s) then s.(ready := None, sent := s.sent + [s.ready.value]) else s
  }

  predicate IsBuffer(i: int) {
    0 <= i < 3
  }

  /** All indices in use are those of the three buffers. */
  predicate Indexed<P, E>(s: Session<P, E>) {
    && |s.pixels| == |s.owner| == 3
    && (s.pending == -1 || IsBuffer(s.pending)) && (s.busy == -1 || IsBuffer(s.busy))
    && (s.previous == -1 || IsBuffer(s.previous))
    && (s.producer.Copying? ==> IsBuffer(s.producer.index))
    && (!s.encoder.Waiting? ==> IsBuffer(s.encoder.index))
  }

  /** No two of the buffers awaiting encoding, being encoded and kept for comparison are the same. */
  ghost predicate Disjoint<P, E>(s: Session<P, E>) {
    && (s.pending >= 0 ==> s.pending != s.busy && s.pending != s.previous)
    && (s.busy >= 0 ==> s.busy != s.previous)
    && (s.producer.Copying? ==>
          && s.producer.index != s.busy && s.producer.index != s.previous
          && (s.pending >= 0 ==> s.pending == s.producer.index))
    && (if s.encoder.Waiting? then s.busy == -1 else s.busy == s.encoder.index)
  }

  /** A buffer that is not being written holds the capture it is said to. */
  ghost predicate Holds<P, E>(s: Session<P, E>, i: int)
    requires Indexed(s)
  {
    IsBuffer(i) ==> s.owner[i] < |s.captures| && s.captures[s.owner[i]] == s.pixels[i]
  }

  ghost predicate IsEncoding<P, E>(encode: (P, int) -> E, bytes: E, picture: P) {
    exists quality: int :: encode(picture, quality) == bytes
  }

  ghost predicate EncodesCapture<P, E>(s: Session<P, E>, encode: (P, int) -> E, job: Job<E>) {
    job.capture < |s.captures| && IsEncoding(encode, job.bytes, s.captures[job.capture])
  }

  ghost predicate Contents<P, E>(s: Session<P, E>, encode: (P, int) -> E)
    requires Indexed(s)
  {
    && Holds(s, s.busy) && Holds(s, s.previous) && (s.producer.Idle? ==> Holds(s, s.pending))
    && (s.previous >= 0 && !(s.encoder.Finished? && s.encoder.remember) ==>
          IsEncoding(encode, s.previousEncoded, s.pixels[s.previous]))
    && (s.encoder.Finished? && s.encoder.remember ==> IsEncoding(encode, s.previousEncoded, s.pixels[s.encoder.index]))
    && (s.encoder.Encoded? || s.encoder.Queued? ==> IsEncoding(encode, s.encoder.bytes, s.pixels[s.encoder.index]))
    && (s.encoder.Unchanged? ==> s.previous >= 0 && s.pixels[s.encoder.index] == s.pixels[s.previous])
  }

  ghost predicate Ascending<E>(jobs: seq<Job<E>>) {
    forall i, j | 0 <= i < j < |jobs| :: jobs[i].capture < jobs[j].capture
  }

  /** The capture of a job that has been handed over last. */
  ghost predicate After<E>(jobs: seq<Job<E>>, capture: int) {
    forall i | 0 <= i < |jobs| :: jobs[i].capture < capture
  }

  /** Images are handed over in the order of their captures. */
  ghost predicate QueuedInOrder<P, E>(s: Session<P, E>)
    requires Indexed(s)
  {
    && Ascending(s.queued) && After(s.queued, |s.captures|)
    && (s.pending >= 0 && s.producer.Idle? ==> After(s.queued, s.owner[s.pending]))
    && (s.encoder.Taken? || s.encoder.Unchanged? || s.encoder.Changed? || s.encoder.Encoded? ==>
          After(s.queued, s.owner[s.encoder.index]))
    && (s.pending >= 0 && s.producer.Idle? && s.busy >= 0 ==> s.owner[s.busy] < s.owner[s.pending])
  }

  /** So they are transmitted, each at most once. */
  ghost predicate SentInOrder<P, E>(s: Session<P, E>) {
    && Ascending(s.sent)
    && (s.ready.Some? ==>
          After(s.sent, s.ready.value.capture) && s.queued != [] && s.ready.value == s.queued[|s.queued| - 1])
    && (forall i | 0 <= i < |s.sent| :: s.sent[i] in s.queued)
  }

  ghost predicate Order<P, E>(s: Session<P, E>)
    requires Indexed(s)
  {
    QueuedInOrder(s) && SentInOrder(s)
  }

  ghost predicate Invariant<P, E>(s: Session<P, E>, encode: (P, int) -> E) {
    && Indexed(s) && Disjoint(s) && Contents(s, encode) && Order(s)
    && forall i | 0 <= i < |s.queued| :: EncodesCapture(s, encode, s.queued[i])
  }

  predicate OfCallback<P>(step: Step<P>) {
    step.BeginCopy? || step.CopyPart? || step.EndCopy?
  }

  /** The encoder's first steps, up to the decision whether to encode. */
  predicate OfDecision<P>(step: Step<P>) {
    step.Take? || step.Compare? || step.Refresh? || step.SkipRefresh?
  }

  lemma CallbackDisjoint<P, E>(s: Session<P, E>, step: Step<P>, encode: (P, int) -> E)
    requires Indexed(s) && Disjoint(s) && OfCallback(step)
    ensures Indexed(Next(s, step, encode)) && Disjoint(Next(s, step, encode))
  {
  }

  lemma DecisionDisjoint<P, E>(s: Session<P, E>, step: Step<P>, encode: (P, int) -> E)
    requires Indexed(s) && Disjoint(s) && OfDecision(step)
    ensures Indexed(Next(s, step, encode)) && Disjoint(Next(s, step, encode))
  {
    hide ChooseBuffer;
  }

  lemma EncodingDisjoint<P, E>(s: Session<P, E>, step: Step<P>, encode: (P, int) -> E)
    requires Indexed(s) && Disjoint(s) && !OfCallback(step) && !OfDecision(step)
    ensures Indexed(Next(s, step, encode)) && Disjoint(Next(s, step, encode))
  {
    hide ChooseBuffer;
  }

  lemma NextIndexedDisjoint<P, E>(s: Session<P, E>, step: Step<P>, encode: (P, int) -> E)
    requires Indexed(s) && Disjoint(s)
    ensures Indexed(Next(s, step, encode)) && Disjoint(Next(s, step, encode))
  {
    hide Next, Disjoint;
    if OfCallback(step) {
      CallbackDisjoint(s, step, encode);
    } else if OfDecision(step) {
      DecisionDisjoint(s, step, encode);
    } else {
      EncodingDisjoint(s, step, encode);
    }
  }

  lemma CallbackContents<P, E>(s: Session<P, E>, step: Step<P>, encode: (P, int) -> E)
    requires Indexed(s) && Disjoint(s) && Contents(s, encode) && OfCallback(step)
    requires Indexed(Next(s, step, encode))
    ensures Contents(Next(s, step, encode), encode)
  {
    hide IsEncoding;
  }

  lemma DecisionContents<P, E>(s: Session<P, E>, step: Step<P>, encode: (P, int) -> E)
    requires Indexed(s) && Disjoint(s) && Contents(s, encode) && OfDecision(step)
    requires Indexed(Next(s, step, encode))
    ensures Contents(Next(s, step, encode), encode)
  {
    hide IsEncoding, ChooseBuffer;
  }

  lemma EncodingContents<P, E>(s: Session<P, E>, step: Step<P>, encode: (P, int) -> E)
    requires Indexed(s) && Disjoint(s) && Contents(s, encode) && !OfCallback(step) && !OfDecision(step)
    requires Indexed(Next(s, step, encode))
    ensures Contents(Next(s, step, encode), encode)
  {
    hide IsEncoding, ChooseBuffer;
    if step.Encode? && (s.encoder.Changed? || s.encoder.Encoded?) {
      AnEncoding(encode, s.pixels[s.encoder.index], step.quality);
    }
  }

  lemma AnEncoding<P, E>(encode: (P, int) -> E, picture: P, quality: int)
    ensures IsEncoding(encode, encode(picture, quality), picture)
  {
  }

  lemma NextContents<P, E>(s: Session<P, E>, step: Step<P>, encode: (P, int) -> E)
    requires Indexed(s) && Disjoint(s) && Contents(s, encode)
    ensures Indexed(Next(s, step, encode)) && Contents(Next(s, step, encode), encode)
  {
    hide Next, Contents, Disjoint;
    NextIndexedDisjoint(s, step, encode);
    if OfCallback(step) {
      CallbackContents(s, step, encode);
    } else if OfDecision(step) {
      DecisionContents(s, step, encode);
    } else {
      EncodingContents(s, step, encode);
    }
  }

  lemma CallbackQueued<P, E>(s: Session<P, E>, step: Step<P>, encode: (P, int) -> E)
    requires Indexed(s) && Disjoint(s) && Contents(s, encode) && QueuedInOrder(s) && OfCallback(step)
    requires Indexed(Next(s, step, encode))
    ensures QueuedInOrder(Next(s, step, encode))
  {
    hide IsEncoding;
  }

  lemma DecisionQueued<P, E>(s: Session<P, E>, step: Step<P>, encode: (P, int) -> E)
    requires Indexed(s) && Disjoint(s) && Contents(s, encode) && QueuedInOrder(s) && OfDecision(step)
    requires Indexed(Next(s, step, encode))
    ensures QueuedInOrder(Next(s, step, encode))
  {
    hide IsEncoding, ChooseBuffer;
  }

  lemma EncodingQueued<P, E>(s: Session<P, E>, step: Step<P>, encode: (P, int) -> E)
    requires Indexed(s) && Disjoint(s) && Contents(s, encode) && QueuedInOrder(s) && !OfCallback(step)
    requires !OfDecision(step)
    requires Indexed(Next(s, step, encode))
    ensures QueuedInOrder(Next(s, step, encode))
  {
    hide IsEncoding, ChooseBuffer;
  }

  lemma NextQueued<P, E>(s: Session<P, E>, step: Step<P>, encode: (P, int) -> E)
    requires Indexed(s) && Disjoint(s) && Contents(s, encode) && QueuedInOrder(s)
    ensures Indexed(Next(s, step, encode)) && QueuedInOrder(Next(s, step, encode))
  {
    hide Next, Contents, Disjoint, QueuedInOrder;
    NextIndexedDisjoint(s, step, encode);
    if OfCallback(step) {
      CallbackQueued(s, step, encode);
    } else if OfDecision(step) {
      DecisionQueued(s, step, encode);
    } else {
      EncodingQueued(s, step, encode);
    }
  }

  lemma NextSent<P, E>(s: Session<P, E>, step: Step<P>, encode: (P, int) -> E)
    requires Indexed(s) && QueuedInOrder(s) && SentInOrder(s)
    ensures SentInOrder(Next(s, step, encode))
  {
    hide ChooseBuffer;
  }

  lemma NextOrder<P, E>(s: Session<P, E>, step: Step<P>, encode: (P, int) -> E)
    requires Indexed(s) && Disjoint(s) && Contents(s, encode) && Order(s)
    ensures Indexed(Next(s, step, encode)) && Order(Next(s, step, encode))
  {
    hide Next, QueuedInOrder, SentInOrder, Disjoint, Contents;
    NextQueued(s, step, encode);
    NextSent(s, step, encode);
  }

  lemma NextEncodes<P, E>(s: Session<P, E>, step: Step<P>, encode: (P, int) -> E)
    requires Invariant(s, encode)
    ensures var s' := Next(s, step, encode); forall i | 0 <= i < |s'.queued| :: EncodesCapture(s', encode, s'.queued[i])
  {
    var s' := Next(s, step, encode);
    forall i | 0 <= i < |s'.queued| ensures EncodesCapture(s', encode, s'.queued[i]) {
      if i < |s.queued| {
        assert EncodesCapture(s, encode, s.queued[i]);
      }
    }
  }

  function Run<P(==), E>(blank: P, none: E, steps: seq<Step<P>>, encode: (P, int) -> E): (s: Session<P, E>)
    ensures Indexed(s) && Disjoint(s)
  {
    if steps == [] then Start(blank, none)
    else
      var before := Run(blank, none, steps[..|steps| - 1], encode);
      NextIndexedDisjoint(before, steps[|steps| - 1], encode);
      Next(before, steps[|steps| - 1], encode)
  }

  lemma {:induction false} RunKeepsInvariant<P, E>(blank: P, none: E, steps: seq<Step<P>>, encode: (P, int) -> E)
    ensures Invariant(Run(blank, none, steps, encode), encode)
  {
    hide Next, Disjoint, Contents, Order;
    if steps == [] {
      StartInvariant(blank, none, encode);
    } else {
      var n := |steps| - 1;
      var s := Run(blank, none, steps[..n], encode);
      RunKeepsInvariant(blank, none, steps[..n], encode);
      NextContents(s, steps[n], encode);
      NextOrder(s, steps[n], encode);
      NextEncodes(s, steps[n], encode);
    }
  }

  lemma StartInvariant<P, E>(blank: P, none: E, encode: (P, int) -> E)
    ensures Invariant(Start(blank, none), encode)
  {
  }

  /** In every interleaving the callback finds a buffer, and never one the encoder reads. */
  lemma BufferAlwaysFree<P, E>(blank: P, none: E, steps: seq<Step<P>>, encode: (P, int) -> E)
    ensures var s := Run(blank, none, steps, encode);
            && IsBuffer(ChooseBuffer(s)) && ChooseBuffer(s) != s.busy && ChooseBuffer(s) != s.previous
            && (s.producer.Copying? ==> s.producer.index != s.busy && s.producer.index != s.previous)
  {
    RunKeepsInvariant(blank, none, steps, encode);
  }

  /** In every interleaving each image handed to the transmitter, an image repeated for an unchanged picture included,
      encodes exactly the picture of the capture it stands for. */
  lemma ImagesEncodeTheirCaptures<P, E>(blank: P, none: E, steps: seq<Step<P>>, encode: (P, int) -> E, i: nat)
    requires i < |Run(blank, none, steps, encode).queued|
    ensures var s := Run(blank, none, steps, encode); EncodesCapture(s, encode, s.queued[i])
  {
    RunKeepsInvariant(blank, none, steps, encode);
  }

  /** In every interleaving images are transmitted in the strict order of their captures, each at most once, and each
      encodes the picture of its capture. */
  lemma TransmissionsInCaptureOrder<P, E>(blank: P, none: E, steps: seq<Step<P>>, encode: (P, int) -> E, i: nat, j: nat)
    requires i < j < |Run(blank, none, steps, encode).sent|
    ensures var s := Run(blank, none, steps, encode);
            && s.sent[i].capture < s.sent[j].capture
            && EncodesCapture(s, encode, s.sent[i]) && EncodesCapture(s, encode, s.sent[j])
  {
    RunKeepsInvariant(blank, none, steps, encode);
    var s := Run(blank, none, steps, encode);
    assert s.sent[i] in s.queued && s.sent[j] in s.queued;
  }

  /** The picture kept for comparison is the one the kept bytes encode, whenever they may be compared or repeated:
      always but between the moment new bytes are kept and the moment their buffer takes the place of the old one. */
  lemma KeptBytesMatchKeptPicture<P, E>(blank: P, none: E, steps: seq<Step<P>>, encode: (P, int) -> E)
    ensures var s := Run(blank, none, steps, encode);
            s.previous >= 0 && !(s.encoder.Finished? && s.encoder.remember) ==>
              IsEncoding(encode, s.previousEncoded, s.pixels[s.previous])
  {
    RunKeepsInvariant(blank, none, steps, encode);
  }
}
