/** The sender of src/frame-sender.cpp against the assembler of src/frame-protocol.cpp, across a network. */
module FrameTransfer {
  import opened Words
  import opened VbanProtocol
  import opened FrameProtocol
  import opened FrameSender
  import Pcm = PcmTransmitter

  /** A picture that was given a frame number and split into datagrams. */
  datatype Sent = Sent(stream: Stream, frame: Word32, bytes: seq<Byte>)
  {
    predicate Valid() {
      0 < |bytes| <= MAX_IMAGE
    }

    function Count(): nat {
      FragmentCount(|bytes|)
    }

    function Datagram(k: nat): seq<Byte>
      requires k < Count()
    {
      Fragment(stream, frame, bytes, k)
    }

    /** The bytes carried by the first `k` fragments. */
    function Prefix(k: nat): seq<Byte> {
      if k * CHUNK < |bytes| then bytes[..k * CHUNK] else bytes
    }
  }

  /** The payloads of the first `k + 1` fragments. */
  lemma PrefixGrows(p: Sent, k: nat)
    requires p.Valid() && k < p.Count()
    ensures k < TWO16 - 1
    ensures |p.Datagram(k)| == HEADER + FragmentLength(|p.bytes|, k) <= MAX_DATAGRAM && FragmentLength(|p.bytes|, k) > 0
    ensures p.Prefix(k) + p.Datagram(k)[HEADER..] == p.Prefix(k + 1)
    ensures |p.Datagram(k)| - HEADER <= MAX_IMAGE - |p.Prefix(k)|
  {
    var d := p.Datagram(k);
    var n := FragmentLength(|p.bytes|, k);
    assert d[HEADER..] == p.bytes[k * CHUNK..k * CHUNK + n];
  }

  /** What the assembler reads in a fragment is what the sender wrote. */
  lemma FragmentParsed(p: Sent, k: nat)
    requires p.Valid() && k < p.Count()
    ensures k < TWO16 - 1
    ensures Accepted(p.Datagram(k))
    ensures FragmentIndex(p.Datagram(k)) == k && FrameNumber(p.Datagram(k)) == p.frame
    ensures StartsImage(p.Datagram(k)) <==> k == 0
    ensures EndsImage(p.Datagram(k)) <==> k + 1 == p.Count()
    ensures p.Prefix(k) + p.Datagram(k)[HEADER..] == p.Prefix(k + 1)
    ensures |p.Datagram(k)| - HEADER <= MAX_IMAGE - |p.Prefix(k)|
  {
    hide Sent.Prefix, FragmentLength, FragmentCount, ReadLittleEndian4, LittleEndian4;
    PrefixGrows(p, k);
    var d := p.Datagram(k);
    assert d[..4] == MAGIC;
    assert d[4..8] == [0x80 + p.stream.RateIndex(), k % 256, k / 256 % 256, Flags(k, p.Count())];
    assert d[4] == d[4..8][0] && d[5] == d[4..8][1] && d[6] == d[4..8][2] && d[7] == d[4..8][3];
    assert d[24..28] == LittleEndian4(p.frame);
    LittleEndian4RoundTrip(p.frame);
  }

  /** A receiver that looks for the stream finds its name in every fragment. */
  lemma FragmentIsNamed(p: Sent, k: nat)
    requires p.Valid() && k < p.Count() && ValidStreamName(p.stream.name)
    ensures ReadStreamName(p.Datagram(k)) == Some(p.stream.name)
  {
    hide FragmentLength, FragmentCount, LittleEndian4, ValidStreamName;
    var d, name := p.Datagram(k), p.stream.name;
    assert d[..4] == MAGIC;
    assert d[8..24] == name + Zeros(16 - |name|);
    NameIsRead(d, name);
    assert d[8..8 + |name|] == d[8..24][..|name|] == name;
  }

  lemma NameIsRead(d: seq<Byte>, name: Pcm.StreamName)
    requires |d| >= HEADER && d[8..24] == name + Zeros(16 - |name|)
    ensures NameLength(d, 0) == |name|
  {
    Pcm.NameRead(d, name, 0);
  }

  lemma PrefixEnds(p: Sent)
    requires p.Valid()
    ensures p.Count() > 0 && p.Prefix(0) == [] && p.Prefix(p.Count()) == p.bytes
  {
  }

  /** One sender numbers its pictures consecutively, so fewer than 2^32 of them have distinct numbers. */
  ghost predicate DistinctPictures(sent: seq<Sent>) {
    && (forall j | 0 <= j < |sent| :: sent[j].Valid())
    && (forall i, j | 0 <= i < j < |sent| :: sent[i].frame != sent[j].frame)
  }

  ghost predicate FragmentOf(p: Sent, data: seq<Byte>) {
    exists k :: 0 <= k < p.Count() && data == p.Datagram(k)
  }

  /** What may reach the assembler: any fragment of any picture sent, bytes that are no acceptable datagram,
      or nothing for a while. */
  ghost predicate PossibleInput(sent: seq<Sent>, input: Input) {
    input.Datagram? && Accepted(input.data) ==> exists j :: 0 <= j < |sent| && FragmentOf(sent[j], input.data)
  }

  ghost predicate PossibleNetwork(sent: seq<Sent>, inputs: seq<Input>) {
    DistinctPictures(sent) && Timely(inputs) && forall i | 0 <= i < |inputs| :: PossibleInput(sent, inputs[i])
  }

  /** The image in progress is a proper, non-empty run of first fragments of one picture that was sent. */
  ghost predicate Faithful(s: Assembler, sent: seq<Sent>) {
    s.assembly.Building? ==>
      exists j ::
        && 0 <= j < |sent|
        && sent[j].frame == s.assembly.frame
        && 0 < s.assembly.next < sent[j].Count()
        && s.assembly.bytes == sent[j].Prefix(s.assembly.next)
  }

  /** A picture that the input completes. */
  ghost predicate Completes(p: Sent, input: Input) {
    p.Valid() && p.Count() > 0 && input.Datagram? && input.data == p.Datagram(p.Count() - 1)
  }

  lemma StepStaysFaithful(s: Assembler, sent: seq<Sent>, input: Input)
    requires s.Valid() && Faithful(s, sent) && DistinctPictures(sent) && input.at < TWO64 && PossibleInput(sent, input)
    ensures Faithful(Step(s, input).0, sent)
    ensures Step(s, input).1.Some? ==>
              exists j :: 0 <= j < |sent| && Completes(sent[j], input) && Step(s, input).1.value == sent[j].bytes
  {
    hide Push, Expire, Faithful, Fragment, FragmentCount;
    if input.Datagram? && Accepted(input.data) {
      var j :| 0 <= j < |sent| && FragmentOf(sent[j], input.data);
      var k :| 0 <= k < sent[j].Count() && input.data == sent[j].Datagram(k);
      FragmentStaysFaithful(s, sent, j, k, input.at);
    } else {
      NoiseStaysFaithful(s, sent, input);
    }
  }

  lemma NoiseStaysFaithful(s: Assembler, sent: seq<Sent>, input: Input)
    requires s.Valid() && Faithful(s, sent) && input.at < TWO64
    requires input.Datagram? ==> !Accepted(input.data)
    ensures Faithful(Step(s, input).0, sent) && Step(s, input).1 == None
  {
  }

  lemma FragmentStaysFaithful(s: Assembler, sent: seq<Sent>, j: nat, k: nat, at: nat)
    requires s.Valid() && Faithful(s, sent) && DistinctPictures(sent) && at < TWO64
    requires j < |sent| && k < sent[j].Count()
    ensures var (s', image) := Push(s, sent[j].Datagram(k), at);
            && Faithful(s', sent)
            && (image.Some? ==> k + 1 == sent[j].Count() && image.value == sent[j].bytes)
  {
    hide Sent.Prefix, FragmentCount, Fragment, FragmentIndex, FrameNumber, HeaderAccepted, FlagsAccepted, StartsImage,
         EndsImage;
    var p := sent[j];
    FragmentParsed(p, k);
    PrefixEnds(p);
    if s.assembly.Building? && s.assembly.frame == p.frame {
      assert s.assembly.bytes == p.Prefix(s.assembly.next);
    }
  }

  lemma {:induction false} StaysFaithful(sent: seq<Sent>, inputs: seq<Input>)
    requires PossibleNetwork(sent, inputs)
    ensures Faithful(Run(EMPTY, inputs), sent)
  {
    if inputs != [] {
      var n := |inputs| - 1;
      StaysFaithful(sent, inputs[..n]);
      StepStaysFaithful(Run(EMPTY, inputs[..n]), sent, inputs[n]);
    }
  }

  /** Whatever the network loses, repeats, reorders or injects as unacceptable bytes, an image that comes out is byte
      for byte one whole picture that went in, and the last fragment of that picture has just arrived. */
  lemma NeverMixedNeverPartial(sent: seq<Sent>, inputs: seq<Input>)
    requires PossibleNetwork(sent, inputs) && inputs != []
    requires Returned(EMPTY, inputs).Some?
    ensures exists j ::
              0 <= j < |sent| && Completes(sent[j], inputs[|inputs| - 1])
                  && Returned(EMPTY, inputs).value == sent[j].bytes
  {
    var n := |inputs| - 1;
    StaysFaithful(sent, inputs[..n]);
    StepStaysFaithful(Run(EMPTY, inputs[..n]), sent, inputs[n]);
  }

  /** One sender's pictures, numbered one after the other from any number on. */
  ghost predicate Numbered(sent: seq<Sent>, first: nat) {
    && |sent| <= HALF32
    && forall j | 0 <= j < |sent| :: sent[j].Valid() && sent[j].frame == Wrap(first + j)
  }

  lemma NewerComesLater(sent: seq<Sent>, first: nat, i: nat, j: nat)
    requires Numbered(sent, first) && i < |sent| && j < |sent|
    requires 0 < Ahead(sent[j].frame, sent[i].frame) < HALF32
    ensures i < j
  {
  }

  /** The picture that was returned last. */
  ghost predicate WasLast(sent: seq<Sent>, inputs: seq<Input>, i: nat)
    requires Timely(inputs)
  {
    && i < |sent|
    && LastReturned(EMPTY, inputs).Some? && LastReturned(EMPTY, inputs).value.frame == sent[i].frame
  }

  /** The picture the last input completes. */
  ghost predicate IsReturned(sent: seq<Sent>, inputs: seq<Input>, j: nat)
    requires Timely(inputs) && inputs != []
  {
    && j < |sent| && Completes(sent[j], inputs[|inputs| - 1]) && Returned(EMPTY, inputs) == Some(sent[j].bytes)
    && Accepted(inputs[|inputs| - 1].data) && FrameNumber(inputs[|inputs| - 1].data) == sent[j].frame
  }

  lemma ReturnedWasSent(sent: seq<Sent>, inputs: seq<Input>)
    requires PossibleNetwork(sent, inputs) && inputs != [] && Returned(EMPTY, inputs).Some?
    ensures exists j :: IsReturned(sent, inputs, j)
  {
    hide Accepted, FrameNumber, Step, Fragment, FragmentCount, DistinctPictures, PossibleInput, FragmentIndex, Run,
         Sent.Prefix;
    NeverMixedNeverPartial(sent, inputs);
    var j :| 0 <= j < |sent| && Completes(sent[j], inputs[|inputs| - 1])
        && Returned(EMPTY, inputs).value == sent[j].bytes;
    FragmentParsed(sent[j], sent[j].Count() - 1);
    assert IsReturned(sent, inputs, j);
  }

  lemma {:induction false} LastWasSent(sent: seq<Sent>, inputs: seq<Input>)
    requires PossibleNetwork(sent, inputs) && LastReturned(EMPTY, inputs).Some?
    ensures exists i :: WasLast(sent, inputs, i)
  {
    hide Accepted, FrameNumber, Step, Fragment, FragmentCount, DistinctPictures, PossibleInput, Run;
    if Returned(EMPTY, inputs).Some? {
      ReturnedWasSent(sent, inputs);
      var j :| IsReturned(sent, inputs, j);
      assert WasLast(sent, inputs, j);
    } else {
      LastWasSent(sent, inputs[..|inputs| - 1]);
      var i :| WasLast(sent, inputs[..|inputs| - 1], i);
      assert WasLast(sent, inputs, i);
    }
  }

  /** Picture `i` was returned last, and now picture `j`. */
  ghost predicate Succeeds(sent: seq<Sent>, inputs: seq<Input>, i: nat, j: nat)
    requires Timely(inputs) && inputs != []
  {
    WasLast(sent, inputs[..|inputs| - 1], i) && IsReturned(sent, inputs, j)
  }

  /** Whatever the network does: within two seconds of one picture only a later one of the sender's is returned. */
  lemma PicturesAscend(sent: seq<Sent>, first: nat, inputs: seq<Input>, last: Completion)
    requires Numbered(sent, first) && PossibleNetwork(sent, inputs) && inputs != []
    requires Returned(EMPTY, inputs).Some? && LastReturned(EMPTY, inputs[..|inputs| - 1]) == Some(last)
    requires last.at < TWO64 && Sub64(inputs[|inputs| - 1].at, last.at) < 2_000_000_000
    ensures exists i, j :: i < j && Succeeds(sent, inputs, i, j)
  {
    hide Accepted, FrameNumber, Step, Returned, LastReturned, PossibleInput, DistinctPictures, Sub64, Numbered, Ahead,
         Completes, Run;
    var past := inputs[..|inputs| - 1];
    LastWasSent(sent, past);
    var i :| WasLast(sent, past, i);
    ReturnedWasSent(sent, inputs);
    var j :| IsReturned(sent, inputs, j);
    NewerFollowsWithinTimeout(EMPTY, inputs);
    NewerComesLater(sent, first, i, j);
    assert Succeeds(sent, inputs, i, j);
  }

  /** Nothing in progress or completed within the last timeout stands in the way of a picture starting at `at`. */
  ghost predicate Ready(s: Assembler, frame: Word32, at: nat) {
    && (s.assembly.Building? ==>
          || 0 < Ahead(frame, s.assembly.frame) < HALF32
          || s.assembly.started + 2_000_000_000 < at)
    && (s.last.Some? ==>
          || 0 < Ahead(frame, s.last.value.frame) < HALF32
          || s.last.value.at + 2_000_000_000 <= at)
  }

  /** How many fragments of the picture the inputs have delivered in their order. */
  function Progress(p: Sent, inputs: seq<Input>): (k: nat)
    ensures k <= p.Count()
  {
    if inputs == [] then 0
    else
      var k, last := Progress(p, inputs[..|inputs| - 1]), inputs[|inputs| - 1];
      if k < p.Count() && last.Datagram? && last.data == p.Datagram(k) then k + 1 else k
  }

  /** Something the assembler has to tolerate after `k` fragments of a picture: a lull, a fragment it already has,
      or any fragment of an older picture. */
  ghost predicate Tolerable(p: Sent, k: nat, input: Input)
    requires k <= p.Count()
  {
    || input.Quiet?
    || (exists i :: 0 <= i < k && input.data == p.Datagram(i))
    || (Accepted(input.data) && 0 < Ahead(p.frame, FrameNumber(input.data)) <= HALF32)
  }

  /** The fragments of the picture arrive in order within one timeout, with tolerable inputs in between. */
  ghost predicate InOrder(p: Sent, inputs: seq<Input>) {
    && p.Valid() && Timely(inputs)
    && (forall i | 0 <= i < |inputs| :: inputs[0].at <= inputs[i].at <= inputs[0].at + 2_000_000_000)
    && (forall i | 0 <= i < |inputs| ::
          var k := Progress(p, inputs[..i]);
          && k < p.Count()
          && ((inputs[i].Datagram? && inputs[i].data == p.Datagram(k)) || (k > 0 && Tolerable(p, k, inputs[i]))))
  }

  /** The assembler has the first `k` fragments of the picture, the first of them since `start`. */
  ghost predicate Holds(s: Assembler, p: Sent, k: nat, start: nat) {
    && s.assembly == Building(p.frame, k, start, p.Prefix(k))
    && Ready(s.(assembly := Idle), p.frame, start)
  }

  lemma OpeningStep(s: Assembler, p: Sent, at: nat)
    requires s.Valid() && p.Valid() && at < TWO64 && Ready(s, p.frame, at)
    ensures p.Count() > 0
    ensures var (s', image) := Push(s, p.Datagram(0), at);
            if p.Count() == 1 then image == Some(p.bytes) else image == None && Holds(s', p, 1, at)
  {
    hide FragmentCount, Fragment, FragmentIndex, FrameNumber, HeaderAccepted, FlagsAccepted, StartsImage, EndsImage;
    PrefixEnds(p);
    FragmentParsed(p, 0);
  }

  lemma NextStep(s: Assembler, p: Sent, k: nat, start: nat, at: nat)
    requires s.Valid() && p.Valid() && 0 < k < p.Count() && Holds(s, p, k, start)
    requires start <= at <= start + 2_000_000_000 && at < TWO64
    ensures var (s', image) := Push(s, p.Datagram(k), at);
            if k + 1 == p.Count() then image == Some(p.bytes) else image == None && Holds(s', p, k + 1, start)
  {
    hide FragmentCount, Fragment, FragmentIndex, FrameNumber, HeaderAccepted, FlagsAccepted, StartsImage, EndsImage;
    PrefixEnds(p);
    FragmentParsed(p, k);
  }

  lemma TolerableStep(s: Assembler, p: Sent, k: nat, start: nat, input: Input)
    requires s.Valid() && p.Valid() && 0 < k < p.Count() && Holds(s, p, k, start)
    requires start <= input.at <= start + 2_000_000_000 && input.at < TWO64
    requires Tolerable(p, k, input)
    requires !(input.Datagram? && input.data == p.Datagram(k))
    ensures Step(s, input).1 == None && Holds(Step(s, input).0, p, k, start)
  {
    hide FragmentCount, Fragment, FragmentIndex, FrameNumber, HeaderAccepted, FlagsAccepted, StartsImage, EndsImage;
    if input.Datagram? {
      if i :| 0 <= i < k && input.data == p.Datagram(i) {
        FragmentParsed(p, i);
      }
    }
  }

  /** In-order delivery within one timeout returns the picture exactly at its last fragment and nothing before. */
  lemma {:induction false} InOrderIsReassembled(s: Assembler, p: Sent, inputs: seq<Input>)
    requires s.Valid() && InOrder(p, inputs) && inputs != [] && Ready(s, p.frame, inputs[0].at)
    ensures var k := Progress(p, inputs);
            && (k == p.Count() ==> Returned(s, inputs) == Some(p.bytes))
            && (k < p.Count() ==> Returned(s, inputs) == None && k > 0 && Holds(Run(s, inputs), p, k, inputs[0].at))
  {
    var n := |inputs| - 1;
    var before, k, start := inputs[..n], Progress(p, inputs[..n]), inputs[0].at;
    assert k < p.Count() && ((inputs[n].Datagram? && inputs[n].data == p.Datagram(k))
        || (k > 0 && Tolerable(p, k, inputs[n])));
    hide FragmentCount, Fragment;
    if n == 0 {
      OpeningStep(s, p, start);
    } else {
      InOrderPrefix(p, inputs, n);
      InOrderIsReassembled(s, p, before);
      if inputs[n].Datagram? && inputs[n].data == p.Datagram(k) {
        NextStep(Run(s, before), p, k, start, inputs[n].at);
      } else {
        TolerableStep(Run(s, before), p, k, start, inputs[n]);
      }
    }
  }

  lemma InOrderPrefix(p: Sent, inputs: seq<Input>, n: nat)
    requires InOrder(p, inputs) && n <= |inputs|
    ensures InOrder(p, inputs[..n])
  {
    forall i | 0 <= i < n
      ensures inputs[..n][..i] == inputs[..i]
    {
    }
  }

  /** Every datagram of a picture reaches the assembler between a base delay and half a second more. */
  ghost predicate DelayedUpTo(sent: seq<Write>, arrivals: seq<nat>, base: nat)
    requires |arrivals| == |sent|
  {
    forall k | 0 <= k < |sent| ::
         && sent[k].checkedAt + base <= arrivals[k] <= sent[k].checkedAt + base + 500_000_000
         && arrivals[0] <= arrivals[k] < TWO64
  }

  function Inputs(sent: seq<Write>, arrivals: seq<nat>, n: nat): (r: seq<Input>)
    requires n <= |sent| == |arrivals|
    ensures |r| == n
  {
    seq(n, k requires 0 <= k < n => Datagram(sent[k].bytes, arrivals[k]))
  }

  lemma {:induction false} TransmissionProgress(
    stream: Stream, frame: Word32, picture: seq<Byte>, began: nat, sent: seq<Write>, arrivals: seq<nat>, n: nat)
    requires stream.Valid() && |sent| <= FragmentCount(|picture|) && IsTransmission(stream, frame, picture, began, sent)
    requires n <= |sent| == |arrivals|
    ensures Progress(Sent(stream, frame, picture), Inputs(sent, arrivals, n)) == n
  {
    hide Fragment, Gap, FragmentCount;
    if n > 0 {
      TransmissionProgress(stream, frame, picture, began, sent, arrivals, n - 1);
      assert Inputs(sent, arrivals, n)[..n - 1] == Inputs(sent, arrivals, n - 1);
      assert WrittenInTime(stream, frame, picture, began, n - 1, Predecessor(sent, n - 1), sent[n - 1]);
    }
  }

  /** From end to end: a picture the sender has sent in full, within its deadline, comes out of an assembler that is
      ready for it, exactly when its last fragment arrives, although delivery times vary by half a second. */
  lemma SentPictureIsReceived(
    s: Assembler, stream: Stream, frame: Word32, picture: seq<Byte>, began: nat, sent: seq<Write>,
    arrivals: seq<nat>, base: nat, n: nat)
    requires stream.Valid() && WithinBudget(stream, |picture|)
    requires |sent| == FragmentCount(|picture|) && IsTransmission(stream, frame, picture, began, sent)
    requires 0 < n <= |sent| == |arrivals| && DelayedUpTo(sent, arrivals, base)
    requires s.Valid() && Ready(s, frame, arrivals[0])
    ensures Timely(Inputs(sent, arrivals, n))
    ensures Returned(s, Inputs(sent, arrivals, n)) == if n == |sent| then Some(picture) else None
  {
    hide *;
    TransmissionInOrder(stream, frame, picture, began, sent, arrivals, base, n);
    TransmissionProgress(stream, frame, picture, began, sent, arrivals, n);
    assert |Inputs(sent, arrivals, n)| == n;
    InOrderIsReassembled(s, Sent(stream, frame, picture), Inputs(sent, arrivals, n));
    CountOf(Sent(stream, frame, picture));
  }

  lemma CountOf(p: Sent)
    ensures p.Count() == FragmentCount(|p.bytes|)
  {
  }

  lemma TransmissionInOrder(
    stream: Stream, frame: Word32, picture: seq<Byte>, began: nat, sent: seq<Write>,
    arrivals: seq<nat>, base: nat, n: nat)
    requires stream.Valid() && WithinBudget(stream, |picture|)
    requires |sent| == FragmentCount(|picture|) && IsTransmission(stream, frame, picture, began, sent)
    requires 0 < n <= |sent| == |arrivals| && DelayedUpTo(sent, arrivals, base)
    ensures InOrder(Sent(stream, frame, picture), Inputs(sent, arrivals, n))
    ensures Inputs(sent, arrivals, n)[0].at == arrivals[0] && Timely(Inputs(sent, arrivals, n))
  {
    hide Fragment, Gap, FragmentCount, WireSize, Progress;
    var p, inputs := Sent(stream, frame, picture), Inputs(sent, arrivals, n);
    forall i | 0 <= i < n
      ensures inputs[0].at <= inputs[i].at <= inputs[0].at + 2_000_000_000
      ensures Progress(p, inputs[..i]) == i && inputs[i].Datagram? && inputs[i].data == p.Datagram(i)
    {
      assert WrittenInTime(stream, frame, picture, began, 0, Predecessor(sent, 0), sent[0]);
      assert WrittenInTime(stream, frame, picture, began, i, Predecessor(sent, i), sent[i]);
      assert inputs[..i] == Inputs(sent, arrivals, i);
      TransmissionProgress(stream, frame, picture, began, sent, arrivals, i);
    }
  }
}
