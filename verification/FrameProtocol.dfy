/** Reassembly of VBAN-Frame images (src/frame-protocol.cpp): the assembler as a state machine,
    and the class that updates its fields in place. */
module FrameProtocol {
  import opened Words
  import opened VbanProtocol

  const MAX_IMAGE: nat := 48 * 1024 * 1024
  const TIMEOUT: nat := 2 * SECOND

  datatype Counters = Counters(packets: nat, completed: nat, incomplete: nat, invalid: nat, duplicates: nat)

  /** The image in progress. The stored frame, fragment index, start time and bytes mean something only
      while an image is active, so the idle state carries none of them. */
  datatype Assembly = Idle | Building(frame: Word32, next: nat, started: nat, bytes: seq<Byte>)

  datatype Completion = Completion(frame: Word32, at: nat)

  datatype Assembler = Assembler(assembly: Assembly, last: Option<Completion>, counters: Counters)
  {
    predicate Valid() {
      && (assembly.Building? ==> assembly.next < TWO16 && assembly.started < TWO64 && |assembly.bytes| <= MAX_IMAGE)
      && (last.Some? ==> last.value.at < TWO64)
    }
  }

  const EMPTY := Assembler(Idle, None, Counters(0, 0, 0, 0, 0))

  predicate HeaderAccepted(data: seq<Byte>) {
    && HEADER < |data| <= MAX_DATAGRAM
    && data[..4] == MAGIC
    && data[4] / 32 == 4
    && data[4] % 32 < 25
    && data[7] < 8
  }

  predicate FlagsAccepted(flags: Byte) {
    flags == 1 || flags == 2 || flags == 4 || flags == 5 || flags == 6
  }

  predicate Accepted(data: seq<Byte>) {
    HeaderAccepted(data) && FlagsAccepted(data[7])
  }

  function FragmentIndex(data: seq<Byte>): (i: nat)
    requires Accepted(data)
    ensures i < TWO16
  {
    data[5] as nat + 256 * data[6] as nat
  }

  function FrameNumber(data: seq<Byte>): Word32
    requires Accepted(data)
  {
    ReadLittleEndian4(data[24..28])
  }

  predicate StartsImage(data: seq<Byte>)
    requires Accepted(data)
  {
    data[7] % 2 == 1
  }

  predicate EndsImage(data: seq<Byte>)
    requires Accepted(data)
  {
    data[7] >= 4
  }

  function Discard(s: Assembler): Assembler {
    s.(assembly := Idle,
       counters := if s.assembly.Building? then s.counters.(incomplete := s.counters.incomplete + 1) else s.counters)
  }

  function Reject(s: Assembler): Assembler {
    Discard(s.(counters := s.counters.(invalid := s.counters.invalid + 1)))
  }

  function Repeat(s: Assembler): Assembler {
    s.(counters := s.counters.(duplicates := s.counters.duplicates + 1))
  }

  function Expire(s: Assembler, now: nat): (r: Assembler)
    requires s.Valid() && now < TWO64
    ensures r.Valid()
  {
    if s.assembly.Building? && Sub64(now, s.assembly.started) > TIMEOUT then Discard(s) else s
  }

  /** Whether a frame number belongs to the image completed last, or an older one, less than a timeout ago. */
  predicate RecentlyDone(s: Assembler, frame: Word32, now: nat)
    requires s.Valid() && now < TWO64
  {
    && s.last.Some?
    && Sub64(now, s.last.value.at) < TIMEOUT
    && (frame == s.last.value.frame || IsOld(frame, s.last.value.frame))
  }

  function Push(s: Assembler, data: seq<Byte>, now: nat): (r: (Assembler, Option<seq<Byte>>))
    requires s.Valid() && now < TWO64
    ensures r.0.Valid()
  {
    var e := Expire(s, now);
    var s1 := e.(counters := e.counters.(packets := e.counters.packets + 1));
    if !Accepted(data) then (Reject(s1), None)
    else
      var frame := FrameNumber(data);
      if RecentlyDone(s1, frame, now) then (Repeat(s1), None)
      else if s1.assembly.Building? && frame != s1.assembly.frame && IsOld(frame, s1.assembly.frame) then
        (Repeat(s1), None)
      else if !StartsImage(data) then Continue(s1, data, now)
      else if FragmentIndex(data) != 0 then (Reject(s1), None)
      else if s1.assembly.Building? && frame == s1.assembly.frame then (Repeat(s1), None)
      else Continue(Discard(s1).(assembly := Building(frame, 0, now, [])), data, now)
  }

  /** The part of `push` that every fragment which may extend an image goes through. */
  function Continue(s: Assembler, data: seq<Byte>, now: nat): (r: (Assembler, Option<seq<Byte>>))
    requires s.Valid() && now < TWO64 && Accepted(data)
    ensures r.0.Valid()
  {
    match s.assembly
    case Idle => (s, None)
    case Building(frame, next, started, bytes) =>
      if FrameNumber(data) != frame then
        (if IsOld(FrameNumber(data), frame) then Repeat(s) else Discard(s), None)
      else if FragmentIndex(data) != next then
        (if FragmentIndex(data) < next then Repeat(s) else Discard(s), None)
      else if |data| - HEADER > MAX_IMAGE - |bytes| then (Reject(s), None)
      else
        var whole := bytes + data[HEADER..];
        if EndsImage(data) then
          (s.(assembly := Idle, last := Some(Completion(frame, now)),
              counters := s.counters.(completed := s.counters.completed + 1)), Some(whole))
        else (s.(assembly := Building(frame, (next + 1) % TWO16, started, whole)), None)
  }

  /** The calls of the video worker: a datagram, or an idle moment in which only the timeout is looked at. */
  datatype Input = Datagram(data: seq<Byte>, at: nat) | Quiet(at: nat)

  function Step(s: Assembler, input: Input): (r: (Assembler, Option<seq<Byte>>))
    requires s.Valid() && input.at < TWO64
    ensures r.0.Valid()
  {
    match input
    case Datagram(data, at) => Push(s, data, at)
    case Quiet(at) => (Expire(s, at), None)
  }

  ghost predicate Timely(inputs: seq<Input>) {
    forall i | 0 <= i < |inputs| :: inputs[i].at < TWO64
  }

  function Run(s: Assembler, inputs: seq<Input>): (r: Assembler)
    requires s.Valid() && Timely(inputs)
    ensures r.Valid()
  {
    if inputs == [] then s else Step(Run(s, inputs[..|inputs| - 1]), inputs[|inputs| - 1]).0
  }

  /** What the last of the inputs returned. */
  function Returned(s: Assembler, inputs: seq<Input>): Option<seq<Byte>>
    requires s.Valid() && Timely(inputs) && inputs != []
  {
    Step(Run(s, inputs[..|inputs| - 1]), inputs[|inputs| - 1]).1
  }

  /** The input opens a new image: a first fragment that is neither outdated nor a repetition. */
  predicate OpensImage(s: Assembler, input: Input)
    requires s.Valid() && input.at < TWO64
  {
    && input.Datagram?
    && Accepted(input.data) && StartsImage(input.data) && FragmentIndex(input.data) == 0
    && var frame, now := FrameNumber(input.data), Expire(s, input.at);
       && !RecentlyDone(now, frame, input.at)
       && !(now.assembly.Building? && (frame == now.assembly.frame || IsOld(frame, now.assembly.frame)))
  }

  function Opened(s: Assembler, inputs: seq<Input>): nat
    requires s.Valid() && Timely(inputs)
  {
    if inputs == [] then 0
    else
      var n := |inputs| - 1;
      Opened(s, inputs[..n]) + if OpensImage(Run(s, inputs[..n]), inputs[n]) then 1 else 0
  }

  /** Images the counters account for: completed, given up, and the one in progress. */
  function Accounted(s: Assembler): nat {
    s.counters.completed + s.counters.incomplete + if s.assembly.Building? then 1 else 0
  }

  lemma StepConserves(s: Assembler, input: Input)
    requires s.Valid() && input.at < TWO64
    ensures Accounted(Step(s, input).0) == Accounted(s) + if OpensImage(s, input) then 1 else 0
  {
    hide FragmentIndex, FrameNumber, HeaderAccepted, FlagsAccepted;
  }

  /** Every image opened ends up completed, counted as incomplete, or still in progress, whatever arrives. */
  lemma {:induction false} ImagesConserved(s: Assembler, inputs: seq<Input>)
    requires s.Valid() && Timely(inputs)
    ensures Accounted(Run(s, inputs)) == Accounted(s) + Opened(s, inputs)
  {
    hide Step, OpensImage, Accounted;
    if inputs != [] {
      ImagesConserved(s, inputs[..|inputs| - 1]);
      StepConserves(Run(s, inputs[..|inputs| - 1]), inputs[|inputs| - 1]);
    }
  }

  /** The number and the time of the image returned last, if any was. */
  function LastReturned(s: Assembler, inputs: seq<Input>): Option<Completion>
    requires s.Valid() && Timely(inputs)
  {
    if inputs == [] then s.last
    else
      var n := |inputs| - 1;
      if Returned(s, inputs).Some? && inputs[n].Datagram? && Accepted(inputs[n].data) then
        Some(Completion(FrameNumber(inputs[n].data), inputs[n].at))
      else LastReturned(s, inputs[..n])
  }

  lemma StepRemembers(s: Assembler, input: Input)
    requires s.Valid() && input.at < TWO64
    ensures var r := Step(s, input);
            && (r.1.Some? ==>
                  && input.Datagram? && Accepted(input.data)
                  && r.0.last == Some(Completion(FrameNumber(input.data), input.at))
                  && (s.last.Some? && Sub64(input.at, s.last.value.at) < 2_000_000_000 ==>
                        0 < Ahead(FrameNumber(input.data), s.last.value.frame) < 0x8000_0000))
            && (r.1.None? ==> r.0.last == s.last)
  {
    hide FragmentIndex, FrameNumber, HeaderAccepted, FlagsAccepted;
  }

  lemma {:induction false} LastIsRemembered(s: Assembler, inputs: seq<Input>)
    requires s.Valid() && Timely(inputs)
    ensures Run(s, inputs).last == LastReturned(s, inputs)
  {
    hide Step, Accepted, FrameNumber;
    if inputs != [] {
      LastIsRemembered(s, inputs[..|inputs| - 1]);
      StepRemembers(Run(s, inputs[..|inputs| - 1]), inputs[|inputs| - 1]);
    }
  }

  /** Within two seconds of an image only one with a newer number is returned: none twice, and none out of order. */
  lemma NewerFollowsWithinTimeout(s: Assembler, inputs: seq<Input>)
    requires s.Valid() && Timely(inputs) && inputs != [] && Returned(s, inputs).Some?
    ensures var input, last := inputs[|inputs| - 1], LastReturned(s, inputs[..|inputs| - 1]);
            && input.Datagram? && Accepted(input.data)
            && (last.Some? ==> last.value.at < TWO64)
            && (last.Some? && Sub64(input.at, last.value.at) < 2_000_000_000 ==>
                  0 < Ahead(FrameNumber(input.data), last.value.frame) < 0x8000_0000)
  {
    hide Step, Accepted, FrameNumber, Sub64, Ahead;
    LastIsRemembered(s, inputs[..|inputs| - 1]);
    StepRemembers(Run(s, inputs[..|inputs| - 1]), inputs[|inputs| - 1]);
  }

  /** The number is not a newer one than that of an image returned less than two seconds ago. */
  predicate Outdated(s: Assembler, frame: Word32, now: nat)
    requires s.Valid() && now < TWO64
  {
    && s.last.Some? && Sub64(now, s.last.value.at) < 2_000_000_000
    && !(0 < Ahead(frame, s.last.value.frame) < 0x8000_0000)
  }

  /** The datagram is the next fragment of the image in progress. */
  predicate IsNextFragment(s: Assembler, data: seq<Byte>, now: nat)
    requires s.Valid() && now < TWO64 && s.assembly.Building?
  {
    && Accepted(data) && FrameNumber(data) == s.assembly.frame && !Outdated(s, s.assembly.frame, now)
    && !StartsImage(data) && FragmentIndex(data) == s.assembly.next
    && |s.assembly.bytes| + |data| - HEADER <= 48 * 1024 * 1024
  }

  /** The datagram shows that the image in progress cannot be completed any more: it is none of a picture, it belongs
      to a newer image, or it is one of the image's own that comes too early, is marked wrongly or is too long. */
  predicate ShowsLoss(s: Assembler, data: seq<Byte>, now: nat)
    requires s.Valid() && now < TWO64 && s.assembly.Building?
  {
    || !Accepted(data)
    || (var ahead := Ahead(FrameNumber(data), s.assembly.frame);
        && !Outdated(s, FrameNumber(data), now)
        && (0 < ahead < 0x8000_0000
            || (ahead == 0 && if StartsImage(data) then FragmentIndex(data) != 0
                              else FragmentIndex(data) > s.assembly.next
                                   || (FragmentIndex(data) == s.assembly.next
                                       && |s.assembly.bytes| + |data| - HEADER > 48 * 1024 * 1024))))
  }

  /** An image in progress is given up if and only if more than two seconds have passed since its first fragment, or a
      datagram shows a loss; it grows by its next fragment, and is returned with the one marked as the last; and it
      stays as it is whatever else comes. */
  lemma ImageInProgress(s: Assembler, data: seq<Byte>, now: nat)
    requires s.Valid() && now < TWO64 && s.assembly.Building?
    ensures var a := s.assembly;
            var (t, image) := Push(s, data, now);
            var lost := Sub64(now, a.started) > 2_000_000_000 || ShowsLoss(s, data, now);
            && (t.counters.incomplete == s.counters.incomplete + if lost then 1 else 0)
            && (lost && t.assembly.Building? ==> t.assembly.started == now && t.assembly.next == 1)
            && (!lost ==>
                  if !IsNextFragment(s, data, now) then t.assembly == a && image == None
                  else
                    var whole := a.bytes + data[HEADER..];
                    if EndsImage(data) then t.assembly == Idle && image == Some(whole)
                    else image == None && t.assembly == Building(a.frame, (a.next + 1) % 0x1_0000, a.started, whole))
  {
    hide FragmentIndex, FrameNumber, FlagsAccepted;
  }

  class FrameAssembler {
    var active: bool
    var haveCompleted: bool
    var frame: Word32
    var completedFrame: Word32
    var next: nat
    var started: nat
    var completedAt: nat
    var bytes: seq<Byte>
    var counters: Counters

    ghost function Model(): Assembler
      reads this
    {
      Assembler(if active then Building(frame, next, started, bytes) else Idle,
                if haveCompleted then Some(Completion(completedFrame, completedAt)) else None,
                counters)
    }

    constructor ()
      ensures Model() == EMPTY
    {
      active, haveCompleted := false, false;
      frame, completedFrame, next, started, completedAt := 0, 0, 0, 0, 0;
      bytes := [];
      counters := Counters(0, 0, 0, 0, 0);
    }

    method DiscardImage()
      modifies this
      ensures Model() == Discard(old(Model()))
      ensures !active && bytes == []
    {
      if active {
        counters := counters.(incomplete := counters.incomplete + 1);
      }
      active := false;
      bytes := [];
    }

    method ExpireImage(now: nat)
      requires Model().Valid() && now < TWO64
      modifies this
      ensures Model() == Expire(old(Model()), now)
    {
      if active && Sub64(now, started) > TIMEOUT {
        DiscardImage();
      }
    }

    method CountInvalid()
      modifies this
      ensures Model() == Reject(old(Model()))
    {
      counters := counters.(invalid := counters.invalid + 1);
      DiscardImage();
    }

    method CountDuplicate()
      modifies this
      ensures Model() == Repeat(old(Model()))
    {
      counters := counters.(duplicates := counters.duplicates + 1);
    }

    method PushDatagram(data: seq<Byte>, now: nat) returns (image: Option<seq<Byte>>)
      requires Model().Valid() && now < TWO64
      modifies this
      ensures (Model(), image) == Push(old(Model()), data, now)
    {
      image := None;
      ExpireImage(now);
      counters := counters.(packets := counters.packets + 1);
      if !HeaderAccepted(data) {
        CountInvalid();
        return;
      }
      if !FlagsAccepted(data[7]) {
        CountInvalid();
        return;
      }
      var index, number := FragmentIndex(data), FrameNumber(data);
      if haveCompleted && Sub64(now, completedAt) < TIMEOUT &&
         (number == completedFrame || IsOld(number, completedFrame)) {
        CountDuplicate();
        return;
      }
      if active && number != frame && IsOld(number, frame) {
        CountDuplicate();
        return;
      }
      if StartsImage(data) {
        if index != 0 {
          CountInvalid();
          return;
        }
        if active && number == frame {
          CountDuplicate();
          return;
        }
        DiscardImage();
        active, frame, next, started := true, number, 0, now;
      }
      image := Extend(data, now);
    }

    /** The tail of `push`. The completed bytes are moved out, which leaves the field with any content. */
    method Extend(data: seq<Byte>, now: nat) returns (image: Option<seq<Byte>>)
      requires Model().Valid() && now < TWO64 && Accepted(data)
      modifies this
      ensures (Model(), image) == Continue(old(Model()), data, now)
    {
      image := None;
      var index, number := FragmentIndex(data), FrameNumber(data);
      if !active {
        return;
      }
      if number != frame {
        if IsOld(number, frame) { CountDuplicate(); } else { DiscardImage(); }
        return;
      }
      if index != next {
        if index < next { CountDuplicate(); } else { DiscardImage(); }
        return;
      }
      if |data| - HEADER > MAX_IMAGE - |bytes| {
        CountInvalid();
        return;
      }
      bytes := bytes + data[HEADER..];
      next := (next + 1) % TWO16;
      if !EndsImage(data) {
        return;
      }
      active := false;
      haveCompleted, completedFrame, completedAt := true, number, now;
      counters := counters.(completed := counters.completed + 1);
      image := Some(bytes);
      bytes := *;
    }
  }
}
