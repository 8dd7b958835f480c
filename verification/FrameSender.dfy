/** Transmission of one encoded picture (src/frame-sender.cpp): fragmentation and pacing. */
module FrameSender {
  import opened Words
  import opened VbanProtocol
  import opened FrameProtocol

  const CHUNK: nat := 1436
  const IP_OVERHEAD: nat := 66
  const DEADLINE: nat := 1_500_000_000

  type Name = s: seq<Byte> | |s| <= 16

  /** What `prepare` has validated about a stream. */
  datatype Stream = Stream(name: Name, mbps: nat, fps: nat)
  {
    predicate Valid() {
      && (mbps == 6 || mbps == 12 || mbps == 24 || mbps == 48 || mbps == 84)
      && 1 <= fps <= 30
    }

    function RateIndex(): Byte {
      if mbps == 6 then 6 else if mbps == 12 then 9 else if mbps == 24 then 11 else if mbps == 48 then 13 else 15
    }

    function BitRate(): nat {
      mbps * 1_000_000
    }
  }

  function Zeros(n: nat): (z: seq<Byte>)
    ensures |z| == n
  {
    seq(n, _ => 0)
  }

  function FragmentCount(size: nat): nat {
    (size + CHUNK - 1) / CHUNK
  }

  function FragmentLength(size: nat, k: nat): nat
    requires k < FragmentCount(size)
  {
    if size - k * CHUNK < CHUNK then size - k * CHUNK else CHUNK
  }

  function Flags(k: nat, count: nat): Byte
    requires k < count
  {
    if k == 0 then (if count == 1 then 5 else 1) else if k + 1 == count then 4 else 2
  }

  function WireSize(size: nat): nat {
    size + FragmentCount(size) * (HEADER + IP_OVERHEAD)
  }

  function WireBytes(size: nat, k: nat): nat
    requires k < FragmentCount(size)
  {
    HEADER + FragmentLength(size, k) + IP_OVERHEAD
  }

  /** The datagram that carries fragment `k` of a picture. */
  function Fragment(stream: Stream, frame: Word32, picture: seq<Byte>, k: nat): (d: seq<Byte>)
    requires k < FragmentCount(|picture|)
    ensures |d| == HEADER + FragmentLength(|picture|, k)
  {
    MAGIC + [0x80 + stream.RateIndex(), k % 256, k / 256 % 256, Flags(k, FragmentCount(|picture|))]
    + (stream.name + Zeros(16 - |stream.name|)) + LittleEndian4(frame)
    + picture[k * CHUNK..k * CHUNK + FragmentLength(|picture|, k)]
  }

  predicate WithinBudget(stream: Stream, size: nat) {
    0 < size <= MAX_IMAGE && WireSize(size) <= stream.BitRate() / 8
  }

  function TransferTime(stream: Stream, size: nat): nat
    requires stream.Valid()
  {
    MulDiv(WireSize(size), 8_000_000_000, stream.BitRate())
  }

  function PictureTime(stream: Stream, size: nat): nat
    requires stream.Valid()
  {
    Max(TransferTime(stream, size), 850_000_000 / stream.fps)
  }

  /** The pause after a picture, in which its receiver decodes it. */
  function DecodeGap(stream: Stream, size: nat): nat
    requires stream.Valid()
  {
    Max(2_000_000, Min(TransferTime(stream, size) / 8, 25_000_000))
  }

  /** Timers count in steps of 100 ns at worst. */
  function Granular(ns: nat): nat {
    ns / 100 * 100
  }

  /** How long the sender stays silent after fragment `k`. */
  function Gap(stream: Stream, size: nat, k: nat): nat
    requires stream.Valid() && k < FragmentCount(size)
  {
    MulDiv(WireBytes(size, k), PictureTime(stream, size), WireSize(size))
  }

  /** One datagram on the wire, with the clock readings just before and just after its write. */
  datatype Write = Write(bytes: seq<Byte>, checkedAt: nat, sentAt: nat)

  /** The datagram is fragment `k`, written before the deadline and after the gap its predecessor owes. */
  ghost predicate WrittenInTime(
    stream: Stream, frame: Word32, picture: seq<Byte>, began: nat, k: nat, previous: Option<Write>, write: Write)
    requires stream.Valid() && k < FragmentCount(|picture|) && (previous.Some? ==> k > 0)
  {
    && write.bytes == Fragment(stream, frame, picture, k)
    && began <= write.checkedAt <= began + 1_500_000_000
    && write.checkedAt <= write.sentAt
    && (previous.Some? ==> previous.value.sentAt + Gap(stream, |picture|, k - 1) <= write.checkedAt)
  }

  function Predecessor(sent: seq<Write>, k: nat): (w: Option<Write>)
    requires k <= |sent|
    ensures w.Some? ==> k > 0
  {
    if k == 0 then None else Some(sent[k - 1])
  }

  ghost predicate IsTransmission(stream: Stream, frame: Word32, picture: seq<Byte>, began: nat, sent: seq<Write>)
    requires stream.Valid() && |sent| <= FragmentCount(|picture|)
  {
    forall k | 0 <= k < |sent| :: WrittenInTime(stream, frame, picture, began, k, Predecessor(sent, k), sent[k])
  }

  /** The last fragment is paced like every other, and the pause for decoding follows. */
  ghost predicate Rested(stream: Stream, size: nat, sent: seq<Write>, finished: nat)
    requires stream.Valid()
  {
    && 0 < |sent| == FragmentCount(size)
    && sent[|sent| - 1].sentAt + Gap(stream, size, |sent| - 1) + Granular(DecodeGap(stream, size)) <= finished
  }

  /** The gap that the last datagram written owes has passed. */
  ghost predicate Paced(stream: Stream, size: nat, sent: seq<Write>, finished: nat)
    requires stream.Valid() && |sent| <= FragmentCount(size)
  {
    sent != [] ==> sent[|sent| - 1].sentAt + Gap(stream, size, |sent| - 1) <= finished
  }

  class Session {
    const stream: Stream
    var sequence: Word32
    var stop: bool
    var frames: nat
    var packets: nat
    var dropped: nat

    constructor (stream: Stream, sequence: Word32)
      ensures this.stream == stream && this.sequence == sequence && !stop
      ensures frames == packets == dropped == 0
    {
      this.stream, this.sequence, stop := stream, sequence, false;
      frames, packets, dropped := 0, 0, 0;
    }

    /** A reading of the steady clock; meanwhile another thread may have asked the session to stop. */
    method Observe(after: nat) returns (now: nat)
      modifies `stop
      ensures now >= after && (old(stop) ==> stop)
    {
      var requested: bool := *;
      now :| now >= after;
      stop := stop || requested;
    }

    /** The wait ends at the deadline or at a stop request; a clock that never arrives is not modelled. */
    method PaceUntil(deadline: nat, after: nat) returns (now: nat)
      modifies `stop
      ensures now >= after && (old(stop) ==> stop)
      ensures stop || now >= deadline
    {
      now := Observe(after);
      if !stop && now < deadline {
        now := deadline;
      }
    }

    /** A timer that a stop request interrupts. */
    method Wait(duration: nat, after: nat) returns (now: nat)
      modifies `stop
      ensures now >= after && (old(stop) ==> stop)
      ensures stop || now >= after + Granular(duration)
    {
      now := Observe(after);
      if !stop && now < after + Granular(duration) {
        now := after + Granular(duration);
      }
    }

    /** Pacing of the last datagram, and the pause for decoding. */
    method Rest(picture: seq<Byte>, duration: nat, previousSent: nat, previousBytes: nat, ghost sent: seq<Write>)
      returns (finished: nat)
      requires stream.Valid() && WithinBudget(stream, |picture|) && duration == PictureTime(stream, |picture|)
      requires |sent| == FragmentCount(|picture|)
      requires |sent| > 0 ==>
                 previousSent == sent[|sent| - 1].sentAt && previousBytes == WireBytes(|picture|, |sent| - 1)
      modifies `stop
      ensures finished >= previousSent && (old(stop) ==> stop)
      ensures stop || Rested(stream, |picture|, sent, finished)
    {
      hide *;
      LastGap(stream, picture, sent, previousBytes, duration);
      finished := PaceUntil(previousSent + MulDiv(previousBytes, duration, WireSize(|picture|)), previousSent);
      if !stop {
        finished := Wait(DecodeGap(stream, |picture|), finished);
      }
      RestedAfter(stream, picture, sent, finished, previousSent);
    }

    /** `network` says which of the picture's datagrams the socket takes. */
    method SendImage(picture: seq<Byte>, start: nat, network: nat -> bool)
      returns (ok: bool, began: nat, sent: seq<Write>, finished: nat)
      requires stream.Valid()
      modifies this
      ensures sequence == if WithinBudget(stream, |picture|) then Next32(old(sequence)) else old(sequence)
      ensures |sent| <= FragmentCount(|picture|) && IsTransmission(stream, old(sequence), picture, began, sent)
      ensures !WithinBudget(stream, |picture|) ==> sent == []
      ensures ok <==> picture != [] && |sent| == FragmentCount(|picture|)
      ensures frames == old(frames) + if ok then 1 else 0
      ensures packets == old(packets) + |sent|
      ensures start <= began <= finished
      ensures stop || Paced(stream, |picture|, sent, finished)
      ensures ok ==> stop || Rested(stream, |picture|, sent, finished)
      ensures ok ==> dropped == old(dropped)
      ensures !ok ==> if dropped == old(dropped) then stop else dropped == old(dropped) + 1
      ensures !ok && WithinBudget(stream, |picture|) ==> stop || !network(|sent|) || finished > began + 1_500_000_000
      ensures forall k | 0 <= k < |sent| :: network(k)
    {
      began, sent, ok, finished := start, [], false, start;
      NothingSent(stream, sequence, picture, began);
      var count := FragmentCount(|picture|);
      var wire := WireSize(|picture|);
      if |picture| == 0 || |picture| > MAX_IMAGE || wire > stream.BitRate() / 8 {
        dropped := dropped + 1;
        return;
      }
      assert WithinBudget(stream, |picture|);
      hide *;
      var packet := new Byte[MAX_DATAGRAM](_ => 0);
      WriteHeader(packet, sequence);
      ghost var frame := sequence;
      sequence := Next32(sequence);
      var duration := PictureTime(stream, |picture|);
      began := Observe(start);
      var previousSent, previousBytes;
      sent, previousSent, previousBytes, finished :=
        SendFragments(packet, frame, picture, count, duration, began, network);
      if |sent| < count {
        return;
      }
      frames, ok := frames + 1, true;
      finished := Rest(picture, duration, previousSent, previousBytes, sent);
      RestedIsPaced(stream, |picture|, sent, finished);
    }

    /** The sending loop; it stops short when the session stops, misses its deadline or fails. Then too the last
        datagram written has been paced, unless the session stops. */
    method SendFragments(
      packet: array<Byte>, ghost frame: Word32, picture: seq<Byte>, count: nat, duration: nat, began: nat,
      network: nat -> bool)
      returns (sent: seq<Write>, previousSent: nat, previousBytes: nat, ended: nat)
      requires stream.Valid() && HeaderWritten(packet[..], frame)
      requires count == FragmentCount(|picture|) && duration == PictureTime(stream, |picture|)
      modifies packet, `stop, `packets, `dropped
      ensures |sent| <= FragmentCount(|picture|) && IsTransmission(stream, frame, picture, began, sent)
      ensures packets == old(packets) + |sent|
      ensures if |sent| == count then dropped == old(dropped)
              else if dropped == old(dropped) then stop else dropped == old(dropped) + 1
      ensures began <= previousSent <= ended
      ensures |sent| < count ==> stop || Paced(stream, |picture|, sent, ended)
      ensures |sent| < count ==> stop || !network(|sent|) || ended > began + 1_500_000_000
      ensures forall k | 0 <= k < |sent| :: network(k)
      ensures |sent| > 0 ==>
                previousSent == sent[|sent| - 1].sentAt && previousBytes == WireBytes(|picture|, |sent| - 1)
    {
      hide *;
      NothingSent(stream, frame, picture, began);
      sent, previousSent, previousBytes, ended := [], began, 0, began;
      for index := 0 to count
        invariant HeaderWritten(packet[..], frame)
        invariant |sent| == index && forall k | 0 <= k < index :: network(k)
        invariant IsTransmission(stream, frame, picture, began, sent)
        invariant packets == old(packets) + index && dropped == old(dropped)
        invariant began <= previousSent == ended
        invariant index > 0 ==>
                    previousSent == sent[index - 1].sentAt && previousBytes == WireBytes(|picture|, index - 1)
      {
        var write;
        write, ended :=
          SendFragment(
            packet, frame, picture, index, count, duration, began, previousSent, previousBytes, sent, network);
        if write.None? {
          PacedAfter(stream, |picture|, sent, ended);
          return;
        }
        previousSent := write.value.sentAt;
        previousBytes := |write.value.bytes| + IP_OVERHEAD;
        TransmissionGrows(stream, frame, picture, began, sent, write.value);
        sent := sent + [write.value];
      }
    }

    /** One turn of the sending loop: nothing is returned when the session stops, misses its deadline or fails. */
    method SendFragment(
      packet: array<Byte>, ghost frame: Word32, picture: seq<Byte>, index: nat, count: nat,
      duration: nat, began: nat, previousSent: nat, previousBytes: nat, ghost sent: seq<Write>, network: nat -> bool)
      returns (write: Option<Write>, at: nat)
      requires stream.Valid() && HeaderWritten(packet[..], frame)
      requires count == FragmentCount(|picture|) && index < count && began <= previousSent
      requires |sent| == index && duration == PictureTime(stream, |picture|)
      requires index > 0 ==> previousSent == sent[index - 1].sentAt && previousBytes == WireBytes(|picture|, index - 1)
      modifies packet, `stop, `packets, `dropped
      ensures HeaderWritten(packet[..], frame)
      ensures at >= previousSent && (write.Some? ==> at == write.value.sentAt)
      ensures if write.Some? then network(index) else stop || !network(index) || at > began + 1_500_000_000
      ensures write.None? && index > 0 ==> stop || previousSent + Gap(stream, |picture|, index - 1) <= at
      ensures write.Some? ==>
                && WrittenInTime(stream, frame, picture, began, index, Predecessor(sent, index), write.value)
                && |write.value.bytes| + IP_OVERHEAD == WireBytes(|picture|, index) && began <= write.value.sentAt
                && packets == old(packets) + 1 && dropped == old(dropped)
      ensures write.None? ==>
                && packets == old(packets) && (if dropped == old(dropped) then stop else dropped == old(dropped) + 1)
    {
      hide MulDiv, Fragment, HeaderWritten;
      write, at := None, previousSent;
      if stop {
        return;
      }
      if index > 0 {
        at := PaceUntil(previousSent + MulDiv(previousBytes, duration, WireSize(|picture|)), at);
        if stop {
          return;
        }
      }
      at := Observe(at);
      if at - began > DEADLINE {
        dropped := dropped + 1;
        return;
      }
      var checkedAt := at;
      var length := if |picture| - index * CHUNK < CHUNK then |picture| - index * CHUNK else CHUNK;
      WriteFragment(packet, frame, picture, index, count, length);
      if !network(index) {
        dropped := dropped + 1;
        return;
      }
      at := Observe(at);
      packets := packets + 1;
      write := Some(Write(packet[..HEADER + length], checkedAt, at));
    }

    method WriteHeader(packet: array<Byte>, frame: Word32)
      requires packet.Length == MAX_DATAGRAM && forall i | 0 <= i < packet.Length :: packet[i] == 0
      modifies packet
      ensures HeaderWritten(packet[..], frame)
    {
      forall i | 0 <= i < 4 { packet[i] := MAGIC[i]; }
      packet[4] := 0x80 + stream.RateIndex();
      forall i | 0 <= i < |stream.name| { packet[8 + i] := stream.name[i]; }
      var number := LittleEndian4(frame);
      forall i | 0 <= i < 4 { packet[24 + i] := number[i]; }
      assert packet[8..24] == stream.name + Zeros(16 - |stream.name|);
      assert packet[24..28] == number;
      assert packet[8..28] == packet[8..24] + packet[24..28];
    }

    /** The bytes of the packet buffer that do not change from one fragment to the next. */
    ghost predicate HeaderWritten(packet: seq<Byte>, frame: Word32) {
      && |packet| == MAX_DATAGRAM
      && packet[..5] == MAGIC + [0x80 + stream.RateIndex()]
      && packet[8..28] == stream.name + Zeros(16 - |stream.name|) + LittleEndian4(frame)
    }

    method WriteFragment(
      packet: array<Byte>, ghost frame: Word32, picture: seq<Byte>, index: nat, count: nat, length: nat)
      requires HeaderWritten(packet[..], frame)
      requires count == FragmentCount(|picture|) && index < count && length == FragmentLength(|picture|, index)
      modifies packet
      ensures HeaderWritten(packet[..], frame)
      ensures packet[..HEADER + length] == Fragment(stream, frame, picture, index)
    {
      ghost var was := packet[..];
      packet[5] := index % 256;
      packet[6] := index / 256 % 256;
      packet[7] := if index == 0 then 1 else 2;
      if index + 1 == count {
        packet[7] := if index == 0 then 5 else 4;
      }
      var piece := picture[index * CHUNK..index * CHUNK + length];
      assert packet[..5] == was[..5] && packet[8..28] == was[8..28];
      CopyPayload(packet, piece);
      var p := packet[..];
      assert p[..5] == p[..28][..5] == was[..5] && p[8..28] == p[..28][8..28] == was[8..28];
      AssembleFragment(p, frame, picture, index, length);
      assert packet[..HEADER + length] == p[..HEADER + length];
    }

    method CopyPayload(packet: array<Byte>, piece: seq<Byte>)
      requires HEADER + |piece| <= packet.Length
      modifies packet
      ensures packet[..HEADER] == old(packet[..HEADER]) && packet[HEADER..HEADER + |piece|] == piece
    {
      for i := 0 to |piece|
        invariant packet[..HEADER] == old(packet[..HEADER])
        invariant forall k | 0 <= k < i :: packet[HEADER + k] == piece[k]
      {
        packet[HEADER + i] := piece[i];
      }
    }

    lemma AssembleFragment(p: seq<Byte>, frame: Word32, picture: seq<Byte>, index: nat, length: nat)
      requires HeaderWritten(p, frame)
      requires index < FragmentCount(|picture|) && length == FragmentLength(|picture|, index)
      requires p[5] == index % 256 && p[6] == index / 256 % 256 && p[7] == Flags(index, FragmentCount(|picture|))
      requires p[HEADER..HEADER + length] == picture[index * CHUNK..index * CHUNK + length]
      ensures p[..HEADER + length] == Fragment(stream, frame, picture, index)
    {
      assert p[..8] == p[..5] + [p[5], p[6], p[7]];
      assert p[..HEADER + length] == p[..8] + p[8..28] + p[28..HEADER + length];
    }
  }

  lemma LastGap(stream: Stream, picture: seq<Byte>, sent: seq<Write>, previousBytes: nat, duration: nat)
    requires stream.Valid() && WithinBudget(stream, |picture|) && |sent| == FragmentCount(|picture|)
    requires |sent| > 0 ==> previousBytes == WireBytes(|picture|, |sent| - 1)
    requires duration == PictureTime(stream, |picture|)
    ensures |sent| > 0 && WireSize(|picture|) > 0
    ensures MulDiv(previousBytes, duration, WireSize(|picture|)) == Gap(stream, |picture|, |sent| - 1)
  {
  }

  lemma RestedAfter(stream: Stream, picture: seq<Byte>, sent: seq<Write>, finished: nat, previousSent: nat)
    requires stream.Valid() && 0 < |sent| == FragmentCount(|picture|) && previousSent == sent[|sent| - 1].sentAt
    ensures finished >= previousSent + Gap(stream, |picture|, |sent| - 1) + Granular(DecodeGap(stream, |picture|))
            <==> Rested(stream, |picture|, sent, finished)
  {
  }

  lemma RestedIsPaced(stream: Stream, size: nat, sent: seq<Write>, finished: nat)
    requires stream.Valid() && |sent| == FragmentCount(size)
    ensures Rested(stream, size, sent, finished) ==> Paced(stream, size, sent, finished)
  {
    hide Gap, DecodeGap;
  }

  lemma PacedAfter(stream: Stream, size: nat, sent: seq<Write>, finished: nat)
    requires stream.Valid() && |sent| <= FragmentCount(size)
    ensures Paced(stream, size, sent, finished)
            <==> (sent != [] ==> sent[|sent| - 1].sentAt + Gap(stream, size, |sent| - 1) <= finished)
  {
  }

  lemma NothingSent(stream: Stream, frame: Word32, picture: seq<Byte>, began: nat)
    requires stream.Valid()
    ensures IsTransmission(stream, frame, picture, began, [])
  {
  }

  lemma TransmissionGrows(
    stream: Stream, frame: Word32, picture: seq<Byte>, began: nat, sent: seq<Write>, write: Write)
    requires stream.Valid() && |sent| <= FragmentCount(|picture|) && IsTransmission(stream, frame, picture, began, sent)
    requires |sent| < FragmentCount(|picture|)
    requires WrittenInTime(stream, frame, picture, began, |sent|, Predecessor(sent, |sent|), write)
    ensures IsTransmission(stream, frame, picture, began, sent + [write])
  {
    hide WrittenInTime, FragmentCount, Stream.Valid;
    forall k | 0 <= k <= |sent|
      ensures WrittenInTime(stream, frame, picture, began, k, Predecessor(sent + [write], k), (sent + [write])[k])
    {
      assert Predecessor(sent + [write], k) == Predecessor(sent, k);
    }
  }

  /** Bytes on the wire, lower-layer headers included, of fragments `i` up to `j`. */
  function WireSum(size: nat, i: nat, j: nat): nat
    requires i <= j <= FragmentCount(size)
  {
    if i == j then 0 else WireSum(size, i, j - 1) + WireBytes(size, j - 1)
  }

  /** A prefix of fragments all full except possibly the last one. */
  lemma {:induction false} WireSumPrefix(size: nat, j: nat)
    requires j <= FragmentCount(size)
    ensures WireSum(size, 0, j) == j * (HEADER + IP_OVERHEAD) + (if j * CHUNK < size then j * CHUNK else size)
  {
    if j > 0 {
      WireSumPrefix(size, j - 1);
    }
  }

  lemma {:induction false} WireSumSplit(size: nat, i: nat, j: nat)
    requires i <= j <= FragmentCount(size)
    ensures WireSum(size, 0, j) == WireSum(size, 0, i) + WireSum(size, i, j)
  {
    if i < j {
      WireSumSplit(size, i, j - 1);
    }
  }

  /** The sizes charged for the fragments add up to exactly the size the budget was checked against. */
  lemma WireSizeIsSum(size: nat)
    ensures WireSum(size, 0, FragmentCount(size)) == WireSize(size)
  {
    WireSumPrefix(size, FragmentCount(size));
  }

  lemma WireSumBound(size: nat, i: nat, j: nat)
    requires i <= j <= FragmentCount(size)
    ensures WireSum(size, i, j) <= WireSize(size)
  {
    WireSizeIsSum(size);
    WireSumSplit(size, i, j);
    WireSumSplit(size, j, FragmentCount(size));
  }

  /** One silent gap, cleared of its two integer divisions. */
  lemma GapBound(stream: Stream, size: nat, k: nat)
    requires stream.Valid() && k < FragmentCount(size)
    ensures Outlasts(8_000_000_000, WireSize(size), stream.BitRate(), WireBytes(size, k), Gap(stream, size, k))
  {
    var R, W, b := stream.BitRate(), WireSize(size), WireBytes(size, k);
    MulDivBounds(W, 8_000_000_000, R);
    MulDivBounds(b, PictureTime(stream, size), W);
    hide MulDiv;
    GapArithmetic(8_000_000_000, W, R, b, TransferTime(stream, size), PictureTime(stream, size), Gap(stream, size, k));
  }

  lemma GapArithmetic(K: nat, W: nat, R: nat, b: nat, D0: nat, D: nat, g: nat)
    requires W * K <= R * (D0 + 1) && D0 <= D && b * D <= W * (g + 1)
    ensures Outlasts(K, W, R, b, g)
  {
    ProductMonotone(D0 + 1, D + 1, R);
    ProductMonotone(W * K, R * (D + 1), b);
    ProductMonotone(b * D, W * (g + 1), R);
    assert R * (D + 1) * b == R * (b * D) + R * b;
    assert R * (W * (g + 1)) == R * W * (g + 1);
    assert K * W * b == W * K * b;
  }

  /** `S` of the `W` units of work fit the time `T` at rate `R / K`, up to the share of one time unit. */
  ghost predicate OnSchedule(K: nat, W: nat, R: nat, S: nat, T: int) {
    K * W * S <= R * W * T + R * S
  }

  /** A gap of `g` time units is long enough for `b` of `W` units of work, up to one time unit and a share. */
  ghost predicate Outlasts(K: nat, W: nat, R: nat, b: nat, g: nat) {
    K * W * b <= R * W * (g + 1) + R * b
  }

  lemma OnScheduleAtStart(K: nat, W: nat, R: nat)
    ensures OnSchedule(K, W, R, 0, 0)
  {
  }

  lemma {:induction false} GapsAddUp(
    stream: Stream, frame: Word32, picture: seq<Byte>, began: nat, sent: seq<Write>, i: nat, j: nat)
    requires stream.Valid() && |sent| <= FragmentCount(|picture|) && IsTransmission(stream, frame, picture, began, sent)
    requires i <= j < |sent|
    ensures OnSchedule(8_000_000_000, WireSize(|picture|), stream.BitRate(), WireSum(|picture|, i, j),
                       sent[j].sentAt - sent[i].sentAt + (j - i))
  {
    hide *;
    WireSumStep(|picture|, i, j);
    OnScheduleAtStart(8_000_000_000, WireSize(|picture|), stream.BitRate());
    if i < j {
      GapKept(stream, frame, picture, began, sent, j);
      var R, W, b := stream.BitRate(), WireSize(|picture|), WireBytes(|picture|, j - 1);
      var S := WireSum(|picture|, i, j - 1);
      var T, g := sent[j - 1].sentAt - sent[i].sentAt + (j - 1 - i), Gap(stream, |picture|, j - 1);
      GapsAddUp(stream, frame, picture, began, sent, i, j - 1);
      GapBound(stream, |picture|, j - 1);
      AddGap(8_000_000_000, W, R, S, b, T, g, sent[j].sentAt - sent[i].sentAt + (j - i));
    }
  }

  lemma WireSumStep(size: nat, i: nat, j: nat)
    requires i <= j <= FragmentCount(size)
    ensures WireSum(size, i, i) == 0
    ensures i < j ==> WireSum(size, i, j) == WireSum(size, i, j - 1) + WireBytes(size, j - 1)
  {
  }

  lemma GapKept(stream: Stream, frame: Word32, picture: seq<Byte>, began: nat, sent: seq<Write>, j: nat)
    requires stream.Valid() && |sent| <= FragmentCount(|picture|) && IsTransmission(stream, frame, picture, began, sent)
    requires 0 < j < |sent|
    ensures sent[j - 1].sentAt + Gap(stream, |picture|, j - 1) <= sent[j].sentAt
  {
    assert WrittenInTime(stream, frame, picture, began, j, Predecessor(sent, j), sent[j]);
  }

  lemma AddGap(K: nat, W: nat, R: nat, S: nat, b: nat, T: int, g: nat, T': int)
    requires OnSchedule(K, W, R, S, T)
    requires Outlasts(K, W, R, b, g)
    requires T + g + 1 <= T'
    ensures OnSchedule(K, W, R, S + b, T')
  {
    assert K * W * S <= R * W * T + R * S && K * W * b <= R * W * (g + 1) + R * b;
    ProductMonotone(T + (g + 1), T', R * W);
    Distribute(K * W, S, b);
    Distribute(R * W, T, g + 1);
    Distribute(R, S, b);
  }

  /** Between any two writes of one picture the average wire rate stays within the configured rate, up to one
      nanosecond for each gap and one for the picture. */
  lemma PacingBound(
    stream: Stream, frame: Word32, picture: seq<Byte>, began: nat, sent: seq<Write>, i: nat, j: nat)
    requires stream.Valid() && |sent| <= FragmentCount(|picture|) && IsTransmission(stream, frame, picture, began, sent)
    requires i < j < |sent|
    ensures 8_000_000_000 * WireSum(|picture|, i, j)
            <= stream.BitRate() * (sent[j].sentAt - sent[i].sentAt + (j - i) + 1)
  {
    hide *;
    GapsAddUp(stream, frame, picture, began, sent, i, j);
    WireSumBound(|picture|, i, j);
    RateKept(stream, |picture|, WireSum(|picture|, i, j), sent[j].sentAt - sent[i].sentAt + (j - i));
  }

  lemma RateKept(stream: Stream, size: nat, S: nat, T: int)
    requires stream.Valid() && FragmentCount(size) > 0 && S <= WireSize(size)
    requires OnSchedule(8_000_000_000, WireSize(size), stream.BitRate(), S, T)
    ensures 8_000_000_000 * S <= stream.BitRate() * (T + 1)
  {
    assert WireSize(size) > 0;
    hide *;
    PacingArithmetic(8_000_000_000, WireSize(size), stream.BitRate(), S, T);
  }

  lemma PacingArithmetic(K: nat, W: nat, R: nat, S: nat, T: int)
    requires OnSchedule(K, W, R, S, T) && S <= W && W > 0
    ensures K * S <= R * (T + 1)
  {
    ProductMonotone(S, W, R);
    Distribute(R * W, T, 1);
    assert K * W * S == (K * S) * W;
    assert R * W * (T + 1) == (R * (T + 1)) * W;
    CancelFactor(K * S, R * (T + 1), W);
  }

  /** The bits of `bytes` fit the time at the rate. */
  ghost predicate RateHolds(rate: nat, bytes: nat, time: int) {
    8_000_000_000 * bytes <= rate * time
  }

  /** From its start to its end, a picture or the part of it that was sent keeps to the configured rate, up to a
      nanosecond for each datagram and one more. */
  lemma PartKeepsRate(stream: Stream, frame: Word32, picture: seq<Byte>, began: nat, sent: seq<Write>, finished: nat)
    requires stream.Valid() && |sent| <= FragmentCount(|picture|)
    requires IsTransmission(stream, frame, picture, began, sent)
    requires began <= finished && Paced(stream, |picture|, sent, finished)
    ensures RateHolds(stream.BitRate(), WireSum(|picture|, 0, |sent|), finished - began + |sent| + 1)
  {
    hide *;
    var R, W, n := stream.BitRate(), WireSize(|picture|), |sent|;
    var S := WireSum(|picture|, 0, n);
    WireSumStep(|picture|, 0, n);
    if n == 0 {
      OnScheduleAtStart(8_000_000_000, W, R);
      ProductMonotone(0, finished - began + 1, R);
    } else {
      var j := n - 1;
      PacedAfter(stream, |picture|, sent, finished);
      StartsAfter(stream, frame, picture, began, sent);
      GapsAddUp(stream, frame, picture, began, sent, 0, j);
      GapBound(stream, |picture|, j);
      AddGap(8_000_000_000, W, R, WireSum(|picture|, 0, j), WireBytes(|picture|, j),
          sent[j].sentAt - sent[0].sentAt + j,
             Gap(stream, |picture|, j), finished - began + n);
      WireSumBound(|picture|, 0, n);
      RateKept(stream, |picture|, S, finished - began + n);
    }
    RateIs(R, S, finished - began + n + 1);
  }

  /** A whole picture keeps to the rate with all its bytes, from its start to the end of its pause. */
  lemma PictureKeepsRate(stream: Stream, frame: Word32, picture: seq<Byte>, began: nat, sent: seq<Write>, finished: nat)
    requires stream.Valid() && |sent| <= FragmentCount(|picture|)
    requires IsTransmission(stream, frame, picture, began, sent)
    requires began <= finished && Rested(stream, |picture|, sent, finished)
    ensures RateHolds(stream.BitRate(), WireSize(|picture|), finished - began + |sent| + 1)
  {
    hide *;
    RestedCount(stream, |picture|, sent, finished);
    RestedIsPaced(stream, |picture|, sent, finished);
    PartKeepsRate(stream, frame, picture, began, sent, finished);
    WireSizeIsSum(|picture|);
  }

  /** `bytes` of `whole` bytes take their share of a duration. */
  ghost predicate TakesShare(duration: nat, whole: nat, bytes: nat, time: int) {
    bytes * duration <= whole * time
  }

  lemma GapTakesShare(stream: Stream, size: nat, k: nat)
    requires stream.Valid() && k < FragmentCount(size)
    ensures TakesShare(PictureTime(stream, size), WireSize(size), WireBytes(size, k), Gap(stream, size, k) + 1)
  {
    MulDivBounds(WireBytes(size, k), PictureTime(stream, size), WireSize(size));
    hide MulDiv;
  }

  lemma SharesAdd(D: nat, W: nat, S: nat, b: nat, T: int, g: nat, T': int)
    requires TakesShare(D, W, S, T) && TakesShare(D, W, b, g) && T + g <= T'
    ensures TakesShare(D, W, S + b, T')
  {
    Distribute(D, S, b);
    Distribute(W, T, g);
    ProductMonotone(T + g, T', W);
  }

  lemma NoShare(D: nat, W: nat)
    ensures TakesShare(D, W, 0, 0)
  {
  }

  lemma WholeShare(D: nat, W: nat, T: int)
    requires TakesShare(D, W, W, T) && W > 0
    ensures D <= T
  {
    CancelFactor(D, T, W);
  }

  /** A picture is not sent in a burst: its bytes are spread evenly over its duration, up to a nanosecond a datagram. */
  lemma {:induction false} BytesAreSpread(
    stream: Stream, frame: Word32, picture: seq<Byte>, began: nat, sent: seq<Write>, i: nat, j: nat)
    requires stream.Valid() && |sent| <= FragmentCount(|picture|) && IsTransmission(stream, frame, picture, began, sent)
    requires i <= j < |sent|
    ensures TakesShare(PictureTime(stream, |picture|), WireSize(|picture|), WireSum(|picture|, i, j),
                       sent[j].sentAt - sent[i].sentAt + (j - i))
  {
    hide *;
    WireSumStep(|picture|, i, j);
    NoShare(PictureTime(stream, |picture|), WireSize(|picture|));
    if i < j {
      GapKept(stream, frame, picture, began, sent, j);
      GapTakesShare(stream, |picture|, j - 1);
      BytesAreSpread(stream, frame, picture, began, sent, i, j - 1);
      SharesAdd(PictureTime(stream, |picture|), WireSize(|picture|), WireSum(|picture|, i, j - 1),
                WireBytes(|picture|, j - 1), sent[j - 1].sentAt - sent[i].sentAt + (j - 1 - i),
                Gap(stream, |picture|, j - 1) + 1,
                sent[j].sentAt - sent[i].sentAt + (j - i));
    }
  }

  /** From its first datagram to the end of its pause, a whole picture takes 85% of its frame interval, or as long as
      its bytes take at the configured rate, and then an eighth of that for decoding, but no less than 2 ms and no
      more than 25 ms. */
  ghost predicate TakesItsTime(stream: Stream, size: nat, time: int)
    requires stream.Valid()
  {
    var transfer := MulDiv(WireSize(size), 8_000_000_000, stream.BitRate());
    && time >= 850_000_000 / stream.fps + 2_000_000
    && time >= transfer + if transfer > 200_000_000 then 25_000_000
                          else if transfer < 16_000_000 then 2_000_000
                          else transfer / 8 - 99
  }

  lemma PictureIsSpread(stream: Stream, frame: Word32, picture: seq<Byte>, began: nat, sent: seq<Write>, finished: nat)
    requires stream.Valid() && |sent| <= FragmentCount(|picture|)
    requires IsTransmission(stream, frame, picture, began, sent) && Rested(stream, |picture|, sent, finished)
    ensures sent != [] && TakesItsTime(stream, |picture|, finished - sent[0].sentAt + |sent|)
  {
    hide *;
    var n, D, W := |sent|, PictureTime(stream, |picture|), WireSize(|picture|);
    RestedEnds(stream, |picture|, sent, finished);
    BytesAreSpread(stream, frame, picture, began, sent, 0, n - 1);
    GapTakesShare(stream, |picture|, n - 1);
    WireSumStep(|picture|, 0, n);
    WireSizeIsSum(|picture|);
    var paced := sent[n - 1].sentAt + Gap(stream, |picture|, n - 1) - sent[0].sentAt + n;
    SharesAdd(D, W, WireSum(|picture|, 0, n - 1), WireBytes(|picture|, n - 1),
              sent[n - 1].sentAt - sent[0].sentAt + (n - 1), Gap(stream, |picture|, n - 1) + 1, paced);
    WholeShare(D, W, paced);
    TimesAdd(stream, |picture|, paced, finished - sent[0].sentAt + n);
  }

  lemma RestedEnds(stream: Stream, size: nat, sent: seq<Write>, finished: nat)
    requires stream.Valid() && Rested(stream, size, sent, finished)
    ensures 0 < |sent| == FragmentCount(size) && WireSize(size) > 0
    ensures sent[|sent| - 1].sentAt + Gap(stream, size, |sent| - 1) + Granular(DecodeGap(stream, size)) <= finished
  {
  }

  lemma TimesAdd(stream: Stream, size: nat, paced: int, time: int)
    requires stream.Valid() && PictureTime(stream, size) <= paced && paced + Granular(DecodeGap(stream, size)) <= time
    ensures TakesItsTime(stream, size, time)
  {
    hide MulDiv, WireSize;
  }

  lemma RateIs(rate: nat, bytes: nat, time: int)
    ensures RateHolds(rate, bytes, time) <==> 8_000_000_000 * bytes <= rate * time
  {
  }

  lemma RestedCount(stream: Stream, size: nat, sent: seq<Write>, finished: nat)
    requires stream.Valid() && Rested(stream, size, sent, finished)
    ensures |sent| == FragmentCount(size)
  {
  }

  lemma StartsAfter(stream: Stream, frame: Word32, picture: seq<Byte>, began: nat, sent: seq<Write>)
    requires stream.Valid() && 0 < |sent| <= FragmentCount(|picture|)
    requires IsTransmission(stream, frame, picture, began, sent)
    ensures began <= sent[0].sentAt
  {
    assert WrittenInTime(stream, frame, picture, began, 0, Predecessor(sent, 0), sent[0]);
  }

  /** A picture, or the part of it that was sent, as `SendImage` leaves it in a session that has not stopped. */
  datatype Sending = Sending(frame: Word32, picture: seq<Byte>, began: nat, sent: seq<Write>, finished: nat)
  {
    ghost predicate Valid(stream: Stream)
      requires stream.Valid()
    {
      && |sent| <= FragmentCount(|picture|) && IsTransmission(stream, frame, picture, began, sent)
      && began <= finished && Paced(stream, |picture|, sent, finished)
    }

    /** What it took on the wire. */
    ghost function Bytes(): nat
      requires |sent| <= FragmentCount(|picture|)
    {
      WireSum(|picture|, 0, |sent|)
    }
  }

  /** Pictures sent one after the other by the same loop, some of them cut short by a failed send or a missed
      deadline. */
  ghost predicate InSuccession(stream: Stream, sendings: seq<Sending>)
    requires stream.Valid()
  {
    sendings != [] ==>
      var n := |sendings| - 1;
      && sendings[n].Valid(stream)
      && (n > 0 ==> sendings[n - 1].finished <= sendings[n].began)
      && InSuccession(stream, sendings[..n])
  }

  ghost function AllBytes(stream: Stream, sendings: seq<Sending>): nat
    requires stream.Valid() && InSuccession(stream, sendings)
  {
    if sendings == [] then 0
    else AllBytes(stream, sendings[..|sendings| - 1]) + sendings[|sendings| - 1].Bytes()
  }

  /** Every datagram and every picture may cost one nanosecond of rounding. */
  function Roundings(sendings: seq<Sending>): nat {
    if sendings == [] then 0 else Roundings(sendings[..|sendings| - 1]) + |sendings[|sendings| - 1].sent| + 1
  }

  /** However many pictures follow one another, cut short or not, all their bytes on the wire keep to the configured
      rate over the whole time. */
  lemma {:induction false} SuccessionKeepsRate(stream: Stream, sendings: seq<Sending>)
    requires stream.Valid() && InSuccession(stream, sendings) && sendings != []
    ensures RateHolds(stream.BitRate(), AllBytes(stream, sendings),
                      sendings[|sendings| - 1].finished - sendings[0].began + Roundings(sendings))
  {
    hide Paced, IsTransmission, RateHolds, WireSum, FragmentCount;
    var n := |sendings| - 1;
    var s := sendings[n];
    PartKeepsRate(stream, s.frame, s.picture, s.began, s.sent, s.finished);
    if n > 0 {
      var before := sendings[..n];
      SuccessionKeepsRate(stream, before);
      RatesAdd(stream.BitRate(), AllBytes(stream, before), before[n - 1].finished - before[0].began + Roundings(before),
               s.Bytes(), s.finished - s.began + |s.sent| + 1, s.finished - sendings[0].began + Roundings(sendings));
    }
  }

  lemma RatesAdd(rate: nat, bytes: nat, time: int, more: nat, longer: int, total: int)
    requires RateHolds(rate, bytes, time) && RateHolds(rate, more, longer) && time + longer <= total
    ensures RateHolds(rate, bytes + more, total)
  {
    Distribute(rate, time, longer);
    ProductMonotone(time + longer, total, rate);
  }

  /** No product the pacing computes leaves the 64-bit range. */
  lemma PacingFitsInWords(stream: Stream, size: nat, k: nat)
    requires stream.Valid() && WithinBudget(stream, size) && k < FragmentCount(size)
    ensures WireSize(size) * 8_000_000_000 < TWO64
    ensures WireBytes(size, k) * PictureTime(stream, size) < TWO64
    ensures PictureTime(stream, size) <= SECOND
  {
    var W, R := WireSize(size), stream.BitRate();
    assert W * 8_000_000_000 <= SECOND * R;
    DivisionFloor(W * 8_000_000_000, R);
    CancelFactor(TransferTime(stream, size), SECOND, R);
    DivisionFloor(850_000_000, stream.fps);
    ProductMonotone(1, stream.fps, 850_000_000 / stream.fps);
    ProductMonotone(PictureTime(stream, size), SECOND, WireBytes(size, k));
  }
}
