/** The VBAN audio packet format and its decoder (src/vban-protocol.cpp). */
module VbanProtocol {
  import opened Words

  const HEADER: nat := 28
  const MAX_DATAGRAM: nat := 1464
  const MAGIC: seq<Byte> := [86, 66, 65, 78]

  const SAMPLE_RATES: seq<nat> := [
    6000, 12000, 24000, 48000, 96000, 192000, 384000,
    8000, 16000, 32000, 64000, 128000, 256000, 512000,
    11025, 22050, 44100, 88200, 176400, 352800, 705600]

  datatype Format = Format(rate: nat, channels: nat, kind: nat)
  {
    function OutputChannels(): nat {
      if channels == 7 then 8 else channels
    }
  }

  datatype Packet = Packet(format: Format, sequence: Word32, frames: nat, name: seq<Byte>, samples: seq<real>)

  /** What `decode` guarantees about a packet it accepts, and the jitter buffer relies on. */
  predicate ValidPacket(p: Packet) {
    && p.format.rate in SAMPLE_RATES
    && 1 <= p.format.channels <= 8 && p.format.kind <= 5
    && 1 <= p.frames <= 256
    && |p.samples| == p.frames * p.format.OutputChannels()
  }

  datatype ParseError =
    | Truncated | Signature | Protocol | Codec | Reserved | SampleRate | Channels | SampleType | Length
    | StreamName | NonFinite

  datatype Decoded = Parsed(packet: Packet) | Rejected(error: ParseError)

  function FramesToNs(frames: nat, rate: nat): nat {
    if rate == 0 then 0 else (frames / rate) * 1_000_000_000 + MulDiv(frames % rate, 1_000_000_000, rate)
  }

  lemma FramesToNsIsFloor(frames: nat, rate: nat)
    requires rate > 0
    ensures rate * FramesToNs(frames, rate) <= frames * SECOND < rate * (FramesToNs(frames, rate) + 1)
  {
    hide MulDiv;
    DivMod(frames, rate);
    MulDivBounds(frames % rate, SECOND, rate);
    FloorSplit(rate, frames / rate, frames % rate, SECOND, MulDiv(frames % rate, SECOND, rate));
  }

  lemma FloorSplit(b: nat, q: nat, r: nat, c: nat, d: nat)
    requires b * d <= r * c < b * (d + 1)
    ensures b * (q * c + d) <= (b * q + r) * c < b * (q * c + d + 1)
  {
    assert (b * q + r) * c == b * (q * c) + r * c;
    Distribute(b, q * c, d);
    Distribute(b, q * c, d + 1);
  }

  predicate ValidStreamName(name: seq<Byte>) {
    1 <= |name| <= 16 && forall i | 0 <= i < |name| :: 32 <= name[i] <= 126
  }

  /** The length of the name field: up to its first zero, at most 16. */
  function NameLength(data: seq<Byte>, n: nat): (r: nat)
    requires n <= 16 && |data| >= HEADER
    ensures n <= r <= 16
    decreases 16 - n
  {
    if n < 16 && data[8 + n] != 0 then NameLength(data, n + 1) else n
  }

  function ReadStreamName(data: seq<Byte>): Option<seq<Byte>> {
    if |data| < HEADER || data[..4] != MAGIC then None
    else
      var name := data[8..8 + NameLength(data, 0)];
      if ValidStreamName(name) then Some(name) else None
  }

  function Width(kind: nat): nat
    requires kind <= 5
  {
    [1, 2, 3, 4, 4, 8][kind]
  }

  function LittleEndian(bytes: seq<Byte>): nat {
    if bytes == [] then 0 else bytes[0] as nat + 256 * LittleEndian(bytes[1..])
  }

  function Power256(n: nat): nat {
    if n == 0 then 1 else 256 * Power256(n - 1)
  }

  function Clamped(x: real): real {
    if x < -1.0 then -1.0 else if x > 1.0 then 1.0 else x
  }

  /** One sample; none if it is a floating-point value that is not finite. Floating-point payloads are read by
      `float`. */
  function Sample(kind: nat, bytes: seq<Byte>, float: seq<Byte> -> Option<real>): Option<real>
    requires kind <= 5
  {
    var bits := LittleEndian(bytes);
    if kind == 0 then Some(Clamped((bits as real - 128.0) / 128.0))
    else if kind <= 3 then
      var half := Power256(Width(kind)) / 2;
      var value := if bits >= half then bits - 2 * half else bits;
      Some(if half == 0 then 0.0 else Clamped(value as real / half as real))
    else
      var x := float(bytes);
      if x.None? then None else Some(Clamped(x.value))
  }

  /** Where sample `k` of the payload begins. */
  function Offset(k: nat, kind: nat): nat
    requires kind <= 5
  {
    HEADER + k * Width(kind)
  }

  lemma OffsetStep(k: nat, kind: nat)
    requires kind <= 5
    ensures Offset(k + 1, kind) == Offset(k, kind) + Width(kind) && Offset(0, kind) == HEADER
  {
    Distribute(Width(kind), k, 1);
  }

  lemma OffsetMonotone(a: nat, b: nat, kind: nat)
    requires kind <= 5 && a <= b
    ensures Offset(a, kind) <= Offset(b, kind)
  {
    ProductMonotone(a, b, Width(kind));
  }

  /** The sample at position `k` of the payload. */
  function SampleAt(data: seq<Byte>, k: nat, kind: nat, float: seq<Byte> -> Option<real>): Option<real>
    requires kind <= 5 && Offset(k + 1, kind) <= |data|
  {
    OffsetStep(k, kind);
    Sample(kind, data[Offset(k, kind)..Offset(k + 1, kind)], float)
  }

  /** The header tests, in the decoder's order. */
  function HeaderError(data: seq<Byte>): Option<ParseError> {
    if |data| < HEADER then Some(Truncated)
    else if data[..4] != MAGIC then Some(Signature)
    else if data[4] / 32 != 0 then Some(Protocol)
    else if data[7] / 16 != 0 then Some(Codec)
    else if data[7] / 8 != 0 then Some(Reserved)
    else if data[4] % 32 >= 21 then Some(SampleRate)
    else if data[6] as nat + 1 > 8 then Some(Channels)
    else if data[7] > 5 then Some(SampleType)
    else if |data| > MAX_DATAGRAM
            || |data| != Offset((data[5] as nat + 1) * (data[6] as nat + 1), data[7]) then Some(Length)
    else if ReadStreamName(data).None? then Some(StreamName)
    else None
  }

  /** The first `n` samples of the payload, in their order on the wire. */
  function FlatSamples(data: seq<Byte>, n: nat, kind: nat, float: seq<Byte> -> Option<real>): (r: Option<seq<real>>)
    requires kind <= 5 && Offset(n, kind) <= |data|
    ensures r.Some? ==> |r.value| == n
  {
    if n == 0 then Some([])
    else
      OffsetMonotone(n - 1, n, kind);
      var before, last := FlatSamples(data, n - 1, kind, float), SampleAt(data, n - 1, kind, float);
      if before.None? || last.None? then None else Some(before.value + [last.value])
  }

  /** Seven channels are delivered as eight, the last one silent. */
  function Widened(flat: seq<real>): (r: seq<real>)
    requires |flat| % 7 == 0
    ensures |r| == |flat| / 7 * 8
  {
    if flat == [] then [] else Widened(flat[..|flat| - 7]) + flat[|flat| - 7..] + [0.0]
  }

  function SampleCount(data: seq<Byte>): nat
    requires |data| >= HEADER
  {
    (data[5] as nat + 1) * (data[6] as nat + 1)
  }

  lemma HeaderFacts(data: seq<Byte>)
    requires HeaderError(data).None?
    ensures |data| >= HEADER && data[7] <= 5 && data[4] % 32 < 21 && data[6] < 8 && ReadStreamName(data).Some?
    ensures |data| == Offset(SampleCount(data), data[7])
    ensures data[6] == 6 ==> SampleCount(data) % 7 == 0
  {
    hide ReadStreamName, Offset;
  }

  /** The samples as they are delivered. */
  function Delivered(flat: seq<real>, channels: nat): seq<real>
    requires channels == 7 ==> |flat| % 7 == 0
  {
    if channels == 7 then Widened(flat) else flat
  }

  lemma DeliveredLength(flat: seq<real>, frames: nat, channels: nat)
    requires |flat| == frames * channels && (channels == 7 ==> |flat| % 7 == 0)
    ensures |Delivered(flat, channels)| == frames * Format(0, channels, 0).OutputChannels()
  {
  }

  /** The packet in an accepted datagram whose samples have been read. */
  function PacketOf(data: seq<Byte>, flat: seq<real>): Packet
    requires HeaderError(data).None? && |data| >= HEADER && |flat| == SampleCount(data)
  {
    HeaderFacts(data);
    Packet(Format(SAMPLE_RATES[data[4] % 32], data[6] as nat + 1, data[7]), ReadLittleEndian4(data[24..28]),
           data[5] as nat + 1, ReadStreamName(data).value, Delivered(flat, data[6] as nat + 1))
  }

  function Decode(data: seq<Byte>, float: seq<Byte> -> Option<real>): Decoded {
    if HeaderError(data).Some? then Rejected(HeaderError(data).value)
    else
      HeaderFacts(data);
      var flat := FlatSamples(data, SampleCount(data), data[7], float);
      if flat.None? then Rejected(NonFinite) else Parsed(PacketOf(data, flat.value))
  }

  /** What is accepted is a packet the jitter buffer can rely on. */
  lemma AcceptedPacketIsValid(data: seq<Byte>, float: seq<Byte> -> Option<real>)
    requires Decode(data, float).Parsed?
    ensures ValidPacket(Decode(data, float).packet)
  {
    hide HeaderError, FlatSamples, ReadStreamName, ReadLittleEndian4, Delivered, Offset;
    HeaderFacts(data);
    DeliveredLength(FlatSamples(data, SampleCount(data), data[7], float).value, data[5] as nat + 1, data[6] as nat + 1);
    assert SAMPLE_RATES[data[4] % 32] in SAMPLE_RATES;
  }

  class PacketCell {
    var packet: Packet

    constructor (packet: Packet)
      ensures this.packet == packet
    {
      this.packet := packet;
    }
  }

  method NameField(data: seq<Byte>) returns (n: nat)
    requires |data| >= HEADER
    ensures n == NameLength(data, 0)
  {
    n := 0;
    while n < 16 && data[8 + n] != 0
      invariant n <= 16 && NameLength(data, n) == NameLength(data, 0)
    {
      n := n + 1;
    }
  }

  /** The decoder writes its result only when it accepts the datagram. */
  method DecodeInto(
    data: seq<Byte>, float: seq<Byte> -> Option<real>, out: PacketCell) returns (error: Option<ParseError>)
    modifies out
    ensures error.None? ==> Decode(data, float) == Parsed(out.packet)
    ensures error.Some? ==> Decode(data, float) == Rejected(error.value) && out.packet == old(out.packet)
  {
    hide Sample, FlatSamples, NameLength, Offset, HeaderError, Widened;
    error := HeaderError(data);
    if error.Some? {
      return;
    }
    HeaderFacts(data);
    var n := NameField(data);
    var kind: nat, frames, channels := data[7], data[5] as nat + 1, data[6] as nat + 1;
    var samples := ReadSamples(data, frames, channels, kind, float);
    if samples.None? {
      return Some(NonFinite);
    }
    out.packet := Packet(Format(SAMPLE_RATES[data[4] % 32], channels, kind), ReadLittleEndian4(data[24..28]), frames,
                         data[8..8 + n], samples.value);
  }

  method ReadSamples(data: seq<Byte>, frames: nat, channels: nat, kind: nat, float: seq<Byte> -> Option<real>)
    returns (samples: Option<seq<real>>)
    requires kind <= 5 && 1 <= channels <= 8 && |data| == Offset(frames * channels, kind)
    ensures var flat := FlatSamples(data, frames * channels, kind, float);
            if flat.None? then samples.None?
            else (channels == 7 ==> |flat.value| % 7 == 0) && samples == Some(Delivered(flat.value, channels))
  {
    hide SampleAt, Offset, FlatSamples, Widened;
    OffsetMonotone(0, frames * channels, kind);
    NothingRead(data, kind, float);
    var read: seq<real> := [];
    ghost var flat: seq<real> := [];
    var k := 0;
    for f := 0 to frames
      invariant k == |flat| == f * channels
      invariant Offset(k, kind) <= |data| && FlatSamples(data, k, kind, float) == Some(flat)
      invariant read == if channels == 7 then Widened(flat) else flat
    {
      Distribute(channels, f, 1);
      ProductMonotone(f + 1, frames, channels);
      ghost var done, before := read, flat;
      for c := 0 to channels
        invariant k == |flat| == f * channels + c && before <= flat
        invariant Offset(k, kind) <= |data| && FlatSamples(data, k, kind, float) == Some(flat)
        invariant read == done + flat[f * channels..]
      {
        OffsetMonotone(k + 1, frames * channels, kind);
        OneMoreRead(data, k, kind, float);
        var sample := SampleAt(data, k, kind, float);
        if sample.None? {
          NoneStaysNone(data, k + 1, frames * channels, kind, float);
          return None;
        }
        read, k := read + [sample.value], k + 1;
        flat := flat + [sample.value];
      }
      if channels == 7 {
        read := read + [0.0];
        assert flat == before + flat[f * channels..];
        WidenedThen(before, flat[f * channels..]);
      } else {
        assert flat == before + flat[f * channels..];
      }
    }
    return Some(read);
  }

  lemma NothingRead(data: seq<Byte>, kind: nat, float: seq<Byte> -> Option<real>)
    requires kind <= 5 && Offset(0, kind) <= |data|
    ensures FlatSamples(data, 0, kind, float) == Some([]) && Widened([]) == []
  {
  }

  lemma OneMoreRead(data: seq<Byte>, k: nat, kind: nat, float: seq<Byte> -> Option<real>)
    requires kind <= 5 && Offset(k, kind) <= |data| && Offset(k + 1, kind) <= |data|
    ensures var before, last := FlatSamples(data, k, kind, float), SampleAt(data, k, kind, float);
            FlatSamples(data, k + 1, kind, float)
            == if before.None? || last.None? then None else Some(before.value + [last.value])
  {
    hide SampleAt, Offset;
  }

  lemma WidenedThen(flat: seq<real>, row: seq<real>)
    requires |flat| % 7 == 0 && |row| == 7
    ensures |flat + row| % 7 == 0 && Widened(flat + row) == Widened(flat) + row + [0.0]
  {
    assert (flat + row)[..|flat + row| - 7] == flat && (flat + row)[|flat + row| - 7..] == row;
  }

  lemma {:induction false} NoneStaysNone(data: seq<Byte>, n: nat, m: nat, kind: nat, float: seq<Byte> -> Option<real>)
    requires kind <= 5 && n <= m && Offset(n, kind) <= Offset(m, kind) <= |data|
    requires FlatSamples(data, n, kind, float).None?
    ensures FlatSamples(data, m, kind, float).None?
  {
    hide SampleAt, Offset;
    if n < m {
      OffsetMonotone(m - 1, m, kind);
      OffsetMonotone(n, m - 1, kind);
      NoneStaysNone(data, n, m - 1, kind, float);
    }
  }

  /** A datagram is accepted if and only if it is a VBAN audio datagram of a known rate and sample type, of exactly
      the length its header asks for, under a printable name, with finite samples only. */
  lemma AcceptedIff(data: seq<Byte>, float: seq<Byte> -> Option<real>)
    ensures Decode(data, float).Parsed? <==>
              && 28 <= |data| <= 1464 && data[..4] == MAGIC
              && data[4] < 21 && data[6] < 8 && data[7] < 6
              && |data| == 28 + (data[5] as nat + 1) * (data[6] as nat + 1) * Width(data[7])
              && ReadStreamName(data).Some?
              && forall k: nat | k < SampleCount(data) :: Readable(data, k, float)
  {
    hide FlatSamples, ReadStreamName, ReadLittleEndian4;
    if HeaderError(data).None? {
      HeaderFacts(data);
      AllReadable(data, SampleCount(data), float);
    } else if 28 <= |data| && data[7] < 6 {
      assert Offset((data[5] as nat + 1) * (data[6] as nat + 1), data[7])
          == 28 + (data[5] as nat + 1) * (data[6] as nat + 1) * Width(data[7]);
    }
  }

  /** Sample `k` is in the datagram and is a number. */
  ghost predicate Readable(data: seq<Byte>, k: nat, float: seq<Byte> -> Option<real>) {
    |data| >= 28 && data[7] <= 5 && Offset(k + 1, data[7]) <= |data| && SampleAt(data, k, data[7], float).Some?
  }

  /** The samples read are those of the payload, each at its place, and they are read unless one is no number. */
  lemma {:induction false} AllReadable(data: seq<Byte>, n: nat, float: seq<Byte> -> Option<real>)
    requires |data| >= 28 && data[7] <= 5 && Offset(n, data[7]) <= |data|
    ensures FlatSamples(data, n, data[7], float).Some? <==> forall k: nat | k < n :: Readable(data, k, float)
    ensures var flat := FlatSamples(data, n, data[7], float);
            flat.Some? ==>
              forall k: nat | k < n :: Readable(data, k, float)
                  && Some(flat.value[k]) == SampleAt(data, k, data[7], float)
  {
    hide SampleAt, Offset;
    if n > 0 {
      OffsetMonotone(n - 1, n, data[7]);
      AllReadable(data, n - 1, float);
      assert Readable(data, n - 1, float) <==> SampleAt(data, n - 1, data[7], float).Some?;
    }
  }

  /** The values of the integer sample types: unsigned bytes around 128, and little-endian two's complement of two,
      three and four bytes, all in proportion to their negative full scale. */
  lemma SampleValues(b: seq<Byte>, float: seq<Byte> -> Option<real>)
    ensures |b| == 1 ==> Sample(0, b, float) == Some((b[0] as real - 128.0) / 128.0)
    ensures |b| == 2 ==>
              var u := b[0] as int + 256 * b[1] as int;
              Sample(1, b, float) == Some((if u >= 32768 then u - 65536 else u) as real / 32768.0)
    ensures |b| == 3 ==>
              var u := b[0] as int + 256 * b[1] as int + 65536 * b[2] as int;
              Sample(2, b, float) == Some((if u >= 8388608 then u - 16777216 else u) as real / 8388608.0)
    ensures |b| == 4 ==>
              var u := b[0] as int + 256 * b[1] as int + 65536 * b[2] as int + 16777216 * b[3] as int;
              Sample(3, b, float) == Some((if u >= 2147483648 then u - 4294967296 else u) as real / 2147483648.0)
  {
    hide Sample;
    if |b| == 1 {
      LittleEndianUpToFour(b);
      UnsignedSample(b, float);
    } else if |b| == 2 {
      SignedSample(1, b, 32768, float);
    } else if |b| == 3 {
      SignedSample(2, b, 8388608, float);
    } else if |b| == 4 {
      SignedSample(3, b, 2147483648, float);
    }
  }

  lemma UnsignedSample(b: seq<Byte>, float: seq<Byte> -> Option<real>)
    requires |b| == 1
    ensures Sample(0, b, float) == Some((b[0] as real - 128.0) / 128.0)
  {
    LittleEndianUpToFour(b);
    hide Clamped, LittleEndian;
    assert (b[0] as int - 128) as real == b[0] as real - 128.0;
    UnitRange(b[0] as int - 128, 128);
  }

  lemma SignedSample(kind: nat, b: seq<Byte>, half: nat, float: seq<Byte> -> Option<real>)
    requires 1 <= kind <= 3 && |b| == Width(kind) && half == [128, 32768, 8388608, 2147483648][kind]
    ensures var u := b[0] as int + 256 * b[1] as int + 65536 * (if |b| > 2 then b[2] as int else 0)
                     + 16777216 * (if |b| > 3 then b[3] as int else 0);
            Sample(kind, b, float) == Some((if u >= half then u - 2 * half else u) as real / half as real)
  {
    Powers();
    LittleEndianUpToFour(b);
    var u := LittleEndian(b);
    hide Clamped, LittleEndian, Power256;
    UnitRange(if u >= half then u - 2 * half else u, half);
  }

  lemma Powers()
    ensures Power256(1) == 256 && Power256(2) == 65536 && Power256(3) == 16777216 && Power256(4) == 4294967296
  {
    assert Power256(2) == 65536;
    assert Power256(3) == 16777216;
  }

  lemma UnitRange(q: int, scale: int)
    requires scale > 0 && -scale <= q <= scale
    ensures Clamped(q as real / scale as real) == q as real / scale as real
  {
    assert -1.0 <= q as real / scale as real <= 1.0;
  }

  lemma LittleEndianUpToFour(b: seq<Byte>)
    requires 1 <= |b| <= 4
    ensures LittleEndian(b) == b[0] as int + 256 * (if |b| > 1 then b[1] as int else 0)
                               + 65536 * (if |b| > 2 then b[2] as int else 0)
                               + 16777216 * (if |b| > 3 then b[3] as int else 0)
  {
    if |b| > 1 {
      LittleEndianUpToFour(b[1..]);
    } else {
      assert b[1..] == [];
    }
  }

  /** Of seven channels each keeps its place, and an eighth is silent. */
  lemma {:induction false} EighthIsSilent(flat: seq<real>, frames: nat, f: nat, c: nat)
    requires |flat| == 7 * frames && f < frames && c < 8
    ensures |Widened(flat)| == 8 * frames
    ensures Widened(flat)[8 * f + c] == if c < 7 then flat[7 * f + c] else 0.0
  {
    var before, row := flat[..7 * (frames - 1)], flat[7 * (frames - 1)..];
    WidenedThen(before, row);
    assert before + row == flat;
    if f < frames - 1 {
      EighthIsSilent(before, frames - 1, f, c);
    }
  }
}
