/** The PCM packet encoder and the per-destination sender of src/vban-transmitter.cpp. Sample arithmetic is exact;
    a sample that is not finite is None. */
module PcmTransmitter {
  import opened Words
  import opened VbanProtocol

  type Depth = b: nat | b == 16 || b == 24 witness 16

  type StreamName = n: seq<Byte> | ValidStreamName(n) witness MAGIC

  function Scale(bits: Depth): (s: int)
    ensures s > 0
  {
    if bits == 16 then 32768 else 8388608
  }

  function BytesPerSample(bits: Depth): nat {
    if bits == 16 then 2 else 3
  }

  function Kind(bits: Depth): Byte {
    if bits == 16 then 1 else 2
  }

  /** Rounding to the nearest integer, halves away from zero. */
  function Round(x: real): int {
    if x >= 0.0 then (x + 0.5).Floor else -((0.5 - x).Floor)
  }

  function Quantized(sample: Option<real>, bits: Depth): (q: int)
    ensures -Scale(bits) <= q < Scale(bits)
  {
    var rounded := Round((if sample.None? then 0.0 else sample.value) * Scale(bits) as real);
    if rounded < -Scale(bits) then -Scale(bits) else if rounded > Scale(bits) - 1 then Scale(bits) - 1 else rounded
  }

  /** The low bytes of the value's 32-bit two's complement. */
  function SampleBytes(q: int, bits: Depth): (b: seq<Byte>)
    requires -Scale(bits) <= q < Scale(bits)
    ensures |b| == BytesPerSample(bits)
  {
    var u := if q < 0 then q + TWO32 else q;
    if bits == 16 then [u % 256, u / 256 % 256] else [u % 256, u / 256 % 256, u / 256 / 256 % 256]
  }

  function Payload(samples: seq<Option<real>>, bits: Depth): (p: seq<Byte>)
    ensures |p| == |samples| * BytesPerSample(bits)
  {
    if samples == [] then []
    else Payload(samples[..|samples| - 1], bits) + SampleBytes(Quantized(samples[|samples| - 1], bits), bits)
  }

  function FindRate(rate: nat, i: nat): (r: Option<nat>)
    requires i <= |SAMPLE_RATES|
    ensures r.Some? ==> r.value < |SAMPLE_RATES| && SAMPLE_RATES[r.value] == rate
    decreases |SAMPLE_RATES| - i
  {
    if i == |SAMPLE_RATES| then None else if SAMPLE_RATES[i] == rate then Some(i) else FindRate(rate, i + 1)
  }

  function NameField(name: StreamName): (f: seq<Byte>)
    ensures |f| == 16 && f[..|name|] == name
  {
    name + seq(16 - |name|, _ => 0)
  }

  function Header(rateIndex: nat, frames: nat, bits: Depth, name: StreamName, sequence: Word32): (h: seq<Byte>)
    requires rateIndex < 21 && 1 <= frames <= 256
    ensures |h| == HEADER
  {
    MAGIC + [rateIndex, frames - 1, 1, Kind(bits)] + NameField(name) + LittleEndian4(sequence)
  }

  predicate Encodable(rate: nat, count: nat, bits: Depth) {
    && FindRate(rate, 0).Some? && count % 2 == 0 && 1 <= count / 2 <= 256
    && HEADER + count * BytesPerSample(bits) <= MAX_DATAGRAM
  }

  /** The packet for interleaved stereo samples; none when the rate or the block size is not supported. */
  function Encode(
    rate: nat, name: StreamName, sequence: Word32, samples: seq<Option<real>>, bits: Depth): Option<seq<Byte>> {
    if !Encodable(rate, |samples|, bits) then None
    else Some(Header(FindRate(rate, 0).value, |samples| / 2, bits, name, sequence) + Payload(samples, bits))
  }

  predicate Supported(name: seq<Byte>, bits: int) {
    ValidStreamName(name) && (bits == 16 || bits == 24)
  }

  /** Any name and depth may be asked for; zero says that there is no packet for them, and that nothing was written. */
  method EncodeStereoPcm(
    out: array<Byte>, rate: nat, name: seq<Byte>, sequence: Word32, samples: seq<Option<real>>, frames: nat, bits: int)
    returns (size: nat)
    requires out.Length == MAX_DATAGRAM && |samples| == frames * 2
    modifies out
    ensures size == 0 <==> !Supported(name, bits) || Encode(rate, name, sequence, samples, bits).None?
    ensures size == 0 ==> out[..] == old(out[..])
    ensures 0 < size ==> size <= out.Length && Encode(rate, name, sequence, samples, bits) == Some(out[..size])
  {
    hide FindRate, Header, Payload, ValidStreamName;
    if bits != 16 && bits != 24 {
      return 0;
    }
    var width := BytesPerSample(bits);
    var found := FindRate(rate, 0);
    if found.None? || !ValidStreamName(name) || frames == 0 || frames > 256
       || HEADER + frames * 2 * width > MAX_DATAGRAM {
      return 0;
    }
    var header := Header(found.value, frames, bits, name, sequence);
    forall i | 0 <= i < HEADER { out[i] := header[i]; }
    assert out[..HEADER] == header;
    size := WritePayload(out, samples, bits);
    assert out[..size] == out[..HEADER] + out[HEADER..size];
  }

  method WritePayload(out: array<Byte>, samples: seq<Option<real>>, bits: Depth) returns (size: nat)
    requires HEADER + |samples| * BytesPerSample(bits) <= out.Length
    modifies out
    ensures size == HEADER + |samples| * BytesPerSample(bits)
    ensures out[..HEADER] == old(out[..HEADER]) && out[HEADER..size] == Payload(samples, bits)
  {
    hide Quantized, SampleBytes, Payload;
    size := HEADER;
    assert out[HEADER..HEADER] == [];
    PayloadGrows(samples, 0, bits);
    for i := 0 to |samples|
      invariant size == HEADER + i * BytesPerSample(bits)
      invariant out[..HEADER] == old(out[..HEADER]) && out[HEADER..size] == Payload(samples[..i], bits)
    {
      PayloadGrows(samples, i, bits);
      ProductMonotone(i + 1, |samples|, BytesPerSample(bits));
      Distribute(BytesPerSample(bits), i, 1);
      var bytes := SampleBytes(Quantized(samples[i], bits), bits);
      ghost var was := out[..size];
      WriteBytes(out, size, bytes);
      assert out[..HEADER] == out[..size + |bytes|][..HEADER] == was[..HEADER];
      assert out[HEADER..size + |bytes|] == out[..size + |bytes|][HEADER..] == was[HEADER..] + bytes;
      size := size + |bytes|;
    }
    assert samples[..|samples|] == samples;
  }

  lemma PayloadGrows(samples: seq<Option<real>>, i: nat, bits: Depth)
    requires i <= |samples|
    ensures Payload(samples[..0], bits) == []
    ensures i < |samples| ==>
              Payload(samples[..i + 1], bits)
                  == Payload(samples[..i], bits) + SampleBytes(Quantized(samples[i], bits), bits)
  {
    if i < |samples| {
      assert samples[..i + 1][..i] == samples[..i];
    }
  }

  method WriteBytes(out: array<Byte>, at: nat, bytes: seq<Byte>)
    requires at + |bytes| <= out.Length
    modifies out
    ensures out[..at + |bytes|] == old(out[..at]) + bytes
  {
    for b := 0 to |bytes|
      invariant out[..at] == old(out[..at])
      invariant forall k | 0 <= k < b :: out[at + k] == bytes[k]
    {
      out[at + b] := bytes[b];
    }
  }

  /** The values a receiver gets: whole multiples of one quantization step. */
  function Received(samples: seq<Option<real>>, bits: Depth): (r: seq<real>)
    ensures |r| == |samples|
  {
    if samples == [] then []
    else
      var n := |samples| - 1;
      Received(samples[..n], bits) + [Quantized(samples[n], bits) as real / Scale(bits) as real]
  }

  /** Two's complement bytes read back as the value they stand for. */
  lemma SampleBytesRead(q: int, bits: Depth, float: seq<Byte> -> Option<real>)
    requires -Scale(bits) <= q < Scale(bits)
    ensures Sample(Kind(bits), SampleBytes(q, bits), float) == Some(q as real / Scale(bits) as real)
  {
    hide SampleBytes, Clamped;
    var u := if q < 0 then q + TWO32 else q;
    BytesRead(q, bits);
    if bits == 16 {
      assert Power256(2) == 65536;
    } else {
      assert Power256(3) == 16777216;
    }
    InUnitRange(q, Scale(bits));
  }

  lemma BytesRead(q: int, bits: Depth)
    requires -Scale(bits) <= q < Scale(bits)
    ensures LittleEndian(SampleBytes(q, bits)) == if q < 0 then q + 2 * Scale(bits) else q
  {
    var u := if q < 0 then q + TWO32 else q;
    var a := u / 256;
    var c := a / 256;
    assert u == 256 * a + u % 256 && a == 256 * c + a % 256;
    var b := SampleBytes(q, bits);
    assert b[|b|..] == [] && LittleEndian([]) == 0;
    if bits == 16 {
      LittleEndianTwo(b);
    } else {
      assert c == 256 * (c / 256) + c % 256;
      LittleEndianThree(b);
    }
  }

  lemma LittleEndianTwo(b: seq<Byte>)
    requires |b| == 2
    ensures LittleEndian(b) == b[0] as nat + 256 * b[1] as nat
  {
    assert LittleEndian(b[1..]) == b[1] as nat + 256 * LittleEndian(b[1..][1..]);
    assert b[1..][1..] == [];
  }

  lemma LittleEndianThree(b: seq<Byte>)
    requires |b| == 3
    ensures LittleEndian(b) == b[0] as nat + 256 * b[1] as nat + 65536 * b[2] as nat
  {
    LittleEndianTwo(b[1..]);
  }

  lemma InUnitRange(q: int, scale: int)
    requires scale > 0 && -scale <= q <= scale
    ensures -1.0 <= q as real / scale as real <= 1.0
    ensures Clamped(q as real / scale as real) == q as real / scale as real
  {
  }

  /** The bytes of `count` samples. */
  function Span(count: nat, bits: Depth): nat {
    count * BytesPerSample(bits)
  }

  lemma SpanStep(k: nat, bits: Depth)
    ensures Span(k, bits) + BytesPerSample(bits) == Span(k + 1, bits)
  {
    Distribute(BytesPerSample(bits), k, 1);
  }

  lemma {:induction false} PayloadSlice(samples: seq<Option<real>>, bits: Depth, k: nat)
    requires k < |samples|
    ensures Span(k, bits) <= Span(k + 1, bits) <= |Payload(samples, bits)|
    ensures Payload(samples, bits)[Span(k, bits)..Span(k + 1, bits)] == SampleBytes(Quantized(samples[k], bits), bits)
  {
    hide SampleBytes, Quantized;
    SpanStep(k, bits);
    if k < |samples| - 1 {
      PayloadSlice(samples[..|samples| - 1], bits, k);
    }
  }

  /** The decoder's sample `k` of an encoded payload. */
  lemma SampleRead(data: seq<Byte>, samples: seq<Option<real>>, bits: Depth, k: nat, float: seq<Byte> -> Option<real>)
    requires k < |samples| && |data| >= HEADER && data[HEADER..] == Payload(samples, bits)
    ensures Offset(k + 1, Kind(bits)) <= |data|
    ensures SampleAt(data, k, Kind(bits), float) == Some(Quantized(samples[k], bits) as real / Scale(bits) as real)
  {
    hide *;
    KindInRange(bits);
    PacketLength(k, bits);
    PacketLength(k + 1, bits);
    PayloadSlice(samples, bits, k);
    var from, to := Span(k, bits), Span(k + 1, bits);
    assert to <= |data[HEADER..]|;
    TailSlice(data, HEADER, from, to);
    SampleBytesRead(Quantized(samples[k], bits), bits, float);
    SampleAtIs(data, k, Kind(bits), float);
  }

  lemma KindInRange(bits: Depth)
    ensures Kind(bits) <= 5
  {
  }

  lemma TailSlice(data: seq<Byte>, head: nat, from: nat, to: nat)
    requires from <= to && head + to <= |data|
    ensures data[head + from..head + to] == data[head..][from..to]
  {
  }

  lemma SampleAtIs(data: seq<Byte>, k: nat, kind: nat, float: seq<Byte> -> Option<real>)
    requires kind <= 5 && Offset(k + 1, kind) <= |data|
    ensures Offset(k, kind) <= Offset(k + 1, kind)
    ensures SampleAt(data, k, kind, float) == Sample(kind, data[Offset(k, kind)..Offset(k + 1, kind)], float)
  {
    hide Offset, Sample;
    OffsetStep(k, kind);
  }

  lemma {:induction false} PayloadRead(
    data: seq<Byte>, samples: seq<Option<real>>, bits: Depth, n: nat, float: seq<Byte> -> Option<real>)
    requires n <= |samples| && |data| >= HEADER && data[HEADER..] == Payload(samples, bits)
    ensures Offset(n, Kind(bits)) <= |data|
    ensures FlatSamples(data, n, Kind(bits), float) == Some(Received(samples[..n], bits))
  {
    hide SampleAt, Quantized, Payload, Offset;
    if n > 0 {
      SampleRead(data, samples, bits, n - 1, float);
      PayloadRead(data, samples, bits, n - 1, float);
      assert samples[..n][..n - 1] == samples[..n - 1];
    } else {
      OffsetStep(0, Kind(bits));
    }
  }

  lemma {:induction false} NameRead(data: seq<Byte>, name: StreamName, n: nat)
    requires |data| >= HEADER && data[8..24] == NameField(name) && n <= |name|
    ensures NameLength(data, n) == |name|
    decreases |name| - n
  {
    if n < |name| {
      assert data[8 + n] == data[8..24][n] == NameField(name)[..|name|][n];
      NameRead(data, name, n + 1);
    } else if n < 16 {
      assert data[8 + n] == data[8..24][n] == 0;
    }
  }

  /** The fields of an encoded packet are where the decoder looks for them. */
  lemma HeaderRead(data: seq<Byte>, rateIndex: nat, frames: nat, bits: Depth, name: StreamName, sequence: Word32)
    requires rateIndex < 21 && 1 <= frames <= 256 && HEADER <= |data| <= MAX_DATAGRAM
    requires data[..HEADER] == Header(rateIndex, frames, bits, name, sequence)
    requires |data| == Offset(frames * 2, Kind(bits))
    ensures HeaderError(data).None?
    ensures data[4] == rateIndex && data[5] as nat + 1 == frames && data[6] == 1 && data[7] == Kind(bits)
    ensures ReadStreamName(data) == Some(name) && ReadLittleEndian4(data[24..28]) == sequence
  {
    hide Offset, LittleEndian4, ReadLittleEndian4;
    var h := data[..HEADER];
    assert h[..4] == MAGIC && h[4..8] == [rateIndex, frames - 1, 1, Kind(bits)];
    assert h[8..24] == NameField(name) && h[24..28] == LittleEndian4(sequence);
    assert data[..4] == h[..4] && data[8..24] == h[8..24] && data[24..28] == h[24..28];
    assert data[4] == h[4..8][0] && data[5] == h[4..8][1] && data[6] == h[4..8][2] && data[7] == h[4..8][3];
    LittleEndian4RoundTrip(sequence);
    NameRead(data, name, 0);
    assert data[8..8 + |name|] == data[8..24][..|name|];
  }

  /** Every packet the encoder builds is accepted by the decoder with the same header fields, and each sample comes back
      as its clamped and rounded value. */
  lemma EncodedPacketDecodes(
    rate: nat, name: StreamName, sequence: Word32, samples: seq<Option<real>>, bits: Depth,
        float: seq<Byte> -> Option<real>)
    requires Encode(rate, name, sequence, samples, bits).Some?
    ensures Decode(Encode(rate, name, sequence, samples, bits).value, float)
            == Parsed(Packet(Format(rate, 2, Kind(bits)), sequence, |samples| / 2, name, Received(samples, bits)))
  {
    hide *;
    var data := Encode(rate, name, sequence, samples, bits).value;
    var rateIndex := EncodingShape(rate, name, sequence, samples, bits);
    PacketLength(|samples|, bits);
    assert |samples| / 2 * 2 == |samples|;
    HeaderRead(data, rateIndex, |samples| / 2, bits, name, sequence);
    PayloadRead(data, samples, bits, |samples|, float);
    assert samples[..|samples|] == samples;
    StereoDecodes(data, rateIndex, |samples| / 2, Kind(bits), name, sequence, Received(samples, bits), float);
  }

  /** The parts of an encoded packet. */
  lemma EncodingShape(rate: nat, name: StreamName, sequence: Word32, samples: seq<Option<real>>, bits: Depth)
    returns (rateIndex: nat)
    requires Encode(rate, name, sequence, samples, bits).Some?
    ensures rateIndex < 21 == |SAMPLE_RATES| && SAMPLE_RATES[rateIndex] == rate
    ensures |samples| % 2 == 0 && 1 <= |samples| / 2 <= 256 && Kind(bits) <= 5
    ensures var data := Encode(rate, name, sequence, samples, bits).value;
            && HEADER <= |data| == HEADER + |samples| * BytesPerSample(bits) <= MAX_DATAGRAM
            && data[..HEADER] == Header(rateIndex, |samples| / 2, bits, name, sequence)
            && data[HEADER..] == Payload(samples, bits)
  {
    hide Payload, Header, FindRate;
    rateIndex := FindRate(rate, 0).value;
    var h, data := Header(rateIndex, |samples| / 2, bits, name, sequence),
        Encode(rate, name, sequence, samples, bits).value;
    assert data == h + Payload(samples, bits);
  }

  lemma PacketLength(count: nat, bits: Depth)
    ensures HEADER + count * BytesPerSample(bits) == HEADER + Span(count, bits) == Offset(count, Kind(bits))
  {
  }

  /** A stereo datagram with these fields and samples decodes to the packet made of them. */
  lemma StereoDecodes(
    data: seq<Byte>, rateIndex: nat, frames: nat, kind: nat, name: seq<Byte>, sequence: Word32, flat: seq<real>,
    float: seq<Byte> -> Option<real>)
    requires HeaderError(data).None? && |data| >= HEADER && rateIndex < 21
    requires data[4] == rateIndex && data[5] as nat + 1 == frames && data[6] == 1 && data[7] == kind <= 5
    requires ReadStreamName(data) == Some(name) && ReadLittleEndian4(data[24..28]) == sequence
    requires Offset(frames * 2, kind) <= |data| && FlatSamples(data, frames * 2, kind, float) == Some(flat)
    ensures Decode(data, float)
            == Parsed(Packet(Format(SAMPLE_RATES[rateIndex], 2, kind), sequence, frames, name, flat))
  {
    hide HeaderError, FlatSamples, ReadStreamName, ReadLittleEndian4, Offset, Widened, ValidStreamName;
    HeaderFacts(data);
    assert SampleCount(data) == frames * 2;
  }

  lemma RoundsBack(q: int, bits: Depth)
    requires -Scale(bits) <= q < Scale(bits)
    ensures Quantized(Some(q as real / Scale(bits) as real), bits) == q
  {
    assert q as real / Scale(bits) as real * Scale(bits) as real == q as real;
    assert (q as real + 0.5).Floor == q && (0.5 - q as real).Floor == -q;
  }

  function AllFinite(samples: seq<real>): (r: seq<Option<real>>)
    ensures |r| == |samples|
  {
    seq(|samples|, i requires 0 <= i < |samples| => Some(samples[i]))
  }

  lemma {:induction false} ReceivedPayload(samples: seq<Option<real>>, bits: Depth)
    ensures Payload(AllFinite(Received(samples, bits)), bits) == Payload(samples, bits)
  {
    hide Quantized, SampleBytes;
    if samples != [] {
      var n := |samples| - 1;
      var heard := AllFinite(Received(samples, bits));
      ReceivedPayload(samples[..n], bits);
      assert heard[..n] == AllFinite(Received(samples[..n], bits));
      RoundsBack(Quantized(samples[n], bits), bits);
    }
  }

  /** Encoding what was decoded gives the same bytes again. */
  lemma ReencodingIsIdentical(rate: nat, name: StreamName, sequence: Word32, samples: seq<Option<real>>, bits: Depth)
    ensures Encode(rate, name, sequence, AllFinite(Received(samples, bits)), bits)
            == Encode(rate, name, sequence, samples, bits)
  {
    hide Payload, Received, Header, FindRate;
    ReceivedPayload(samples, bits);
  }

  /** A sample in range comes back within half a quantization step. */
  lemma WithinHalfStep(x: real, bits: Depth)
    requires -1.0 <= x <= 1.0 - 1.0 / Scale(bits) as real
    ensures var error := Quantized(Some(x), bits) as real / Scale(bits) as real - x;
            -0.5 / Scale(bits) as real <= error <= 0.5 / Scale(bits) as real
  {
    hide Round;
    var s := Scale(bits) as real;
    var y := x * s;
    ScaledRange(x, s);
    assert -s <= y <= s - 1.0;
    RoundedNear(y, bits);
    DividedError(Quantized(Some(x), bits) as real, x, s);
  }

  /** Full scale and beyond, either way, is clipped to the largest and the smallest value there is, and a sample that
      is not finite is silence. */
  lemma ClippedAtFullScale(x: real, bits: Depth)
    ensures Quantized(None, bits) == 0
    ensures x >= 1.0 - 1.0 / Scale(bits) as real ==> Quantized(Some(x), bits) == (if bits == 16 then 32767 else 8388607)
    ensures x <= -1.0 ==> Quantized(Some(x), bits) == (if bits == 16 then -32768 else -8388608)
  {
    var s := Scale(bits) as real;
    if x <= -1.0 {
      ScaledOrder(x, -1.0, s);
    }
    if x >= 1.0 - 1.0 / s {
      ScaledOrder(1.0 - 1.0 / s, x, s);
      assert 1.0 / s * s == 1.0;
      assert (1.0 - 1.0 / s) * s == s - 1.0 / s * s;
    }
  }

  /** A louder sample never comes out softer. */
  lemma QuantizedIsMonotone(x: real, y: real, bits: Depth)
    requires x <= y
    ensures Quantized(Some(x), bits) <= Quantized(Some(y), bits)
  {
    ScaledOrder(x, y, Scale(bits) as real);
  }

  /** A sample halfway between two values comes out as the louder one. */
  lemma HalvesGoAway(k: nat, bits: Depth)
    requires k < Scale(bits) - 1
    ensures Quantized(Some((k as real + 0.5) / Scale(bits) as real), bits) == k + 1
    ensures Quantized(Some(-((k as real + 0.5) / Scale(bits) as real)), bits) == -1 - k
  {
    var s := Scale(bits) as real;
    assert (k as real + 0.5) / s * s == k as real + 0.5;
    assert -((k as real + 0.5) / s) * s == -(k as real + 0.5);
    assert (k as real + 1.0).Floor == k + 1;
  }

  lemma ScaledOrder(x: real, y: real, s: real)
    requires x <= y && s > 0.0
    ensures x * s <= y * s
  {
    assert (y - x) * s >= 0.0;
    assert (y - x) * s == y * s - x * s;
  }

  lemma RoundedNear(y: real, bits: Depth)
    requires -(Scale(bits) as real) <= y <= Scale(bits) as real - 1.0
    ensures -Scale(bits) <= Round(y) <= Scale(bits) - 1 && -0.5 <= Round(y) as real - y <= 0.5
  {
  }

  lemma ScaledRange(x: real, s: real)
    requires s > 0.0 && -1.0 <= x <= 1.0 - 1.0 / s
    ensures -s <= x * s <= s - 1.0
  {
    var a, b := x + 1.0, 1.0 - 1.0 / s - x;
    assert a * s >= 0.0 && b * s >= 0.0;
    assert a * s == x * s + s;
    assert 1.0 / s * s == 1.0;
    assert b * s == s - 1.0 / s * s - x * s;
  }

  lemma DividedError(r: real, x: real, s: real)
    requires s > 0.0 && -0.5 <= r - x * s <= 0.5
    ensures -0.5 / s <= r / s - x <= 0.5 / s
  {
    var e, d := r - x * s, r / s - x;
    assert d * s == r / s * s - x * s == e;
    if d > 0.5 / s {
      assert d * s > 0.5 / s * s == 0.5;
    }
  }

  /** What `send` does to a shared packet for one destination. */
  function Patched(data: seq<Byte>, name: StreamName, sequence: Word32): (r: seq<Byte>)
    requires |data| >= HEADER
    ensures |r| == |data|
  {
    data[..8] + NameField(name) + LittleEndian4(sequence) + data[HEADER..]
  }

  /** Patching name and number into a packet gives the packet encoded for that destination. */
  lemma PatchingIsEncoding(
    rate: nat, name: StreamName, sequence: Word32, name': StreamName, sequence': Word32, samples: seq<Option<real>>,
        bits: Depth)
    requires Encode(rate, name, sequence, samples, bits).Some?
    ensures Some(Patched(Encode(rate, name, sequence, samples, bits).value, name', sequence'))
            == Encode(rate, name', sequence', samples, bits)
  {
    hide Payload, FindRate, LittleEndian4, NameField;
    var rateIndex, frames := FindRate(rate, 0).value, |samples| / 2;
    var h, h' := Header(rateIndex, frames, bits, name, sequence), Header(rateIndex, frames, bits, name', sequence');
    var data := Encode(rate, name, sequence, samples, bits).value;
    assert data[..8] == h[..8] && data[HEADER..] == Payload(samples, bits);
    assert h[..8] == MAGIC + [rateIndex, frames - 1, 1, Kind(bits)];
    assert data[..8] + NameField(name') + LittleEndian4(sequence') == h';
  }

  const MONITOR: StreamName := [77, 79, 78, 73, 84, 79, 82]

  /** A prepared destination; the name of one that is disabled may be anything. */
  datatype Destination = Destination(enabled: bool, name: seq<Byte>, bits: Depth)
  {
    predicate Valid() {
      enabled ==> ValidStreamName(name)
    }
  }

  const RETURNS: nat := 2

  class Transmitter {
    var destinations: seq<Destination>
    var sequences: seq<Word32>

    constructor (destinations: seq<Destination>)
      requires |destinations| == RETURNS && forall i | 0 <= i < RETURNS :: destinations[i].Valid()
      ensures Valid() && this.destinations == destinations && sequences == [0, 0]
    {
      this.destinations, sequences := destinations, [0, 0];
    }

    ghost predicate Valid()
      reads this
    {
      && |destinations| == |sequences| == RETURNS
      && forall i | 0 <= i < RETURNS :: destinations[i].Valid()
    }

    /** What is owed to destination `i`: its own packet, exactly as if it were encoded for it alone. */
    ghost function Owed(i: nat, numbers: seq<Word32>, stereo: seq<Option<real>>, rate: nat): Option<seq<Byte>>
      requires i < |destinations| == |numbers| && destinations[i].Valid()
      reads this
    {
      if destinations[i].enabled then Encode(rate, destinations[i].name, numbers[i], stereo, destinations[i].bits)
      else None
    }

    /** Destinations with the same format share one encoding, which is patched for each in turn. */
    method Send(stereo: seq<Option<real>>, rate: nat) returns (sent: seq<Option<seq<Byte>>>)
      requires Valid() && |stereo| % 2 == 0
      modifies `sequences
      ensures Valid() && |sent| == RETURNS
      ensures forall i | 0 <= i < RETURNS :: sent[i] == Owed(i, old(sequences), stereo, rate)
      ensures forall i | 0 <= i < RETURNS ::
                sequences[i] == if sent[i].Some? then Next32(old(sequences)[i]) else old(sequences)[i]
    {
      hide Encode, Patched;
      var packets: seq<Option<seq<Byte>>> := [None, None];
      sent := [];
      for i := 0 to RETURNS
        invariant |packets| == 2 && |sent| == i && |sequences| == RETURNS
        invariant forall f | 0 <= f < 2 :: packets[f].Some? ==>
                  IsEncodingOf(packets[f].value, stereo, rate, if f == 0 then 16 else 24)
        invariant forall k | 0 <= k < i :: sent[k] == Owed(k, old(sequences), stereo, rate)
        invariant forall k | 0 <= k < RETURNS ::
                    sequences[k] == if k < i && sent[k].Some? then Next32(old(sequences)[k]) else old(sequences)[k]
      {
        var d := destinations[i];
        if !d.enabled {
          sent := sent + [None];
          continue;
        }
        var format := if d.bits == 16 then 0 else 1;
        if packets[format].None? {
          packets := packets[format := Encode(rate, MONITOR, 0, stereo, d.bits)];
        }
        var packet := packets[format];
        ShareEncoding(packet, stereo, rate, d.bits, d.name, sequences[i]);
        if packet.None? {
          sent := sent + [None];
          continue;
        }
        var patched := Patched(packet.value, d.name, sequences[i]);
        packets := packets[format := Some(patched)];
        sequences := sequences[i := Next32(sequences[i])];
        sent := sent + [Some(patched)];
      }
    }
  }

  /** Some destination's packet for these samples. */
  ghost predicate IsEncodingOf(packet: seq<Byte>, stereo: seq<Option<real>>, rate: nat, bits: Depth) {
    |packet| >= HEADER && exists name: StreamName, sequence: Word32 ::
        Encode(rate, name, sequence, stereo, bits) == Some(packet)
  }

  lemma ShareEncoding(
    packet: Option<seq<Byte>>, stereo: seq<Option<real>>, rate: nat, bits: Depth, name: StreamName, sequence: Word32)
    requires if packet.Some? then IsEncodingOf(packet.value, stereo, rate, bits)
             || packet == Encode(rate, MONITOR, 0, stereo, bits)
             else Encode(rate, MONITOR, 0, stereo, bits).None?
    ensures packet.None? ==> Encode(rate, name, sequence, stereo, bits).None?
    ensures packet.Some? ==>
              && |packet.value| >= HEADER
              && Some(Patched(packet.value, name, sequence)) == Encode(rate, name, sequence, stereo, bits)
              && IsEncodingOf(Patched(packet.value, name, sequence), stereo, rate, bits)
  {
    if packet.Some? {
      EncodingIsPacket(packet.value, stereo, rate, bits);
      var name0: StreamName, sequence0: Word32 :| Encode(rate, name0, sequence0, stereo, bits) == packet;
      PatchingIsEncoding(rate, name0, sequence0, name, sequence, stereo, bits);
    }
  }

  lemma EncodingIsPacket(packet: seq<Byte>, stereo: seq<Option<real>>, rate: nat, bits: Depth)
    requires IsEncodingOf(packet, stereo, rate, bits) || Some(packet) == Encode(rate, MONITOR, 0, stereo, bits)
    ensures IsEncodingOf(packet, stereo, rate, bits)
  {
  }
}
