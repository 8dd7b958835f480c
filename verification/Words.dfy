/** Machine words and byte order: the fixed-width arithmetic the plugin's counters and clocks rely on. */
module Words {

  const TWO16: nat := 0x1_0000
  const TWO32: nat := 0x1_0000_0000
  const HALF32: nat := 0x8000_0000
  const TWO64: nat := 0x1_0000_0000_0000_0000

  const SECOND: nat := 1_000_000_000

  type Byte = n: nat | n < 0x100
  type Word32 = n: nat | n < TWO32

  datatype Option<+T> = None | Some(value: T)

  /** The stored form of an unbounded counter. */
  function Wrap(n: nat): Word32 {
    n % TWO32
  }

  function Next32(w: Word32): Word32 {
    if w + 1 == TWO32 then 0 else w + 1
  }

  /** `to - from` on 32-bit unsigned words. */
  function Ahead(to: Word32, from: Word32): (d: Word32)
    ensures d == 0 <==> to == from
  {
    if to >= from then to - from else to + TWO32 - from
  }

  /** The half-range test of RFC 1982, section 3.2; a distance of exactly one half counts as old. */
  predicate IsOld(number: Word32, reference: Word32) {
    Ahead(number, reference) >= HALF32
  }

  /** `a - b` on 64-bit unsigned words. */
  function Sub64(a: nat, b: nat): nat
    requires a < TWO64 && b < TWO64
  {
    if a >= b then a - b else a + TWO64 - b
  }

  function Min(a: int, b: int): int {
    if a < b then a else b
  }

  function Max(a: int, b: int): int {
    if a < b then b else a
  }

  function Abs(a: int): nat {
    if a < 0 then -a else a
  }

  lemma WrapStep(n: nat)
    ensures Wrap(n + 1) == Next32(Wrap(n))
  {
  }

  /** A counter at most half a range in front of another can be read off their wrapped forms. */
  lemma AheadOfWrapped(n: nat, m: nat)
    requires m <= n < m + TWO32
    ensures Ahead(Wrap(n), Wrap(m)) == n - m
  {
  }

  lemma WrapOfAhead(w: Word32, m: nat)
    ensures Wrap(m + Ahead(w, Wrap(m))) == w
  {
  }

  function LittleEndian4(w: Word32): (b: seq<Byte>)
    ensures |b| == 4
  {
    [w % 256, w / 256 % 256, w / 256 / 256 % 256, w / 256 / 256 / 256]
  }

  function ReadLittleEndian4(b: seq<Byte>): Word32
    requires |b| == 4
  {
    b[0] as nat + b[1] as nat * 256 + b[2] as nat * 65536 + b[3] as nat * 16777216
  }

  lemma LittleEndian4RoundTrip(w: Word32)
    ensures ReadLittleEndian4(LittleEndian4(w)) == w
  {
  }

  lemma DivisionFloor(a: nat, b: nat)
    requires b > 0
    ensures 0 <= a / b && b * (a / b) <= a < b * (a / b + 1)
  {
    assert a == b * (a / b) + a % b;
  }

  lemma ProductMonotone(a: int, b: int, c: nat)
    requires a <= b
    ensures a * c <= b * c && c * a <= c * b
  {
  }

  lemma Distribute(a: int, b: int, c: int)
    ensures a * (b + c) == a * b + a * c
  {
  }

  lemma CancelFactor(a: int, b: int, c: nat)
    requires c > 0 && a * c <= b * c
    ensures a <= b
  {
    if a > b {
      ProductMonotone(b + 1, a, c);
      Distribute(c, b, 1);
    }
  }

  /** The truncating `a * b / c`. */
  function MulDiv(a: nat, b: nat, c: nat): nat
    requires c > 0
  {
    DivisionFloor(a * b, c);
    a * b / c
  }

  lemma MulDivBounds(a: nat, b: nat, c: nat)
    requires c > 0
    ensures c * MulDiv(a, b, c) <= a * b < c * (MulDiv(a, b, c) + 1)
  {
    DivisionFloor(a * b, c);
  }

  lemma DivMod(a: nat, b: nat)
    requires b > 0
    ensures a == b * (a / b) + a % b && 0 <= a / b && 0 <= a % b < b
  {
  }
}
