/** Bytes, big-endian numbers, and occurrences of one byte string inside another. */
module Bytes {
  type Byte = b: int | 0 <= b < 256

  const TWO32: nat := 0x1_0000_0000
  const TWO64: nat := 0x1_0000_0000_0000_0000

  /** `binary.BigEndian.PutUint32`. */
  function PutUint32(v: nat): (r: seq<Byte>)
    requires v < TWO32
    ensures |r| == 4
  {
    [v / 0x100_0000, v / 0x1_0000 % 256, v / 0x100 % 256, v % 256]
  }

  /** `binary.BigEndian.Uint32`. */
  function Uint32(b: seq<Byte>): (v: nat)
    requires |b| == 4
    ensures v < TWO32
  {
    var b0: int, b1: int, b2: int, b3: int := b[0], b[1], b[2], b[3];
    b0 * 0x100_0000 + b1 * 0x1_0000 + b2 * 0x100 + b3
  }

  lemma Uint32RoundTrip(v: nat)
    requires v < TWO32
    ensures Uint32(PutUint32(v)) == v
  {
    var a, b, c := v / 0x100_0000, v / 0x1_0000, v / 0x100;
    assert c == 256 * b + c % 256;
    assert b == 256 * a + b % 256;
    assert v == 256 * c + v % 256;
  }

  /** The number a big-endian byte string spells, without any bound on its width. */
  function Number(b: seq<Byte>): nat
  {
    if b == [] then 0 else Number(b[..|b| - 1]) * 256 + b[|b| - 1]
  }

  /** The fold `v = v<<8 | b` on a 32-bit unsigned accumulator. */
  function FoldUint32(b: seq<Byte>): (v: nat)
    ensures v < TWO32
  {
    if b == [] then 0 else (FoldUint32(b[..|b| - 1]) * 256 + b[|b| - 1]) % TWO32
  }

  /** Two's-complement wrap-around of Go's 64-bit `int`. */
  function WrapInt64(x: int): int
  {
    (x + TWO64 / 2) % TWO64 - TWO64 / 2
  }

  /** The same fold on a signed 64-bit accumulator. */
  function FoldInt(b: seq<Byte>): int
  {
    if b == [] then 0 else WrapInt64(FoldInt(b[..|b| - 1]) * 256 + b[|b| - 1])
  }

  /** Up to four bytes neither fold wraps. */
  lemma FoldsAgree(b: seq<Byte>)
    requires |b| <= 4
    ensures FoldUint32(b) == Number(b) && FoldInt(b) == Number(b)
    ensures Number(b) < TWO32
    ensures |b| <= 3 ==> Number(b) < 0x100_0000
    ensures |b| <= 2 ==> Number(b) < 0x1_0000
    ensures |b| <= 1 ==> Number(b) < 0x100
  {
  }

  lemma NumberOfFour(b: seq<Byte>)
    requires |b| == 4
    ensures Number(b) == Uint32(b)
  {
    var b0: int, b1: int, b2: int := b[0], b[1], b[2];
    assert b[..3][..2] == b[..2] && b[..2][..1] == b[..1];
    assert Number(b[..1]) == b[0] by { assert b[..1][..0] == []; }
    assert Number(b[..2]) == b0 * 256 + b1;
    assert Number(b[..3]) == (b0 * 256 + b1) * 256 + b2;
  }

  lemma {:induction false} LeadingZero(b: seq<Byte>)
    requires b != [] && b[0] == 0
    ensures Number(b[1..]) == Number(b)
  {
    if |b| > 1 {
      LeadingZero(b[..|b| - 1]);
      assert b[..|b| - 1][1..] == b[1..][..|b| - 2];
    }
  }

  /** The byte string `x` stands in `data` at `pos`. */
  ghost predicate At(data: seq<Byte>, pos: nat, x: seq<Byte>)
  {
    pos + |x| <= |data| && data[pos..pos + |x|] == x
  }

  lemma AtSplit(data: seq<Byte>, pos: nat, x: seq<Byte>, y: seq<Byte>)
    requires At(data, pos, x + y)
    ensures At(data, pos, x) && At(data, pos + |x|, y)
  {
    var z := data[pos..pos + |x + y|];
    assert z[..|x|] == x && z[|x|..] == y;
    assert data[pos..pos + |x|] == z[..|x|];
    assert data[pos + |x|..pos + |x| + |y|] == z[|x|..];
  }

  lemma AtByte(data: seq<Byte>, pos: nat, x: seq<Byte>, i: nat)
    requires At(data, pos, x) && i < |x|
    ensures data[pos + i] == x[i]
  {
  }
}
