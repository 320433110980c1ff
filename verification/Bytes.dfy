/** Byte strings, the three file operations the commit code uses, and the 64-bit big-endian integers of
    the journal format. */
module Bytes {
  type byte = b: int | 0 <= b < 256

  type Bytes = seq<byte>

  /** The largest int64, the width of every size, offset and count in the code. */
  const MAX_INT64: int := 0x7FFF_FFFF_FFFF_FFFF

  function Min(a: int, b: int): int {
    if a < b then a else b
  }

  lemma {:induction false} MulMonotone(a: nat, b: nat, c: nat)
    requires a <= b
    ensures a * c <= b * c
  {
    assert b * c == a * c + (b - a) * c;
  }

  /** The byte a file shows at k, where everything at or past its end reads as a hole. */
  function At(f: Bytes, k: nat): byte {
    if k < |f| then f[k] else 0
  }

  function Zeros(n: nat): (z: Bytes)
    ensures |z| == n && forall k :: 0 <= k < n ==> z[k] == 0
  {
    if n == 0 then [] else Zeros(n - 1) + [0]
  }

  /** ftruncate: cuts, or extends with zeros. */
  function Truncate(f: Bytes, size: nat): (g: Bytes)
    ensures |g| == size
  {
    if size <= |f| then f[..size] else f + Zeros(size - |f|)
  }

  /** pwrite: bytes between the old end and `off` become zero; writing nothing changes nothing, even far
      past the end. */
  function WriteAt(f: Bytes, data: Bytes, off: nat): (g: Bytes)
    ensures |g| == if data == [] || off + |data| <= |f| then |f| else off + |data|
  {
    if data == [] then f
    else Truncate(f, off) + data + if off + |data| <= |f| then f[off + |data|..] else []
  }

  lemma {:induction false} AtTruncate(f: Bytes, size: nat, k: nat)
    ensures At(Truncate(f, size), k) == if k < size then At(f, k) else 0
  {
  }

  lemma {:induction false} AtWriteAt(f: Bytes, data: Bytes, off: nat, k: nat)
    ensures At(WriteAt(f, data, off), k) == if off <= k < off + |data| then data[k - off] else At(f, k)
  {
  }

  /** The `width` low-order base-256 digits of v, most significant first. */
  function BigEndian(v: nat, width: nat): (b: Bytes)
    ensures |b| == width
  {
    if width == 0 then [] else BigEndian(v / 256, width - 1) + [v % 256]
  }

  function FromBigEndian(b: Bytes): nat {
    if b == [] then 0 else FromBigEndian(b[..|b| - 1]) * 256 + b[|b| - 1]
  }

  function Pow256(n: nat): nat {
    if n == 0 then 1 else 256 * Pow256(n - 1)
  }

  lemma {:induction false} BigEndianRoundTrip(v: nat, width: nat)
    requires v < Pow256(width)
    ensures FromBigEndian(BigEndian(v, width)) == v
  {
    if width != 0 {
      BigEndianRoundTrip(v / 256, width - 1);
      var b := BigEndian(v, width);
      assert b[..|b| - 1] == BigEndian(v / 256, width - 1);
    }
  }

  /** uint64(v) as binary.BigEndian.PutUint64 lays it out. */
  function PutUint64(v: nat): (b: Bytes)
    ensures |b| == 8
  {
    BigEndian(v, 8)
  }

  /** int64(binary.BigEndian.Uint64(b)): values from 2^63 up come out negative. */
  function GetInt64(b: Bytes): int {
    var u := FromBigEndian(b);
    if u <= MAX_INT64 then u else u - 0x1_0000_0000_0000_0000
  }

  lemma {:induction false} Int64RoundTrip(v: nat)
    requires v <= MAX_INT64
    ensures GetInt64(PutUint64(v)) == v
  {
    assert Pow256(8) == 0x1_0000_0000_0000_0000 by {
      assert Pow256(4) == 0x1_0000_0000;
      assert Pow256(5) == 0x100_0000_0000;
      assert Pow256(6) == 0x1_0000_0000_0000;
      assert Pow256(7) == 0x100_0000_0000_0000;
    }
    BigEndianRoundTrip(v, 8);
  }
}
