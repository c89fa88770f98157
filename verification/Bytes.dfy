/** Little-endian integers inside byte sequences. */
module Bytes {

  type Byte = b: int | 0 <= b < 256

  const U32_LIMIT := 0x1_0000_0000
  const U64_LIMIT := 0x1_0000_0000_0000_0000

  type U32 = n: int | 0 <= n < U32_LIMIT
  type U64 = n: int | 0 <= n < U64_LIMIT

  function U32At(b: seq<Byte>, off: nat): (n: U32)
    requires off + 4 <= |b|
  {
    b[off] as int + 0x100 * b[off + 1] as int + 0x1_0000 * b[off + 2] as int + 0x100_0000 * b[off + 3] as int
  }

  /** The number that bytes of any length stand for, least significant first. */
  function Value(b: seq<Byte>): nat {
    if b == [] then 0 else b[0] + 0x100 * Value(b[1..])
  }

  lemma U32AtIsValue(b: seq<Byte>, off: nat)
    requires off + 4 <= |b|
    ensures U32At(b, off) == Value(b[off..off + 4])
  {
    var w := b[off..off + 4];
    assert w[1..] == [w[1], w[2], w[3]] && w[1..][1..] == [w[2], w[3]] && w[1..][1..][1..] == [w[3]];
    assert Value([w[3]]) == w[3] + 0x100 * Value([]);
    assert Value(w[1..][1..]) == w[2] + 0x100 * Value([w[3]]);
    assert Value(w[1..]) == w[1] + 0x100 * Value(w[1..][1..]);
  }

  function U32Bytes(n: U32): (b: seq<Byte>)
    ensures |b| == 4
  {
    [n % 0x100, n / 0x100 % 0x100, n / 0x1_0000 % 0x100, n / 0x100_0000]
  }

  lemma U32RoundTrip(n: U32)
    ensures U32At(U32Bytes(n), 0) == n
  {
    var a, b := n / 0x100, n / 0x1_0000;
    assert n == a * 0x100 + n % 0x100;
    assert a == b * 0x100 + a % 0x100;
    assert b == n / 0x100_0000 * 0x100 + b % 0x100;
  }

  /** A value is read back from wherever its bytes stand. */
  lemma U32AtBytes(b: seq<Byte>, off: nat, n: U32)
    requires off + 4 <= |b| && b[off..off + 4] == U32Bytes(n)
    ensures U32At(b, off) == n
  {
    U32RoundTrip(n);
    assert b[off..off + 4] == [b[off], b[off + 1], b[off + 2], b[off + 3]];
  }

  function U64At(b: seq<Byte>, off: nat): (n: U64)
    requires off + 8 <= |b|
  {
    U32At(b, off) as int + U32_LIMIT * U32At(b, off + 4) as int
  }

  lemma {:induction false} ValueOfConcat(a: seq<Byte>, b: seq<Byte>)
    requires |a| == 4
    ensures Value(a + b) == Value(a) + U32_LIMIT * Value(b)
  {
    var c := a + b;
    assert c[1..] == a[1..] + b && c[1..][1..] == a[2..] + b && c[1..][1..][1..] == a[3..] + b;
    assert c[1..][1..][1..][1..] == b;
    assert a[1..][1..] == a[2..] && a[2..][1..] == a[3..] && a[3..][1..] == [];
    assert Value(a[3..]) == a[3] && Value(a[2..]) == a[2] + 0x100 * Value(a[3..]);
    assert Value(a[1..]) == a[1] + 0x100 * Value(a[2..]);
    assert Value(c[1..][1..][1..]) == a[3] + 0x100 * Value(b);
    assert Value(c[1..][1..]) == a[2] + 0x100 * Value(c[1..][1..][1..]);
    assert Value(c[1..]) == a[1] + 0x100 * Value(c[1..][1..]);
  }

  lemma U64AtIsValue(b: seq<Byte>, off: nat)
    requires off + 8 <= |b|
    ensures U64At(b, off) == Value(b[off..off + 8])
  {
    U32AtIsValue(b, off);
    U32AtIsValue(b, off + 4);
    ValueOfConcat(b[off..off + 4], b[off + 4..off + 8]);
    assert b[off..off + 8] == b[off..off + 4] + b[off + 4..off + 8];
  }

  function U64Bytes(n: U64): (b: seq<Byte>)
    ensures |b| == 8
  {
    U32Bytes(n % U32_LIMIT) + U32Bytes(n / U32_LIMIT)
  }

  lemma U64AtBytes(b: seq<Byte>, off: nat, n: U64)
    requires off + 8 <= |b| && b[off..off + 8] == U64Bytes(n)
    ensures U64At(b, off) == n
  {
    assert b[off..off + 4] == b[off..off + 8][..4];
    assert b[off + 4..off + 8] == b[off..off + 8][4..];
    U32AtBytes(b, off, n % U32_LIMIT);
    U32AtBytes(b, off + 4, n / U32_LIMIT);
  }

  function Zeros(n: nat): (z: seq<Byte>)
    ensures |z| == n
  {
    seq(n, i => 0)
  }

  /** `buf[off..off + |bytes|].copy_from_slice(bytes)`. */
  function Stored(buf: seq<Byte>, off: nat, bytes: seq<Byte>): (r: seq<Byte>)
    requires off + |bytes| <= |buf|
    ensures |r| == |buf|
  {
    buf[..off] + bytes + buf[off + |bytes|..]
  }

  /** Both buffers hold the same bytes from `lo` up to `hi`. */
  predicate SameRange(a: seq<Byte>, b: seq<Byte>, lo: nat, hi: nat) {
    && |a| == |b| && hi <= |a|
    && forall k :: lo <= k < hi ==> a[k] == b[k]
  }

  lemma StoredRanges(buf: seq<Byte>, off: nat, bytes: seq<Byte>)
    requires off + |bytes| <= |buf|
    ensures
      var r := Stored(buf, off, bytes);
      && r[off..off + |bytes|] == bytes
      && SameRange(r, buf, 0, off)
      && SameRange(r, buf, off + |bytes|, |buf|)
  {
  }

  /** A stored value is read back, and nothing else has moved. */
  lemma StoredU32(buf: seq<Byte>, off: nat, n: U32)
    requires off + 4 <= |buf|
    ensures
      var r := Stored(buf, off, U32Bytes(n));
      && U32At(r, off) == n
      && SameRange(r, buf, 0, off)
      && SameRange(r, buf, off + 4, |buf|)
  {
    StoredRanges(buf, off, U32Bytes(n));
    U32AtBytes(Stored(buf, off, U32Bytes(n)), off, n);
  }

  /** `buf[off..off + 4].copy_from_slice(&n.to_le_bytes())`. */
  function PutU32(buf: seq<Byte>, off: nat, n: U32): (r: seq<Byte>)
    requires off + 4 <= |buf|
    ensures |r| == |buf| && U32At(r, off) == n
    ensures SameRange(r, buf, 0, off) && SameRange(r, buf, off + 4, |buf|)
  {
    StoredU32(buf, off, n);
    Stored(buf, off, U32Bytes(n))
  }
}
