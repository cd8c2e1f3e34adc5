/**
 * Byte-level model of the little-endian `DataView` accessors that the WAV encoder calls.
 *
 * A buffer is a sequence of bytes. Every setter returns a new buffer of the same length that
 * differs from the old one only in the bytes it writes. Numeric arguments go through the
 * ECMAScript integer conversions (ToUint8, ToUint16, ToUint32, ToInt16 of section 7.1 of
 * ECMA-262): a value that does not fit its field wraps around, it is never saturated.
 */
module DataView {
  import opened JsMath

  type Byte = b: int | 0 <= b < 256

  const TWO_8: int := 0x100
  const TWO_15: int := 0x8000
  const TWO_16: int := 0x1_0000
  const TWO_24: int := 0x100_0000
  const TWO_32: int := 0x1_0000_0000

  /** ToUint16 of an integral number: its residue modulo 2^16. */
  function ToUint16(n: int): (u: int)
    ensures 0 <= u < TWO_16
    ensures 0 <= n < TWO_16 ==> u == n
    ensures (n - u) % TWO_16 == 0
  {
    n % TWO_16
  }

  /** ToUint32 of an integral number: its residue modulo 2^32. */
  function ToUint32(n: int): (u: int)
    ensures 0 <= u < TWO_32
    ensures 0 <= n < TWO_32 ==> u == n
    ensures (n - u) % TWO_32 == 0
  {
    n % TWO_32
  }

  /** Truncation toward zero of a real number (the integer part, as ToIntegerOrInfinity takes it). */
  function Truncate(x: real): (n: int)
    ensures Abs(n as real) <= Abs(x) < Abs(n as real) + 1.0
    ensures x >= 0.0 ==> n >= 0
    ensures x <= 0.0 ==> n <= 0
  {
    if x >= 0.0 then Floor(x) else -Floor(-x)
  }

  /**
   * ToInt16 of a finite number: truncate toward zero, reduce modulo 2^16, and read the residue
   * as a two's complement value.
   */
  function ToInt16(x: real): (v: int)
    ensures -TWO_15 <= v < TWO_15
    ensures ToUint16(v) == ToUint16(Truncate(x))
  {
    var m := ToUint16(Truncate(x));
    if m >= TWO_15 then m - TWO_16 else m
  }

  /** The two bytes, least significant first, that a 16-bit field holds for `v`. */
  function LE16(v: int): (b: seq<Byte>)
    ensures |b| == 2
  {
    var u := ToUint16(v);
    [u % TWO_8, u / TWO_8]
  }

  /** The four bytes, least significant first, that a 32-bit field holds for `v`. */
  function LE32(v: int): (b: seq<Byte>)
    ensures |b| == 4
  {
    var u := ToUint32(v);
    [u % TWO_8, u / TWO_8 % TWO_8, u / TWO_16 % TWO_8, u / TWO_24]
  }

  /** `getUint16(off, true)`: the unsigned little-endian value of bytes `off` and `off + 1`. */
  function ReadUint16(buf: seq<Byte>, off: int): nat
    requires 0 <= off && off + 2 <= |buf|
  {
    buf[off] + TWO_8 * buf[off + 1]
  }

  /** `getUint32(off, true)`: the unsigned little-endian value of bytes `off` .. `off + 3`. */
  function ReadUint32(buf: seq<Byte>, off: int): nat
    requires 0 <= off && off + 4 <= |buf|
  {
    buf[off] + TWO_8 * buf[off + 1] + TWO_16 * buf[off + 2] + TWO_24 * buf[off + 3]
  }

  /** `getInt16(off, true)`: the two's complement little-endian value of bytes `off` and `off + 1`. */
  function ReadInt16(buf: seq<Byte>, off: int): int
    requires 0 <= off && off + 2 <= |buf|
  {
    var u := ReadUint16(buf, off);
    if u >= TWO_15 then u - TWO_16 else u
  }

  /** Reading a 16-bit field back gives the written value modulo 2^16. */
  lemma LE16RoundTrip(v: int)
    ensures ReadUint16(LE16(v), 0) == ToUint16(v)
  {
  }

  /** Reading a 32-bit field back gives the written value modulo 2^32. */
  lemma LE32RoundTrip(v: int)
    ensures ReadUint32(LE32(v), 0) == ToUint32(v)
  {
    var u := ToUint32(v);
    var q1, r0 := u / TWO_8, u % TWO_8;
    var q2, r1 := q1 / TWO_8, q1 % TWO_8;
    var q3, r2 := q2 / TWO_8, q2 % TWO_8;
    assert u == TWO_8 * q1 + r0;
    assert q1 == TWO_8 * q2 + r1;
    assert q2 == TWO_8 * q3 + r2;
    assert u / TWO_16 == q2;
    assert u / TWO_24 == q3;
  }

  /** Overwrites the bytes at `off` with `bytes`; every other byte of the buffer is kept. */
  function Put(buf: seq<Byte>, off: int, bytes: seq<Byte>): (r: seq<Byte>)
    requires 0 <= off && off + |bytes| <= |buf|
    ensures |r| == |buf|
    ensures forall k :: 0 <= k < |bytes| ==> r[off + k] == bytes[k]
    ensures forall p :: 0 <= p < |buf| && !(off <= p < off + |bytes|) ==> r[p] == buf[p]
  {
    buf[..off] + bytes + buf[off + |bytes|..]
  }

  /** `setUint8(off, v)`: stores ToUint8(v). */
  function SetUint8(buf: seq<Byte>, off: int, v: int): (r: seq<Byte>)
    requires 0 <= off < |buf|
    ensures |r| == |buf|
    ensures r[off] == v % TWO_8
    ensures 0 <= v < TWO_8 ==> r[off] == v
    ensures forall p :: 0 <= p < |buf| && p != off ==> r[p] == buf[p]
  {
    Put(buf, off, [v % TWO_8])
  }

  /** `setUint16(off, v, true)`: stores ToUint16(v) little-endian. */
  function SetUint16(buf: seq<Byte>, off: int, v: int): (r: seq<Byte>)
    requires 0 <= off && off + 2 <= |buf|
    ensures |r| == |buf|
    ensures r[off..off + 2] == LE16(v)
    ensures ReadUint16(r, off) == ToUint16(v)
    ensures forall p :: 0 <= p < |buf| && !(off <= p < off + 2) ==> r[p] == buf[p]
  {
    LE16RoundTrip(v);
    Put(buf, off, LE16(v))
  }

  /** `setUint32(off, v, true)`: stores ToUint32(v) little-endian. */
  function SetUint32(buf: seq<Byte>, off: int, v: int): (r: seq<Byte>)
    requires 0 <= off && off + 4 <= |buf|
    ensures |r| == |buf|
    ensures r[off..off + 4] == LE32(v)
    ensures ReadUint32(r, off) == ToUint32(v)
    ensures forall p :: 0 <= p < |buf| && !(off <= p < off + 4) ==> r[p] == buf[p]
  {
    LE32RoundTrip(v);
    var r := Put(buf, off, LE32(v));
    assert r[off..off + 4] == LE32(v);
    r
  }

  /** `setInt16(off, x, true)`: stores ToInt16(x) as a two's complement little-endian value. */
  function SetInt16(buf: seq<Byte>, off: int, x: real): (r: seq<Byte>)
    requires 0 <= off && off + 2 <= |buf|
    ensures |r| == |buf|
    ensures r[off..off + 2] == LE16(ToInt16(x))
    ensures ReadInt16(r, off) == ToInt16(x)
    ensures forall p :: 0 <= p < |buf| && !(off <= p < off + 2) ==> r[p] == buf[p]
  {
    Int16RoundTrip(ToInt16(x));
    Put(buf, off, LE16(ToInt16(x)))
  }

  /** A value in the signed 16-bit range survives its little-endian encoding unchanged. */
  lemma Int16RoundTrip(v: int)
    requires -TWO_15 <= v < TWO_15
    ensures ReadInt16(LE16(v), 0) == v
  {
    LE16RoundTrip(v);
  }

  /** A 16-bit field whose bytes hold `LE16(v)` reads back as `v` modulo 2^16. */
  lemma ReadUint16Field(buf: seq<Byte>, off: int, v: int)
    requires 0 <= off && off + 2 <= |buf|
    requires buf[off..off + 2] == LE16(v)
    ensures ReadUint16(buf, off) == ToUint16(v)
  {
    assert buf[off] == LE16(v)[0] && buf[off + 1] == LE16(v)[1];
    LE16RoundTrip(v);
  }

  /** A 32-bit field whose bytes hold `LE32(v)` reads back as `v` modulo 2^32. */
  lemma ReadUint32Field(buf: seq<Byte>, off: int, v: int)
    requires 0 <= off && off + 4 <= |buf|
    requires buf[off..off + 4] == LE32(v)
    ensures ReadUint32(buf, off) == ToUint32(v)
  {
    assert buf[off] == LE32(v)[0] && buf[off + 1] == LE32(v)[1];
    assert buf[off + 2] == LE32(v)[2] && buf[off + 3] == LE32(v)[3];
    LE32RoundTrip(v);
  }

  /** Two bytes that hold the encoding of a signed 16-bit value read back as that value. */
  lemma ReadInt16Stored(buf: seq<Byte>, off: int, v: int)
    requires 0 <= off && off + 2 <= |buf|
    requires -TWO_15 <= v < TWO_15
    requires buf[off] == LE16(v)[0] && buf[off + 1] == LE16(v)[1]
    ensures ReadInt16(buf, off) == v
  {
    Int16RoundTrip(v);
  }
}
