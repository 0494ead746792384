/** Octets and the big-endian integer packing of `struct.pack('>H')` and `struct.pack('>L')`. */
module Bytes {
  type byte = x: int | 0 <= x < 256

  const ShortMask: int := 0x1_0000
  const LongMask: int := 0x1_0000_0000

  /** The big-endian value of two octets. */
  function ShortValue(s: seq<byte>): (v: nat)
    requires |s| == 2
    ensures v < ShortMask
  {
    (s[0] as int) * 256 + s[1] as int
  }

  /** The big-endian value of four octets. */
  function LongValue(s: seq<byte>): (v: nat)
    requires |s| == 4
    ensures v < LongMask
  {
    (((s[0] as int) * 256 + s[1] as int) * 256 + s[2] as int) * 256 + s[3] as int
  }

  /** `struct.pack('>H', n & 0xFFFF)`: the low 16 bits of n (two's complement), high octet first. */
  function Short(n: int): (r: seq<byte>)
    ensures |r| == 2 && ShortValue(r) == n % ShortMask
  {
    var m := n % ShortMask;
    [m / 256, m % 256]
  }

  /** `struct.pack('>L', n & 0xFFFFFFFF)`: the low 32 bits of n (two's complement), high octet first. */
  function Long(n: int): (r: seq<byte>)
    ensures |r| == 4 && LongValue(r) == n % LongMask
  {
    var m := n % LongMask;
    var q1 := m / 256;
    var q2 := q1 / 256;
    [q2 / 256, q2 % 256, q1 % 256, m % 256]
  }

  /** Packing the value of two octets gives the same two octets. */
  lemma ShortOfValue(s: seq<byte>)
    requires |s| == 2
    ensures Short(ShortValue(s)) == s
  {
  }

  /** Packing the value of four octets gives the same four octets. */
  lemma LongOfValue(s: seq<byte>)
    requires |s| == 4
    ensures Long(LongValue(s)) == s
  {
    var v := LongValue(s);
    assert v % LongMask == v;
    assert v / 0x100_0000 == s[0];
    assert (v / 0x1_0000) % 256 == s[1];
    assert (v / 256) % 256 == s[2];
  }

  function Pow2(k: nat): (r: nat)
    ensures r >= 1
  {
    if k == 0 then 1 else 2 * Pow2(k - 1)
  }

  /** Bit k of an octet (`buff & (1 << k) != 0`). */
  function Bit(b: byte, k: nat): bool
    requires k < 8
  {
    (b / Pow2(k)) % 2 == 1
  }

  lemma Assoc(a: seq<byte>, b: seq<byte>, c: seq<byte>)
    ensures a + b + c == a + (b + c)
  {
  }
}
