/** The salted hash index of StandardBloomFilter.GetHashIndex
    (pkg/bloom/stdbloomfilter.go): the key's bytes followed by the salt as a
    4-byte little-endian uint32 go through a 64-bit hash, reduced modulo M.

    The murmur3 digest is a foreign library and stays abstract: a Hasher is
    any function from the key and the salt bytes to a 64-bit value, so every
    property proved here and downstream holds for every such hash. */
module Hashing {

  newtype uint8 = x: int | 0 <= x < 0x100
  newtype uint64 = x: int | 0 <= x < 0x1_0000_0000_0000_0000

  const TWO_TO_32: int := 0x1_0000_0000

  /** A 64-bit hash of the key's bytes followed by the salt bytes. */
  type Hasher = (string, seq<uint8>) -> uint64

  /** binary.LittleEndian.PutUint32: least significant byte first. */
  function PutUint32LE(v: int): (b: seq<uint8>)
    requires 0 <= v < TWO_TO_32
    ensures |b| == 4
    ensures Uint32LE(b) == v
  {
    var b0 := v % 0x100;
    var r0 := v / 0x100;
    var b1 := r0 % 0x100;
    var r1 := r0 / 0x100;
    var b2 := r1 % 0x100;
    var b3 := r1 / 0x100;
    assert r1 == b2 + 0x100 * b3;
    assert r0 == b1 + 0x100 * r1;
    assert v == b0 + 0x100 * r0;
    [b0 as uint8, b1 as uint8, b2 as uint8, b3 as uint8]
  }

  /** The inverse of PutUint32LE: read four bytes as a little-endian unsigned integer. */
  function Uint32LE(b: seq<uint8>): (v: int)
    requires |b| == 4
    ensures 0 <= v < TWO_TO_32
  {
    b[0] as int + 0x100 * (b[1] as int + 0x100 * (b[2] as int + 0x100 * b[3] as int))
  }

  /** The salt bytes for hash number idx: Go's uint32(idx) wraps idx modulo 2^32. */
  function Salt(idx: int): (b: seq<uint8>)
    ensures |b| == 4
    ensures Uint32LE(b) == idx % TWO_TO_32
  {
    PutUint32LE(idx % TWO_TO_32)
  }

  /** Different hash numbers below 2^32 are salted differently, so the K hash
      positions of one key come from K distinct hash inputs. */
  lemma SaltsDistinct(i: int, j: int)
    requires 0 <= i < TWO_TO_32 && 0 <= j < TWO_TO_32 && i != j
    ensures Salt(i) != Salt(j)
  {
    assert Uint32LE(Salt(i)) == i;
    assert Uint32LE(Salt(j)) == j;
  }

  /** Hash numbers that agree modulo 2^32 share a salt, hence a position. */
  lemma SaltWraps(i: int)
    ensures Salt(i + TWO_TO_32) == Salt(i)
  {
    var q := i / TWO_TO_32;
    var r := i % TWO_TO_32;
    assert i + TWO_TO_32 == (q + 1) * TWO_TO_32 + r;
    assert (i + TWO_TO_32) % TWO_TO_32 == r;
  }

  /** GetHashIndex: the hash of (key, salt idx) reduced into the bit array. The
      modulus is only defined for a non-empty array. */
  function GetHashIndex(h: Hasher, key: string, idx: int, M: int): (r: int)
    requires 0 < M
    ensures 0 <= r < M
  {
    (h(key, Salt(idx)) as int) % M
  }
}
