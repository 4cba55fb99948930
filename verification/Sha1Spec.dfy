/** SHA-1 as FIPS 180-4 defines it: padding of section 5.1.1, the message schedule
    and the eighty rounds of section 6.1.2, on whole messages. */
module Sha1Spec {
  import opened Bytes

  /** The five working variables a, b, c, d, e, and also a hash value H. */
  datatype Words = Words(a: bv32, b: bv32, c: bv32, d: bv32, e: bv32)

  const INITIAL_HASH: Words :=
    Words(0x67452301, 0xEFCDAB89, 0x98BADCFE, 0x10325476, 0xC3D2E1F0)

  /** Section 3.2, the rotate-left operation. */
  function RotL(x: bv32, n: nat): bv32
    requires n <= 32
  {
    (x << n) | (x >> (32 - n))
  }

  /** Section 3.2, addition modulo 2^32. */
  function Add(x: bv32, y: bv32): bv32 {
    x + y
  }

  function Add5(p: bv32, q: bv32, r: bv32, s: bv32, t: bv32): bv32 {
    p + q + r + s + t
  }

  /** Section 4.1.1, with the exclusive-or forms of Ch and Maj. */
  function F(t: nat, x: bv32, y: bv32, z: bv32): bv32 {
    if t < 20 then (x & y) ^ (!x & z)
    else if t < 40 then x ^ y ^ z
    else if t < 60 then (x & y) ^ (x & z) ^ (y & z)
    else x ^ y ^ z
  }

  /** Section 4.2.1. */
  function K(t: nat): bv32 {
    if t < 20 then 0x5A827999
    else if t < 40 then 0x6ED9EBA1
    else if t < 60 then 0x8F1BBCDC
    else 0xCA62C1D6
  }

  /** Four bytes read as one big-endian word. */
  function Word(b0: byte, b1: byte, b2: byte, b3: byte): bv32 {
    (b0 as bv32 << 24) | (b1 as bv32 << 16) | (b2 as bv32 << 8) | (b3 as bv32)
  }

  /** Step 1 of section 6.1.2: word t of the message schedule of one block. */
  function W(block: seq<byte>, t: nat): bv32
    requires |block| == 64
  {
    if t < 16 then Word(block[4 * t], block[4 * t + 1], block[4 * t + 2], block[4 * t + 3])
    else RotL(W(block, t - 3) ^ W(block, t - 8) ^ W(block, t - 14) ^ W(block, t - 16), 1)
  }

  /** Step 3 of section 6.1.2 for one value of t. */
  function Round(block: seq<byte>, t: nat, v: Words): Words
    requires |block| == 64
  {
    var temp := Add5(RotL(v.a, 5), F(t, v.b, v.c, v.d), v.e, K(t), W(block, t));
    Words(temp, v.a, RotL(v.b, 30), v.c, v.d)
  }

  /** The first n rounds. */
  function Rounds(block: seq<byte>, n: nat, v: Words): Words
    requires |block| == 64
  {
    if n == 0 then v else Round(block, n - 1, Rounds(block, n - 1, v))
  }

  /** Steps 2 to 4 of section 6.1.2 for one block. */
  function Compress(h: Words, block: seq<byte>): Words
    requires |block| == 64
  {
    var v := Rounds(block, 80, h);
    Words(Add(h.a, v.a), Add(h.b, v.b), Add(h.c, v.c), Add(h.d, v.d), Add(h.e, v.e))
  }

  /** The hash value after all whole blocks of `data`, the last one last. */
  function Blocks(data: seq<byte>): Words
    requires |data| % 64 == 0
  {
    if data == [] then INITIAL_HASH
    else Compress(Blocks(data[..|data| - 64]), data[|data| - 64..])
  }

  /** n as `width` big-endian bytes, modulo 256^width. */
  function BigEndian(n: nat, width: nat): (s: seq<byte>)
    ensures |s| == width
  {
    if width == 0 then [] else BigEndian(n / 256, width - 1) + [n % 256]
  }

  /** The number of zero bytes of section 5.1.1: the smallest solution of
      length + 1 + k = 56 modulo 64. */
  function ZeroCount(length: nat): (k: nat)
    ensures (length + 1 + k) % 64 == 56 && k < 64
  {
    (119 - length % 64) % 64
  }

  /** Section 5.1.1: a one bit, zero bits, and the length in bits as 64 bits. */
  function Pad(message: seq<byte>): (p: seq<byte>)
    ensures |p| % 64 == 0
  {
    PadAligned(|message|, ZeroCount(|message|));
    message + [0x80] + Zeros(ZeroCount(|message|)) + BigEndian(8 * |message|, 8)
  }

  lemma PadAligned(n: nat, k: nat)
    requires (n + 1 + k) % 64 == 56
    ensures (n + 1 + k + 8) % 64 == 0
  {
  }

  function WordBytes(x: bv32): (s: seq<byte>)
    ensures |s| == 4
  {
    [((x >> 24) & 0xFF) as int, ((x >> 16) & 0xFF) as int, ((x >> 8) & 0xFF) as int, (x & 0xFF) as int]
  }

  function Output(h: Words): (s: seq<byte>)
    ensures |s| == 20
  {
    WordBytes(h.a) + WordBytes(h.b) + WordBytes(h.c) + WordBytes(h.d) + WordBytes(h.e)
  }

  /** The message digest. */
  function Digest(message: seq<byte>): (d: seq<byte>)
    ensures |d| == 20
  {
    Output(Blocks(Pad(message)))
  }
}
