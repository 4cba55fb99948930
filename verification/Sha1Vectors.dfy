/** SHA-1 with its numbers written out: the constants, how blocks are chained and messages
    padded, and the digest of the example message "abc" of FIPS 180. */
module Sha1Vectors {
  import opened Bytes
  import opened Sha1Spec

  // ----- the constants ------------------------------------------------------------------

  /** The constants of section 4.2.1 are the square roots of 2, 3, 5 and 10, times 2^30. */
  lemma RoundConstants(t: nat)
    requires t < 80
    ensures var k, n := K(t) as int, if t < 20 then 2 else if t < 40 then 3 else if t < 60 then 5 else 10;
            k * k <= n * 0x1000_0000_0000_0000 < (k + 1) * (k + 1)
  {
  }

  /** The initial hash value of section 5.3.1, word by word with the last byte first. */
  lemma InitialBytes()
    ensures Output(INITIAL_HASH) ==
            [0x67, 0x45, 0x23, 0x01, 0xEF, 0xCD, 0xAB, 0x89, 0x98, 0xBA, 0xDC, 0xFE, 0x10, 0x32, 0x54, 0x76,
             0xC3, 0xD2, 0xE1, 0xF0]
  {
  }

  // ----- chaining and padding -----------------------------------------------------------

  /** The hash value starts with the initial one, and every further block adds to it what
      eighty rounds make of it. */
  lemma Chaining(data: seq<byte>, block: seq<byte>)
    requires |data| % 64 == 0 && |block| == 64
    ensures Blocks([]) == INITIAL_HASH
    ensures |data + block| % 64 == 0
    ensures var h := Blocks(data);
            var v := Rounds(block, 80, h);
            Blocks(data + block) == Words(Add(h.a, v.a), Add(h.b, v.b), Add(h.c, v.c), Add(h.d, v.d), Add(h.e, v.e))
  {
    hide Rounds, Add;
    assert (data + block)[..|data + block| - 64] == data;
    assert (data + block)[|data + block| - 64..] == block;
  }

  /** The value of a big-endian number. */
  function Value(s: seq<byte>): nat {
    if s == [] then 0 else 256 * Value(s[..|s| - 1]) + s[|s| - 1]
  }

  function Power(n: nat): nat {
    if n == 0 then 1 else 256 * Power(n - 1)
  }

  lemma {:induction false} BigEndianValue(n: nat, width: nat)
    requires n < Power(width)
    ensures Value(BigEndian(n, width)) == n
  {
    if width > 0 {
      BigEndianValue(n / 256, width - 1);
      var s := BigEndian(n, width);
      assert s[..|s| - 1] == BigEndian(n / 256, width - 1) && s[|s| - 1] == n % 256;
    }
  }

  /** A message is padded with 128, as few zeros as possible, and eight bytes that hold its
      length in bits, to a multiple of 64 bytes. */
  lemma Padding(message: seq<byte>)
    requires |message| < 0x2000_0000_0000_0000
    ensures var p := Pad(message);
            && |p| % 64 == 0 && |message| + 9 <= |p| < |message| + 9 + 64
            && p[..|message|] == message && p[|message|] == 128
            && (forall i :: |message| < i < |p| - 8 ==> p[i] == 0)
            && Value(p[|p| - 8..]) == 8 * |message|
  {
    var p := Pad(message);
    assert Power(8) == 0x1_0000_0000_0000_0000 by {
      assert Power(4) == 0x1_0000_0000;
    }
    BigEndianValue(8 * |message|, 8);
    assert p[|p| - 8..] == BigEndian(8 * |message|, 8);
  }

  // ----- sixteen words and sixteen rounds at a time ---------------------------------------

  datatype Sixteen = Sixteen(
    w0: bv32, w1: bv32, w2: bv32, w3: bv32, w4: bv32, w5: bv32, w6: bv32, w7: bv32,
    w8: bv32, w9: bv32, w10: bv32, w11: bv32, w12: bv32, w13: bv32, w14: bv32, w15: bv32
  )

  function Mix(a: bv32, b: bv32, c: bv32, d: bv32): bv32 {
    RotL(a ^ b ^ c ^ d, 1)
  }

  /** y stands behind x in a message schedule. */
  ghost predicate Follows(x: Sixteen, y: Sixteen) {
    && y.w0 == Mix(x.w13, x.w8, x.w2, x.w0)
    && y.w1 == Mix(x.w14, x.w9, x.w3, x.w1)
    && y.w2 == Mix(x.w15, x.w10, x.w4, x.w2)
    && y.w3 == Mix(y.w0, x.w11, x.w5, x.w3)
    && y.w4 == Mix(y.w1, x.w12, x.w6, x.w4)
    && y.w5 == Mix(y.w2, x.w13, x.w7, x.w5)
    && y.w6 == Mix(y.w3, x.w14, x.w8, x.w6)
    && y.w7 == Mix(y.w4, x.w15, x.w9, x.w7)
    && y.w8 == Mix(y.w5, y.w0, x.w10, x.w8)
    && y.w9 == Mix(y.w6, y.w1, x.w11, x.w9)
    && y.w10 == Mix(y.w7, y.w2, x.w12, x.w10)
    && y.w11 == Mix(y.w8, y.w3, x.w13, x.w11)
    && y.w12 == Mix(y.w9, y.w4, x.w14, x.w12)
    && y.w13 == Mix(y.w10, y.w5, x.w15, x.w13)
    && y.w14 == Mix(y.w11, y.w6, y.w0, x.w14)
    && y.w15 == Mix(y.w12, y.w7, y.w1, x.w15)
  }

  /** Words 16 g to 16 g + 15 of the schedule are x. */
  ghost predicate Scheduled(block: seq<byte>, base: nat, x: Sixteen)
    requires |block| == 64
  {
    && W(block, base + 0) == x.w0 && W(block, base + 1) == x.w1
    && W(block, base + 2) == x.w2 && W(block, base + 3) == x.w3
    && W(block, base + 4) == x.w4 && W(block, base + 5) == x.w5
    && W(block, base + 6) == x.w6 && W(block, base + 7) == x.w7
    && W(block, base + 8) == x.w8 && W(block, base + 9) == x.w9
    && W(block, base + 10) == x.w10 && W(block, base + 11) == x.w11
    && W(block, base + 12) == x.w12 && W(block, base + 13) == x.w13
    && W(block, base + 14) == x.w14 && W(block, base + 15) == x.w15
  }

  lemma FirstWord(block: seq<byte>, t: nat, b0: byte, b1: byte, b2: byte, b3: byte, w: bv32)
    requires |block| == 64 && t < 16 && Word(b0, b1, b2, b3) == w
    requires block[4 * t] == b0 && block[4 * t + 1] == b1 && block[4 * t + 2] == b2 && block[4 * t + 3] == b3
    ensures W(block, t) == w
  {
    hide Word;
  }

  lemma LaterWord(block: seq<byte>, base: nat, k: nat)
    requires |block| == 64 && 16 <= k < 32
    ensures W(block, base + k) ==
            Mix(W(block, base + (k - 3)), W(block, base + (k - 8)),
                W(block, base + (k - 14)), W(block, base + (k - 16)))
  {
    hide RotL;
  }

  lemma ScheduledNext(block: seq<byte>, base: nat, x: Sixteen, y: Sixteen)
    requires |block| == 64 && Scheduled(block, base, x) && Follows(x, y)
    ensures Scheduled(block, base + 16, y)
  {
    hide W, Mix;
    LaterWord(block, base, 16); LaterWord(block, base, 17); LaterWord(block, base, 18); LaterWord(block, base, 19);
    LaterWord(block, base, 20); LaterWord(block, base, 21); LaterWord(block, base, 22); LaterWord(block, base, 23);
    LaterWord(block, base, 24); LaterWord(block, base, 25); LaterWord(block, base, 26); LaterWord(block, base, 27);
    LaterWord(block, base, 28); LaterWord(block, base, 29); LaterWord(block, base, 30); LaterWord(block, base, 31);
  }

  /** The working variables from the last five words that the rounds have made, the latest first. */
  function Turned(o: Words): Words {
    Words(o.a, o.b, RotL(o.c, 30), RotL(o.d, 30), RotL(o.e, 30))
  }

  function NewWord(t: nat, a: bv32, b: bv32, c: bv32, d: bv32, e: bv32, w: bv32): bv32 {
    Add5((a << 5) | (a >> 27), F(t, b, (c << 30) | (c >> 2), (d << 30) | (d >> 2)), (e << 30) | (e >> 2), K(t), w)
  }

  lemma NewWordIs(t: nat, o: Words, w: bv32)
    ensures NewWord(t, o.a, o.b, o.c, o.d, o.e, w) ==
            Add5(RotL(o.a, 5), F(t, o.b, RotL(o.c, 30), RotL(o.d, 30)), RotL(o.e, 30), K(t), w)
  {
    hide Add5, F, K;
  }

  function Next(t: nat, o: Words, w: bv32): Words {
    Words(NewWord(t, o.a, o.b, o.c, o.d, o.e, w), o.a, o.b, o.c, o.d)
  }

  lemma NextIs(block: seq<byte>, h: Words, t: nat, o: Words, w: bv32)
    requires |block| == 64 && W(block, t) == w && Rounds(block, t, h) == Turned(o)
    ensures Rounds(block, t + 1, h) == Turned(Next(t, o, w))
  {
    hide W, Add5, RotL, F, K, NewWord;
    NewWordIs(t, o, w);
  }


  function NextFour(t: nat, o: Words, w0: bv32, w1: bv32, w2: bv32, w3: bv32): Words {
    Next(t + 3, Next(t + 2, Next(t + 1, Next(t, o, w0), w1), w2), w3)
  }

  lemma FourRounds(block: seq<byte>, h: Words, t: nat, o: Words, w0: bv32, w1: bv32, w2: bv32, w3: bv32)
    requires |block| == 64 && Rounds(block, t, h) == Turned(o)
    requires W(block, t) == w0 && W(block, t + 1) == w1 && W(block, t + 2) == w2 && W(block, t + 3) == w3
    ensures Rounds(block, t + 4, h) == Turned(NextFour(t, o, w0, w1, w2, w3))
  {
    hide Next, W, Rounds, Turned;
    NextIs(block, h, t, o, w0);
    NextIs(block, h, t + 1, Next(t, o, w0), w1);
    NextIs(block, h, t + 2, Next(t + 1, Next(t, o, w0), w1), w2);
    NextIs(block, h, t + 3, Next(t + 2, Next(t + 1, Next(t, o, w0), w1), w2), w3);
  }

  function NextSixteen(base: nat, o: Words, x: Sixteen): Words {
    var o4 := NextFour(base, o, x.w0, x.w1, x.w2, x.w3);
    var o8 := NextFour(base + 4, o4, x.w4, x.w5, x.w6, x.w7);
    var o12 := NextFour(base + 8, o8, x.w8, x.w9, x.w10, x.w11);
    NextFour(base + 12, o12, x.w12, x.w13, x.w14, x.w15)
  }

  lemma SixteenRounds(block: seq<byte>, h: Words, base: nat, o: Words, x: Sixteen)
    requires |block| == 64 && Scheduled(block, base, x) && Rounds(block, base, h) == Turned(o)
    ensures Rounds(block, base + 16, h) == Turned(NextSixteen(base, o, x))
  {
    hide NextFour, W, Rounds, Turned;
    var t := base;
    var o4 := NextFour(t, o, x.w0, x.w1, x.w2, x.w3);
    var o8 := NextFour(t + 4, o4, x.w4, x.w5, x.w6, x.w7);
    var o12 := NextFour(t + 8, o8, x.w8, x.w9, x.w10, x.w11);
    FourRounds(block, h, t, o, x.w0, x.w1, x.w2, x.w3);
    FourRounds(block, h, t + 4, o4, x.w4, x.w5, x.w6, x.w7);
    FourRounds(block, h, t + 8, o8, x.w8, x.w9, x.w10, x.w11);
    FourRounds(block, h, t + 12, o12, x.w12, x.w13, x.w14, x.w15);
  }

  lemma NoRound(block: seq<byte>, h: Words)
    requires |block| == 64
    ensures Rounds(block, 0, h) == h
  {
  }

  // ----- the message "abc" --------------------------------------------------------------

  /** The one block that "abc" is padded to. */
  ghost predicate IsAbc(block: seq<byte>) {
    && |block| == 64 && block[0] == 97 && block[1] == 98 && block[2] == 99 && block[3] == 128
    && (forall i :: 4 <= i < 63 ==> block[i] == 0) && block[63] == 24
  }

  lemma {:induction false} NoBits(width: nat)
    ensures BigEndian(0, width) == Zeros(width)
  {
    if width > 0 {
      NoBits(width - 1);
    }
  }

  lemma AbcPadded(message: seq<byte>)
    requires message == [97, 98, 99]
    ensures IsAbc(Pad(message))
  {
    var p, zeros := Pad(message), Zeros(52);
    NoBits(7);
    var length := BigEndian(24, 8);
    assert length == BigEndian(0, 7) + [24];
    assert p == message + [0x80] + zeros + length;
    hide Pad, BigEndian, Zeros;
    assert p[4..56] == zeros && p[56..] == length;
    assert forall i :: 4 <= i < 56 ==> p[i] == p[4..56][i - 4];
    assert forall i :: 56 <= i < 64 ==> p[i] == p[56..][i - 56];
  }

  lemma FirstValues()
    ensures Word(97, 98, 99, 128) == 0x61626380 && Word(0, 0, 0, 0) == 0 && Word(0, 0, 0, 24) == 0x18
  {
    assert 97 as bv32 == 0x61 && 98 as bv32 == 0x62 && 99 as bv32 == 0x63 && 128 as bv32 == 0x80;
    assert 0 as bv32 == 0 && 24 as bv32 == 0x18;
  }

  lemma AbcFirst(block: seq<byte>)
    requires IsAbc(block)
    ensures Scheduled(block, 0,
              Sixteen(0x61626380, 0x00000000, 0x00000000, 0x00000000, 0x00000000, 0x00000000, 0x00000000, 0x00000000,
                      0x00000000, 0x00000000, 0x00000000, 0x00000000, 0x00000000, 0x00000000, 0x00000000, 0x00000018))
  {
    hide W, Word;
    FirstValues();
    FirstWord(block, 0, 97, 98, 99, 128, 0x61626380);
    FirstWord(block, 1, 0, 0, 0, 0, 0x00000000);
    FirstWord(block, 2, 0, 0, 0, 0, 0x00000000);
    FirstWord(block, 3, 0, 0, 0, 0, 0x00000000);
    FirstWord(block, 4, 0, 0, 0, 0, 0x00000000);
    FirstWord(block, 5, 0, 0, 0, 0, 0x00000000);
    FirstWord(block, 6, 0, 0, 0, 0, 0x00000000);
    FirstWord(block, 7, 0, 0, 0, 0, 0x00000000);
    FirstWord(block, 8, 0, 0, 0, 0, 0x00000000);
    FirstWord(block, 9, 0, 0, 0, 0, 0x00000000);
    FirstWord(block, 10, 0, 0, 0, 0, 0x00000000);
    FirstWord(block, 11, 0, 0, 0, 0, 0x00000000);
    FirstWord(block, 12, 0, 0, 0, 0, 0x00000000);
    FirstWord(block, 13, 0, 0, 0, 0, 0x00000000);
    FirstWord(block, 14, 0, 0, 0, 0, 0x00000000);
    FirstWord(block, 15, 0, 0, 0, 24, 0x00000018);
  }

  lemma AbcRounds0(x: Sixteen)
    requires x == Sixteen(0x61626380, 0x00000000, 0x00000000, 0x00000000, 0x00000000, 0x00000000, 0x00000000, 0x00000000,
                          0x00000000, 0x00000000, 0x00000000, 0x00000000, 0x00000000, 0x00000000, 0x00000000, 0x00000018)
    ensures NextSixteen(0, Words(0x67452301, 0xEFCDAB89, 0x62EB73FA, 0x40C951D8, 0x0F4B87C3), x) ==
            Words(0x20BDD62F, 0x196BEE77, 0x9128F695, 0x4607B664, 0x63188FE4)
  {
    assert NewWord(0, 0x67452301, 0xEFCDAB89, 0x62EB73FA, 0x40C951D8, 0x0F4B87C3, 0x61626380) == 0x0116FC33;
    assert NewWord(1, 0x0116FC33, 0x67452301, 0xEFCDAB89, 0x62EB73FA, 0x40C951D8, 0x00000000) == 0x8990536D;
    assert NewWord(2, 0x8990536D, 0x0116FC33, 0x67452301, 0xEFCDAB89, 0x62EB73FA, 0x00000000) == 0xA1390F08;
    assert NewWord(3, 0xA1390F08, 0x8990536D, 0x0116FC33, 0x67452301, 0xEFCDAB89, 0x00000000) == 0xCDD8E11B;
    assert NewWord(4, 0xCDD8E11B, 0xA1390F08, 0x8990536D, 0x0116FC33, 0x67452301, 0x00000000) == 0xCFD499DE;
    assert NewWord(5, 0xCFD499DE, 0xCDD8E11B, 0xA1390F08, 0x8990536D, 0x0116FC33, 0x00000000) == 0x3FC7CA40;
    assert NewWord(6, 0x3FC7CA40, 0xCFD499DE, 0xCDD8E11B, 0xA1390F08, 0x8990536D, 0x00000000) == 0x993E30C1;
    assert NewWord(7, 0x993E30C1, 0x3FC7CA40, 0xCFD499DE, 0xCDD8E11B, 0xA1390F08, 0x00000000) == 0x9E8C07D4;
    assert NewWord(8, 0x9E8C07D4, 0x993E30C1, 0x3FC7CA40, 0xCFD499DE, 0xCDD8E11B, 0x00000000) == 0x4B6AE328;
    assert NewWord(9, 0x4B6AE328, 0x9E8C07D4, 0x993E30C1, 0x3FC7CA40, 0xCFD499DE, 0x00000000) == 0x8351F929;
    assert NewWord(10, 0x8351F929, 0x4B6AE328, 0x9E8C07D4, 0x993E30C1, 0x3FC7CA40, 0x00000000) == 0xFBDA9E89;
    assert NewWord(11, 0xFBDA9E89, 0x8351F929, 0x4B6AE328, 0x9E8C07D4, 0x993E30C1, 0x00000000) == 0x63188FE4;
    assert NewWord(12, 0x63188FE4, 0xFBDA9E89, 0x8351F929, 0x4B6AE328, 0x9E8C07D4, 0x00000000) == 0x4607B664;
    assert NewWord(13, 0x4607B664, 0x63188FE4, 0xFBDA9E89, 0x8351F929, 0x4B6AE328, 0x00000000) == 0x9128F695;
    assert NewWord(14, 0x9128F695, 0x4607B664, 0x63188FE4, 0xFBDA9E89, 0x8351F929, 0x00000000) == 0x196BEE77;
    assert NewWord(15, 0x196BEE77, 0x9128F695, 0x4607B664, 0x63188FE4, 0xFBDA9E89, 0x00000018) == 0x20BDD62F;
    hide NewWord;
  }

  lemma AbcRounds1(x: Sixteen)
    requires x == Sixteen(0xC2C4C700, 0x00000000, 0x00000030, 0x85898E01, 0x00000000, 0x00000060, 0x0B131C03, 0x00000030,
                          0x85898EC1, 0x16263806, 0x00000000, 0x00000180, 0x2C4C700C, 0x000000F0, 0x93AFB507, 0x5898E048)
    ensures NextSixteen(16, Words(0x20BDD62F, 0x196BEE77, 0x9128F695, 0x4607B664, 0x63188FE4), x) ==
            Words(0x3B845D33, 0x1267B407, 0xC5FBAF5D, 0x8370B52E, 0x4AA84D97)
  {
    assert NewWord(16, 0x20BDD62F, 0x196BEE77, 0x9128F695, 0x4607B664, 0x63188FE4, 0xC2C4C700) == 0x4E925823;
    assert NewWord(17, 0x4E925823, 0x20BDD62F, 0x196BEE77, 0x9128F695, 0x4607B664, 0x00000000) == 0x82AA6728;
    assert NewWord(18, 0x82AA6728, 0x4E925823, 0x20BDD62F, 0x196BEE77, 0x9128F695, 0x00000030) == 0xDC64901D;
    assert NewWord(19, 0xDC64901D, 0x82AA6728, 0x4E925823, 0x20BDD62F, 0x196BEE77, 0x85898E01) == 0xFD9E1D7D;
    assert NewWord(20, 0xFD9E1D7D, 0xDC64901D, 0x82AA6728, 0x4E925823, 0x20BDD62F, 0x00000000) == 0x1A37B0CA;
    assert NewWord(21, 0x1A37B0CA, 0xFD9E1D7D, 0xDC64901D, 0x82AA6728, 0x4E925823, 0x00000060) == 0x33A23BFC;
    assert NewWord(22, 0x33A23BFC, 0x1A37B0CA, 0xFD9E1D7D, 0xDC64901D, 0x82AA6728, 0x0B131C03) == 0x21283486;
    assert NewWord(23, 0x21283486, 0x33A23BFC, 0x1A37B0CA, 0xFD9E1D7D, 0xDC64901D, 0x00000030) == 0xD541F12D;
    assert NewWord(24, 0xD541F12D, 0x21283486, 0x33A23BFC, 0x1A37B0CA, 0xFD9E1D7D, 0x85898EC1) == 0xC7567DC6;
    assert NewWord(25, 0xC7567DC6, 0xD541F12D, 0x21283486, 0x33A23BFC, 0x1A37B0CA, 0x16263806) == 0x48413BA4;
    assert NewWord(26, 0x48413BA4, 0xC7567DC6, 0xD541F12D, 0x21283486, 0x33A23BFC, 0x00000000) == 0xBE35FBD5;
    assert NewWord(27, 0xBE35FBD5, 0x48413BA4, 0xC7567DC6, 0xD541F12D, 0x21283486, 0x00000180) == 0x4AA84D97;
    assert NewWord(28, 0x4AA84D97, 0xBE35FBD5, 0x48413BA4, 0xC7567DC6, 0xD541F12D, 0x2C4C700C) == 0x8370B52E;
    assert NewWord(29, 0x8370B52E, 0x4AA84D97, 0xBE35FBD5, 0x48413BA4, 0xC7567DC6, 0x000000F0) == 0xC5FBAF5D;
    assert NewWord(30, 0xC5FBAF5D, 0x8370B52E, 0x4AA84D97, 0xBE35FBD5, 0x48413BA4, 0x93AFB507) == 0x1267B407;
    assert NewWord(31, 0x1267B407, 0xC5FBAF5D, 0x8370B52E, 0x4AA84D97, 0xBE35FBD5, 0x5898E048) == 0x3B845D33;
    hide NewWord;
  }

  lemma AbcWords1()
    ensures Follows(Sixteen(0x61626380, 0x00000000, 0x00000000, 0x00000000, 0x00000000, 0x00000000, 0x00000000, 0x00000000,
                            0x00000000, 0x00000000, 0x00000000, 0x00000000, 0x00000000, 0x00000000, 0x00000000, 0x00000018),
                    Sixteen(0xC2C4C700, 0x00000000, 0x00000030, 0x85898E01, 0x00000000, 0x00000060, 0x0B131C03, 0x00000030,
                            0x85898EC1, 0x16263806, 0x00000000, 0x00000180, 0x2C4C700C, 0x000000F0, 0x93AFB507, 0x5898E048))
  {
    assert Mix(0x00000000, 0x00000000, 0x00000000, 0x61626380) == 0xC2C4C700;
    assert Mix(0x00000000, 0x00000000, 0x00000000, 0x00000000) == 0x00000000;
    assert Mix(0x00000018, 0x00000000, 0x00000000, 0x00000000) == 0x00000030;
    assert Mix(0xC2C4C700, 0x00000000, 0x00000000, 0x00000000) == 0x85898E01;
    assert Mix(0x00000000, 0x00000000, 0x00000000, 0x00000000) == 0x00000000;
    assert Mix(0x00000030, 0x00000000, 0x00000000, 0x00000000) == 0x00000060;
    assert Mix(0x85898E01, 0x00000000, 0x00000000, 0x00000000) == 0x0B131C03;
    assert Mix(0x00000000, 0x00000018, 0x00000000, 0x00000000) == 0x00000030;
    assert Mix(0x00000060, 0xC2C4C700, 0x00000000, 0x00000000) == 0x85898EC1;
    assert Mix(0x0B131C03, 0x00000000, 0x00000000, 0x00000000) == 0x16263806;
    assert Mix(0x00000030, 0x00000030, 0x00000000, 0x00000000) == 0x00000000;
    assert Mix(0x85898EC1, 0x85898E01, 0x00000000, 0x00000000) == 0x00000180;
    assert Mix(0x16263806, 0x00000000, 0x00000000, 0x00000000) == 0x2C4C700C;
    assert Mix(0x00000000, 0x00000060, 0x00000018, 0x00000000) == 0x000000F0;
    assert Mix(0x00000180, 0x0B131C03, 0xC2C4C700, 0x00000000) == 0x93AFB507;
    assert Mix(0x2C4C700C, 0x00000030, 0x00000000, 0x00000018) == 0x5898E048;
    hide Mix;
  }

  lemma AbcRounds2(x: Sixteen)
    requires x == Sixteen(0x8E9A9202, 0x00000600, 0xB131C0F0, 0x16263BC6, 0x4EBED41E, 0x626380A1, 0x16263806, 0x000018C0,
                          0xD2E138C4, 0x00000F00, 0x3AFB5079, 0x898E04E5, 0xE2BA3C2B, 0x000060C0, 0x053A37CD, 0x74458547)
    ensures NextSixteen(32, Words(0x3B845D33, 0x1267B407, 0xC5FBAF5D, 0x8370B52E, 0x4AA84D97), x) ==
            Words(0xBEAD02CA, 0xA01B846C, 0x1C51E1F2, 0x40F28E09, 0xEE1B1AAF)
  {
    assert NewWord(32, 0x3B845D33, 0x1267B407, 0xC5FBAF5D, 0x8370B52E, 0x4AA84D97, 0x8E9A9202) == 0x046FAA0A;
    assert NewWord(33, 0x046FAA0A, 0x3B845D33, 0x1267B407, 0xC5FBAF5D, 0x8370B52E, 0x00000600) == 0x2C0EBC11;
    assert NewWord(34, 0x2C0EBC11, 0x046FAA0A, 0x3B845D33, 0x1267B407, 0xC5FBAF5D, 0xB131C0F0) == 0x21796AD4;
    assert NewWord(35, 0x21796AD4, 0x2C0EBC11, 0x046FAA0A, 0x3B845D33, 0x1267B407, 0x16263BC6) == 0xDCBBB0CB;
    assert NewWord(36, 0xDCBBB0CB, 0x21796AD4, 0x2C0EBC11, 0x046FAA0A, 0x3B845D33, 0x4EBED41E) == 0x0F511FD8;
    assert NewWord(37, 0x0F511FD8, 0xDCBBB0CB, 0x21796AD4, 0x2C0EBC11, 0x046FAA0A, 0x626380A1) == 0xDC63973F;
    assert NewWord(38, 0xDC63973F, 0x0F511FD8, 0xDCBBB0CB, 0x21796AD4, 0x2C0EBC11, 0x16263806) == 0x4C986405;
    assert NewWord(39, 0x4C986405, 0xDC63973F, 0x0F511FD8, 0xDCBBB0CB, 0x21796AD4, 0x000018C0) == 0x32DE1CBA;
    assert NewWord(40, 0x32DE1CBA, 0x4C986405, 0xDC63973F, 0x0F511FD8, 0xDCBBB0CB, 0xD2E138C4) == 0xFC87DEDF;
    assert NewWord(41, 0xFC87DEDF, 0x32DE1CBA, 0x4C986405, 0xDC63973F, 0x0F511FD8, 0x00000F00) == 0x970A0D5C;
    assert NewWord(42, 0x970A0D5C, 0xFC87DEDF, 0x32DE1CBA, 0x4C986405, 0xDC63973F, 0x3AFB5079) == 0x7F193DC5;
    assert NewWord(43, 0x7F193DC5, 0x970A0D5C, 0xFC87DEDF, 0x32DE1CBA, 0x4C986405, 0x898E04E5) == 0xEE1B1AAF;
    assert NewWord(44, 0xEE1B1AAF, 0x7F193DC5, 0x970A0D5C, 0xFC87DEDF, 0x32DE1CBA, 0xE2BA3C2B) == 0x40F28E09;
    assert NewWord(45, 0x40F28E09, 0xEE1B1AAF, 0x7F193DC5, 0x970A0D5C, 0xFC87DEDF, 0x000060C0) == 0x1C51E1F2;
    assert NewWord(46, 0x1C51E1F2, 0x40F28E09, 0xEE1B1AAF, 0x7F193DC5, 0x970A0D5C, 0x053A37CD) == 0xA01B846C;
    assert NewWord(47, 0xA01B846C, 0x1C51E1F2, 0x40F28E09, 0xEE1B1AAF, 0x7F193DC5, 0x74458547) == 0xBEAD02CA;
    hide NewWord;
  }

  lemma AbcWords2()
    ensures Follows(Sixteen(0xC2C4C700, 0x00000000, 0x00000030, 0x85898E01, 0x00000000, 0x00000060, 0x0B131C03, 0x00000030,
                            0x85898EC1, 0x16263806, 0x00000000, 0x00000180, 0x2C4C700C, 0x000000F0, 0x93AFB507, 0x5898E048),
                    Sixteen(0x8E9A9202, 0x00000600, 0xB131C0F0, 0x16263BC6, 0x4EBED41E, 0x626380A1, 0x16263806, 0x000018C0,
                            0xD2E138C4, 0x00000F00, 0x3AFB5079, 0x898E04E5, 0xE2BA3C2B, 0x000060C0, 0x053A37CD, 0x74458547))
  {
    assert Mix(0x000000F0, 0x85898EC1, 0x00000030, 0xC2C4C700) == 0x8E9A9202;
    assert Mix(0x93AFB507, 0x16263806, 0x85898E01, 0x00000000) == 0x00000600;
    assert Mix(0x5898E048, 0x00000000, 0x00000000, 0x00000030) == 0xB131C0F0;
    assert Mix(0x8E9A9202, 0x00000180, 0x00000060, 0x85898E01) == 0x16263BC6;
    assert Mix(0x00000600, 0x2C4C700C, 0x0B131C03, 0x00000000) == 0x4EBED41E;
    assert Mix(0xB131C0F0, 0x000000F0, 0x00000030, 0x00000060) == 0x626380A1;
    assert Mix(0x16263BC6, 0x93AFB507, 0x85898EC1, 0x0B131C03) == 0x16263806;
    assert Mix(0x4EBED41E, 0x5898E048, 0x16263806, 0x00000030) == 0x000018C0;
    assert Mix(0x626380A1, 0x8E9A9202, 0x00000000, 0x85898EC1) == 0xD2E138C4;
    assert Mix(0x16263806, 0x00000600, 0x00000180, 0x16263806) == 0x00000F00;
    assert Mix(0x000018C0, 0xB131C0F0, 0x2C4C700C, 0x00000000) == 0x3AFB5079;
    assert Mix(0xD2E138C4, 0x16263BC6, 0x000000F0, 0x00000180) == 0x898E04E5;
    assert Mix(0x00000F00, 0x4EBED41E, 0x93AFB507, 0x2C4C700C) == 0xE2BA3C2B;
    assert Mix(0x3AFB5079, 0x626380A1, 0x5898E048, 0x000000F0) == 0x000060C0;
    assert Mix(0x898E04E5, 0x16263806, 0x8E9A9202, 0x93AFB507) == 0x053A37CD;
    assert Mix(0xE2BA3C2B, 0x000018C0, 0x00000600, 0x5898E048) == 0x74458547;
    hide Mix;
  }

  lemma AbcRounds3(x: Sixteen)
    requires x == Sixteen(0xDA9415ED, 0x26380A16, 0x626383A1, 0x4EBF54DE, 0x3835B44B, 0x0000F600, 0x1E84C7A3, 0x98E04D98,
                          0x651D16A0, 0x62658CA1, 0x458544D6, 0x44584CB7, 0x7BA06619, 0x6380AEA2, 0x0AE55269, 0x627B49A1)
    ensures NextSixteen(48, Words(0xBEAD02CA, 0xA01B846C, 0x1C51E1F2, 0x40F28E09, 0xEE1B1AAF), x) ==
            Words(0x6B61C9E1, 0xB66C020B, 0x548C9CB2, 0xD756C147, 0x3F52DE5A)
  {
    assert NewWord(48, 0xBEAD02CA, 0xA01B846C, 0x1C51E1F2, 0x40F28E09, 0xEE1B1AAF, 0xDA9415ED) == 0xBAF39337;
    assert NewWord(49, 0xBAF39337, 0xBEAD02CA, 0xA01B846C, 0x1C51E1F2, 0x40F28E09, 0x26380A16) == 0x120731C5;
    assert NewWord(50, 0x120731C5, 0xBAF39337, 0xBEAD02CA, 0xA01B846C, 0x1C51E1F2, 0x626383A1) == 0x641DB2CE;
    assert NewWord(51, 0x641DB2CE, 0x120731C5, 0xBAF39337, 0xBEAD02CA, 0xA01B846C, 0x4EBF54DE) == 0x3847AD66;
    assert NewWord(52, 0x3847AD66, 0x641DB2CE, 0x120731C5, 0xBAF39337, 0xBEAD02CA, 0x3835B44B) == 0xE490436D;
    assert NewWord(53, 0xE490436D, 0x3847AD66, 0x641DB2CE, 0x120731C5, 0xBAF39337, 0x0000F600) == 0x27E9F1D8;
    assert NewWord(54, 0x27E9F1D8, 0xE490436D, 0x3847AD66, 0x641DB2CE, 0x120731C5, 0x1E84C7A3) == 0x7B71F76D;
    assert NewWord(55, 0x7B71F76D, 0x27E9F1D8, 0xE490436D, 0x3847AD66, 0x641DB2CE, 0x98E04D98) == 0x5E6456AF;
    assert NewWord(56, 0x5E6456AF, 0x7B71F76D, 0x27E9F1D8, 0xE490436D, 0x3847AD66, 0x651D16A0) == 0xC846093F;
    assert NewWord(57, 0xC846093F, 0x5E6456AF, 0x7B71F76D, 0x27E9F1D8, 0xE490436D, 0x62658CA1) == 0xD262FF50;
    assert NewWord(58, 0xD262FF50, 0xC846093F, 0x5E6456AF, 0x7B71F76D, 0x27E9F1D8, 0x458544D6) == 0x09D785FD;
    assert NewWord(59, 0x09D785FD, 0xD262FF50, 0xC846093F, 0x5E6456AF, 0x7B71F76D, 0x44584CB7) == 0x3F52DE5A;
    assert NewWord(60, 0x3F52DE5A, 0x09D785FD, 0xD262FF50, 0xC846093F, 0x5E6456AF, 0x7BA06619) == 0xD756C147;
    assert NewWord(61, 0xD756C147, 0x3F52DE5A, 0x09D785FD, 0xD262FF50, 0xC846093F, 0x6380AEA2) == 0x548C9CB2;
    assert NewWord(62, 0x548C9CB2, 0xD756C147, 0x3F52DE5A, 0x09D785FD, 0xD262FF50, 0x0AE55269) == 0xB66C020B;
    assert NewWord(63, 0xB66C020B, 0x548C9CB2, 0xD756C147, 0x3F52DE5A, 0x09D785FD, 0x627B49A1) == 0x6B61C9E1;
    hide NewWord;
  }

  lemma AbcWords3()
    ensures Follows(Sixteen(0x8E9A9202, 0x00000600, 0xB131C0F0, 0x16263BC6, 0x4EBED41E, 0x626380A1, 0x16263806, 0x000018C0,
                            0xD2E138C4, 0x00000F00, 0x3AFB5079, 0x898E04E5, 0xE2BA3C2B, 0x000060C0, 0x053A37CD, 0x74458547),
                    Sixteen(0xDA9415ED, 0x26380A16, 0x626383A1, 0x4EBF54DE, 0x3835B44B, 0x0000F600, 0x1E84C7A3, 0x98E04D98,
                            0x651D16A0, 0x62658CA1, 0x458544D6, 0x44584CB7, 0x7BA06619, 0x6380AEA2, 0x0AE55269, 0x627B49A1))
  {
    assert Mix(0x000060C0, 0xD2E138C4, 0xB131C0F0, 0x8E9A9202) == 0xDA9415ED;
    assert Mix(0x053A37CD, 0x00000F00, 0x16263BC6, 0x00000600) == 0x26380A16;
    assert Mix(0x74458547, 0x3AFB5079, 0x4EBED41E, 0xB131C0F0) == 0x626383A1;
    assert Mix(0xDA9415ED, 0x898E04E5, 0x626380A1, 0x16263BC6) == 0x4EBF54DE;
    assert Mix(0x26380A16, 0xE2BA3C2B, 0x16263806, 0x4EBED41E) == 0x3835B44B;
    assert Mix(0x626383A1, 0x000060C0, 0x000018C0, 0x626380A1) == 0x0000F600;
    assert Mix(0x4EBF54DE, 0x053A37CD, 0xD2E138C4, 0x16263806) == 0x1E84C7A3;
    assert Mix(0x3835B44B, 0x74458547, 0x00000F00, 0x000018C0) == 0x98E04D98;
    assert Mix(0x0000F600, 0xDA9415ED, 0x3AFB5079, 0xD2E138C4) == 0x651D16A0;
    assert Mix(0x1E84C7A3, 0x26380A16, 0x898E04E5, 0x00000F00) == 0x62658CA1;
    assert Mix(0x98E04D98, 0x626383A1, 0xE2BA3C2B, 0x3AFB5079) == 0x458544D6;
    assert Mix(0x651D16A0, 0x4EBF54DE, 0x000060C0, 0x898E04E5) == 0x44584CB7;
    assert Mix(0x62658CA1, 0x3835B44B, 0x053A37CD, 0xE2BA3C2B) == 0x7BA06619;
    assert Mix(0x458544D6, 0x0000F600, 0x74458547, 0x000060C0) == 0x6380AEA2;
    assert Mix(0x44584CB7, 0x1E84C7A3, 0xDA9415ED, 0x053A37CD) == 0x0AE55269;
    assert Mix(0x7BA06619, 0x98E04D98, 0x26380A16, 0x74458547) == 0x627B49A1;
    hide Mix;
  }

  lemma AbcRounds4(x: Sixteen)
    requires x == Sixteen(0x7CD45C9D, 0x000F0000, 0xFB50753A, 0xEC6765E8, 0xBA3C2BE2, 0x0060C000, 0x3A37CD05, 0x458546F4,
                          0xB8599DD6, 0x380A1A26, 0x01E02203, 0xE7CC3456, 0xE6E60B69, 0x00F60A00, 0x5795EF4F, 0x822E0879)
    ensures NextSixteen(64, Words(0x6B61C9E1, 0xB66C020B, 0x548C9CB2, 0xD756C147, 0x3F52DE5A), x) ==
            Words(0x42541B35, 0x5738D5E1, 0x860D21CC, 0xA079B7D9, 0x63F7DAB7)
  {
    assert NewWord(64, 0x6B61C9E1, 0xB66C020B, 0x548C9CB2, 0xD756C147, 0x3F52DE5A, 0x7CD45C9D) == 0x19DFA7AC;
    assert NewWord(65, 0x19DFA7AC, 0x6B61C9E1, 0xB66C020B, 0x548C9CB2, 0xD756C147, 0x000F0000) == 0x101655F9;
    assert NewWord(66, 0x101655F9, 0x19DFA7AC, 0x6B61C9E1, 0xB66C020B, 0x548C9CB2, 0xFB50753A) == 0x0C3DF2B4;
    assert NewWord(67, 0x0C3DF2B4, 0x101655F9, 0x19DFA7AC, 0x6B61C9E1, 0xB66C020B, 0xEC6765E8) == 0x78DD4D2B;
    assert NewWord(68, 0x78DD4D2B, 0x0C3DF2B4, 0x101655F9, 0x19DFA7AC, 0x6B61C9E1, 0xBA3C2BE2) == 0x497093C0;
    assert NewWord(69, 0x497093C0, 0x78DD4D2B, 0x0C3DF2B4, 0x101655F9, 0x19DFA7AC, 0x0060C000) == 0x3F2588C2;
    assert NewWord(70, 0x3F2588C2, 0x497093C0, 0x78DD4D2B, 0x0C3DF2B4, 0x101655F9, 0x3A37CD05) == 0xC199F8C7;
    assert NewWord(71, 0xC199F8C7, 0x3F2588C2, 0x497093C0, 0x78DD4D2B, 0x0C3DF2B4, 0x458546F4) == 0x39859DE7;
    assert NewWord(72, 0x39859DE7, 0xC199F8C7, 0x3F2588C2, 0x497093C0, 0x78DD4D2B, 0xB8599DD6) == 0xEDB42DE4;
    assert NewWord(73, 0xEDB42DE4, 0x39859DE7, 0xC199F8C7, 0x3F2588C2, 0x497093C0, 0x380A1A26) == 0x11793F6F;
    assert NewWord(74, 0x11793F6F, 0xEDB42DE4, 0x39859DE7, 0xC199F8C7, 0x3F2588C2, 0x01E02203) == 0x5EE76897;
    assert NewWord(75, 0x5EE76897, 0x11793F6F, 0xEDB42DE4, 0x39859DE7, 0xC199F8C7, 0xE7CC3456) == 0x63F7DAB7;
    assert NewWord(76, 0x63F7DAB7, 0x5EE76897, 0x11793F6F, 0xEDB42DE4, 0x39859DE7, 0xE6E60B69) == 0xA079B7D9;
    assert NewWord(77, 0xA079B7D9, 0x63F7DAB7, 0x5EE76897, 0x11793F6F, 0xEDB42DE4, 0x00F60A00) == 0x860D21CC;
    assert NewWord(78, 0x860D21CC, 0xA079B7D9, 0x63F7DAB7, 0x5EE76897, 0x11793F6F, 0x5795EF4F) == 0x5738D5E1;
    assert NewWord(79, 0x5738D5E1, 0x860D21CC, 0xA079B7D9, 0x63F7DAB7, 0x5EE76897, 0x822E0879) == 0x42541B35;
    hide NewWord;
  }

  lemma AbcWords4()
    ensures Follows(Sixteen(0xDA9415ED, 0x26380A16, 0x626383A1, 0x4EBF54DE, 0x3835B44B, 0x0000F600, 0x1E84C7A3, 0x98E04D98,
                            0x651D16A0, 0x62658CA1, 0x458544D6, 0x44584CB7, 0x7BA06619, 0x6380AEA2, 0x0AE55269, 0x627B49A1),
                    Sixteen(0x7CD45C9D, 0x000F0000, 0xFB50753A, 0xEC6765E8, 0xBA3C2BE2, 0x0060C000, 0x3A37CD05, 0x458546F4,
                            0xB8599DD6, 0x380A1A26, 0x01E02203, 0xE7CC3456, 0xE6E60B69, 0x00F60A00, 0x5795EF4F, 0x822E0879))
  {
    assert Mix(0x6380AEA2, 0x651D16A0, 0x626383A1, 0xDA9415ED) == 0x7CD45C9D;
    assert Mix(0x0AE55269, 0x62658CA1, 0x4EBF54DE, 0x26380A16) == 0x000F0000;
    assert Mix(0x627B49A1, 0x458544D6, 0x3835B44B, 0x626383A1) == 0xFB50753A;
    assert Mix(0x7CD45C9D, 0x44584CB7, 0x0000F600, 0x4EBF54DE) == 0xEC6765E8;
    assert Mix(0x000F0000, 0x7BA06619, 0x1E84C7A3, 0x3835B44B) == 0xBA3C2BE2;
    assert Mix(0xFB50753A, 0x6380AEA2, 0x98E04D98, 0x0000F600) == 0x0060C000;
    assert Mix(0xEC6765E8, 0x0AE55269, 0x651D16A0, 0x1E84C7A3) == 0x3A37CD05;
    assert Mix(0xBA3C2BE2, 0x627B49A1, 0x62658CA1, 0x98E04D98) == 0x458546F4;
    assert Mix(0x0060C000, 0x7CD45C9D, 0x458544D6, 0x651D16A0) == 0xB8599DD6;
    assert Mix(0x3A37CD05, 0x000F0000, 0x44584CB7, 0x62658CA1) == 0x380A1A26;
    assert Mix(0x458546F4, 0xFB50753A, 0x7BA06619, 0x458544D6) == 0x01E02203;
    assert Mix(0xB8599DD6, 0xEC6765E8, 0x6380AEA2, 0x44584CB7) == 0xE7CC3456;
    assert Mix(0x380A1A26, 0xBA3C2BE2, 0x0AE55269, 0x7BA06619) == 0xE6E60B69;
    assert Mix(0x01E02203, 0x0060C000, 0x627B49A1, 0x6380AEA2) == 0x00F60A00;
    assert Mix(0xE7CC3456, 0x3A37CD05, 0x7CD45C9D, 0x0AE55269) == 0x5795EF4F;
    assert Mix(0xE6E60B69, 0x458546F4, 0x000F0000, 0x627B49A1) == 0x822E0879;
    hide Mix;
  }

  lemma AbcStart()
    ensures Turned(Words(0x67452301, 0xEFCDAB89, 0x62EB73FA, 0x40C951D8, 0x0F4B87C3)) == INITIAL_HASH
  {
  }

  lemma Abc16(block: seq<byte>)
    requires IsAbc(block)
    ensures Scheduled(block, 0,
              Sixteen(0x61626380, 0x00000000, 0x00000000, 0x00000000, 0x00000000, 0x00000000, 0x00000000, 0x00000000,
                      0x00000000, 0x00000000, 0x00000000, 0x00000000, 0x00000000, 0x00000000, 0x00000000, 0x00000018))
    ensures Rounds(block, 16, INITIAL_HASH) ==
            Turned(Words(0x20BDD62F, 0x196BEE77, 0x9128F695, 0x4607B664, 0x63188FE4))
  {
    hide W, Mix, Rounds, Turned, NextSixteen, Scheduled, Follows;
    var y := Sixteen(0x61626380, 0x00000000, 0x00000000, 0x00000000, 0x00000000, 0x00000000, 0x00000000, 0x00000000,
                     0x00000000, 0x00000000, 0x00000000, 0x00000000, 0x00000000, 0x00000000, 0x00000000, 0x00000018);
    AbcFirst(block);
    AbcStart();
    NoRound(block, INITIAL_HASH);
    SixteenRounds(block, INITIAL_HASH, 0, Words(0x67452301, 0xEFCDAB89, 0x62EB73FA, 0x40C951D8, 0x0F4B87C3), y);
    AbcRounds0(y);
  }

  lemma Abc32(block: seq<byte>)
    requires IsAbc(block)
    ensures Scheduled(block, 16,
              Sixteen(0xC2C4C700, 0x00000000, 0x00000030, 0x85898E01, 0x00000000, 0x00000060, 0x0B131C03, 0x00000030,
                      0x85898EC1, 0x16263806, 0x00000000, 0x00000180, 0x2C4C700C, 0x000000F0, 0x93AFB507, 0x5898E048))
    ensures Rounds(block, 32, INITIAL_HASH) ==
            Turned(Words(0x3B845D33, 0x1267B407, 0xC5FBAF5D, 0x8370B52E, 0x4AA84D97))
  {
    hide W, Mix, Rounds, Turned, NextSixteen, Scheduled, Follows;
    var y := Sixteen(0xC2C4C700, 0x00000000, 0x00000030, 0x85898E01, 0x00000000, 0x00000060, 0x0B131C03, 0x00000030,
                     0x85898EC1, 0x16263806, 0x00000000, 0x00000180, 0x2C4C700C, 0x000000F0, 0x93AFB507, 0x5898E048);
    var x := Sixteen(0x61626380, 0x00000000, 0x00000000, 0x00000000, 0x00000000, 0x00000000, 0x00000000, 0x00000000,
                     0x00000000, 0x00000000, 0x00000000, 0x00000000, 0x00000000, 0x00000000, 0x00000000, 0x00000018);
    Abc16(block);
    AbcWords1();
    ScheduledNext(block, 0, x, y);
    SixteenRounds(block, INITIAL_HASH, 16, Words(0x20BDD62F, 0x196BEE77, 0x9128F695, 0x4607B664, 0x63188FE4), y);
    AbcRounds1(y);
  }

  lemma Abc48(block: seq<byte>)
    requires IsAbc(block)
    ensures Scheduled(block, 32,
              Sixteen(0x8E9A9202, 0x00000600, 0xB131C0F0, 0x16263BC6, 0x4EBED41E, 0x626380A1, 0x16263806, 0x000018C0,
                      0xD2E138C4, 0x00000F00, 0x3AFB5079, 0x898E04E5, 0xE2BA3C2B, 0x000060C0, 0x053A37CD, 0x74458547))
    ensures Rounds(block, 48, INITIAL_HASH) ==
            Turned(Words(0xBEAD02CA, 0xA01B846C, 0x1C51E1F2, 0x40F28E09, 0xEE1B1AAF))
  {
    hide W, Mix, Rounds, Turned, NextSixteen, Scheduled, Follows;
    var y := Sixteen(0x8E9A9202, 0x00000600, 0xB131C0F0, 0x16263BC6, 0x4EBED41E, 0x626380A1, 0x16263806, 0x000018C0,
                     0xD2E138C4, 0x00000F00, 0x3AFB5079, 0x898E04E5, 0xE2BA3C2B, 0x000060C0, 0x053A37CD, 0x74458547);
    var x := Sixteen(0xC2C4C700, 0x00000000, 0x00000030, 0x85898E01, 0x00000000, 0x00000060, 0x0B131C03, 0x00000030,
                     0x85898EC1, 0x16263806, 0x00000000, 0x00000180, 0x2C4C700C, 0x000000F0, 0x93AFB507, 0x5898E048);
    Abc32(block);
    AbcWords2();
    ScheduledNext(block, 16, x, y);
    SixteenRounds(block, INITIAL_HASH, 32, Words(0x3B845D33, 0x1267B407, 0xC5FBAF5D, 0x8370B52E, 0x4AA84D97), y);
    AbcRounds2(y);
  }

  lemma Abc64(block: seq<byte>)
    requires IsAbc(block)
    ensures Scheduled(block, 48,
              Sixteen(0xDA9415ED, 0x26380A16, 0x626383A1, 0x4EBF54DE, 0x3835B44B, 0x0000F600, 0x1E84C7A3, 0x98E04D98,
                      0x651D16A0, 0x62658CA1, 0x458544D6, 0x44584CB7, 0x7BA06619, 0x6380AEA2, 0x0AE55269, 0x627B49A1))
    ensures Rounds(block, 64, INITIAL_HASH) ==
            Turned(Words(0x6B61C9E1, 0xB66C020B, 0x548C9CB2, 0xD756C147, 0x3F52DE5A))
  {
    hide W, Mix, Rounds, Turned, NextSixteen, Scheduled, Follows;
    var y := Sixteen(0xDA9415ED, 0x26380A16, 0x626383A1, 0x4EBF54DE, 0x3835B44B, 0x0000F600, 0x1E84C7A3, 0x98E04D98,
                     0x651D16A0, 0x62658CA1, 0x458544D6, 0x44584CB7, 0x7BA06619, 0x6380AEA2, 0x0AE55269, 0x627B49A1);
    var x := Sixteen(0x8E9A9202, 0x00000600, 0xB131C0F0, 0x16263BC6, 0x4EBED41E, 0x626380A1, 0x16263806, 0x000018C0,
                     0xD2E138C4, 0x00000F00, 0x3AFB5079, 0x898E04E5, 0xE2BA3C2B, 0x000060C0, 0x053A37CD, 0x74458547);
    Abc48(block);
    AbcWords3();
    ScheduledNext(block, 32, x, y);
    SixteenRounds(block, INITIAL_HASH, 48, Words(0xBEAD02CA, 0xA01B846C, 0x1C51E1F2, 0x40F28E09, 0xEE1B1AAF), y);
    AbcRounds3(y);
  }

  lemma Abc80(block: seq<byte>)
    requires IsAbc(block)
    ensures Scheduled(block, 64,
              Sixteen(0x7CD45C9D, 0x000F0000, 0xFB50753A, 0xEC6765E8, 0xBA3C2BE2, 0x0060C000, 0x3A37CD05, 0x458546F4,
                      0xB8599DD6, 0x380A1A26, 0x01E02203, 0xE7CC3456, 0xE6E60B69, 0x00F60A00, 0x5795EF4F, 0x822E0879))
    ensures Rounds(block, 80, INITIAL_HASH) ==
            Turned(Words(0x42541B35, 0x5738D5E1, 0x860D21CC, 0xA079B7D9, 0x63F7DAB7))
  {
    hide W, Mix, Rounds, Turned, NextSixteen, Scheduled, Follows;
    var y := Sixteen(0x7CD45C9D, 0x000F0000, 0xFB50753A, 0xEC6765E8, 0xBA3C2BE2, 0x0060C000, 0x3A37CD05, 0x458546F4,
                     0xB8599DD6, 0x380A1A26, 0x01E02203, 0xE7CC3456, 0xE6E60B69, 0x00F60A00, 0x5795EF4F, 0x822E0879);
    var x := Sixteen(0xDA9415ED, 0x26380A16, 0x626383A1, 0x4EBF54DE, 0x3835B44B, 0x0000F600, 0x1E84C7A3, 0x98E04D98,
                     0x651D16A0, 0x62658CA1, 0x458544D6, 0x44584CB7, 0x7BA06619, 0x6380AEA2, 0x0AE55269, 0x627B49A1);
    Abc64(block);
    AbcWords4();
    ScheduledNext(block, 48, x, y);
    SixteenRounds(block, INITIAL_HASH, 64, Words(0x6B61C9E1, 0xB66C020B, 0x548C9CB2, 0xD756C147, 0x3F52DE5A), y);
    AbcRounds4(y);
  }

  lemma AbcSum()
    ensures Add(0x67452301, 0x42541B35) == 0xA9993E36 &&
            Add(0xEFCDAB89, 0x5738D5E1) == 0x4706816A &&
            Add(0x98BADCFE, 0x21834873) == 0xBA3E2571 &&
            Add(0x10325476, 0x681E6DF6) == 0x7850C26C &&
            Add(0xC3D2E1F0, 0xD8FDF6AD) == 0x9CD0D89D
    ensures Turned(Words(0x42541B35, 0x5738D5E1, 0x860D21CC, 0xA079B7D9, 0x63F7DAB7)) ==
            Words(0x42541B35, 0x5738D5E1, 0x21834873, 0x681E6DF6, 0xD8FDF6AD)
  {
    assert Turned(Words(0x42541B35, 0x5738D5E1, 0x860D21CC, 0xA079B7D9, 0x63F7DAB7)) ==
           Words(0x42541B35, 0x5738D5E1, 0x21834873, 0x681E6DF6, 0xD8FDF6AD);
  }

  lemma AbcEnd(v: Words)
    requires v == Turned(Words(0x42541B35, 0x5738D5E1, 0x860D21CC, 0xA079B7D9, 0x63F7DAB7))
    ensures var h := INITIAL_HASH;
            Words(Add(h.a, v.a), Add(h.b, v.b), Add(h.c, v.c), Add(h.d, v.d), Add(h.e, v.e)) ==
            Words(0xA9993E36, 0x4706816A, 0xBA3E2571, 0x7850C26C, 0x9CD0D89D)
  {
    AbcSum();
    hide Add, Turned;
  }

  lemma AbcOutput()
    ensures Output(Words(0xA9993E36, 0x4706816A, 0xBA3E2571, 0x7850C26C, 0x9CD0D89D)) ==
            [0xA9, 0x99, 0x3E, 0x36, 0x47, 0x06, 0x81, 0x6A, 0xBA, 0x3E,
             0x25, 0x71, 0x78, 0x50, 0xC2, 0x6C, 0x9C, 0xD0, 0xD8, 0x9D]
  {
  }

  /** A message that is padded to one block. */
  lemma OneBlock(message: seq<byte>)
    requires |Pad(message)| == 64
    ensures var h := INITIAL_HASH;
            var v := Rounds(Pad(message), 80, h);
            Digest(message) ==
            Output(Words(Add(h.a, v.a), Add(h.b, v.b), Add(h.c, v.c), Add(h.d, v.d), Add(h.e, v.e)))
  {
    hide Rounds, Output, Add, Blocks, Pad;
    Chaining([], Pad(message));
    assert [] + Pad(message) == Pad(message);
  }

  /** The digest of "abc". */
  lemma AbcDigest(message: seq<byte>)
    requires message == [97, 98, 99]
    ensures Digest(message) ==
            [0xA9, 0x99, 0x3E, 0x36, 0x47, 0x06, 0x81, 0x6A, 0xBA, 0x3E,
             0x25, 0x71, 0x78, 0x50, 0xC2, 0x6C, 0x9C, 0xD0, 0xD8, 0x9D]
  {
    hide W, Scheduled, Rounds, Pad, Turned, Output, Add, Digest;
    AbcPadded(message);
    Abc80(Pad(message));
    OneBlock(message);
    AbcEnd(Rounds(Pad(message), 80, INITIAL_HASH));
    AbcOutput();
  }
}
