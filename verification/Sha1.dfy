/** The streaming implementation of sha1.c, proved against FIPS 180-4. */
module Sha1 {
  import opened Bytes
  import opened Sha1Spec

  // The round functions as the source spells them.

  function F0(b: bv32, c: bv32, d: bv32): bv32 { (b & c) | (!b & d) }
  function F1(b: bv32, c: bv32, d: bv32): bv32 { b ^ c ^ d }
  function F2(b: bv32, c: bv32, d: bv32): bv32 { (b & c) | (b & d) | (c & d) }

  lemma ChoiceForms(b: bv32, c: bv32, d: bv32)
    ensures F0(b, c, d) == (b & c) ^ (!b & d)
  {
  }

  lemma MajorityForms(b: bv32, c: bv32, d: bv32)
    ensures F2(b, c, d) == (b & c) ^ (b & d) ^ (c & d)
  {
  }

  function FOf(group: nat, b: bv32, c: bv32, d: bv32): bv32 {
    if group == 0 then F0(b, c, d)
    else if group == 2 then F2(b, c, d)
    else F1(b, c, d)
  }

  function KOf(group: nat): bv32 {
    if group == 0 then 0x5A827999
    else if group == 1 then 0x6ED9EBA1
    else if group == 2 then 0x8F1BBCDC
    else 0xCA62C1D6
  }

  /** One use of a SHA1_ROUND macro computes the new `e` and the new `b`. */
  function MacroE(group: nat, a: bv32, b: bv32, c: bv32, d: bv32, e: bv32, w: bv32): bv32 {
    Add5(RotL(a, 5), FOf(group, b, c, d), e, w, KOf(group))
  }

  lemma AddOrder(x: bv32, f: bv32, e: bv32, w: bv32, k: bv32)
    ensures Add5(x, f, e, w, k) == Add5(x, f, e, k, w)
  {
  }

  lemma FForms(group: nat, t: nat, b: bv32, c: bv32, d: bv32)
    requires group < 4 && 20 * group <= t < 20 * group + 20
    ensures FOf(group, b, c, d) == F(t, b, c, d) && KOf(group) == K(t)
  {
    hide F0, F2;
    if group == 0 {
      ChoiceForms(b, c, d);
    } else if group == 2 {
      MajorityForms(b, c, d);
    }
  }

  /** The macro with its five registers in rotated roles is the standard round. */
  lemma MacroIsRound(block: seq<byte>, group: nat, t: nat, v: Words)
    requires |block| == 64 && group < 4 && 20 * group <= t < 20 * group + 20
    ensures Round(block, t, v) ==
            Words(MacroE(group, v.a, v.b, v.c, v.d, v.e, W(block, t)), v.a, RotL(v.b, 30), v.c, v.d)
  {
    hide Add5, RotL, F, K, W, FOf, KOf;
    FForms(group, t, v.b, v.c, v.d);
    AddOrder(RotL(v.a, 5), F(t, v.b, v.c, v.d), v.e, W(block, t), K(t));
  }

  lemma FirstWords(block: seq<byte>, t: nat)
    requires |block| == 64 && t < 16
    ensures W(block, t) ==
            (block[t * 4] as bv32 << 24) | (block[t * 4 + 1] as bv32 << 16) |
            (block[t * 4 + 2] as bv32 << 8) | (block[t * 4 + 3] as bv32)
  {
  }

  lemma LaterWords(block: seq<byte>, t: nat)
    requires |block| == 64 && 16 <= t
    ensures var x := W(block, t - 3) ^ W(block, t - 8) ^ W(block, t - 14) ^ W(block, t - 16);
            W(block, t) == RotL(x, 1)
  {
    hide RotL;
  }

  /** Length of the part of a message that fills whole blocks. */
  function Full(n: nat): (f: nat)
    ensures f <= n && f % 64 == 0 && n - f == n % 64
  {
    n - n % 64
  }

  lemma FullUnique(n: nat, f: nat)
    requires f <= n < f + 64 && f % 64 == 0
    ensures Full(n) == f && n % 64 == n - f
  {
  }

  lemma BlocksStep(data: seq<byte>, block: seq<byte>)
    requires |data| % 64 == 0 && |block| == 64
    ensures Blocks(data + block) == Compress(Blocks(data), block)
  {
    assert (data + block)[..|data + block| - 64] == data;
    assert (data + block)[|data + block| - 64..] == block;
  }

  class Context {
    var state: array<bv32>
    var count: int
    var buffer: array<byte>
    ghost var message: seq<byte>  // everything fed in so far

    ghost predicate Shape()
      reads this, state, buffer
    {
      state.Length == 5 && buffer.Length == 64
    }

    ghost function Hash(): Words
      reads this, state, buffer
      requires Shape()
    {
      Words(state[0], state[1], state[2], state[3], state[4])
    }

    ghost predicate Valid()
      reads this, state, buffer
    {
      && Shape()
      && count == BitCount(|message|)
      && Hash() == Blocks(message[..Full(|message|)])
      && Matches(message, Full(|message|), |message| % 64)
    }

    /** The first `idx` bytes of the buffer are those of `whole` from n on. */
    ghost predicate Matches(whole: seq<byte>, n: nat, idx: nat)
      reads this, buffer
    {
      buffer.Length == 64 && idx <= 64 && n + idx <= |whole| && forall k :: 0 <= k < idx ==> buffer[k] == whole[n + k]
    }

    /** `sha1_init`. */
    constructor ()
      ensures Valid() && message == [] && fresh(state) && fresh(buffer)
    {
      state := new bv32[5][0x67452301, 0xEFCDAB89, 0x98BADCFE, 0x10325476, 0xC3D2E1F0];
      buffer := new byte[64](_ => 0);
      count := 0;
      message := [];
    }

    /** The message schedule: `w[0..15]` from the block, the rest extended. */
    method Schedule(block: seq<byte>) returns (w: array<bv32>)
      requires |block| == 64
      ensures fresh(w) && w.Length == 80
      ensures forall t :: 0 <= t < 80 ==> w[t] == W(block, t)
    {
      hide W, RotL;
      w := new bv32[80];
      var i := 0;
      while i < 16
        invariant 0 <= i <= 16
        invariant forall t :: 0 <= t < i ==> w[t] == W(block, t)
      {
        var x := block[i * 4] as bv32 << 24;
        x := x | (block[i * 4 + 1] as bv32 << 16);
        x := x | (block[i * 4 + 2] as bv32 << 8);
        w[i] := x | (block[i * 4 + 3] as bv32);
        FirstWords(block, i);
        i := i + 1;
      }
      while i < 80
        invariant 16 <= i <= 80
        invariant forall t :: 0 <= t < i ==> w[t] == W(block, t)
      {
        var x := w[i - 3] ^ w[i - 8] ^ w[i - 14] ^ w[i - 16];
        w[i] := RotL(x, 1);
        LaterWords(block, i);
        i := i + 1;
      }
    }

    /** Twenty rounds that share a round function, unrolled by five. */
    method RoundGroup(block: seq<byte>, w: array<bv32>, group: nat, v: Words, ghost v0: Words) returns (v': Words)
      requires |block| == 64 && group < 4
      requires w.Length == 80 && forall t :: 0 <= t < 80 ==> w[t] == W(block, t)
      requires v == Rounds(block, 20 * group, v0)
      ensures v' == Rounds(block, 20 * group + 20, v0)
    {
      hide RotL, MacroE, Round, W;
      var Words(a, b, c, d, e) := v;
      var i := 20 * group;
      ghost var k := 0;
      while i < 20 * group + 20
        invariant 0 <= k <= 4 && i == 20 * group + 5 * k
        invariant Words(a, b, c, d, e) == Rounds(block, i, v0)
      {
        ghost var x := Words(a, b, c, d, e);
        e := MacroE(group, a, b, c, d, e, w[i]);
        b := RotL(b, 30);
        MacroIsRound(block, group, i, x);
        ghost var x1 := Words(e, a, b, c, d);
        d := MacroE(group, e, a, b, c, d, w[i + 1]);
        a := RotL(a, 30);
        MacroIsRound(block, group, i + 1, x1);
        ghost var x2 := Words(d, e, a, b, c);
        c := MacroE(group, d, e, a, b, c, w[i + 2]);
        e := RotL(e, 30);
        MacroIsRound(block, group, i + 2, x2);
        ghost var x3 := Words(c, d, e, a, b);
        b := MacroE(group, c, d, e, a, b, w[i + 3]);
        d := RotL(d, 30);
        MacroIsRound(block, group, i + 3, x3);
        ghost var x4 := Words(b, c, d, e, a);
        a := MacroE(group, b, c, d, e, a, w[i + 4]);
        c := RotL(c, 30);
        MacroIsRound(block, group, i + 4, x4);
        FiveRounds(block, i, v0, x1, x2, x3, x4, Words(a, b, c, d, e));
        i := i + 5;
        k := k + 1;
      }
      v' := Words(a, b, c, d, e);
    }

    /** `sha1_transform`. */
    method Transform(block: seq<byte>)
      requires Shape() && |block| == 64
      modifies state
      ensures Shape() && Hash() == Compress(old(Hash()), block)
    {
      hide Rounds, Add;
      var w := Schedule(block);
      var v := Words(state[0], state[1], state[2], state[3], state[4]);
      ghost var v0 := v;
      NoRounds(block, v0);
      v := RoundGroup(block, w, 0, v, v0);
      v := RoundGroup(block, w, 1, v, v0);
      v := RoundGroup(block, w, 2, v, v0);
      v := RoundGroup(block, w, 3, v, v0);
      state[0] := Add(state[0], v.a);
      state[1] := Add(state[1], v.b);
      state[2] := Add(state[2], v.c);
      state[3] := Add(state[3], v.d);
      state[4] := Add(state[4], v.e);
    }

    /** Copies `data` into the buffer from `idx` on. */
    method Fill(idx: nat, data: seq<byte>)
      requires Shape() && idx + |data| <= 64
      modifies buffer
      ensures forall k :: 0 <= k < 64 ==>
                buffer[k] == if idx <= k < idx + |data| then data[k - idx] else old(buffer[k])
    {
      var i := 0;
      while i < |data|
        invariant 0 <= i <= |data|
        invariant forall k :: 0 <= k < 64 ==>
                    buffer[k] == if idx <= k < idx + i then data[k - idx] else old(buffer[k])
      {
        buffer[idx + i] := data[i];
        i := i + 1;
      }
    }

    /** The blocks of the first n bytes of `whole` have been compressed. */
    ghost predicate Absorbed(whole: seq<byte>, n: nat)
      reads this, state, buffer
    {
      Shape() && n <= |whole| && n % 64 == 0 && Hash() == Blocks(whole[..n])
    }

    method AbsorbBlock(ghost whole: seq<byte>, ghost n: nat, block: seq<byte>)
      requires Absorbed(whole, n) && |block| == 64
      requires n + 64 <= |whole| && forall k :: 0 <= k < 64 ==> block[k] == whole[n + k]
      modifies state
      ensures Absorbed(whole, n + 64)
    {
      hide Compress, Blocks;
      Transform(block);
      BlocksStep(whole[..n], block);
      assert whole[..n] + block == whole[..n + 64];
    }

    /** `sha1_update`. */
    method Update(data: seq<byte>)
      requires Valid()
      modifies this`count, this`message, state, buffer
      ensures Valid() && message == old(message) + data
    {
      hide Blocks, Full, BitCount;
      ghost var base, full := |message|, Full(|message|);
      ghost var whole := message + data;
      assert whole[..full] == message[..full];
      var idx := count / 8 % 64;
      IndexOfCount(base);
      count := (count + |data| * 8) % TWO_TO_THE_64;
      CountStep(base, |data|);
      message := whole;
      if idx > 0 {
        var fill := 64 - idx;
        if |data| < fill {
          Fill(idx, data);
          FullUnique(|whole|, full);
          return;
        }
        Fill(idx, data[..fill]);
        AbsorbBlock(whole, full, buffer[..]);
        Remainder(whole, base, data, fill);
      } else {
        Remainder(whole, base, data, 0);
      }
    }

    /** The rest of sha1_update once the buffer is empty: whole blocks straight from
        the input, then what is left into the buffer. */
    method Remainder(ghost whole: seq<byte>, ghost base: nat, data: seq<byte>, from: nat)
      requires from <= |data| && base + |data| == |whole|
      requires forall k :: 0 <= k < |data| ==> whole[base + k] == data[k]
      requires Absorbed(whole, base + from)
      modifies state, buffer
      ensures Absorbed(whole, Full(|whole|)) && Matches(whole, Full(|whole|), |whole| % 64)
    {
      hide Blocks, Full;
      var len, at := |data| - from, from;
      while len >= 64
        invariant len == |data| - at && 0 <= at <= |data|
        invariant Absorbed(whole, base + at)
        decreases len
      {
        AbsorbBlock(whole, base + at, data[at..at + 64]);
        at := at + 64;
        len := len - 64;
      }
      FullUnique(|whole|, base + at);
      if len > 0 {
        Fill(0, data[at..]);
      }
    }

    /** `memset` of the buffer from `idx` up to `end`. */
    method ZeroFill(ghost whole: seq<byte>, ghost n: nat, idx: nat, end: nat)
      requires Shape() && idx <= end <= 64 && n + end <= |whole|
      requires Matches(whole, n, idx)
      requires forall j :: n + idx <= j < n + end ==> whole[j] == 0
      modifies buffer
      ensures Matches(whole, n, end)
    {
      Fill(idx, Zeros(end - idx));
    }

    /** The pad byte and the zero bytes, over one block boundary or none. */
    method PadTo56(ghost whole: seq<byte>) returns (ghost n: nat)
      requires Valid() && whole == Pad(message)
      modifies state, buffer
      ensures Absorbed(whole, n) && n + 64 == |whole| && Matches(whole, n, 56)
    {
      hide Blocks, BigEndian, BitCount, Full, Pad;
      n := Full(|message|);
      PadShape(message, whole);
      assert whole[..n] == message[..n];
      var idx := count / 8 % 64;
      IndexOfCount(|message|);
      buffer[idx] := 0x80;
      idx := idx + 1;
      assert Matches(whole, n, idx);
      if idx == 64 {
        AbsorbBlock(whole, n, buffer[..]);
        n := n + 64;
        idx := 0;
      }
      if idx > 56 {
        ZeroFill(whole, n, idx, 64);
        AbsorbBlock(whole, n, buffer[..]);
        n := n + 64;
        ZeroFill(whole, n, 0, 56);
      } else if idx < 56 {
        ZeroFill(whole, n, idx, 56);
      }
    }

    /** `sha1_final`. */
    method Final() returns (digest: seq<byte>)
      requires Valid()
      modifies state, buffer
      ensures digest == Digest(message)
    {
      hide Blocks, BigEndian, BitCount, Pad;
      var bits := count;
      ghost var whole := Pad(message);
      ghost var n := PadTo56(whole);
      StoreLength(bits);
      LengthField(|message|, buffer[56..]);
      PadShape(message, whole);
      assert forall k :: 56 <= k < 64 ==> buffer[k] == buffer[56..][k - 56] == whole[|whole| - 8..][k - 56];
      AbsorbBlock(whole, n, buffer[..]);
      assert whole[..n + 64] == whole;
      digest := Emit();
    }

    method StoreLength(bits: int)
      requires Shape() && 0 <= bits < TWO_TO_THE_64
      modifies buffer
      ensures forall k :: 0 <= k < 56 ==> buffer[k] == old(buffer[k])
      ensures buffer[56..] ==
              [bits / 0x100_0000_0000_0000 % 256, bits / 0x1_0000_0000_0000 % 256,
               bits / 0x100_0000_0000 % 256, bits / 0x1_0000_0000 % 256, bits / 0x100_0000 % 256,
               bits / 0x1_0000 % 256, bits / 0x100 % 256, bits % 256]
    {
      buffer[56] := bits / 0x100_0000_0000_0000 % 256;
      buffer[57] := bits / 0x1_0000_0000_0000 % 256;
      buffer[58] := bits / 0x100_0000_0000 % 256;
      buffer[59] := bits / 0x1_0000_0000 % 256;
      buffer[60] := bits / 0x100_0000 % 256;
      buffer[61] := bits / 0x1_0000 % 256;
      buffer[62] := bits / 0x100 % 256;
      buffer[63] := bits % 256;
    }

    method Emit() returns (digest: seq<byte>)
      requires Shape()
      ensures digest == Output(Hash())
    {
      hide WordBytes;
      digest := [];
      var i := 0;
      while i < 5
        invariant 0 <= i <= 5 && digest == FirstWordBytes(Hash(), i)
      {
        var x := state[i];
        digest := digest + StoreWord(x);
        i := i + 1;
      }
      AllWordBytes(Hash());
    }
  }

  /** The four stores of one turn of the output loop. */
  function StoreWord(x: bv32): (s: seq<byte>)
    ensures s == WordBytes(x)
  {
    [((x >> 24) & 0xFF) as int, ((x >> 16) & 0xFF) as int, ((x >> 8) & 0xFF) as int, (x & 0xFF) as int]
  }

  /** The output after i turns. */
  function FirstWordBytes(h: Words, i: nat): seq<byte> {
    if i == 0 then []
    else FirstWordBytes(h, i - 1) +
         WordBytes(if i == 1 then h.a else if i == 2 then h.b else if i == 3 then h.c else if i == 4 then h.d else h.e)
  }

  lemma AllWordBytes(h: Words)
    ensures FirstWordBytes(h, 5) == Output(h)
  {
    hide WordBytes;
    assert FirstWordBytes(h, 1) == WordBytes(h.a);
    assert FirstWordBytes(h, 2) == FirstWordBytes(h, 1) + WordBytes(h.b);
    assert FirstWordBytes(h, 3) == FirstWordBytes(h, 2) + WordBytes(h.c);
    assert FirstWordBytes(h, 4) == FirstWordBytes(h, 3) + WordBytes(h.d);
  }

  /** The layout of the padded message around its last one or two blocks. */
  lemma PadShape(message: seq<byte>, p: seq<byte>)
    requires p == Pad(message)
    ensures var n := |message|;
            && |p| == Full(n) + (if n % 64 < 56 then 64 else 128)
            && p[..n] == message && p[n] == 0x80
            && (forall j :: n < j < |p| - 8 ==> p[j] == 0)
            && p[|p| - 8..] == BigEndian(8 * n, 8)
  {
    hide BigEndian;
    var n := |message|;
    ZeroCountValue(n);
  }

  lemma ZeroCountValue(n: nat)
    ensures ZeroCount(n) == if n % 64 < 56 then 55 - n % 64 else 119 - n % 64
  {
  }

  lemma NoRounds(block: seq<byte>, v: Words)
    requires |block| == 64
    ensures Rounds(block, 0, v) == v
  {
  }

  /** Five rounds in a row advance Rounds by five. */
  lemma FiveRounds(block: seq<byte>, i: nat, v0: Words, x1: Words, x2: Words, x3: Words, x4: Words, x5: Words)
    requires |block| == 64
    requires x1 == Round(block, i, Rounds(block, i, v0)) && x2 == Round(block, i + 1, x1)
    requires x3 == Round(block, i + 2, x2) && x4 == Round(block, i + 3, x3) && x5 == Round(block, i + 4, x4)
    ensures x5 == Rounds(block, i + 5, v0)
  {
    hide Round;
    assert x1 == Rounds(block, i + 1, v0);
    assert x2 == Rounds(block, i + 2, v0);
    assert x3 == Rounds(block, i + 3, v0);
    assert x4 == Rounds(block, i + 4, v0);
  }

  /** The 64-bit counter after n bytes. */
  function BitCount(n: nat): (c: nat)
    ensures c < TWO_TO_THE_64
  {
    8 * n % TWO_TO_THE_64
  }

  /** `(count >> 3) & 0x3F` is the fill of the buffer, also after `count` wraps. */
  lemma IndexOfCount(n: nat)
    ensures BitCount(n) / 8 % 64 == n % 64
  {
    var k, m := n / 0x2000_0000_0000_0000, n % 0x2000_0000_0000_0000;
    QuotientUnique(8 * n, TWO_TO_THE_64, k, 8 * m);
    QuotientUnique(n, 64, k * 0x80_0000_0000_0000 + m / 64, m % 64);
  }

  lemma CountStep(n: nat, k: nat)
    ensures (BitCount(n) + k * 8) % TWO_TO_THE_64 == BitCount(n + k)
  {
  }

  /** Reduction modulo 2^64 does not change the byte with weight d. */
  lemma ByteOfLength(n: nat, d: nat, e: nat)
    requires d > 0 && d * (256 * e) == TWO_TO_THE_64
    ensures n % TWO_TO_THE_64 / d % 256 == n / d % 256
  {
    var k := n / TWO_TO_THE_64;
    var bits := n % TWO_TO_THE_64;
    var q, r := bits / d, bits % d;
    var shift := 256 * (e * k);
    assert shift * d == (d * (256 * e)) * k;
    assert (shift + q) * d == shift * d + q * d;
    QuotientUnique(n, d, shift + q, r);
    assert n / d == shift + q;
  }

  /** The eight stores of sha1_final are the big-endian length, reduced modulo 2^64. */
  lemma LengthField(n: nat, field: seq<byte>)
    requires |field| == 8
    requires var bits := BitCount(n);
             field == [bits / 0x100_0000_0000_0000 % 256, bits / 0x1_0000_0000_0000 % 256,
                       bits / 0x100_0000_0000 % 256, bits / 0x1_0000_0000 % 256, bits / 0x100_0000 % 256,
                       bits / 0x1_0000 % 256, bits / 0x100 % 256, bits % 256]
    ensures field == BigEndian(8 * n, 8)
  {
    ByteOfLength(8 * n, 0x100_0000_0000_0000, 1);
    ByteOfLength(8 * n, 0x1_0000_0000_0000, 0x100);
    ByteOfLength(8 * n, 0x100_0000_0000, 0x1_0000);
    ByteOfLength(8 * n, 0x1_0000_0000, 0x100_0000);
    ByteOfLength(8 * n, 0x100_0000, 0x1_0000_0000);
    ByteOfLength(8 * n, 0x1_0000, 0x100_0000_0000);
    ByteOfLength(8 * n, 0x100, 0x1_0000_0000_0000);
    ByteOfLength(8 * n, 1, 0x100_0000_0000_0000);
    EightBytes(8 * n);
  }

  lemma EightBytes(n: nat)
    ensures BigEndian(n, 8) ==
            [n / 0x100_0000_0000_0000 % 256, n / 0x1_0000_0000_0000 % 256, n / 0x100_0000_0000 % 256,
             n / 0x1_0000_0000 % 256, n / 0x100_0000 % 256, n / 0x1_0000 % 256, n / 0x100 % 256, n % 256]
  {
    DivTwice(n, 0x100, 0x100);
    DivTwice(n, 0x1_0000, 0x100);
    DivTwice(n, 0x100_0000, 0x100);
    DivTwice(n, 0x1_0000_0000, 0x100);
    DivTwice(n, 0x100_0000_0000, 0x100);
    DivTwice(n, 0x1_0000_0000_0000, 0x100);
    var n2, n3, n4 := n / 0x1_0000, n / 0x100_0000, n / 0x1_0000_0000;
    var n5, n6, n7 := n / 0x100_0000_0000, n / 0x1_0000_0000_0000, n / 0x100_0000_0000_0000;
    assert BigEndian(n7, 1) == [n7 % 256];
    assert BigEndian(n6, 2) == [n7 % 256, n6 % 256];
    assert BigEndian(n5, 3) == [n7 % 256, n6 % 256, n5 % 256];
    assert BigEndian(n4, 4) == [n7 % 256, n6 % 256, n5 % 256, n4 % 256];
    assert BigEndian(n3, 5) == [n7 % 256, n6 % 256, n5 % 256, n4 % 256, n3 % 256];
    assert BigEndian(n2, 6) == [n7 % 256, n6 % 256, n5 % 256, n4 % 256, n3 % 256, n2 % 256];
    assert BigEndian(n / 256, 7) == [n7 % 256, n6 % 256, n5 % 256, n4 % 256, n3 % 256, n2 % 256, n / 256 % 256];
  }

  /** `sha1_hash`. */
  method Sha1Hash(data: seq<byte>) returns (digest: seq<byte>)
    ensures digest == Digest(data)
  {
    hide Blocks, Pad;
    var ctx := new Context();
    assert [] + data == data;
    ctx.Update(data);
    digest := ctx.Final();
  }

  /** Any way of cutting a message into updates gives the digest of the whole. */
  method HashChunks(chunks: seq<seq<byte>>) returns (digest: seq<byte>)
    ensures digest == Digest(Concat(chunks))
  {
    var ctx := new Context();
    var i := 0;
    while i < |chunks|
      invariant 0 <= i <= |chunks| && ctx.Valid() && ctx.message == Concat(chunks[..i])
      invariant fresh(ctx) && fresh(ctx.state) && fresh(ctx.buffer)
    {
      ctx.Update(chunks[i]);
      assert chunks[..i + 1][..i] == chunks[..i];
      i := i + 1;
    }
    assert chunks[..i] == chunks;
    digest := ctx.Final();
  }

  function Concat(chunks: seq<seq<byte>>): seq<byte> {
    if chunks == [] then [] else Concat(chunks[..|chunks| - 1]) + chunks[|chunks| - 1]
  }
}
