/** Piece bitfields: bit k is the bit of weight 2^(7 - k % 8) of byte k / 8. */
module Bitfield {
  import opened Bytes

  function Weight(k: nat): (w: nat)
    ensures w in {1, 2, 4, 8, 16, 32, 64, 128}
  {
    match 7 - k % 8
    case 0 => 1
    case 1 => 2
    case 2 => 4
    case 3 => 8
    case 4 => 16
    case 5 => 32
    case 6 => 64
    case _ => 128
  }

  predicate HasBit(bits: seq<byte>, k: nat)
    requires k / 8 < |bits|
  {
    bits[k / 8] / Weight(k) % 2 == 1
  }

  /** The bits of a byte are counted from the heaviest to the lightest. */
  lemma BitOrder(bits: seq<byte>, k: nat)
    requires k / 8 < |bits|
    ensures [128, 64, 32, 16, 8, 4, 2, 1][k % 8] > 0
    ensures HasBit(bits, k) <==> bits[k / 8] / [128, 64, 32, 16, 8, 4, 2, 1][k % 8] % 2 == 1
  {
    assert Weight(k) == [128, 64, 32, 16, 8, 4, 2, 1][k % 8];
  }

  lemma OrWeightSets(b: byte, w: nat)
    requires w in {1, 2, 4, 8, 16, 32, 64, 128}
    ensures b / w % 2 != 1 ==> b + w < 256 && (b + w) / w % 2 == 1
  {
    if b / w % 2 != 1 {
      assert (b + w) / w == b / w + 1 by { QuotientUnique(b + w, w, b / w + 1, b % w); }
    }
  }

  /** The C expression `b | 1 << (7 - k % 8)`. */
  function OrWeight(b: byte, k: nat): (r: byte)
    ensures r / Weight(k) % 2 == 1
  {
    var w := Weight(k);
    OrWeightSets(b, w);
    if b / w % 2 == 1 then b else b + w
  }

  function SetBit(bits: seq<byte>, k: nat): (r: seq<byte>)
    requires k / 8 < |bits|
    ensures |r| == |bits|
  {
    bits[k / 8 := OrWeight(bits[k / 8], k)]
  }

  /** Setting a bit sets that bit and touches no other. */
  lemma SetBitEffect(bits: seq<byte>, k: nat, j: nat)
    requires k / 8 < |bits| && j / 8 < |bits|
    ensures HasBit(SetBit(bits, k), j) <==> j == k || HasBit(bits, j)
  {
    if j / 8 == k / 8 && j != k {
      OtherBit(bits[k / 8], k, j);
    }
  }

  /** A heavier weight is an even multiple of a lighter one. */
  lemma WeightRatio(k: nat, j: nat) returns (m: nat)
    requires k % 8 < j % 8
    ensures 1 <= m && Weight(k) == 2 * m * Weight(j)
  {
    match j % 8 - k % 8
    case 1 => m := 1;
    case 2 => m := 2;
    case 3 => m := 4;
    case 4 => m := 8;
    case 5 => m := 16;
    case 6 => m := 32;
    case _ => m := 64;
  }

  lemma HeavierWeight(b: nat, v: nat, m: nat)
    requires 0 < v
    ensures (b + 2 * m * v) / v % 2 == b / v % 2
  {
    assert (b / v + 2 * m) * v == (b / v) * v + 2 * m * v;
    QuotientUnique(b + 2 * m * v, v, b / v + 2 * m, b % v);
  }

  lemma LighterWeight(b: nat, w: nat, m: nat)
    requires 0 < w && 1 <= m && b / w % 2 == 0
    ensures 0 < 2 * m * w && (b + w) / (2 * m * w) == b / (2 * m * w)
  {
    var h, s := b / w / 2, b % w;
    var q, r := h / m, h % m;
    var v := 2 * m * w;
    MulMonotone(1, m, 2 * w);
    assert b == 2 * h * w + s;
    assert 2 * h * w == q * v + 2 * r * w by {
      assert h == q * m + r;
      assert (q * m) * (2 * w) == q * v;
      assert h * (2 * w) == (q * m) * (2 * w) + r * (2 * w);
    }
    MulMonotone(r + 1, m, 2 * w);
    assert (r + 1) * (2 * w) == 2 * r * w + 2 * w;
    MulMonotone(0, r, 2 * w);
    QuotientUnique(b, v, q, 2 * r * w + s);
    QuotientUnique(b + w, v, q, 2 * r * w + s + w);
  }

  lemma OtherBit(b: byte, k: nat, j: nat)
    requires k % 8 != j % 8
    ensures OrWeight(b, k) / Weight(j) % 2 == b / Weight(j) % 2
  {
    hide Weight;
    if b / Weight(k) % 2 != 1 {
      if k % 8 < j % 8 {
        var m := WeightRatio(k, j);
        HeavierWeight(b, Weight(j), m);
      } else {
        var m := WeightRatio(j, k);
        LighterWeight(b, Weight(k), m);
      }
    }
  }

  /** How many of the first n bits are set. */
  function CountBits(bits: seq<byte>, n: nat): nat
    requires n <= 8 * |bits|
  {
    if n == 0 then 0 else CountBits(bits, n - 1) + if HasBit(bits, n - 1) then 1 else 0
  }
}
