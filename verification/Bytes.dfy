/** Values shared by every module of the model. */
module Bytes {

  /** One octet, the C type `unsigned char`. */
  type byte = b: int | 0 <= b < 256

  datatype Option<+T> = None | Some(value: T)

  const INT64_MAX: int := 0x7FFF_FFFF_FFFF_FFFF
  const TWO_TO_THE_64: int := 0x1_0000_0000_0000_0000

  function Zeros(n: nat): (z: seq<byte>)
    ensures |z| == n
    ensures forall i :: 0 <= i < n ==> z[i] == 0
  {
    seq(n, _ => 0)
  }

  function Min(a: int, b: int): int {
    if a < b then a else b
  }

  function Max(a: int, b: int): int {
    if a < b then b else a
  }

  lemma SliceOfSlice(s: seq<byte>, a: nat, b: nat, i: nat, j: nat)
    requires a <= b <= |s| && i <= j <= b - a
    ensures s[a..b][i..j] == s[a + i..a + j]
  {
    var x, y := s[a..b][i..j], s[a + i..a + j];
    assert |x| == |y| && forall k :: 0 <= k < |x| ==> x[k] == y[k];
  }

  lemma MulMonotone(a: int, b: int, k: int)
    requires a <= b && 0 <= k
    ensures a * k <= b * k
  {
    assert (b - a) * k >= 0;
    assert (b - a) * k == b * k - a * k;
  }

  /** Quotient and remainder are determined by their defining equation. */
  lemma QuotientUnique(n: int, d: int, q: int, r: int)
    requires d > 0 && n == q * d + r && 0 <= r < d
    ensures n / d == q && n % d == r
  {
    var q', r' := n / d, n % d;
    assert n == q' * d + r';
    var x := q - q';
    assert x * d == q * d - q' * d;
    if x >= 1 {
      MulMonotone(1, x, d);
    } else if x <= -1 {
      MulMonotone(x, -1, d);
    }
  }

  /** Dividing by d and then by k is dividing by d * k. */
  lemma DivTwice(n: nat, d: nat, k: nat)
    requires d > 0 && k > 0
    ensures d * k > 0 && n / d / k == n / (d * k)
  {
    var q, r := n / d, n % d;
    var q2, r2 := q / k, q % k;
    MulMonotone(r2, k - 1, d);
    assert (k - 1) * d == d * k - d;
    assert q * d == q2 * (d * k) + r2 * d by {
      assert q == q2 * k + r2;
      assert q * d == (q2 * k) * d + r2 * d;
      assert (q2 * k) * d == q2 * (d * k);
    }
    assert n == q * d + r;
    MulMonotone(1, k, d);
    MulMonotone(0, r2, d);
    QuotientUnique(n, d * k, q2, r2 * d + r);
  }
}
