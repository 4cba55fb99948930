/** Bencoding in bytes: numbers, and how the parser of bencode.c reads what BEP 3 forbids. */
module BencodeVectors {
  import opened Bytes
  import opened BencodeSpec
  import opened BencodeProofs

  /** The run of decimal digits from `from` on ends at e. */
  ghost predicate DigitsBetween(data: seq<byte>, from: nat, e: nat) {
    && from <= e <= |data|
    && (forall k :: from <= k < e ==> 48 <= data[k] <= 57)
    && (e < |data| ==> !(48 <= data[e] <= 57))
  }

  /** What the digits stand for in base ten. */
  function Decimal(ds: seq<byte>): int {
    if ds == [] then 0 else 10 * Decimal(ds[..|ds| - 1]) + (ds[|ds| - 1] as int - 48)
  }

  lemma {:induction false} DecimalIs(ds: seq<byte>)
    requires AllDigits(ds)
    ensures Value(ds) == Decimal(ds)
  {
    if ds != [] {
      DecimalIs(ds[..|ds| - 1]);
    }
  }

  /** An integer begins with an i and ends behind the e that follows its digits; it is what
      they stand for if that fits 64 bits. Without that e it is zero and ends where it goes wrong. */
  lemma IntegerRead(data: seq<byte>, pos: nat, e: nat)
    requires pos + 1 < |data| && data[pos] == 105
    requires DigitsBetween(data, if data[pos + 1] == 45 then pos + 2 else pos + 1, e)
    ensures var negative := data[pos + 1] == 45;
            var from := if negative then pos + 2 else pos + 1;
            var n := Decimal(data[from..e]);
            if e == |data| || data[e] != 101 then ParseValue(data, pos) == Some((Int(0), e))
            else
              && (!negative && n <= 9223372036854775807 ==> ParseValue(data, pos) == Some((Int(n), e + 1)))
              && (negative && n <= 9223372036854775808 ==> ParseValue(data, pos) == Some((Int(-n), e + 1)))
  {
    hide Value;
    var from := if data[pos + 1] == 45 then pos + 2 else pos + 1;
    DigitsEndAt(data, from, e);
    DecimalIs(data[from..e]);
  }

  /** A number is written in decimal digits, without a zero in front. */
  lemma {:induction false} NumberWritten(n: nat)
    ensures forall k :: 0 <= k < |Digits(n)| ==> 48 <= Digits(n)[k] <= 57
    ensures Decimal(Digits(n)) == n && (|Digits(n)| > 1 ==> Digits(n)[0] != 48)
  {
    var ds := Digits(n);
    if n >= 10 {
      NumberWritten(n / 10);
      assert ds[..|ds| - 1] == Digits(n / 10) && ds[|ds| - 1] == 48 + n % 10;
    } else {
      assert ds == [48 + n] && ds[..0] == [];
    }
  }

  /** An integer stands between i and e, with a minus sign in front if it is negative. */
  lemma IntegerWritten(v: int)
    ensures v >= 0 ==> Encode(Int(v)) == [105] + Digits(v) + [101]
    ensures v < 0 ==> Encode(Int(v)) == [105, 45] + Digits(-v) + [101]
  {
    hide Digits;
    if v < 0 {
      assert [105] + ([45] + Digits(-v)) == [105, 45] + Digits(-v);
    }
  }

  /** Nothing can be read from other first bytes, from a string that is too short, or from a
      list or dictionary without an end. */
  lemma Unreadable()
    ensures forall b: byte :: !(48 <= b <= 57) && b != 105 && b != 108 && b != 100 ==> Parse([b]) == None
    ensures Parse([]) == None && Parse([50, 58, 97]) == None && Parse([108]) == None && Parse([100]) == None
    ensures Parse([100, 49, 58, 97, 101]) == None
  {
    forall b: byte | !(48 <= b <= 57) && b != 105 && b != 108 && b != 100
      ensures Parse([b]) == None
    {
    }
    ShortText();
    KeyAlone();
  }

  /** 2:a */
  lemma ShortText()
    ensures Parse([50, 58, 97]) == None
  {
    var data: seq<byte> := [50, 58, 97];
    DigitsEndAt(data, 0, 1);
    assert data[0..1] == [50] && [50][..0] == [];
    assert Value([50]) == 2;
  }

  /** d1:ae */
  lemma KeyAlone()
    ensures Parse([100, 49, 58, 97, 101]) == None
  {
    var data: seq<byte> := [100, 49, 58, 97, 101];
    DigitsEndAt(data, 1, 2);
    assert data[1..2] == [49] && [49][..0] == [];
    assert Value([49]) == 1;
    assert ParseString(data, 1) == Some((data[3..4], 4));
    assert ParseValue(data, 4) == None;
    assert ParseEntries(data, 1) == None;
  }
}
