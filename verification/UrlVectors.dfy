/** Percent coding in characters: what each byte is written as, what is read back, and a
    form looked up. */
module UrlVectors {
  import opened Bytes
  import opened UrlCoding
  import opened FormLookup

  const LOWER: string := "0123456789abcdef"
  const UPPER: string := "0123456789ABCDEF"

  ghost predicate Plain(c: byte) {
    || '0' as int <= c <= '9' as int || 'A' as int <= c <= 'Z' as int || 'a' as int <= c <= 'z' as int
    || c in {'-' as int, '.' as int, '_' as int, '~' as int}
  }

  /** A query keeps letters, digits and four marks; a path also the slash. Every other byte
      becomes a percent sign and two digits, small ones in a query, capital ones in a path. */
  lemma Written(c: byte)
    ensures EncodeByte(c, QUERY_STYLE) ==
            if Plain(c) then [c] else ['%' as int, LOWER[c / 16] as int, LOWER[c % 16] as int]
    ensures EncodeByte(c, PATH_STYLE) ==
            if Plain(c) || c == '/' as int then [c] else ['%' as int, UPPER[c / 16] as int, UPPER[c % 16] as int]
  {
    DigitsAre(c / 16);
    DigitsAre(c % 16);
  }

  /** Between the address of a mirror and a path stands one slash. */
  lemma SlashBetween(base: seq<byte>)
    requires base != []
    ensures WithSlash(base) == if base[|base| - 1] == '/' as int then base else base + ['/' as int]
  {
  }

  lemma DigitsAre(n: nat)
    requires n < 16
    ensures HexChar(n, false) == LOWER[n] as int && HexChar(n, true) == UPPER[n] as int
  {
  }

  // ----- reading back ---------------------------------------------------------------------

  /** The digit c stands for n. */
  ghost predicate Stands(c: byte, n: nat) {
    n < 16 && (c == LOWER[n] as int || c == UPPER[n] as int)
  }

  lemma DigitRead(c: byte)
    ensures forall n: nat :: Stands(c, n) <==> HexDigit(c) == Some(n)
    ensures forall n: nat :: Stands(c, n) ==> n < 16
  {
    forall n: nat
      ensures Stands(c, n) <==> HexDigit(c) == Some(n)
    {
      if n < 16 {
        DigitsAre(n);
      }
    }
  }

  /** The two characters behind a percent sign: two digits are their number; one digit may
      stand in front of anything else or behind a space or a sign; all else is zero. */
  lemma PairRead(a: byte, b: byte, m: nat, n: nat)
    ensures Stands(a, m) && Stands(b, n) ==> HexPair(a, b) == 16 * m + n
    ensures Stands(a, m) && (forall k: nat :: !Stands(b, k)) ==> HexPair(a, b) == m
    ensures (a == ' ' as int || 9 <= a <= 13 || a == '+' as int) && Stands(b, n) ==> HexPair(a, b) == n
    ensures a == '-' as int && Stands(b, n) ==> HexPair(a, b) == if n == 0 then 0 else 256 - n
    ensures (forall k: nat :: !Stands(a, k)) && (forall k: nat :: !Stands(b, k)) ==> HexPair(a, b) == 0
  {
    hide HexDigit, Stands;
    DigitRead(a);
    DigitRead(b);
    assert HexDigit(a).Some? ==> Stands(a, HexDigit(a).value);
    assert HexDigit(b).Some? ==> Stands(b, HexDigit(b).value);
    SignsAreNoDigits(a);
  }

  lemma SignsAreNoDigits(a: byte)
    ensures a == ' ' as int || 9 <= a <= 13 || a == '+' as int || a == '-' as int ==> HexDigit(a).None?
  {
  }

  /** A percent sign takes two characters with it if there are two, a plus is a space, and
      any other character is itself. */
  lemma CharacterRead(s: seq<byte>)
    requires s != []
    ensures Decode(s) ==
            if s[0] == '%' as int && |s| >= 3 then [HexPair(s[1], s[2])] + Decode(s[3..])
            else if s[0] == '+' as int then [32] + Decode(s[1..])
            else [s[0]] + Decode(s[1..])
    ensures Decode([]) == []
  {
    hide HexPair;
  }

  // ----- a form -----------------------------------------------------------------------------

  /** a=1&b=%20x */
  lemma FormWritten()
    ensures Serialise([Pair([97], [49]), Pair([98], [32, 120])]) == [97, 61, 49, 38, 98, 61, 37, 50, 48, 120]
  {
    var pairs := [Pair([97], [49]), Pair([98], [32, 120])];
    assert pairs[1..] == [pairs[1]];
    assert [32, 120][1..] == [120] && [120][1..] == [];
    Written(32);
    Written(120);
    assert UrlCoding.Encode([120], QUERY_STYLE) == [120];
    assert UrlCoding.Encode([32, 120], QUERY_STYLE) == [37, 50, 48, 120];
    OneLetter(97);
    OneLetter(49);
    OneLetter(98);
    assert PairText(pairs[0]) == [97, 61, 49];
    assert PairText(pairs[1]) == [98, 61, 37, 50, 48, 120];
  }

  lemma OneLetter(c: byte)
    requires Plain(c)
    ensures UrlCoding.Encode([c], QUERY_STYLE) == [c]
  {
    Written(c);
    assert [c][1..] == [];
  }
}
