/** The answer to a range request in bytes and numbers. */
module HttpVectors {
  import opened Bytes
  import opened HttpRange
  import BencodeProofs
  import BencodeSpec
  import UrlCoding

  predicate Blank(c: byte) {
    c == 32 || 9 <= c <= 13
  }

  /** HTTP/, a word, blanks, a number of three digits, and something that is no digit. */
  ghost predicate StatusLine(s: seq<byte>, word: nat, at: nat, n: nat) {
    && 5 < word < at && at + 3 < |s| && s[..5] == [72, 84, 84, 80, 47]
    && (forall k :: 5 <= k < word ==> !Blank(s[k])) && (forall k :: word <= k < at ==> Blank(s[k]))
    && (forall k :: 0 <= k < |s| ==> s[k] != 0)
    && (forall k :: at <= k < at + 3 ==> 48 <= s[k] <= 57) && !(48 <= s[at + 3] <= 57)
    && n == 100 * (s[at] as int - 48) + 10 * (s[at + 1] as int - 48) + (s[at + 2] as int - 48)
  }

  lemma BlankIs(c: byte)
    ensures Blank(c) <==> UrlCoding.IsSpace(c)
  {
  }

  lemma StatusRead(s: seq<byte>, word: nat, at: nat, n: nat)
    requires StatusLine(s, word, at, n)
    ensures Status(s) == Some(n)
  {
    hide Text, SkipSpaces, SkipWord, BencodeSpec.DigitsEnd, BencodeSpec.Value, UrlCoding.IsSpace, Blank;
    forall c: byte {
      BlankIs(c);
    }
    assert !Blank(s[at]) && s[at] != 45 && s[at] != 43 by { DigitIsPlain(s[at]); }
    WholeText(s);
    SpacesAre(s, 5, 5);
    WordIs(s, 5, word);
    SpacesAre(s, word, at);
    BencodeProofs.DigitsEndAt(s, at, at + 3);
    ThreeDigits(s[at..at + 3]);
  }

  lemma DigitIsPlain(c: byte)
    requires 48 <= c <= 57
    ensures !Blank(c)
  {
  }

  lemma ThreeDigits(ds: seq<byte>)
    requires |ds| == 3 && BencodeSpec.AllDigits(ds)
    ensures BencodeSpec.Value(ds) == 100 * (ds[0] as int - 48) + 10 * (ds[1] as int - 48) + (ds[2] as int - 48)
  {
    assert ds[..2][..1][..0] == [];
    assert BencodeSpec.Value(ds[..2][..1]) == ds[0] - 48;
    assert BencodeSpec.Value(ds[..2]) == 10 * (ds[0] as int - 48) + (ds[1] - 48);
  }

  /** CR LF CR LF stands at k. */
  predicate EmptyLine(s: seq<byte>, k: nat) {
    k + 4 <= |s| && s[k] == 13 && s[k + 1] == 10 && s[k + 2] == 13 && s[k + 3] == 10
  }

  lemma EmptyLineEnds(s: seq<byte>, e: nat)
    ensures EndsHeader(s, e) <==> e >= 4 && EmptyLine(s, e - 4)
  {
    if 4 <= e <= |s| {
      EndsHeaderIs(s, e);
    }
  }

  /** An answer is used if its header ends with the first empty line and below 8192 bytes, its
      status is 206, or 200 for a range from the front, and all bytes asked for follow. */
  lemma AnswerIs(stream: seq<byte>, from: nat, length: nat, e: nat)
    ensures IsAnswer(stream, from, length, e) <==>
            && 4 <= e < 8192 && e + length <= |stream|
            && EmptyLine(stream, e - 4) && (forall k: nat :: k + 4 < e ==> !EmptyLine(stream, k))
            && (Status(stream[..e]) == Some(206) || (Status(stream[..e]) == Some(200) && from == 0))
  {
    hide Status, EndsHeader;
    forall d: nat {
      EmptyLineEnds(stream, d);
    }
    assert forall k: nat :: EmptyLine(stream, k) <==> EndsHeader(stream, k + 4);
    assert forall d: nat :: EndsHeader(stream, d) ==> d >= 4 && EmptyLine(stream, d - 4);
  }
}
