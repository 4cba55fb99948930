/** Which key of a torrent file gives which field of its record, with the keys as bytes. */
module TorrentFields {
  import opened Bytes
  import opened BencodeSpec
  import opened BencodeProofs
  import opened Torrent
  import opened TorrentParse
  import Sha1Spec

  const NAME: seq<byte> := [110, 97, 109, 101]  // name
  const FILES: seq<byte> := [102, 105, 108, 101, 115]  // files
  const LENGTH: seq<byte> := [108, 101, 110, 103, 116, 104]  // length
  const PIECES: seq<byte> := [112, 105, 101, 99, 101, 115]  // pieces
  const PIECE_LENGTH: seq<byte> := [112, 105, 101, 99, 101, 32, 108, 101, 110, 103, 116, 104]  // piece length
  const URL_LIST: seq<byte> := [117, 114, 108, 45, 108, 105, 115, 116]  // url-list
  const ANNOUNCE: seq<byte> := [97, 110, 110, 111, 117, 110, 99, 101]  // announce
  const ANNOUNCE_LIST: seq<byte> := [97, 110, 110, 111, 117, 110, 99, 101, 45, 108, 105, 115, 116]  // announce-list
  const INFO: seq<byte> := [105, 110, 102, 111]  // info

  lemma Keys()
    ensures Ascii("name") == NAME
    ensures Ascii("files") == FILES
    ensures Ascii("length") == LENGTH
    ensures Ascii("pieces") == PIECES
    ensures Ascii("piece length") == PIECE_LENGTH
    ensures Ascii("url-list") == URL_LIST
    ensures Ascii("announce") == ANNOUNCE
    ensures Ascii("announce-list") == ANNOUNCE_LIST
    ensures Ascii("info") == INFO
  {
  }

  // ----- lengths --------------------------------------------------------------------

  function Total(lengths: seq<int>): int {
    if lengths == [] then 0 else Total(lengths[..|lengths| - 1]) + lengths[|lengths| - 1]
  }

  lemma {:induction false} TotalIsSum(lengths: seq<int>)
    ensures Total(lengths) == Sum(lengths)
  {
    if lengths != [] {
      var last := |lengths| - 1;
      TotalIsSum(lengths[..last]);
      assert lengths == lengths[..last] + [lengths[last]];
      SumAppend(lengths[..last], [lengths[last]]);
      OneLength(lengths[last]);
    }
  }

  /** The dictionary lists the files with these lengths, or it is of one file. */
  ghost predicate ManyFiles(info: Node, files: seq<Node>, lengths: seq<int>) {
    && Holds(info, FILES, List(files)) && |files| == |lengths|
    && forall i :: 0 <= i < |files| ==> Holds(files[i], LENGTH, Int(lengths[i]))
  }

  ghost predicate OneFile(info: Node, length: int) {
    Lacks(info, FILES) && Holds(info, LENGTH, Int(length))
  }

  /** The lengths of a torrent of many files are the integers under `length` of the file
      dictionaries, in order; that of a torrent of one file is the integer under `length`. */
  lemma LengthsRead(root: Node, info: Node)
    ensures forall files, lengths :: ManyFiles(info, files, lengths) ==>
              var r := Record(root, info);
              r.multiFile && r.fileLengths == lengths == r.OutputLengths() && r.totalSize == Total(lengths)
    ensures forall length :: OneFile(info, length) ==>
              var r := Record(root, info);
              !r.multiFile && r.OutputLengths() == [length] && r.totalSize == length
  {
    hide DictGet, ManyFiles, OneFile, Ascii, Sha1Spec.Digest, Encode, WebSeeds, HasTrackers, DeclaredLengths;
    forall files, lengths | ManyFiles(info, files, lengths)
      ensures IsMultiFile(info) && DeclaredLengths(info) == lengths && Sum(lengths) == Total(lengths)
    {
      ManyDeclared(info, files, lengths);
      TotalIsSum(lengths);
    }
    forall length | OneFile(info, length)
      ensures !IsMultiFile(info) && DeclaredLengths(info) == [length] && Sum([length]) == length
    {
      OneDeclared(info, length);
      OneLength(length);
    }
  }

  lemma ManyDeclared(info: Node, files: seq<Node>, lengths: seq<int>)
    requires ManyFiles(info, files, lengths)
    ensures IsMultiFile(info) && DeclaredLengths(info) == lengths
  {
    hide DictGet, Holds, Ascii;
    Keys();
    Lookup(info, FILES);
    forall i | 0 <= i < |files|
      ensures EntryLength(files[i]) == lengths[i]
    {
      Lookup(files[i], LENGTH);
      Holder(files[i], LENGTH, Int(lengths[i]));
    }
  }

  lemma OneDeclared(info: Node, length: int)
    requires OneFile(info, length)
    ensures !IsMultiFile(info) && DeclaredLengths(info) == [length]
  {
    hide DictGet, Holds, Lacks, Ascii;
    Keys();
    Lookup(info, FILES);
    Lookup(info, LENGTH);
  }

  lemma Holder(d: Node, key: seq<byte>, v: Node)
    requires Holds(d, key, v)
    ensures d.Dict?
  {
  }

  // ----- the other fields -------------------------------------------------------------

  lemma FieldsRead(root: Node, info: Node)
    ensures forall n :: Holds(info, PIECE_LENGTH, Int(n)) ==> Record(root, info).pieceLength == n
    ensures forall s :: Holds(info, PIECES, Str(s)) ==> Record(root, info).pieces == s
    ensures Record(root, info).infoHash == Sha1Spec.Digest(Encode(info))
  {
    hide DictGet, Holds, Ascii, Sha1Spec.Digest, Encode, WebSeeds, HasTrackers, DeclaredLengths;
    Keys();
    Lookup(info, PIECE_LENGTH);
    Lookup(info, PIECES);
  }

  /** The places of the non-empty strings of a list. */
  function Urls(items: seq<Node>): set<nat> {
    set i: nat | i < |items| && items[i].Str? && items[i].text != []
  }

  lemma {:induction false} UrlsCounted(items: seq<Node>)
    ensures NonEmptyStrings(items) == |Urls(items)|
  {
    if items != [] {
      var last := |items| - 1;
      UrlsCounted(items[..last]);
      assert Urls(items) ==
             Urls(items[..last]) + if items[last].Str? && items[last].text != [] then {last} else {};
    }
  }

  /** Web seeds: the one under `url-list`, or the non-empty ones of the list there. */
  lemma WebSeedsRead(root: Node, info: Node)
    ensures Lacks(root, URL_LIST) ==> Record(root, info).webSeedCount == 0
    ensures forall u :: Holds(root, URL_LIST, Str(u)) ==>
              Record(root, info).webSeedCount == if u == [] then 0 else 1
    ensures forall items :: Holds(root, URL_LIST, List(items)) ==> Record(root, info).webSeedCount == |Urls(items)|
  {
    hide DictGet, Holds, Lacks, Ascii, Sha1Spec.Digest, Encode, HasTrackers, DeclaredLengths, Urls, NonEmptyStrings;
    Keys();
    Lookup(root, URL_LIST);
    forall items: seq<Node> {
      UrlsCounted(items);
    }
  }

  /** Some tier of the list has an address. */
  ghost predicate AddressIn(tiers: seq<Node>) {
    exists i, j :: 0 <= i < |tiers| && tiers[i].List? && 0 <= j < |tiers[i].items| && tiers[i].items[j].Str?
  }

  /** Trackers: an address under `announce`, or one in a list in the list under `announce-list`. */
  lemma TrackersRead(root: Node, info: Node)
    ensures Record(root, info).hasTrackers <==>
            || (exists a :: Holds(root, ANNOUNCE, Str(a)))
            || (exists tiers :: Holds(root, ANNOUNCE_LIST, List(tiers)) && AddressIn(tiers))
  {
    hide DictGet, Holds, Lacks, Ascii, Sha1Spec.Digest, Encode, DeclaredLengths, AddressIn;
    Keys();
    Lookup(root, ANNOUNCE);
    Lookup(root, ANNOUNCE_LIST);
    var one, many := DictGet(root, ANNOUNCE), DictGet(root, ANNOUNCE_LIST);
    assert HasString(root, ANNOUNCE) <==> exists a :: Holds(root, ANNOUNCE, Str(a)) by {
      if HasString(root, ANNOUNCE) {
        assert Holds(root, ANNOUNCE, Str(one.value.text));
      }
    }
    if many.Some? && many.value.List? {
      assert Holds(root, ANNOUNCE_LIST, List(many.value.items));
      AddressIs(many.value.items);
    }
  }

  lemma AddressIs(tiers: seq<Node>)
    ensures AddressIn(tiers) <==> exists i :: 0 <= i < |tiers| && HasStringItem(tiers[i])
  {
  }

  // ----- what is accepted ---------------------------------------------------------------

  /** n pieces of the length cover the total, and one less would not. */
  ghost predicate Covers(n: nat, length: int, total: int) {
    (n - 1) * length < total <= n * length
  }

  lemma CountCovers(n: nat, length: int, total: int)
    requires length > 0 && total > 0
    ensures n == PieceCount(total, length) <==> Covers(n, length, total)
  {
    var q, r := total / length, total % length;
    assert total == q * length + r;
    var c := PieceCount(total, length);
    assert (q + 1) * length == q * length + length && (q - 1) * length == q * length - length;
    assert c == q || c == q + 1;
    assert Covers(c, length, total);
    if n < c {
      MulMonotone(n, c - 1, length);
    } else if n > c {
      MulMonotone(c, n - 1, length);
    }
  }

  /** A dictionary with a name, digests, a piece length and file lengths is accepted exactly
      if the lengths are possible and there is one digest for every piece. */
  lemma AcceptedIff(info: Node, name: seq<byte>, digests: seq<byte>, pieceLength: int, lengths: seq<int>)
    requires Holds(info, NAME, Str(name)) && Holds(info, PIECES, Str(digests))
    requires Holds(info, PIECE_LENGTH, Int(pieceLength))
    requires (exists files :: ManyFiles(info, files, lengths)) || (|lengths| == 1 && OneFile(info, lengths[0]))
    ensures Acceptable(info) <==>
            && pieceLength > 0 && |lengths| <= 1024
            && (forall i :: 0 <= i < |lengths| ==> lengths[i] >= 0)
            && 0 < Total(lengths) <= 0x7FFF_FFFF_FFFF_FFFF
            && exists n: nat :: |digests| == 20 * n && Covers(n, pieceLength, Total(lengths))
  {
    hide DictGet, Holds, Lacks, Ascii, Covers, Sum, Total, PieceCount;
    Keys();
    Lookup(info, NAME);
    Lookup(info, PIECES);
    Lookup(info, PIECE_LENGTH);
    Holder(info, NAME, Str(name));
    TotalIsSum(lengths);
    assert DeclaredLengths(info) == lengths by {
      if files :| ManyFiles(info, files, lengths) {
        ManyDeclared(info, files, lengths);
      } else {
        OneDeclared(info, lengths[0]);
      }
    }
    var n0, total := |digests| / 20, Total(lengths);
    assert (exists n: nat :: |digests| == 20 * n && Covers(n, pieceLength, total)) <==>
           |digests| % 20 == 0 && Covers(n0, pieceLength, total) by {
      assert |digests| % 20 == 0 ==> |digests| == 20 * n0;
      assert forall n: nat :: |digests| == 20 * n ==> n == n0 && |digests| % 20 == 0;
    }
    if pieceLength > 0 && total > 0 {
      CountCovers(n0, pieceLength, total);
    }
    assert PieceLengthOf(info) == pieceLength && PiecesOf(info) == digests;
    assert NonNegative(lengths) <==> forall i :: 0 <= i < |lengths| ==> lengths[i] >= 0;
  }

  /** Without a name or digests there is no torrent. */
  lemma Needed(info: Node)
    requires Acceptable(info)
    ensures (exists name :: Holds(info, NAME, Str(name))) && exists digests :: Holds(info, PIECES, Str(digests))
  {
    hide Holds;
    Keys();
    Lookup(info, NAME);
    Lookup(info, PIECES);
    assert Holds(info, NAME, Str(DictGet(info, NAME).value.text));
    assert Holds(info, PIECES, Str(DictGet(info, PIECES).value.text));
  }
}
