/** One torrent of two files, byte by byte, and what torrent_parse makes of it. */
module TorrentExample {
  import opened Bytes
  import opened BencodeSpec
  import opened BencodeProofs
  import opened Torrent
  import opened TorrentParse
  import opened TorrentFields
  import Sha1Spec

  // ----- the bytes ----------------------------------------------------------------------

  const DIGEST: seq<byte> := [1, 2, 3, 4, 5, 6, 7, 8, 9, 10, 11, 12, 13, 14, 15, 16, 17, 18, 19, 20]
  const TRACKER: seq<byte> := [104, 116, 116, 112, 58, 47, 47, 116]  // http://t
  const MIRROR: seq<byte> := [104, 116, 116, 112, 58, 47, 47, 119]  // http://w

  const PATH: seq<byte> := [112, 97, 116, 104]

  /** d6:lengthi3e4:pathl1:aee */
  const FILE_A: seq<byte> :=
    [100] + ([54, 58] + LENGTH) + [105, 51, 101] + ([52, 58] + PATH) + [108, 49, 58, 97, 101] + [101]

  /** d6:lengthi5e4:pathl1:bee */
  const FILE_B: seq<byte> :=
    [100] + ([54, 58] + LENGTH) + [105, 53, 101] + ([52, 58] + PATH) + [108, 49, 58, 98, 101] + [101]

  /** d5:filesl, the two files, e4:name1:t12:piece lengthi8e6:pieces20:, the digest, and e */
  const INFO_DICT: seq<byte> :=
    [100] + ([53, 58] + FILES) + ([108] + FILE_A + FILE_B + [101]) + ([52, 58] + NAME) + ([49, 58] + [116]) +
    ([49, 50, 58] + PIECE_LENGTH) + [105, 56, 101] + ([54, 58] + PIECES) + ([50, 48, 58] + DIGEST) + [101]

  /** d8:announce8:http://t4:info, the dictionary, 8:url-list8:http://we */
  const TORRENT: seq<byte> :=
    [100] + ([56, 58] + ANNOUNCE) + ([56, 58] + TRACKER) + ([52, 58] + INFO) + INFO_DICT +
    ([56, 58] + URL_LIST) + ([56, 58] + MIRROR) + [101]

  // ----- the tree -----------------------------------------------------------------------

  function FileNode(length: int, name: byte): Node {
    Dict([Entry(LENGTH, Int(length)), Entry(PATH, List([Str([name])]))])
  }

  function InfoNode(): Node {
    Dict([Entry(FILES, List([FileNode(3, 97), FileNode(5, 98)])), Entry(NAME, Str([116])),
          Entry(PIECE_LENGTH, Int(8)), Entry(PIECES, Str(DIGEST))])
  }

  function RootNode(): Node {
    Dict([Entry(ANNOUNCE, Str(TRACKER)), Entry(INFO, InfoNode()), Entry(URL_LIST, Str(MIRROR))])
  }

  // ----- the encoding of the tree is these bytes ------------------------------------------

  lemma TwoItems(x: Node, y: Node)
    ensures Encode(List([x, y])) == [108] + Encode(x) + Encode(y) + [101]
  {
    var items := [x, y];
    assert items[1..] == [y] && items[1..][1..] == [];
    assert EncodeItems(items[1..][1..]) == [];
    assert EncodeItems(items[1..]) == Encode(y) + [] == Encode(y);
    assert EncodeItems(items) == Encode(x) + EncodeItems(items[1..]);
  }

  lemma FirstOf(entries: seq<Entry>)
    requires entries != []
    ensures EncodeEntries(entries) ==
            EncodeString(entries[0].key) + Encode(entries[0].value) + EncodeEntries(entries[1..])
  {
  }

  lemma ThreeOf(a: Entry, b: Entry, c: Entry)
    ensures EncodeEntries([a, b, c]) ==
            EncodeString(a.key) + Encode(a.value) + EncodeString(b.key) + Encode(b.value) +
            EncodeString(c.key) + Encode(c.value)
  {
    var entries := [a, b, c];
    FirstOf(entries);
    FirstOf(entries[1..]);
    FirstOf(entries[1..][1..]);
    assert entries[1..][1..][1..] == [];
    NoEntry();
    hide Encode, EncodeString, EncodeEntries;
  }

  lemma TwoOf(a: Entry, b: Entry)
    ensures EncodeEntries([a, b]) == EncodeString(a.key) + Encode(a.value) + EncodeString(b.key) + Encode(b.value)
  {
    var entries := [a, b];
    FirstOf(entries);
    FirstOf(entries[1..]);
    assert entries[1..][1..] == [];
    NoEntry();
    hide Encode, EncodeString, EncodeEntries;
  }

  /** Brackets do not matter. */
  lemma Flat(a: seq<byte>, b: seq<byte>, c: seq<byte>, d: seq<byte>, e: seq<byte>, f: seq<byte>, g: seq<byte>, h: seq<byte>)
    ensures a + (b + c + d + e) + f == a + b + c + d + e + f
    ensures a + b + (c + d + e + f + g + h) == a + b + c + d + e + f + g + h
  {
  }

  lemma FourOf(a: Entry, b: Entry, c: Entry, d: Entry)
    ensures EncodeEntries([a, b, c, d]) ==
            EncodeString(a.key) + Encode(a.value) + EncodeString(b.key) + Encode(b.value) +
            EncodeString(c.key) + Encode(c.value) + EncodeString(d.key) + Encode(d.value)
  {
    var entries := [a, b, c, d];
    FirstOf(entries);
    assert entries[1..] == [b, c, d];
    hide Encode, EncodeString, EncodeEntries;
    ThreeOf(b, c, d);
    Flat(EncodeString(a.key), Encode(a.value), EncodeString(b.key), Encode(b.value),
         EncodeString(c.key), Encode(c.value), EncodeString(d.key), Encode(d.value));
  }

  lemma Wrapped(a: seq<byte>, b: seq<byte>, c: seq<byte>, d: seq<byte>, e: seq<byte>, f: seq<byte>, g: seq<byte>,
                h: seq<byte>)
    ensures [100] + (a + b + c + d + e + f + g + h) + [101] == [100] + a + b + c + d + e + f + g + h + [101]
  {
    var inner := a + b + c + d + e + f + g;
    assert [100] + (inner + h) == [100] + inner + h;
    assert [100] + inner == [100] + a + b + c + d + e + f + g by {
      var most := a + b + c + d;
      assert [100] + most == [100] + a + b + c + d;
      assert [100] + (most + e + f + g) == [100] + most + e + f + g;
    }
  }

  lemma DictOf(entries: seq<Entry>)
    ensures Encode(Dict(entries)) == [100] + EncodeEntries(entries) + [101]
  {
  }

  lemma NoEntry()
    ensures EncodeEntries([]) == [] && EncodeItems([]) == []
  {
  }

  lemma ShortString(s: seq<byte>)
    requires |s| < 10
    ensures EncodeString(s) == [48 + |s|, 58] + s
  {
  }

  lemma LongString(s: seq<byte>)
    requires 10 <= |s| < 100
    ensures EncodeString(s) == [48 + |s| / 10, 48 + |s| % 10, 58] + s
  {
    assert Digits(|s| / 10) == [48 + |s| / 10];
    assert Digits(|s|) == [48 + |s| / 10, 48 + |s| % 10];
  }

  lemma SmallInt(n: int)
    requires 0 <= n < 10
    ensures Encode(Int(n)) == [105, 48 + n, 101]
  {
  }

  lemma PathBytes(name: byte)
    ensures Encode(List([Str([name])])) == [108, 49, 58, name, 101]
  {
    var items := [Str([name])];
    ShortString([name]);
    assert items[1..] == [];
    NoEntry();
    assert EncodeItems(items) == Encode(items[0]) + EncodeItems(items[1..]);
  }

  lemma FileBytes(length: int, name: byte)
    requires 0 <= length < 10
    ensures Encode(FileNode(length, name)) ==
            [100] + ([54, 58] + LENGTH) + [105, 48 + length, 101] + ([52, 58] + PATH) + [108, 49, 58, name, 101] + [101]
  {
    var es := FileNode(length, name).entries;
    assert es == [es[0], es[1]];
    hide Encode, EncodeString, EncodeEntries;
    PathBytes(name);
    SmallInt(length);
    ShortString(LENGTH);
    ShortString(PATH);
    TwoOf(es[0], es[1]);
    DictOf(es);
    Flat([100], EncodeString(LENGTH), Encode(Int(length)), EncodeString(PATH), Encode(es[1].value), [101], [], []);
  }

  lemma TextBytes(s: seq<byte>)
    ensures Encode(Str(s)) == EncodeString(s)
  {
  }

  lemma FilesBytes(a: Node, b: Node)
    requires a == FileNode(3, 97) && b == FileNode(5, 98)
    ensures Encode(List([a, b])) == [108] + FILE_A + FILE_B + [101]
  {
    hide Encode, FileNode;
    FileBytes(3, 97);
    FileBytes(5, 98);
    TwoItems(a, b);
    assert Encode(a) == FILE_A && Encode(b) == FILE_B;
  }

  lemma InfoParts(files: Entry, name: Entry, length: Entry, pieces: Entry)
    requires InfoNode() == Dict([files, name, length, pieces])
    ensures EncodeString(files.key) == [53, 58] + FILES && Encode(files.value) == [108] + FILE_A + FILE_B + [101]
    ensures EncodeString(name.key) == [52, 58] + NAME && Encode(name.value) == [49, 58] + [116]
    ensures EncodeString(length.key) == [49, 50, 58] + PIECE_LENGTH && Encode(length.value) == [105, 56, 101]
    ensures EncodeString(pieces.key) == [54, 58] + PIECES && Encode(pieces.value) == [50, 48, 58] + DIGEST
  {
    hide Encode, EncodeString, EncodeEntries, FileNode;
    assert InfoNode().entries[0] == files && InfoNode().entries[1] == name;
    assert InfoNode().entries[2] == length && InfoNode().entries[3] == pieces;
    FilesBytes(FileNode(3, 97), FileNode(5, 98));
    SmallInt(8);
    ShortString(FILES);
    ShortString(NAME);
    ShortString([116]);
    ShortString(PIECES);
    LongString(PIECE_LENGTH);
    LongString(DIGEST);
    TextBytes([116]);
    TextBytes(DIGEST);
  }

  lemma InfoBytes(files: Entry, name: Entry, length: Entry, pieces: Entry)
    requires InfoNode() == Dict([files, name, length, pieces])
    ensures Encode(Dict([files, name, length, pieces])) == INFO_DICT
  {
    InfoParts(files, name, length, pieces);
    hide Encode, EncodeString, EncodeEntries, InfoNode;
    DictOf([files, name, length, pieces]);
    FourOf(files, name, length, pieces);
    Wrapped(EncodeString(files.key), Encode(files.value), EncodeString(name.key), Encode(name.value),
            EncodeString(length.key), Encode(length.value), EncodeString(pieces.key), Encode(pieces.value));
  }

  lemma RootBytes(root: Node, announce: Entry, info: Entry, urls: Entry)
    requires announce == Entry(ANNOUNCE, Str(TRACKER)) && info.key == INFO && urls == Entry(URL_LIST, Str(MIRROR))
    requires root == Dict([announce, info, urls]) && Encode(info.value) == INFO_DICT
    ensures Encode(root) == TORRENT
  {
    hide Encode, EncodeString, EncodeEntries;
    DictOf([announce, info, urls]);
    ThreeOf(announce, info, urls);
    ShortString(ANNOUNCE);
    ShortString(TRACKER);
    ShortString(INFO);
    ShortString(URL_LIST);
    ShortString(MIRROR);
    TextBytes(TRACKER);
    TextBytes(MIRROR);
  }

  lemma InfoEncoded(info: Node)
    requires info == InfoNode()
    ensures Encode(info) == INFO_DICT
  {
    hide Encode;
    var es := info.entries;
    assert info == Dict([es[0], es[1], es[2], es[3]]);
    InfoBytes(es[0], es[1], es[2], es[3]);
  }

  lemma Parsed(root: Node)
    requires root == RootNode()
    ensures Parse(TORRENT) == Some(root)
  {
    hide Encode, Parse, ParseValue, WellFormed, InfoNode;
    var es := root.entries;
    assert root == Dict([es[0], es[1], es[2]]);
    InfoEncoded(InfoNode());
    RootBytes(root, es[0], es[1], es[2]);
    RootFits();
    ParseEncode(root, []);
    assert TORRENT + [] == TORRENT;
  }

  lemma FileFits(length: int, name: byte)
    requires 0 <= length < 10
    ensures WellFormed(FileNode(length, name))
  {
    var entries := FileNode(length, name).entries;
    var path := [Str([name])];
    assert WellFormedItems(path[1..]);
    assert WellFormedItems(path);
    assert WellFormedEntries(entries[1..][1..]);
    assert WellFormedEntries(entries[1..]);
  }

  lemma RootFits()
    ensures WellFormed(RootNode())
  {
    FileFits(3, 97);
    FileFits(5, 98);
    var files := [FileNode(3, 97), FileNode(5, 98)];
    assert WellFormedItems(files[1..][1..]);
    assert WellFormedItems(files[1..]);
    var entries := InfoNode().entries;
    assert WellFormedEntries(entries[1..][1..][1..][1..]);
    assert WellFormedEntries(entries[1..][1..][1..]);
    assert WellFormedEntries(entries[1..][1..]);
    assert WellFormedEntries(entries[1..]);
    assert WellFormed(InfoNode());
    var all := RootNode().entries;
    assert WellFormedEntries(all[1..][1..][1..]);
    assert WellFormedEntries(all[1..][1..]);
    assert WellFormedEntries(all[1..]);
  }

  // ----- what it says ---------------------------------------------------------------------

  lemma Held(entries: seq<Entry>, k: nat)
    requires k < |entries| && forall l :: 0 <= l < k ==> entries[l].key != entries[k].key
    ensures Holds(Dict(entries), entries[k].key, entries[k].value)
  {
    assert FirstEntry(entries, k, entries[k].key, entries[k].value);
  }

  lemma InfoHolds()
    ensures ManyFiles(InfoNode(), [FileNode(3, 97), FileNode(5, 98)], [3, 5])
    ensures Holds(InfoNode(), NAME, Str([116])) && Holds(InfoNode(), PIECE_LENGTH, Int(8))
    ensures Holds(InfoNode(), PIECES, Str(DIGEST))
  {
    hide Holds;
    var entries := InfoNode().entries;
    Held(entries, 0);
    Held(entries, 1);
    Held(entries, 2);
    Held(entries, 3);
    Held(FileNode(3, 97).entries, 0);
    Held(FileNode(5, 98).entries, 0);
  }

  lemma RootHolds()
    ensures Holds(RootNode(), ANNOUNCE, Str(TRACKER)) && Holds(RootNode(), INFO, InfoNode())
    ensures Holds(RootNode(), URL_LIST, Str(MIRROR))
  {
    hide Holds, InfoNode;
    var entries := RootNode().entries;
    Held(entries, 0);
    Held(entries, 1);
    Held(entries, 2);
  }

  /** The record of the torrent: two files of 3 and 5 bytes in one piece of 8, one mirror
      and a tracker, under the digest of the bytes of its info dictionary. */
  lemma RecordIs()
    ensures Acceptable(InfoNode())
    ensures Record(RootNode(), InfoNode()) ==
            Metainfo(Sha1Spec.Digest(INFO_DICT), 8, DIGEST, 8, true, [3, 5], 1, true)
  {
    hide Holds, InfoNode, RootNode, Encode, Acceptable, Record, Sha1Spec.Digest;
    InfoHolds();
    RootHolds();
    InfoEncoded(InfoNode());
    var lengths := [3, 5];
    assert lengths[..1] == [3] && lengths[..1][..0] == [];
    assert Total(lengths) == 8;
    assert |DIGEST| == 20 * 1 && Covers(1, 8, 8);
    AcceptedIff(InfoNode(), [116], DIGEST, 8, lengths);
    LengthsRead(RootNode(), InfoNode());
    FieldsRead(RootNode(), InfoNode());
    WebSeedsRead(RootNode(), InfoNode());
    TrackersRead(RootNode(), InfoNode());
  }

  /** torrent_parse accepts it and returns that record. */
  method ParseTwoFiles() returns (t: Option<Metainfo>)
    ensures t == Some(Metainfo(Sha1Spec.Digest(INFO_DICT), 8, DIGEST, 8, true, [3, 5], 1, true))
  {
    hide Holds, Parse, Acceptable, Record, Encode, Sha1Spec.Digest;
    t := TorrentParseBytes(TORRENT);
    Parsed(RootNode());
    RootHolds();
    Keys();
    Lookup(RootNode(), INFO);
    RecordIs();
  }
}
