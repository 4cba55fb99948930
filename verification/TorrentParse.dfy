/** torrent_parse of torrent.c: from the bytes of a .torrent file to a metainfo record. */
module TorrentParse {
  import opened Bytes
  import opened BencodeSpec
  import opened BencodeProofs
  import opened Bencode
  import opened Sha1Spec
  import opened Sha1
  import opened Torrent

  function Ascii(s: string): (key: seq<byte>)
    ensures |key| == |s|
  {
    seq(|s|, i requires 0 <= i < |s| => if s[i] < 128 as char then s[i] as int else 0)
  }

  /** The first entry of d with the key has the value v. */
  ghost predicate Holds(d: Node, key: seq<byte>, v: Node) {
    d.Dict? && exists k :: 0 <= k < |d.entries| && FirstEntry(d.entries, k, key, v)
  }

  ghost predicate FirstEntry(entries: seq<Entry>, k: nat, key: seq<byte>, v: Node) {
    && k < |entries| && entries[k] == Entry(key, v)
    && forall l :: 0 <= l < k ==> entries[l].key != key
  }

  ghost predicate Lacks(d: Node, key: seq<byte>) {
    d.Dict? ==> forall k :: 0 <= k < |d.entries| ==> d.entries[k].key != key
  }

  lemma Lookup(d: Node, key: seq<byte>)
    ensures forall v :: Holds(d, key, v) <==> DictGet(d, key) == Some(v)
    ensures Lacks(d, key) <==> DictGet(d, key) == None
  {
    if d.Dict? {
      var i := FindEntry(d.entries, key);
      if i < |d.entries| {
        assert FirstEntry(d.entries, i, key, d.entries[i].value);
      }
    }
  }

  lemma LengthKey()
    ensures Ascii("length") == [108, 101, 110, 103, 116, 104]
  {
  }

  /** `bcode_int_val`: zero for a missing node and for one that is no integer. */
  function IntVal(n: Option<Node>): int {
    if n.Some? && n.value.Int? then n.value.value else 0
  }

  // ----- what a record must look like ----------------------------------------

  /** A file entry that is no dictionary counts as an empty file. */
  function EntryLength(entry: Node): int {
    if entry.Dict? then IntVal(DictGet(entry, Ascii("length"))) else 0
  }

  function Lengths(entries: seq<Node>): (lengths: seq<int>)
    ensures |lengths| == |entries|
  {
    seq(|entries|, i requires 0 <= i < |entries| => EntryLength(entries[i]))
  }

  predicate IsMultiFile(info: Node) {
    var files := DictGet(info, Ascii("files"));
    files.Some? && files.value.List?
  }

  /** The output lengths an info dictionary declares. */
  function DeclaredLengths(info: Node): seq<int> {
    if IsMultiFile(info) then Lengths(DictGet(info, Ascii("files")).value.items)
    else [IntVal(DictGet(info, Ascii("length")))]
  }

  function PiecesOf(info: Node): seq<byte> {
    var p := DictGet(info, Ascii("pieces"));
    if p.Some? && p.value.Str? then p.value.text else []
  }

  function PieceLengthOf(info: Node): int {
    IntVal(DictGet(info, Ascii("piece length")))
  }

  predicate HasString(n: Node, key: seq<byte>) {
    var v := DictGet(n, key);
    v.Some? && v.value.Str?
  }

  /** An info dictionary that describes something to download, said of the whole
      dictionary at once: there is no running total in it. */
  ghost predicate Acceptable(info: Node) {
    && info.Dict?
    && HasString(info, Ascii("name")) && HasString(info, Ascii("pieces"))
    && |PiecesOf(info)| % SHA1_DIGEST_SIZE == 0
    && PieceLengthOf(info) > 0
    && |DeclaredLengths(info)| <= MAX_TORRENT_FILES
    && NonNegative(DeclaredLengths(info))
    && 0 < Sum(DeclaredLengths(info)) <= INT64_MAX
    && |PiecesOf(info)| / SHA1_DIGEST_SIZE == PieceCount(Sum(DeclaredLengths(info)), PieceLengthOf(info))
  }

  /** The number of non-empty strings among list items. */
  function NonEmptyStrings(items: seq<Node>): nat {
    if items == [] then 0
    else NonEmptyStrings(items[..|items| - 1]) +
         if items[|items| - 1].Str? && items[|items| - 1].text != [] then 1 else 0
  }

  function WebSeeds(root: Node): nat {
    var u := DictGet(root, Ascii("url-list"));
    if u.None? then 0
    else if u.value.Str? then (if u.value.text != [] then 1 else 0)
    else if u.value.List? then NonEmptyStrings(u.value.items)
    else 0
  }

  predicate HasTrackers(root: Node) {
    || HasString(root, Ascii("announce"))
    || var tiers := DictGet(root, Ascii("announce-list"));
       && tiers.Some? && tiers.value.List?
       && exists i :: 0 <= i < |tiers.value.items| && HasStringItem(tiers.value.items[i])
  }

  predicate HasStringItem(tier: Node) {
    tier.List? && exists j :: 0 <= j < |tier.items| && tier.items[j].Str?
  }

  /** The record that an acceptable dictionary stands for. */
  function Record(root: Node, info: Node): Metainfo {
    Metainfo(Digest(Encode(info)), PieceLengthOf(info), PiecesOf(info), Sum(DeclaredLengths(info)),
             IsMultiFile(info), if IsMultiFile(info) then DeclaredLengths(info) else [],
             WebSeeds(root), HasTrackers(root))
  }

  // ----- where the info dictionary stands -------------------------------------

  /** The position of the value of the k-th entry behind a dictionary's 'd', as the
      lenient parser finds it. */
  function EntryPos(data: seq<byte>, pos: nat, k: nat): (p: nat)
    requires pos <= |data| && ParseEntries(data, pos).Some? && k < |ParseEntries(data, pos).value.0|
    ensures p <= |data| && ParseValue(data, p).Some?
    ensures ParseValue(data, p).value.0 == ParseEntries(data, pos).value.0[k].value
    decreases k
  {
    var key := ParseString(data, pos).value.1;
    if k == 0 then key else EntryPos(data, ParseValue(data, key).value.1, k - 1)
  }

  /** The bytes of the input that the info dictionary was parsed from. */
  function InfoSpan(data: seq<byte>): (span: (nat, nat))
    requires Parse(data).Some? && DictGet(Parse(data).value, Ascii("info")).Some?
    ensures span.0 < span.1 <= |data|
    ensures ParseValue(data, span.0) == Some((DictGet(Parse(data).value, Ascii("info")).value, span.1))
  {
    var root := Parse(data).value;
    var p := EntryPos(data, 1, FindEntry(root.entries, Ascii("info")));
    (p, ParseValue(data, p).value.1)
  }

  /** The hashed bytes are the original ones exactly when the info dictionary itself is
      strictly written; how the rest of the file is written does not matter. */
  lemma InfoHashIsOfOriginalBytes(data: seq<byte>)
    requires Parse(data).Some? && DictGet(Parse(data).value, Ascii("info")).Some?
    ensures var info := DictGet(Parse(data).value, Ascii("info")).value;
            var (s, e) := InfoSpan(data);
            Encode(info) == data[s..e] <==> Scan(data, s) == Some(e)
  {
    ExactIffCanonical(data, InfoSpan(data).0);
  }

  /** A strictly written file in particular hashes its info dictionary as it stands. */
  lemma StrictFileHashesOriginal(data: seq<byte>)
    requires data != [] && Scan(data, 0).Some? && Parse(data).Some?
    requires DictGet(Parse(data).value, Ascii("info")).Some?
    ensures var (s, e) := InfoSpan(data);
            Scan(data, s) == Some(e) && Encode(DictGet(Parse(data).value, Ascii("info")).value) == data[s..e]
  {
    var root := Parse(data).value;
    var k := FindEntry(root.entries, Ascii("info"));
    EntryPosIsScanned(data, 1, k);
    ScannedValue(data, InfoSpan(data).0);
  }

  lemma {:induction false} EntryPosIsScanned(data: seq<byte>, pos: nat, k: nat)
    requires pos <= |data| && ScanEntries(data, pos).Some?
    requires ParseEntries(data, pos).Some? && k < |ParseEntries(data, pos).value.0|
    ensures Scan(data, EntryPos(data, pos, k)).Some?
    decreases k
  {
    hide ParseString, ScanString, EncodeString, ParseValue, Scan, Encode;
    StringScanned(data, pos);
    var at := ScanString(data, pos).value;
    ScannedValue(data, at);
    if k > 0 {
      EntryPosIsScanned(data, Scan(data, at).value, k - 1);
    }
  }

  // ----- what is accepted -----------------------------------------------------

  lemma {:induction false} WellFormedAt(entries: seq<Entry>, i: nat)
    requires WellFormedEntries(entries) && i < |entries|
    ensures WellFormed(entries[i].value)
  {
    if i > 0 {
      WellFormedAt(entries[1..], i - 1);
    }
  }

  lemma IntValBounded(n: Node, key: seq<byte>)
    requires WellFormed(n)
    ensures -INT64_MAX - 1 <= IntVal(DictGet(n, key)) <= INT64_MAX
  {
    if n.Dict? && FindEntry(n.entries, key) < |n.entries| {
      WellFormedAt(n.entries, FindEntry(n.entries, key));
    }
  }

  /** Every record that torrent_parse can return is one the engine may rely on. */
  lemma RecordAccepted(root: Node, info: Node)
    requires WellFormed(info) && Acceptable(info)
    ensures Record(root, info).Accepted()
  {
    IntValBounded(info, Ascii("piece length"));
    var xs := DeclaredLengths(info);
    if !IsMultiFile(info) {
      assert xs[1..] == [];
      assert Sum(xs) == xs[0];
      assert Record(root, info).OutputLengths() == xs;
    }
  }

  // ----- a file that is not hashed as it stands ---------------------------------

  /** The entries behind the length: the name "a", pieces of one byte, one digest. */
  function LooseRest(): seq<Entry> {
    [Entry(Ascii("name"), Str([97])), Entry(Ascii("piece length"), Int(1)), Entry(Ascii("pieces"), Str(Zeros(20)))]
  }

  /** The tree of an info dictionary of one byte in one piece. */
  function LooseInfo(): Node {
    Dict([Entry(Ascii("length"), Int(1))] + LooseRest())
  }

  /** The same dictionary as bytes, the length written as i01e. */
  function LooseInfoBytes(): seq<byte> {
    [CH_D] + EncodeString(Ascii("length")) + [CH_I, 48, 49, CH_E] + EncodeEntries(LooseRest()) + [CH_E]
  }

  function LooseFile(): seq<byte> {
    [CH_D] + EncodeString(Ascii("info")) + LooseInfoBytes() + [CH_E]
  }

  lemma EntryStep(data: seq<byte>, pos: nat, key: seq<byte>, v: Node, next: nat, rest: seq<Entry>, e: nat)
    requires At(data, pos, EncodeString(key)) && |key| < TWO_TO_THE_64
    requires ParseValue(data, pos + |EncodeString(key)|) == Some((v, next)) && next <= |data|
    requires ParseEntries(data, next) == Some((rest, e))
    ensures pos <= |data| && ParseEntries(data, pos) == Some(([Entry(key, v)] + rest, e))
  {
    hide ParseValue, ParseString, ScanString, EncodeString;
    StringAt(data, pos, key);
  }

  lemma LooseInt(data: seq<byte>, p: nat)
    requires At(data, p, [CH_I, 48, 49, CH_E])
    ensures p <= |data| && ParseValue(data, p) == Some((Int(1), p + 4))
  {
    var four := data[p..p + 4];
    assert four[0] == data[p] && four[1] == data[p + 1] && four[2] == data[p + 2] && four[3] == data[p + 3];
    DigitsEndAt(data, p + 1, p + 3);
    var ds := data[p + 1..p + 3];
    assert ds == [48, 49] && ds[..1] == [48] && [48][..0] == [];
    assert Value([48]) == 0;
    assert Value(ds) == 1;
    assert ParseInt(data, p) == (1, p + 4);
  }

  lemma LooseRestFits()
    ensures WellFormedEntries(LooseRest())
  {
    hide Ascii;
    var rest := LooseRest();
    assert rest[1..] == [rest[1], rest[2]];
    assert rest[1..][1..] == [rest[2]];
    assert rest[1..][1..][1..] == [];
    assert WellFormedEntries([]);
    assert WellFormedEntries(rest[1..][1..]);
    assert WellFormedEntries(rest[1..]);
  }

  lemma LooseInfoParses(data: seq<byte>, p: nat)
    requires At(data, p, LooseInfoBytes())
    ensures p <= |data| && ParseValue(data, p) == Some((LooseInfo(), p + |LooseInfoBytes()|))
  {
    hide At, EncodeString, EncodeEntries, WellFormedEntries, ParseEntries, ParseInt, ParseString, LooseRest, Ascii;
    var key, rest := EncodeString(Ascii("length")), EncodeEntries(LooseRest());
    var number := [CH_I, 48, 49, CH_E];
    AtConcat(data, p, [CH_D] + key + number + rest, [CH_E]);
    AtConcat(data, p, [CH_D] + key + number, rest);
    AtConcat(data, p, [CH_D] + key, number);
    AtConcat(data, p, [CH_D], key);
    AtOne(data, p, CH_D);
    LooseRestFits();
    EntriesAt(data, p + 1 + |key| + 4, LooseRest());
    LooseInt(data, p + 1 + |key|);
    EntryStep(data, p + 1, Ascii("length"), Int(1), p + 1 + |key| + 4, LooseRest(), p + |LooseInfoBytes()|);
  }

  lemma LooseFileParses()
    ensures Parse(LooseFile()) == Some(Dict([Entry(Ascii("info"), LooseInfo())]))
    ensures ParseString(LooseFile(), 1).Some?
    ensures ParseString(LooseFile(), 1).value.1 == 1 + |EncodeString(Ascii("info"))| <= |LooseFile()|
    ensures ParseValue(LooseFile(), 1 + |EncodeString(Ascii("info"))|)
         == Some((LooseInfo(), 1 + |EncodeString(Ascii("info"))| + |LooseInfoBytes()|))
  {
    hide At, EncodeString, LooseInfo, LooseInfoBytes, Ascii, ParseString, ScanString, ParseInt;
    var data, key, info := LooseFile(), EncodeString(Ascii("info")), LooseInfoBytes();
    FullyAt(data);
    AtConcat(data, 0, [CH_D] + key + info, [CH_E]);
    AtConcat(data, 0, [CH_D] + key, info);
    AtConcat(data, 0, [CH_D], key);
    AtOne(data, 0, CH_D);
    var end := 1 + |key| + |info|;
    AtOne(data, end, CH_E);
    LooseInfoParses(data, 1 + |key|);
    StringAt(data, 1, Ascii("info"));
    assert ParseEntries(data, end) == Some(([], end + 1));
    EntryStep(data, 1, Ascii("info"), LooseInfo(), end, [], end + 1);
    assert [Entry(Ascii("info"), LooseInfo())] + [] == [Entry(Ascii("info"), LooseInfo())];
    assert ParseValue(data, 0) == Some((Dict([Entry(Ascii("info"), LooseInfo())]), end + 1));
  }

  lemma LooseSpan()
    ensures Parse(LooseFile()).Some? && DictGet(Parse(LooseFile()).value, Ascii("info")) == Some(LooseInfo())
    ensures var at := 1 + |EncodeString(Ascii("info"))|;
            InfoSpan(LooseFile()) == (at, at + |LooseInfoBytes()|)
  {
    hide EncodeString, LooseInfo, LooseInfoBytes, LooseFile, Ascii, ParseString, ParseValue, Parse;
    LooseFileParses();
  }

  lemma FullyAt(data: seq<byte>)
    ensures At(data, 0, data)
  {
  }

  lemma {:induction false} FindIs(entries: seq<Entry>, key: seq<byte>, i: nat)
    requires i <= |entries| && (i < |entries| ==> entries[i].key == key)
    requires forall k :: 0 <= k < i ==> entries[k].key != key
    ensures FindEntry(entries, key) == i
  {
  }

  lemma LooseInfoAcceptable()
    ensures Acceptable(LooseInfo())
  {
    hide FindEntry;
    var info := LooseInfo();
    var entries := info.entries;
    assert Ascii("length")[0] != Ascii("pieces")[0];
    FindIs(entries, Ascii("length"), 0);
    FindIs(entries, Ascii("name"), 1);
    FindIs(entries, Ascii("piece length"), 2);
    FindIs(entries, Ascii("pieces"), 3);
    FindIs(entries, Ascii("files"), 4);
    OneLength(1);
    assert DeclaredLengths(info) == [1];
  }

  /** torrent_parse accepts a file whose info dictionary is re-encoded one byte shorter
      than it stands in the file, so that other bytes are hashed than those of the file. */
  lemma LooseFileHashesOtherBytes()
    ensures var data := LooseFile();
            && Parse(data).Some? && DictGet(Parse(data).value, Ascii("info")).Some?
            && Acceptable(DictGet(Parse(data).value, Ascii("info")).value)
            && var info := DictGet(Parse(data).value, Ascii("info")).value;
               var (s, e) := InfoSpan(data);
               && |Encode(info)| == e - s - 1
               && Encode(info) != data[s..e]
               && Scan(data, s) != Some(e)
  {
    hide LooseInfo, LooseInfoBytes, LooseFile, Ascii, Acceptable, Parse, DictGet, InfoSpan, Encode;
    LooseSpan();
    LooseInfoAcceptable();
    LooseInfoLength();
    InfoHashIsOfOriginalBytes(LooseFile());
  }

  lemma LooseInfoLength()
    ensures |Encode(LooseInfo())| == |LooseInfoBytes()| - 1
  {
    hide EncodeString, LooseRest, Ascii;
    var entries := LooseInfo().entries;
    assert entries[1..] == LooseRest();
    assert Digits(1) == [49];
    assert |Encode(Int(1))| == 3;
  }

  // ----- the loops ------------------------------------------------------------

  /** The loop over the file entries, with its check against overflow. */
  method FileLengths(entries: seq<Node>) returns (lengths: Option<seq<int>>, total: int)
    ensures lengths.Some? <==> NonNegative(Lengths(entries)) && Sum(Lengths(entries)) <= INT64_MAX
    ensures lengths.Some? ==> lengths.value == Lengths(entries) && total == Sum(Lengths(entries))
    ensures lengths.Some? ==>
              forall i, n :: 0 <= i < |entries| && Holds(entries[i], [108, 101, 110, 103, 116, 104], Int(n)) ==>
                lengths.value[i] == n
  {
    EntryLengths(entries);
    total := 0;
    var read: seq<int> := [];
    var i := 0;
    ghost var all := Lengths(entries);
    while i < |entries|
      invariant 0 <= i <= |entries| && read == all[..i]
      invariant NonNegative(read) && 0 <= total == Sum(read) <= INT64_MAX
    {
      var length := 0;
      if entries[i].Dict? {
        var node := BcodeDictGet(entries[i], Ascii("length"));
        length := IntVal(node);
      }
      assert length == all[i];
      TotalSplit(all, i);
      if length < 0 || length > INT64_MAX - total {
        return None, total;
      }
      assert all[..i + 1] == read + [length];
      total := total + length;
      read := read + [length];
      i := i + 1;
    }
    assert all[..i] == all;
    lengths := Some(read);
  }

  lemma EntryLengths(entries: seq<Node>)
    ensures forall i, n :: 0 <= i < |entries| && Holds(entries[i], [108, 101, 110, 103, 116, 104], Int(n)) ==>
              Lengths(entries)[i] == n
  {
    LengthKey();
    forall i, n | 0 <= i < |entries| && Holds(entries[i], [108, 101, 110, 103, 116, 104], Int(n))
      ensures Lengths(entries)[i] == n
    {
      Lookup(entries[i], [108, 101, 110, 103, 116, 104]);
    }
  }

  /** A running total beyond the range stays beyond it. */
  lemma TotalSplit(all: seq<int>, i: nat)
    requires i < |all|
    ensures Sum(all[..i + 1]) == Sum(all[..i]) + all[i]
    ensures NonNegative(all) ==> Sum(all[..i]) + all[i] <= Sum(all)
  {
    assert all[..i + 1] == all[..i] + [all[i]];
    SumAppend(all[..i], [all[i]]);
    assert Sum([all[i]]) == all[i] + Sum([all[i]][1..]);
    assert all == all[..i + 1] + all[i + 1..];
    SumAppend(all[..i + 1], all[i + 1..]);
    if NonNegative(all) {
      SumNonNegative(all[i + 1..]);
    }
  }

  /** The `url-list` part. */
  method CountWebSeeds(root: Node) returns (n: nat)
    ensures n == WebSeeds(root)
  {
    n := 0;
    var urls := BcodeDictGet(root, Ascii("url-list"));
    if urls.None? {
      return;
    }
    if urls.value.Str? {
      n := if |urls.value.text| > 0 then 1 else 0;
    } else if urls.value.List? {
      var items := urls.value.items;
      var i := 0;
      while i < |items|
        invariant 0 <= i <= |items| && n == NonEmptyStrings(items[..i])
      {
        assert items[..i + 1][..i] == items[..i];
        if items[i].Str? && |items[i].text| > 0 {
          n := n + 1;
        }
        i := i + 1;
      }
      assert items[..i] == items;
    }
  }

  /** The `announce` and `announce-list` part: how many addresses were kept. */
  method CountTrackers(root: Node) returns (n: nat)
    ensures n > 0 <==> HasTrackers(root)
  {
    n := 0;
    var announce := BcodeDictGet(root, Ascii("announce"));
    if announce.Some? && announce.value.Str? {
      n := 1;
    }
    var tiers := BcodeDictGet(root, Ascii("announce-list"));
    if tiers.None? || !tiers.value.List? {
      return;
    }
    var items := tiers.value.items;
    var i := 0;
    while i < |items|
      invariant 0 <= i <= |items|
      invariant n > 0 <==> HasString(root, Ascii("announce")) || exists k :: 0 <= k < i && HasStringItem(items[k])
    {
      if items[i].List? {
        var j := 0;
        ghost var before := n;
        while j < |items[i].items|
          invariant 0 <= j <= |items[i].items| && before <= n
          invariant n > before <==> exists k :: 0 <= k < j && items[i].items[k].Str?
        {
          if items[i].items[j].Str? {
            n := n + 1;
          }
          j := j + 1;
        }
        assert n > before <==> HasStringItem(items[i]);
      }
      i := i + 1;
    }
  }

  /** `torrent_parse`. It accepts exactly the files whose info dictionary is acceptable,
      and hashes the original bytes of that dictionary if they are strictly written. */
  method TorrentParseBytes(data: seq<byte>) returns (t: Option<Metainfo>)
    ensures t.Some? <==>
            && Parse(data).Some? && DictGet(Parse(data).value, Ascii("info")).Some?
            && Acceptable(DictGet(Parse(data).value, Ascii("info")).value)
    ensures t.Some? ==>
              var root := Parse(data).value;
              var (s, e) := InfoSpan(data);
              && t.value == Record(root, DictGet(root, Ascii("info")).value)
              && t.value.Accepted()
              && (Scan(data, s) == Some(e) ==> t.value.infoHash == Digest(data[s..e]))
  {
    hide Parse, Digest, Encode, DictGet;
    var root := BcodeParse(data);
    if root.None? || !root.value.Dict? {
      NoEntries(data);
      return None;
    }
    var trackers := CountTrackers(root.value);
    var webSeeds := CountWebSeeds(root.value);
    var info := BcodeDictGet(root.value, Ascii("info"));
    if info.None? || !info.value.Dict? {
      return None;
    }
    InfoWellFormed(data);
    t := ParseInfo(root.value, info.value, trackers > 0, webSeeds);
    if t.Some? {
      RecordAccepted(root.value, info.value);
      InfoHashIsOfOriginalBytes(data);
    }
  }

  lemma NoEntries(data: seq<byte>)
    ensures Parse(data).Some? && !Parse(data).value.Dict? ==> DictGet(Parse(data).value, Ascii("info")).None?
  {
  }

  lemma InfoWellFormed(data: seq<byte>)
    requires Parse(data).Some? && DictGet(Parse(data).value, Ascii("info")).Some?
    ensures WellFormed(DictGet(Parse(data).value, Ascii("info")).value)
  {
    ParsedWellFormed(data, InfoSpan(data).0);
  }

  /** The part of torrent_parse behind the lookup of the info dictionary. */
  method ParseInfo(root: Node, info: Node, hasTrackers: bool, webSeeds: nat) returns (t: Option<Metainfo>)
    requires WellFormed(info) && info.Dict? && hasTrackers == HasTrackers(root) && webSeeds == WebSeeds(root)
    ensures t.Some? <==> Acceptable(info)
    ensures t.Some? ==> t.value == Record(root, info)
  {
    hide Digest, Encode, DictGet;
    var raw := BcodeEncode(info);
    var infoHash := Sha1Hash(raw);
    var name := BcodeDictGet(info, Ascii("name"));
    var pl := BcodeDictGet(info, Ascii("piece length"));
    var pieceLength := IntVal(pl);
    var piecesNode := BcodeDictGet(info, Ascii("pieces"));
    var hasPieces, pieces := false, [];
    if piecesNode.Some? && piecesNode.value.Str? {
      hasPieces, pieces := true, piecesNode.value.text;
    }
    var files := BcodeDictGet(info, Ascii("files"));
    var multiFile, fileLengths, totalSize := false, [], 0;
    if files.Some? && files.value.List? {
      multiFile := true;
      if |files.value.items| > MAX_TORRENT_FILES {
        return None;
      }
      var lengths, total := FileLengths(files.value.items);
      if lengths.None? {
        return None;
      }
      fileLengths, totalSize := lengths.value, total;
    } else {
      var length := BcodeDictGet(info, Ascii("length"));
      totalSize := IntVal(length);
      OneLength(totalSize);
      IntValBounded(info, Ascii("length"));
    }
    if name.None? || !name.value.Str? || !hasPieces || pieceLength <= 0 || totalSize <= 0 ||
       |pieces| % SHA1_DIGEST_SIZE != 0 ||
       |pieces| / SHA1_DIGEST_SIZE !=
         totalSize / pieceLength + (if totalSize % pieceLength != 0 then 1 else 0)
    {
      return None;
    }
    t := Some(Metainfo(infoHash, pieceLength, pieces, totalSize, multiFile, fileLengths, webSeeds, hasTrackers));
  }

  lemma OneLength(n: int)
    ensures Sum([n]) == n && (NonNegative([n]) <==> n >= 0)
  {
    assert [n][1..] == [];
    assert [n][0] == n;
  }
}
