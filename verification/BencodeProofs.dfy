/** Printing then parsing is the identity and self-delimiting; re-encoding is exact
    precisely on strictly written input. */
module BencodeProofs {
  import opened Bytes
  import opened BencodeSpec

  // ----- positions ------------------------------------------------------------

  ghost predicate At(data: seq<byte>, pos: nat, s: seq<byte>) {
    pos + |s| <= |data| && data[pos..pos + |s|] == s
  }

  lemma AtConcat(data: seq<byte>, pos: nat, a: seq<byte>, b: seq<byte>)
    ensures At(data, pos, a + b) <==> At(data, pos, a) && At(data, pos + |a|, b)
  {
    if pos + |a + b| <= |data| {
      var s := data[pos..pos + |a + b|];
      assert s[..|a|] == data[pos..pos + |a|];
      assert s[|a|..] == data[pos + |a|..pos + |a| + |b|];
      assert (a + b)[..|a|] == a && (a + b)[|a|..] == b;
      assert s == s[..|a|] + s[|a|..];
    }
  }

  lemma AtOne(data: seq<byte>, pos: nat, b: byte)
    ensures At(data, pos, [b]) <==> pos < |data| && data[pos] == b
  {
    if pos < |data| {
      assert data[pos..pos + 1] == [data[pos]];
    }
  }

  lemma AtHead(data: seq<byte>, pos: nat, s: seq<byte>)
    requires At(data, pos, s) && s != []
    ensures pos < |data| && data[pos] == s[0]
  {
  }

  // ----- digits ---------------------------------------------------------------

  lemma {:induction false} DigitsCanonical(n: nat)
    ensures CanonicalDigits(Digits(n)) && Value(Digits(n)) == n
    ensures n > 0 ==> Digits(n)[0] != CH_0
  {
    if n >= 10 {
      DigitsCanonical(n / 10);
      var d := Digits(n);
      assert d[..|d| - 1] == Digits(n / 10);
    } else {
      assert Digits(n)[..0] == [];
    }
  }

  lemma {:induction false} DigitsOfValue(ds: seq<byte>)
    requires CanonicalDigits(ds)
    ensures Digits(Value(ds)) == ds
    ensures |ds| > 1 ==> Value(ds) >= 10
  {
    var init, last := ds[..|ds| - 1], ds[|ds| - 1];
    assert ds == init + [last];
    if |ds| == 1 {
      assert Value(init) == 0;
    } else {
      DigitsOfValue(init);
      if |init| == 1 {
        assert init[..0] == [];
      }
      assert Value(ds) / 10 == Value(init) && Value(ds) % 10 == last - CH_0;
    }
  }

  lemma {:induction false} DigitsEndAt(data: seq<byte>, pos: nat, e: nat)
    requires pos <= e <= |data| && (e < |data| ==> !IsDigit(data[e]))
    requires forall k :: pos <= k < e ==> IsDigit(data[k])
    ensures DigitsEnd(data, pos) == e
    decreases e - pos
  {
    if pos < e {
      DigitsEndAt(data, pos + 1, e);
    }
  }

  lemma DigitsAt(data: seq<byte>, pos: nat, n: nat, stop: byte)
    requires At(data, pos, Digits(n)) && At(data, pos + |Digits(n)|, [stop]) && !IsDigit(stop)
    ensures DigitsEnd(data, pos) == pos + |Digits(n)|
    ensures data[pos..pos + |Digits(n)|] == Digits(n)
  {
    DigitsCanonical(n);
    var e := pos + |Digits(n)|;
    AtOne(data, e, stop);
    assert forall k :: pos <= k < e ==> data[k] == data[pos..e][k - pos];
    DigitsEndAt(data, pos, e);
  }

  // ----- strings --------------------------------------------------------------

  /** An encoded string is read back by the lenient and accepted by the strict reader. */
  lemma StringAt(data: seq<byte>, pos: nat, s: seq<byte>)
    requires At(data, pos, EncodeString(s)) && |s| < TWO_TO_THE_64
    ensures pos <= |data|
    ensures ParseString(data, pos) == Some((s, pos + |EncodeString(s)|))
    ensures ScanString(data, pos) == Some(pos + |EncodeString(s)|)
    ensures pos < |data| && IsDigit(data[pos])
  {
    hide Digits, Value, DigitsEnd;
    var d := Digits(|s|);
    AtConcat(data, pos, d + [CH_COLON], s);
    AtConcat(data, pos, d, [CH_COLON]);
    DigitsCanonical(|s|);
    DigitsAt(data, pos, |s|, CH_COLON);
    AtOne(data, pos + |d|, CH_COLON);
    assert data[pos] == d[0];
  }

  /** A strictly written string is what EncodeString writes. */
  lemma StringScanned(data: seq<byte>, pos: nat)
    requires pos <= |data| && ScanString(data, pos).Some?
    ensures var e := ScanString(data, pos).value;
            && ParseString(data, pos).Some? && ParseString(data, pos).value.1 == e
            && |ParseString(data, pos).value.0| < TWO_TO_THE_64
            && data[pos..e] == EncodeString(ParseString(data, pos).value.0)
  {
    var colon := DigitsEnd(data, pos);
    DigitsOfValue(data[pos..colon]);
    var length := Value(data[pos..colon]);
    var e := colon + 1 + length;
    assert data[pos..e] == data[pos..colon] + [data[colon]] + data[colon + 1..e];
  }

  // ----- integers -------------------------------------------------------------

  lemma IntAt(data: seq<byte>, pos: nat, v: int)
    requires At(data, pos, [CH_I] + Signed(v) + [CH_E]) && -INT64_MAX - 1 <= v <= INT64_MAX
    ensures pos < |data| && data[pos] == CH_I
    ensures ParseInt(data, pos) == (v, pos + |Encode(Int(v))|)
    ensures ScanInt(data, pos) == Some(pos + |Encode(Int(v))|)
  {
    hide At, DigitsEnd, Digits, Value, Wrap64;
    AtConcat(data, pos, [CH_I] + Signed(v), [CH_E]);
    AtConcat(data, pos, [CH_I], Signed(v));
    AtOne(data, pos, CH_I);
    if v < 0 {
      NegativeAt(data, pos, -v);
    } else {
      PositiveAt(data, pos, v);
    }
  }

  lemma PositiveAt(data: seq<byte>, pos: nat, n: nat)
    requires At(data, pos + 1, Digits(n)) && At(data, pos + 1 + |Digits(n)|, [CH_E]) && n <= INT64_MAX
    ensures pos + 1 < |data|
    ensures ParseInt(data, pos) == (n, pos + 2 + |Digits(n)|)
    ensures ScanInt(data, pos) == Some(pos + 2 + |Digits(n)|)
  {
    hide DigitsEnd, Digits, Value;
    var d := Digits(n);
    DigitsCanonical(n);
    DigitsAt(data, pos + 1, n, CH_E);
    AtOne(data, pos + 1 + |d|, CH_E);
    assert data[pos + 1] == d[0] != CH_MINUS;
  }

  lemma NegativeAt(data: seq<byte>, pos: nat, n: nat)
    requires At(data, pos + 1, [CH_MINUS] + Digits(n)) && At(data, pos + 2 + |Digits(n)|, [CH_E])
    requires 0 < n <= INT64_MAX + 1
    ensures pos + 1 < |data|
    ensures ParseInt(data, pos) == (0 - n, pos + 3 + |Digits(n)|)
    ensures ScanInt(data, pos) == Some(pos + 3 + |Digits(n)|)
  {
    hide At, DigitsEnd, Digits, Value, Wrap64;
    var d := Digits(n);
    DigitsCanonical(n);
    AtConcat(data, pos + 1, [CH_MINUS], d);
    AtOne(data, pos + 1, CH_MINUS);
    DigitsAt(data, pos + 2, n, CH_E);
    AtOne(data, pos + 2 + |d|, CH_E);
    WrapNegative(n);
    assert d != [CH_0];
  }

  /** Accumulating |v| with wrap-around and negating with wrap-around gives v, even
      for the smallest 64-bit integer. */
  lemma WrapNegative(n: int)
    requires 0 <= n <= INT64_MAX + 1
    ensures Wrap64(-Wrap64(n)) == -n
  {
  }

  lemma IntScanned(data: seq<byte>, pos: nat)
    requires pos < |data| && data[pos] == CH_I && ScanInt(data, pos).Some?
    ensures var e := ScanInt(data, pos).value;
            && ParseInt(data, pos).1 == e
            && data[pos..e] == [CH_I] + Signed(ParseInt(data, pos).0) + [CH_E]
  {
    hide DigitsEnd, Digits, Value, Wrap64, CanonicalDigits;
    var neg := data[pos + 1] == CH_MINUS;
    var from := if neg then pos + 2 else pos + 1;
    var stop := DigitsEnd(data, from);
    var ds := data[from..stop];
    var n := Value(ds);
    DigitsOfValue(ds);
    ZeroDigits();
    IntBytes(data, pos, from, stop);
    if neg {
      WrapNegative(n);
    } else {
      WrapPositive(n);
    }
  }

  /** The bytes of an integer, sign included, between its two letters. */
  lemma IntBytes(data: seq<byte>, pos: nat, from: nat, stop: nat)
    requires from <= stop < |data| && (from == pos + 1 || from == pos + 2)
    ensures data[pos..stop + 1] == if from == pos + 1 then [data[pos]] + data[from..stop] + [data[stop]]
                                   else [data[pos]] + ([data[pos + 1]] + data[from..stop]) + [data[stop]]
  {
  }

  lemma ZeroDigits()
    ensures Digits(0) == [CH_0]
  {
  }

  lemma WrapPositive(n: int)
    requires 0 <= n <= INT64_MAX
    ensures Wrap64(n) == n
  {
  }

  // ----- printing then parsing ------------------------------------------------

  lemma EncodeHead(n: Node)
    ensures match n
            case Str(_) => IsDigit(Encode(n)[0])
            case Int(_) => Encode(n)[0] == CH_I
            case List(_) => Encode(n)[0] == CH_L
            case Dict(_) => Encode(n)[0] == CH_D
    ensures Encode(n)[0] != CH_E
  {
    if n.Str? {
      DigitsCanonical(|n.text|);
    }
  }

  /** Round trip: wherever an encoded tree stands in the input, the parser returns the
      tree and stops exactly behind it, and so does the strict scanner. */
  lemma {:induction false} ValueAt(data: seq<byte>, pos: nat, n: Node)
    requires WellFormed(n) && At(data, pos, Encode(n))
    ensures pos <= |data|
    ensures ParseValue(data, pos) == Some((n, pos + |Encode(n)|))
    ensures Scan(data, pos) == Some(pos + |Encode(n)|)
    decreases n, 1
  {
    hide At, ParseInt, ScanInt, ParseString, ScanString, ParseItems, ScanItems, ParseEntries, ScanEntries,
         EncodeString, EncodeItems, EncodeEntries, Signed;
    AtHead(data, pos, Encode(n));
    match n
    case Str(text) =>
      StringAt(data, pos, text);
    case Int(value) =>
      IntAt(data, pos, value);
    case List(items) =>
      AtConcat(data, pos, [CH_L] + EncodeItems(items), [CH_E]);
      AtConcat(data, pos, [CH_L], EncodeItems(items));
      AtOne(data, pos, CH_L);
      ItemsAt(data, pos + 1, items);
    case Dict(entries) =>
      AtConcat(data, pos, [CH_D] + EncodeEntries(entries), [CH_E]);
      AtConcat(data, pos, [CH_D], EncodeEntries(entries));
      AtOne(data, pos, CH_D);
      EntriesAt(data, pos + 1, entries);
  }

  lemma {:induction false} ItemsAt(data: seq<byte>, pos: nat, items: seq<Node>)
    requires WellFormedItems(items) && At(data, pos, EncodeItems(items))
    requires At(data, pos + |EncodeItems(items)|, [CH_E])
    ensures pos <= |data|
    ensures ParseItems(data, pos) == Some((items, pos + |EncodeItems(items)| + 1))
    ensures ScanItems(data, pos) == Some(pos + |EncodeItems(items)| + 1)
    decreases items, 0
  {
    hide At, Encode, ParseValue, Scan;
    AtOne(data, pos + |EncodeItems(items)|, CH_E);
    if items != [] {
      var head := Encode(items[0]);
      AtConcat(data, pos, head, EncodeItems(items[1..]));
      EncodeHead(items[0]);
      AtHead(data, pos, head);
      ValueAt(data, pos, items[0]);
      ItemsAt(data, pos + |head|, items[1..]);
      assert [items[0]] + items[1..] == items;
    }
  }

  lemma {:induction false} EntriesAt(data: seq<byte>, pos: nat, entries: seq<Entry>)
    requires WellFormedEntries(entries) && At(data, pos, EncodeEntries(entries))
    requires At(data, pos + |EncodeEntries(entries)|, [CH_E])
    ensures pos <= |data|
    ensures ParseEntries(data, pos) == Some((entries, pos + |EncodeEntries(entries)| + 1))
    ensures ScanEntries(data, pos) == Some(pos + |EncodeEntries(entries)| + 1)
    decreases entries, 0
  {
    hide At, Encode, EncodeString, ParseValue, Scan, ParseString, ScanString;
    AtOne(data, pos + |EncodeEntries(entries)|, CH_E);
    if entries != [] {
      var key, head := EncodeString(entries[0].key), Encode(entries[0].value);
      AtConcat(data, pos, key + head, EncodeEntries(entries[1..]));
      AtConcat(data, pos, key, head);
      StringAt(data, pos, entries[0].key);
      ValueAt(data, pos + |key|, entries[0].value);
      EntriesAt(data, pos + |key| + |head|, entries[1..]);
      assert [entries[0]] + entries[1..] == entries;
    }
  }

  lemma ParseEncode(n: Node, rest: seq<byte>)
    requires WellFormed(n)
    ensures Parse(Encode(n) + rest) == Some(n)
    ensures ParseValue(Encode(n) + rest, 0) == Some((n, |Encode(n)|))
  {
    var data := Encode(n) + rest;
    assert data[0..|Encode(n)|] == Encode(n);
    ValueAt(data, 0, n);
  }

  /** The encoding is self-delimiting, so in particular injective. */
  lemma EncodeInjective(m: Node, n: Node, x: seq<byte>, y: seq<byte>)
    requires WellFormed(m) && WellFormed(n) && Encode(m) + x == Encode(n) + y
    ensures m == n && x == y
  {
    ParseEncode(m, x);
    ParseEncode(n, y);
    assert (Encode(m) + x)[|Encode(m)|..] == x;
    assert (Encode(n) + y)[|Encode(n)|..] == y;
  }

  // ----- what the parser returns is well-formed -------------------------------

  lemma {:induction false} ParsedWellFormed(data: seq<byte>, pos: nat)
    requires pos <= |data| && ParseValue(data, pos).Some?
    ensures WellFormed(ParseValue(data, pos).value.0)
    decreases |data| - pos, 1
  {
    if data[pos] == CH_I {
    } else if IsDigit(data[pos]) {
    } else if data[pos] == CH_L {
      ParsedItemsWellFormed(data, pos + 1);
    } else {
      ParsedEntriesWellFormed(data, pos + 1);
    }
  }

  lemma {:induction false} ParsedItemsWellFormed(data: seq<byte>, pos: nat)
    requires pos <= |data| && ParseItems(data, pos).Some?
    ensures WellFormedItems(ParseItems(data, pos).value.0)
    decreases |data| - pos, 2
  {
    if data[pos] != CH_E {
      ParsedWellFormed(data, pos);
      var (v, e) := ParseValue(data, pos).value;
      ParsedItemsWellFormed(data, e);
      var items := ParseItems(data, pos).value.0;
      assert items[1..] == ParseItems(data, e).value.0;
    }
  }

  lemma {:induction false} ParsedEntriesWellFormed(data: seq<byte>, pos: nat)
    requires pos <= |data| && ParseEntries(data, pos).Some?
    ensures WellFormedEntries(ParseEntries(data, pos).value.0)
    decreases |data| - pos, 2
  {
    if data[pos] != CH_E {
      var at := ParseString(data, pos).value.1;
      ParsedWellFormed(data, at);
      var e := ParseValue(data, at).value.1;
      ParsedEntriesWellFormed(data, e);
      var entries := ParseEntries(data, pos).value.0;
      assert entries[1..] == ParseEntries(data, e).value.0;
    }
  }

  /** Encoding what was parsed and parsing again gives the same tree. */
  lemma ParseEncodeParse(data: seq<byte>)
    requires Parse(data).Some?
    ensures Parse(Encode(Parse(data).value)) == Parse(data)
  {
    ParsedWellFormed(data, 0);
    ParseEncode(Parse(data).value, []);
    assert Encode(Parse(data).value) + [] == Encode(Parse(data).value);
  }

  // ----- exact spans ----------------------------------------------------------

  /** On strictly written input the parser agrees with the scanner, and re-encoding
      the value reproduces its bytes. */
  lemma {:induction false} ScannedValue(data: seq<byte>, pos: nat)
    requires pos <= |data| && Scan(data, pos).Some?
    ensures var e := Scan(data, pos).value;
            && ParseValue(data, pos).Some? && ParseValue(data, pos).value.1 == e
            && Encode(ParseValue(data, pos).value.0) == data[pos..e]
    decreases |data| - pos, 1
  {
    hide ScanInt, ParseInt, ScanString, ParseString, EncodeString, Signed, ParseItems, ScanItems, EncodeItems,
         ParseEntries, ScanEntries, EncodeEntries;
    var e := Scan(data, pos).value;
    if data[pos] == CH_I {
      IntScanned(data, pos);
    } else if IsDigit(data[pos]) {
      StringScanned(data, pos);
    } else if data[pos] == CH_L {
      ScannedItems(data, pos + 1);
      assert data[pos..e] == [CH_L] + data[pos + 1..e - 1] + [data[e - 1]];
    } else {
      ScannedEntries(data, pos + 1);
      assert data[pos..e] == [CH_D] + data[pos + 1..e - 1] + [data[e - 1]];
    }
  }

  lemma {:induction false} ScannedItems(data: seq<byte>, pos: nat)
    requires pos <= |data| && ScanItems(data, pos).Some?
    ensures var e := ScanItems(data, pos).value;
            && ParseItems(data, pos).Some? && ParseItems(data, pos).value.1 == e
            && EncodeItems(ParseItems(data, pos).value.0) == data[pos..e - 1] && data[e - 1] == CH_E
    decreases |data| - pos, 2
  {
    hide Encode, ParseValue, Scan;
    if data[pos] != CH_E {
      ScannedValue(data, pos);
      var mid := Scan(data, pos).value;
      ScannedItems(data, mid);
      var e := ScanItems(data, pos).value;
      var items := ParseItems(data, pos).value.0;
      assert items[1..] == ParseItems(data, mid).value.0;
      assert data[pos..e - 1] == data[pos..mid] + data[mid..e - 1];
    }
  }

  lemma {:induction false} ScannedEntries(data: seq<byte>, pos: nat)
    requires pos <= |data| && ScanEntries(data, pos).Some?
    ensures var e := ScanEntries(data, pos).value;
            && ParseEntries(data, pos).Some? && ParseEntries(data, pos).value.1 == e
            && EncodeEntries(ParseEntries(data, pos).value.0) == data[pos..e - 1] && data[e - 1] == CH_E
    decreases |data| - pos, 2
  {
    hide Encode, EncodeString, ParseValue, Scan, ScanString, ParseString;
    if data[pos] != CH_E {
      StringScanned(data, pos);
      var at := ScanString(data, pos).value;
      ScannedValue(data, at);
      var mid := Scan(data, at).value;
      ScannedEntries(data, mid);
      var e := ScanEntries(data, pos).value;
      var entries := ParseEntries(data, pos).value.0;
      assert entries[1..] == ParseEntries(data, mid).value.0;
      assert data[pos..e - 1] == data[pos..at] + data[at..mid] + data[mid..e - 1];
    }
  }

  /** Exactly when is re-encoding exact? For a parsed value, if and only if the bytes
      it was parsed from are strictly written. */
  lemma ExactIffCanonical(data: seq<byte>, pos: nat)
    requires pos <= |data| && ParseValue(data, pos).Some?
    ensures var (n, e) := ParseValue(data, pos).value;
            Encode(n) == data[pos..e] <==> Scan(data, pos) == Some(e)
  {
    var (n, e) := ParseValue(data, pos).value;
    if Scan(data, pos) == Some(e) {
      ScannedValue(data, pos);
    }
    if Encode(n) == data[pos..e] {
      ParsedWellFormed(data, pos);
      ValueAt(data, pos, n);
    }
  }

  /** A leading zero is enough to lose the original bytes: i01e is accepted as 1 and
      comes back as i1e. */
  lemma LeadingZeroIsLost()
    ensures var data := [CH_I, 48, 49, CH_E];
            && ParseValue(data, 0) == Some((Int(1), 4))
            && Encode(Int(1)) != data
            && Scan(data, 0).None?
  {
    var data := [CH_I, 48, 49, CH_E];
    DigitsEndAt(data, 1, 3);
    var ds := data[1..3];
    assert ds == [48, 49];
    assert ds[..1] == [48] && [48][..0] == [];
    assert Value([48]) == 0;
    assert Value(ds) == 1;
    assert ParseInt(data, 0) == (1, 4);
    assert Digits(1) == [49];
    assert |Encode(Int(1))| == 3;
  }

  // ----- sub-values -----------------------------------------------------------

  /** The position of the k-th item behind a list's 'l'. */
  function ItemStart(data: seq<byte>, pos: nat, k: nat): (r: Option<nat>)
    requires pos <= |data|
    ensures r.Some? ==> pos <= r.value < |data|
    decreases k
  {
    if pos >= |data| || data[pos] == CH_E then None
    else if k == 0 then Some(pos)
    else
      var e := Scan(data, pos);
      if e.None? then None else ItemStart(data, e.value, k - 1)
  }

  /** The position of the value of the k-th entry behind a dictionary's 'd'. */
  function EntryValueStart(data: seq<byte>, pos: nat, k: nat): (r: Option<nat>)
    requires pos <= |data|
    ensures r.Some? ==> pos <= r.value <= |data|
    decreases k
  {
    if pos >= |data| || data[pos] == CH_E then None
    else
      var key := ScanString(data, pos);
      if key.None? then None
      else if k == 0 then Some(key.value)
      else
        var e := Scan(data, key.value);
        if e.None? then None else EntryValueStart(data, e.value, k - 1)
  }

  /** Where the sub-value at the end of a path of child numbers begins in the input. */
  function SubStart(data: seq<byte>, pos: nat, path: seq<nat>): (r: Option<nat>)
    requires pos <= |data|
    ensures r.Some? ==> r.value <= |data|
    decreases path
  {
    if path == [] then Some(pos)
    else if pos >= |data| then None
    else
      var child := if data[pos] == CH_L then ItemStart(data, pos + 1, path[0])
                   else if data[pos] == CH_D then EntryValueStart(data, pos + 1, path[0])
                   else None;
      if child.None? then None else SubStart(data, child.value, path[1..])
  }

  /** The sub-value of a tree at the end of a path. */
  function Sub(n: Node, path: seq<nat>): Option<Node>
    decreases path
  {
    if path == [] then Some(n)
    else if n.List? && path[0] < |n.items| then Sub(n.items[path[0]], path[1..])
    else if n.Dict? && path[0] < |n.entries| then Sub(n.entries[path[0]].value, path[1..])
    else None
  }

  lemma {:induction false} ItemStartIs(data: seq<byte>, pos: nat, k: nat)
    requires pos <= |data| && ScanItems(data, pos).Some? && ParseItems(data, pos).Some?
    requires k < |ParseItems(data, pos).value.0|
    ensures var s := ItemStart(data, pos, k);
            && s.Some? && Scan(data, s.value).Some? && ParseValue(data, s.value).Some?
            && ParseValue(data, s.value).value.0 == ParseItems(data, pos).value.0[k]
    decreases k
  {
    hide ParseValue, Scan, Encode;
    ScannedValue(data, pos);
    if k > 0 {
      var mid := Scan(data, pos).value;
      ItemStartIs(data, mid, k - 1);
    }
  }

  lemma {:induction false} EntryStartIs(data: seq<byte>, pos: nat, k: nat)
    requires pos <= |data| && ScanEntries(data, pos).Some? && ParseEntries(data, pos).Some?
    requires k < |ParseEntries(data, pos).value.0|
    ensures var s := EntryValueStart(data, pos, k);
            && s.Some? && Scan(data, s.value).Some? && ParseValue(data, s.value).Some?
            && ParseValue(data, s.value).value.0 == ParseEntries(data, pos).value.0[k].value
    decreases k
  {
    hide ParseString, ScanString, EncodeString, ParseValue, Scan, Encode;
    StringScanned(data, pos);
    var at := ScanString(data, pos).value;
    ScannedValue(data, at);
    if k > 0 {
      var mid := Scan(data, at).value;
      EntryStartIs(data, mid, k - 1);
    }
  }

  /** Exact span: re-encoding any sub-value of a strictly written value gives the very
      bytes at its place in the input. */
  lemma {:induction false} SubValueSpan(data: seq<byte>, pos: nat, path: seq<nat>)
    requires pos <= |data| && Scan(data, pos).Some? && ParseValue(data, pos).Some?
    requires Sub(ParseValue(data, pos).value.0, path).Some?
    ensures var s := SubStart(data, pos, path);
            && s.Some? && Scan(data, s.value).Some?
            && data[s.value..Scan(data, s.value).value]
                 == Encode(Sub(ParseValue(data, pos).value.0, path).value)
    decreases path
  {
    ScannedValue(data, pos);
    if path != [] {
      var n := ParseValue(data, pos).value.0;
      if n.List? {
        ItemStartIs(data, pos + 1, path[0]);
        SubValueSpan(data, ItemStart(data, pos + 1, path[0]).value, path[1..]);
      } else {
        EntryStartIs(data, pos + 1, path[0]);
        SubValueSpan(data, EntryValueStart(data, pos + 1, path[0]).value, path[1..]);
      }
    }
  }
}
