/** bencode.c as it runs: a cursor over the input, and an output buffer that grows. */
module Bencode {
  import opened Bytes
  import opened BencodeSpec
  import opened BencodeProofs

  // ----- digit by digit -------------------------------------------------------

  /** Reducing after every digit gives the same as reducing the whole number. */
  lemma WrapStep(x: int, d: int)
    ensures Wrap64(Wrap64(x) * 10 + d) == Wrap64(10 * x + d)
  {
    var k := (x + INT64_MAX + 1) / TWO_TO_THE_64;
    var a, b := Wrap64(x) * 10 + d + INT64_MAX + 1, 10 * x + d + INT64_MAX + 1;
    assert b == a + 10 * k * TWO_TO_THE_64;
    QuotientUnique(b, TWO_TO_THE_64, a / TWO_TO_THE_64 + 10 * k, a % TWO_TO_THE_64);
  }

  lemma SizeStep(x: nat, d: nat)
    ensures (x % TWO_TO_THE_64 * 10 + d) % TWO_TO_THE_64 == (10 * x + d) % TWO_TO_THE_64
  {
    var k := x / TWO_TO_THE_64;
    var a, b := x % TWO_TO_THE_64 * 10 + d, 10 * x + d;
    assert b == a + 10 * k * TWO_TO_THE_64;
    QuotientUnique(b, TWO_TO_THE_64, a / TWO_TO_THE_64 + 10 * k, a % TWO_TO_THE_64);
  }

  lemma ValueStep(data: seq<byte>, from: nat, pos: nat)
    requires from <= pos < |data| && forall k :: from <= k <= pos ==> IsDigit(data[k])
    ensures AllDigits(data[from..pos]) && AllDigits(data[from..pos + 1])
    ensures Value(data[from..pos + 1]) == 10 * Value(data[from..pos]) + (data[pos] - CH_0)
  {
    var ds := data[from..pos + 1];
    assert ds[..|ds| - 1] == data[from..pos];
  }

  lemma IntegerCut(data: seq<byte>, start: nat)
    requires start + 1 == |data|
    ensures ParseInt(data, start) == (0, start + 1)
  {
  }

  /** What an integer with the digits data[from..e] is parsed as. */
  lemma IntegerRead(data: seq<byte>, start: nat, from: nat, e: nat)
    requires start + 1 < |data| && from == (if data[start + 1] == CH_MINUS then start + 2 else start + 1)
    requires from <= e <= |data| && (forall k :: from <= k < e ==> IsDigit(data[k])) && AllDigits(data[from..e])
    requires e < |data| ==> !IsDigit(data[e])
    ensures ParseInt(data, start) ==
            if e >= |data| || data[e] != CH_E then (0, e)
            else
              var v := Wrap64(Value(data[from..e]));
              (if data[start + 1] == CH_MINUS then Wrap64(-v) else v, e + 1)
  {
    hide Value, Wrap64, DigitsEnd;
    DigitsEndAt(data, from, e);
  }

  // ----- parsing --------------------------------------------------------------

  /** `parse_state_t`. */
  class ParseState {
    const data: seq<byte>
    var pos: nat

    ghost predicate Valid()
      reads this
    {
      pos <= |data|
    }

    constructor (data: seq<byte>)
      ensures Valid() && this.data == data && pos == 0
    {
      this.data := data;
      pos := 0;
    }

    /** `parse_integer`. */
    method ParseInteger() returns (val: int)
      requires Valid() && pos < |data| && data[pos] == CH_I
      modifies this`pos
      ensures Valid() && (val, pos) == ParseInt(data, old(pos))
    {
      hide ParseInt, Value, Wrap64, DigitsEnd;
      ghost var start := pos;
      pos := pos + 1;
      if pos >= |data| {
        IntegerCut(data, start);
        return 0;
      }
      var neg := false;
      if data[pos] == CH_MINUS {
        neg := true;
        pos := pos + 1;
      }
      ghost var from := pos;
      val := 0;
      ZeroValue(data[from..from]);
      while pos < |data| && IsDigit(data[pos])
        invariant from <= pos <= |data| && forall k :: from <= k < pos ==> IsDigit(data[k])
        invariant AllDigits(data[from..pos]) && val == Wrap64(Value(data[from..pos]))
        decreases |data| - pos
      {
        ValueStep(data, from, pos);
        WrapStep(Value(data[from..pos]), data[pos] - CH_0);
        val := Wrap64(val * 10 + (data[pos] - CH_0));
        pos := pos + 1;
      }
      IntegerRead(data, start, from, pos);
      if pos >= |data| || data[pos] != CH_E {
        return 0;
      }
      pos := pos + 1;
      val := if neg then Wrap64(-val) else val;
    }

    /** `parse_string`. */
    method ParseText() returns (s: Option<seq<byte>>)
      requires Valid()
      modifies this`pos
      ensures Valid()
      ensures s.None? <==> ParseString(data, old(pos)).None?
      ensures s.Some? ==> ParseString(data, old(pos)) == Some((s.value, pos))
    {
      hide Value;
      var slen := 0;
      ghost var from := pos;
      ZeroValue(data[from..from]);
      while pos < |data| && IsDigit(data[pos])
        invariant from <= pos <= |data| && forall k :: from <= k < pos ==> IsDigit(data[k])
        invariant AllDigits(data[from..pos]) && slen == Value(data[from..pos]) % TWO_TO_THE_64
        decreases |data| - pos
      {
        ValueStep(data, from, pos);
        SizeStep(Value(data[from..pos]), data[pos] - CH_0);
        slen := (slen * 10 + (data[pos] - CH_0)) % TWO_TO_THE_64;
        pos := pos + 1;
      }
      DigitsEndAt(data, from, pos);
      if pos >= |data| || data[pos] != CH_COLON {
        return None;
      }
      pos := pos + 1;
      if pos + slen > |data| {
        return None;
      }
      s := Some(data[pos..pos + slen]);
      pos := pos + slen;
    }

    /** `parse_list`, with the cursor on the 'l'. */
    method ParseList() returns (r: Option<Node>)
      requires Valid() && pos < |data| && data[pos] == CH_L
      modifies this`pos
      ensures Valid()
      ensures r.None? <==> ParseItems(data, old(pos) + 1).None?
      ensures r.Some? ==> r.value.List? && ParseItems(data, old(pos) + 1) == Some((r.value.items, pos))
      decreases |data| - pos, 0
    {
      hide ParseValue;
      pos := pos + 1;
      ghost var start := pos;
      var items: seq<Node> := [];
      PrependNothing(ParseItems(data, start));
      while pos < |data| && data[pos] != CH_E
        invariant start <= pos <= |data|
        invariant ParseItems(data, start) == Prepend(items, ParseItems(data, pos))
        decreases |data| - pos
      {
        ghost var at := pos;
        var child := ParseNode();
        if child.None? {
          return None;
        }
        PrependStep(items, child.value, ParseItems(data, pos));
        items := items + [child.value];
      }
      if pos >= |data| {
        return None;
      }
      pos := pos + 1;
      assert items + [] == items;
      r := Some(List(items));
    }

    /** `parse_dict`, with the cursor on the 'd'. */
    method ParseDict() returns (r: Option<Node>)
      requires Valid() && pos < |data| && data[pos] == CH_D
      modifies this`pos
      ensures Valid()
      ensures r.None? <==> ParseEntries(data, old(pos) + 1).None?
      ensures r.Some? ==> r.value.Dict? && ParseEntries(data, old(pos) + 1) == Some((r.value.entries, pos))
      decreases |data| - pos, 0
    {
      hide ParseValue, ParseString;
      pos := pos + 1;
      ghost var start := pos;
      var entries: seq<Entry> := [];
      PrependNothing(ParseEntries(data, start));
      while pos < |data| && data[pos] != CH_E
        invariant start <= pos <= |data|
        invariant ParseEntries(data, start) == Prepend(entries, ParseEntries(data, pos))
        decreases |data| - pos
      {
        var key := ParseText();
        if key.None? {
          return None;
        }
        var val := ParseNode();
        if val.None? {
          return None;
        }
        PrependStep(entries, Entry(key.value, val.value), ParseEntries(data, pos));
        entries := entries + [Entry(key.value, val.value)];
      }
      if pos >= |data| {
        return None;
      }
      pos := pos + 1;
      assert entries + [] == entries;
      r := Some(Dict(entries));
    }

    /** `parse_value`. */
    method ParseNode() returns (r: Option<Node>)
      requires Valid()
      modifies this`pos
      ensures Valid()
      ensures r.None? <==> ParseValue(data, old(pos)).None?
      ensures r.Some? ==> ParseValue(data, old(pos)) == Some((r.value, pos))
      decreases |data| - pos, 1
    {
      hide ParseInt, ParseString, ParseItems, ParseEntries;
      if pos >= |data| {
        return None;
      }
      var c := data[pos];
      if c == CH_I {
        var v := ParseInteger();
        return Some(Int(v));
      }
      if IsDigit(c) {
        var s := ParseText();
        if s.None? {
          return None;
        }
        return Some(Str(s.value));
      }
      if c == CH_L {
        r := ParseList();
      } else if c == CH_D {
        r := ParseDict();
      } else {
        r := None;
      }
    }
  }

  lemma ZeroValue(ds: seq<byte>)
    requires ds == []
    ensures AllDigits(ds) && Value(ds) == 0 && Wrap64(0) == 0
  {
  }

  /** The children read so far in front of those still to be read. */
  function Prepend<T>(done: seq<T>, rest: Option<(seq<T>, nat)>): Option<(seq<T>, nat)> {
    if rest.None? then None else Some((done + rest.value.0, rest.value.1))
  }

  lemma PrependNothing<T>(rest: Option<(seq<T>, nat)>)
    ensures Prepend([], rest) == rest
  {
    if rest.Some? {
      assert [] + rest.value.0 == rest.value.0;
    }
  }

  lemma PrependStep<T>(done: seq<T>, x: T, rest: Option<(seq<T>, nat)>)
    ensures Prepend(done + [x], rest) ==
            Prepend(done, if rest.None? then None else Some(([x] + rest.value.0, rest.value.1)))
  {
    if rest.Some? {
      assert done + [x] + rest.value.0 == done + ([x] + rest.value.0);
    }
  }

  /** `bcode_parse`. */
  method BcodeParse(data: seq<byte>) returns (r: Option<Node>)
    ensures r == Parse(data)
  {
    if data == [] {
      return None;
    }
    var st := new ParseState(data);
    r := st.ParseNode();
  }

  /** `bcode_dict_get`. */
  method BcodeDictGet(dict: Node, key: seq<byte>) returns (r: Option<Node>)
    ensures r == DictGet(dict, key)
  {
    if !dict.Dict? {
      return None;
    }
    var i := 0;
    while i < |dict.entries|
      invariant 0 <= i <= |dict.entries| && forall k :: 0 <= k < i ==> dict.entries[k].key != key
    {
      if dict.entries[i].key == key {
        return Some(dict.entries[i].value);
      }
      i := i + 1;
    }
    r := None;
  }

  // ----- encoding -------------------------------------------------------------

  /** The output buffer of bcode_encode: `buf`, `pos`, and the capacity buf.Length. */
  class OutBuffer {
    var buf: array<byte>
    var pos: nat

    ghost predicate Valid()
      reads this
    {
      pos <= buf.Length
    }

    ghost function Contents(): seq<byte>
      reads this, buf
      requires Valid()
    {
      buf[..pos]
    }

    constructor ()
      ensures Valid() && Contents() == [] && fresh(buf)
    {
      buf := new byte[0];
      pos := 0;
    }

    /** `buf_ensure`: doubles the capacity until the bytes fit with room to spare. */
    method Ensure(need: nat)
      requires Valid()
      modifies this`buf
      ensures Valid() && Contents() == old(Contents()) && pos + need < buf.Length
      ensures buf == old(buf) || fresh(buf)
    {
      if pos + need < buf.Length {
        return;
      }
      var newCap := if buf.Length != 0 then buf.Length * 2 else 256;
      while pos + need >= newCap
        invariant newCap > 0 && newCap >= buf.Length
        invariant buf == old(buf)
        decreases pos + need - newCap
      {
        newCap := newCap * 2;
      }
      var newBuf := new byte[newCap](i reads this, buf => if 0 <= i < buf.Length then buf[i] else 0);
      assert newBuf[..pos] == buf[..pos];
      buf := newBuf;
    }

    /** `buf_append`. */
    method Append(data: seq<byte>)
      requires Valid()
      modifies this, buf
      ensures Valid() && Contents() == old(Contents()) + data
      ensures buf == old(buf) || fresh(buf)
    {
      Ensure(|data|);
      var i := 0;
      while i < |data|
        invariant 0 <= i <= |data| && pos == old(pos) && pos + |data| < buf.Length
        invariant buf == old(buf) || fresh(buf)
        invariant buf[..pos + i] == old(Contents()) + data[..i]
      {
        buf[pos + i] := data[i];
        assert buf[..pos + (i + 1)] == buf[..pos + i] + [data[i]];
        i := i + 1;
      }
      pos := pos + |data|;
    }

    /** `encode_string`. */
    method EncodeText(s: seq<byte>)
      requires Valid()
      modifies this, buf
      ensures Valid() && Contents() == old(Contents()) + EncodeString(s)
      ensures buf == old(buf) || fresh(buf)
    {
      Append(Digits(|s|) + [CH_COLON]);
      Append(s);
    }

    /** `encode_int`. */
    method EncodeInteger(v: int)
      requires Valid()
      modifies this, buf
      ensures Valid() && Contents() == old(Contents()) + ([CH_I] + Signed(v) + [CH_E])
      ensures buf == old(buf) || fresh(buf)
    {
      hide Signed;
      ghost var before := Contents();
      Append([CH_I]);
      Append(Signed(v));
      Append([CH_E]);
      assert before + [CH_I] + Signed(v) + [CH_E] == before + ([CH_I] + Signed(v) + [CH_E]);
    }

    /** `bcode_encode_node`. */
    method EncodeNode(n: Node)
      requires Valid()
      modifies this, buf
      ensures Valid() && Contents() == old(Contents()) + Encode(n)
      ensures buf == old(buf) || fresh(buf)
      decreases n, 1
    {
      hide Signed, EncodeString;
      match n {
        case Str(text) => EncodeText(text);
        case Int(value) => EncodeInteger(value);
        case List(items) =>
          ghost var before := Contents();
          Append([CH_L]);
          EncodeChildren(items);
          Append([CH_E]);
          assert before + [CH_L] + EncodeItems(items) + [CH_E] == before + ([CH_L] + EncodeItems(items) + [CH_E]);
        case Dict(entries) =>
          ghost var before := Contents();
          Append([CH_D]);
          EncodeDictEntries(entries);
          Append([CH_E]);
          assert before + [CH_D] + EncodeEntries(entries) + [CH_E] == before + ([CH_D] + EncodeEntries(entries) + [CH_E]);
      }
    }

    method EncodeChildren(items: seq<Node>)
      requires Valid()
      modifies this, buf
      ensures Valid() && Contents() == old(Contents()) + EncodeItems(items)
      ensures buf == old(buf) || fresh(buf)
      decreases items, 0
    {
      hide Encode;
      var i := 0;
      ghost var before := Contents();
      assert items[0..] == items;
      while i < |items|
        invariant 0 <= i <= |items| && Valid() && (buf == old(buf) || fresh(buf))
        invariant Contents() + EncodeItems(items[i..]) == before + EncodeItems(items)
      {
        ghost var c := Contents();
        assert items[i..][1..] == items[i + 1..];
        EncodeNode(items[i]);
        assert c + (Encode(items[i]) + EncodeItems(items[i + 1..])) == Contents() + EncodeItems(items[i + 1..]);
        i := i + 1;
      }
      assert Contents() + [] == Contents();
    }

    method EncodeDictEntries(entries: seq<Entry>)
      requires Valid()
      modifies this, buf
      ensures Valid() && Contents() == old(Contents()) + EncodeEntries(entries)
      ensures buf == old(buf) || fresh(buf)
      decreases entries, 0
    {
      hide Encode, EncodeString;
      var i := 0;
      ghost var before := Contents();
      assert entries[0..] == entries;
      while i < |entries|
        invariant 0 <= i <= |entries| && Valid() && (buf == old(buf) || fresh(buf))
        invariant Contents() + EncodeEntries(entries[i..]) == before + EncodeEntries(entries)
      {
        ghost var c := Contents();
        assert entries[i..][1..] == entries[i + 1..];
        EncodeText(entries[i].key);
        EncodeNode(entries[i].value);
        assert c + (EncodeString(entries[i].key) + Encode(entries[i].value) + EncodeEntries(entries[i + 1..]))
            == Contents() + EncodeEntries(entries[i + 1..]);
        i := i + 1;
      }
      assert Contents() + [] == Contents();
    }
  }

  /** `bcode_encode`. */
  method BcodeEncode(n: Node) returns (s: seq<byte>)
    ensures s == Encode(n)
  {
    var out := new OutBuffer();
    out.EncodeNode(n);
    s := out.buf[..out.pos];
    assert [] + Encode(n) == Encode(n);
  }
}
