/** Bencoding: the encoder as a function, the parser of bencode.c as a function with
    all its leniencies, and the strict grammar of BEP 3. */
module BencodeSpec {
  import opened Bytes

  datatype Node =
    | Str(text: seq<byte>)
    | Int(value: int)
    | List(items: seq<Node>)
    | Dict(entries: seq<Entry>)

  datatype Entry = Entry(key: seq<byte>, value: Node)

  const CH_0: byte := 48
  const CH_9: byte := 57
  const CH_COLON: byte := 58
  const CH_MINUS: byte := 45
  const CH_D: byte := 100
  const CH_E: byte := 101
  const CH_I: byte := 105
  const CH_L: byte := 108

  // ----- encoding -------------------------------------------------------------

  /** Decimal digits without leading zeros, what "%zu" prints. */
  function Digits(n: nat): (s: seq<byte>)
    ensures |s| > 0
  {
    if n < 10 then [CH_0 + n] else Digits(n / 10) + [CH_0 + n % 10]
  }

  function EncodeString(s: seq<byte>): seq<byte> {
    Digits(|s|) + [CH_COLON] + s
  }

  /** What "%PRId64" prints. */
  function Signed(v: int): seq<byte> {
    if v < 0 then [CH_MINUS] + Digits(-v) else Digits(v)
  }

  function Encode(n: Node): (s: seq<byte>)
    ensures |s| > 0
    decreases n, 1
  {
    match n
    case Str(text) => EncodeString(text)
    case Int(value) => [CH_I] + Signed(value) + [CH_E]
    case List(items) => [CH_L] + EncodeItems(items) + [CH_E]
    case Dict(entries) => [CH_D] + EncodeEntries(entries) + [CH_E]
  }

  function EncodeItems(items: seq<Node>): seq<byte>
    decreases items, 0
  {
    if items == [] then [] else Encode(items[0]) + EncodeItems(items[1..])
  }

  function EncodeEntries(entries: seq<Entry>): seq<byte>
    decreases entries, 0
  {
    if entries == [] then []
    else EncodeString(entries[0].key) + Encode(entries[0].value) + EncodeEntries(entries[1..])
  }

  /** The trees the C types can hold: 64-bit integers, lengths that fit a size_t. */
  predicate WellFormed(n: Node)
    decreases n, 1
  {
    match n
    case Str(text) => |text| < TWO_TO_THE_64
    case Int(value) => -INT64_MAX - 1 <= value <= INT64_MAX
    case List(items) => WellFormedItems(items)
    case Dict(entries) => WellFormedEntries(entries)
  }

  predicate WellFormedItems(items: seq<Node>)
    decreases items, 0
  {
    items == [] || (WellFormed(items[0]) && WellFormedItems(items[1..]))
  }

  predicate WellFormedEntries(entries: seq<Entry>)
    decreases entries, 0
  {
    entries == [] ||
    (|entries[0].key| < TWO_TO_THE_64 && WellFormed(entries[0].value) && WellFormedEntries(entries[1..]))
  }

  // ----- the parser -----------------------------------------------------------

  predicate IsDigit(b: byte) {
    CH_0 <= b <= CH_9
  }

  /** The end of the run of digits at pos. */
  function DigitsEnd(data: seq<byte>, pos: nat): (e: nat)
    requires pos <= |data|
    ensures pos <= e <= |data|
    ensures forall k :: pos <= k < e ==> IsDigit(data[k])
    ensures e < |data| ==> !IsDigit(data[e])
    decreases |data| - pos
  {
    if pos < |data| && IsDigit(data[pos]) then DigitsEnd(data, pos + 1) else pos
  }

  predicate AllDigits(ds: seq<byte>) {
    forall k :: 0 <= k < |ds| ==> IsDigit(ds[k])
  }

  /** The number a run of digits stands for, without any bound. */
  function Value(ds: seq<byte>): nat
    requires AllDigits(ds)
  {
    if ds == [] then 0 else 10 * Value(ds[..|ds| - 1]) + (ds[|ds| - 1] - CH_0)
  }

  /** n reduced to a signed 64-bit number. */
  function Wrap64(n: int): (r: int)
    ensures -INT64_MAX - 1 <= r <= INT64_MAX
  {
    (n + INT64_MAX + 1) % TWO_TO_THE_64 - INT64_MAX - 1
  }

  /** `parse_integer` behind its 'i': the value and the new position. A malformed
      integer counts as 0 and leaves the cursor at the offending byte. */
  function ParseInt(data: seq<byte>, pos: nat): (r: (int, nat))
    requires pos < |data|
    ensures pos < r.1 <= |data|
    ensures -INT64_MAX - 1 <= r.0 <= INT64_MAX
  {
    if pos + 1 >= |data| then (0, pos + 1)
    else
      var neg := data[pos + 1] == CH_MINUS;
      var from := if neg then pos + 2 else pos + 1;
      var e := DigitsEnd(data, from);
      if e >= |data| || data[e] != CH_E then (0, e)
      else
        var v := Wrap64(Value(data[from..e]));
        (if neg then Wrap64(-v) else v, e + 1)
  }

  /** `parse_string`: the length is accumulated in a size_t and may wrap around. */
  function ParseString(data: seq<byte>, pos: nat): (r: Option<(seq<byte>, nat)>)
    requires pos <= |data|
    ensures r.Some? ==> pos < r.value.1 <= |data| && |r.value.0| < TWO_TO_THE_64
  {
    var e := DigitsEnd(data, pos);
    if e >= |data| || data[e] != CH_COLON then None
    else
      var length := Value(data[pos..e]) % TWO_TO_THE_64;
      if e + 1 + length > |data| then None else Some((data[e + 1..e + 1 + length], e + 1 + length))
  }

  /** `parse_value`. */
  function ParseValue(data: seq<byte>, pos: nat): (r: Option<(Node, nat)>)
    requires pos <= |data|
    ensures r.Some? ==> pos < r.value.1 <= |data|
    decreases |data| - pos, 1
  {
    if pos >= |data| then None
    else if data[pos] == CH_I then
      var (v, e) := ParseInt(data, pos);
      Some((Int(v), e))
    else if IsDigit(data[pos]) then
      var s := ParseString(data, pos);
      if s.None? then None else Some((Str(s.value.0), s.value.1))
    else if data[pos] == CH_L then
      var r := ParseItems(data, pos + 1);
      if r.None? then None else Some((List(r.value.0), r.value.1))
    else if data[pos] == CH_D then
      var r := ParseEntries(data, pos + 1);
      if r.None? then None else Some((Dict(r.value.0), r.value.1))
    else None
  }

  /** The items of a list up to and including its 'e'. */
  function ParseItems(data: seq<byte>, pos: nat): (r: Option<(seq<Node>, nat)>)
    requires pos <= |data|
    ensures r.Some? ==> pos < r.value.1 <= |data|
    decreases |data| - pos, 2
  {
    if pos >= |data| then None
    else if data[pos] == CH_E then Some(([], pos + 1))
    else
      var first := ParseValue(data, pos);
      if first.None? then None
      else
        var rest := ParseItems(data, first.value.1);
        if rest.None? then None else Some(([first.value.0] + rest.value.0, rest.value.1))
  }

  /** The entries of a dictionary up to and including its 'e'. */
  function ParseEntries(data: seq<byte>, pos: nat): (r: Option<(seq<Entry>, nat)>)
    requires pos <= |data|
    ensures r.Some? ==> pos < r.value.1 <= |data|
    decreases |data| - pos, 2
  {
    if pos >= |data| then None
    else if data[pos] == CH_E then Some(([], pos + 1))
    else
      var key := ParseString(data, pos);
      if key.None? then None
      else
        var first := ParseValue(data, key.value.1);
        if first.None? then None
        else
          var rest := ParseEntries(data, first.value.1);
          if rest.None? then None
          else Some(([Entry(key.value.0, first.value.0)] + rest.value.0, rest.value.1))
  }

  /** `bcode_parse`: bytes behind the first value are ignored. */
  function Parse(data: seq<byte>): Option<Node> {
    if data == [] then None
    else
      var r := ParseValue(data, 0);
      if r.None? then None else Some(r.value.0)
  }

  /** `bcode_dict_get`: the first entry with the key, or the number of entries. */
  function FindEntry(entries: seq<Entry>, key: seq<byte>): (i: nat)
    ensures i <= |entries| && (i < |entries| ==> entries[i].key == key)
    ensures forall k :: 0 <= k < i ==> entries[k].key != key
  {
    if entries == [] then 0
    else if entries[0].key == key then 0
    else 1 + FindEntry(entries[1..], key)
  }

  function DictGet(n: Node, key: seq<byte>): Option<Node> {
    if !n.Dict? || FindEntry(n.entries, key) == |n.entries| then None
    else Some(n.entries[FindEntry(n.entries, key)].value)
  }

  // ----- the strict grammar ---------------------------------------------------

  /** Digits as BEP 3 wants them: at least one, no leading zero. */
  predicate CanonicalDigits(ds: seq<byte>) {
    AllDigits(ds) && |ds| > 0 && (|ds| > 1 ==> ds[0] != CH_0)
  }

  /** The end of a strictly written integer at pos. */
  function ScanInt(data: seq<byte>, pos: nat): (r: Option<nat>)
    requires pos < |data|
    ensures r.Some? ==> pos < r.value <= |data|
  {
    if pos + 1 >= |data| then None
    else
      var neg := data[pos + 1] == CH_MINUS;
      var from := if neg then pos + 2 else pos + 1;
      var e := DigitsEnd(data, from);
      if e >= |data| || data[e] != CH_E || !CanonicalDigits(data[from..e]) then None
      else if neg && (data[from..e] == [CH_0] || Value(data[from..e]) > INT64_MAX + 1) then None
      else if !neg && Value(data[from..e]) > INT64_MAX then None
      else Some(e + 1)
  }

  /** The end of a strictly written string at pos. */
  function ScanString(data: seq<byte>, pos: nat): (r: Option<nat>)
    requires pos <= |data|
    ensures r.Some? ==> pos < r.value <= |data|
  {
    var e := DigitsEnd(data, pos);
    if e >= |data| || data[e] != CH_COLON || !CanonicalDigits(data[pos..e]) then None
    else
      var length := Value(data[pos..e]);
      if length >= TWO_TO_THE_64 || e + 1 + length > |data| then None else Some(e + 1 + length)
  }

  /** The end of a strictly written value at pos; builds no tree. */
  function Scan(data: seq<byte>, pos: nat): (r: Option<nat>)
    requires pos <= |data|
    ensures r.Some? ==> pos < r.value <= |data|
    decreases |data| - pos, 1
  {
    if pos >= |data| then None
    else if data[pos] == CH_I then ScanInt(data, pos)
    else if IsDigit(data[pos]) then ScanString(data, pos)
    else if data[pos] == CH_L then ScanItems(data, pos + 1)
    else if data[pos] == CH_D then ScanEntries(data, pos + 1)
    else None
  }

  function ScanItems(data: seq<byte>, pos: nat): (r: Option<nat>)
    requires pos <= |data|
    ensures r.Some? ==> pos < r.value <= |data|
    decreases |data| - pos, 2
  {
    if pos >= |data| then None
    else if data[pos] == CH_E then Some(pos + 1)
    else
      var first := Scan(data, pos);
      if first.None? then None else ScanItems(data, first.value)
  }

  function ScanEntries(data: seq<byte>, pos: nat): (r: Option<nat>)
    requires pos <= |data|
    ensures r.Some? ==> pos < r.value <= |data|
    decreases |data| - pos, 2
  {
    if pos >= |data| then None
    else if data[pos] == CH_E then Some(pos + 1)
    else
      var key := ScanString(data, pos);
      if key.None? then None
      else
        var first := Scan(data, key.value);
        if first.None? then None else ScanEntries(data, first.value)
  }
}
