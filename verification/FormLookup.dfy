/** http_get_param of http_server.c, and the lookup in a list of pairs it stands for. */
module FormLookup {
  import opened Bytes
  import opened UrlCoding

  // ----- what is looked for -----------------------------------------------------

  /** A place where the search compares the key: the front, or behind a separator. */
  predicate Candidate(query: seq<byte>, i: nat) {
    i < |query| && (if i == 0 then query[0] != CH_AMPERSAND else query[i - 1] == CH_AMPERSAND)
  }

  /** The key and an equals sign stand at i. */
  predicate KeyAt(query: seq<byte>, key: seq<byte>, i: nat) {
    i + |key| < |query| && query[i..i + |key|] == key && query[i + |key|] == CH_EQUALS
  }

  /** The key is found first at i. */
  ghost predicate FirstAt(query: seq<byte>, key: seq<byte>, i: nat) {
    && Candidate(query, i) && KeyAt(query, key, i)
    && NoneUpTo(query, key, i)
  }

  ghost predicate NoneUpTo(query: seq<byte>, key: seq<byte>, i: nat) {
    forall j: nat :: j < i && Candidate(query, j) ==> !KeyAt(query, key, j)
  }

  /** The separator at or behind i, or the end. */
  function NextAmpersand(query: seq<byte>, i: nat): (e: nat)
    requires i <= |query|
    ensures i <= e <= |query|
    ensures forall k :: i <= k < e ==> query[k] != CH_AMPERSAND
    ensures e < |query| ==> query[e] == CH_AMPERSAND
    decreases |query| - i
  {
    if i < |query| && query[i] != CH_AMPERSAND then NextAmpersand(query, i + 1) else i
  }

  /** The raw value behind the key at i, cut to what the buffer holds. */
  function RawValue(query: seq<byte>, key: seq<byte>, i: nat, room: nat): seq<byte>
    requires i + |key| < |query|
  {
    var from := i + |key| + 1;
    var e := NextAmpersand(query, from);
    query[from..if e - from < room then e else from + room]
  }

  predicate NoTerminator(s: seq<byte>) {
    forall k :: 0 <= k < |s| ==> s[k] != 0
  }

  /** What a lookup answers: whether the key is at a first place, and if so the decoded
      value behind that place. */
  ghost predicate Answers(query: seq<byte>, key: seq<byte>, room: nat, found: bool, text: seq<byte>) {
    && (found <==> exists i :: FirstAt(query, key, i))
    && (found ==> forall i :: FirstAt(query, key, i) ==> text == Decode(RawValue(query, key, i, room)))
  }

  // ----- the code -----------------------------------------------------------------

  /** `http_get_param` with a buffer of value.Length bytes. In a serialised list it finds a
      name exactly if a pair has it, and leaves that value if its coding fits. */
  method GetParam(query: seq<byte>, key: seq<byte>, value: array<byte>) returns (found: bool, ghost len: nat)
    requires NoTerminator(query) && NoTerminator(key) && value.Length > 0
    modifies value
    ensures len < value.Length && (found ==> value[len] == 0)
    ensures Answers(query, key, value.Length - 1, found, value[..len])
    ensures !found ==> value[..] == old(value[..])
    ensures AnswersSerialised(query, key, value.Length - 1, found, value[..len])
  {
    hide Decode, RawValue, NextAmpersand, Answers, AnswersSerialised;
    var p := 0;
    len := 0;
    while p < |query|
      invariant 0 <= p <= |query| && (p == 0 || p == |query| || query[p] == CH_AMPERSAND)
      invariant (p == 0 && |query| > 0 && query[0] != CH_AMPERSAND) || NoneUpTo(query, key, p + 1)
      invariant value[..] == old(value[..])
      decreases |query| - p
    {
      if query[p] == CH_AMPERSAND {
        p := p + 1;
      }
      if p >= |query| {
        break;
      }
      if p + |key| < |query| && query[p..p + |key|] == key && query[p + |key|] == CH_EQUALS {
        assert FirstAt(query, key, p);
        len := CopyValue(query, key, p, value);
        found := true;
        FoundAnswers(query, key, p, value.Length - 1, value[..len]);
        LookupInSerialised(query, key, value.Length - 1, found, value[..len]);
        return;
      }
      while p < |query| && query[p] != CH_AMPERSAND
        invariant p <= |query| && NoneUpTo(query, key, p + 1)
        invariant value[..] == old(value[..])
      {
        p := p + 1;
      }
    }
    found := false;
    NotFoundAnswers(query, key, value.Length - 1, value[..len]);
    LookupInSerialised(query, key, value.Length - 1, found, value[..len]);
  }

  method CopyValue(query: seq<byte>, key: seq<byte>, i: nat, value: array<byte>) returns (ghost len: nat)
    requires NoTerminator(query) && KeyAt(query, key, i) && value.Length > 0
    modifies value
    ensures len < value.Length && value[len] == 0
    ensures value[..len] == Decode(RawValue(query, key, i, value.Length - 1))
  {
    hide Decode;
    var p, copied := i + |key| + 1, 0;
    ghost var from, e := p, NextAmpersand(query, p);
    while p < |query| && query[p] != CH_AMPERSAND && copied < value.Length - 1
      invariant from <= p <= e && copied == p - from <= value.Length - 1
      invariant value[..copied] == query[from..p]
    {
      value[copied] := query[p];
      copied := copied + 1;
      p := p + 1;
    }
    value[copied] := 0;
    assert value[..copied] == RawValue(query, key, i, value.Length - 1);
    assert forall k :: 0 <= k < copied ==> value[k] == query[from + k];
    len := UrlDecode(value, copied);
  }

  lemma FoundAnswers(query: seq<byte>, key: seq<byte>, i: nat, room: nat, text: seq<byte>)
    requires FirstAt(query, key, i) && text == Decode(RawValue(query, key, i, room))
    ensures Answers(query, key, room, true, text)
  {
    hide Decode, RawValue, KeyAt;
    FirstIsUnique(query, key, i);
  }

  lemma NotFoundAnswers(query: seq<byte>, key: seq<byte>, room: nat, text: seq<byte>)
    requires NoneUpTo(query, key, |query|)
    ensures Answers(query, key, room, false, text)
  {
    hide Decode, RawValue, KeyAt;
  }

  lemma FirstIsUnique(query: seq<byte>, key: seq<byte>, i: nat)
    requires FirstAt(query, key, i)
    ensures forall j: nat :: FirstAt(query, key, j) ==> i == j
  {
  }

  // ----- a serialised list of pairs -------------------------------------------------

  datatype Pair = Pair(name: seq<byte>, value: seq<byte>)

  function PairText(p: Pair): (s: seq<byte>)
    ensures |s| > 0
  {
    UrlCoding.Encode(p.name, QUERY_STYLE) + [CH_EQUALS] + UrlCoding.Encode(p.value, QUERY_STYLE)
  }

  /** `name=value&name=value...`, every part percent-coded. */
  function Serialise(pairs: seq<Pair>): seq<byte> {
    if pairs == [] then []
    else PairText(pairs[0]) + if |pairs| == 1 then [] else [CH_AMPERSAND] + Serialise(pairs[1..])
  }

  function FirstValue(pairs: seq<Pair>, name: seq<byte>): Option<seq<byte>> {
    if pairs == [] then None
    else if pairs[0].name == name then Some(pairs[0].value)
    else FirstValue(pairs[1..], name)
  }

  lemma {:induction false} NextAmpersandIs(query: seq<byte>, i: nat, e: nat)
    requires i <= e <= |query| && (e < |query| ==> query[e] == CH_AMPERSAND)
    requires forall k :: i <= k < e ==> query[k] != CH_AMPERSAND
    ensures NextAmpersand(query, i) == e
  {
  }

  lemma PlainText(p: Pair)
    ensures forall k :: 0 <= k < |PairText(p)| ==> PairText(p)[k] != CH_AMPERSAND && PairText(p)[k] != 0
    ensures var n := |UrlCoding.Encode(p.name, QUERY_STYLE)|;
            n < |PairText(p)| && PairText(p)[n] == CH_EQUALS
            && forall k :: 0 <= k < n ==> PairText(p)[k] != CH_EQUALS
  {
    EncodeAlphabet(p.name, QUERY_STYLE);
    EncodeAlphabet(p.value, QUERY_STYLE);
  }

  /** At the front of a pair only its own name is found. */
  lemma KeyAtFront(p: Pair, tail: seq<byte>, name: seq<byte>)
    ensures KeyAt(PairText(p) + tail, UrlCoding.Encode(name, QUERY_STYLE), 0) <==> p.name == name
  {
    hide UrlCoding.Encode;
    var key, own := UrlCoding.Encode(name, QUERY_STYLE), UrlCoding.Encode(p.name, QUERY_STYLE);
    var query := PairText(p) + tail;
    PlainText(p);
    PlainText(Pair(name, []));
    assert query[..|own|] == own;
    assert PairText(Pair(name, []))[..|key|] == key;
    assert forall k :: 0 <= k < |PairText(p)| ==> query[k] == PairText(p)[k];
    if KeyAt(query, key, 0) {
      assert forall k :: 0 <= k < |key| ==> key[k] == query[..|key|][k] && key[k] != CH_EQUALS;
      assert |key| == |own|;
      EncodeInjective(p.name, name, QUERY_STYLE);
    }
  }

  /** `rest` stands in the query from s on, behind a separator. */
  ghost predicate Behind(query: seq<byte>, s: nat, rest: seq<byte>) {
    && 0 < s <= |query| && query[s - 1] == CH_AMPERSAND && query[s..] == rest
    && rest != [] && rest[0] != CH_AMPERSAND
  }

  lemma KeyBehind(query: seq<byte>, s: nat, rest: seq<byte>, key: seq<byte>, i: nat)
    requires Behind(query, s, rest)
    ensures Candidate(query, s + i) <==> Candidate(rest, i)
    ensures KeyAt(query, key, s + i) <==> KeyAt(rest, key, i)
  {
    if i + |key| < |rest| {
      SliceOfSlice(query, s, |query|, i, i + |key|);
    }
  }

  lemma RawValueBehind(query: seq<byte>, s: nat, rest: seq<byte>, key: seq<byte>, i: nat, room: nat)
    requires Behind(query, s, rest) && KeyAt(rest, key, i)
    ensures s + i + |key| < |query| && RawValue(query, key, s + i, room) == RawValue(rest, key, i, room)
  {
    var from := i + |key| + 1;
    var e := NextAmpersand(rest, from);
    NextAmpersandIs(query, s + from, s + e);
    var cut := if e - from < room then e else from + room;
    SliceOfSlice(query, s, |query|, from, cut);
    assert RawValue(rest, key, i, room) == rest[from..cut] == query[s + from..s + cut];
    assert RawValue(query, key, s + i, room) == query[s + from..s + cut];
  }

  /** The first `room` characters, or all if there are fewer. */
  function Cut(s: seq<byte>, room: nat): (r: seq<byte>)
    ensures |s| <= room ==> r == s
  {
    s[..if room < |s| then room else |s|]
  }

  /** The name is found first at i, and the value cut to the buffer is `raw`. */
  ghost predicate FoundWith(query: seq<byte>, key: seq<byte>, i: nat, room: nat, raw: seq<byte>) {
    FirstAt(query, key, i) && RawValue(query, key, i, room) == raw
  }

  /** The search finds exactly `first`: nothing, or a value that is cut to the buffer. */
  ghost predicate FirstFound(query: seq<byte>, key: seq<byte>, room: nat, first: Option<seq<byte>>) {
    match first
    case None => NoneUpTo(query, key, |query|)
    case Some(v) => exists i :: FoundWith(query, key, i, room, Cut(UrlCoding.Encode(v, QUERY_STYLE), room))
  }

  lemma FrontFound(p: Pair, tail: seq<byte>, room: nat)
    requires tail == [] || tail[0] == CH_AMPERSAND
    ensures FirstFound(PairText(p) + tail, UrlCoding.Encode(p.name, QUERY_STYLE), room, Some(p.value))
  {
    hide UrlCoding.Encode;
    var query, key, v := PairText(p) + tail, UrlCoding.Encode(p.name, QUERY_STYLE), UrlCoding.Encode(p.value, QUERY_STYLE);
    PlainText(p);
    KeyAtFront(p, tail, p.name);
    assert query[0] == PairText(p)[0];
    var from := |key| + 1;
    NextAmpersandIs(query, from, |PairText(p)|);
    assert query[from..|PairText(p)|] == v;
    var cut := if |v| < room then |v| else room;
    assert query[from..from + cut] == v[..cut];
    assert FoundWith(query, key, 0, room, Cut(v, room));
  }

  /** Candidates in the query are its front and those of the rest. */
  lemma NoneBehindFront(p: Pair, query: seq<byte>, s: nat, rest: seq<byte>, key: seq<byte>, i: nat)
    requires Behind(query, s, rest) && s == |PairText(p)| + 1 && query[..s] == PairText(p) + [CH_AMPERSAND]
    requires !KeyAt(query, key, 0) && NoneUpTo(rest, key, i)
    ensures NoneUpTo(query, key, s + i)
  {
    hide KeyAt;
    PlainText(p);
    forall j: nat | j < s + i && Candidate(query, j)
      ensures !KeyAt(query, key, j)
    {
      if s <= j {
        KeyBehind(query, s, rest, key, j - s);
      }
    }
  }

  /** The value of the first pair with the name is found, cut to the buffer; a name that
      no pair has is not found. */
  lemma {:induction false} LookupInPairs(pairs: seq<Pair>, name: seq<byte>, room: nat)
    ensures FirstFound(Serialise(pairs), UrlCoding.Encode(name, QUERY_STYLE), room, FirstValue(pairs, name))
    decreases |pairs|
  {
    hide PairText, UrlCoding.Encode, KeyAt, NoneUpTo, RawValue, FirstFound;
    var query, key := Serialise(pairs), UrlCoding.Encode(name, QUERY_STYLE);
    if pairs == [] {
      NoneInNothing(query, key, room);
    } else {
      var p, rest := pairs[0], Serialise(pairs[1..]);
      var tail := if |pairs| == 1 then [] else [CH_AMPERSAND] + rest;
      KeyAtFront(p, tail, name);
      if p.name == name {
        FrontFound(p, tail, room);
      } else if |pairs| == 1 {
        AloneNotFound(p, key, room);
      } else {
        LookupInPairs(pairs[1..], name, room);
        StartsPlain(pairs[1..]);
        var s := |PairText(p)| + 1;
        assert query[..s] == PairText(p) + [CH_AMPERSAND] && query[s..] == rest;
        BehindKeeps(p, query, s, rest, key, room, FirstValue(pairs[1..], name));
      }
    }
  }

  lemma NoneInNothing(query: seq<byte>, key: seq<byte>, room: nat)
    requires query == []
    ensures FirstFound(query, key, room, None)
  {
  }

  lemma StartsPlain(pairs: seq<Pair>)
    requires pairs != []
    ensures Serialise(pairs) != [] && Serialise(pairs)[0] != CH_AMPERSAND
  {
    PlainText(pairs[0]);
    assert Serialise(pairs)[0] == PairText(pairs[0])[0];
  }

  lemma AloneNotFound(p: Pair, key: seq<byte>, room: nat)
    requires !KeyAt(PairText(p) + [], key, 0)
    ensures FirstFound(PairText(p) + [], key, room, None)
  {
    PlainText(p);
    assert PairText(p) + [] == PairText(p);
  }

  lemma BehindKeeps(p: Pair, query: seq<byte>, s: nat, rest: seq<byte>, key: seq<byte>, room: nat,
                    first: Option<seq<byte>>)
    requires Behind(query, s, rest) && s == |PairText(p)| + 1 && query[..s] == PairText(p) + [CH_AMPERSAND]
    requires !KeyAt(query, key, 0)
    requires FirstFound(rest, key, room, first)
    ensures FirstFound(query, key, room, first)
  {
    hide PairText, UrlCoding.Encode, NoneUpTo, RawValue;
    match first
    case None =>
      NoneBehindFront(p, query, s, rest, key, |rest|);
    case Some(v) =>
      var raw := Cut(UrlCoding.Encode(v, QUERY_STYLE), room);
      var i :| FoundWith(rest, key, i, room, raw);
      NoneBehindFront(p, query, s, rest, key, i);
      KeyBehind(query, s, rest, key, i);
      RawValueBehind(query, s, rest, key, i, room);
      assert FoundWith(query, key, s + i, room, raw);
  }

  /** What a lookup should answer about a list of pairs. */
  ghost predicate AnswersPairs(pairs: seq<Pair>, name: seq<byte>, room: nat, found: bool, text: seq<byte>) {
    && (found <==> FirstValue(pairs, name).Some?)
    && (found ==>
          var coded := UrlCoding.Encode(FirstValue(pairs, name).value, QUERY_STYLE);
          text == if |coded| <= room then FirstValue(pairs, name).value else Decode(coded[..room]))
  }

  /** A list of pairs is text that http_get_param can be given, and so is a coded name. */
  lemma {:induction false} SerialisedIsText(pairs: seq<Pair>, name: seq<byte>)
    ensures NoTerminator(Serialise(pairs)) && NoTerminator(UrlCoding.Encode(name, QUERY_STYLE))
  {
    hide PairText, UrlCoding.Encode;
    EncodeAlphabet(name, QUERY_STYLE);
    if pairs != [] {
      PlainText(pairs[0]);
      SerialisedIsText(pairs[1..], name);
    }
  }

  /** A name of unreserved characters, as every caller looks for, is its own coding. */
  lemma {:induction false} PlainNameIsItself(name: seq<byte>)
    requires forall k :: 0 <= k < |name| ==> Unreserved(name[k])
    ensures UrlCoding.Encode(name, QUERY_STYLE) == name
  {
    if name != [] {
      PlainNameIsItself(name[1..]);
    }
  }

  /** Form lookup is the inverse of serialising: a name is found exactly if a pair has it,
      and the text is the value of the first such pair whenever the coded value fits. */
  lemma LookupReturnsFirstValue(pairs: seq<Pair>, name: seq<byte>, room: nat, found: bool, text: seq<byte>)
    requires Answers(Serialise(pairs), UrlCoding.Encode(name, QUERY_STYLE), room, found, text)
    ensures AnswersPairs(pairs, name, room, found, text)
  {
    hide PairText, UrlCoding.Encode, Decode, Serialise, RawValue;
    var query, key := Serialise(pairs), UrlCoding.Encode(name, QUERY_STYLE);
    LookupInPairs(pairs, name, room);
    if FirstValue(pairs, name).Some? {
      var v := FirstValue(pairs, name).value;
      var i :| FoundWith(query, key, i, room, Cut(UrlCoding.Encode(v, QUERY_STYLE), room));
      DecodeEncode(v, QUERY_STYLE, []);
      DecodeNothing([]);
      assert UrlCoding.Encode(v, QUERY_STYLE) + [] == UrlCoding.Encode(v, QUERY_STYLE) && v + [] == v;
    }
  }

  /** If the query is a serialised list and the key a coded name, the answer is about them. */
  ghost predicate AnswersSerialised(query: seq<byte>, key: seq<byte>, room: nat, found: bool, text: seq<byte>) {
    forall pairs, name :: query == Serialise(pairs) && key == UrlCoding.Encode(name, QUERY_STYLE) ==>
      AnswersPairs(pairs, name, room, found, text)
  }

  lemma LookupInSerialised(query: seq<byte>, key: seq<byte>, room: nat, found: bool, text: seq<byte>)
    requires Answers(query, key, room, found, text)
    ensures AnswersSerialised(query, key, room, found, text)
  {
    hide Answers, AnswersPairs;
    forall pairs, name | query == Serialise(pairs) && key == UrlCoding.Encode(name, QUERY_STYLE)
      ensures AnswersPairs(pairs, name, room, found, text)
    {
      LookupReturnsFirstValue(pairs, name, room, found, text);
    }
  }
}
