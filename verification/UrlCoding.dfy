/** Percent coding: the encoders of net_utils.c and web_seed.c, the in-place decoder of
    http_server.c, and the lookup of a form value. */
module UrlCoding {
  import opened Bytes

  const CH_PERCENT: byte := 37
  const CH_AMPERSAND: byte := 38
  const CH_PLUS: byte := 43
  const CH_MINUS: byte := 45
  const CH_SLASH: byte := 47
  const CH_EQUALS: byte := 61
  const CH_SPACE: byte := 32

  /** The two encoders differ in the case of their hexadecimal digits and in whether
      they leave a slash alone. */
  datatype Style = Style(upper: bool, keepSlash: bool)

  const QUERY_STYLE := Style(false, false)
  const PATH_STYLE := Style(true, true)

  // ----- the coding as functions -----------------------------------------------

  /** Section 2.3 of RFC 3986. */
  predicate Unreserved(c: byte) {
    48 <= c <= 57 || 65 <= c <= 90 || 97 <= c <= 122 || c == 45 || c == 46 || c == 95 || c == 126
  }

  function HexChar(n: nat, upper: bool): byte
    requires n < 16
  {
    if n < 10 then 48 + n else if upper then 55 + n else 87 + n
  }

  function EncodeByte(c: byte, style: Style): (s: seq<byte>)
    ensures |s| == 1 || |s| == 3
  {
    if Unreserved(c) || (style.keepSlash && c == CH_SLASH) then [c]
    else [CH_PERCENT, HexChar(c / 16, style.upper), HexChar(c % 16, style.upper)]
  }

  function Encode(b: seq<byte>, style: Style): (s: seq<byte>)
    ensures |b| <= |s| <= 3 * |b|
  {
    if b == [] then [] else EncodeByte(b[0], style) + Encode(b[1..], style)
  }

  function HexDigit(c: byte): Option<nat> {
    if 48 <= c <= 57 then Some(c - 48)
    else if 65 <= c <= 70 then Some(c - 55)
    else if 97 <= c <= 102 then Some(c - 87)
    else None
  }

  predicate IsSpace(c: byte) {
    c == CH_SPACE || 9 <= c <= 13
  }

  /** `(char)strtol(hex, NULL, 16)` on two characters: leading space and one sign are
      skipped, and what is no number counts as zero. */
  function HexPair(a: byte, b: byte): byte {
    if HexDigit(a).Some? then
      if HexDigit(b).Some? then 16 * HexDigit(a).value + HexDigit(b).value else HexDigit(a).value
    else if HexDigit(b).None? then 0
    else if IsSpace(a) || a == CH_PLUS then HexDigit(b).value
    else if a == CH_MINUS then (256 - HexDigit(b).value) % 256
    else 0
  }

  /** The next character http_url_decode writes, and how many it reads for it. */
  function DecodeFirst(s: seq<byte>): (r: (byte, nat))
    requires s != []
    ensures 1 <= r.1 <= |s|
  {
    if s[0] == CH_PERCENT && |s| >= 3 then (HexPair(s[1], s[2]), 3)
    else (if s[0] == CH_PLUS then CH_SPACE else s[0], 1)
  }

  /** What http_url_decode makes of the characters before the terminator. */
  function Decode(s: seq<byte>): (d: seq<byte>)
    ensures |d| <= |s|
  {
    if s == [] then [] else [DecodeFirst(s).0] + Decode(s[DecodeFirst(s).1..])
  }

  // ----- round trips ------------------------------------------------------------

  lemma HexRoundTrip(c: byte, upper: bool)
    ensures HexPair(HexChar(c / 16, upper), HexChar(c % 16, upper)) == c
  {
  }

  lemma DecodeOne(c: byte, style: Style, tail: seq<byte>)
    ensures Decode(EncodeByte(c, style) + tail) == [c] + Decode(tail)
  {
    hide HexPair, HexChar;
    HexRoundTrip(c, style.upper);
    var s := EncodeByte(c, style) + tail;
    assert s[|EncodeByte(c, style)|..] == tail;
  }

  /** Decoding undoes either encoder, whatever follows. */
  lemma {:induction false} DecodeEncode(b: seq<byte>, style: Style, rest: seq<byte>)
    ensures Decode(Encode(b, style) + rest) == b + Decode(rest)
  {
    hide Decode, EncodeByte;
    if b == [] {
      assert [] + rest == rest && [] + Decode(rest) == Decode(rest);
    } else {
      var c, tail := EncodeByte(b[0], style), Encode(b[1..], style);
      DecodeEncode(b[1..], style, rest);
      DecodeOne(b[0], style, tail + rest);
      assert Encode(b, style) + rest == c + (tail + rest);
      assert [b[0]] + (b[1..] + Decode(rest)) == b + Decode(rest);
    }
  }

  lemma EncodeInjective(a: seq<byte>, b: seq<byte>, style: Style)
    requires Encode(a, style) == Encode(b, style)
    ensures a == b
  {
    DecodeEncode(a, style, []);
    DecodeEncode(b, style, []);
    assert Encode(a, style) + [] == Encode(a, style) && Encode(b, style) + [] == Encode(b, style);
    assert a + [] == a && b + [] == b;
  }

  /** An encoder writes nothing but unreserved characters, percent signs and, if told so,
      slashes; in particular no terminator and no separator. */
  lemma {:induction false} EncodeAlphabet(b: seq<byte>, style: Style)
    ensures forall k :: 0 <= k < |Encode(b, style)| ==>
              var c := Encode(b, style)[k];
              Unreserved(c) || c == CH_PERCENT || (style.keepSlash && c == CH_SLASH)
  {
    if b != [] {
      EncodeAlphabet(b[1..], style);
    }
  }

  lemma {:induction false} EncodeAppend(a: seq<byte>, b: seq<byte>, style: Style)
    ensures Encode(a + b, style) == Encode(a, style) + Encode(b, style)
  {
    if a == [] {
      assert a + b == b;
    } else {
      assert (a + b)[1..] == a[1..] + b;
      EncodeAppend(a[1..], b, style);
    }
  }

  // ----- the encoders -----------------------------------------------------------

  /** `output[pos++] = ...` for one byte of the input. */
  method PutByte(output: array<byte>, pos: nat, c: byte, style: Style) returns (pos': nat)
    requires pos + |EncodeByte(c, style)| <= output.Length
    modifies output
    ensures pos' == pos + |EncodeByte(c, style)| && output[pos..pos'] == EncodeByte(c, style)
    ensures output[..pos] == old(output[..pos])
  {
    if Unreserved(c) || (style.keepSlash && c == CH_SLASH) {
      output[pos] := c;
      pos' := pos + 1;
    } else {
      output[pos] := CH_PERCENT;
      output[pos + 1] := HexChar(c / 16, style.upper);
      output[pos + 2] := HexChar(c % 16, style.upper);
      pos' := pos + 3;
    }
  }

  /** `net_url_encode`, with the room for three characters a byte and the terminator
      that its callers provide. Decoding the text gives the input back. */
  method UrlEncode(input: seq<byte>, output: array<byte>) returns (pos: nat)
    requires 3 * |input| < output.Length
    modifies output
    ensures pos < output.Length && output[pos] == 0
    ensures output[..pos] == Encode(input, QUERY_STYLE) && Decode(output[..pos]) == input
  {
    hide EncodeByte, Encode;
    pos := 0;
    var i := 0;
    EncodeNothing(QUERY_STYLE);
    while i < |input|
      invariant 0 <= i <= |input| && pos <= 3 * i
      invariant output[..pos] == Encode(input[..i], QUERY_STYLE)
    {
      EncodeOneMore(input, i, QUERY_STYLE);
      ghost var before := output[..pos];
      ghost var from := pos;
      pos := PutByte(output, pos, input[i], QUERY_STYLE);
      assert output[..pos] == before + output[from..pos];
      i := i + 1;
    }
    assert input[..i] == input;
    output[pos] := 0;
    DecodeEncode(input, QUERY_STYLE, []);
    assert Encode(input, QUERY_STYLE) + [] == Encode(input, QUERY_STYLE) && input + [] == input;
  }

  lemma EncodeNothing(style: Style)
    ensures Encode([], style) == []
  {
  }

  lemma EncodeOneMore(b: seq<byte>, i: nat, style: Style)
    requires i < |b|
    ensures Encode(b[..i + 1], style) == Encode(b[..i], style) + EncodeByte(b[i], style)
    ensures |EncodeByte(b[i], style)| <= 3
  {
    assert b[..i + 1] == b[..i] + [b[i]];
    EncodeAppend(b[..i], [b[i]], style);
    assert [b[i]][1..] == [];
    assert EncodeByte(b[i], style) + [] == EncodeByte(b[i], style);
  }

  /** The text before the path: the base with a slash at its end. */
  function WithSlash(base: seq<byte>): seq<byte>
    requires base != []
  {
    if base[|base| - 1] == CH_SLASH then base else base + [CH_SLASH]
  }

  /** `append_url_path`: it succeeds exactly when the address and its terminator fit, and
      then decoding what stands behind the base gives the path back. */
  method AppendUrlPath(output: array<byte>, base: seq<byte>, path: seq<byte>) returns (ok: bool, ghost end: nat)
    requires base != []
    modifies output
    ensures ok <==> |WithSlash(base)| + |Encode(path, PATH_STYLE)| < output.Length
    ensures ok ==> |WithSlash(base)| <= end < output.Length && output[end] == 0
                   && output[..|WithSlash(base)|] == WithSlash(base)
                   && output[|WithSlash(base)|..end] == Encode(path, PATH_STYLE)
                   && Decode(output[|WithSlash(base)|..end]) == path
  {
    hide EncodeByte, Encode;
    var prefix := WithSlash(base);
    end := 0;
    if |prefix| >= output.Length {
      return false, 0;
    }
    forall k | 0 <= k < |prefix| {
      output[k] := prefix[k];
    }
    var pos, i := |prefix|, 0;
    EncodeNothing(PATH_STYLE);
    while i < |path|
      invariant 0 <= i <= |path| && |prefix| <= pos < output.Length
      invariant output[..pos] == prefix + Encode(path[..i], PATH_STYLE)
    {
      EncodeOneMore(path, i, PATH_STYLE);
      assert path == path[..i + 1] + path[i + 1..];
      EncodeAppend(path[..i + 1], path[i + 1..], PATH_STYLE);
      ghost var before := output[..pos];
      ghost var from := pos;
      if pos + |EncodeByte(path[i], PATH_STYLE)| >= output.Length {
        return false, 0;
      }
      pos := PutByte(output, pos, path[i], PATH_STYLE);
      assert output[..pos] == before + output[from..pos];
      assert prefix + Encode(path[..i], PATH_STYLE) + EncodeByte(path[i], PATH_STYLE)
          == prefix + (Encode(path[..i], PATH_STYLE) + EncodeByte(path[i], PATH_STYLE));
      i := i + 1;
    }
    assert path[..i] == path;
    assert output[|prefix|..pos] == output[..pos][|prefix|..];
    output[pos] := 0;
    DecodeEncode(path, PATH_STYLE, []);
    assert Encode(path, PATH_STYLE) + [] == Encode(path, PATH_STYLE) && path + [] == path;
    return true, pos;
  }

  // ----- the decoder ------------------------------------------------------------

  /** The text in front of the terminator at n. */
  ghost predicate TextOf(str: array<byte>, n: nat)
    reads str
  {
    n < str.Length && str[n] == 0 && forall k :: 0 <= k < n ==> str[k] != 0
  }

  /** One turn of the decoder on text[src..]. */
  lemma DecodeStep(text: seq<byte>, src: nat)
    requires src < |text|
    ensures var (c, w) := DecodeFirst(text[src..]);
            src + w <= |text| && Decode(text[src..]) == [c] + Decode(text[src + w..])
    ensures DecodeFirst(text[src..]) ==
            if text[src] == CH_PERCENT && src + 2 < |text| then (HexPair(text[src + 1], text[src + 2]), 3)
            else (if text[src] == CH_PLUS then CH_SPACE else text[src], 1)
  {
    hide HexPair;
    var w := DecodeFirst(text[src..]).1;
    assert text[src..][w..] == text[src + w..];
  }

  /** `http_url_decode` rewrites its text in place and terminates it again. */
  method UrlDecode(str: array<byte>, ghost n: nat) returns (ghost len: nat)
    requires TextOf(str, n)
    modifies str
    ensures len <= n && str[..len] == Decode(old(str[..n])) && str[len] == 0
    ensures forall k :: n < k < str.Length ==> str[k] == old(str[k])
  {
    hide HexPair, Decode, DecodeFirst;
    var src, dst := 0, 0;
    ghost var text := str[..n];
    assert text[0..] == text;
    assert [] + Decode(text) == Decode(text);
    while str[src] != 0
      invariant 0 <= dst <= src <= n
      invariant forall k :: src <= k < str.Length ==> str[k] == old(str[k])
      invariant str[..dst] + Decode(text[src..]) == Decode(text)
      decreases n - src
    {
      DecodeStep(text, src);
      ghost var done, from := str[..dst], src;
      if str[src] == CH_PERCENT && str[src + 1] != 0 && str[src + 2] != 0 {
        str[dst] := HexPair(str[src + 1], str[src + 2]);
        src := src + 3;
      } else if str[src] == CH_PLUS {
        str[dst] := CH_SPACE;
        src := src + 1;
      } else {
        str[dst] := str[src];
        src := src + 1;
      }
      assert str[..dst + 1] == done + [str[dst]];
      OneDecoded(done, str[dst], text, from, src);
      dst := dst + 1;
    }
    DecodeNothing(text[src..]);
    str[dst] := 0;
    assert str[..dst] + [] == str[..dst];
    len := dst;
  }

  lemma OneDecoded(done: seq<byte>, c: byte, text: seq<byte>, from: nat, src: nat)
    requires from < src <= |text| && DecodeFirst(text[from..]) == (c, src - from)
    ensures done + [c] + Decode(text[src..]) == done + Decode(text[from..])
  {
    hide DecodeFirst, Decode;
    DecodeStep(text, from);
    assert done + [c] + Decode(text[src..]) == done + ([c] + Decode(text[src..]));
  }

  lemma DecodeNothing(s: seq<byte>)
    requires s == []
    ensures Decode(s) == []
  {
  }
}
