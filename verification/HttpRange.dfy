/** http_fetch_range of web_seed.c: the answer of a mirror to a range request, read from
    the bytes its connection delivers until it ends. */
module HttpRange {
  import opened Bytes
  import BencodeProofs
  import BencodeSpec
  import UrlCoding

  const HEADER_ROOM := 8192
  const CR: byte := 13
  const LF: byte := 10

  // ----- the answer -------------------------------------------------------------

  predicate EndsHeader(stream: seq<byte>, e: nat) {
    4 <= e <= |stream| && stream[e - 4..e] == [CR, LF, CR, LF]
  }

  /** The header is stream[..e]: the first empty line ends there. */
  predicate HeaderIs(stream: seq<byte>, e: nat) {
    EndsHeader(stream, e) && forall k :: 0 <= k < e ==> !EndsHeader(stream, k)
  }

  /** The header as C text, which a zero byte ends. */
  function Text(header: seq<byte>): seq<byte> {
    if header == [] || header[0] == 0 then [] else [header[0]] + Text(header[1..])
  }

  function SkipSpaces(s: seq<byte>, i: nat): (e: nat)
    requires i <= |s|
    ensures i <= e <= |s|
    decreases |s| - i
  {
    if i < |s| && UrlCoding.IsSpace(s[i]) then SkipSpaces(s, i + 1) else i
  }

  function SkipWord(s: seq<byte>, i: nat): (e: nat)
    requires i <= |s|
    ensures i <= e <= |s|
    decreases |s| - i
  {
    if i < |s| && !UrlCoding.IsSpace(s[i]) then SkipWord(s, i + 1) else i
  }

  /** What `sscanf(header, "HTTP/%*s %d", &status)` reads. */
  function Status(header: seq<byte>): Option<int> {
    var s := Text(header);
    if |s| < 5 || s[..5] != [72, 84, 84, 80, 47] then None
    else
      var word := SkipSpaces(s, 5);
      var behind := SkipWord(s, word);
      if behind == word then None
      else
        var sign := SkipSpaces(s, behind);
        var negative := sign < |s| && s[sign] == UrlCoding.CH_MINUS;
        var from := if sign < |s| && s[sign] in {UrlCoding.CH_MINUS, UrlCoding.CH_PLUS} then sign + 1 else sign;
        var e := BencodeSpec.DigitsEnd(s, from);
        if e == from then None
        else
          var n: int := BencodeSpec.Value(s[from..e]);
          Some(if negative then -n else n)
  }

  /** A whole file may stand in for a range only if the range begins at its front. */
  predicate Usable(status: Option<int>, from: nat) {
    status == Some(206) || (status == Some(200) && from == 0)
  }

  /** The stream holds a usable answer with at least `length` bytes behind its header. */
  predicate Answered(stream: seq<byte>, from: nat, length: nat) {
    exists e :: 0 <= e <= |stream| && IsAnswer(stream, from, length, e)
  }

  predicate IsAnswer(stream: seq<byte>, from: nat, length: nat, e: nat) {
    && e + length <= |stream| && e < HEADER_ROOM
    && HeaderIs(stream, e) && Usable(Status(stream[..e]), from)
  }

  lemma HeaderUnique(stream: seq<byte>, d: nat, e: nat)
    requires HeaderIs(stream, d) && HeaderIs(stream, e)
    ensures d == e
  {
  }

  // ----- the code ---------------------------------------------------------------

  /** The loop that reads the header byte by byte into its buffer. */
  method ReadHeader(stream: seq<byte>) returns (ok: bool, len: nat, status: Option<int>)
    ensures ok <==> exists e: nat :: HeaderIs(stream, e) && e < HEADER_ROOM
    ensures ok ==> HeaderIs(stream, len) && len < HEADER_ROOM && status == Status(stream[..len])
  {
    hide Status, EndsHeader, HeaderIs;
    var header := new byte[HEADER_ROOM];
    var done := false;
    len := 0;
    status := None;
    EndsHeaderIs(stream, 0);
    while !done && len < HEADER_ROOM
      invariant len <= |stream| && len <= HEADER_ROOM
      invariant header[..len] == stream[..len]
      invariant NoneBefore(stream, len)
      invariant done <==> EndsHeader(stream, len)
      decreases HEADER_ROOM - len, !done
    {
      if len == |stream| {
        NoHeader(stream, len);
        return false, len, None;
      }
      header[len] := stream[len];
      len := len + 1;
      EndsHeaderIs(stream, len);
      if len >= 4 {
        assert forall k :: 0 <= k < len ==> header[k] == header[..len][k] == stream[..len][k];
        done := header[len - 4] == CR && header[len - 3] == LF && header[len - 2] == CR && header[len - 1] == LF;
      }
    }
    ok := done && len < HEADER_ROOM;
    if ok {
      FirstHeader(stream, len);
      status := Status(header[..len]);
    } else {
      LateHeader(stream, len);
    }
  }

  ghost predicate NoneBefore(stream: seq<byte>, len: nat) {
    forall k :: 0 <= k < len ==> !EndsHeader(stream, k)
  }

  lemma EndsHeaderIs(stream: seq<byte>, len: nat)
    requires len <= |stream|
    ensures EndsHeader(stream, len) <==>
            && len >= 4 && stream[len - 4] == CR && stream[len - 3] == LF && stream[len - 2] == CR
            && stream[len - 1] == LF
  {
    if len >= 4 {
      var four := stream[len - 4..len];
      assert four == [stream[len - 4], stream[len - 3], stream[len - 2], stream[len - 1]];
    }
  }

  lemma FirstHeader(stream: seq<byte>, len: nat)
    requires NoneBefore(stream, len) && EndsHeader(stream, len)
    ensures HeaderIs(stream, len)
  {
  }

  lemma NoHeader(stream: seq<byte>, len: nat)
    requires len == |stream| && NoneBefore(stream, len) && !EndsHeader(stream, len)
    ensures forall e: nat :: !HeaderIs(stream, e)
  {
  }

  lemma LateHeader(stream: seq<byte>, len: nat)
    requires NoneBefore(stream, len)
    ensures forall e: nat :: HeaderIs(stream, e) ==> e >= len
  {
  }

  /** `http_fetch_range` behind the sending of the request; `stream` is all that the
      connection delivers, nothing if there was none. It succeeds if and only if a usable
      answer has arrived in full, and then leaves the bytes behind the header. */
  method FetchAnswer(stream: seq<byte>, from: nat, length: nat, out: array<byte>, at: nat) returns (ok: bool)
    requires at + length <= out.Length
    modifies out
    ensures forall k :: 0 <= k < out.Length && !(at <= k < at + length) ==> out[k] == old(out[k])
    ensures ok <==> length > 0 && Answered(stream, from, length)
    ensures ok ==> forall e: nat :: IsAnswer(stream, from, length, e) ==> out[at..at + length] == stream[e..e + length]
  {
    hide Status, HeaderIs;
    if length == 0 {
      return false;
    }
    var done, len, status := ReadHeader(stream);
    if !done || !Usable(status, from) {
      OnlyAnswer(stream, from, length, len);
      return false;
    }
    OnlyAnswer(stream, from, length, len);
    HeaderInside(stream, len);
    ok := ReceiveBody(stream[len..], length, out, at);
    if ok {
      assert IsAnswer(stream, from, length, len);
    }
  }

  lemma HeaderInside(stream: seq<byte>, e: nat)
    requires HeaderIs(stream, e)
    ensures e <= |stream|
  {
  }

  lemma OnlyAnswer(stream: seq<byte>, from: nat, length: nat, len: nat)
    ensures HeaderIs(stream, len) ==> forall e: nat :: IsAnswer(stream, from, length, e) ==> e == len
  {
    if HeaderIs(stream, len) {
      forall e: nat | IsAnswer(stream, from, length, e)
        ensures e == len
      {
        HeaderUnique(stream, e, len);
      }
    }
  }

  /** The loop that collects the body, in chunks of any size. */
  method ReceiveBody(body: seq<byte>, length: nat, out: array<byte>, at: nat) returns (ok: bool)
    requires at + length <= out.Length
    modifies out
    ensures forall k :: 0 <= k < out.Length && !(at <= k < at + length) ==> out[k] == old(out[k])
    ensures ok <==> length <= |body|
    ensures ok ==> out[at..at + length] == body[..length]
  {
    var copied := 0;
    while copied < length
      invariant 0 <= copied <= length && copied <= |body|
      invariant forall k :: 0 <= k < copied ==> out[at + k] == body[k]
      invariant forall k :: 0 <= k < out.Length && !(at <= k < at + length) ==> out[k] == old(out[k])
    {
      var n := ReceiveSome(body[copied..], length - copied);
      if n == 0 {
        break;
      }
      forall k | 0 <= k < n {
        out[at + copied + k] := body[copied + k];
      }
      copied := copied + n;
    }
    ok := copied == length;
  }

  /** `net_recv_some`: some bytes of what still arrives, nothing at the end. */
  method ReceiveSome(coming: seq<byte>, room: nat) returns (n: nat)
    requires room > 0
    ensures n <= room && n <= |coming| && (n == 0 <==> coming == [])
  {
    var some: int := *;
    n := if 1 <= some <= Min(room, |coming|) then some else Min(1, |coming|);
  }

  // ----- mirrors ----------------------------------------------------------------

  /** What a mirror of `remote` sends: behind a header with status 206 the file from the
      offset on, behind one with status 200 the file from its front, either possibly cut
      off; behind any other header anything. */
  predicate Honest(remote: seq<byte>, from: nat, stream: seq<byte>) {
    forall e :: 0 <= e <= |stream| && HeaderIs(stream, e) ==>
      && (Status(stream[..e]) == Some(206) ==> stream[e..] <= if from <= |remote| then remote[from..] else [])
      && (Status(stream[..e]) == Some(200) ==> stream[e..] <= remote)
  }

  /** A mirror that answers in full whatever its file has. */
  predicate Complete(remote: seq<byte>, from: nat, length: nat, stream: seq<byte>) {
    from + length <= |remote| ==> Answered(stream, from, length)
  }

  lemma HonestDelivers(remote: seq<byte>, from: nat, length: nat, stream: seq<byte>)
    requires Honest(remote, from, stream) && 0 < length && Answered(stream, from, length)
    ensures from + length <= |remote|
    ensures exists e: nat :: IsAnswer(stream, from, length, e) && stream[e..e + length] == remote[from..from + length]
  {
    hide Status;
    var e :| 0 <= e <= |stream| && IsAnswer(stream, from, length, e);
    var body := stream[e..];
    assert body[..length] == stream[e..e + length];
    if Status(stream[..e]) == Some(206) {
      assert body <= if from <= |remote| then remote[from..] else [];
      assert from <= |remote| && body[..length] == remote[from..][..length];
    } else {
      assert body <= remote && from == 0;
    }
  }

  /** "HTTP/1 206" and the empty line. */
  const HEADER_206: seq<byte> := [72, 84, 84, 80, 47, 49, 32, 50, 48, 54, CR, LF, CR, LF]

  function FullAnswer(remote: seq<byte>, from: nat): seq<byte> {
    HEADER_206 + if from <= |remote| then remote[from..] else []
  }

  /** The code reads no Content-Range: behind status 206 any bytes are accepted as the
      range, wherever in the file they are from. */
  lemma AnyBodyIsAccepted(body: seq<byte>, from: nat, length: nat)
    requires length <= |body|
    ensures Answered(HEADER_206 + body, from, length)
    ensures forall e: nat :: IsAnswer(HEADER_206 + body, from, length, e) ==>
              (HEADER_206 + body)[e..e + length] == body[..length]
  {
    hide Status, HeaderIs;
    var stream := HEADER_206 + body;
    HeaderOf206(body);
    assert IsAnswer(stream, from, length, 14);
    OnlyAnswer(stream, from, length, 14);
    assert stream[14..14 + length] == body[..length];
  }

  lemma HeaderOf206(body: seq<byte>)
    ensures var stream := HEADER_206 + body;
            HeaderIs(stream, 14) && Status(stream[..14]) == Some(206) && stream[14..] == body
  {
    hide Status;
    var stream := HEADER_206 + body;
    assert stream[10..14] == [CR, LF, CR, LF];
    forall k | 0 <= k < 14
      ensures !EndsHeader(stream, k)
    {
      if 4 <= k {
        assert stream[k - 4..k][3] == stream[k - 1] && stream[k - 4..k][1] == stream[k - 3];
      }
    }
    assert stream[..14] == HEADER_206;
    StatusOf206();
  }

  lemma FullAnswerServes(remote: seq<byte>, from: nat, length: nat)
    ensures Honest(remote, from, FullAnswer(remote, from))
    ensures Complete(remote, from, length, FullAnswer(remote, from))
  {
    hide Status, HeaderIs;
    var body := if from <= |remote| then remote[from..] else [];
    var stream := FullAnswer(remote, from);
    HeaderOf206(body);
    forall e | 0 <= e <= |stream| && HeaderIs(stream, e)
      ensures e == 14
    {
      HeaderUnique(stream, e, 14);
    }
    if from + length <= |remote| {
      assert IsAnswer(stream, from, length, 14);
    }
  }

  lemma StatusOf206()
    ensures Status(HEADER_206) == Some(206)
  {
    hide Text, SkipSpaces, SkipWord, BencodeSpec.DigitsEnd, BencodeSpec.Value;
    var s := HEADER_206;
    WholeText(s);
    SpacesAre(s, 5, 5);
    WordIs(s, 5, 6);
    SpacesAre(s, 6, 7);
    BencodeProofs.DigitsEndAt(s, 7, 10);
    assert s[7..10] == [50, 48, 54];
    ValueOf206();
  }

  lemma ValueOf206()
    ensures BencodeSpec.Value([50, 48, 54]) == 206
  {
    var d: seq<byte> := [50, 48, 54];
    assert d[..2] == [50, 48] && [50, 48][..1] == [50] && [50][..0] == [];
    assert BencodeSpec.Value([50]) == 2;
    assert BencodeSpec.Value([50, 48]) == 20;
  }

  lemma {:induction false} SpacesAre(s: seq<byte>, i: nat, e: nat)
    requires i <= e <= |s| && (e < |s| ==> !UrlCoding.IsSpace(s[e]))
    requires forall k :: i <= k < e ==> UrlCoding.IsSpace(s[k])
    ensures SkipSpaces(s, i) == e
    decreases e - i
  {
    if i < e {
      SpacesAre(s, i + 1, e);
    }
  }

  lemma {:induction false} WordIs(s: seq<byte>, i: nat, e: nat)
    requires i <= e <= |s| && (e < |s| ==> UrlCoding.IsSpace(s[e]))
    requires forall k :: i <= k < e ==> !UrlCoding.IsSpace(s[k])
    ensures SkipWord(s, i) == e
    decreases e - i
  {
    if i < e {
      WordIs(s, i + 1, e);
    }
  }

  lemma {:induction false} WholeText(s: seq<byte>)
    requires forall k :: 0 <= k < |s| ==> s[k] != 0
    ensures Text(s) == s
  {
    if s != [] {
      WholeText(s[1..]);
    }
  }

  /** Anything a mirror may send; a full answer if it is `up`. */
  method Receive(remote: seq<byte>, from: nat, length: nat, up: bool) returns (stream: seq<byte>)
    ensures Honest(remote, from, stream) && (up ==> Complete(remote, from, length, stream))
  {
    hide Honest, Complete;
    stream := *;
    if !Honest(remote, from, stream) || (up && !Complete(remote, from, length, stream)) {
      stream := FullAnswer(remote, from);
      FullAnswerServes(remote, from, length);
    }
  }
}
