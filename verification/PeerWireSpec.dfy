/** The peer messages of BEP 3 as a grammar on whole streams, and the decoder of
    peer_wire.c as a function on what has arrived so far. */
module PeerWireSpec {
  import opened Bytes
  import opened Sha1Spec

  const MAX_DATA: nat := 262144
  const MAX_LENGTH: nat := 262153

  const ID_NOT_INTERESTED: byte := 3
  const ID_HAVE: byte := 4
  const ID_BITFIELD: byte := 5
  const ID_REQUEST: byte := 6
  const ID_PIECE: byte := 7
  const ID_CANCEL: byte := 8

  /** What peer_recv_event hands over: its type, and the outputs it sets for that type. */
  datatype Event =
    | KeepAlive
    | State(id: byte)
    | Have(index: nat)
    | Bitfield(bits: seq<byte>)
    | Piece(index: nat, begin: nat, block: seq<byte>)
    | Skipped(id: byte)

  // ----- big-endian numbers ---------------------------------------------------

  function FromBigEndian(s: seq<byte>): nat {
    if s == [] then 0 else 256 * FromBigEndian(s[..|s| - 1]) + s[|s| - 1]
  }

  function Limit(width: nat): nat {
    if width == 0 then 1 else 256 * Limit(width - 1)
  }

  lemma {:induction false} BigEndianRoundTrip(n: nat, width: nat)
    requires n < Limit(width)
    ensures FromBigEndian(BigEndian(n, width)) == n
  {
    if width > 0 {
      BigEndianRoundTrip(n / 256, width - 1);
      assert BigEndian(n, width)[..width - 1] == BigEndian(n / 256, width - 1);
    }
  }

  lemma {:induction false} FromBigEndianRoundTrip(s: seq<byte>)
    ensures FromBigEndian(s) < Limit(|s|)
    ensures BigEndian(FromBigEndian(s), |s|) == s
  {
    if s != [] {
      FromBigEndianRoundTrip(s[..|s| - 1]);
      assert s == s[..|s| - 1] + [s[|s| - 1]];
    }
  }

  lemma LimitOfFour()
    ensures Limit(4) == 0x1_0000_0000
  {
    assert Limit(1) == 256 && Limit(2) == 0x1_0000 && Limit(3) == 0x100_0000;
  }

  // ----- the grammar ----------------------------------------------------------

  /** `frame` is exactly one message with event e, as BEP 3 lays it out. */
  ghost predicate IsFrame(frame: seq<byte>, e: Event) {
    && 4 <= |frame| <= 4 + MAX_LENGTH
    && frame[..4] == BigEndian(|frame| - 4, 4)
    && IsBody(frame[4..], e)
  }

  ghost predicate IsBody(body: seq<byte>, e: Event) {
    match e
    case KeepAlive => body == []
    case State(id) => id <= ID_NOT_INTERESTED && body == [id]
    case Have(index) => index < 0x1_0000_0000 && body == [ID_HAVE] + BigEndian(index, 4)
    case Bitfield(bits) => |bits| <= MAX_DATA && body == [ID_BITFIELD] + bits
    case Piece(index, begin, block) =>
      && index < 0x1_0000_0000 && begin < 0x1_0000_0000
      && body == [ID_PIECE] + BigEndian(index, 4) + BigEndian(begin, 4) + block
    case Skipped(id) =>
      && body != [] && body[0] == id && (id == ID_REQUEST || ID_CANCEL <= id)
      && (id == ID_REQUEST || id == ID_CANCEL ==> |body| == 13)
  }

  // ----- the decoder ----------------------------------------------------------

  datatype Decoded = NeedMore | Bad | Frame(event: Event, size: nat)

  function Decode(s: seq<byte>): (d: Decoded)
    ensures d.Frame? ==> 4 <= d.size <= |s|
  {
    if |s| < 4 then NeedMore
    else
      var length := FromBigEndian(s[..4]);
      if length > MAX_LENGTH then Bad
      else if |s| < length + 4 then NeedMore
      else
        var e := DecodeBody(s[4..4 + length]);
        if e.None? then Bad else Frame(e.value, 4 + length)
  }

  function DecodeBody(body: seq<byte>): Option<Event> {
    if body == [] then Some(KeepAlive)
    else
      var id := body[0];
      if id <= ID_NOT_INTERESTED then
        if |body| != 1 then None else Some(State(id))
      else if id == ID_HAVE then
        if |body| != 5 then None else Some(Have(FromBigEndian(body[1..5])))
      else if id == ID_BITFIELD then
        if |body| - 1 > MAX_DATA then None else Some(Bitfield(body[1..]))
      else if id == ID_PIECE then
        if |body| < 9 then None
        else Some(Piece(FromBigEndian(body[1..5]), FromBigEndian(body[5..9]), body[9..]))
      else if (id == ID_REQUEST || id == ID_CANCEL) && |body| != 13 then None
      else Some(Skipped(id))
  }

  lemma PieceBodyIff(body: seq<byte>, index: nat, begin: nat, block: seq<byte>)
    ensures DecodeBody(body) == Some(Piece(index, begin, block)) <==> IsBody(body, Piece(index, begin, block))
  {
    hide FromBigEndian, BigEndian, Limit;
    LimitOfFour();
    if DecodeBody(body) == Some(Piece(index, begin, block)) {
      FromBigEndianRoundTrip(body[1..5]);
      FromBigEndianRoundTrip(body[5..9]);
      assert body == [ID_PIECE] + body[1..5] + body[5..9] + body[9..];
    }
    if IsBody(body, Piece(index, begin, block)) {
      BigEndianRoundTrip(index, 4);
      BigEndianRoundTrip(begin, 4);
      assert body[1..5] == BigEndian(index, 4);
      assert body[5..9] == BigEndian(begin, 4);
      assert body[9..] == block;
    }
  }

  lemma BodyIff(body: seq<byte>, e: Event)
    ensures DecodeBody(body) == Some(e) <==> IsBody(body, e)
  {
    hide FromBigEndian, BigEndian, Limit;
    LimitOfFour();
    if |body| >= 5 {
      FromBigEndianRoundTrip(body[1..5]);
    }
    match e
    case KeepAlive =>
    case State(id) =>
    case Have(index) =>
      if DecodeBody(body) == Some(e) {
        assert body == [ID_HAVE] + body[1..5];
      }
      if IsBody(body, e) {
        BigEndianRoundTrip(index, 4);
        assert body[1..5] == BigEndian(index, 4);
      }
    case Bitfield(bits) =>
      if DecodeBody(body) == Some(e) {
        assert body == [ID_BITFIELD] + body[1..];
      }
    case Piece(index, begin, block) =>
      PieceBodyIff(body, index, begin, block);
    case Skipped(id) =>
  }

  /** The decoder finds a frame with event e exactly when the stream begins with one
      that the grammar allows. */
  lemma DecodeIff(s: seq<byte>, e: Event, n: nat)
    ensures Decode(s) == Frame(e, n) <==> n <= |s| && IsFrame(s[..n], e)
  {
    LimitOfFour();
    if |s| >= 4 {
      var length := FromBigEndian(s[..4]);
      FromBigEndianRoundTrip(s[..4]);
      if length + 4 <= |s| {
        BodyIff(s[4..4 + length], e);
      }
      if 4 <= n <= |s| {
        assert s[..n][..4] == s[..4] && s[..n][4..] == s[4..n];
        if n - 4 <= MAX_LENGTH {
          BigEndianRoundTrip(n - 4, 4);
        }
      }
    }
  }

  /** A verdict never changes when more bytes arrive. */
  lemma DecodeExtends(s: seq<byte>, t: seq<byte>)
    requires Decode(s) != NeedMore
    ensures Decode(s + t) == Decode(s)
  {
    assert (s + t)[..4] == s[..4];
    var length := FromBigEndian(s[..4]);
    if length <= MAX_LENGTH {
      assert (s + t)[4..4 + length] == s[4..4 + length];
    }
  }

  // ----- whole streams --------------------------------------------------------

  /** The events of a stream and whether a message that no continuation can repair ends it. */
  datatype Stream = Stream(events: seq<Event>, failed: bool)

  function DecodeAll(s: seq<byte>): Stream
    decreases |s|
  {
    var d := Decode(s);
    if d.NeedMore? then Stream([], false)
    else if d.Bad? then Stream([], true)
    else
      var rest := DecodeAll(s[d.size..]);
      Stream([d.event] + rest.events, rest.failed)
  }
}
