/** The frames of the peer protocol in numbers: what is read from which bytes, and which
    bytes are sent. */
module WireFrames {
  import opened Bytes
  import opened Sha1Spec
  import opened PeerWireSpec
  import opened PeerWire

  /** Four bytes, the first one heaviest. */
  function Number(a: byte, b: byte, c: byte, d: byte): nat {
    16777216 * a + 65536 * b + 256 * c + d
  }

  function NumberAt(s: seq<byte>, i: nat): nat
    requires i + 4 <= |s|
  {
    Number(s[i], s[i + 1], s[i + 2], s[i + 3])
  }

  lemma NumberIs(s: seq<byte>, i: nat)
    requires i + 4 <= |s|
    ensures FromBigEndian(s[i..i + 4]) == NumberAt(s, i)
  {
    var four := s[i..i + 4];
    assert four[..3] == s[i..i + 3] && four[..3][..2] == s[i..i + 2] && four[..3][..2][..1] == s[i..i + 1];
    assert four[..3][..2][..1][..0] == [];
    assert FromBigEndian([]) == 0;
    assert FromBigEndian(s[i..i + 1]) == s[i];
    assert FromBigEndian(s[i..i + 2]) == 256 * (s[i] as int) + s[i + 1];
    assert FromBigEndian(s[i..i + 3]) == 256 * (256 * (s[i] as int) + s[i + 1]) + s[i + 2];
  }

  lemma {:induction false} BytesOf(a: byte, b: byte, c: byte, d: byte)
    ensures BigEndian(Number(a, b, c, d), 4) == [a, b, c, d]
  {
    NumberIs([a, b, c, d], 0);
    FromBigEndianRoundTrip([a, b, c, d]);
    assert [a, b, c, d][0..4] == [a, b, c, d];
  }

  /** The event behind a length of n > 0: by its first byte a state change, a HAVE, a bitfield, a
      block, or something that is skipped; a wrong length makes it invalid. */
  function Meaning(s: seq<byte>, n: nat): Decoded
    requires 0 < n && 4 + n <= |s|
  {
    if s[4] <= 3 then (if n == 1 then Frame(State(s[4]), 4 + n) else Bad)
    else if s[4] == 4 then (if n == 5 then Frame(Have(NumberAt(s, 5)), 4 + n) else Bad)
    else if s[4] == 5 then (if n <= 262145 then Frame(Bitfield(s[5..4 + n]), 4 + n) else Bad)
    else if s[4] == 7 then
      (if n >= 9 then Frame(Piece(NumberAt(s, 5), NumberAt(s, 9), s[13..4 + n]), 4 + n) else Bad)
    else if s[4] == 6 || s[4] == 8 then (if n == 13 then Frame(Skipped(s[4]), 4 + n) else Bad)
    else Frame(Skipped(s[4]), 4 + n)
  }

  /** A frame is four bytes of length, at most 262153, and as many bytes; without any it keeps
      the connection alive. */
  lemma FrameIs(s: seq<byte>)
    ensures Decode(s) ==
            if |s| < 4 then NeedMore
            else if NumberAt(s, 0) > 262153 then Bad
            else if |s| < 4 + NumberAt(s, 0) then NeedMore
            else if NumberAt(s, 0) == 0 then Frame(KeepAlive, 4)
            else Meaning(s, NumberAt(s, 0))
  {
    hide FromBigEndian, NumberAt;
    if |s| >= 4 {
      NumberIs(s, 0);
      assert s[0..4] == s[..4];
      var n := NumberAt(s, 0);
      if 0 < n <= 262153 && 4 + n <= |s| {
        MeaningIs(s, n);
      }
    }
  }

  lemma MeaningIs(s: seq<byte>, n: nat)
    requires 0 < n <= 262153 && 4 + n <= |s|
    ensures var e := DecodeBody(s[4..4 + n]);
            Meaning(s, n) == if e.None? then Bad else Frame(e.value, 4 + n)
  {
    hide FromBigEndian, NumberAt;
    var body := s[4..4 + n];
    assert body[0] == s[4] && body[1..] == s[5..4 + n];
    if n >= 5 {
      NumberIs(s, 5);
      SliceOfSlice(s, 4, 4 + n, 1, 5);
    }
    if n >= 9 {
      NumberIs(s, 9);
      SliceOfSlice(s, 4, 4 + n, 5, 9);
      SliceOfSlice(s, 4, 4 + n, 9, n);
    }
  }

  /** The two messages that the engine sends, byte by byte. */
  lemma SentFrames(msg: seq<byte>)
    ensures IsFrame(msg, State(ID_INTERESTED)) <==> msg == [0, 0, 0, 1, 2]
    ensures forall index: nat, begin: nat, length: nat ::
              && IsFrame(msg, Skipped(ID_REQUEST)) && RequestFields(msg) == (index, begin, length) ==>
                && |msg| == 17 && msg[..5] == [0, 0, 0, 13, 6]
                && NumberAt(msg, 5) == index && NumberAt(msg, 9) == begin && NumberAt(msg, 13) == length
  {
    hide FromBigEndian, BigEndian, NumberAt;
    BytesOf(0, 0, 0, 1);
    BytesOf(0, 0, 0, 13);
    if IsFrame(msg, State(ID_INTERESTED)) {
      assert msg == msg[..4] + msg[4..];
    }
    if msg == [0, 0, 0, 1, 2] {
      assert msg[..4] == [0, 0, 0, 1] && msg[4..] == [2];
    }
    if IsFrame(msg, Skipped(ID_REQUEST)) && |msg| == 17 {
      assert msg[..5] == msg[..4] + [msg[4]];
      NumberIs(msg, 5);
      NumberIs(msg, 9);
      NumberIs(msg, 13);
    }
  }

  /** One poll: 0 for a block, 1 for any other message, 2 as long as a frame is not complete,
      and -1 for an invalid frame and behind the last byte of a closed connection. Without
      memory an empty block is an error, and a payload to skip stays behind its five bytes. */
  lemma PollIs(s: seq<byte>, eof: bool, memory: bool)
    ensures var p, d := Poll(s, eof, memory), Decode(s);
            match d
            case NeedMore => p == (if s == [] && eof then -1 else 2, None, 0)
            case Bad => p == (-1, None, 0)
            case Frame(e, size) =>
              if e.Piece? then
                p == if e.block == [] && !memory then (-1, None, 0) else (0, Some(e), size)
              else p == (1, Some(e), if e.Skipped? && size > 5 && !memory then 5 else size)
  {
  }

  /** A waiting call takes a whole frame like a poll. When time runs out before it is there, it
      fails, unless only the payload of a message to skip is missing. */
  lemma WaitIs(s: seq<byte>, memory: bool)
    ensures Decode(s) != NeedMore ==> Wait(s, memory) == Poll(s, false, memory)
    ensures Decode(s) == NeedMore && |s| <= 4 ==> Wait(s, memory) == (-1, None, 0)
    ensures Decode(s) == NeedMore && |s| > 4 ==>
              Wait(s, memory) ==
              if s[4] >= 9 || ((s[4] == 6 || s[4] == 8) && NumberAt(s, 0) == 13)
              then (1, Some(Skipped(s[4])), if memory then |s| else 5)
              else (-1, None, 0)
  {
    hide Decode, FromBigEndian, NumberAt;
    if |s| >= 4 {
      NumberIs(s, 0);
      assert s[0..4] == s[..4];
    }
  }
}
