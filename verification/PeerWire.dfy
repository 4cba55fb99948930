/** peer_wire.c over a byte-stream socket, and why fragmentation cannot change what is
    delivered. */
module PeerWire {
  import opened Bytes
  import opened Sha1Spec
  import opened PeerWireSpec

  // ----- one poll as a function -----------------------------------------------

  /** The payload that peer_recv_event only throws away. */
  function SkipLength(e: Event, size: nat): nat {
    if e.Skipped? && size > 5 then size - 5
    else 0
  }

  /** The result of one non-blocking call, the event, and how many bytes it consumed.
      `memory` tells whether the allocation for a payload to skip succeeds. */
  function Poll(inbox: seq<byte>, eof: bool, memory: bool): (r: (int, Option<Event>, nat))
    ensures r.2 <= |inbox|
    ensures r.1.Some? <==> r.0 == 0 || r.0 == 1
  {
    if inbox == [] && eof then (-1, None, 0)
    else
      var d := Decode(inbox);
      if d.NeedMore? then (2, None, 0)
      else if d.Bad? then (-1, None, 0)
      else if d.event.Piece? then
        if d.event.block == [] && !memory then (-1, None, 0) else (0, Some(d.event), d.size)
      else (1, Some(d.event), if memory then d.size else d.size - SkipLength(d.event, d.size))
  }

  /** A message of this length and id is accepted before its payload has been read. */
  predicate SkippedUnread(id: byte, length: nat) {
    ID_CANCEL < id || ((id == ID_REQUEST || id == ID_CANCEL) && length == 13)
  }

  /** The same for a call that waits; `inbox` is what arrives before the timeout. A frame
      cut off by the timeout is an error, except that a payload to skip may be cut off. */
  function Wait(inbox: seq<byte>, memory: bool): (r: (int, Option<Event>, nat))
    ensures r.2 <= |inbox|
    ensures r.1.Some? <==> r.0 == 0 || r.0 == 1
  {
    if !Decode(inbox).NeedMore? then Poll(inbox, false, memory)
    else if |inbox| > 4 && SkippedUnread(inbox[4], FromBigEndian(inbox[..4])) then
      (1, Some(Skipped(inbox[4])), if memory then |inbox| else 5)
    else (-1, None, 0)
  }

  /** Exactly when does a call consume its whole frame? When the allocation succeeds or
      there is nothing to skip. */
  lemma ConsumesFrameIff(inbox: seq<byte>, eof: bool, memory: bool)
    requires Poll(inbox, eof, memory).1.Some?
    ensures var r := Poll(inbox, eof, memory);
            Decode(inbox) == Frame(r.1.value, r.2) <==> memory || SkipLength(r.1.value, Decode(inbox).size) == 0
    ensures var r := Poll(inbox, eof, memory);
            r.0 == 0 <==> r.1.value.Piece?
  {
  }

  /** Without memory an unknown message whose payload looks like a choke message is
      followed by a choke event that the peer never sent. */
  lemma SkippingCanFail()
    ensures var s := [0, 0, 0, 6, 20, 0, 0, 0, 1, 0];
            && DecodeAll(s).events == [Skipped(20)]
            && Poll(s, false, false) == (1, Some(Skipped(20)), 5)
            && Poll(s[5..], false, false) == (1, Some(State(0)), 5)
  {
    var s: seq<byte> := [0, 0, 0, 6, 20, 0, 0, 0, 1, 0];
    SmallNumber(6);
    SmallNumber(1);
    assert s[..4] == [0, 0, 0, 6] && s[5..][..4] == [0, 0, 0, 1];
    assert s[4..10][0] == 20;
    assert Decode(s) == Frame(Skipped(20), 10);
    assert DecodeAll(s[10..]) == Stream([], false);
    assert s[5..][4..5] == [0];
    assert Decode(s[5..]) == Frame(State(0), 5);
  }

  lemma SmallNumber(b: byte)
    ensures FromBigEndian([0, 0, 0, b]) == b
  {
    assert [0, 0, 0, b][..3] == [0, 0, 0] && [0, 0, 0][..2] == [0, 0] && [0, 0][..1] == [0] && [0][..0] == [];
    assert FromBigEndian([0]) == 0 && FromBigEndian([0, 0]) == 0 && FromBigEndian([0, 0, 0]) == 0;
  }

  // ----- any way of arriving --------------------------------------------------

  /** What can happen to a connection: bytes arrive, the peer closes its side, or the
      engine polls it, with or without memory for a payload to skip. */
  datatype Action = Arrive(chunk: seq<byte>) | Close | Receive(memory: bool)

  /** The bytes not yet consumed, whether the peer has closed its side, the events
      delivered, and whether the engine gave up. */
  datatype Conn = Conn(inbox: seq<byte>, eof: bool, delivered: seq<Event>, dropped: bool)

  function Act(c: Conn, a: Action): Conn {
    match a
    case Arrive(chunk) => if c.eof then c else c.(inbox := c.inbox + chunk)
    case Close => c.(eof := true)
    case Receive(memory) =>
      if c.dropped then c
      else
        var (r, e, n) := Poll(c.inbox, c.eof, memory);
        if r == 2 then c
        else if r == -1 || e.None? then c.(dropped := true)
        else c.(inbox := c.inbox[n..], delivered := c.delivered + [e.value])
  }

  function Acts(actions: seq<Action>): Conn {
    if actions == [] then Conn([], false, [], false)
    else Act(Acts(actions[..|actions| - 1]), actions[|actions| - 1])
  }

  predicate Closed(actions: seq<Action>) {
    exists k :: 0 <= k < |actions| && actions[k].Close?
  }

  /** Everything that arrived before the peer closed its side, in order. */
  function Arrived(actions: seq<Action>): seq<byte> {
    if actions == [] then []
    else
      var before, last := actions[..|actions| - 1], actions[|actions| - 1];
      Arrived(before) + if last.Arrive? && !Closed(before) then last.chunk else []
  }

  /** The guard under which a call treats its frame as one: there is memory, or nothing
      is allocated for this frame. */
  predicate Harmless(inbox: seq<byte>, memory: bool) {
    || memory
    || !Decode(inbox).Frame?
    || (SkipLength(Decode(inbox).event, Decode(inbox).size) == 0
        && !(Decode(inbox).event.Piece? && Decode(inbox).event.block == []))
  }

  /** Every poll of the run meets the guard. */
  predicate Supplied(actions: seq<Action>) {
    actions == [] ||
    var before, last := actions[..|actions| - 1], actions[|actions| - 1];
    Supplied(before) && (last.Receive? ==> Harmless(Acts(before).inbox, last.memory))
  }

  /** What was delivered, followed by the decoding of what is left and of what is still
      to come, is `whole`; the engine gives up only on a wrong message or at the end. */
  ghost predicate Continues(c: Conn, whole: Stream, future: seq<byte>) {
    if c.dropped then
      && whole.events == c.delivered && (c.eof && c.inbox == [] <==> !whole.failed)
      && (c.inbox == [] ==> c.eof)
    else
      var rest := DecodeAll(c.inbox + future);
      whole == Stream(c.delivered + rest.events, rest.failed)
  }

  lemma DecodeAllExtends(s: seq<byte>, t: seq<byte>)
    requires !Decode(s).NeedMore?
    ensures Decode(s).Bad? ==> DecodeAll(s + t) == Stream([], true)
    ensures Decode(s).Frame? ==>
              var rest := DecodeAll(s[Decode(s).size..] + t);
              DecodeAll(s + t) == Stream([Decode(s).event] + rest.events, rest.failed)
  {
    DecodeExtends(s, t);
    if Decode(s).Frame? {
      assert (s + t)[Decode(s).size..] == s[Decode(s).size..] + t;
    }
  }

  lemma ReceiveContinues(c: Conn, whole: Stream, future: seq<byte>, memory: bool)
    requires Continues(c, whole, future) && Harmless(c.inbox, memory) && (c.eof ==> future == [])
    ensures Continues(Act(c, Receive(memory)), whole, future)
  {
    hide DecodeAll, Decode;
    EmptyDecodes();
    if c.inbox == [] && c.eof {
      assert [] + future == [] && c.delivered + [] == c.delivered;
    } else if !c.dropped && !Decode(c.inbox).NeedMore? {
      DecodeAllExtends(c.inbox, future);
      if Decode(c.inbox).Frame? {
        var e := Decode(c.inbox).event;
        var rest := DecodeAll(c.inbox[Decode(c.inbox).size..] + future).events;
        assert c.delivered + ([e] + rest) == c.delivered + [e] + rest;
      } else {
        assert c.delivered + [] == c.delivered;
      }
    }
  }

  lemma EmptyDecodes()
    ensures Decode([]) == NeedMore && DecodeAll([]) == Stream([], false)
  {
  }

  lemma {:induction false} EofIsClosed(actions: seq<Action>)
    ensures Acts(actions).eof <==> Closed(actions)
  {
    hide Poll;
    if actions != [] {
      var before, last := actions[..|actions| - 1], actions[|actions| - 1];
      EofIsClosed(before);
      if Closed(before) {
        var k :| 0 <= k < |before| && before[k].Close?;
        assert actions[k].Close?;
      }
      if Closed(actions) && !last.Close? {
        var k :| 0 <= k < |actions| && actions[k].Close?;
        assert before[k].Close?;
      }
    }
  }

  /** However the bytes are cut up, whenever the engine looks and whenever the peer closes
      its side: as long as every poll meets the guard, what was delivered is a beginning
      of the decoding of the whole stream, and nothing is lost. */
  lemma {:induction false} AlwaysContinues(actions: seq<Action>, future: seq<byte>)
    requires Supplied(actions) && (Closed(actions) ==> future == [])
    ensures Continues(Acts(actions), DecodeAll(Arrived(actions) + future), future)
    decreases |actions|
  {
    hide DecodeAll, Decode, Harmless, Act, Closed, Continues;
    if actions == [] {
      StartContinues(future);
    } else {
      var before, last := actions[..|actions| - 1], actions[|actions| - 1];
      EofIsClosed(before);
      if Closed(before) {
        ClosedStays(actions);
      }
      var c := Acts(before);
      match last
      case Arrive(chunk) =>
        var more := if c.eof then [] else chunk;
        AlwaysContinues(before, more + future);
        assert [] + future == future;
        assert Arrived(actions) + future == Arrived(before) + (more + future);
        ArriveContinues(c, DecodeAll(Arrived(actions) + future), chunk, future);
      case Close =>
        LastCloses(actions);
        AlwaysContinues(before, future);
        assert Arrived(actions) == Arrived(before);
        CloseContinues(c, DecodeAll(Arrived(before) + future), future);
      case Receive(memory) =>
        AlwaysContinues(before, future);
        assert Arrived(actions) == Arrived(before);
        ReceiveContinues(c, DecodeAll(Arrived(before) + future), future, memory);
    }
  }

  lemma StartContinues(future: seq<byte>)
    ensures Continues(Acts([]), DecodeAll(Arrived([]) + future), future)
  {
    hide DecodeAll;
    assert [] + future == future;
    assert [] + DecodeAll(future).events == DecodeAll(future).events;
  }

  lemma ClosedStays(actions: seq<Action>)
    requires actions != [] && Closed(actions[..|actions| - 1])
    ensures Closed(actions)
  {
    var before := actions[..|actions| - 1];
    var k :| 0 <= k < |before| && before[k].Close?;
    assert actions[k].Close?;
  }

  lemma LastCloses(actions: seq<Action>)
    requires actions != [] && actions[|actions| - 1].Close?
    ensures Closed(actions)
  {
  }

  lemma CloseContinues(c: Conn, whole: Stream, future: seq<byte>)
    requires Continues(c, whole, future) && future == []
    ensures Continues(Act(c, Close), whole, future)
  {
    hide DecodeAll;
  }

  lemma ArriveContinues(c: Conn, whole: Stream, chunk: seq<byte>, future: seq<byte>)
    requires Continues(c, whole, (if c.eof then [] else chunk) + future)
    ensures Continues(Act(c, Arrive(chunk)), whole, future)
  {
    hide DecodeAll;
    var more := if c.eof then [] else chunk;
    assert c.inbox + more + future == c.inbox + (more + future);
    assert c.inbox + [] == c.inbox && [] + future == future;
  }

  /** The engine has seen result 2 or has given up. */
  predicate Quiet(c: Conn) {
    c.dropped || Decode(c.inbox).NeedMore?
  }

  /** Frame decoding does not depend on fragmentation: whenever the connection is quiet,
      exactly the events of the whole stream have been delivered, and the stream holds a
      wrong message exactly if the engine gave up before the end. */
  lemma FragmentationIndependence(actions: seq<Action>)
    requires Supplied(actions) && Quiet(Acts(actions))
    ensures var c, whole := Acts(actions), DecodeAll(Arrived(actions));
            && c.delivered == whole.events
            && (whole.failed <==> c.dropped && c.inbox != [])
            && (c.dropped && !whole.failed ==> Closed(actions))
  {
    AlwaysContinues(actions, []);
    EofIsClosed(actions);
    var c := Acts(actions);
    assert Arrived(actions) + [] == Arrived(actions) && c.inbox + [] == c.inbox;
  }

  /** n polls in a row. */
  function Polls(n: nat): seq<Action> {
    if n == 0 then [] else Polls(n - 1) + [Receive(true)]
  }

  /** A poll reads at least one byte, or the connection was and stays quiet. */
  lemma ReceiveProgress(c: Conn)
    ensures var c' := Act(c, Receive(true));
            (Quiet(c) ==> Quiet(c')) && (Quiet(c') || |c'.inbox| < |c.inbox|)
  {
  }

  /** As many polls as there are bytes always make the connection quiet. */
  lemma {:induction false} PollsMakeQuiet(actions: seq<Action>, n: nat)
    ensures Arrived(actions + Polls(n)) == Arrived(actions)
    ensures Supplied(actions) ==> Supplied(actions + Polls(n))
    ensures var c := Acts(actions + Polls(n));
            Quiet(c) || |c.inbox| + n <= |Acts(actions).inbox|
  {
    hide Act, Acts, Arrived, Supplied, Quiet;
    if n == 0 {
      assert actions + [] == actions;
    } else {
      PollsMakeQuiet(actions, n - 1);
      var before := actions + Polls(n - 1);
      OnePoll(before);
      assert actions + Polls(n) == before + [Receive(true)];
      ReceiveProgress(Acts(before));
    }
  }

  lemma OnePoll(before: seq<Action>)
    ensures var all := before + [Receive(true)];
            && Acts(all) == Act(Acts(before), Receive(true)) && Arrived(all) == Arrived(before)
            && (Supplied(before) ==> Supplied(all))
  {
    hide Act, Harmless, Closed;
    var all := before + [Receive(true)];
    assert all[..|all| - 1] == before;
    assert Arrived(before) + [] == Arrived(before);
    MemoryIsHarmless(Acts(before).inbox);
  }

  lemma MemoryIsHarmless(inbox: seq<byte>)
    ensures Harmless(inbox, true)
  {
  }

  /** So once bytes stop arriving, polling delivers the whole stream. */
  lemma EveryEventArrives(actions: seq<Action>)
    requires Supplied(actions)
    ensures var c, whole := Acts(actions + Polls(|Acts(actions).inbox| + 1)), DecodeAll(Arrived(actions));
            c.delivered == whole.events && (whole.failed <==> c.dropped && c.inbox != [])
  {
    hide Act, Acts, Arrived, Polls, Decode, DecodeAll, Supplied, Closed;
    var n := |Acts(actions).inbox| + 1;
    PollsMakeQuiet(actions, n);
    FragmentationIndependence(actions + Polls(n));
  }

  // ----- the code -------------------------------------------------------------

  /** A connected socket: the bytes received and not yet read, whether the peer has
      closed its side, and the bytes sent. */
  class Socket {
    var inbox: seq<byte>
    var eof: bool
    var sent: seq<byte>

    constructor ()
      ensures inbox == [] && !eof && sent == []
    {
      inbox, eof, sent := [], false, [];
    }

    /** `net_recv_exact`: the bytes come in chunks of any size; it fails if the connection
        ends, or the timeout runs out, before they are all there. */
    method RecvExact(len: nat) returns (ok: bool, buf: seq<byte>)
      modifies this`inbox
      ensures ok <==> len <= |old(inbox)|
      ensures if ok then buf == old(inbox)[..len] && inbox == old(inbox)[len..] else inbox == []
    {
      buf := [];
      while |buf| < len
        invariant |buf| <= len && |buf| <= |old(inbox)|
        invariant buf == old(inbox)[..|buf|] && inbox == old(inbox)[|buf|..]
        decreases len - |buf|
      {
        if inbox == [] {
          return false, buf;
        }
        var n: int := *;
        if n < 1 || len - |buf| < n || |inbox| < n {
          n := 1;
        }
        ghost var had := |buf|;
        buf := buf + inbox[..n];
        inbox := inbox[n..];
        assert old(inbox)[had..][n..] == old(inbox)[had + n..];
      }
      ok := true;
    }

    /** `peer_recv_event` with a data buffer of 256 KiB. With a timeout, `inbox` is all that
        arrives before it runs out. */
    method RecvEvent(timeout: nat, memory: bool) returns (r: int, event: Option<Event>)
      modifies this`inbox
      ensures var p := if timeout == 0 then Poll(old(inbox), eof, memory) else Wait(old(inbox), memory);
              && r == p.0 && event == p.1
              && (r != -1 ==> inbox == old(inbox)[p.2..])
      ensures event.Some? ==> event.value.Bitfield? ==> |event.value.bits| <= MAX_DATA
      ensures event.Some? ==> event.value.Piece? ==> |event.value.block| <= MAX_DATA
    {
      hide FromBigEndian;
      if timeout == 0 {
        if inbox == [] {
          return if eof then -1 else 2, None;
        }
        if |inbox| < 4 {
          return 2, None;
        }
        var length := FromBigEndian(inbox[..4]);
        if length > MAX_LENGTH {
          return -1, None;
        }
        if |inbox| < length + 4 {
          return 2, None;
        }
      }
      ghost var all := inbox;
      var ok, header := RecvExact(4);
      if !ok {
        return -1, None;
      }
      var msgLen := FromBigEndian(header);
      if msgLen > MAX_LENGTH {
        return -1, None;
      }
      if msgLen == 0 {
        return 1, Some(KeepAlive);
      }
      FrameInParts(all, msgLen);
      r, event := RecvBody(msgLen, memory);
    }

    /** The part behind the length: the message id and what belongs to it. */
    method RecvBody(msgLen: nat, memory: bool) returns (r: int, event: Option<Event>)
      requires 0 < msgLen <= MAX_LENGTH
      modifies this`inbox
      ensures msgLen <= |old(inbox)| ==>
                var e := DecodeBody(old(inbox)[..msgLen]);
                if e.None? || (e.value.Piece? && e.value.block == [] && !memory)
                then r == -1 && event.None?
                else
                  && event == e && r == (if e.value.Piece? then 0 else 1)
                  && inbox == old(inbox)[if memory || !e.value.Skipped? then msgLen else 1..]
      ensures |old(inbox)| < msgLen ==>
                if old(inbox) != [] && SkippedUnread(old(inbox)[0], msgLen)
                then
                  && r == 1 && event == Some(Skipped(old(inbox)[0]))
                  && inbox == if memory then [] else old(inbox)[1..]
                else r == -1 && event.None?
    {
      hide FromBigEndian;
      ghost var start := inbox;
      var ok, ids := RecvExact(1);
      if !ok {
        return -1, None;
      }
      var id := ids[0];
      Remaining(start, inbox, msgLen);
      event := None;
      if id <= ID_NOT_INTERESTED && msgLen != 1 {
        return -1, None;
      }
      if id == ID_HAVE && msgLen != 5 {
        return -1, None;
      }
      if (id == ID_REQUEST || id == ID_CANCEL) && msgLen != 13 {
        return -1, None;
      }
      if id <= ID_NOT_INTERESTED {
        return 1, Some(State(id));
      }
      if id == ID_HAVE {
        var read, index := RecvExact(4);
        if !read {
          return -1, None;
        }
        assert index == start[..msgLen][1..5];
        return 1, Some(Have(FromBigEndian(index)));
      }
      if id == ID_BITFIELD {
        var payloadLen := msgLen - 1;
        if payloadLen > MAX_DATA {
          return -1, None;
        }
        var read, data := RecvExact(payloadLen);
        if !read {
          return -1, None;
        }
        return 1, Some(Bitfield(data));
      }
      if id == ID_PIECE {
        r, event := RecvPiece(start, msgLen, memory);
        return;
      }
      if msgLen > 1 && memory {
        var read, skip := RecvExact(msgLen - 1);
      }
      return 1, Some(Skipped(id));
    }

    method RecvPiece(ghost start: seq<byte>, msgLen: nat, memory: bool) returns (r: int, event: Option<Event>)
      requires 0 < msgLen && start != [] && inbox == start[1..]
      modifies this`inbox
      ensures if msgLen < 9 || |start| < msgLen || (msgLen == 9 && !memory) then r == -1 && event.None?
              else
                && r == 0 && inbox == start[msgLen..]
                && event == Some(Piece(FromBigEndian(start[1..5]), FromBigEndian(start[5..9]), start[9..msgLen]))
    {
      hide FromBigEndian;
      if msgLen < 9 {
        return -1, None;
      }
      var ok, index := RecvExact(4);
      if !ok {
        return -1, None;
      }
      assert index == start[1..5] && inbox == start[5..];
      var begin;
      ok, begin := RecvExact(4);
      if !ok {
        return -1, None;
      }
      assert begin == start[5..9] && inbox == start[9..];
      var blockLen := msgLen - 9;
      var data: seq<byte> := [];
      if blockLen > 0 {
        ok, data := RecvExact(blockLen);
        if !ok {
          return -1, None;
        }
        assert data == start[9..msgLen] && inbox == start[msgLen..];
      } else if !memory {
        return -1, None;
      }
      return 0, Some(Piece(FromBigEndian(index), FromBigEndian(begin), data));
    }

    /** `net_send_all`: the system takes any part at a time, and may refuse unless the
        connection is `up`. */
    method SendAll(data: seq<byte>, up: bool) returns (ok: bool)
      modifies this`sent
      ensures (ok ==> sent == old(sent) + data) && (up ==> ok)
      ensures exists k :: 0 <= k <= |data| && sent == old(sent) + data[..k]
    {
      var done := 0;
      assert old(sent) + data[..0] == old(sent);
      while done < |data|
        invariant 0 <= done <= |data| && sent == old(sent) + data[..done]
        decreases |data| - done
      {
        var n: int := *;
        if n < 1 || |data| - done < n {
          if !up {
            return false;
          }
          n := 1;
        }
        assert old(sent) + data[..done] + data[done..done + n] == old(sent) + data[..done + n];
        sent := sent + data[done..done + n];
        done := done + n;
      }
      assert data[..done] == data;
      ok := true;
    }

    /** `peer_send_interested`. */
    method SendInterested(up: bool) returns (ok: bool)
      modifies this`sent
      ensures up ==> ok
      ensures ok ==> exists msg :: IsFrame(msg, State(ID_INTERESTED)) && sent == old(sent) + msg
    {
      var msg := BigEndian(1, 4) + [ID_INTERESTED];
      assert msg[..4] == BigEndian(1, 4) && msg[4..] == [ID_INTERESTED];
      assert IsFrame(msg, State(ID_INTERESTED));
      ok := SendAll(msg, up);
    }

    /** `peer_send_request`: three words behind the id, as the receiver reads them. */
    method SendRequest(index: nat, begin: nat, length: nat, up: bool) returns (ok: bool)
      requires index < 0x1_0000_0000 && begin < 0x1_0000_0000 && length < 0x1_0000_0000
      modifies this`sent
      ensures up ==> ok
      ensures ok ==> exists msg :: IsFrame(msg, Skipped(ID_REQUEST)) && sent == old(sent) + msg
                                   && RequestFields(msg) == (index, begin, length)
    {
      hide FromBigEndian;
      var msg := new byte[17](_ => 0);
      PutWord(msg, 0, 13);
      msg[4] := ID_REQUEST;
      PutWord(msg, 5, index);
      PutWord(msg, 9, begin);
      PutWord(msg, 13, length);
      LimitOfFour();
      BigEndianRoundTrip(index, 4);
      BigEndianRoundTrip(begin, 4);
      BigEndianRoundTrip(length, 4);
      ghost var m := msg[..];
      assert m[..4] == BigEndian(13, 4) && m[5..9] == BigEndian(index, 4);
      assert m[9..13] == BigEndian(begin, 4) && m[13..17] == BigEndian(length, 4);
      assert |m[4..]| == 13 && m[4..][0] == ID_REQUEST;
      assert IsFrame(m, Skipped(ID_REQUEST));
      ok := SendAll(msg[..], up);
    }
  }

  const ID_INTERESTED: byte := 2

  lemma Remaining(start: seq<byte>, rest: seq<byte>, n: nat)
    requires 0 < n && start != [] && rest == start[1..]
    ensures n <= |start| ==> rest[n - 1..] == start[n..] && rest[..n - 1] == start[..n][1..]
    ensures n <= |start| ==> start[..n][0] == start[0]
    ensures 5 <= n <= |start| ==> start[..n][1..5] == start[1..5]
    ensures 9 <= n <= |start| ==> start[..n][5..9] == start[5..9] && start[..n][9..] == start[9..n]
  {
  }

  /** The rest behind the length word, and the body in it. */
  lemma FrameInParts(all: seq<byte>, n: nat)
    requires 4 <= |all|
    ensures 4 + n <= |all| ==> all[4..][..n] == all[4..4 + n]
    ensures forall k :: 0 <= k <= |all| - 4 ==> all[4..][k..] == all[4 + k..]
    ensures |all| > 4 ==> all[4..][0] == all[4]
    ensures all[|all|..] == []
  {
    forall k | 0 <= k <= |all| - 4
      ensures all[4..][k..] == all[4 + k..]
    {
    }
  }

  /** `htonl` and `memcpy` of one word. */
  method PutWord(msg: array<byte>, at: nat, n: nat)
    requires at + 4 <= msg.Length
    modifies msg
    ensures msg[at..at + 4] == BigEndian(n, 4)
    ensures forall k :: 0 <= k < msg.Length && !(at <= k < at + 4) ==> msg[k] == old(msg[k])
  {
    var word := BigEndian(n, 4);
    forall k | 0 <= k < 4 {
      msg[at + k] := word[k];
    }
  }

  /** What the receiver of a request reads from its three words. */
  function RequestFields(msg: seq<byte>): (nat, nat, nat)
  {
    if |msg| != 17 then (0, 0, 0)
    else (FromBigEndian(msg[5..9]), FromBigEndian(msg[9..13]), FromBigEndian(msg[13..17]))
  }
}
