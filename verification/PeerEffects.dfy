/** What a message, a time-out and a request do, said of the tables before and after
    and in the numbers of the protocol. */
module PeerEffects {
  import opened Bytes
  import opened Torrent
  import opened PieceMgr
  import opened Disk
  import opened EngineTypes
  import opened EngineSteps
  import opened EngineInvariants
  import opened EngineFrames
  import opened EnginePeers
  import opened EngineTransfer
  import opened EngineRequests
  import Bitfield
  import Sha1Spec

  // ----- relations between two states ---------------------------------------------

  /** Nothing differs but torrent t, the assembly memory in use and the open sockets. */
  ghost predicate OnlyRun(w: World, w': World, t: nat) {
    && t < |w.torrents| == |w'.torrents|
    && (forall u :: 0 <= u < |w.torrents| && u != t ==> w'.torrents[u] == w.torrents[u])
    && w'.web == w.web && w'.conn == w.conn && w'.disc == w.disc
    && w'.nextGeneration == w.nextGeneration && w'.nextTable == w.nextTable
  }

  /** Piece i has the state s, every other piece the state it had. */
  ghost predicate StateSet(a: Option<PieceTable>, b: Option<PieceTable>, i: nat, s: PieceState) {
    && a.Some? && b.Some? && i < |a.value.states| == |b.value.states| && b.value.states[i] == s
    && (forall k :: 0 <= k < |a.value.states| && k != i ==> b.value.states[k] == a.value.states[k])
    && b.value.hashes == a.value.hashes
  }

  ghost predicate SameCounters(a: Option<PieceTable>, b: Option<PieceTable>) {
    a.Some? && b.Some? && b.value.numComplete == a.value.numComplete && b.value.bitfield == a.value.bitfield
  }

  /** The first candidate with the address is number k. */
  ghost predicate FirstWith(cs: seq<Candidate>, addr: Addr, k: nat) {
    k < |cs| && cs[k].addr == addr && forall j :: 0 <= j < k ==> cs[j].addr != addr
  }

  /** Only the failures of the candidate with the address differ: one more, up to five, or none. */
  ghost predicate FailuresChange(a: seq<Candidate>, b: seq<Candidate>, addr: Addr, cleared: bool) {
    |a| == |b| &&
    forall k :: 0 <= k < |a| ==>
      b[k] == if !FirstWith(a, addr, k) then a[k]
              else a[k].(failures := if cleared then 0 else if a[k].failures < 5 then a[k].failures + 1 else a[k].failures)
  }

  /** Peer p is gone: its socket is closed, its piece is free again unless it is finished,
      its buffer is given back, and its address has one more failure if the torrent is
      still downloading. */
  ghost predicate Dropped(w: World, w': World, t: nat, p: nat, state: TorrentState, files: Files) {
    && OnlyRun(w, w', t) && HasPeer(w, t, p) && w.torrents[t].peers[p].sock.Some?
    && var a, b, peer := w.torrents[t], w'.torrents[t], w.torrents[t].peers[p];
       && b == a.(state := state, files := files, peers := b.peers, active := a.active - 1, candidates := b.candidates,
                  table := b.table)
       && b.peers == a.peers[p := Peer(None, peer.addr, peer.choked, None, None, 0)]
       && (if state == DOWNLOADING then FailuresChange(a.candidates, b.candidates, peer.addr, false)
           else b.candidates == a.candidates)
       && w'.open == w.open - {peer.sock.value}
       && match peer.assembly
          case None => b.table == a.table && w'.assemblyBytes == w.assemblyBytes
          case Some(held) =>
            && w'.assemblyBytes == w.assemblyBytes - |held.buffer|
            && (a.table.Some? && held.index < |a.table.value.states| && a.table.value.states[held.index] != COMPLETE ==>
                  StateSet(a.table, b.table, held.index, FREE) && SameCounters(a.table, b.table))
            && (a.table.Some? && held.index < |a.table.value.states| && a.table.value.states[held.index] == COMPLETE ==>
                  b.table == a.table)
  }

  /** The piece that peer p was assembling is finished: complete in the table, its bytes
      on disk, its size counted; the peer stays, without a piece. */
  ghost predicate PieceStored(w: World, w': World, t: nat, p: nat, data: seq<byte>, files: Files) {
    && OnlyRun(w, w', t) && HasPeer(w, t, p) && w.torrents[t].peers[p].assembly.Some?
    && var a, b, peer := w.torrents[t], w'.torrents[t], w.torrents[t].peers[p];
       var i := peer.assembly.value.index;
       && b == a.(files := files, peers := b.peers, candidates := b.candidates, table := b.table,
                  downloaded := a.downloaded + |data|)
       && StateSet(a.table, b.table, i, COMPLETE)
       && b.table.value.numComplete == a.table.value.numComplete + 1
       && |files| == |a.meta.OutputLengths()|
       && (forall k :: 0 <= k < |data| ==>
             Cell(a.meta.OutputLengths(), files, i * a.meta.pieceLength + k) == Some(data[k]))
       && b.peers == a.peers[p := Peer(peer.sock, peer.addr, peer.choked, peer.have, None, 0)]
       && FailuresChange(a.candidates, b.candidates, peer.addr, true)
       && w'.open == w.open && w'.assemblyBytes == w.assemblyBytes - |peer.assembly.value.buffer|
  }

  /** All bytes of the piece are there. A wrong digest drops the peer, a failed write the
      whole torrent into ERROR, and otherwise the piece is stored. */
  ghost predicate PieceOutcome(w: World, w': World, t: nat, p: nat, data: seq<byte>, o: WriteOutcome) {
    && HasPeer(w, t, p) && w.torrents[t].peers[p].assembly.Some?
    && var mt := w.torrents[t];
       var i := mt.peers[p].assembly.value.index;
       && 20 * i + 20 <= |mt.meta.pieces|
       && var possible := WriteEffect(mt.meta.OutputLengths(), mt.files, i * mt.meta.pieceLength, data, o.files, o.ok);
          if Sha1Spec.Digest(data) != mt.meta.pieces[20 * i..20 * i + 20] then
            Dropped(w, w', t, p, mt.state, mt.files)
          else if !possible || !o.ok then
            Dropped(w, w', t, p, ERROR, if possible then o.files else mt.files)
          else PieceStored(w, w', t, p, data, o.files)
  }

  /** A block that does not yet fill the piece. */
  ghost predicate BlockKept(w: World, w': World, t: nat, p: nat, block: seq<byte>) {
    && OnlyRun(w, w', t) && w'.open == w.open && w'.assemblyBytes == w.assemblyBytes
    && HasPeer(w, t, p) && w.torrents[t].peers[p].assembly.Some?
    && var a, peer := w.torrents[t], w.torrents[t].peers[p];
       var held := peer.assembly.value;
       && held.received + |block| <= |held.buffer|
       && w'.torrents[t] == a.(peers := a.peers[p := Peer(peer.sock, peer.addr, peer.choked, peer.have,
            Some(Assembly(held.index, held.buffer[..held.received] + block + held.buffer[held.received + |block|..],
                          held.received + |block|, held.blocks + [block])), 0)])
  }

  /** Only the record of peer p differs. */
  ghost predicate PeerSet(w: World, w': World, t: nat, p: nat, peer: Peer) {
    && OnlyRun(w, w', t) && w'.open == w.open && w'.assemblyBytes == w.assemblyBytes && HasPeer(w, t, p)
    && w'.torrents[t] == w.torrents[t].(peers := w.torrents[t].peers[p := peer])
  }

  // ----- closing a peer -------------------------------------------------------------

  lemma FailureRecorded(cs: seq<Candidate>, addr: Addr)
    ensures FailuresChange(cs, RecordFailure(cs, addr), addr, false)
    ensures FailuresChange(cs, ClearFailures(cs, addr), addr, true)
  {
  }

  /** The content of the buffer does not matter, nor what the disk and the state are. */
  lemma DropIs(w: World, v: World, t: nat, p: nat, state: TorrentState, files: Files)
    requires HasPeer(w, t, p) && w.torrents[t].peers[p].sock.Some? && OnlyRun(w, v, t)
    requires v.open == w.open && v.assemblyBytes == w.assemblyBytes
    requires var a := w.torrents[t];
             && v.torrents[t] == a.(state := state, files := files, peers := v.torrents[t].peers)
             && |v.torrents[t].peers| == |a.peers|
             && (forall q :: 0 <= q < |a.peers| && q != p ==> v.torrents[t].peers[q] == a.peers[q])
    requires var peer, now := w.torrents[t].peers[p], v.torrents[t].peers[p];
             && now.sock == peer.sock && now.addr == peer.addr && now.choked == peer.choked
             && (now.assembly.Some? <==> peer.assembly.Some?)
             && (now.assembly.Some? ==>
                   && now.assembly.value.index == peer.assembly.value.index
                   && |now.assembly.value.buffer| == |peer.assembly.value.buffer|)
    ensures Dropped(w, Disconnect(v, t, p), t, p, state, files)
  {
    hide Disconnect, RecordFailure, FailuresChange;
    DisconnectForm(v, t, p);
    FailureRecorded(w.torrents[t].candidates, w.torrents[t].peers[p].addr);
    assert v.torrents[t].peers[p := ClosedPeer(v.torrents[t].peers[p])] ==
           w.torrents[t].peers[p := ClosedPeer(v.torrents[t].peers[p])];
  }

  /** A time-out drops the peer. */
  lemma TimedOut(w: World, t: nat, p: nat)
    requires PeerActive(w, t, p)
    ensures Dropped(w, Apply(w, EvTimeOut(t, p)), t, p, DOWNLOADING, w.torrents[t].files)
  {
    hide Disconnect, Dropped, Apply;
    TimeOutStep(w, t, p);
    DropIs(w, w, t, p, DOWNLOADING, w.torrents[t].files);
  }

  // ----- a finished piece -----------------------------------------------------------

  /** From w to v only the content of the buffer of peer p may have changed, to `data`. */
  ghost predicate Holding(w: World, v: World, t: nat, p: nat, data: seq<byte>) {
    && HasPeer(w, t, p) && HasPeer(v, t, p) && w.torrents[t].peers[p].assembly.Some?
    && var peer, now := w.torrents[t].peers[p], v.torrents[t].peers[p];
       && v == SetTorrent(w, t, SetPeer(w.torrents[t], p, now))
       && now.assembly.Some? && now.assembly.value.buffer == data
       && now.assembly.value.index == peer.assembly.value.index
       && now == peer.(assembly := now.assembly, pending := now.pending)
  }

  lemma FinishOutcome(w: World, v: World, t: nat, p: nat, data: seq<byte>, o: WriteOutcome)
    requires PeerActive(w, t, p) && w.torrents[t].peers[p].assembly.Some? && TableShape(w.torrents[t])
    requires var peer := w.torrents[t].peers[p];
             && peer.assembly.value.index < w.torrents[t].meta.NumPieces()
             && |data| == |peer.assembly.value.buffer| && Holding(w, v, t, p, data)
    ensures PeerActive(v, t, p) && v.torrents[t].peers[p].assembly.Some?
    ensures PieceOutcome(w, FinishPiece(v, t, p, o), t, p, data, o)
  {
    hide Disconnect, Dropped, WriteEffect, Sha1Spec.Digest, PieceStored, ReleasePiece;
    var mt := w.torrents[t];
    var i := mt.peers[p].assembly.value.index;
    DropIs(w, v, t, p, mt.state, mt.files);
    var outcome := Outcome(v.torrents[t], i, data, o);
    if HashMatches(mt.meta, i, data) {
      if outcome.ok {
        StoredIs(w, v, t, p, data, outcome.files);
      } else {
        DropIs(w, SetTorrent(v, t, v.torrents[t].(files := outcome.files, state := ERROR)), t, p, ERROR, outcome.files);
      }
    }
  }

  lemma FinishOutcomes(w: World, t: nat, p: nat)
    requires PeerActive(w, t, p) && w.torrents[t].peers[p].assembly.Some? && TableShape(w.torrents[t])
    requires w.torrents[t].peers[p].assembly.value.index < w.torrents[t].meta.NumPieces()
    ensures forall o: WriteOutcome ::
              PieceOutcome(w, FinishPiece(w, t, p, o), t, p, w.torrents[t].peers[p].assembly.value.buffer, o)
  {
    hide FinishPiece, PieceOutcome;
    var mt := w.torrents[t];
    assert mt.peers[p := mt.peers[p]] == mt.peers && w.torrents[t := mt] == w.torrents;
    assert Holding(w, w, t, p, mt.peers[p].assembly.value.buffer);
    forall o: WriteOutcome {
      FinishOutcome(w, w, t, p, mt.peers[p].assembly.value.buffer, o);
    }
  }

  lemma StoredIs(w: World, v: World, t: nat, p: nat, data: seq<byte>, files: Files)
    requires PeerActive(w, t, p) && w.torrents[t].peers[p].assembly.Some? && TableShape(w.torrents[t])
    requires var peer := w.torrents[t].peers[p];
             && peer.assembly.value.index < w.torrents[t].meta.NumPieces()
             && |data| == |peer.assembly.value.buffer| && Holding(w, v, t, p, data)
    requires var mt := w.torrents[t];
             WriteEffect(mt.meta.OutputLengths(), mt.files,
                         mt.meta.PieceStart(mt.peers[p].assembly.value.index), data, files, true)
    ensures var m := StorePiece(v.torrents[t], w.torrents[t].peers[p].assembly.value.index, |data|, files);
            PieceStored(w, ReleasePiece(SetTorrent(v, t, m.(candidates :=
                             ClearFailures(m.candidates, w.torrents[t].peers[p].addr))), t, p), t, p, data, files)
  {
    hide Bitfield.SetBit, ClearFailures, FailuresChange, Cell, WriteEffect;
    var mt := w.torrents[t];
    FailureRecorded(mt.candidates, mt.peers[p].addr);
    BytesStored(mt.meta.OutputLengths(), mt.files, mt.meta.PieceStart(mt.peers[p].assembly.value.index), data, files);
  }

  lemma BytesStored(lengths: seq<int>, files: Files, start: int, data: seq<byte>, files': Files)
    requires WriteEffect(lengths, files, start, data, files', true)
    ensures |files'| == |lengths|
    ensures forall k :: 0 <= k < |data| ==> Cell(lengths, files', start + k) == Some(data[k])
  {
    hide Cell, TailKept;
    forall k | 0 <= k < |data|
      ensures Cell(lengths, files', start + k) == Some(data[k])
    {
      var g := start + k;
      assert start <= g < start + |data| && data[g - start] == data[k];
    }
  }

  // ----- messages ---------------------------------------------------------------------

  /** A block: ignored unless it is the one asked for, refused if its length is wrong,
      kept behind the bytes before it, and with the last one the piece is decided. */
  lemma BlockArrives(w: World, t: nat, p: nat, index: nat, begin: nat, block: seq<byte>, hasMemory: bool, o: WriteOutcome)
    requires Inv(w) && PeerActive(w, t, p)
    ensures var w' := Apply(w, EvRecv(t, p, Piece(index, begin, block), hasMemory, o));
            var mt, peer := w.torrents[t], w.torrents[t].peers[p];
            if peer.assembly.None? || peer.pending == 0
               || index != peer.assembly.value.index || begin != peer.assembly.value.received then w' == w
            else if |block| != peer.pending then Dropped(w, w', t, p, DOWNLOADING, mt.files)
            else if begin + |block| < |peer.assembly.value.buffer| then BlockKept(w, w', t, p, block)
            else PieceOutcome(w, w', t, p, peer.assembly.value.buffer[..begin] + block, o)
  {
    hide Apply, Inv, Disconnect, FinishPiece, PieceOutcome, Dropped;
    RecvStep(w, t, p, Piece(index, begin, block), hasMemory, o);
    var mt, peer := w.torrents[t], w.torrents[t].peers[p];
    PeerOf(w, t, p);
    ShapeOf(w, t);
    DropIs(w, w, t, p, DOWNLOADING, mt.files);
    if Expected(peer, Piece(index, begin, block)) && |block| == peer.pending {
      LastBlock(w, t, p, block, o);
    }
  }

  /** The block that fills the buffer. */
  lemma LastBlock(w: World, t: nat, p: nat, block: seq<byte>, o: WriteOutcome)
    requires Inv(w) && PeerActive(w, t, p) && w.torrents[t].peers[p].assembly.Some?
    requires |block| == w.torrents[t].peers[p].pending > 0
    ensures var a := w.torrents[t].peers[p].assembly.value;
            && a.received + |block| <= |a.buffer|
            && (a.received + |block| == |a.buffer| ==>
                  var v := SetTorrent(w, t, SetPeer(w.torrents[t], p,
                             w.torrents[t].peers[p].(assembly := Some(Append(a, block)), pending := 0)));
                  && PeerActive(v, t, p) && v.torrents[t].peers[p].assembly.Some?
                  && PieceOutcome(w, FinishPiece(v, t, p, o), t, p, a.buffer[..a.received] + block, o))
  {
    hide Inv, FinishPiece, PieceOutcome;
    PeerOf(w, t, p);
    ShapeOf(w, t);
    var a := w.torrents[t].peers[p].assembly.value;
    if a.received + |block| == |a.buffer| {
      var data := a.buffer[..a.received] + block;
      assert Append(a, block).buffer == data + a.buffer[|a.buffer|..] == data;
      var v := SetTorrent(w, t, SetPeer(w.torrents[t], p,
                 w.torrents[t].peers[p].(assembly := Some(Append(a, block)), pending := 0)));
      assert Append(a, block) == Assembly(a.index, data, a.received + |block|, a.blocks + [block]);
      FinishOutcome(w, v, t, p, data, o);
    }
  }

  /** The messages that carry no data: a choke forgets the outstanding request, an
      unchoke allows new ones, others are ignored, and an invalid frame drops the peer. */
  lemma SmallMessage(w: World, t: nat, p: nat, msg: Message, hasMemory: bool, o: WriteOutcome)
    requires PeerActive(w, t, p)
    ensures var w' := Apply(w, EvRecv(t, p, msg, hasMemory, o));
            var peer := w.torrents[t].peers[p];
            match msg
            case Choke =>
              PeerSet(w, w', t, p, Peer(peer.sock, peer.addr, true, peer.have, peer.assembly, 0))
            case Unchoke =>
              PeerSet(w, w', t, p, Peer(peer.sock, peer.addr, false, peer.have, peer.assembly, peer.pending))
            case Other => w' == w
            case Invalid => Dropped(w, w', t, p, DOWNLOADING, w.torrents[t].files)
            case _ => true
  {
    hide Apply, Disconnect, Dropped, Receive, Learn;
    RecvStep(w, t, p, msg, hasMemory, o);
    DropIs(w, w, t, p, DOWNLOADING, w.torrents[t].files);
  }

  /** The bytes of a bitfield for n pieces. */
  function BitBytes(n: nat): nat {
    if n % 8 == 0 then n / 8 else n / 8 + 1
  }

  /** What a peer has: a bitfield must have the right length and replaces what was known,
      a HAVE must name a piece of the torrent and adds exactly that piece. */
  lemma AvailabilityArrives(w: World, t: nat, p: nat, msg: Message, hasMemory: bool, o: WriteOutcome)
    requires Inv(w) && PeerActive(w, t, p) && (msg.BitfieldMsg? || msg.Have?)
    ensures var w' := Apply(w, EvRecv(t, p, msg, hasMemory, o));
            var mt, peer := w.torrents[t], w.torrents[t].peers[p];
            var n := mt.meta.NumPieces();
            if (msg.BitfieldMsg? && |msg.bits| != BitBytes(n)) || (msg.Have? && msg.index >= n)
               || (peer.have.None? && !hasMemory)
            then Dropped(w, w', t, p, DOWNLOADING, mt.files)
            else
              exists bits: seq<byte> ::
                && |bits| == BitBytes(n)
                && PeerSet(w, w', t, p, Peer(peer.sock, peer.addr, peer.choked, Some(bits), peer.assembly, peer.pending))
                && (msg.BitfieldMsg? ==> bits == msg.bits)
                && (msg.Have? ==> forall k: nat :: k < n ==>
                      (Claims(bits, k) <==> k == msg.index || (peer.have.Some? && Claims(peer.have.value, k))))
  {
    hide Apply, Inv, Disconnect, Dropped, Receive, Claims, Bitfield.SetBit, AssemblyOk;
    RecvStep(w, t, p, msg, hasMemory, o);
    var mt, peer := w.torrents[t], w.torrents[t].peers[p];
    DropIs(w, w, t, p, DOWNLOADING, mt.files);
    PeerOf(w, t, p);
    var n := mt.meta.NumPieces();
    var w' := Recv(w, t, p, msg, hasMemory, o);
    if !((msg.BitfieldMsg? && |msg.bits| != BitBytes(n)) || (msg.Have? && msg.index >= n)
         || (peer.have.None? && !hasMemory)) {
      var old_ := if peer.have.None? then Zeros(BitBytes(n)) else peer.have.value;
      var bits := if msg.BitfieldMsg? then msg.bits else Bitfield.SetBit(old_, msg.index);
      assert PeerSet(w, w', t, p, Peer(peer.sock, peer.addr, peer.choked, Some(bits), peer.assembly, peer.pending));
      if msg.Have? {
        OneMoreClaim(old_, msg.index, n);
      }
    }
  }

  lemma OneMoreClaim(bits: seq<byte>, i: nat, n: nat)
    requires i < n <= 8 * |bits|
    ensures forall k: nat :: k < n ==> (Claims(Bitfield.SetBit(bits, i), k) <==> k == i || Claims(bits, k))
    ensures forall k: nat :: k < n && bits[k / 8] == 0 ==> !Claims(bits, k)
  {
    hide Bitfield.SetBit, Bitfield.HasBit;
    forall k: nat | k < n
      ensures Bitfield.HasBit(Bitfield.SetBit(bits, i), k) <==> k == i || Bitfield.HasBit(bits, k)
      ensures bits[k / 8] == 0 ==> !Bitfield.HasBit(bits, k)
    {
      Bitfield.SetBitEffect(bits, i, k);
      if bits[k / 8] == 0 {
        NoBit(bits, k);
      }
    }
  }

  lemma NoBit(bits: seq<byte>, k: nat)
    requires k / 8 < |bits| && bits[k / 8] == 0
    ensures !Bitfield.HasBit(bits, k)
  {
  }

  /** Piece k is in the bitfield. */
  predicate Claims(bits: seq<byte>, k: nat) {
    k / 8 < |bits| && Bitfield.HasBit(bits, k)
  }

  // ----- requests ---------------------------------------------------------------------

  /** Piece i is free, and the peer has it or its bitfield is too short to tell. */
  ghost predicate Wanted(mt: Managed, have: seq<byte>, i: nat) {
    && mt.table.Some? && i < |mt.table.value.states| && mt.table.value.states[i] == FREE
    && (i / 8 < |have| ==> Claims(have, i))
  }

  ghost predicate FirstWanted(mt: Managed, have: seq<byte>, i: nat) {
    Wanted(mt, have, i) && forall k: nat :: k < i ==> !Wanted(mt, have, k)
  }

  /** The size of piece i: the piece length, or what is left for the last one. */
  function SizeOf(meta: Metainfo, i: nat): int {
    if i + 1 == meta.NumPieces() then meta.totalSize - i * meta.pieceLength else meta.pieceLength
  }

  /** Peer p takes piece i into an empty buffer and asks for its first 16 KiB. */
  ghost predicate Taken(w: World, w': World, t: nat, p: nat, i: nat, memory: seq<byte>) {
    && OnlyRun(w, w', t) && HasPeer(w, t, p) && w'.open == w.open
    && w'.assemblyBytes == w.assemblyBytes + |memory|
    && var a, b, peer := w.torrents[t], w'.torrents[t], w.torrents[t].peers[p];
       && b == a.(peers := a.peers[p := Peer(peer.sock, peer.addr, peer.choked, peer.have,
                                             Some(Assembly(i, memory, 0, [])), Min(16384, |memory|))],
                  table := b.table)
       && StateSet(a.table, b.table, i, REQUESTED) && SameCounters(a.table, b.table)
  }

  /** The sending half of process_peer. */
  lemma RequestOutcome(w: World, t: nat, p: nat, memory: Option<seq<byte>>, sent: bool)
    requires Inv(w) && PeerActive(w, t, p)
    ensures var w' := Apply(w, EvRequest(t, p, memory, sent));
            var mt, peer := w.torrents[t], w.torrents[t].peers[p];
            if peer.choked || peer.pending > 0 || peer.have.None? then w' == w
            else if peer.assembly.Some? then
              var held := peer.assembly.value;
              if sent then
                PeerSet(w, w', t, p, Peer(peer.sock, peer.addr, peer.choked, peer.have, peer.assembly,
                                          Min(16384, |held.buffer| - held.received)))
              else Dropped(w, w', t, p, DOWNLOADING, mt.files)
            else
              && ((forall i: nat :: !Wanted(mt, peer.have.value, i)) ==> w' == w)
              && forall i: nat :: FirstWanted(mt, peer.have.value, i) ==> NewRequest(w, w', t, p, i, memory, sent)
  {
    hide Apply, Inv, Disconnect, Dropped, PieceTable.GetNext, SendRequest, Reserve, NewRequest, RunOk;
    RequestStep(w, t, p, memory, sent);
    var mt, peer := w.torrents[t], w.torrents[t].peers[p];
    PeerOf(w, t, p);
    if !(peer.choked || peer.pending > 0 || peer.have.None?) {
      if peer.assembly.Some? {
        NextRequest(w, t, p, sent);
      } else {
        var next := mt.table.value.GetNext(peer.have);
        NextWanted(w, t, peer.have.value);
        if next >= 0 {
          NewRequestIs(w, t, p, next, memory, sent);
        }
      }
    }
  }

  lemma NextRequest(w: World, t: nat, p: nat, sent: bool)
    requires Inv(w) && PeerActive(w, t, p) && w.torrents[t].peers[p].assembly.Some?
    ensures var mt, peer := w.torrents[t], w.torrents[t].peers[p];
            var held, w' := peer.assembly.value, SendRequest(w, t, p, sent);
            if sent then
              PeerSet(w, w', t, p, Peer(peer.sock, peer.addr, peer.choked, peer.have, peer.assembly,
                                        Min(16384, |held.buffer| - held.received)))
            else Dropped(w, w', t, p, DOWNLOADING, mt.files)
  {
    hide Inv, Disconnect, Dropped;
    PeerOf(w, t, p);
    DropIs(w, w, t, p, DOWNLOADING, w.torrents[t].files);
  }

  lemma NextWanted(w: World, t: nat, have: seq<byte>)
    requires Inv(w) && t < |w.torrents| && w.torrents[t].table.Some?
    ensures var next := w.torrents[t].table.value.GetNext(Some(have));
            && (next >= 0 ==> FirstWanted(w.torrents[t], have, next))
            && (next < 0 ==> forall i: nat :: !Wanted(w.torrents[t], have, i))
            && forall i: nat :: FirstWanted(w.torrents[t], have, i) ==> i == next
  {
    hide Inv, PieceTable.GetNext;
    ConsistentOf(w, t);
    GetNextFinds(w.torrents[t].table.value, Some(have));
    var table := w.torrents[t].table.value;
    forall i: nat
      ensures Wanted(w.torrents[t], have, i) <==> table.Available(i, Some(have))
    {
    }
  }

  /** The piece is too big for the budget at all, or for what is left of it, or there is no
      memory, or the request cannot be sent; otherwise the peer takes it. */
  ghost predicate NewRequest(w: World, w': World, t: nat, p: nat, i: nat, memory: Option<seq<byte>>, sent: bool) {
    && t < |w.torrents|
    && var mt, size := w.torrents[t], SizeOf(w.torrents[t].meta, i);
       if size > 67108864 then
         OnlyRun(w, w', t) && w'.open == w.open && w'.assemblyBytes == w.assemblyBytes
         && w'.torrents[t] == mt.(state := ERROR)
       else if size > 67108864 - w.assemblyBytes then w' == w
       else if memory.None? || |memory.value| != size || !sent then Dropped(w, w', t, p, DOWNLOADING, mt.files)
       else Taken(w, w', t, p, i, memory.value)
  }

  lemma NewRequestIs(w: World, t: nat, p: nat, next: nat, memory: Option<seq<byte>>, sent: bool)
    requires PeerActive(w, t, p) && w.torrents[t].table.Some?
    requires var peer := w.torrents[t].peers[p];
             !peer.choked && peer.pending == 0 && peer.have.Some? && peer.assembly.None?
             && w.torrents[t].table.value.GetNext(peer.have) == next
             && FirstWanted(w.torrents[t], peer.have.value, next)
    ensures NewRequest(w, Request(w, t, p, memory, sent), t, p, next, memory, sent)
  {
    hide Disconnect, Dropped, PieceTable.GetNext, SendRequest, Taken;
    var mt := w.torrents[t];
    DropIs(w, w, t, p, DOWNLOADING, mt.files);
    if memory.Some? {
      TakenIs(w, t, p, next, memory.value, sent);
    }
  }

  lemma TakenIs(w: World, t: nat, p: nat, i: nat, memory: seq<byte>, sent: bool)
    requires PeerActive(w, t, p) && w.torrents[t].table.Some? && i < |w.torrents[t].table.value.states|
    requires w.torrents[t].table.value.states[i] == FREE
    requires w.torrents[t].peers[p].assembly.None? && w.torrents[t].peers[p].pending == 0
    ensures var r := Reserve(w, t, p, i, memory);
            && PeerActive(r, t, p) && r.torrents[t].peers[p].assembly.Some?
            && (sent ==> Taken(w, SendRequest(r, t, p, sent), t, p, i, memory))
            && (!sent ==> Dropped(w, SendRequest(r, t, p, sent), t, p, DOWNLOADING, w.torrents[t].files))
  {
    hide Disconnect, RecordFailure, FailuresChange;
    var r := Reserve(w, t, p, i, memory);
    if !sent {
      DisconnectForm(r, t, p);
      FailureRecorded(w.torrents[t].candidates, w.torrents[t].peers[p].addr);
      var table := w.torrents[t].table.value;
      assert table.states[i := REQUESTED][i := FREE] == table.states;
      assert r.torrents[t].peers[p := ClosedPeer(r.torrents[t].peers[p])] ==
             w.torrents[t].peers[p := ClosedPeer(r.torrents[t].peers[p])];
    }
  }
}
