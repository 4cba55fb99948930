/** process_peer keeps the invariant: messages, blocks, verified pieces, requests. */
module EngineTransfer {
  import opened Bytes
  import opened Bitfield
  import opened Torrent
  import opened PieceMgr
  import opened Disk
  import opened EngineTypes
  import opened EngineSteps
  import opened EngineInvariants
  import opened EngineFrames
  import opened EnginePeers
  import opened EngineLifecycle
  import Sha1Spec

  // ----- the disk -------------------------------------------------------------

  /** A successful write of bytes with the expected hash verifies the piece. */
  lemma WriteVerifies(meta: Metainfo, files: Files, i: nat, data: seq<byte>, files': Files)
    requires meta.Accepted() && HashMatches(meta, i, data) && |data| == meta.PieceSize(i)
    requires WriteEffect(meta.OutputLengths(), files, meta.PieceStart(i), data, files', true)
    ensures Verified(meta, files', i)
  {
    hide Sha1Spec.Digest, Cell;
    var lengths, start := meta.OutputLengths(), meta.PieceStart(i);
    assert StoredBytes(lengths, files', start, |data|) == data by {
      forall k | 0 <= k < |data|
        ensures StoredBytes(lengths, files', start, |data|)[k] == data[k]
      {
        assert Cell(lengths, files', start + k) == Some(data[start + k - start]);
      }
    }
  }

  /** No write, not even a failed one, disturbs another verified piece. */
  lemma WriteKeepsOthers(meta: Metainfo, files: Files, i: nat, data: seq<byte>, files': Files, ok: bool, k: nat)
    requires meta.Accepted() && i < meta.NumPieces() && |data| == meta.PieceSize(i) && k != i
    requires WriteEffect(meta.OutputLengths(), files, meta.PieceStart(i), data, files', ok)
    requires Verified(meta, files, k)
    ensures Verified(meta, files', k)
  {
    hide Sha1Spec.Digest, Cell;
    var lengths, start, n := meta.OutputLengths(), meta.PieceStart(k), meta.PieceSize(k);
    if i < k {
      PiecesDisjoint(meta, i, k);
    } else {
      PiecesDisjoint(meta, k, i);
    }
    assert forall g :: start <= g < start + n ==> Cell(lengths, files', g) == Cell(lengths, files, g);
    assert StoredBytes(lengths, files', start, n) == StoredBytes(lengths, files, start, n) by {
      forall o | 0 <= o < n
        ensures StoredBytes(lengths, files', start, n)[o] == StoredBytes(lengths, files, start, n)[o]
      {
        assert Cell(lengths, files', start + o) == Cell(lengths, files, start + o);
      }
    }
  }

  lemma OutcomeIsEffect(mt: Managed, i: nat, data: seq<byte>, o: WriteOutcome)
    requires Admissible(mt.meta, mt.files)
    ensures var r := Outcome(mt, i, data, o);
            WriteEffect(mt.meta.OutputLengths(), mt.files, mt.meta.PieceStart(i), data, r.files, r.ok)
  {
    hide Cell;
  }

  // ----- touching one peer ----------------------------------------------------

  /** The new peer record keeps socket, address and the reserved piece. */
  ghost predicate SameClaims(a: Peer, b: Peer) {
    && a.sock == b.sock && a.addr == b.addr
    && (a.assembly.Some? <==> b.assembly.Some?)
    && (a.assembly.Some? ==>
          a.assembly.value.index == b.assembly.value.index &&
          |a.assembly.value.buffer| == |b.assembly.value.buffer|)
  }

  lemma TouchPeerOk(mt: Managed, p: nat, peer: Peer, web: seq<Option<WebJob>>, conn: seq<Option<ConnJob>>)
    requires RunOk(mt, web, conn) && p < |mt.peers| && SameClaims(mt.peers[p], peer) && PeerOk(mt.meta, peer)
    ensures RunOk(SetPeer(mt, p, peer), web, conn)
  {
    hide PeersOk, WebOk, ConnOk, Verified, Admissible, Addable, SumComplete, PieceTable.Consistent;
    TouchPeersOk(mt, p, peer);
    TouchWebOk(mt, p, peer, web);
    TouchConnOk(mt, p, peer, conn);
  }

  lemma TouchPeersOk(mt: Managed, p: nat, peer: Peer)
    requires PeersOk(mt) && p < |mt.peers| && SameClaims(mt.peers[p], peer) && PeerOk(mt.meta, peer)
    ensures PeersOk(SetPeer(mt, p, peer))
  {
    hide AssemblyOk;
    PeerSumsUpdate(mt.peers, p, peer);
    assert forall q: nat, i: nat :: PeerOwns(SetPeer(mt, p, peer).peers, q, i) <==> PeerOwns(mt.peers, q, i);
  }

  lemma TouchWebOk(mt: Managed, p: nat, peer: Peer, web: seq<Option<WebJob>>)
    requires WebOk(mt, web) && p < |mt.peers| && SameClaims(mt.peers[p], peer)
    ensures WebOk(SetPeer(mt, p, peer), web)
  {
    var mt' := SetPeer(mt, p, peer);
    assert forall q: nat, i: nat :: PeerOwns(mt'.peers, q, i) <==> PeerOwns(mt.peers, q, i);
    assert forall i: nat :: Owned(mt', web, i) <==> Owned(mt, web, i);
  }

  lemma TouchConnOk(mt: Managed, p: nat, peer: Peer, conn: seq<Option<ConnJob>>)
    requires ConnOk(mt, conn) && p < |mt.peers| && SameClaims(mt.peers[p], peer)
    ensures ConnOk(SetPeer(mt, p, peer), conn)
  {
    var mt' := SetPeer(mt, p, peer);
    assert forall c: nat, a: Addr :: Connecting(mt', c, a) <==> Connecting(mt, c, a);
    forall a: Addr
      ensures Connected(mt'.peers, a) <==> Connected(mt.peers, a)
    {
      assert forall q :: 0 <= q < |mt.peers| ==> (ConnectedAt(mt'.peers, q, a) <==> ConnectedAt(mt.peers, q, a));
    }
  }

  lemma TouchPeerKeepsInv(w: World, t: nat, p: nat, peer: Peer)
    requires Inv(w) && HasPeer(w, t, p)
    requires SameClaims(w.torrents[t].peers[p], peer) && PeerOk(w.torrents[t].meta, peer)
    ensures Inv(SetTorrent(w, t, SetPeer(w.torrents[t], p, peer)))
  {
    hide Inv, RunOk, TorrentOk, PeerOk;
    var mt := w.torrents[t];
    RunOf(w, t);
    TouchPeerOk(mt, p, peer, w.web, w.conn);
    PeerSumsUpdate(mt.peers, p, peer);
    PeerSocksUpdate(mt.peers, p, peer);
    SocksSame(PeerSocks(mt.peers[p := peer]), PeerSocks(mt.peers), SockSet(peer.sock));
    UpdateQuietly(w, t, SetPeer(mt, p, peer));
  }

  lemma SocksSame(a: multiset<nat>, b: multiset<nat>, s: multiset<nat>)
    requires a + s == b + s
    ensures a == b
  {
    forall x: nat
      ensures a[x] == b[x]
    {
      assert (a + s)[x] == (b + s)[x];
    }
  }

  lemma PeerOf(w: World, t: nat, p: nat)
    requires Inv(w) && HasPeer(w, t, p)
    ensures PeerOk(w.torrents[t].meta, w.torrents[t].peers[p])
    ensures w.torrents[t].meta.Accepted() && w.torrents[t].table.Some?
    ensures w.torrents[t].peers[p].assembly.Some? ==>
              var i := w.torrents[t].peers[p].assembly.value.index;
              i < |w.torrents[t].table.value.states| && w.torrents[t].table.value.states[i] == REQUESTED
  {
    RunOf(w, t);
    var peer := w.torrents[t].peers[p];
    if peer.assembly.Some? {
      assert PeerOwns(w.torrents[t].peers, p, peer.assembly.value.index);
    }
  }

  // ----- messages -------------------------------------------------------------

  lemma LearnKeepsInv(w: World, t: nat, p: nat, msg: Message, hasMemory: bool)
    requires Inv(w) && PeerActive(w, t, p) && (msg.BitfieldMsg? || msg.Have?)
    ensures Inv(Learn(w, t, p, msg, hasMemory))
  {
    hide Inv, Disconnect, AssemblyOk;
    PeerOf(w, t, p);
    DisconnectKeepsInv(w, t, p);
    var w' := Learn(w, t, p, msg, hasMemory);
    if w' != Disconnect(w, t, p) {
      TouchPeerKeepsInv(w, t, p, w'.torrents[t].peers[p]);
    }
  }

  /** An accepted block extends the gap-free prefix. */
  lemma AppendOk(meta: Metainfo, a: Assembly, block: seq<byte>)
    requires AssemblyOk(meta, a) && |block| == BlockLength(a)
    ensures a.received + |block| <= |a.buffer|
    ensures var a' := Append(a, block);
            && |a'.buffer| == |a.buffer| && a'.index == a.index
            && a'.buffer[..a'.received] == Flatten(a'.blocks)
            && (a'.received < |a'.buffer| ==> AssemblyOk(meta, a'))
  {
    var a' := Append(a, block);
    assert a'.blocks[..|a.blocks|] == a.blocks;
    assert a'.buffer[..a'.received] == a.buffer[..a.received] + block;
  }

  lemma ReceiveKeepsInv(w: World, t: nat, p: nat, msg: Message, o: WriteOutcome)
    requires Inv(w) && PeerActive(w, t, p) && msg.Piece?
    ensures Inv(Receive(w, t, p, msg, o))
  {
    hide Inv, Disconnect, AssemblyOk, FinishPiece;
    PeerOf(w, t, p);
    DisconnectKeepsInv(w, t, p);
    var peer := w.torrents[t].peers[p];
    if Expected(peer, msg) && |msg.block| == peer.pending {
      var a := peer.assembly.value;
      AppendOk(w.torrents[t].meta, a, msg.block);
      var a' := Append(a, msg.block);
      if a'.received < |a'.buffer| {
        TouchPeerKeepsInv(w, t, p, peer.(assembly := Some(a'), pending := 0));
      } else {
        FinishKeepsInv(w, t, p, a', o);
      }
    }
  }

  /** The run after the last block of piece i has been verified and written. */
  function Finished(mt: Managed, p: nat, i: nat, size: int, files: Files): Managed
    requires p < |mt.peers| && mt.table.Some? && i < |mt.table.value.states|
    requires |mt.table.value.bitfield| == (|mt.table.value.states| + 7) / 8
  {
    SetPeer(StorePiece(mt, i, size, files), p, mt.peers[p].(assembly := None, pending := 0))
    .(candidates := ClearFailures(mt.candidates, mt.peers[p].addr))
  }

  /** Counters, states and disk after piece i has been stored. */
  lemma StoreKeepsTable(mt: Managed, i: nat, data: seq<byte>, files: Files)
    requires StateOk(mt) && TableOk(mt) && DiskOk(mt) && mt.table.Some?
    requires i < |mt.table.value.states| && mt.table.value.states[i] != COMPLETE
    requires HashMatches(mt.meta, i, data) && |data| == mt.meta.PieceSize(i)
    requires WriteEffect(mt.meta.OutputLengths(), mt.files, mt.meta.PieceStart(i), data, files, true)
    ensures StateOk(StorePiece(mt, i, |data|, files)) && TableOk(StorePiece(mt, i, |data|, files))
    ensures DiskOk(StorePiece(mt, i, |data|, files))
  {
    hide Verified, WriteEffect, HashMatches, SetBit;
    var table := mt.table.value;
    FinishConsistent(table, i);
    SumCompleteUpdate(mt.meta, table.states, |table.states|, i, COMPLETE);
    WriteVerifies(mt.meta, mt.files, i, data, files);
    forall k | 0 <= k < |table.states| && k != i && table.states[k] == COMPLETE
      ensures Verified(mt.meta, files, k)
    {
      WriteKeepsOthers(mt.meta, mt.files, i, data, files, true, k);
    }
    assert |files| == |mt.files| by { EffectKeepsCount(mt, i, data, files, true); }
  }

  lemma EffectKeepsCount(mt: Managed, i: nat, data: seq<byte>, files: Files, ok: bool)
    requires WriteEffect(mt.meta.OutputLengths(), mt.files, mt.meta.PieceStart(i), data, files, ok)
    ensures |files| == |mt.files|
  {
  }

  lemma FinishedPeersOk(mt: Managed, p: nat, i: nat, size: int, files: Files)
    requires PeersOk(mt) && p < |mt.peers| && PeerOwns(mt.peers, p, i)
    requires mt.table.Some? && i < |mt.table.value.states|
    requires |mt.table.value.bitfield| == (|mt.table.value.states| + 7) / 8
    ensures PeersOk(Finished(mt, p, i, size, files))
    ensures forall q: nat, k: nat :: PeerOwns(Finished(mt, p, i, size, files).peers, q, k) <==>
                                     q != p && PeerOwns(mt.peers, q, k)
  {
    hide AssemblyOk, SetBit;
    var mt' := Finished(mt, p, i, size, files);
    PeerSumsUpdate(mt.peers, p, mt'.peers[p]);
    assert forall q: nat, k: nat :: PeerOwns(mt'.peers, q, k) <==> q != p && PeerOwns(mt.peers, q, k);
  }

  lemma FinishedWebOk(mt: Managed, p: nat, i: nat, size: int, files: Files, web: seq<Option<WebJob>>)
    requires PeersOk(mt) && WebOk(mt, web) && p < |mt.peers| && PeerOwns(mt.peers, p, i)
    requires mt.table.Some? && i < |mt.table.value.states|
    requires |mt.table.value.bitfield| == (|mt.table.value.states| + 7) / 8
    ensures WebOk(Finished(mt, p, i, size, files), web)
  {
    hide SetBit, PeersOk;
    var mt' := Finished(mt, p, i, size, files);
    FinishedPeersOk(mt, p, i, size, files);
    forall j: nat | MyWeb(web, j, mt.generation)
      ensures WebJobOk(mt', web[j].value)
    {
      assert InBatch(web[j].value, i) ==> JobOwns(web, j, mt.generation, i);
    }
    if mt.state == DOWNLOADING {
      forall k | 0 <= k < |mt'.table.value.states| && mt'.table.value.states[k] == REQUESTED
        ensures Owned(mt', web, k)
      {
        assert k != i && Owned(mt, web, k);
        if q: nat :| PeerOwns(mt.peers, q, k) {
          assert q != p;
          assert PeerOwns(mt'.peers, q, k);
        }
      }
    }
  }

  lemma FinishedConnOk(mt: Managed, p: nat, i: nat, size: int, files: Files, conn: seq<Option<ConnJob>>)
    requires PeersOk(mt) && ConnOk(mt, conn) && p < |mt.peers|
    requires mt.table.Some? && i < |mt.table.value.states|
    requires |mt.table.value.bitfield| == (|mt.table.value.states| + 7) / 8
    ensures ConnOk(Finished(mt, p, i, size, files), conn)
  {
    hide SetBit, AssemblyOk;
    var mt' := Finished(mt, p, i, size, files);
    assert forall c: nat, a: Addr :: Connecting(mt, c, a) <==> Connecting(mt', c, a);
    forall a: Addr
      ensures Connected(mt'.peers, a) <==> Connected(mt.peers, a)
    {
      assert forall q :: 0 <= q < |mt.peers| ==> (ConnectedAt(mt'.peers, q, a) <==> ConnectedAt(mt.peers, q, a));
    }
  }

  lemma FinishedOk(mt: Managed, p: nat, i: nat, data: seq<byte>, files: Files,
                   web: seq<Option<WebJob>>, conn: seq<Option<ConnJob>>)
    requires RunOk(mt, web, conn) && p < |mt.peers| && PeerOwns(mt.peers, p, i) && mt.table.Some?
    requires HashMatches(mt.meta, i, data) && |data| == mt.meta.PieceSize(i)
    requires WriteEffect(mt.meta.OutputLengths(), mt.files, mt.meta.PieceStart(i), data, files, true)
    ensures RunOk(Finished(mt, p, i, |data|, files), web, conn)
  {
    hide Verified, WriteEffect, HashMatches, SetBit, PeersOk, WebOk, ConnOk;
    RequestedOfOwner(mt, p, i);
    StoreKeepsTable(mt, i, data, files);
    FinishedPeersOk(mt, p, i, |data|, files);
    FinishedWebOk(mt, p, i, |data|, files, web);
    FinishedConnOk(mt, p, i, |data|, files, conn);
  }

  lemma RequestedOfOwner(mt: Managed, p: nat, i: nat)
    requires PeersOk(mt) && PeerOwns(mt.peers, p, i)
    ensures mt.table.Some? && i < |mt.table.value.states| && mt.table.value.states[i] == REQUESTED
  {
  }

  /** A run whose files suffered a failed write of an unfinished piece and that went into ERROR. */
  lemma FailedWriteOk(mt: Managed, i: nat, data: seq<byte>, files: Files,
                      web: seq<Option<WebJob>>, conn: seq<Option<ConnJob>>)
    requires RunOk(mt, web, conn) && mt.table.Some? && i < |mt.table.value.states|
    requires mt.table.value.states[i] != COMPLETE && |data| == mt.meta.PieceSize(i)
    requires WriteEffect(mt.meta.OutputLengths(), mt.files, mt.meta.PieceStart(i), data, files, false)
    ensures RunOk(mt.(files := files, state := ERROR), web, conn)
  {
    hide Verified, WriteEffect, AssemblyOk;
    var mt' := mt.(files := files, state := ERROR);
    EffectKeepsCount(mt, i, data, files, false);
    forall k | 0 <= k < |mt.table.value.states| && mt.table.value.states[k] == COMPLETE
      ensures Verified(mt.meta, files, k)
    {
      WriteKeepsOthers(mt.meta, mt.files, i, data, files, false, k);
    }
    assert forall c: nat, a: Addr :: Connecting(mt, c, a) <==> Connecting(mt', c, a);
  }

  /** The last block of a piece: every branch keeps the invariant. */
  lemma FinishKeepsInv(w: World, t: nat, p: nat, a: Assembly, o: WriteOutcome)
    requires Inv(w) && PeerActive(w, t, p) && w.torrents[t].peers[p].assembly.Some?
    requires var b := w.torrents[t].peers[p].assembly.value;
             a.index == b.index && |a.buffer| == |b.buffer|
    ensures var peer := w.torrents[t].peers[p].(assembly := Some(a), pending := 0);
            Inv(FinishPiece(SetTorrent(w, t, SetPeer(w.torrents[t], p, peer)), t, p, o))
  {
    hide Inv, Disconnect, RunOk, Verified, WriteEffect, HashMatches, SetBit, TorrentOk, Outcome, StorePiece, ReleasePiece,
         ClearFailures, Finished;
    var mt := w.torrents[t];
    var peer := mt.peers[p].(assembly := Some(a), pending := 0);
    var mt1 := SetPeer(mt, p, peer);
    var w1 := SetTorrent(w, t, mt1);
    PeerOf(w, t, p);
    RunOf(w, t);
    ShapeOf(w, t);
    BufferOf(w, t, p);
    if !HashMatches(mt.meta, a.index, a.buffer) {
      DisconnectKeepsInv(w, t, p);
      DisconnectIgnoresContent(w, t, p, peer);
    } else {
      var outcome := Outcome(mt1, a.index, a.buffer, o);
      OutcomeIsEffect(mt1, a.index, a.buffer, o);
      if !outcome.ok {
        var failed := mt.(files := outcome.files, state := ERROR);
        var w2 := SetTorrent(w, t, failed);
        FailedWriteOk(mt, a.index, a.buffer, outcome.files, w.web, w.conn);
        UpdateQuietly(w, t, failed);
        DisconnectKeepsInv(w2, t, p);
        DisconnectIgnoresContent(w2, t, p, peer);
        assert SetTorrent(w1, t, mt1.(files := outcome.files, state := ERROR)) ==
               SetTorrent(w2, t, SetPeer(w2.torrents[t], p, peer));
      } else {
        FinishedKeepsInv(w, t, p, a, outcome.files);
        FinishForm(w, t, p, a, outcome.files);
      }
    }
  }

  lemma ShapeOf(w: World, t: nat)
    requires Inv(w) && t < |w.torrents| && w.torrents[t].table.Some?
    ensures TableShape(w.torrents[t]) && Admissible(w.torrents[t].meta, w.torrents[t].files)
  {
    RunOf(w, t);
  }

  lemma BufferOf(w: World, t: nat, p: nat)
    requires Inv(w) && HasPeer(w, t, p) && w.torrents[t].peers[p].assembly.Some?
    ensures var a := w.torrents[t].peers[p].assembly.value;
            |a.buffer| == w.torrents[t].meta.PieceSize(a.index) && PeerOwns(w.torrents[t].peers, p, a.index)
  {
    PeerOf(w, t, p);
  }

  lemma FinishedKeepsInv(w: World, t: nat, p: nat, a: Assembly, files: Files)
    requires Inv(w) && PeerActive(w, t, p) && w.torrents[t].peers[p].assembly.Some?
    requires w.torrents[t].table.Some? && TableShape(w.torrents[t])
    requires var b := w.torrents[t].peers[p].assembly.value;
             a.index == b.index && |a.buffer| == |b.buffer|
    requires HashMatches(w.torrents[t].meta, a.index, a.buffer)
    requires WriteEffect(w.torrents[t].meta.OutputLengths(), w.torrents[t].files,
                         w.torrents[t].meta.PieceStart(a.index), a.buffer, files, true)
    ensures a.index < |w.torrents[t].table.value.states|
    ensures Inv(SetTorrent(w, t, Finished(w.torrents[t], p, a.index, |a.buffer|, files))
                .(assemblyBytes := w.assemblyBytes - |a.buffer|))
  {
    hide RunOk, Verified, WriteEffect, HashMatches, SetBit, TorrentOk, PeerSocks, PeerBytes, DiscOk, ConnSocks;
    var mt := w.torrents[t];
    BufferOf(w, t, p);
    PeerOf(w, t, p);
    RunOf(w, t);
    FinishedOk(mt, p, a.index, a.buffer, files, w.web, w.conn);
    var mt' := Finished(mt, p, a.index, |a.buffer|, files);
    PeerSumsUpdate(mt.peers, p, mt'.peers[p]);
    PeerSocksUpdate(mt.peers, p, mt'.peers[p]);
    SocksSame(PeerSocks(mt'.peers), PeerSocks(mt.peers), SockSet(mt.peers[p].sock));
    UpdateFrame(w, t, mt', w.assemblyBytes - |a.buffer|, w.open);
    assert SetTorrent(w, t, mt').(assemblyBytes := w.assemblyBytes - |a.buffer|) ==
           SetTorrent(w, t, mt').(assemblyBytes := w.assemblyBytes - |a.buffer|, open := w.open);
  }

  /** FinishPiece in one step: releasing the buffer leaves a COMPLETE piece alone. */
  lemma FinishForm(w: World, t: nat, p: nat, a: Assembly, files: Files)
    requires HasPeer(w, t, p) && w.torrents[t].table.Some? && TableShape(w.torrents[t])
    requires a.index < |w.torrents[t].table.value.states|
    ensures var mt1 := SetPeer(w.torrents[t], p, w.torrents[t].peers[p].(assembly := Some(a), pending := 0));
            var m := StorePiece(mt1, a.index, |a.buffer|, files);
            ReleasePiece(SetTorrent(SetTorrent(w, t, mt1), t,
                                    m.(candidates := ClearFailures(m.candidates, mt1.peers[p].addr))), t, p) ==
            SetTorrent(w, t, Finished(w.torrents[t], p, a.index, |a.buffer|, files))
            .(assemblyBytes := w.assemblyBytes - |a.buffer|)
  {
    hide SetBit;
    var mt := w.torrents[t];
    var peer := mt.peers[p].(assembly := Some(a), pending := 0);
    var mt1 := SetPeer(mt, p, peer);
    var m := StorePiece(mt1, a.index, |a.buffer|, files);
    var r := ReleasePiece(SetTorrent(SetTorrent(w, t, mt1), t,
                          m.(candidates := ClearFailures(m.candidates, mt1.peers[p].addr))), t, p);
    assert m.table.value.Release(a.index) == m.table.value;
    assert r.torrents[t].peers == Finished(mt, p, a.index, |a.buffer|, files).peers;
    assert r.torrents[t] == Finished(mt, p, a.index, |a.buffer|, files);
    assert r.torrents == w.torrents[t := r.torrents[t]];
  }

  lemma RecvKeepsInv(w: World, t: nat, p: nat, msg: Message, hasMemory: bool, o: WriteOutcome)
    requires Inv(w)
    ensures Inv(Recv(w, t, p, msg, hasMemory, o))
  {
    hide Inv, Disconnect, Learn, Receive, AssemblyOk;
    if PeerActive(w, t, p) {
      PeerOf(w, t, p);
      var peer := w.torrents[t].peers[p];
      match msg
      case Invalid => DisconnectKeepsInv(w, t, p);
      case Choke => TouchPeerKeepsInv(w, t, p, peer.(choked := true, pending := 0));
      case Unchoke => TouchPeerKeepsInv(w, t, p, peer.(choked := false));
      case BitfieldMsg(_) => LearnKeepsInv(w, t, p, msg, hasMemory);
      case Have(_) => LearnKeepsInv(w, t, p, msg, hasMemory);
      case Piece(_, _, _) => ReceiveKeepsInv(w, t, p, msg, o);
      case Other =>
    }
  }

  lemma TimeOutKeepsInv(w: World, t: nat, p: nat)
    requires Inv(w)
    ensures Inv(TimeOut(w, t, p))
  {
    hide Inv, Disconnect;
    if PeerActive(w, t, p) {
      DisconnectKeepsInv(w, t, p);
    }
  }
}
