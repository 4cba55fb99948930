/** The sending half of process_peer keeps the invariant. */
module EngineRequests {
  import opened Bytes
  import opened Torrent
  import opened PieceMgr
  import opened Disk
  import opened EngineTypes
  import opened EngineSteps
  import opened EngineInvariants
  import opened EngineFrames
  import opened EnginePeers
  import opened EngineLifecycle
  import opened EngineTransfer

  lemma ErrorRunOk(mt: Managed, web: seq<Option<WebJob>>, conn: seq<Option<ConnJob>>)
    requires RunOk(mt, web, conn)
    ensures RunOk(mt.(state := ERROR), web, conn)
  {
    hide AssemblyOk, Verified;
    var mt' := mt.(state := ERROR);
    assert forall c: nat, a: Addr :: Connecting(mt, c, a) <==> Connecting(mt', c, a);
  }

  lemma SendRequestKeepsInv(w: World, t: nat, p: nat, sent: bool)
    requires Inv(w) && PeerActive(w, t, p)
    requires var peer := w.torrents[t].peers[p];
             peer.assembly.Some? && !peer.choked
    ensures Inv(SendRequest(w, t, p, sent))
  {
    hide Inv, Disconnect;
    PeerOf(w, t, p);
    DisconnectKeepsInv(w, t, p);
    if sent {
      var peer := w.torrents[t].peers[p];
      TouchPeerKeepsInv(w, t, p, peer.(pending := BlockLength(peer.assembly.value)));
    }
  }

  /** The run after peer p has taken over piece i. */
  function Reserved(mt: Managed, p: nat, i: nat, memory: seq<byte>): Managed
    requires p < |mt.peers| && mt.table.Some?
  {
    SetPeer(mt, p, mt.peers[p].(assembly := Some(Assembly(i, memory, 0, []))))
    .(table := Some(mt.table.value.Request(i)))
  }

  ghost predicate MayReserve(mt: Managed, p: nat, i: nat, memory: seq<byte>) {
    && p < |mt.peers| && mt.peers[p].sock.Some? && mt.peers[p].assembly.None? && mt.peers[p].pending == 0
    && mt.table.Some? && i < |mt.table.value.states| && mt.table.value.states[i] == FREE
    && i < mt.meta.NumPieces() && |memory| == mt.meta.PieceSize(i) && 0 < |memory| <= ASSEMBLY_LIMIT
  }

  lemma ReservedTableOk(mt: Managed, p: nat, i: nat, memory: seq<byte>)
    requires StateOk(mt) && TableOk(mt) && DiskOk(mt) && MayReserve(mt, p, i, memory)
    ensures var mt' := Reserved(mt, p, i, memory);
            StateOk(mt') && TableOk(mt') && DiskOk(mt')
  {
    hide Verified;
    SetStateConsistent(mt.table.value, i, REQUESTED);
    SumCompleteUpdate(mt.meta, mt.table.value.states, |mt.table.value.states|, i, REQUESTED);
  }

  lemma ReservedPeersOk(mt: Managed, p: nat, i: nat, memory: seq<byte>)
    requires PeersOk(mt) && MayReserve(mt, p, i, memory)
    ensures PeersOk(Reserved(mt, p, i, memory))
    ensures forall q: nat, k: nat :: PeerOwns(Reserved(mt, p, i, memory).peers, q, k) <==>
                                     (q == p && k == i) || PeerOwns(mt.peers, q, k)
  {
    var mt' := Reserved(mt, p, i, memory);
    PeerSumsUpdate(mt.peers, p, mt'.peers[p]);
    assert forall q: nat, k: nat :: PeerOwns(mt'.peers, q, k) <==> (q == p && k == i) || PeerOwns(mt.peers, q, k);
    assert PeerOk(mt.meta, mt'.peers[p]) by {
      assert memory[..0] == [];
    }
    forall q | 0 <= q < |mt'.peers|
      ensures PeerOk(mt.meta, mt'.peers[q])
    {
      if q != p {
        assert PeerOk(mt.meta, mt.peers[q]);
      }
    }
  }

  lemma ReservedWebOk(mt: Managed, p: nat, i: nat, memory: seq<byte>, web: seq<Option<WebJob>>)
    requires PeersOk(mt) && WebOk(mt, web) && MayReserve(mt, p, i, memory)
    ensures WebOk(Reserved(mt, p, i, memory), web)
  {
    hide PeersOk;
    var mt' := Reserved(mt, p, i, memory);
    ReservedPeersOk(mt, p, i, memory);
    forall j: nat, k: nat | JobOwns(web, j, mt.generation, k)
      ensures k != i
    {
      assert MyWeb(web, j, mt.generation);
    }
    if mt.state == DOWNLOADING {
      forall k | 0 <= k < |mt'.table.value.states| && mt'.table.value.states[k] == REQUESTED
        ensures Owned(mt', web, k)
      {
        if k == i {
          assert PeerOwns(mt'.peers, p, i);
        } else {
          assert Owned(mt, web, k);
          if q: nat :| PeerOwns(mt.peers, q, k) {
            assert PeerOwns(mt'.peers, q, k);
          }
        }
      }
    }
  }

  lemma ReservedConnOk(mt: Managed, p: nat, i: nat, memory: seq<byte>, conn: seq<Option<ConnJob>>)
    requires ConnOk(mt, conn) && MayReserve(mt, p, i, memory)
    ensures ConnOk(Reserved(mt, p, i, memory), conn)
  {
    var mt' := Reserved(mt, p, i, memory);
    assert forall c: nat, a: Addr :: Connecting(mt, c, a) <==> Connecting(mt', c, a);
    forall a: Addr
      ensures Connected(mt'.peers, a) <==> Connected(mt.peers, a)
    {
      assert forall q :: 0 <= q < |mt.peers| ==> (ConnectedAt(mt'.peers, q, a) <==> ConnectedAt(mt.peers, q, a));
    }
  }

  lemma ReserveKeepsInv(w: World, t: nat, p: nat, i: nat, memory: seq<byte>)
    requires Inv(w) && PeerActive(w, t, p) && MayReserve(w.torrents[t], p, i, memory)
    requires |memory| <= ASSEMBLY_LIMIT - w.assemblyBytes
    ensures Inv(Reserve(w, t, p, i, memory))
  {
    hide RunOk, TorrentOk, PeerSocks, PeerBytes, DiscOk, ConnSocks, AllTorrents;
    var mt := w.torrents[t];
    var mt' := Reserved(mt, p, i, memory);
    RunOf(w, t);
    ReservedRunOk(mt, p, i, memory, w.web, w.conn);
    PeerSumsUpdate(mt.peers, p, mt'.peers[p]);
    PeerSocksUpdate(mt.peers, p, mt'.peers[p]);
    SocksSame(PeerSocks(mt'.peers), PeerSocks(mt.peers), SockSet(mt.peers[p].sock));
    UpdateFrame(w, t, mt', w.assemblyBytes + |memory|, w.open);
    assert Reserve(w, t, p, i, memory) ==
           SetTorrent(w, t, mt').(assemblyBytes := w.assemblyBytes + |memory|, open := w.open);
  }

  lemma ReservedRunOk(mt: Managed, p: nat, i: nat, memory: seq<byte>,
                      web: seq<Option<WebJob>>, conn: seq<Option<ConnJob>>)
    requires RunOk(mt, web, conn) && MayReserve(mt, p, i, memory)
    ensures RunOk(Reserved(mt, p, i, memory), web, conn)
  {
    hide StateOk, TableOk, DiskOk, PeersOk, WebOk, ConnOk;
    ReservedTableOk(mt, p, i, memory);
    ReservedPeersOk(mt, p, i, memory);
    ReservedWebOk(mt, p, i, memory, web);
    ReservedConnOk(mt, p, i, memory, conn);
    assert CandidatesOk(Reserved(mt, p, i, memory));
  }

  lemma RequestKeepsInv(w: World, t: nat, p: nat, memory: Option<seq<byte>>, sent: bool)
    requires Inv(w)
    ensures Inv(Request(w, t, p, memory, sent))
  {
    hide Inv, Disconnect, SendRequest, Reserve, RunOk;
    if PeerActive(w, t, p) && w.torrents[t].table.Some? {
      var mt := w.torrents[t];
      var peer := mt.peers[p];
      PeerOf(w, t, p);
      DisconnectKeepsInv(w, t, p);
      if !peer.choked && peer.pending == 0 && peer.have.Some? {
        if peer.assembly.Some? {
          SendRequestKeepsInv(w, t, p, sent);
        } else {
          NewRequestKeepsInv(w, t, p, memory, sent);
        }
      }
    }
  }

  lemma NewRequestKeepsInv(w: World, t: nat, p: nat, memory: Option<seq<byte>>, sent: bool)
    requires Inv(w) && PeerActive(w, t, p) && w.torrents[t].table.Some?
    requires var peer := w.torrents[t].peers[p];
             !peer.choked && peer.pending == 0 && peer.have.Some? && peer.assembly.None?
    ensures Inv(Request(w, t, p, memory, sent))
  {
    hide Inv, Disconnect, SendRequest, RunOk;
    var mt := w.torrents[t];
    var peer := mt.peers[p];
    RunOf(w, t);
    ShapeOf(w, t);
    DisconnectKeepsInv(w, t, p);
    ConsistentOf(w, t);
    GetNextFinds(mt.table.value, peer.have);
    var next := mt.table.value.GetNext(peer.have);
    if next >= 0 {
      SizesCoincide(mt.meta, next);
      PieceGeometry(mt.meta, next);
      var size := mt.meta.PieceSize(next);
      if size > ASSEMBLY_LIMIT {
        ErrorRunOk(mt, w.web, w.conn);
        UpdateQuietly(w, t, mt.(state := ERROR));
      } else if size <= ASSEMBLY_LIMIT - w.assemblyBytes && memory.Some? && |memory.value| == size {
        ReserveKeepsInv(w, t, p, next, memory.value);
        SendRequestKeepsInv(Reserve(w, t, p, next, memory.value), t, p, sent);
      }
    }
  }

  lemma ConsistentOf(w: World, t: nat)
    requires Inv(w) && t < |w.torrents| && w.torrents[t].table.Some?
    ensures w.torrents[t].table.value.Consistent()
  {
    RunOf(w, t);
  }
}
