/** Closing peers: disconnect_peer and the loops around it keep the invariant. */
module EnginePeers {
  import opened Bytes
  import opened Torrent
  import opened PieceMgr
  import opened Disk
  import opened EngineTypes
  import opened EngineSteps
  import opened EngineInvariants
  import opened EngineFrames
  import Sha1Spec

  function ClosedPeer(peer: Peer): Peer {
    peer.(sock := None, assembly := None, pending := 0, have := None)
  }

  /** What disconnect_peer leaves of the torrent. */
  function Disconnected(mt: Managed, p: nat): Managed
    requires p < |mt.peers|
  {
    var peer := mt.peers[p];
    mt.(peers := mt.peers[p := ClosedPeer(peer)],
        active := mt.active - IsOpen(peer),
        candidates := if peer.sock.Some? && mt.state == DOWNLOADING then RecordFailure(mt.candidates, peer.addr)
                      else mt.candidates,
        table := if peer.assembly.Some? then ReleaseInTable(mt.table, peer.assembly.value.index) else mt.table)
  }

  lemma DisconnectForm(w: World, t: nat, p: nat)
    requires HasPeer(w, t, p)
    ensures var peer := w.torrents[t].peers[p];
            Disconnect(w, t, p) ==
            SetTorrent(w, t, Disconnected(w.torrents[t], p))
            .(assemblyBytes := w.assemblyBytes - BufferSize(peer), open := CloseJobSocket(w.open, peer.sock))
  {
    var mt := w.torrents[t];
    var peer := mt.peers[p];
    var w1 := CloseSocket(w, t, p);
    var w2 := ReleasePiece(w1, t, p);
    var w3 := DropBitfield(w2, t, p);
    assert w3.torrents[t].peers == mt.peers[p := ClosedPeer(peer)];
    assert w3.torrents[t] == Disconnected(mt, p);
    assert w3.torrents == w.torrents[t := Disconnected(mt, p)];
  }

  /** Nothing but an address, a socket and the reserved piece decides what a disconnect does. */
  lemma DisconnectIgnoresContent(w: World, t: nat, p: nat, peer: Peer)
    requires HasPeer(w, t, p)
    requires peer.sock == w.torrents[t].peers[p].sock && ClosedPeer(peer) == ClosedPeer(w.torrents[t].peers[p])
    requires peer.assembly.Some? <==> w.torrents[t].peers[p].assembly.Some?
    requires peer.assembly.Some? ==>
               && peer.assembly.value.index == w.torrents[t].peers[p].assembly.value.index
               && |peer.assembly.value.buffer| == |w.torrents[t].peers[p].assembly.value.buffer|
    ensures Disconnect(SetTorrent(w, t, SetPeer(w.torrents[t], p, peer)), t, p) == Disconnect(w, t, p)
  {
    var mt := w.torrents[t];
    var w' := SetTorrent(w, t, SetPeer(mt, p, peer));
    DisconnectForm(w, t, p);
    DisconnectForm(w', t, p);
    assert w'.torrents[t].peers[p := ClosedPeer(peer)] == mt.peers[p := ClosedPeer(mt.peers[p])];
    assert Disconnected(w'.torrents[t], p) == Disconnected(mt, p);
    assert w'.torrents[t := Disconnected(mt, p)] == w.torrents[t := Disconnected(mt, p)];
  }

  /** Giving up a reserved piece keeps table, counters and disk in order. */
  lemma ReleaseKeepsTable(mt: Managed, i: nat, mt': Managed)
    requires StateOk(mt) && TableOk(mt) && DiskOk(mt) && mt.table.Some?
    requires i < |mt.table.value.states| && mt.table.value.states[i] == REQUESTED
    requires mt' == mt.(peers := mt'.peers, active := mt'.active, candidates := mt'.candidates,
                        table := ReleaseInTable(mt.table, i))
    ensures StateOk(mt') && TableOk(mt') && DiskOk(mt')
  {
    hide Verified;
    var table := mt.table.value;
    SetStateConsistent(table, i, FREE);
    SumCompleteUpdate(mt.meta, table.states, |table.states|, i, FREE);
  }

  lemma ClosedPeersOk(mt: Managed, p: nat)
    requires PeersOk(mt) && p < |mt.peers|
    ensures PeersOk(Disconnected(mt, p))
  {
    hide AssemblyOk;
    var mt' := Disconnected(mt, p);
    PeerSumsUpdate(mt.peers, p, ClosedPeer(mt.peers[p]));
    forall q: nat, i: nat | PeerOwns(mt'.peers, q, i)
      ensures PeerOwns(mt.peers, q, i) && q != p
      ensures mt'.table.Some? && i < |mt'.table.value.states| && mt'.table.value.states[i] == REQUESTED
    {
      assert PeerOwns(mt.peers, q, i);
      if mt.peers[p].assembly.Some? {
        assert PeerOwns(mt.peers, p, mt.peers[p].assembly.value.index);
      }
    }
  }

  lemma ClosedWebOk(mt: Managed, p: nat, web: seq<Option<WebJob>>)
    requires PeersOk(mt) && WebOk(mt, web) && p < |mt.peers|
    ensures WebOk(Disconnected(mt, p), web)
  {
    var mt' := Disconnected(mt, p);
    var g := mt.generation;
    forall q: nat, i: nat | PeerOwns(mt'.peers, q, i)
      ensures PeerOwns(mt.peers, q, i)
    {
    }
    if mt.peers[p].assembly.Some? {
      var i := mt.peers[p].assembly.value.index;
      assert PeerOwns(mt.peers, p, i);
      forall j: nat | MyWeb(web, j, g)
        ensures WebJobOk(mt', web[j].value)
      {
        assert InBatch(web[j].value, i) ==> JobOwns(web, j, g, i);
      }
      if mt.state == DOWNLOADING {
        forall k | 0 <= k < |mt'.table.value.states| && mt'.table.value.states[k] == REQUESTED
          ensures Owned(mt', web, k)
        {
          assert k != i && Owned(mt, web, k);
          if q: nat :| PeerOwns(mt.peers, q, k) {
            assert PeerOwns(mt'.peers, q, k);
          }
        }
      }
    } else {
      forall k: nat | Owned(mt, web, k)
        ensures Owned(mt', web, k)
      {
        if q: nat :| PeerOwns(mt.peers, q, k) {
          assert PeerOwns(mt'.peers, q, k);
        }
      }
    }
  }

  lemma ClosedConnOk(mt: Managed, p: nat, conn: seq<Option<ConnJob>>)
    requires PeersOk(mt) && ConnOk(mt, conn) && p < |mt.peers| && mt.table.Some?
    ensures ConnOk(Disconnected(mt, p), conn)
  {
    var mt' := Disconnected(mt, p);
    forall a: Addr | Connected(mt'.peers, a)
      ensures Connected(mt.peers, a)
    {
      var q :| 0 <= q < |mt'.peers| && ConnectedAt(mt'.peers, q, a);
      assert ConnectedAt(mt.peers, q, a);
    }
    forall c: nat, a: Addr
      ensures Connecting(mt', c, a) <==> Connecting(mt, c, a)
    {
    }
  }

  lemma DisconnectedOk(mt: Managed, p: nat, web: seq<Option<WebJob>>, conn: seq<Option<ConnJob>>)
    requires RunOk(mt, web, conn) && p < |mt.peers|
    ensures RunOk(Disconnected(mt, p), web, conn)
  {
    var mt' := Disconnected(mt, p);
    assert mt.table.Some?;
    ClosedPeersOk(mt, p);
    ClosedWebOk(mt, p, web);
    ClosedConnOk(mt, p, conn);
    if mt.peers[p].assembly.Some? {
      assert PeerOwns(mt.peers, p, mt.peers[p].assembly.value.index);
      ReleaseKeepsTable(mt, mt.peers[p].assembly.value.index, mt');
    }
  }

  lemma MoveAcross(a': multiset<nat>, s: multiset<nat>, a: multiset<nat>, o: multiset<nat>, o': multiset<nat>)
    requires a' + s == a && o == o' + s
    ensures a' + o == a + o'
  {
    assert a' + (o' + s) == (a' + s) + o';
  }

  lemma DisconnectBalance(w: World, t: nat, p: nat)
    requires SocketsOk(w) && HasPeer(w, t, p)
    ensures var mt := w.torrents[t];
            PeerSocks(Disconnected(mt, p).peers) + multiset(w.open) ==
            PeerSocks(mt.peers) + multiset(CloseJobSocket(w.open, mt.peers[p].sock))
  {
    hide PeerSocks;
    var mt := w.torrents[t];
    var peer := mt.peers[p];
    PeerSocksUpdate(mt.peers, p, ClosedPeer(peer));
    assert PeerSocks(mt.peers) + SockSet(ClosedPeer(peer).sock) == PeerSocks(mt.peers);
    if peer.sock.None? {
      assert PeerSocks(Disconnected(mt, p).peers) + SockSet(peer.sock) == PeerSocks(Disconnected(mt, p).peers);
    } else {
      ClosingPeerSocket(w, t, p);
      MoveAcross(PeerSocks(Disconnected(mt, p).peers), SockSet(peer.sock), PeerSocks(mt.peers),
                 multiset(w.open), multiset(w.open - {peer.sock.value}));
    }
  }

  lemma DisconnectKeepsInv(w: World, t: nat, p: nat)
    requires Inv(w) && HasPeer(w, t, p)
    ensures Inv(Disconnect(w, t, p))
  {
    hide RunOk, PeerSocks, PeerBytes, Disconnect, DiscOk;
    var mt := w.torrents[t];
    var peer := mt.peers[p];
    DisconnectForm(w, t, p);
    assert RunOk(mt, w.web, w.conn);
    DisconnectedOk(mt, p, w.web, w.conn);
    PeerSumsUpdate(mt.peers, p, ClosedPeer(peer));
    DisconnectBalance(w, t, p);
    UpdateFrame(w, t, Disconnected(mt, p), w.assemblyBytes - BufferSize(peer), CloseJobSocket(w.open, peer.sock));
  }

  // ----- disconnecting all peers ----------------------------------------------

  /** Everything that a disconnect leaves as it is. */
  ghost predicate OnlyPeersDropped(w: World, w': World, t: nat) {
    && t < |w.torrents| == |w'.torrents|
    && w'.web == w.web && w'.conn == w.conn && w'.disc == w.disc
    && w'.nextGeneration == w.nextGeneration && w'.nextTable == w.nextTable
    && w'.open <= w.open
    && (forall u :: 0 <= u < |w.torrents| && u != t ==> w'.torrents[u] == w.torrents[u])
    && var a, b := w.torrents[t], w'.torrents[t];
       && b.generation == a.generation && b.state == a.state && b.meta == a.meta && b.files == a.files
       && b.hasWriter == a.hasWriter && b.downloaded == a.downloaded && |b.peers| == |a.peers|
       && b.tableId == a.tableId && (a.table.None? <==> b.table.None?)
       && (a.table.Some? ==>
             && |b.table.value.states| == |a.table.value.states|
             && b.table.value == a.table.value.(states := b.table.value.states)
             && forall i :: 0 <= i < |a.table.value.states| ==>
                  (b.table.value.states[i] == COMPLETE <==> a.table.value.states[i] == COMPLETE))
  }

  lemma DisconnectDropsOnlyPeer(w: World, t: nat, p: nat)
    requires HasPeer(w, t, p)
    ensures OnlyPeersDropped(w, Disconnect(w, t, p), t)
    ensures Disconnect(w, t, p).torrents[t].peers == w.torrents[t].peers[p := ClosedPeer(w.torrents[t].peers[p])]
  {
    DisconnectForm(w, t, p);
  }

  lemma DropsTrans(a: World, b: World, c: World, t: nat)
    requires OnlyPeersDropped(a, b, t) && OnlyPeersDropped(b, c, t)
    ensures OnlyPeersDropped(a, c, t)
  {
  }

  lemma {:induction false} DisconnectAllKeepsInv(w: World, t: nat, n: nat)
    requires Inv(w) && t < |w.torrents| && n <= |w.torrents[t].peers|
    ensures Inv(DisconnectAll(w, t, n))
    ensures OnlyPeersDropped(w, DisconnectAll(w, t, n), t)
    ensures forall p :: 0 <= p < n ==> DisconnectAll(w, t, n).torrents[t].peers[p].sock.None?
  {
    hide Inv, Disconnect, OnlyPeersDropped;
    if n > 0 {
      DisconnectAllKeepsInv(w, t, n - 1);
      var w1 := DisconnectAll(w, t, n - 1);
      DisconnectKeepsInv(w1, t, n - 1);
      DisconnectDropsOnlyPeer(w1, t, n - 1);
      DropsTrans(w, w1, Disconnect(w1, t, n - 1), t);
    } else {
      DropsNothing(w, t);
    }
  }

  lemma DropsNothing(w: World, t: nat)
    requires t < |w.torrents|
    ensures OnlyPeersDropped(w, w, t)
  {
  }

  lemma AllPeersClosed(mt: Managed)
    requires PeersOk(mt) && forall p :: 0 <= p < |mt.peers| ==> mt.peers[p].sock.None?
    ensures PeerSocks(mt.peers) == multiset{} && PeerBytes(mt.peers) == 0 && mt.active == 0
    ensures forall p: nat, i: nat :: !PeerOwns(mt.peers, p, i)
  {
    NoPeerSums(mt.peers);
  }
}
