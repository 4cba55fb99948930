/** How the invariant survives a change to one torrent or one job slot. */
module EngineFrames {
  import opened Bytes
  import opened Torrent
  import opened PieceMgr
  import opened Disk
  import opened EngineTypes
  import opened EngineSteps
  import opened EngineInvariants

  // ----- sums after an update -------------------------------------------------

  lemma AddBoth(a: multiset<nat>, x: multiset<nat>, b: multiset<nat>, y: multiset<nat>, l: multiset<nat>)
    requires a + x == b + y
    ensures a + l + x == b + l + y
  {
    assert a + l + x == a + x + l;
    assert b + l + y == b + y + l;
  }

  lemma {:induction false} PeerSocksUpdate(peers: seq<Peer>, p: nat, peer: Peer)
    requires p < |peers|
    ensures PeerSocks(peers[p := peer]) + SockSet(peers[p].sock) == PeerSocks(peers) + SockSet(peer.sock)
  {
    hide SockSet;
    var last := |peers| - 1;
    if p == last {
      assert peers[p := peer][..last] == peers[..last];
    } else {
      assert peers[p := peer][..last] == peers[..last][p := peer];
      PeerSocksUpdate(peers[..last], p, peer);
      AddBoth(PeerSocks(peers[..last][p := peer]), SockSet(peers[p].sock),
              PeerSocks(peers[..last]), SockSet(peer.sock), SockSet(peers[last].sock));
    }
  }

  lemma {:induction false} PeerSumsUpdate(peers: seq<Peer>, p: nat, peer: Peer)
    requires p < |peers|
    ensures PeerBytes(peers[p := peer]) + BufferSize(peers[p]) == PeerBytes(peers) + BufferSize(peer)
    ensures CountConnected(peers[p := peer]) + IsOpen(peers[p]) == CountConnected(peers) + IsOpen(peer)
  {
    var last := |peers| - 1;
    if p == last {
      assert peers[p := peer][..last] == peers[..last];
    } else {
      assert peers[p := peer][..last] == peers[..last][p := peer];
      PeerSumsUpdate(peers[..last], p, peer);
    }
  }

  lemma PeerSumsAppend(peers: seq<Peer>, peer: Peer)
    ensures PeerSocks(peers + [peer]) == PeerSocks(peers) + SockSet(peer.sock)
    ensures PeerBytes(peers + [peer]) == PeerBytes(peers) + BufferSize(peer)
    ensures CountConnected(peers + [peer]) == CountConnected(peers) + IsOpen(peer)
  {
    assert (peers + [peer])[..|peers|] == peers;
  }

  lemma {:induction false} TorrentSocksUpdate(ts: seq<Managed>, t: nat, mt: Managed)
    requires t < |ts|
    ensures TorrentSocks(ts[t := mt]) + PeerSocks(ts[t].peers) == TorrentSocks(ts) + PeerSocks(mt.peers)
  {
    hide PeerSocks;
    var last := |ts| - 1;
    if t == last {
      assert ts[t := mt][..last] == ts[..last];
    } else {
      assert ts[t := mt][..last] == ts[..last][t := mt];
      TorrentSocksUpdate(ts[..last], t, mt);
      AddBoth(TorrentSocks(ts[..last][t := mt]), PeerSocks(ts[t].peers),
              TorrentSocks(ts[..last]), PeerSocks(mt.peers), PeerSocks(ts[last].peers));
    }
  }

  lemma {:induction false} TorrentBytesUpdate(ts: seq<Managed>, t: nat, mt: Managed)
    requires t < |ts|
    ensures TorrentBytes(ts[t := mt]) + PeerBytes(ts[t].peers) == TorrentBytes(ts) + PeerBytes(mt.peers)
  {
    hide PeerBytes;
    var last := |ts| - 1;
    if t == last {
      assert ts[t := mt][..last] == ts[..last];
    } else {
      assert ts[t := mt][..last] == ts[..last][t := mt];
      TorrentBytesUpdate(ts[..last], t, mt);
    }
  }

  lemma TorrentSumsAppend(ts: seq<Managed>, mt: Managed)
    ensures TorrentSocks(ts + [mt]) == TorrentSocks(ts) + PeerSocks(mt.peers)
    ensures TorrentBytes(ts + [mt]) == TorrentBytes(ts) + PeerBytes(mt.peers)
  {
    assert (ts + [mt])[..|ts|] == ts;
  }

  lemma {:induction false} TorrentSumsRemove(ts: seq<Managed>, t: nat)
    requires t < |ts|
    ensures TorrentSocks(ts) == TorrentSocks(ts[..t] + ts[t + 1..]) + PeerSocks(ts[t].peers)
    ensures TorrentBytes(ts) == TorrentBytes(ts[..t] + ts[t + 1..]) + PeerBytes(ts[t].peers)
  {
    hide PeerSocks, PeerBytes;
    var last := |ts| - 1;
    if t == last {
      assert ts[..t] + ts[t + 1..] == ts[..last];
    } else {
      hide TorrentSocks, TorrentBytes;
      TorrentSumsRemove(ts[..last], t);
      var rest := ts[..last][..t] + ts[..last][t + 1..];
      assert ts[..t] + ts[t + 1..] == rest + [ts[last]];
      assert ts == ts[..last] + [ts[last]];
      TorrentSumsAppend(rest, ts[last]);
      TorrentSumsAppend(ts[..last], ts[last]);
      AddBoth(TorrentSocks(ts[..last]), multiset{}, TorrentSocks(rest), PeerSocks(ts[t].peers), PeerSocks(ts[last].peers));
    }
  }

  lemma {:induction false} ConnSocksUpdate(conn: seq<Option<ConnJob>>, j: nat, job: Option<ConnJob>)
    requires j < |conn|
    ensures ConnSocks(conn[j := job]) + JobSock(conn[j]) == ConnSocks(conn) + JobSock(job)
  {
    hide JobSock;
    var last := |conn| - 1;
    if j == last {
      assert conn[j := job][..last] == conn[..last];
    } else {
      assert conn[j := job][..last] == conn[..last][j := job];
      ConnSocksUpdate(conn[..last], j, job);
      AddBoth(ConnSocks(conn[..last][j := job]), JobSock(conn[j]),
              ConnSocks(conn[..last]), JobSock(job), JobSock(conn[last]));
    }
  }

  function Belongs(job: Option<ConnJob>, generation: nat): nat {
    if job.Some? && job.value.generation == generation then 1 else 0
  }

  lemma {:induction false} ConnPendingUpdate(conn: seq<Option<ConnJob>>, j: nat, job: Option<ConnJob>, g: nat)
    requires j < |conn|
    ensures ConnPending(conn[j := job], g) + Belongs(conn[j], g) == ConnPending(conn, g) + Belongs(job, g)
  {
    var last := |conn| - 1;
    if j == last {
      assert conn[j := job][..last] == conn[..last];
    } else {
      assert conn[j := job][..last] == conn[..last][j := job];
      ConnPendingUpdate(conn[..last], j, job, g);
    }
  }

  lemma {:induction false} ConnPendingZero(conn: seq<Option<ConnJob>>, g: nat)
    requires forall j :: 0 <= j < |conn| && conn[j].Some? ==> conn[j].value.generation != g
    ensures ConnPending(conn, g) == 0
  {
    if conn != [] {
      ConnPendingZero(conn[..|conn| - 1], g);
    }
  }

  lemma {:induction false} NoPeerSums(peers: seq<Peer>)
    requires forall p :: 0 <= p < |peers| ==> peers[p].sock.None? && peers[p].assembly.None?
    ensures PeerSocks(peers) == multiset{} && PeerBytes(peers) == 0 && CountConnected(peers) == 0
  {
    if peers != [] {
      NoPeerSums(peers[..|peers| - 1]);
    }
  }

  /** A socket that some peer owns is open, and no other owner has it. */
  lemma {:induction false} PeerSockIn(peers: seq<Peer>, p: nat)
    requires p < |peers|
    ensures SockSet(peers[p].sock) <= PeerSocks(peers)
  {
    if p < |peers| - 1 {
      PeerSockIn(peers[..|peers| - 1], p);
    }
  }

  lemma {:induction false} TorrentSockIn(ts: seq<Managed>, t: nat)
    requires t < |ts|
    ensures PeerSocks(ts[t].peers) <= TorrentSocks(ts)
  {
    if t < |ts| - 1 {
      TorrentSockIn(ts[..|ts| - 1], t);
    }
  }

  lemma {:induction false} ConnSockIn(conn: seq<Option<ConnJob>>, j: nat)
    requires j < |conn|
    ensures JobSock(conn[j]) <= ConnSocks(conn)
  {
    if j < |conn| - 1 {
      ConnSockIn(conn[..|conn| - 1], j);
    }
  }

  lemma ClosingPeerSocket(w: World, t: nat, p: nat)
    requires SocketsOk(w) && HasPeer(w, t, p) && w.torrents[t].peers[p].sock.Some?
    ensures w.torrents[t].peers[p].sock.value in w.open
    ensures multiset(w.open) == multiset(w.open - {w.torrents[t].peers[p].sock.value}) +
                                SockSet(w.torrents[t].peers[p].sock)
  {
    PeerSockIn(w.torrents[t].peers, p);
    TorrentSockIn(w.torrents, t);
    var s := w.torrents[t].peers[p].sock.value;
    assert SockSet(w.torrents[t].peers[p].sock)[s] == 1;
    assert s in multiset(w.open);
  }

  lemma ClosingJobSocket(w: World, j: nat)
    requires SocketsOk(w) && j < |w.conn| && w.conn[j].Some?
    ensures multiset(w.open) == multiset(CloseJobSocket(w.open, w.conn[j].value.sock)) + JobSock(w.conn[j])
  {
    ConnSockIn(w.conn, j);
    var sock := w.conn[j].value.sock;
    if sock.Some? {
      assert JobSock(w.conn[j])[sock.value] == 1;
      assert sock.value in multiset(w.open);
    }
  }

  lemma {:induction false} SumCompleteUpdate(meta: Metainfo, states: seq<PieceState>, n: nat, i: nat, s: PieceState)
    requires i < |states| && n <= |states|
    ensures SumComplete(meta, states[i := s], n) ==
            SumComplete(meta, states, n)
            + if i < n then (if s == COMPLETE then meta.PieceSize(i) else 0)
                          - (if states[i] == COMPLETE then meta.PieceSize(i) else 0)
              else 0
  {
    if n > 0 {
      SumCompleteUpdate(meta, states, n - 1, i, s);
    }
  }

  lemma {:induction false} SumCompleteSame(meta: Metainfo, a: seq<PieceState>, b: seq<PieceState>, n: nat)
    requires n <= |a| == |b|
    requires forall i :: 0 <= i < n ==> (a[i] == COMPLETE <==> b[i] == COMPLETE)
    ensures SumComplete(meta, a, n) == SumComplete(meta, b, n)
  {
    if n > 0 {
      SumCompleteSame(meta, a, b, n - 1);
    }
  }

  lemma {:induction false} CountCompleteSame(a: seq<PieceState>, b: seq<PieceState>)
    requires |a| == |b|
    requires forall i :: 0 <= i < |a| ==> (a[i] == COMPLETE <==> b[i] == COMPLETE)
    ensures CountComplete(a) == CountComplete(b)
  {
    if a != [] {
      CountCompleteSame(a[..|a| - 1], b[..|b| - 1]);
    }
  }

  // ----- frames ---------------------------------------------------------------

  lemma SameBalance(t': multiset<nat>, p: multiset<nat>, t: multiset<nat>, p': multiset<nat>,
                    c: multiset<nat>, o: multiset<nat>, o': multiset<nat>)
    requires t' + p == t + p' && t + c == o && p' + o == p + o'
    ensures t' + c == o'
  {
    forall x: nat
      ensures (t' + c)[x] == o'[x]
    {
      assert (t' + p)[x] == (t + p')[x];
      assert (t + c)[x] == o[x];
      assert (p' + o)[x] == (p + o')[x];
    }
  }

  /** One torrent changes within its run. */
  lemma UpdateFrame(w: World, t: nat, mt: Managed, bytes: int, open: set<nat>)
    requires Inv(w) && t < |w.torrents| && mt.generation == w.torrents[t].generation
    requires SameTable(w.torrents[t], mt) && RunOk(mt, w.web, w.conn)
    requires PeerSocks(mt.peers) + multiset(w.open) == PeerSocks(w.torrents[t].peers) + multiset(open)
    requires bytes - PeerBytes(mt.peers) == w.assemblyBytes - PeerBytes(w.torrents[t].peers)
    requires bytes <= ASSEMBLY_LIMIT
    ensures Inv(SetTorrent(w, t, mt).(assemblyBytes := bytes, open := open))
  {
    hide RunOk, DiscOk, PeerSocks, PeerBytes, ConnSocks;
    TorrentSocksUpdate(w.torrents, t, mt);
    TorrentBytesUpdate(w.torrents, t, mt);
    SameBalance(TorrentSocks(w.torrents[t := mt]), PeerSocks(w.torrents[t].peers), TorrentSocks(w.torrents),
                PeerSocks(mt.peers), ConnSocks(w.conn), multiset(w.open), multiset(open));
  }

  /** The usual case: no socket and no buffer changes hands. */
  lemma UpdateQuietly(w: World, t: nat, mt: Managed)
    requires Inv(w) && t < |w.torrents| && mt.generation == w.torrents[t].generation
    requires SameTable(w.torrents[t], mt) && RunOk(mt, w.web, w.conn)
    requires PeerSocks(mt.peers) == PeerSocks(w.torrents[t].peers)
    requires PeerBytes(mt.peers) == PeerBytes(w.torrents[t].peers)
    ensures Inv(SetTorrent(w, t, mt))
  {
    hide RunOk, PeerSocks, PeerBytes;
    UpdateFrame(w, t, mt, w.assemblyBytes, w.open);
    assert SetTorrent(w, t, mt) == SetTorrent(w, t, mt).(assemblyBytes := w.assemblyBytes, open := w.open);
  }

  ghost predicate SameWeb(g: nat, web: seq<Option<WebJob>>, web': seq<Option<WebJob>>) {
    && |web| == |web'|
    && forall j: nat :: (MyWeb(web, j, g) <==> MyWeb(web', j, g)) && (MyWeb(web, j, g) ==> web[j] == web'[j])
  }

  ghost predicate SameConn(g: nat, conn: seq<Option<ConnJob>>, conn': seq<Option<ConnJob>>) {
    && |conn| == |conn'| && ConnPending(conn, g) == ConnPending(conn', g)
    && forall j: nat :: (MyConn(conn, j, g) <==> MyConn(conn', j, g)) &&
                        (MyConn(conn, j, g) ==> conn[j].value.addr == conn'[j].value.addr)
  }

  /** A run does not see the jobs of other generations. */
  lemma WebOkFrame(mt: Managed, web: seq<Option<WebJob>>, web': seq<Option<WebJob>>)
    requires WebOk(mt, web) && SameWeb(mt.generation, web, web')
    ensures WebOk(mt, web')
  {
    forall j: nat, i: nat
      ensures JobOwns(web, j, mt.generation, i) <==> JobOwns(web', j, mt.generation, i)
    {
      assert MyWeb(web, j, mt.generation) <==> MyWeb(web', j, mt.generation);
    }
    if mt.state == DOWNLOADING && mt.table.Some? {
      forall i | 0 <= i < |mt.table.value.states| && mt.table.value.states[i] == REQUESTED
        ensures Owned(mt, web', i)
      {
        assert Owned(mt, web, i);
        if exists j: nat :: JobOwns(web, j, mt.generation, i) {
          var j: nat :| JobOwns(web, j, mt.generation, i);
          assert JobOwns(web', j, mt.generation, i);
        }
      }
    }
  }

  lemma ConnOkFrame(mt: Managed, conn: seq<Option<ConnJob>>, conn': seq<Option<ConnJob>>)
    requires ConnOk(mt, conn) && SameConn(mt.generation, conn, conn')
    ensures ConnOk(mt, conn')
  {
    forall j: nat, a: Addr
      ensures Dialling(conn, j, mt.generation, a) <==> Dialling(conn', j, mt.generation, a)
    {
      assert MyConn(conn, j, mt.generation) <==> MyConn(conn', j, mt.generation);
    }
    if mt.state == DOWNLOADING {
      forall c: nat, a: Addr | Connecting(mt, c, a)
        ensures exists j: nat :: Dialling(conn', j, mt.generation, a)
      {
        var j: nat :| Dialling(conn, j, mt.generation, a);
        assert Dialling(conn', j, mt.generation, a);
      }
    }
  }
}
