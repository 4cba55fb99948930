/** Connection jobs keep the invariant. */
module EngineConn {
  import opened Bytes
  import opened Torrent
  import opened PieceMgr
  import opened Disk
  import opened EngineTypes
  import opened EngineSteps
  import opened EngineInvariants
  import opened EngineFrames
  import opened EngineLifecycle
  import opened EngineTransfer
  import opened EngineWeb

  // ----- frames ---------------------------------------------------------------

  lemma SlotSameConn(conn: seq<Option<ConnJob>>, j: nat, job: Option<ConnJob>, g: nat)
    requires j < |conn|
    requires conn[j].Some? ==> conn[j].value.generation != g
    requires job.Some? ==> job.value.generation != g
    ensures SameConn(g, conn, conn[j := job])
  {
    ConnPendingUpdate(conn, j, job, g);
  }

  ghost predicate ConnSlotChange(w: World, j: nat, job: Option<ConnJob>, g: nat, ts: seq<Managed>) {
    && j < |w.conn| && g < w.nextGeneration
    && (w.conn[j].Some? ==> w.conn[j].value.generation == g)
    && (job.Some? ==> job.value.generation == g)
    && |ts| == |w.torrents|
    && forall u :: 0 <= u < |ts| ==>
         && ts[u].generation == w.torrents[u].generation && SameTable(w.torrents[u], ts[u])
         && (ts[u].generation != g ==> ts[u] == w.torrents[u])
         && (ts[u].generation == g ==> RunOk(ts[u], w.web, w.conn[j := job]))
  }

  lemma ConnSlotFrame(w: World, j: nat, job: Option<ConnJob>, g: nat, ts: seq<Managed>, open: set<nat>)
    requires Inv(w) && ConnSlotChange(w, j, job, g, ts)
    requires TorrentSocks(ts) + ConnSocks(w.conn[j := job]) == multiset(open)
    requires TorrentBytes(ts) == TorrentBytes(w.torrents)
    ensures Inv(w.(torrents := ts, conn := w.conn[j := job], open := open))
  {
    hide TorrentOk, WebOk, ConnOk, DiscOk, TorrentSocks, TorrentBytes, ConnSocks;
    var conn' := w.conn[j := job];
    forall u | 0 <= u < |ts|
      ensures RunOk(ts[u], w.web, conn')
    {
      if ts[u].generation != g {
        SlotSameConn(w.conn, j, job, ts[u].generation);
        ConnOkFrame(ts[u], w.conn, conn');
      }
    }
  }

  /** The socket balance when only the socket of slot j changes. */
  lemma JobBalance(w: World, j: nat, job: Option<ConnJob>, open: set<nat>)
    requires SocketsOk(w) && j < |w.conn|
    requires JobSock(job) + multiset(w.open) == JobSock(w.conn[j]) + multiset(open)
    ensures TorrentSocks(w.torrents) + ConnSocks(w.conn[j := job]) == multiset(open)
  {
    hide TorrentSocks, ConnSocks, JobSock;
    ConnSocksUpdate(w.conn, j, job);
    var ts := TorrentSocks(w.torrents);
    assert ConnSocks(w.conn) + ts == multiset(w.open);
    SameBalance(ConnSocks(w.conn[j := job]), JobSock(w.conn[j]), ConnSocks(w.conn), JobSock(job),
                ts, multiset(w.open), multiset(open));
    assert ConnSocks(w.conn[j := job]) + ts == ts + ConnSocks(w.conn[j := job]);
  }

  // ----- schedule_peer_connections --------------------------------------------

  lemma NextCandidateOk(mt: Managed, n: nat, web: seq<Option<WebJob>>, conn: seq<Option<ConnJob>>)
    requires RunOk(mt, web, conn)
    ensures RunOk(mt.(nextCandidate := n), web, conn)
  {
    hide AssemblyOk, Verified;
    var mt' := mt.(nextCandidate := n);
    assert forall c: nat, a: Addr :: Connecting(mt, c, a) <==> Connecting(mt', c, a);
    assert forall i: nat :: Owned(mt, web, i) <==> Owned(mt', web, i);
  }

  /** The run after candidate c has been handed to a worker. */
  function DiallingRun(mt: Managed, c: nat): Managed
    requires c < |mt.candidates|
  {
    mt.(candidates := mt.candidates[c := mt.candidates[c].(connecting := true)])
  }

  lemma CandidatesOnly(mt: Managed, mt': Managed, web: seq<Option<WebJob>>)
    requires TorrentOk(mt) && WebOk(mt, web)
    requires mt' == mt.(candidates := mt'.candidates, nextCandidate := mt'.nextCandidate)
    requires CandidatesOk(mt') && (mt.candidates == [] ==> mt'.candidates == [] || mt.table.Some?)
    ensures TorrentOk(mt') && WebOk(mt', web)
  {
    hide AssemblyOk, Verified;
    assert forall i: nat :: Owned(mt, web, i) <==> Owned(mt', web, i);
  }

  lemma DialConnOk(mt: Managed, c: nat, conn: seq<Option<ConnJob>>, j: nat)
    requires CandidatesOk(mt) && ConnOk(mt, conn) && c < |mt.candidates| && mt.table.Some?
    requires !mt.candidates[c].connecting && !Connected(mt.peers, mt.candidates[c].addr)
    requires j < |conn| && conn[j].None?
    requires ConnPending(conn, mt.generation) < PEER_CONNECT_PARALLEL
    requires mt.active + ConnPending(conn, mt.generation) < MAX_PEERS_PER_TORRENT
    ensures ConnOk(DiallingRun(mt, c),
                   conn[j := Some(ConnJob(mt.generation, mt.candidates[c].addr, None, false))])
  {
    var g, addr := mt.generation, mt.candidates[c].addr;
    var job := Some(ConnJob(g, addr, None, false));
    var conn' := conn[j := job];
    var mt' := DiallingRun(mt, c);
    ConnPendingUpdate(conn, j, job, g);
    forall k: nat, a: Addr | Dialling(conn, k, g, a)
      ensures a != addr
    {
      assert MyConn(conn, k, g);
      var d: nat :| Connecting(mt, d, conn[k].value.addr);
    }
    forall k: nat, a: Addr
      ensures Dialling(conn', k, g, a) <==> (k == j && a == addr) || Dialling(conn, k, g, a)
    {
    }
    forall d: nat, a: Addr
      ensures Connecting(mt', d, a) <==> (d == c && a == addr) || Connecting(mt, d, a)
    {
    }
    forall k: nat | MyConn(conn', k, g)
      ensures !Connected(mt'.peers, conn'[k].value.addr)
      ensures exists d: nat :: Connecting(mt', d, conn'[k].value.addr)
    {
      if k == j {
        assert Connecting(mt', c, addr);
      } else {
        assert MyConn(conn, k, g);
        var d: nat :| Connecting(mt, d, conn[k].value.addr);
        assert Connecting(mt', d, conn'[k].value.addr);
      }
    }
    if mt.state == DOWNLOADING {
      forall d: nat, a: Addr | Connecting(mt', d, a)
        ensures exists k: nat :: Dialling(conn', k, g, a)
      {
        if d == c {
          assert Dialling(conn', j, g, a);
        } else {
          var k: nat :| Dialling(conn, k, g, a);
          assert Dialling(conn', k, g, a);
        }
      }
    }
  }

  lemma ScheduleConnKeepsInv(w: World, t: nat, ready: bool, resources: bool)
    requires Inv(w)
    ensures Inv(ScheduleConn(w, t, ready, resources))
  {
    hide Inv, RunOk, TorrentSocks, TorrentBytes;
    var w' := ScheduleConn(w, t, ready, resources);
    if Schedulable(w, t) && w' != w {
      var mt := w.torrents[t];
      var n := (mt.nextCandidate + 1) % |mt.candidates|;
      var c := mt.nextCandidate % |mt.candidates|;
      RunOf(w, t);
      NextCandidateOk(mt, n, w.web, w.conn);
      UpdateQuietly(w, t, mt.(nextCandidate := n));
      if w'.conn != w.conn {
        var w1 := SetTorrent(w, t, mt.(nextCandidate := n));
        DialKeepsInv(w1, t, c, FreeSlot(w.conn).value);
        assert w'.torrents == w1.torrents[t := DiallingRun(w1.torrents[t], c)];
        assert w' == w1.(torrents := w'.torrents, conn := w'.conn);
      }
    }
  }

  lemma DialKeepsInv(w: World, t: nat, c: nat, slot: nat)
    requires Inv(w) && Schedulable(w, t) && c < |w.torrents[t].candidates|
    requires slot < |w.conn| && w.conn[slot].None?
    requires var mt := w.torrents[t];
             && !mt.candidates[c].connecting && !Connected(mt.peers, mt.candidates[c].addr)
             && ConnPending(w.conn, mt.generation) < PEER_CONNECT_PARALLEL
             && mt.active + ConnPending(w.conn, mt.generation) < MAX_PEERS_PER_TORRENT
    ensures var mt := w.torrents[t];
            Inv(w.(torrents := w.torrents[t := DiallingRun(mt, c)],
                   conn := w.conn[slot := Some(ConnJob(mt.generation, mt.candidates[c].addr, None, false))]))
  {
    hide TorrentOk, WebOk, ConnOk, TorrentSocks, TorrentBytes, ConnSocks, DiscOk;
    var mt := w.torrents[t];
    var g := mt.generation;
    var job := Some(ConnJob(g, mt.candidates[c].addr, None, false));
    var ts := w.torrents[t := DiallingRun(mt, c)];
    RunOf(w, t);
    assert RunOk(DiallingRun(mt, c), w.web, w.conn[slot := job]) by {
      DialledRunOk(mt, c, w.web, w.conn, slot);
    }
    SamePeersSameSums(ts, w.torrents);
    JobBalance(w, slot, job, w.open);
    forall u | 0 <= u < |ts| && u != t
      ensures ts[u].generation != g
    {
    }
    ConnSlotFrame(w, slot, job, g, ts, w.open);
    assert w.(torrents := ts, conn := w.conn[slot := job]) ==
           w.(torrents := ts, conn := w.conn[slot := job], open := w.open);
  }

  lemma DialledRunOk(mt: Managed, c: nat, web: seq<Option<WebJob>>, conn: seq<Option<ConnJob>>, slot: nat)
    requires RunOk(mt, web, conn) && mt.table.Some? && c < |mt.candidates| && slot < |conn| && conn[slot].None?
    requires !mt.candidates[c].connecting && !Connected(mt.peers, mt.candidates[c].addr)
    requires ConnPending(conn, mt.generation) < PEER_CONNECT_PARALLEL
    requires mt.active + ConnPending(conn, mt.generation) < MAX_PEERS_PER_TORRENT
    ensures RunOk(DiallingRun(mt, c), web,
                  conn[slot := Some(ConnJob(mt.generation, mt.candidates[c].addr, None, false))])
  {
    hide StateOk, TableOk, PeersOk, DiskOk, WebOk, ConnOk;
    DialConnOk(mt, c, conn, slot);
    CandidatesOnly(mt, DiallingRun(mt, c), web);
  }

  // ----- collect_peer_connections ---------------------------------------------

  lemma {:induction false} FullHouse(peers: seq<Peer>)
    requires forall p :: 0 <= p < |peers| ==> peers[p].sock.Some?
    ensures CountConnected(peers) == |peers|
  {
    if peers != [] {
      FullHouse(peers[..|peers| - 1]);
    }
  }

  /** A job that is removed leaves the other jobs of its run in order. */
  lemma DropConnOk(mt: Managed, conn: seq<Option<ConnJob>>, j: nat)
    requires ConnOk(mt, conn) && j < |conn| && mt.state != DOWNLOADING
    ensures ConnOk(mt, conn[j := None])
  {
    var conn' := conn[j := None];
    ConnPendingUpdate(conn, j, None, mt.generation);
    forall k: nat, a: Addr | Dialling(conn', k, mt.generation, a)
      ensures Dialling(conn, k, mt.generation, a)
    {
    }
    forall k: nat | MyConn(conn', k, mt.generation)
      ensures MyConn(conn, k, mt.generation)
    {
    }
  }

  /** The live run after its candidate has been marked as no longer connecting. */
  lemma ClearedConnOk(mt: Managed, conn: seq<Option<ConnJob>>, j: nat)
    requires CandidatesOk(mt) && ConnOk(mt, conn) && MyConn(conn, j, mt.generation)
    ensures var mt' := mt.(candidates := ClearConnecting(mt.candidates, conn[j].value.addr));
            && ConnOk(mt', conn[j := None]) && CandidatesOk(mt')
            && ConnPending(conn[j := None], mt.generation) + 1 == ConnPending(conn, mt.generation)
            && forall k: nat :: MyConn(conn[j := None], k, mt.generation) ==>
                 conn[k].value.addr != conn[j].value.addr
  {
    hide ClearConnecting, ConnPending;
    var g, addr := mt.generation, conn[j].value.addr;
    var conn' := conn[j := None];
    var mt' := mt.(candidates := ClearConnecting(mt.candidates, addr));
    ConnPendingUpdate(conn, j, None, g);
    assert Dialling(conn, j, g, addr);
    forall k: nat, a: Addr
      ensures Dialling(conn', k, g, a) <==> k != j && Dialling(conn, k, g, a)
    {
    }
    forall k: nat | MyConn(conn', k, g)
      ensures MyConn(conn, k, g) && conn[k].value.addr != addr
    {
      assert Dialling(conn, k, g, conn[k].value.addr);
    }
    forall c: nat, a: Addr
      ensures Connecting(mt', c, a) <==> a != addr && Connecting(mt, c, a)
    {
      if c < |mt.candidates| {
        ClearedAt(mt, addr, c);
      }
    }
    forall k: nat | MyConn(conn', k, g)
      ensures exists c: nat :: Connecting(mt', c, conn'[k].value.addr)
    {
      var c: nat :| Connecting(mt, c, conn[k].value.addr);
      assert Connecting(mt', c, conn'[k].value.addr);
    }
    if mt.state == DOWNLOADING {
      forall c: nat, a: Addr | Connecting(mt', c, a)
        ensures exists k: nat :: Dialling(conn', k, g, a)
      {
        var k: nat :| Dialling(conn, k, g, a);
        assert Dialling(conn', k, g, a);
      }
    }
  }

  lemma ClearedAt(mt: Managed, addr: Addr, c: nat)
    requires CandidatesOk(mt) && c < |mt.candidates|
    ensures var cs := ClearConnecting(mt.candidates, addr);
            cs[c].connecting <==> mt.candidates[c].connecting && mt.candidates[c].addr != addr
  {
  }

  lemma FailureConnOk(mt: Managed, addr: Addr, conn: seq<Option<ConnJob>>)
    requires CandidatesOk(mt) && ConnOk(mt, conn)
    ensures var mt' := mt.(candidates := RecordFailure(mt.candidates, addr));
            ConnOk(mt', conn) && CandidatesOk(mt')
  {
    var mt' := mt.(candidates := RecordFailure(mt.candidates, addr));
    assert forall c: nat, a: Addr :: Connecting(mt, c, a) <==> Connecting(mt', c, a);
  }

  /** Where Adopt puts the new peer. */
  function Adopted(mt: Managed, sock: nat, addr: Addr): Managed {
    var slot := ClosedSlot(mt.peers);
    mt.(peers := if slot < |mt.peers| then mt.peers[slot := EmptyPeer(sock, addr)]
                 else mt.peers + [EmptyPeer(sock, addr)],
        active := mt.active + 1)
  }

  /** A finished handshake always finds a peer slot. */
  lemma AlwaysAdopts(mt: Managed, sock: nat, addr: Addr)
    requires PeersOk(mt) && mt.active < MAX_PEERS_PER_TORRENT && !Connected(mt.peers, addr)
    ensures Adopt(mt, sock, addr) == (Adopted(mt, sock, addr), true)
    ensures |Adopted(mt, sock, addr).peers| <= MAX_PEERS_PER_TORRENT
  {
    hide PeerOk;
    var slot := ClosedSlot(mt.peers);
    if slot == |mt.peers| {
      FullHouse(mt.peers);
    }
  }

  lemma AdoptedSums(mt: Managed, sock: nat, addr: Addr)
    requires PeersOk(mt)
    ensures var peers' := Adopted(mt, sock, addr).peers;
            && PeerSocks(peers') == PeerSocks(mt.peers) + multiset{sock}
            && PeerBytes(peers') == PeerBytes(mt.peers)
            && CountConnected(peers') == CountConnected(mt.peers) + 1
  {
    hide AssemblyOk, PeerSocks;
    var slot := ClosedSlot(mt.peers);
    if slot < |mt.peers| {
      assert PeerOk(mt.meta, mt.peers[slot]);
      PeerSumsUpdate(mt.peers, slot, EmptyPeer(sock, addr));
      PeerSocksUpdate(mt.peers, slot, EmptyPeer(sock, addr));
      var peers' := Adopted(mt, sock, addr).peers;
      assert PeerSocks(peers') + SockSet(mt.peers[slot].sock) == PeerSocks(peers');
    } else {
      PeerSumsAppend(mt.peers, EmptyPeer(sock, addr));
    }
  }

  /** Putting a fresh connection into a closed slot or behind the last peer. */
  lemma AdoptedOwners(mt: Managed, sock: nat, addr: Addr)
    requires PeersOk(mt)
    ensures forall p: nat, i: nat :: PeerOwns(Adopted(mt, sock, addr).peers, p, i) <==> PeerOwns(mt.peers, p, i)
  {
    hide AssemblyOk;
    var slot := ClosedSlot(mt.peers);
    if slot < |mt.peers| {
      assert PeerOk(mt.meta, mt.peers[slot]);
    }
  }

  lemma AdoptedPeer(mt: Managed, sock: nat, addr: Addr, p: nat)
    requires PeersOk(mt) && p < |Adopted(mt, sock, addr).peers|
    ensures var peers' := Adopted(mt, sock, addr).peers;
            && PeerOk(mt.meta, peers'[p])
            && (peers'[p] == EmptyPeer(sock, addr) || (p < |mt.peers| && peers'[p] == mt.peers[p]))
            && (p == ClosedSlot(mt.peers) <==> !(p < |mt.peers| && p != ClosedSlot(mt.peers)))
            && (p != ClosedSlot(mt.peers) ==> p < |mt.peers| && peers'[p] == mt.peers[p])
  {
    hide AssemblyOk;
    if p < |mt.peers| {
      assert PeerOk(mt.meta, mt.peers[p]);
    }
  }

  lemma AdoptedPeersOk(mt: Managed, sock: nat, addr: Addr)
    requires PeersOk(mt) && mt.active < MAX_PEERS_PER_TORRENT && !Connected(mt.peers, addr)
    ensures PeersOk(Adopted(mt, sock, addr))
    ensures forall p: nat, i: nat :: PeerOwns(Adopted(mt, sock, addr).peers, p, i) <==> PeerOwns(mt.peers, p, i)
  {
    hide PeerOk;
    var mt' := Adopted(mt, sock, addr);
    AlwaysAdopts(mt, sock, addr);
    AdoptedSums(mt, sock, addr);
    AdoptedOwners(mt, sock, addr);
    AdoptedAddresses(mt, sock, addr);
    forall p | 0 <= p < |mt'.peers|
      ensures PeerOk(mt.meta, mt'.peers[p])
    {
      AdoptedPeer(mt, sock, addr, p);
    }
  }

  /** The open peers still have distinct addresses. */
  lemma AdoptedAddresses(mt: Managed, sock: nat, addr: Addr)
    requires PeersOk(mt) && mt.active < MAX_PEERS_PER_TORRENT && !Connected(mt.peers, addr)
    ensures var mt' := Adopted(mt, sock, addr);
            forall p, q :: 0 <= p < q < |mt'.peers| && mt'.peers[p].sock.Some? && mt'.peers[q].sock.Some? ==>
              mt'.peers[p].addr != mt'.peers[q].addr
  {
    hide PeerOk, Adopted, PeerOwns;
    var mt' := Adopted(mt, sock, addr);
    forall p, q | 0 <= p < q < |mt'.peers| && mt'.peers[p].sock.Some? && mt'.peers[q].sock.Some?
      ensures mt'.peers[p].addr != mt'.peers[q].addr
    {
      AdoptedPeer(mt, sock, addr, p);
      AdoptedPeer(mt, sock, addr, q);
      assert p < |mt.peers| ==> !ConnectedAt(mt.peers, p, addr);
      assert q < |mt.peers| ==> !ConnectedAt(mt.peers, q, addr);
    }
  }

  lemma AdoptedRunOk(mt: Managed, sock: nat, addr: Addr, web: seq<Option<WebJob>>, conn: seq<Option<ConnJob>>)
    requires RunOk(mt, web, conn) && mt.table.Some? && !Connected(mt.peers, addr)
    requires mt.active + ConnPending(conn, mt.generation) < MAX_PEERS_PER_TORRENT
    requires forall k: nat :: MyConn(conn, k, mt.generation) ==> conn[k].value.addr != addr
    ensures RunOk(Adopted(mt, sock, addr), web, conn)
  {
    hide PeersOk, Verified;
    var mt' := Adopted(mt, sock, addr);
    AdoptedPeersOk(mt, sock, addr);
    assert forall i: nat :: Owned(mt, web, i) <==> Owned(mt', web, i);
    assert forall c: nat, a: Addr :: Connecting(mt, c, a) <==> Connecting(mt', c, a);
    forall k: nat | MyConn(conn, k, mt.generation)
      ensures !Connected(mt'.peers, conn[k].value.addr)
    {
      var a := conn[k].value.addr;
      forall p | 0 <= p < |mt'.peers|
        ensures !ConnectedAt(mt'.peers, p, a)
      {
        if p < |mt.peers| && p != ClosedSlot(mt.peers) {
          assert !ConnectedAt(mt.peers, p, a);
        }
      }
    }
    assert ConnOk(mt', conn);
    assert WebOk(mt', web);
  }

  /** The live run after collecting job j. */
  lemma CollectConnIntoOk(mt: Managed, web: seq<Option<WebJob>>, conn: seq<Option<ConnJob>>, j: nat)
    requires RunOk(mt, web, conn) && MyConn(conn, j, mt.generation) && mt.state == DOWNLOADING
    ensures var job := conn[j].value;
            var r := CollectConnInto(mt, job);
            && RunOk(r.0, web, conn[j := None])
            && (r.1 <==> job.sock.Some?)
            && r.0.generation == mt.generation
            && PeerSocks(r.0.peers) == PeerSocks(mt.peers) + JobSock(conn[j])
            && PeerBytes(r.0.peers) == PeerBytes(mt.peers)
    ensures SameTable(mt, CollectConnInto(mt, conn[j].value).0)
  {
    hide StateOk, TableOk, DiskOk, PeersOk, WebOk, ConnOk, CandidatesOk, PeerSocks, PeerBytes;
    var job := conn[j].value;
    var conn' := conn[j := None];
    var m := mt.(candidates := ClearConnecting(mt.candidates, job.addr));
    LivePeers(mt, conn, j);
    ClearedConnOk(mt, conn, j);
    CandidatesOnly(mt, m, web);
    if job.sock.None? {
      FailureConnOk(m, job.addr, conn');
      CandidatesOnly(m, m.(candidates := RecordFailure(m.candidates, job.addr)), web);
      assert PeerSocks(mt.peers) + JobSock(conn[j]) == PeerSocks(mt.peers);
    } else {
      assert RunOk(m, web, conn');
      LoadLimit(mt, conn);
      AlwaysAdopts(m, job.sock.value, job.addr);
      AdoptedSums(m, job.sock.value, job.addr);
      AdoptedRunOk(m, job.sock.value, job.addr, web, conn');
    }
  }

  lemma LivePeers(mt: Managed, conn: seq<Option<ConnJob>>, j: nat)
    requires ConnOk(mt, conn) && MyConn(conn, j, mt.generation)
    ensures mt.table.Some? && !Connected(mt.peers, conn[j].value.addr)
  {
  }

  lemma LoadLimit(mt: Managed, conn: seq<Option<ConnJob>>)
    requires ConnOk(mt, conn)
    ensures mt.active + ConnPending(conn, mt.generation) <= MAX_PEERS_PER_TORRENT
  {
  }

  lemma DropFromIdle(mt: Managed, web: seq<Option<WebJob>>, conn: seq<Option<ConnJob>>, j: nat)
    requires RunOk(mt, web, conn) && j < |conn| && mt.state != DOWNLOADING
    ensures RunOk(mt, web, conn[j := None])
  {
    hide TorrentOk, WebOk, ConnOk;
    DropConnOk(mt, conn, j);
  }

  lemma CollectConnKeepsInv(w: World, j: nat)
    requires Inv(w)
    ensures Inv(CollectConn(w, j))
  {
    hide RunOk, TorrentOk, CollectConnInto, ConnOk, WebOk, DiscOk, AllTorrents,
         TorrentSocks, TorrentBytes, ConnSocks, PeerSocks, PeerBytes, JobSock;
    if j < |w.conn| && w.conn[j].Some? && w.conn[j].value.done {
      var job := w.conn[j].value;
      var g := job.generation;
      var w' := CollectConn(w, j);
      var live := FindLive(w, g, |w.torrents|);
      CollectedRuns(w, j);
      if live.Some? {
        var t := live.value;
        RunOf(w, t);
        CollectConnIntoOk(w.torrents[t], w.web, w.conn, j);
        TorrentSocksUpdate(w.torrents, t, w'.torrents[t]);
        TorrentBytesUpdate(w.torrents, t, w'.torrents[t]);
        TakenOver(w, j, TorrentSocks(w'.torrents), PeerSocks(w.torrents[t].peers), PeerSocks(w'.torrents[t].peers));
        assert w'.open == w.open by { NoSocketNoChange(w, j); }
      } else {
        ClosingJobSocket(w, j);
        assert JobSock(None) == multiset{} by { EmptyJobSock(); }
        assert JobSock(None) + multiset(w.open) == JobSock(w.conn[j]) + multiset(w'.open);
        JobBalance(w, j, None, w'.open);
      }
      ConnSlotFrame(w, j, None, g, w'.torrents, w'.open);
      assert w' == w.(torrents := w'.torrents, conn := w.conn[j := None], open := w'.open);
    }
  }

  lemma EmptyJobSock()
    ensures JobSock(None) == multiset{}
  {
  }

  lemma NoSocketNoChange(w: World, j: nat)
    requires j < |w.conn| && w.conn[j].Some?
    ensures w.conn[j].value.sock.None? ==> CloseJobSocket(w.open, w.conn[j].value.sock) == w.open
  {
  }

  /** The socket moves from the job to the peer. */
  lemma TakenOver(w: World, j: nat, ts': multiset<nat>, p: multiset<nat>, p': multiset<nat>)
    requires SocketsOk(w) && j < |w.conn|
    requires ts' + p == TorrentSocks(w.torrents) + p' && p' == p + JobSock(w.conn[j])
    ensures ts' + ConnSocks(w.conn[j := None]) == multiset(w.open)
  {
    hide TorrentSocks, ConnSocks;
    ConnSocksUpdate(w.conn, j, None);
    EmptyJobSock();
    forall x: nat
      ensures (ts' + ConnSocks(w.conn[j := None]))[x] == multiset(w.open)[x]
    {
      assert (ts' + p)[x] == (TorrentSocks(w.torrents) + p')[x];
      assert p'[x] == (p + JobSock(w.conn[j]))[x];
      assert (TorrentSocks(w.torrents) + ConnSocks(w.conn))[x] == multiset(w.open)[x];
      assert (ConnSocks(w.conn[j := None]) + JobSock(w.conn[j]))[x] == (ConnSocks(w.conn) + multiset{})[x];
    }
  }

  lemma CollectedRuns(w: World, j: nat)
    requires Inv(w) && j < |w.conn| && w.conn[j].Some? && w.conn[j].value.done
    ensures ConnSlotChange(w, j, None, w.conn[j].value.generation, CollectConn(w, j).torrents)
  {
    hide Inv, RunOk, TorrentOk, CollectConnInto;
    var g := w.conn[j].value.generation;
    var w' := CollectConn(w, j);
    GenerationsOf(w);
    var live := FindLive(w, g, |w.torrents|);
    if live.Some? {
      RunOf(w, live.value);
      CollectConnIntoOk(w.torrents[live.value], w.web, w.conn, j);
    }
    forall u | 0 <= u < |w'.torrents|
      ensures w'.torrents[u].generation == w.torrents[u].generation && SameTable(w.torrents[u], w'.torrents[u])
      ensures w'.torrents[u].generation != g ==> w'.torrents[u] == w.torrents[u]
      ensures w'.torrents[u].generation == g ==> RunOk(w'.torrents[u], w.web, w.conn[j := None])
    {
      if w.torrents[u].generation == g && !IsLive(w, u, g) {
        RunOf(w, u);
        DropFromIdle(w.torrents[u], w.web, w.conn, j);
      } else if w.torrents[u].generation == g {
        LiveIsUnique(w, g, live.value, u);
      }
    }
  }

  // ----- the worker -----------------------------------------------------------

  lemma WorkerRunOk(mt: Managed, web: seq<Option<WebJob>>, conn: seq<Option<ConnJob>>, j: nat, job: ConnJob)
    requires RunOk(mt, web, conn) && MyConn(conn, j, mt.generation)
    requires job.generation == conn[j].value.generation && job.addr == conn[j].value.addr
    ensures RunOk(mt, web, conn[j := Some(job)])
  {
    hide TorrentOk, WebOk;
    ConnPendingUpdate(conn, j, Some(job), mt.generation);
    ConnOkFrame(mt, conn, conn[j := Some(job)]);
  }

  lemma ConnWorkerKeepsInv(w: World, j: nat, job: ConnJob, open: set<nat>)
    requires Inv(w) && j < |w.conn| && w.conn[j].Some?
    requires job.generation == w.conn[j].value.generation && job.addr == w.conn[j].value.addr
    requires JobSock(Some(job)) + multiset(w.open) == JobSock(w.conn[j]) + multiset(open)
    ensures Inv(w.(conn := w.conn[j := Some(job)], open := open))
  {
    hide RunOk, TorrentOk, AllTorrents, TorrentSocks, TorrentBytes, ConnSocks, JobSock, DiscOk;
    forall u | 0 <= u < |w.torrents| && w.torrents[u].generation == job.generation
      ensures RunOk(w.torrents[u], w.web, w.conn[j := Some(job)])
    {
      RunOf(w, u);
      WorkerRunOk(w.torrents[u], w.web, w.conn, j, job);
    }
    JobBalance(w, j, Some(job), open);
    ConnSlotFrame(w, j, Some(job), job.generation, w.torrents, open);
    assert w.(conn := w.conn[j := Some(job)], open := open) ==
           w.(torrents := w.torrents, conn := w.conn[j := Some(job)], open := open);
  }

  lemma ConnOpensKeepsInv(w: World, j: nat, sock: nat)
    requires Inv(w)
    ensures Inv(ConnOpens(w, j, sock))
  {
    hide Inv;
    if HasJob(w.conn, j) && !w.conn[j].value.done && w.conn[j].value.sock.None? && sock !in w.open {
      var job := w.conn[j].value.(sock := Some(sock));
      assert multiset(w.open + {sock}) == multiset{sock} + multiset(w.open);
      assert JobSock(w.conn[j]) + multiset(w.open + {sock}) == multiset(w.open + {sock});
      ConnWorkerKeepsInv(w, j, job, w.open + {sock});
    }
  }

  lemma ConnSucceedsKeepsInv(w: World, j: nat)
    requires Inv(w)
    ensures Inv(ConnSucceeds(w, j))
  {
    hide Inv;
    if HasJob(w.conn, j) && !w.conn[j].value.done && w.conn[j].value.sock.Some? {
      ConnWorkerKeepsInv(w, j, w.conn[j].value.(done := true), w.open);
      assert w.(conn := w.conn[j := Some(w.conn[j].value.(done := true))]) ==
             w.(conn := w.conn[j := Some(w.conn[j].value.(done := true))], open := w.open);
    }
  }

  lemma ConnFailsKeepsInv(w: World, j: nat)
    requires Inv(w)
    ensures Inv(ConnFails(w, j))
  {
    if HasJob(w.conn, j) && !w.conn[j].value.done {
      FailBalance(w, j);
      ConnWorkerKeepsInv(w, j, w.conn[j].value.(sock := None, done := true),
                         CloseJobSocket(w.open, w.conn[j].value.sock));
    }
  }

  lemma FailBalance(w: World, j: nat)
    requires Inv(w) && j < |w.conn| && w.conn[j].Some?
    ensures JobSock(Some(w.conn[j].value.(sock := None, done := true))) + multiset(w.open) ==
            JobSock(w.conn[j]) + multiset(CloseJobSocket(w.open, w.conn[j].value.sock))
  {
    hide RunOk, AllTorrents, TorrentSocks, ConnSocks;
    ClosingJobSocket(w, j);
    assert multiset{} + multiset(w.open) == multiset(w.open);
  }
}
