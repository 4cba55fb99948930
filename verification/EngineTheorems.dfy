/** What holds in every state of every run of the download engine. */
module EngineTheorems {
  import opened Bytes
  import opened Torrent
  import opened PieceMgr
  import opened Disk
  import opened EngineTypes
  import opened EngineSteps
  import opened EngineInvariants
  import opened EngineFrames
  import opened EnginePeers
  import opened EngineLifecycle
  import opened EngineTransfer
  import opened EngineRequests
  import opened EngineWeb
  import opened EngineConn
  import opened EngineDiscovery
  import Sha1Spec
  import Bitfield

  lemma InitialInv()
    ensures Inv(INITIAL_WORLD)
  {
    NoJobSums(INITIAL_WORLD.conn);
  }

  lemma {:induction false} NoJobSums(conn: seq<Option<ConnJob>>)
    requires forall j :: 0 <= j < |conn| ==> conn[j].None?
    ensures ConnSocks(conn) == multiset{}
  {
    if conn != [] {
      NoJobSums(conn[..|conn| - 1]);
    }
  }

  /** One step of any kind, by the main thread or by a worker, keeps the invariant. */
  lemma StepKeepsInv(w: World, e: Event)
    requires Inv(w)
    ensures Inv(Apply(w, e))
  {
    hide Inv, Add, Start, Stop, Remove, CollectWeb, ReadDone, Drain, FreeIfDone, CollectConn, CheckDone,
         ScheduleDiscovery, TimeOut, Recv, Request, ScheduleConn, ScheduleWeb, WebWorker, ConnOpens,
         ConnSucceeds, ConnFails, DiscPublishes, DiscFinishes;
    match e
    case EvAdd(meta, existing) => if Addable(meta, existing) { AddKeepsInv(w, meta, existing); }
    case EvStart(t, outcome) => StartKeepsInv(w, t, outcome);
    case EvStop(t) => StopKeepsInv(w, t);
    case EvRemove(t) => RemoveKeepsInv(w, t);
    case EvCollectWeb(j, writes) => CollectWebKeepsInv(w, j, writes);
    case EvReadDone(j) => ReadDoneKeepsInv(w, j);
    case EvDrain(j) => DrainKeepsInv(w, j);
    case EvFreeIfDone(j) => FreeIfDoneKeepsInv(w, j);
    case EvCollectConn(j) => CollectConnKeepsInv(w, j);
    case EvCheckDone(t) => CheckDoneKeepsInv(w, t);
    case EvScheduleDiscovery(t, slot, resources) => ScheduleDiscoveryKeepsInv(w, t, slot, resources);
    case EvTimeOut(t, p) => TimeOutKeepsInv(w, t, p);
    case EvRecv(t, p, msg, hasMemory, write) => RecvKeepsInv(w, t, p, msg, hasMemory, write);
    case EvRequest(t, p, memory, sent) => RequestKeepsInv(w, t, p, memory, sent);
    case EvScheduleConn(t, ready, resources) => ScheduleConnKeepsInv(w, t, ready, resources);
    case EvScheduleWeb(t, resources, buffer) => ScheduleWebKeepsInv(w, t, resources, buffer);
    case _ => WorkerStepKeepsInv(w, e);
  }

  lemma WorkerStepKeepsInv(w: World, e: Event)
    requires Inv(w)
    requires e.EvWebWorker? || e.EvConnOpens? || e.EvConnSucceeds? || e.EvConnFails? || e.EvDiscPublishes?
             || e.EvDiscFinishes?
    ensures Inv(Apply(w, e))
  {
    hide Inv, Add, Start, Stop, Remove, CollectWeb, ReadDone, Drain, FreeIfDone, CollectConn, CheckDone,
         ScheduleDiscovery, TimeOut, Recv, Request, ScheduleConn, ScheduleWeb, WebWorker, ConnOpens, ConnSucceeds,
         ConnFails, DiscPublishes, DiscFinishes;
    match e
    case EvWebWorker(j, ok, data) => WebWorkerKeepsInv(w, j, ok, data);
    case EvConnOpens(j, sock) => ConnOpensKeepsInv(w, j, sock);
    case EvConnSucceeds(j) => ConnSucceedsKeepsInv(w, j);
    case EvConnFails(j) => ConnFailsKeepsInv(w, j);
    case EvDiscPublishes(j, addrs) => DiscPublishesKeepsInv(w, j, addrs);
    case EvDiscFinishes(j) => DiscFinishesKeepsInv(w, j);
  }

  /** The invariant holds after every run. */
  lemma {:induction false} RunKeepsInv(w: World, events: seq<Event>)
    requires Inv(w)
    ensures Inv(Run(w, events))
  {
    hide Inv, Apply;
    if events != [] {
      RunKeepsInv(w, events[..|events| - 1]);
      StepKeepsInv(Run(w, events[..|events| - 1]), events[|events| - 1]);
    }
  }

  // ----- reservations ---------------------------------------------------------

  /** Piece i has exactly one owner among peer assemblies and jobs of the run. */
  ghost predicate OneOwner(mt: Managed, web: seq<Option<WebJob>>, i: nat) {
    || (exists p: nat :: PeerOwns(mt.peers, p, i)
          && (forall q: nat :: PeerOwns(mt.peers, q, i) ==> q == p)
          && (forall j: nat :: !JobOwns(web, j, mt.generation, i)))
    || (exists j: nat :: JobOwns(web, j, mt.generation, i)
          && (forall k: nat :: JobOwns(web, k, mt.generation, i) ==> k == j)
          && (forall p: nat :: !PeerOwns(mt.peers, p, i)))
  }

  /** In every reachable state an owned piece has exactly one owner and is REQUESTED. */
  lemma ReservationsExclusive(events: seq<Event>, t: nat, i: nat)
    requires t < |Run(INITIAL_WORLD, events).torrents|
    ensures var w := Run(INITIAL_WORLD, events);
            var mt := w.torrents[t];
            Owned(mt, w.web, i) ==>
              && OneOwner(mt, w.web, i)
              && mt.table.Some? && i < |mt.table.value.states| && mt.table.value.states[i] == REQUESTED
  {
    var w := Run(INITIAL_WORLD, events);
    var mt := w.torrents[t];
    ReachableRun(events, t);
    if Owned(mt, w.web, i) {
      OwnerIsAlone(mt, w.web, w.conn, i);
    }
  }

  lemma ReachableRun(events: seq<Event>, t: nat)
    requires t < |Run(INITIAL_WORLD, events).torrents|
    ensures var w := Run(INITIAL_WORLD, events);
            Inv(w) && RunOk(w.torrents[t], w.web, w.conn) && TorrentOk(w.torrents[t])
  {
    hide Inv, Apply;
    InitialInv();
    RunKeepsInv(INITIAL_WORLD, events);
    RunOf(Run(INITIAL_WORLD, events), t);
  }

  lemma OwnerIsAlone(mt: Managed, web: seq<Option<WebJob>>, conn: seq<Option<ConnJob>>, i: nat)
    requires RunOk(mt, web, conn) && Owned(mt, web, i)
    ensures OneOwner(mt, web, i)
    ensures mt.table.Some? && i < |mt.table.value.states| && mt.table.value.states[i] == REQUESTED
  {
    hide AssemblyOk, StateOk, TableOk, DiskOk, ConnOk;
    if p: nat :| PeerOwns(mt.peers, p, i) {
      assert forall j: nat :: !JobOwns(web, j, mt.generation, i);
      assert forall q: nat :: PeerOwns(mt.peers, q, i) ==> q == p;
    } else {
      var j: nat :| JobOwns(web, j, mt.generation, i);
      assert WebJobOk(mt, web[j].value);
      assert forall k: nat :: JobOwns(web, k, mt.generation, i) ==> k == j;
    }
  }

  /** While a torrent is downloading, a piece is REQUESTED exactly when it has an
      owner, and every other piece is FREE or COMPLETE: no reservation is lost. */
  lemma NoLostPiece(events: seq<Event>, t: nat, i: nat)
    requires var w := Run(INITIAL_WORLD, events);
             && t < |w.torrents| && w.torrents[t].state == DOWNLOADING && i < w.torrents[t].meta.NumPieces()
    ensures var w := Run(INITIAL_WORLD, events);
            var mt := w.torrents[t];
            && mt.table.Some? && i < |mt.table.value.states|
            && (mt.table.value.states[i] == REQUESTED <==> OneOwner(mt, w.web, i))
            && (!Owned(mt, w.web, i) ==> mt.table.value.states[i] in {FREE, COMPLETE})
  {
    hide Run, Inv, ConnOk, CandidatesOk, DiskOk, AssemblyOk, SumComplete;
    var w := Run(INITIAL_WORLD, events);
    var mt := w.torrents[t];
    ReachableRun(events, t);
    assert mt.table.Some? && i < |mt.table.value.states|;
    assert mt.table.value.states[i] != FAILED;
    if Owned(mt, w.web, i) {
      OwnerIsAlone(mt, w.web, w.conn, i);
    }
    assert OneOwner(mt, w.web, i) ==> Owned(mt, w.web, i);
  }

  /** In ERROR that half fails, and this is the family of states in which it does: the
      result of a job of a torrent in ERROR is dropped without giving its pieces back,
      so every piece of the batch stays REQUESTED and has no owner any more. */
  lemma ErrorLosesReservations(events: seq<Event>, t: nat, j: nat, i: nat, writes: seq<WriteOutcome>)
    requires var w := Run(INITIAL_WORLD, events);
             && t < |w.torrents| && w.torrents[t].state == ERROR
             && JobOwns(w.web, j, w.torrents[t].generation, i) && w.web[j].value.done
    ensures var w := Run(INITIAL_WORLD, events);
            var w' := Apply(w, EvCollectWeb(j, writes));
            && w'.torrents[t] == w.torrents[t] && w'.torrents[t].table.Some?
            && i < |w'.torrents[t].table.value.states| && w'.torrents[t].table.value.states[i] == REQUESTED
            && !Owned(w'.torrents[t], w'.web, i)
  {
    hide Run, Inv, CollectInto, TorrentOk, ConnOk, WebOk, Owned;
    var w := Run(INITIAL_WORLD, events);
    ReachableInv(events);
    ReachableRun(events, t);
    DroppedIsUnowned(w.torrents[t], w.web, j, i);
    NobodyElseIsLive(w, t);
  }

  lemma DroppedIsUnowned(mt: Managed, web: seq<Option<WebJob>>, j: nat, i: nat)
    requires WebOk(mt, web) && JobOwns(web, j, mt.generation, i)
    ensures mt.table.Some? && i < |mt.table.value.states| && mt.table.value.states[i] == REQUESTED
    ensures !Owned(mt, web[j := None], i)
  {
    assert WebJobOk(mt, web[j].value);
    var web' := web[j := None];
    assert forall p: nat :: !PeerOwns(mt.peers, p, i);
    assert forall k: nat :: JobOwns(web', k, mt.generation, i) ==> JobOwns(web, k, mt.generation, i) && k != j;
    assert forall k: nat :: !JobOwns(web', k, mt.generation, i);
  }

  /** While a torrent is in ERROR its generation belongs to no downloading torrent. */
  lemma NobodyElseIsLive(w: World, t: nat)
    requires Inv(w) && t < |w.torrents| && w.torrents[t].state != DOWNLOADING
    ensures FindLive(w, w.torrents[t].generation, |w.torrents|).None?
  {
    hide AllTorrents, SocketsOk, BudgetOk, DiscOk;
  }

  lemma ReachableInv(events: seq<Event>)
    ensures Inv(Run(INITIAL_WORLD, events))
  {
    hide Inv, Apply;
    InitialInv();
    RunKeepsInv(INITIAL_WORLD, events);
  }

  /** So an unfinished piece that nobody owns is offered again: the scan finds a
      piece for the web seeds and for every peer whose bitfield has it. */
  lemma UnownedPieceIsOffered(events: seq<Event>, t: nat, i: nat, have: Option<seq<byte>>)
    requires var w := Run(INITIAL_WORLD, events);
             && t < |w.torrents| && w.torrents[t].state == DOWNLOADING && i < w.torrents[t].meta.NumPieces()
             && (w.torrents[t].table.Some? ==> i < |w.torrents[t].table.value.states| ==>
                   w.torrents[t].table.value.states[i] != COMPLETE)
             && !Owned(w.torrents[t], w.web, i)
    requires have.Some? && i / 8 < |have.value| ==> Bitfield.HasBit(have.value, i)
    ensures var table := Run(INITIAL_WORLD, events).torrents[t].table;
            && table.Some?
            && 0 <= table.value.GetNext(have) <= i
            && 0 <= table.value.GetNext(None) <= i
  {
    var mt := Run(INITIAL_WORLD, events).torrents[t];
    NoLostPiece(events, t, i);
    ReachableRun(events, t);
    assert mt.table.value.Available(i, have) && mt.table.value.Available(i, None);
    GetNextFinds(mt.table.value, have);
    GetNextFinds(mt.table.value, None);
  }

  // ----- end to end -----------------------------------------------------------

  lemma {:induction false} AllSizes(meta: Metainfo, states: seq<PieceState>, n: nat)
    requires meta.Accepted() && n <= |states| == meta.NumPieces()
    requires forall i :: 0 <= i < n ==> states[i] == COMPLETE
    ensures SumComplete(meta, states, n) == if n < meta.NumPieces() then meta.PieceStart(n) else meta.totalSize
  {
    if n > 0 {
      AllSizes(meta, states, n - 1);
      PieceGeometry(meta, n - 1);
    } else {
      PieceCountBounds(meta.totalSize, meta.pieceLength);
    }
  }

  lemma {:induction false} SomeSizes(meta: Metainfo, states: seq<PieceState>, n: nat)
    requires meta.Accepted() && n <= |states| == meta.NumPieces()
    ensures 0 <= SumComplete(meta, states, n) <= if n < meta.NumPieces() then meta.PieceStart(n) else meta.totalSize
  {
    if n > 0 {
      SomeSizes(meta, states, n - 1);
      PieceGeometry(meta, n - 1);
    }
  }

  /** In every reachable state each piece that counts as COMPLETE is on disk, and its
      bytes have the expected SHA-1 digest. */
  lemma CompletePiecesVerify(events: seq<Event>, t: nat, i: nat)
    requires var w := Run(INITIAL_WORLD, events);
             && t < |w.torrents| && w.torrents[t].table.Some?
             && i < |w.torrents[t].table.value.states| && w.torrents[t].table.value.states[i] == COMPLETE
    ensures var mt := Run(INITIAL_WORLD, events).torrents[t];
            Verified(mt.meta, mt.files, i)
  {
    ReachableRun(events, t);
  }

  /** A magnet link never gets further than STOPPED or ERROR: no table, no peers, no
      candidates and no job that fetches for it. */
  lemma MagnetStaysIdle(events: seq<Event>, t: nat)
    requires t < |Run(INITIAL_WORLD, events).torrents|
    requires WithoutPieces(Run(INITIAL_WORLD, events).torrents[t].meta)
    ensures var w := Run(INITIAL_WORLD, events);
            var mt := w.torrents[t];
            && mt.state in {STOPPED, ERROR} && mt.table.None? && mt.peers == [] && mt.candidates == []
            && (forall j: nat :: !MyWeb(w.web, j, mt.generation))
            && (forall j: nat :: !MyConn(w.conn, j, mt.generation))
  {
    hide Run, Inv;
    ReachableInv(events);
    RunOf(Run(INITIAL_WORLD, events), t);
  }

  /** When a torrent is DONE, every piece verifies on disk and the byte counter is the total size. */
  lemma DoneMeansVerified(events: seq<Event>, t: nat)
    requires var w := Run(INITIAL_WORLD, events);
             t < |w.torrents| && w.torrents[t].state == DONE
    ensures var mt := Run(INITIAL_WORLD, events).torrents[t];
            && (forall i :: 0 <= i < mt.meta.NumPieces() ==> Verified(mt.meta, mt.files, i))
            && mt.downloaded == mt.meta.totalSize
  {
    var mt := Run(INITIAL_WORLD, events).torrents[t];
    ReachableRun(events, t);
    CountersAgree(mt.table.value);
    AllSizes(mt.meta, mt.table.value.states, mt.meta.NumPieces());
  }

  /** Counter agreement in every reachable state. */
  lemma CountersInEveryState(events: seq<Event>, t: nat)
    requires var w := Run(INITIAL_WORLD, events);
             t < |w.torrents| && w.torrents[t].table.Some?
    ensures var mt := Run(INITIAL_WORLD, events).torrents[t];
            var table := mt.table.value;
            && |table.bitfield| == (|table.states| + 7) / 8
            && table.numComplete == CountComplete(table.states)
                                 == Bitfield.CountBits(table.bitfield, 8 * |table.bitfield|)
            && (table.IsDone() <==> forall i :: 0 <= i < |table.states| ==> table.states[i] == COMPLETE)
            && mt.downloaded == SumComplete(mt.meta, table.states, |table.states|)
            && 0 <= mt.downloaded <= mt.meta.totalSize
  {
    hide Run, Inv, ConnOk, WebOk, PeersOk, CandidatesOk, DiskOk;
    var mt := Run(INITIAL_WORLD, events).torrents[t];
    ReachableRun(events, t);
    CountersAgree(mt.table.value);
    SomeSizes(mt.meta, mt.table.value.states, |mt.table.value.states|);
  }

  // ----- budget, blocks -------------------------------------------------------

  /** assembly_bytes is the memory held by all assemblies, and it is bounded. */
  lemma BudgetInEveryState(events: seq<Event>)
    ensures var w := Run(INITIAL_WORLD, events);
            w.assemblyBytes == TorrentBytes(w.torrents) <= ASSEMBLY_LIMIT
  {
    hide Apply;
    InitialInv();
    RunKeepsInv(INITIAL_WORLD, events);
  }

  /** An assembly is the accepted blocks in order, and an outstanding request asks for
      the next min(16384, remaining) bytes at a multiple of 16384. */
  lemma AssembliesAreGapFree(events: seq<Event>, t: nat, p: nat)
    requires HasPeer(Run(INITIAL_WORLD, events), t, p)
    requires Run(INITIAL_WORLD, events).torrents[t].peers[p].assembly.Some?
    ensures var w := Run(INITIAL_WORLD, events);
            var peer := w.torrents[t].peers[p];
            var a := peer.assembly.value;
            && a.received == PEER_BLOCK_SIZE * |a.blocks| < |a.buffer| == w.torrents[t].meta.PieceSize(a.index)
            && a.buffer[..a.received] == Flatten(a.blocks)
            && (peer.pending > 0 ==> peer.pending == Min(PEER_BLOCK_SIZE, |a.buffer| - a.received))
  {
    hide Apply;
    InitialInv();
    RunKeepsInv(INITIAL_WORLD, events);
    PeerOf(Run(INITIAL_WORLD, events), t, p);
  }

  /** The number of blocks of a piece. */
  function BlockCount(size: int): int {
    (size + PEER_BLOCK_SIZE - 1) / PEER_BLOCK_SIZE
  }

  /** A block completes its piece exactly when it is the last of BlockCount(size). */
  lemma LastBlockCompletes(meta: Metainfo, a: Assembly, block: seq<byte>)
    requires AssemblyOk(meta, a) && |block| == BlockLength(a)
    ensures a.received + |block| <= |a.buffer|
    ensures var a' := Append(a, block);
            && (a'.received == |a'.buffer| <==> |a'.blocks| == BlockCount(|a.buffer|))
            && (a'.received == |a'.buffer| ==> a'.buffer == Flatten(a'.blocks))
  {
    AppendOk(meta, a, block);
    var n, size := |a.blocks|, |a.buffer|;
    assert BlockCount(size) == (size + 16383) / 16384;
    if a.received + |block| == size {
      assert 16384 * n < size <= 16384 * n + 16384;
      assert Append(a, block).buffer[..size] == Append(a, block).buffer;
    } else {
      assert 16384 * n + 16384 < size;
    }
  }

  // ----- connections ----------------------------------------------------------

  /** Candidates are distinct; while downloading, `connecting` is set exactly for the
      addresses with a job, one job each; no address is both connecting and connected;
      the limits hold. */
  lemma ConnectionBookkeeping(events: seq<Event>, t: nat)
    requires t < |Run(INITIAL_WORLD, events).torrents|
    ensures var w := Run(INITIAL_WORLD, events);
            var mt := w.torrents[t];
            && (forall c, d :: 0 <= c < d < |mt.candidates| ==> mt.candidates[c].addr != mt.candidates[d].addr)
            && (mt.state == DOWNLOADING ==> forall c :: 0 <= c < |mt.candidates| ==>
                  (mt.candidates[c].connecting <==>
                     exists j: nat :: Dialling(w.conn, j, mt.generation, mt.candidates[c].addr)))
            && (forall j: nat, k: nat, a: Addr ::
                  Dialling(w.conn, j, mt.generation, a) && Dialling(w.conn, k, mt.generation, a) ==> j == k)
            && (forall j: nat, a: Addr :: Dialling(w.conn, j, mt.generation, a) ==> !Connected(mt.peers, a))
            && mt.active == CountConnected(mt.peers)
            && ConnPending(w.conn, mt.generation) <= PEER_CONNECT_PARALLEL
            && mt.active + ConnPending(w.conn, mt.generation) <= MAX_PEERS_PER_TORRENT
  {
    hide Apply, Inv;
    var w := Run(INITIAL_WORLD, events);
    var mt := w.torrents[t];
    ReachableRun(events, t);
    if mt.state == DOWNLOADING {
      forall c | 0 <= c < |mt.candidates|
        ensures mt.candidates[c].connecting <==>
                exists j: nat :: Dialling(w.conn, j, mt.generation, mt.candidates[c].addr)
      {
        if mt.candidates[c].connecting {
          assert Connecting(mt, c, mt.candidates[c].addr);
        }
        if j: nat :| Dialling(w.conn, j, mt.generation, mt.candidates[c].addr) {
          assert MyConn(w.conn, j, mt.generation);
          var d: nat :| Connecting(mt, d, w.conn[j].value.addr);
          assert d == c;
        }
      }
    }
  }

  /** A handshake that finished for a live run always finds a peer slot. */
  lemma HandshakeFindsSlot(w: World, j: nat, t: nat)
    requires Inv(w) && HasJob(w.conn, j) && w.conn[j].value.done && w.conn[j].value.sock.Some?
    requires IsLive(w, t, w.conn[j].value.generation)
    ensures var w' := CollectConn(w, j);
            && Connected(w'.torrents[t].peers, w.conn[j].value.addr)
            && w'.torrents[t].active == w.torrents[t].active + 1
            && w'.open == w.open && !HasJob(w'.conn, j)
  {
    hide Inv, AssemblyOk, StateOk, TableOk, DiskOk, WebOk;
    var job := w.conn[j].value;
    var mt := w.torrents[t];
    GenerationsOf(w);
    LiveIsUnique(w, job.generation, FindLive(w, job.generation, |w.torrents|).value, t);
    RunOf(w, t);
    assert MyConn(w.conn, j, mt.generation);
    LivePeers(mt, w.conn, j);
    ConnPendingUpdate(w.conn, j, None, mt.generation);
    LoadLimit(mt, w.conn);
    var m := mt.(candidates := ClearConnecting(mt.candidates, job.addr));
    AlwaysAdopts(m, job.sock.value, job.addr);
    var slot := ClosedSlot(m.peers);
    assert ConnectedAt(Adopted(m, job.sock.value, job.addr).peers, slot, job.addr);
  }

  // ----- sockets --------------------------------------------------------------

  ghost predicate PeerHolds(w: World, t: nat, p: nat, s: nat) {
    HasPeer(w, t, p) && w.torrents[t].peers[p].sock == Some(s)
  }

  ghost predicate JobHolds(w: World, j: nat, s: nat) {
    HasJob(w.conn, j) && w.conn[j].value.sock == Some(s)
  }

  function Holds(peer: Peer, s: nat): nat {
    if peer.sock == Some(s) then 1 else 0
  }

  function CountHolding(peers: seq<Peer>, s: nat): nat {
    if peers == [] then 0 else CountHolding(peers[..|peers| - 1], s) + Holds(peers[|peers| - 1], s)
  }

  lemma {:induction false} PeerSocksCount(peers: seq<Peer>, s: nat)
    ensures PeerSocks(peers)[s] == CountHolding(peers, s)
  {
    if peers != [] {
      PeerSocksCount(peers[..|peers| - 1], s);
      assert SockSet(peers[|peers| - 1].sock)[s] == Holds(peers[|peers| - 1], s);
    }
  }

  lemma {:induction false} HoldingCount(peers: seq<Peer>, s: nat)
    ensures CountHolding(peers, s) > 0 <==> exists p :: 0 <= p < |peers| && peers[p].sock == Some(s)
    ensures forall p, q :: 0 <= p < q < |peers| && peers[p].sock == Some(s) && peers[q].sock == Some(s) ==>
              CountHolding(peers, s) >= 2
  {
    if peers != [] {
      var last := |peers| - 1;
      HoldingCount(peers[..last], s);
      assert forall p :: 0 <= p < last ==> peers[..last][p] == peers[p];
      if CountHolding(peers[..last], s) > 0 {
        var p :| 0 <= p < last && peers[..last][p].sock == Some(s);
        assert peers[p].sock == Some(s);
      }
    }
  }

  lemma PeerMultiplicity(peers: seq<Peer>, s: nat)
    ensures s in PeerSocks(peers) <==> exists p :: 0 <= p < |peers| && peers[p].sock == Some(s)
    ensures forall p, q :: 0 <= p < q < |peers| && peers[p].sock == Some(s) && peers[q].sock == Some(s) ==>
              PeerSocks(peers)[s] >= 2
  {
    hide PeerSocks, CountHolding;
    PeerSocksCount(peers, s);
    HoldingCount(peers, s);
  }

  lemma {:induction false} TorrentMultiplicity(ts: seq<Managed>, s: nat)
    ensures s in TorrentSocks(ts) <==> exists t :: 0 <= t < |ts| && s in PeerSocks(ts[t].peers)
    ensures forall t :: 0 <= t < |ts| ==> PeerSocks(ts[t].peers)[s] <= TorrentSocks(ts)[s]
    ensures forall t, u :: 0 <= t < u < |ts| && s in PeerSocks(ts[t].peers) && s in PeerSocks(ts[u].peers) ==>
              TorrentSocks(ts)[s] >= 2
  {
    hide PeerSocks;
    if ts != [] {
      var last := |ts| - 1;
      TorrentMultiplicity(ts[..last], s);
      assert forall t :: 0 <= t < last ==> ts[..last][t] == ts[t];
    }
  }

  lemma {:induction false} JobMultiplicity(conn: seq<Option<ConnJob>>, s: nat)
    ensures s in ConnSocks(conn) <==> exists j :: 0 <= j < |conn| && s in JobSock(conn[j])
    ensures forall j, k :: 0 <= j < k < |conn| && s in JobSock(conn[j]) && s in JobSock(conn[k]) ==>
              ConnSocks(conn)[s] >= 2
  {
    hide JobSock;
    if conn != [] {
      var last := |conn| - 1;
      JobMultiplicity(conn[..last], s);
      assert forall j :: 0 <= j < last ==> conn[..last][j] == conn[j];
    }
  }

  lemma OwnersOfSocket(w: World, s: nat)
    requires SocketsOk(w)
    ensures s in w.open <==> (exists t: nat, p: nat :: PeerHolds(w, t, p, s)) || (exists j: nat :: JobHolds(w, j, s))
    ensures forall t: nat, p: nat, u: nat, q: nat :: PeerHolds(w, t, p, s) && PeerHolds(w, u, q, s) ==> t == u && p == q
    ensures forall j: nat, k: nat :: JobHolds(w, j, s) && JobHolds(w, k, s) ==> j == k
    ensures forall t: nat, p: nat, j: nat :: !(PeerHolds(w, t, p, s) && JobHolds(w, j, s))
  {
    hide PeerSocks, TorrentSocks, ConnSocks;
    TorrentMultiplicity(w.torrents, s);
    JobMultiplicity(w.conn, s);
    assert (TorrentSocks(w.torrents) + ConnSocks(w.conn))[s] == multiset(w.open)[s] <= 1;
    forall t: nat | t < |w.torrents|
      ensures s in PeerSocks(w.torrents[t].peers) <==> exists p: nat :: PeerHolds(w, t, p, s)
    {
      PeerMultiplicity(w.torrents[t].peers, s);
      if s in PeerSocks(w.torrents[t].peers) {
        var p :| 0 <= p < |w.torrents[t].peers| && w.torrents[t].peers[p].sock == Some(s);
        assert PeerHolds(w, t, p, s);
      }
    }
    forall t: nat, p: nat, u: nat, q: nat | PeerHolds(w, t, p, s) && PeerHolds(w, u, q, s)
      ensures t == u && p == q
    {
      PeerMultiplicity(w.torrents[t].peers, s);
      assert s in PeerSocks(w.torrents[t].peers) && s in PeerSocks(w.torrents[u].peers);
    }
    forall j: nat
      ensures JobHolds(w, j, s) <==> j < |w.conn| && s in JobSock(w.conn[j])
    {
    }
  }

  /** In every reachable state no socket leaks and none is shared: a socket is open exactly
      when a peer or a connection job holds it, and then only one of them does. */
  lemma SocketOwnership(events: seq<Event>, s: nat)
    ensures var w := Run(INITIAL_WORLD, events);
            && (s in w.open <==> (exists t: nat, p: nat :: PeerHolds(w, t, p, s)) || (exists j: nat :: JobHolds(w, j, s)))
            && (forall t: nat, p: nat, u: nat, q: nat :: PeerHolds(w, t, p, s) && PeerHolds(w, u, q, s) ==> t == u && p == q)
            && (forall j: nat, k: nat :: JobHolds(w, j, s) && JobHolds(w, k, s) ==> j == k)
            && (forall t: nat, p: nat, j: nat :: !(PeerHolds(w, t, p, s) && JobHolds(w, j, s)))
  {
    hide Run, SocketsOk, AllTorrents, DiscOk, BudgetOk, Generations, PeerHolds, JobHolds;
    ReachableInv(events);
    OwnersOfSocket(Run(INITIAL_WORLD, events), s);
  }

  // ----- discovery --------------------------------------------------------------

  predicate IsDiscovery(e: Event) {
    e.EvScheduleDiscovery? || e.EvReadDone? || e.EvDrain? || e.EvFreeIfDone? || e.EvDiscPublishes? || e.EvDiscFinishes?
  }

  /** The three job tables are the same. */
  ghost predicate SameJobs(a: World, b: World) {
    a.web == b.web && a.conn == b.conn && a.disc == b.disc
  }

  lemma {:induction false} DisconnectAllKeepsJobs(w: World, t: nat, n: nat)
    requires t < |w.torrents| && n <= |w.torrents[t].peers|
    ensures SameJobs(DisconnectAll(w, t, n), w)
  {
    if n > 0 {
      DisconnectAllKeepsJobs(w, t, n - 1);
    }
  }

  lemma LifecycleKeepsJobs(w: World, e: Event)
    requires e.EvAdd? || e.EvStart? || e.EvStop? || e.EvRemove? || e.EvCheckDone?
    ensures SameJobs(Apply(w, e), w)
  {
    hide DisconnectAll;
    if !e.EvAdd? && e.t < |w.torrents| {
      DisconnectAllKeepsJobs(Retire(w, e.t), e.t, |w.torrents[e.t].peers|);
      DisconnectAllKeepsJobs(w, e.t, |w.torrents[e.t].peers|);
    }
  }

  lemma DisconnectKeepsJobs()
    ensures forall w: World, t: nat, p: nat :: HasPeer(w, t, p) ==> SameJobs(Disconnect(w, t, p), w)
  {
    hide RecordFailure, ReleaseInTable;
  }

  lemma PeerStepKeepsJobs(w: World, e: Event)
    requires e.EvTimeOut? || e.EvRecv? || e.EvRequest?
    ensures SameJobs(Apply(w, e), w)
  {
    hide Disconnect, StorePiece, ClearFailures, Outcome, HashMatches, Add, Start, Stop, Remove, CollectWeb, ReadDone,
         Drain, FreeIfDone, CollectConn, CheckDone, ScheduleDiscovery, ScheduleConn, ScheduleWeb, WebWorker, ConnOpens,
         ConnSucceeds, ConnFails, DiscPublishes, DiscFinishes;
    DisconnectKeepsJobs();
  }

  lemma OthersKeepDisc(w: World, e: Event)
    requires !IsDiscovery(e)
    ensures Apply(w, e).disc == w.disc
  {
    hide Add, Start, Stop, Remove, CheckDone, TimeOut, Recv, Request, CollectInto, CollectConnInto;
    if e.EvAdd? || e.EvStart? || e.EvStop? || e.EvRemove? || e.EvCheckDone? {
      LifecycleKeepsJobs(w, e);
    } else if e.EvTimeOut? || e.EvRecv? || e.EvRequest? {
      PeerStepKeepsJobs(w, e);
    }
  }

  lemma OthersKeepConn(w: World, e: Event)
    requires !e.EvScheduleConn? && !e.EvCollectConn? && !e.EvConnOpens? && !e.EvConnSucceeds? && !e.EvConnFails?
    ensures Apply(w, e).conn == w.conn
  {
    hide Add, Start, Stop, Remove, CheckDone, TimeOut, Recv, Request, CollectInto;
    if e.EvAdd? || e.EvStart? || e.EvStop? || e.EvRemove? || e.EvCheckDone? {
      LifecycleKeepsJobs(w, e);
    } else if e.EvTimeOut? || e.EvRecv? || e.EvRequest? {
      PeerStepKeepsJobs(w, e);
    }
  }

  lemma OthersKeepWeb(w: World, e: Event)
    requires !e.EvScheduleWeb? && !e.EvCollectWeb? && !e.EvWebWorker?
    ensures Apply(w, e).web == w.web
  {
    hide Add, Start, Stop, Remove, CheckDone, TimeOut, Recv, Request, CollectConnInto;
    if e.EvAdd? || e.EvStart? || e.EvStop? || e.EvRemove? || e.EvCheckDone? {
      LifecycleKeepsJobs(w, e);
    } else if e.EvTimeOut? || e.EvRecv? || e.EvRequest? {
      PeerStepKeepsJobs(w, e);
    }
  }

  /** The hand-off in every reachable state and under every next step: what was accepted
      is what was drained and what is queued, in order; addresses are drained only by
      passing the whole queue to add_candidate of the live run; and a job disappears
      only after its worker has finished and everything accepted has been drained. */
  lemma DiscoveryHandOff(events: seq<Event>, e: Event, j: nat)
    requires HasJob(Run(INITIAL_WORLD, events).disc, j)
    ensures var w := Run(INITIAL_WORLD, events);
            var w', job := Apply(w, e), w.disc[j].value;
            && job.accepted == job.drained + job.queue
            && (!HasJob(w'.disc, j) ==> job.done && job.queue == [] && job.drained == job.accepted)
            && (HasJob(w'.disc, j) ==>
                  var job' := w'.disc[j].value;
                  && job.accepted <= job'.accepted
                  && (job'.drained == job.drained || Delivered(w, w', job, job')))
  {
    hide Run, Inv, Apply, Drain, DiscJobOk, Delivered;
    var w := Run(INITIAL_WORLD, events);
    ReachableInv(events);
    DiscJobOf(w, j);
    AcceptedIsHandedOn(w.disc[j].value);
    if !IsDiscovery(e) {
      OthersKeepDisc(w, e);
    } else if e.EvDrain? && e.j == j && w.disc[j].value.phase.DoneRead? {
      DrainHandsOver(w, e, j);
    } else {
      DiscoveryStepKeeps(w, e, j);
    }
  }

  lemma AcceptedIsHandedOn(job: DiscJob)
    requires DiscJobOk(job)
    ensures job.accepted == job.drained + job.queue
  {
  }

  lemma DrainHandsOver(w: World, e: Event, j: nat)
    requires Inv(w) && e.EvDrain? && e.j == j && HasJob(w.disc, j) && w.disc[j].value.phase.DoneRead?
    ensures var w' := Apply(w, e);
            && HasJob(w'.disc, j) && w'.disc[j].value.accepted == w.disc[j].value.accepted
            && Delivered(w, w', w.disc[j].value, w'.disc[j].value)
  {
    hide Inv, AddCandidates;
    DrainDelivers(w, j);
  }

  ghost predicate Delivered(w: World, w': World, job: DiscJob, job': DiscJob) {
    && job'.drained == job.drained + job.queue && job'.queue == [] && |w'.torrents| == |w.torrents|
    && forall t :: 0 <= t < |w.torrents| ==>
         w'.torrents[t] == if IsLive(w, t, job.generation) then AddCandidates(w.torrents[t], job.queue)
                           else w.torrents[t]
  }

  lemma DiscoveryStepKeeps(w: World, e: Event, j: nat)
    requires IsDiscovery(e) && HasJob(w.disc, j) && DiscJobOk(w.disc[j].value)
    requires !(e.EvDrain? && e.j == j && w.disc[j].value.phase.DoneRead?)
    ensures var w', job := Apply(w, e), w.disc[j].value;
            && (!HasJob(w'.disc, j) ==> job.done && job.queue == [] && job.drained == job.accepted)
            && (HasJob(w'.disc, j) ==>
                  job.accepted <= w'.disc[j].value.accepted && w'.disc[j].value.drained == job.drained)
  {
    hide AddCandidates, Publish, Add, Start, Stop, Remove, CollectWeb, CollectConn, CheckDone, TimeOut, Recv, Request,
         ScheduleConn, ScheduleWeb, WebWorker, ConnOpens, ConnSucceeds, ConnFails;
  }
}
