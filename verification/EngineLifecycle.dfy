/** add, start, stop, remove and the completion check keep the invariant. */
module EngineLifecycle {
  import opened Bytes
  import opened Torrent
  import opened PieceMgr
  import opened Disk
  import opened EngineTypes
  import opened EngineSteps
  import opened EngineInvariants
  import opened EngineFrames
  import opened EnginePeers
  import FileIo

  lemma {:induction false} CountConnectedBound(peers: seq<Peer>)
    ensures CountConnected(peers) <= |peers|
  {
    if peers != [] {
      CountConnectedBound(peers[..|peers| - 1]);
    }
  }

  /** No job of generation g is in flight. */
  ghost predicate NoJobs(w: World, g: nat) {
    && (forall j: nat :: !MyWeb(w.web, j, g))
    && (forall j: nat :: !MyConn(w.conn, j, g))
  }

  lemma RunOkWithoutJobs(w: World, mt: Managed)
    requires TorrentOk(mt) && NoJobs(w, mt.generation)
    requires mt.state == DOWNLOADING && mt.table.Some? ==>
               forall i :: 0 <= i < |mt.table.value.states| ==> mt.table.value.states[i] != REQUESTED
    requires mt.state == DOWNLOADING ==> forall c :: 0 <= c < |mt.candidates| ==> !mt.candidates[c].connecting
    ensures RunOk(mt, w.web, w.conn)
  {
    forall j | 0 <= j < |w.conn| && w.conn[j].Some?
      ensures w.conn[j].value.generation != mt.generation
    {
      assert !MyConn(w.conn, j, mt.generation);
    }
    ConnPendingZero(w.conn, mt.generation);
    CountConnectedBound(mt.peers);
  }

  lemma TablessRunHasNoJobs(w: World, t: nat)
    requires Inv(w) && t < |w.torrents| && w.torrents[t].table.None?
    ensures NoJobs(w, w.torrents[t].generation)
  {
    assert RunOk(w.torrents[t], w.web, w.conn);
  }

  lemma FreshGenerationHasNoJobs(w: World)
    requires Generations(w)
    ensures NoJobs(w, w.nextGeneration)
  {
  }

  // ----- add ------------------------------------------------------------------

  lemma AddKeepsInv(w: World, meta: Metainfo, existing: Files)
    requires Inv(w) && Addable(meta, existing)
    ensures Inv(Add(w, meta, existing))
  {
    hide Inv, RunOk;
    if |w.torrents| < MAX_TORRENTS {
      var mt := Managed(w.nextGeneration, STOPPED, meta, None, 0, false, existing, [], 0, [], 0, 0);
      assert NoJobs(w, w.nextGeneration) by { GenerationsOf(w); FreshGenerationHasNoJobs(w); }
      assert TorrentOk(mt);
      RunOkWithoutJobs(w, mt);
      AppendRun(w, mt);
    }
  }

  lemma GenerationsOf(w: World)
    requires Inv(w)
    ensures Generations(w)
  {
  }

  lemma AppendRun(w: World, mt: Managed)
    requires Inv(w) && |w.torrents| < MAX_TORRENTS
    requires mt.generation == w.nextGeneration && mt.table.None? && mt.peers == [] && RunOk(mt, w.web, w.conn)
    ensures Inv(w.(torrents := w.torrents + [mt], nextGeneration := w.nextGeneration + 1))
  {
    hide RunOk, DiscOk, ConnSocks, TorrentSocks, TorrentBytes;
    TorrentSumsAppend(w.torrents, mt);
    assert TorrentSocks(w.torrents) + PeerSocks(mt.peers) == TorrentSocks(w.torrents);
  }

  // ----- stop -----------------------------------------------------------------

  lemma RetireKeepsInv(w: World, t: nat)
    requires Inv(w) && t < |w.torrents|
    ensures Inv(Retire(w, t)) && NoJobs(Retire(w, t), w.nextGeneration)
  {
    hide Inv, RunOk, TorrentOk;
    var mt := w.torrents[t].(state := STOPPED, generation := w.nextGeneration);
    GenerationsOf(w);
    RunOf(w, t);
    assert TorrentOk(mt) by { RetiredTorrentOk(w.torrents[t], w.nextGeneration); }
    FreshGenerationHasNoJobs(w);
    RunOkWithoutJobs(w, mt);
    RenewRun(w, t, mt);
  }

  lemma RunOf(w: World, t: nat)
    requires Inv(w) && t < |w.torrents|
    ensures RunOk(w.torrents[t], w.web, w.conn) && TorrentOk(w.torrents[t])
  {
  }

  lemma RenewRun(w: World, t: nat, mt: Managed)
    requires Inv(w) && t < |w.torrents|
    requires mt.generation == w.nextGeneration && mt.peers == w.torrents[t].peers && RunOk(mt, w.web, w.conn)
    requires SameTable(w.torrents[t], mt)
    ensures Inv(SetTorrent(w, t, mt).(nextGeneration := w.nextGeneration + 1))
  {
    hide RunOk, DiscOk, ConnSocks, PeerSocks, PeerBytes, SocketsOk, BudgetOk, TorrentSocks, TorrentBytes;
    SamePeersBalance(w, t, mt, w.nextGeneration + 1, w.nextTable);
  }

  /** A torrent that keeps its peers keeps the sums over all peers. */
  lemma SamePeersBalance(w: World, t: nat, mt: Managed, nextGeneration: nat, nextTable: nat)
    requires SocketsOk(w) && BudgetOk(w) && t < |w.torrents| && mt.peers == w.torrents[t].peers
    ensures var w' := SetTorrent(w, t, mt).(nextGeneration := nextGeneration, nextTable := nextTable);
            SocketsOk(w') && BudgetOk(w')
  {
    hide ConnSocks, PeerSocks, PeerBytes;
    TorrentSocksUpdate(w.torrents, t, mt);
    TorrentBytesUpdate(w.torrents, t, mt);
    SameBalance(TorrentSocks(w.torrents[t := mt]), PeerSocks(mt.peers), TorrentSocks(w.torrents),
                PeerSocks(mt.peers), ConnSocks(w.conn), multiset(w.open), multiset(w.open));
  }

  lemma RetiredTorrentOk(mt: Managed, g: nat)
    requires TorrentOk(mt)
    ensures TorrentOk(mt.(state := STOPPED, generation := g))
  {
  }

  lemma ForgetKeepsInv(w: World, t: nat)
    requires Inv(w) && t < |w.torrents| && w.torrents[t].state == STOPPED
    requires NoJobs(w, w.torrents[t].generation)
    requires forall p :: 0 <= p < |w.torrents[t].peers| ==> w.torrents[t].peers[p].sock.None?
    ensures Inv(Forget(w, t))
  {
    hide Inv, TorrentOk, RunOk, PeerSocks, PeerBytes, NoJobs;
    var mt := w.torrents[t];
    var mt' := mt.(peers := [], active := 0, candidates := [], nextCandidate := 0);
    RunOf(w, t);
    ForgottenOk(mt);
    RunOkWithoutJobs(w, mt');
    UpdateQuietly(w, t, mt');
  }

  lemma ForgottenOk(mt: Managed)
    requires TorrentOk(mt) && mt.state == STOPPED
    requires forall p :: 0 <= p < |mt.peers| ==> mt.peers[p].sock.None?
    ensures TorrentOk(mt.(peers := [], active := 0, candidates := [], nextCandidate := 0))
    ensures PeerSocks(mt.peers) == PeerSocks([]) && PeerBytes(mt.peers) == PeerBytes([])
  {
    hide PeerSocks, PeerBytes, Verified, Addable, Admissible, SumComplete, PieceTable.Consistent;
    AllPeersClosed(mt);
    NoPeerSums([]);
  }

  lemma StopNothing(w: World, t: nat)
    requires t >= |w.torrents|
    ensures Stop(w, t) == w
  {
  }

  lemma StopKeepsInv(w: World, t: nat)
    requires Inv(w)
    ensures Inv(Stop(w, t))
    ensures t < |w.torrents| ==> Stopped(w, Stop(w, t), t)
  {
    hide Inv, TorrentOk, RunOk, DisconnectAll;
    if t < |w.torrents| {
      var r := Retire(w, t);
      RetireKeepsInv(w, t);
      DisconnectAllKeepsInv(r, t, |r.torrents[t].peers|);
      var d := DisconnectAll(r, t, |r.torrents[t].peers|);
      ForgetKeepsInv(d, t);
    }
  }

  /** What a caller of torrent_mgr_stop sees. */
  ghost predicate Stopped(w: World, w': World, t: nat) {
    && w'.nextTable == w.nextTable && t < |w.torrents| == |w'.torrents|
    && w'.web == w.web && w'.conn == w.conn && w'.disc == w.disc
    && w'.nextGeneration == w.nextGeneration + 1 && w'.open <= w.open
    && (forall u :: 0 <= u < |w.torrents| && u != t ==> w'.torrents[u] == w.torrents[u])
    && var mt := w'.torrents[t];
       && mt.state == STOPPED && mt.generation == w.nextGeneration && NoJobs(w', mt.generation)
       && mt.peers == [] && mt.active == 0 && mt.candidates == []
       && mt.meta == w.torrents[t].meta && mt.files == w.torrents[t].files
       && mt.downloaded == w.torrents[t].downloaded
  }

  // ----- remove, start --------------------------------------------------------

  lemma DestroyKeepsInv(w: World, t: nat)
    requires Inv(w) && t < |w.torrents| && w.torrents[t].state == STOPPED
    requires w.torrents[t].peers == [] && w.torrents[t].candidates == [] && NoJobs(w, w.torrents[t].generation)
    ensures Inv(DestroyTable(w, t)) && NoJobs(DestroyTable(w, t), w.torrents[t].generation)
  {
    hide DiscOk, WebOk, ConnOk, WriteEffect, Verified, TorrentSocks, ConnSocks, TorrentBytes;
    var mt' := w.torrents[t].(table := None, hasWriter := false);
    assert RunOk(w.torrents[t], w.web, w.conn);
    assert TorrentOk(mt');
    RunOkWithoutJobs(w, mt');
    UpdateQuietly(w, t, mt');
  }

  lemma RemoveKeepsInv(w: World, t: nat)
    requires Inv(w)
    ensures Inv(Remove(w, t))
  {
    if t < |w.torrents| {
      StopKeepsInv(w, t);
      DestroyKeepsInv(Stop(w, t), t);
      RemoveSlot(DestroyTable(Stop(w, t), t), t);
    }
  }

  lemma RemoveSlot(w: World, t: nat)
    requires Inv(w) && t < |w.torrents| && w.torrents[t].peers == []
    ensures Inv(w.(torrents := w.torrents[..t] + w.torrents[t + 1..]))
  {
    hide RunOk, DiscOk, ConnSocks, TorrentSocks, TorrentBytes;
    var rest := w.torrents[..t] + w.torrents[t + 1..];
    var w' := w.(torrents := rest);
    TorrentSumsRemove(w.torrents, t);
    assert PeerSocks([]) == multiset{} && PeerBytes([]) == 0;
    assert TorrentSocks(rest) + multiset{} == TorrentSocks(rest);
    RestOf(w.torrents, t);
    assert Generations(w');
  }

  lemma RestOf(ts: seq<Managed>, t: nat)
    requires t < |ts|
    ensures var rest := ts[..t] + ts[t + 1..];
            |rest| == |ts| - 1 && forall u :: 0 <= u < |rest| ==> rest[u] == ts[if u < t then u else u + 1]
  {
  }

  lemma ResetKeepsInv(w: World, t: nat)
    requires Inv(w) && t < |w.torrents| && w.torrents[t].state in {STOPPED, ERROR}
    ensures Inv(ResetForStart(w, t))
    ensures var mt := ResetForStart(w, t).torrents[t];
            && mt.table.None? && !mt.hasWriter && mt.peers == [] && mt.candidates == []
            && mt.state in {STOPPED, ERROR} && NoJobs(ResetForStart(w, t), mt.generation)
            && mt.meta == w.torrents[t].meta && mt.files == w.torrents[t].files
  {
    assert RunOk(w.torrents[t], w.web, w.conn);
    if w.torrents[t].table.Some? || w.torrents[t].hasWriter {
      StopKeepsInv(w, t);
      DestroyKeepsInv(Stop(w, t), t);
    } else {
      TablessRunHasNoJobs(w, t);
    }
  }

  lemma {:induction false} NothingComplete(meta: Metainfo, states: seq<PieceState>, n: nat)
    requires n <= |states| && forall i :: 0 <= i < n ==> states[i] != COMPLETE
    ensures SumComplete(meta, states, n) == 0
  {
    if n > 0 {
      NothingComplete(meta, states, n - 1);
    }
  }

  lemma LaunchedOk(mt: Managed, outcome: StartOutcome, id: nat)
    requires TorrentOk(mt) && mt.table.None? && !mt.hasWriter && mt.peers == [] && mt.candidates == []
    requires mt.state == STOPPED || mt.state == ERROR
    ensures TorrentOk(Launched(mt, outcome, id))
  {
    hide TableOk, PeersOk, DiskOk, InitialTable, Addable, Admissible, WithoutPieces, FileIo.InitialFiles;
    FreshTableOk(mt, Launched(mt, outcome, id));
    LaunchedStateOk(mt, outcome, id);
  }

  /** A torrent without peers whose piece table is fresh, if it has one. */
  lemma FreshTableOk(mt: Managed, mt': Managed)
    requires TorrentOk(mt) && mt.peers == []
    requires mt'.meta == mt.meta && mt'.peers == [] && mt'.active == mt.active && mt'.downloaded == 0
    requires mt'.table.Some? ==> mt'.table == Some(InitialTable(mt.meta))
    ensures TableOk(mt') && PeersOk(mt') && DiskOk(mt')
  {
    hide InitialTable, Verified, PieceTable.Consistent, StateOk;
    if mt'.table.Some? {
      InitialTableConsistent(mt.meta);
      NothingComplete(mt.meta, mt'.table.value.states, |mt'.table.value.states|);
    }
  }

  lemma LaunchedStateOk(mt: Managed, outcome: StartOutcome, id: nat)
    requires StateOk(mt) && mt.table.None? && mt.peers == [] && mt.candidates == []
    requires mt.state == STOPPED || mt.state == ERROR
    ensures StateOk(Launched(mt, outcome, id))
  {
    hide InitialTable;
  }

  lemma LaunchKeepsInv(w: World, t: nat, outcome: StartOutcome)
    requires Inv(w) && t < |w.torrents| && w.torrents[t].state in {STOPPED, ERROR}
    requires var mt := w.torrents[t];
             && mt.table.None? && !mt.hasWriter && mt.peers == [] && mt.candidates == []
             && NoJobs(w, mt.generation)
    ensures Inv(Launch(w, t, outcome))
  {
    hide Inv, TorrentOk, RunOk, InitialTable;
    var mt := w.torrents[t];
    RunOf(w, t);
    LaunchedOk(mt, outcome, w.nextTable);
    InitialTableConsistent(mt.meta);
    RunOkWithoutJobs(w, Launched(mt, outcome, w.nextTable));
    if MakesTable(mt.meta, outcome) {
      LaunchFrame(w, t, Launched(mt, outcome, w.nextTable));
    } else {
      UpdateQuietly(w, t, Launched(mt, outcome, w.nextTable));
    }
  }

  /** A torrent whose new piece table gets the next number. */
  lemma LaunchFrame(w: World, t: nat, mt: Managed)
    requires Inv(w) && t < |w.torrents| && mt.generation == w.torrents[t].generation
    requires mt.tableId == w.nextTable && mt.peers == w.torrents[t].peers && RunOk(mt, w.web, w.conn)
    ensures Inv(SetTorrent(w, t, mt).(nextTable := w.nextTable + 1))
  {
    hide RunOk, DiscOk, ConnSocks, PeerSocks, PeerBytes, SocketsOk, BudgetOk, TorrentSocks, TorrentBytes;
    SamePeersBalance(w, t, mt, w.nextGeneration, w.nextTable + 1);
  }

  lemma StartKeepsInv(w: World, t: nat, outcome: StartOutcome)
    requires Inv(w)
    ensures Inv(Start(w, t, outcome))
  {
    hide Inv, Launch, ResetForStart;
    if t < |w.torrents| && w.torrents[t].state !in {DOWNLOADING, DONE} {
      assert w.torrents[t].state == STOPPED || w.torrents[t].state == ERROR;
      ResetKeepsInv(w, t);
      LaunchKeepsInv(ResetForStart(w, t), t, outcome);
    }
  }

  // ----- completion -----------------------------------------------------------

  lemma DoneRunOk(mt: Managed, web: seq<Option<WebJob>>, conn: seq<Option<ConnJob>>)
    requires RunOk(mt, web, conn) && mt.table.Some? && mt.table.value.IsDone()
    ensures RunOk(mt.(state := DONE), web, conn)
  {
    hide AssemblyOk, Verified;
    var mt' := mt.(state := DONE);
    assert forall c: nat, a: Addr :: Connecting(mt, c, a) <==> Connecting(mt', c, a);
  }

  lemma CheckDoneKeepsInv(w: World, t: nat)
    requires Inv(w)
    ensures Inv(CheckDone(w, t))
  {
    hide Inv, RunOk, TorrentOk, DisconnectAll;
    if t < |w.torrents| && w.torrents[t].state == DOWNLOADING && w.torrents[t].table.Some? &&
       w.torrents[t].table.value.IsDone() {
      var d := DisconnectAll(w, t, |w.torrents[t].peers|);
      DisconnectAllKeepsInv(w, t, |w.torrents[t].peers|);
      RunOf(d, t);
      DoneRunOk(d.torrents[t], d.web, d.conn);
      UpdateQuietly(d, t, d.torrents[t].(state := DONE));
    }
  }
}
