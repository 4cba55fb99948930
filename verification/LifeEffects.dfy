/** What adding, starting, stopping, removing and finishing a torrent do, said of the
    tables before and after. */
module LifeEffects {
  import opened Bytes
  import opened Torrent
  import opened PieceMgr
  import opened Disk
  import opened EngineTypes
  import opened EngineSteps
  import opened EngineInvariants
  import opened EngineFrames
  import opened EngineLifecycle
  import opened EnginePeers
  import opened EngineRequests
  import opened PeerEffects
  import FileIo

  // ----- closing all peers ------------------------------------------------------------

  /** One of the first n peers is connected to the address. */
  ghost predicate OpenTo(peers: seq<Peer>, n: nat, addr: Addr) {
    exists p :: 0 <= p < n && p < |peers| && peers[p].sock.Some? && peers[p].addr == addr
  }

  /** One of the first n peers is assembling piece i. */
  ghost predicate HeldBy(peers: seq<Peer>, n: nat, i: nat) {
    exists p :: 0 <= p < n && p < |peers| && peers[p].assembly.Some? && peers[p].assembly.value.index == i
  }

  ghost function Sockets(peers: seq<Peer>, n: nat): set<nat> {
    set p | 0 <= p < n && p < |peers| && peers[p].sock.Some? :: peers[p].sock.value
  }

  /** The memory that the first n peers hold. */
  function Held(peers: seq<Peer>, n: nat): nat
    requires n <= |peers|
  {
    if n == 0 then 0
    else Held(peers, n - 1) + match peers[n - 1].assembly case None => 0 case Some(a) => |a.buffer|
  }

  function Failed(c: Candidate): Candidate {
    Candidate(c.addr, if c.failures < 5 then c.failures + 1 else c.failures, c.connecting)
  }

  /** The first n peers are closed: their sockets and buffers are given back, their pieces
      are free again unless finished, and in a downloading torrent each has failed once more. */
  ghost predicate PeersClosed(w: World, w': World, t: nat, n: nat) {
    && OnlyRun(w, w', t)
    && var a, b := w.torrents[t], w'.torrents[t];
       && n <= |a.peers| == |b.peers|
       && b == a.(peers := b.peers, active := b.active, candidates := b.candidates, table := b.table)
       && (forall p :: 0 <= p < |a.peers| ==>
             b.peers[p] == if p < n then Peer(None, a.peers[p].addr, a.peers[p].choked, None, None, 0) else a.peers[p])
       && w'.open == w.open - Sockets(a.peers, n) && w'.assemblyBytes == w.assemblyBytes - Held(a.peers, n)
       && PiecesFreed(a.table, b.table, a.peers, n) && FailuresCounted(a, b.candidates, n)
  }

  ghost predicate PiecesFreed(a: Option<PieceTable>, b: Option<PieceTable>, peers: seq<Peer>, n: nat) {
    if a.None? then b.None?
    else
      && b.Some? && b.value == a.value.(states := b.value.states) && |b.value.states| == |a.value.states|
      && forall i :: 0 <= i < |a.value.states| ==>
           b.value.states[i] == if HeldBy(peers, n, i) && a.value.states[i] != COMPLETE then FREE else a.value.states[i]
  }

  ghost predicate FailuresCounted(a: Managed, cs: seq<Candidate>, n: nat) {
    && |cs| == |a.candidates|
    && forall k :: 0 <= k < |cs| ==>
         cs[k] == if a.state == DOWNLOADING && OpenTo(a.peers, n, a.candidates[k].addr) then Failed(a.candidates[k])
                  else a.candidates[k]
  }

  lemma {:induction false} AllClosed(w: World, t: nat, n: nat)
    requires t < |w.torrents| && n <= |w.torrents[t].peers|
    requires PeersOk(w.torrents[t]) && CandidatesOk(w.torrents[t])
    ensures PeersClosed(w, DisconnectAll(w, t, n), t, n)
  {
    hide Disconnect, PeersClosed, PeersOk, CandidatesOk;
    if n == 0 {
      NoneClosed(w, t);
    } else {
      AllClosed(w, t, n - 1);
      OneMoreClosed(w, DisconnectAll(w, t, n - 1), t, n - 1);
    }
  }

  lemma NoneClosed(w: World, t: nat)
    requires t < |w.torrents|
    ensures PeersClosed(w, w, t, 0)
  {
  }

  lemma OneMoreClosed(w: World, v: World, t: nat, n: nat)
    requires PeersClosed(w, v, t, n) && n < |w.torrents[t].peers|
    requires PeersOk(w.torrents[t]) && CandidatesOk(w.torrents[t])
    ensures HasPeer(v, t, n) && PeersClosed(w, Disconnect(v, t, n), t, n + 1)
  {
    hide PeersOk, CandidatesOk, PiecesFreed, FailuresCounted, RecordFailure, Sockets, CloseJobSocket, ReleaseInTable;
    DisconnectForm(v, t, n);
    var a, b := w.torrents[t], Disconnected(v.torrents[t], n);
    OnePieceFreed(a.table, v.torrents[t].table, a.peers, n);
    OneFailureCounted(a, v.torrents[t].candidates, n);
    OneSocketClosed(w.open, a.peers, n);
  }

  lemma OneSocketClosed(open: set<nat>, peers: seq<Peer>, n: nat)
    requires n < |peers|
    ensures CloseJobSocket(open - Sockets(peers, n), peers[n].sock) == open - Sockets(peers, n + 1)
  {
    assert Sockets(peers, n + 1) == Sockets(peers, n) + if peers[n].sock.Some? then {peers[n].sock.value} else {};
  }

  lemma OnePieceFreed(a: Option<PieceTable>, b: Option<PieceTable>, peers: seq<Peer>, n: nat)
    requires PiecesFreed(a, b, peers, n) && n < |peers|
    ensures PiecesFreed(a, if peers[n].assembly.Some? then ReleaseInTable(b, peers[n].assembly.value.index) else b,
                        peers, n + 1)
  {
    forall i: nat
      ensures HeldBy(peers, n + 1, i) <==>
              HeldBy(peers, n, i) || (peers[n].assembly.Some? && peers[n].assembly.value.index == i)
    {
    }
    hide HeldBy;
  }

  lemma OneFailureCounted(a: Managed, cs: seq<Candidate>, n: nat)
    requires FailuresCounted(a, cs, n) && n < |a.peers| && PeersOk(a) && CandidatesOk(a)
    ensures FailuresCounted(a, if a.peers[n].sock.Some? && a.state == DOWNLOADING
                               then RecordFailure(cs, a.peers[n].addr) else cs, n + 1)
  {
    hide RecordFailure, PeerOk;
    var peer := a.peers[n];
    forall addr: Addr
      ensures OpenTo(a.peers, n + 1, addr) <==> OpenTo(a.peers, n, addr) || (peer.sock.Some? && peer.addr == addr)
    {
    }
    assert peer.sock.Some? ==> !OpenTo(a.peers, n, peer.addr);
    hide OpenTo, PeersOk;
    if peer.sock.Some? && a.state == DOWNLOADING {
      FailureRecorded(cs, peer.addr);
      assert forall k: nat :: k < |cs| ==> (FirstWith(cs, peer.addr, k) <==> cs[k].addr == peer.addr);
    }
  }

  /** The tables hold 32 web-seed jobs, 32 connections and 8 tracker jobs, and start empty. */
  lemma InitialIs()
    ensures var w := INITIAL_WORLD;
            && w.torrents == [] && w.assemblyBytes == 0 && w.open == {}
            && |w.web| == 32 && |w.conn| == 32 && |w.disc| == 8
            && (forall j :: 0 <= j < 32 ==> w.web[j] == None && w.conn[j] == None)
            && forall j :: 0 <= j < 8 ==> w.disc[j] == None
  {
  }

  // ----- add --------------------------------------------------------------------------

  /** A new torrent goes to the end while there are fewer than eight: stopped, without
      pieces, peers or candidates, under a generation of its own. */
  lemma AddIs(w: World, meta: Metainfo, existing: Files)
    requires Addable(meta, existing)
    ensures var w' := Apply(w, EvAdd(meta, existing));
            if |w.torrents| >= 8 then w' == w
            else
              && w' == w.(torrents := w'.torrents, nextGeneration := w.nextGeneration + 1)
              && |w'.torrents| == |w.torrents| + 1 && w'.torrents[..|w.torrents|] == w.torrents
              && w'.torrents[|w.torrents|] ==
                 Managed(w.nextGeneration, STOPPED, meta, None, 0, false, existing, [], 0, [], 0, 0)
  {
    hide Addable;
  }

  // ----- stop -------------------------------------------------------------------------

  /** Nothing but the torrents, the memory, the sockets and the next generation differs. */
  ghost predicate Closing(w: World, w': World, t: nat) {
    && t < |w.torrents|
    && w' == w.(torrents := w'.torrents, assemblyBytes := w.assemblyBytes - Held(w.torrents[t].peers, |w.torrents[t].peers|),
                open := w.open - Sockets(w.torrents[t].peers, |w.torrents[t].peers|),
                nextGeneration := w.nextGeneration + 1)
  }

  ghost predicate OthersKept(w: World, w': World, t: nat) {
    && t < |w.torrents| == |w'.torrents|
    && forall u :: 0 <= u < |w.torrents| && u != t ==> w'.torrents[u] == w.torrents[u]
  }

  /** The run is over: its peers are closed, it has a new generation and no candidates. */
  ghost predicate RunEnded(w: World, w': World, t: nat) {
    && Closing(w, w', t) && OthersKept(w, w', t)
    && var a, b := w.torrents[t], w'.torrents[t];
       && b == Managed(w.nextGeneration, STOPPED, a.meta, b.table, a.tableId, a.hasWriter, a.files, [], 0, [], 0,
                       a.downloaded)
       && PiecesFreed(a.table, b.table, a.peers, |a.peers|)
  }

  lemma StopIs(w: World, t: nat)
    requires Inv(w)
    ensures var w' := Apply(w, EvStop(t));
            if t >= |w.torrents| then w' == w else RunEnded(w, w', t)
  {
    hide Inv, Stop, RunEnded;
    if t < |w.torrents| {
      StoppedIs(w, t);
    } else {
      StopNothing(w, t);
    }
  }

  lemma StoppedIs(w: World, t: nat)
    requires Inv(w) && t < |w.torrents|
    ensures RunEnded(w, Stop(w, t), t)
  {
    hide Inv, DisconnectAll, Held, Sockets, PiecesFreed, TableOk, DiskOk, WebOk, ConnOk;
    RunOf(w, t);
    var r := Retire(w, t);
    var a := w.torrents[t];
    assert r.torrents[t].peers == a.peers && r.torrents[t].table == a.table;
    assert PeersOk(r.torrents[t]) && CandidatesOk(r.torrents[t]);
    hide PeersOk, CandidatesOk;
    AllClosed(r, t, |a.peers|);
  }

  // ----- start ------------------------------------------------------------------------

  /** All n pieces are free, and nothing is counted. */
  ghost predicate NewTable(table: Option<PieceTable>, meta: Metainfo) {
    && table.Some?
    && var n := meta.NumPieces();
       && |table.value.states| == n && (forall i :: 0 <= i < n ==> table.value.states[i] == FREE)
       && |table.value.hashes| == n
       && (forall i :: 0 <= i < n ==> table.value.hashes[i] == meta.pieces[20 * i..20 * i + 20])
       && table.value.numComplete == 0
       && |table.value.bitfield| == BitBytes(n) && forall k :: 0 <= k < BitBytes(n) ==> table.value.bitfield[k] == 0
  }

  /** Nothing of an earlier run is left to clean up. */
  ghost predicate Fresh(mt: Managed) {
    mt.table.None? && !mt.hasWriter
  }

  /** What start makes of a torrent that is stopped or in error: what is left of an earlier
      run is cleared as by a stop; then, in this order, directories, pieces, memory and
      output files must be had, and with all of them the torrent is downloading. */
  ghost predicate StartedAs(w: World, w': World, t: nat, outcome: StartOutcome) {
    && OthersKept(w, w', t) && w'.web == w.web && w'.conn == w.conn && w'.disc == w.disc
    && var a, b, n := w.torrents[t], w'.torrents[t], w.torrents[t].meta.NumPieces();
       var runs, table := n > 0 && outcome == Started, n > 0 && (outcome == Started || outcome == WriterFails);
       && (if Fresh(a) then w'.open == w.open && w'.assemblyBytes == w.assemblyBytes
                            && w'.nextGeneration == w.nextGeneration
           else w'.open == w.open - Sockets(a.peers, |a.peers|)
                && w'.assemblyBytes == w.assemblyBytes - Held(a.peers, |a.peers|)
                && w'.nextGeneration == w.nextGeneration + 1)
       && b == Managed(if Fresh(a) then a.generation else w.nextGeneration, if runs then DOWNLOADING else ERROR, a.meta,
                       b.table, if table then w.nextTable else a.tableId, runs,
                       if runs && !a.meta.multiFile then [[]] else a.files,
                       [], 0, [], if Fresh(a) then a.nextCandidate else 0, 0)
       && (if table then NewTable(b.table, a.meta) && w'.nextTable == w.nextTable + 1
           else b.table.None? && w'.nextTable == w.nextTable)
  }

  lemma StartIs(w: World, t: nat, outcome: StartOutcome)
    requires Inv(w)
    ensures var w' := Apply(w, EvStart(t, outcome));
            if t >= |w.torrents| || w.torrents[t].state == DOWNLOADING || w.torrents[t].state == DONE then w' == w
            else StartedAs(w, w', t, outcome)
  {
    hide Apply, Inv, Stop, StartedAs, Launch, ResetForStart;
    StartStep(w, t, outcome);
    if t < |w.torrents| && w.torrents[t].state != DOWNLOADING && w.torrents[t].state != DONE {
      LaunchedIs(w, t, outcome);
    }
  }

  /** The torrent as the reset leaves it. */
  ghost predicate Cleared(w: World, r: World, t: nat) {
    && OthersKept(w, r, t)
    && var a, b := w.torrents[t], r.torrents[t];
       && b.table.None? && !b.hasWriter && b.peers == [] && b.active == 0 && b.candidates == []
       && b == a.(generation := b.generation, state := b.state, table := None, hasWriter := false, peers := [], active := 0,
                  candidates := [], nextCandidate := b.nextCandidate)
       && if Fresh(a) then r == w
          else Closing(w, r, t) && b.generation == w.nextGeneration && b.nextCandidate == 0
  }

  lemma ClearedIs(w: World, t: nat)
    requires Inv(w) && t < |w.torrents|
    ensures Cleared(w, ResetForStart(w, t), t)
  {
    hide Inv, Stop, Held, Sockets, PiecesFreed, TableOk, DiskOk, WebOk, ConnOk, CandidatesOk, PeerOk;
    StoppedIs(w, t);
    RunOf(w, t);
  }

  lemma LaunchedIs(w: World, t: nat, outcome: StartOutcome)
    requires Inv(w) && t < |w.torrents|
    ensures t < |ResetForStart(w, t).torrents| && StartedAs(w, Launch(ResetForStart(w, t), t, outcome), t, outcome)
  {
    hide Inv, ResetForStart, Held, Sockets, InitialTable, NewTable;
    ClearedIs(w, t);
    NewTableIs(w.torrents[t].meta);
  }

  lemma NewTableIs(meta: Metainfo)
    ensures NewTable(Some(InitialTable(meta)), meta)
  {
  }

  // ----- remove -----------------------------------------------------------------------

  /** A removed torrent is closed like a stopped one, and those behind it move up. */
  lemma RemoveIs(w: World, t: nat)
    requires Inv(w)
    ensures var w' := Apply(w, EvRemove(t));
            if t >= |w.torrents| then w' == w
            else
              && Closing(w, w', t) && |w'.torrents| == |w.torrents| - 1
              && (forall u :: 0 <= u < t ==> w'.torrents[u] == w.torrents[u])
              && forall u :: t <= u < |w.torrents| - 1 ==> w'.torrents[u] == w.torrents[u + 1]
  {
    hide Inv, Stop, Held, Sockets, PiecesFreed;
    if t < |w.torrents| {
      StoppedIs(w, t);
    }
  }

  // ----- completion ---------------------------------------------------------------------

  /** A downloading torrent is done exactly when every piece is finished; its peers are closed. */
  lemma CheckDoneIs(w: World, t: nat)
    requires Inv(w) && t < |w.torrents|
    ensures var w', mt := Apply(w, EvCheckDone(t)), w.torrents[t];
            if mt.state == DOWNLOADING && mt.table.Some?
               && forall i :: 0 <= i < |mt.table.value.states| ==> mt.table.value.states[i] == COMPLETE
            then
              && t < |w'.torrents| && w'.torrents[t].state == DONE && w'.torrents[t].active == 0
              && PeersClosed(w, w'.(torrents := w'.torrents[t := w'.torrents[t].(state := DOWNLOADING)]), t, |mt.peers|)
            else w' == w
  {
    hide Inv, PeersClosed, DisconnectAll, RunOk, TorrentOk;
    var mt := w.torrents[t];
    if mt.state == DOWNLOADING && mt.table.Some? {
      ConsistentOf(w, t);
      CountersAgree(mt.table.value);
      hide PieceTable.IsDone;
      if mt.table.value.IsDone() {
        DoneCloses(w, t);
      }
    }
  }

  lemma DoneCloses(w: World, t: nat)
    requires Inv(w) && t < |w.torrents| && w.torrents[t].state == DOWNLOADING
    ensures var d := DisconnectAll(w, t, |w.torrents[t].peers|);
            && PeersClosed(w, d, t, |w.torrents[t].peers|)
            && d.torrents[t].active == 0 && d.torrents[t].state == DOWNLOADING
            && d.torrents[t := d.torrents[t].(state := DONE)][t := d.torrents[t]] == d.torrents
  {
    hide Inv, DisconnectAll, TableOk, DiskOk, WebOk, ConnOk;
    var n := |w.torrents[t].peers|;
    RunOf(w, t);
    assert PeersOk(w.torrents[t]) && CandidatesOk(w.torrents[t]);
    AllClosed(w, t, n);
    DisconnectAllKeepsInv(w, t, n);
    var d := DisconnectAll(w, t, n);
    RunOf(d, t);
    AllPeersClosed(d.torrents[t]);
  }
}
