/** What a run never takes back: finished pieces and their bytes, and the retirement
    of a generation. */
module EngineProgress {
  import opened Bytes
  import opened Torrent
  import opened PieceMgr
  import opened Disk
  import opened EngineTypes
  import opened EngineSteps
  import opened EngineInvariants
  import opened EngineFrames
  import opened EnginePeers
  import opened EngineLifecycle
  import opened EngineTransfer
  import opened EngineRequests
  import opened EngineWeb
  import opened EngineConn
  import opened EngineDiscovery
  import opened EngineTheorems
  import FileIo

  /** The stored bytes of piece i are the same in both sets of files. */
  ghost predicate SameBytes(meta: Metainfo, a: Files, b: Files, i: nat) {
    && |a| == |b| == |meta.OutputLengths()|
    && forall g :: meta.PieceStart(i) <= g < meta.PieceStart(i) + meta.PieceSize(i) ==>
         Cell(meta.OutputLengths(), b, g) == Cell(meta.OutputLengths(), a, g)
  }

  /** From a to b the piece table stays the same one, and every finished piece stays
      finished and keeps its bytes. */
  ghost predicate Advances(a: Managed, b: Managed) {
    && b.meta == a.meta
    && (a.table.Some? ==>
          && b.table.Some? && b.tableId == a.tableId && |b.table.value.states| == |a.table.value.states|
          && TailsKept(a, b)
          && forall i :: 0 <= i < |a.table.value.states| && a.table.value.states[i] == COMPLETE ==>
               b.table.value.states[i] == COMPLETE && SameBytes(a.meta, a.files, b.files, i))
  }

  /** What older, longer files hold beyond their nominal length is still there. */
  ghost predicate TailsKept(a: Managed, b: Managed) {
    && |a.files| == |b.files| == |a.meta.OutputLengths()|
    && forall f :: 0 <= f < |a.files| ==> TailKept(a.meta.OutputLengths()[f], a.files[f], b.files[f])
  }

  lemma AdvancesTrans(a: Managed, b: Managed, c: Managed)
    requires Advances(a, b) && Advances(b, c)
    ensures Advances(a, c)
  {
    hide Cell;
  }

  ghost predicate FilesShaped(mt: Managed) {
    |mt.files| == |mt.meta.OutputLengths()|
  }

  /** The files are the same and no finished piece is touched. */
  lemma AdvancesQuietly(a: Managed, b: Managed)
    requires FilesShaped(a) && b.meta == a.meta && b.files == a.files
    requires a.table.Some? ==>
               && b.table.Some? && b.tableId == a.tableId && |b.table.value.states| == |a.table.value.states|
               && forall i :: 0 <= i < |a.table.value.states| && a.table.value.states[i] == COMPLETE ==>
                    b.table.value.states[i] == COMPLETE
    ensures Advances(a, b)
  {
    hide Cell;
  }

  /** A write of one unfinished piece leaves the bytes of all finished ones. */
  lemma WriteAdvances(a: Managed, b: Managed, i: nat, data: seq<byte>, ok: bool)
    requires TorrentOk(a) && a.table.Some? && i < |a.table.value.states| && a.table.value.states[i] != COMPLETE
    requires |data| == a.meta.PieceSize(i) && b.meta == a.meta && b.tableId == a.tableId
    requires WriteEffect(a.meta.OutputLengths(), a.files, a.meta.PieceStart(i), data, b.files, ok)
    requires b.table.Some? && |b.table.value.states| == |a.table.value.states|
    requires forall k :: 0 <= k < |a.table.value.states| && k != i ==>
               b.table.value.states[k] == a.table.value.states[k]
    ensures Advances(a, b)
  {
    hide Cell, PeersOk, Verified, WriteEffect, SameBytes, TailsKept;
    EffectKeepsTails(a, b, i, data, ok);
    forall k | 0 <= k < |a.table.value.states| && a.table.value.states[k] == COMPLETE
      ensures SameBytes(a.meta, a.files, b.files, k)
    {
      assert Verified(a.meta, a.files, k);
      EffectKeepsPiece(a.meta, a.files, i, data, b.files, ok, k);
    }
  }

  lemma EffectKeepsTails(a: Managed, b: Managed, i: nat, data: seq<byte>, ok: bool)
    requires WriteEffect(a.meta.OutputLengths(), a.files, a.meta.PieceStart(i), data, b.files, ok)
    ensures TailsKept(a, b)
  {
    hide Cell;
  }

  lemma EffectKeepsPiece(meta: Metainfo, files: Files, i: nat, data: seq<byte>, files': Files, ok: bool, k: nat)
    requires meta.Accepted() && i < meta.NumPieces() && k != i && Verified(meta, files, k)
    requires |data| == meta.PieceSize(i)
    requires WriteEffect(meta.OutputLengths(), files, meta.PieceStart(i), data, files', ok)
    ensures SameBytes(meta, files, files', k)
  {
    hide Cell, Sum, NonNegative, TailKept;
    if i < k {
      PiecesDisjoint(meta, i, k);
    } else {
      PiecesDisjoint(meta, k, i);
    }
    VerifiedCells(meta, files, k);
  }

  lemma VerifiedCells(meta: Metainfo, files: Files, k: nat)
    requires Verified(meta, files, k)
    ensures forall g :: meta.PieceStart(k) <= g < meta.PieceStart(k) + meta.PieceSize(k) ==>
              Cell(meta.OutputLengths(), files, g).Some?
  {
  }

  /** The torrent b continues the run of some torrent of w. */
  ghost predicate Continues(w: World, b: Managed) {
    exists t :: 0 <= t < |w.torrents| && w.torrents[t].generation == b.generation && Advances(w.torrents[t], b)
  }

  /** A later world: generations are fresh or carried on, and carried-on runs advance. */
  ghost predicate Later(w: World, w': World) {
    && w.nextGeneration <= w'.nextGeneration && w.nextTable <= w'.nextTable
    && forall u :: 0 <= u < |w'.torrents| ==>
         w'.torrents[u].generation >= w.nextGeneration || Continues(w, w'.torrents[u])
  }

  lemma LaterTrans(a: World, b: World, c: World)
    requires Later(a, b) && Later(b, c)
    ensures Later(a, c)
  {
    hide Advances;
    forall u | 0 <= u < |c.torrents| && c.torrents[u].generation < a.nextGeneration
      ensures Continues(a, c.torrents[u])
    {
      var v :| 0 <= v < |b.torrents| && b.torrents[v].generation == c.torrents[u].generation &&
               Advances(b.torrents[v], c.torrents[u]);
      var t :| 0 <= t < |a.torrents| && a.torrents[t].generation == b.torrents[v].generation &&
               Advances(a.torrents[t], b.torrents[v]);
      AdvancesTrans(a.torrents[t], b.torrents[v], c.torrents[u]);
    }
  }

  /** The shape of most steps: every torrent stays in its place. */
  ghost predicate InPlace(w: World, w': World) {
    && |w'.torrents| == |w.torrents|
    && w.nextGeneration <= w'.nextGeneration && w.nextTable <= w'.nextTable
    && forall u :: 0 <= u < |w.torrents| ==>
         || w'.torrents[u].generation >= w.nextGeneration
         || (w'.torrents[u].generation == w.torrents[u].generation && Advances(w.torrents[u], w'.torrents[u]))
  }

  lemma InPlaceIsLater(w: World, w': World)
    requires InPlace(w, w')
    ensures Later(w, w')
  {
    hide Advances;
  }

  lemma AllFilesShaped(w: World)
    requires Inv(w)
    ensures forall u :: 0 <= u < |w.torrents| ==> FilesShaped(w.torrents[u]) && Advances(w.torrents[u], w.torrents[u])
  {
    forall u | 0 <= u < |w.torrents|
      ensures FilesShaped(w.torrents[u]) && Advances(w.torrents[u], w.torrents[u])
    {
      RunOf(w, u);
      AdvancesQuietly(w.torrents[u], w.torrents[u]);
    }
  }

  /** Only torrent t differs, and it advances. */
  lemma OneAdvances(w: World, w': World, t: nat)
    requires Inv(w) && t < |w.torrents| == |w'.torrents|
    requires w.nextGeneration <= w'.nextGeneration && w.nextTable <= w'.nextTable
    requires forall u :: 0 <= u < |w.torrents| && u != t ==> w'.torrents[u] == w.torrents[u]
    requires w'.torrents[t].generation == w.torrents[t].generation && Advances(w.torrents[t], w'.torrents[t])
    ensures Later(w, w')
  {
    hide Inv, Advances, FilesShaped;
    AllFilesShaped(w);
    InPlaceIsLater(w, w');
  }

  lemma NothingChanges(w: World, w': World)
    requires Inv(w) && w'.torrents == w.torrents
    requires w.nextGeneration <= w'.nextGeneration && w.nextTable <= w'.nextTable
    ensures Later(w, w')
  {
    hide Inv, Advances, FilesShaped;
    AllFilesShaped(w);
    InPlaceIsLater(w, w');
  }

  lemma DropsAdvance(w: World, w': World, t: nat)
    requires Inv(w) && OnlyPeersDropped(w, w', t)
    ensures Later(w, w')
  {
    RunOf(w, t);
    AdvancesQuietly(w.torrents[t], w'.torrents[t]);
    OneAdvances(w, w', t);
  }

  lemma DisconnectIsLater(w: World, t: nat, p: nat)
    requires Inv(w) && HasPeer(w, t, p)
    ensures Later(w, Disconnect(w, t, p))
  {
    hide Inv, Disconnect, OnlyPeersDropped, Later;
    DisconnectDropsOnlyPeer(w, t, p);
    DropsAdvance(w, Disconnect(w, t, p), t);
  }

  // ----- the operations -------------------------------------------------------

  lemma AddIsLater(w: World, meta: Metainfo, existing: Files)
    requires Inv(w)
    ensures Later(w, Add(w, meta, existing))
  {
    hide Inv, Advances, FilesShaped;
    AllFilesShaped(w);
  }

  lemma StopIsLater(w: World, t: nat)
    requires Inv(w)
    ensures Later(w, Stop(w, t))
  {
    hide Inv, Advances, FilesShaped, Stop;
    AllFilesShaped(w);
    if t < |w.torrents| {
      StopKeepsInv(w, t);
      InPlaceIsLater(w, Stop(w, t));
    } else {
      StopNothing(w, t);
      NothingChanges(w, Stop(w, t));
    }
  }

  lemma RemoveIsLater(w: World, t: nat)
    requires Inv(w)
    ensures Later(w, Remove(w, t))
  {
    hide Inv, Advances, FilesShaped, Stop;
    AllFilesShaped(w);
    if t < |w.torrents| {
      StopKeepsInv(w, t);
      var w' := Remove(w, t);
      forall u | 0 <= u < |w'.torrents|
        ensures Continues(w, w'.torrents[u])
      {
        var v := if u < t then u else u + 1;
        assert w'.torrents[u] == w.torrents[v];
      }
    } else {
      NothingChanges(w, w);
    }
  }

  lemma StartIsLater(w: World, t: nat, outcome: StartOutcome)
    requires Inv(w)
    ensures Later(w, Start(w, t, outcome))
  {
    hide Inv, Later, Stop, Launched, Advances;
    AllFilesShaped(w);
    if t < |w.torrents| && w.torrents[t].state !in {DOWNLOADING, DONE} {
      var w' := Start(w, t, outcome);
      if w.torrents[t].table.Some? || w.torrents[t].hasWriter {
        StopKeepsInv(w, t);
        ResetIsInPlace(w, t, outcome);
        InPlaceIsLater(w, w');
      } else {
        LaunchedAdvances(w.torrents[t], outcome, w.nextTable);
        OneAdvances(w, w', t);
      }
    } else {
      NothingChanges(w, w);
    }
  }

  lemma ResetIsInPlace(w: World, t: nat, outcome: StartOutcome)
    requires Inv(w) && t < |w.torrents| && w.torrents[t].state !in {DOWNLOADING, DONE}
    requires w.torrents[t].table.Some? || w.torrents[t].hasWriter
    ensures InPlace(w, Start(w, t, outcome))
  {
    hide Inv, Stop, Advances, InitialTable, FileIo.InitialFiles;
    AllFilesShaped(w);
    StopKeepsInv(w, t);
  }

  lemma LaunchedAdvances(mt: Managed, outcome: StartOutcome, id: nat)
    requires mt.table.None?
    ensures Launched(mt, outcome, id).generation == mt.generation && Advances(mt, Launched(mt, outcome, id))
  {
    hide InitialTable, FileIo.InitialFiles;
  }

  lemma CheckDoneIsLater(w: World, t: nat)
    requires Inv(w)
    ensures Later(w, CheckDone(w, t))
  {
    hide Inv, DisconnectAll, OnlyPeersDropped;
    NothingChanges(w, w);
    if CheckDone(w, t) != w {
      var d := DisconnectAll(w, t, |w.torrents[t].peers|);
      DisconnectAllKeepsInv(w, t, |w.torrents[t].peers|);
      DropsAdvance(w, d, t);
      var w' := CheckDone(w, t);
      RunOf(d, t);
      AdvancesQuietly(d.torrents[t], w'.torrents[t]);
      OneAdvances(d, w', t);
      LaterTrans(w, d, w');
    }
  }

  lemma RecvIsLater(w: World, t: nat, p: nat, msg: Message, hasMemory: bool, o: WriteOutcome)
    requires Inv(w)
    ensures Later(w, Recv(w, t, p, msg, hasMemory, o))
  {
    hide Inv, Disconnect, Receive, Later, TorrentOk, RunOk;
    NothingChanges(w, w);
    if PeerActive(w, t, p) {
      DisconnectIsLater(w, t, p);
      RunOf(w, t);
      Shaped(w.torrents[t]);
      var w' := Recv(w, t, p, msg, hasMemory, o);
      if msg.Piece? {
        ReceiveIsLater(w, t, p, msg, o);
      } else if w' != Disconnect(w, t, p) && w' != w {
        AdvancesQuietly(w.torrents[t], w'.torrents[t]);
        OneAdvances(w, w', t);
      }
    }
  }

  lemma Shaped(mt: Managed)
    requires TorrentOk(mt)
    ensures FilesShaped(mt)
  {
  }

  lemma ReceiveIsLater(w: World, t: nat, p: nat, msg: Message, o: WriteOutcome)
    requires Inv(w) && PeerActive(w, t, p) && msg.Piece?
    ensures Later(w, Receive(w, t, p, msg, o))
  {
    hide Inv, Disconnect, Later, AssemblyOk, FinishPiece, TorrentOk, RunOk;
    NothingChanges(w, w);
    DisconnectIsLater(w, t, p);
    PeerOf(w, t, p);
    RunOf(w, t);
    Shaped(w.torrents[t]);
    var peer := w.torrents[t].peers[p];
    if Expected(peer, msg) && |msg.block| == peer.pending {
      var a := peer.assembly.value;
      AppendOk(w.torrents[t].meta, a, msg.block);
      var a' := Append(a, msg.block);
      if a'.received < |a'.buffer| {
        var w' := Receive(w, t, p, msg, o);
        AdvancesQuietly(w.torrents[t], w'.torrents[t]);
        OneAdvances(w, w', t);
      } else {
        FinishIsLater(w, t, p, a', o);
      }
    }
  }

  lemma FinishIsLater(w: World, t: nat, p: nat, a: Assembly, o: WriteOutcome)
    requires Inv(w) && PeerActive(w, t, p) && w.torrents[t].peers[p].assembly.Some?
    requires var b := w.torrents[t].peers[p].assembly.value;
             a.index == b.index && |a.buffer| == |b.buffer|
    ensures var peer := w.torrents[t].peers[p].(assembly := Some(a), pending := 0);
            Later(w, FinishPiece(SetTorrent(w, t, SetPeer(w.torrents[t], p, peer)), t, p, o))
  {
    hide Inv, Disconnect, WriteEffect, HashMatches, Outcome, Later, StorePiece, ReleasePiece;
    var mt := w.torrents[t];
    var peer := mt.peers[p].(assembly := Some(a), pending := 0);
    var mt1 := SetPeer(mt, p, peer);
    PeerOf(w, t, p);
    ShapeOf(w, t);
    BufferOf(w, t, p);
    OutcomeIsEffect(mt1, a.index, a.buffer, o);
    if !HashMatches(mt.meta, a.index, a.buffer) {
      DisconnectIsLater(w, t, p);
      DisconnectIgnoresContent(w, t, p, peer);
    } else if !Outcome(mt1, a.index, a.buffer, o).ok {
      FailedWriteIsLater(w, t, p, a, Outcome(mt1, a.index, a.buffer, o).files);
    } else {
      StoredIsLater(w, t, p, a, Outcome(mt1, a.index, a.buffer, o).files);
    }
  }

  /** The piece that peer p completes could not be written. */
  lemma FailedWriteIsLater(w: World, t: nat, p: nat, a: Assembly, files: Files)
    requires Inv(w) && PeerActive(w, t, p) && w.torrents[t].peers[p].assembly.Some?
    requires var b := w.torrents[t].peers[p].assembly.value;
             a.index == b.index && |a.buffer| == |b.buffer|
    requires var mt := w.torrents[t];
             WriteEffect(mt.meta.OutputLengths(), mt.files, mt.meta.PieceStart(a.index), a.buffer, files, false)
    ensures var mt := w.torrents[t];
            var peer := mt.peers[p].(assembly := Some(a), pending := 0);
            Later(w, Disconnect(SetTorrent(SetTorrent(w, t, SetPeer(mt, p, peer)), t,
                                           SetPeer(mt, p, peer).(files := files, state := ERROR)), t, p))
  {
    hide Inv, Disconnect, RunOk, WriteEffect, TorrentOk, Later;
    var mt := w.torrents[t];
    var peer := mt.peers[p].(assembly := Some(a), pending := 0);
    var failed := mt.(files := files, state := ERROR);
    var w2 := SetTorrent(w, t, failed);
    PeerOf(w, t, p);
    RunOf(w, t);
    ShapeOf(w, t);
    BufferOf(w, t, p);
    WriteAdvances(mt, failed, a.index, a.buffer, false);
    OneAdvances(w, w2, t);
    FailedWriteOk(mt, a.index, a.buffer, files, w.web, w.conn);
    UpdateQuietly(w, t, failed);
    DisconnectIsLater(w2, t, p);
    DisconnectIgnoresContent(w2, t, p, peer);
    assert SetTorrent(SetTorrent(w, t, SetPeer(mt, p, peer)), t, SetPeer(mt, p, peer).(files := files, state := ERROR)) ==
           SetTorrent(w2, t, SetPeer(w2.torrents[t], p, peer));
    LaterTrans(w, w2, Disconnect(w2, t, p));
  }

  /** The piece that peer p completes has been written. */
  lemma StoredIsLater(w: World, t: nat, p: nat, a: Assembly, files: Files)
    requires Inv(w) && PeerActive(w, t, p) && w.torrents[t].peers[p].assembly.Some?
    requires var b := w.torrents[t].peers[p].assembly.value;
             a.index == b.index && |a.buffer| == |b.buffer|
    requires w.torrents[t].table.Some? && TableShape(w.torrents[t])
    requires a.index < |w.torrents[t].table.value.states|
    requires var mt := w.torrents[t];
             WriteEffect(mt.meta.OutputLengths(), mt.files, mt.meta.PieceStart(a.index), a.buffer, files, true)
    ensures var mt1 := SetPeer(w.torrents[t], p, w.torrents[t].peers[p].(assembly := Some(a), pending := 0));
            var m := StorePiece(mt1, a.index, |a.buffer|, files);
            Later(w, ReleasePiece(SetTorrent(SetTorrent(w, t, mt1), t,
                                             m.(candidates := ClearFailures(m.candidates, mt1.peers[p].addr))), t, p))
  {
    hide Inv, RunOk, WriteEffect, TorrentOk, Later, StorePiece, ReleasePiece, ClearFailures, Finished;
    var mt := w.torrents[t];
    PeerOf(w, t, p);
    RunOf(w, t);
    BufferOf(w, t, p);
    FinishForm(w, t, p, a, files);
    var done := Finished(mt, p, a.index, |a.buffer|, files);
    FinishedKeeps(mt, p, a.index, |a.buffer|, files);
    WriteAdvances(mt, done, a.index, a.buffer, true);
    OneAdvances(w, SetTorrent(w, t, done).(assemblyBytes := w.assemblyBytes - |a.buffer|), t);
  }

  lemma FinishedKeeps(mt: Managed, p: nat, i: nat, size: int, files: Files)
    requires TableShape(mt) && p < |mt.peers| && i < |mt.table.value.states|
    ensures var done := Finished(mt, p, i, size, files);
            && done.meta == mt.meta && done.tableId == mt.tableId && done.generation == mt.generation
            && done.files == files && done.table.Some? && |done.table.value.states| == |mt.table.value.states|
            && forall k :: 0 <= k < |mt.table.value.states| && k != i ==>
                 done.table.value.states[k] == mt.table.value.states[k]
  {
    hide ClearFailures;
  }

  lemma RequestIsLater(w: World, t: nat, p: nat, memory: Option<seq<byte>>, sent: bool)
    requires Inv(w)
    ensures Later(w, Request(w, t, p, memory, sent))
  {
    hide Inv, Disconnect, Later, TorrentOk, RunOk, SendRequest;
    NothingChanges(w, w);
    if PeerActive(w, t, p) && w.torrents[t].table.Some? {
      RunOf(w, t);
      Shaped(w.torrents[t]);
      DisconnectIsLater(w, t, p);
      var mt := w.torrents[t];
      var peer := mt.peers[p];
      if !peer.choked && peer.pending == 0 && peer.have.Some? {
        if peer.assembly.Some? {
          SendIsLater(w, t, p, sent);
        } else {
          NewRequestIsLater(w, t, p, memory, sent);
        }
      }
    }
  }

  lemma SendIsLater(w: World, t: nat, p: nat, sent: bool)
    requires Inv(w) && PeerActive(w, t, p) && w.torrents[t].peers[p].assembly.Some?
    ensures Later(w, SendRequest(w, t, p, sent))
  {
    hide Inv, Disconnect, Later, TorrentOk, RunOk;
    DisconnectIsLater(w, t, p);
    RunOf(w, t);
    Shaped(w.torrents[t]);
    if sent {
      var w' := SendRequest(w, t, p, sent);
      AdvancesQuietly(w.torrents[t], w'.torrents[t]);
      OneAdvances(w, w', t);
    }
  }

  lemma ReserveIsLater(w: World, t: nat, p: nat, i: nat, buffer: seq<byte>, sent: bool)
    requires Inv(w) && PeerActive(w, t, p) && w.torrents[t].table.Some? && i < |w.torrents[t].table.value.states|
    requires w.torrents[t].table.value.states[i] == FREE
    requires var r := Reserve(w, t, p, i, buffer);
             Inv(r) && PeerActive(r, t, p) && r.torrents[t].peers[p].assembly.Some?
    ensures Later(w, SendRequest(Reserve(w, t, p, i, buffer), t, p, sent))
  {
    hide Inv, Later, Advances, SendRequest;
    var r := Reserve(w, t, p, i, buffer);
    RunOf(w, t);
    Shaped(w.torrents[t]);
    AdvancesQuietly(w.torrents[t], r.torrents[t]);
    OneAdvances(w, r, t);
    SendIsLater(r, t, p, sent);
    LaterTrans(w, r, SendRequest(r, t, p, sent));
  }

  lemma NewRequestIsLater(w: World, t: nat, p: nat, memory: Option<seq<byte>>, sent: bool)
    requires Inv(w) && PeerActive(w, t, p) && w.torrents[t].table.Some?
    requires var peer := w.torrents[t].peers[p];
             !peer.choked && peer.pending == 0 && peer.have.Some? && peer.assembly.None?
    ensures Later(w, Request(w, t, p, memory, sent))
  {
    hide Inv, Disconnect, Later, TorrentOk, RunOk, SendRequest, Advances;
    var mt := w.torrents[t];
    NothingChanges(w, w);
    DisconnectIsLater(w, t, p);
    RunOf(w, t);
    Shaped(mt);
    ShapeOf(w, t);
    ConsistentOf(w, t);
    PeerOf(w, t, p);
    GetNextFinds(mt.table.value, mt.peers[p].have);
    var next := mt.table.value.GetNext(mt.peers[p].have);
    if next >= 0 {
      SizesCoincide(mt.meta, next);
      PieceGeometry(mt.meta, next);
      var size := mt.meta.PieceSize(next);
      if size > ASSEMBLY_LIMIT {
        var w' := SetTorrent(w, t, mt.(state := ERROR));
        AdvancesQuietly(mt, w'.torrents[t]);
        OneAdvances(w, w', t);
      } else if size <= ASSEMBLY_LIMIT - w.assemblyBytes && memory.Some? && |memory.value| == size {
        ReserveKeepsInv(w, t, p, next, memory.value);
        ReserveIsLater(w, t, p, next, memory.value, sent);
      }
    }
  }

  lemma ScheduleWebIsLater(w: World, t: nat, resources: bool, buffer: seq<byte>)
    requires Inv(w)
    ensures Later(w, ScheduleWeb(w, t, resources, buffer))
  {
    hide Inv, Later, TorrentOk, RunOk, BatchCount, WebActive;
    NothingChanges(w, w);
    var w' := ScheduleWeb(w, t, resources, buffer);
    if w' != w {
      var mt := w.torrents[t];
      RunOf(w, t);
      Shaped(mt);
      ShapeOf(w, t);
      ConsistentOf(w, t);
      GetNextFinds(mt.table.value, None);
      BatchIsFree(mt, mt.table.value, mt.table.value.GetNext(None));
      AdvancesQuietly(mt, w'.torrents[t]);
      OneAdvances(w, w', t);
    }
  }

  lemma ScheduleConnIsLater(w: World, t: nat, ready: bool, resources: bool)
    requires Inv(w)
    ensures Later(w, ScheduleConn(w, t, ready, resources))
  {
    hide Inv, Later, TorrentOk, RunOk, ConnPending;
    NothingChanges(w, w);
    var w' := ScheduleConn(w, t, ready, resources);
    if w' != w {
      RunOf(w, t);
      Shaped(w.torrents[t]);
      AdvancesQuietly(w.torrents[t], w'.torrents[t]);
      OneAdvances(w, w', t);
    }
  }

  lemma CollectConnIsLater(w: World, j: nat)
    requires Inv(w)
    ensures Later(w, CollectConn(w, j))
  {
    hide Inv, Later, TorrentOk, RunOk, Advances, ClearConnecting, RecordFailure, ClosedSlot;
    NothingChanges(w, CollectConn(w, j).(torrents := w.torrents));
    if HasJob(w.conn, j) && w.conn[j].value.done {
      var live := FindLive(w, w.conn[j].value.generation, |w.torrents|);
      if live.Some? {
        RunOf(w, live.value);
        Shaped(w.torrents[live.value]);
        var w' := CollectConn(w, j);
        AdvancesQuietly(w.torrents[live.value], w'.torrents[live.value]);
        OneAdvances(w, w', live.value);
      }
    }
  }

  lemma DrainIsLater(w: World, j: nat)
    requires Inv(w)
    ensures Later(w, Drain(w, j))
  {
    hide Inv, Later, TorrentOk, RunOk;
    NothingChanges(w, Drain(w, j).(torrents := w.torrents));
    if HasJob(w.disc, j) && w.disc[j].value.phase.DoneRead? {
      var job := w.disc[j].value;
      var live := FindLive(w, job.generation, |w.torrents|);
      if live.Some? {
        var mt := w.torrents[live.value];
        RunOf(w, live.value);
        Shaped(mt);
        LiveTable(mt);
        AddCandidatesOk(mt, job.queue, w.web, w.conn);
        var w' := Drain(w, j);
        AdvancesQuietly(mt, w'.torrents[live.value]);
        OneAdvances(w, w', live.value);
      }
    }
  }

  // ----- collecting a batch ---------------------------------------------------

  lemma SaveOneAdvances(mt: Managed, web: seq<Option<WebJob>>, conn: seq<Option<ConnJob>>, lo: nat, hi: nat,
                        i: nat, data: seq<byte>, o: WriteOutcome)
    requires RunOkExcept(mt, web, conn, lo, hi) && lo <= i < hi && TableShape(mt)
    requires i < |mt.table.value.states| && |data| == mt.meta.PieceSize(i)
    ensures Advances(mt, SaveOne(mt, i, data, o).0)
  {
    hide HashMatches, WriteEffect, StateOk, TableOk, PeersOk, DiskOk, CandidatesOk, WebOkExcept, ConnOk, Advances;
    AdmissibleOf(mt);
    Shaped(mt);
    AdvancesQuietly(mt, mt);
    if mt.table.value.states[i] != COMPLETE {
      var r := SaveOne(mt, i, data, o).0;
      OutcomeIsEffect(mt, i, data, o);
      NoWriteEffect(mt, i, data);
      if HashMatches(mt.meta, i, data) && Outcome(mt, i, data, o).ok {
        WriteAdvances(mt, r, i, data, true);
      } else {
        WriteAdvances(mt, r, i, data, false);
      }
    }
  }

  lemma SaveTurnAdvances(mt: Managed, m: Managed, web: seq<Option<WebJob>>, conn: seq<Option<ConnJob>>, job: WebJob,
                         k: nat, o: WriteOutcome)
    requires RunOkExcept(m, web, conn, job.first, job.first + |job.sizes|) && TableShape(m)
    requires WebJobOk(mt, job) && k < |job.sizes| && m.meta == mt.meta && m.table.Some?
    requires mt.table.Some? && |m.table.value.states| == |mt.table.value.states|
    ensures Advances(m, SaveOne(m, job.first + k, BatchPiece(job, k), o).0)
  {
    hide RunOkExcept, SaveOne, Advances;
    PrefixSum(job.sizes, k);
    SaveOneAdvances(m, web, conn, job.first, job.first + |job.sizes|, job.first + k, BatchPiece(job, k), o);
  }

  lemma {:induction false} SaveBatchAdvances(mt: Managed, web: seq<Option<WebJob>>, conn: seq<Option<ConnJob>>,
                                             job: WebJob, writes: seq<WriteOutcome>, k: nat)
    requires RunOkExcept(mt, web, conn, job.first, job.first + |job.sizes|)
    requires TableShape(mt) && WebJobOk(mt, job) && k <= |job.sizes|
    ensures Advances(mt, SaveBatch(mt, job, writes, k).0)
  {
    hide RunOkExcept, SaveOne, Advances, BatchPiece;
    if k > 0 {
      SaveBatchAdvances(mt, web, conn, job, writes, k - 1);
      SaveBatchOk(mt, web, conn, job, writes, k - 1);
      var (m, ok) := SaveBatch(mt, job, writes, k - 1);
      if ok {
        var o := if k - 1 < |writes| then writes[k - 1] else WriteOutcome(m.files, false);
        SaveTurnAdvances(mt, m, web, conn, job, k - 1, o);
        AdvancesTrans(mt, m, SaveOne(m, job.first + k - 1, BatchPiece(job, k - 1), o).0);
      }
    } else {
      ExceptShaped(mt, web, conn, job);
      AdvancesQuietly(mt, mt);
    }
  }

  lemma ExceptShaped(mt: Managed, web: seq<Option<WebJob>>, conn: seq<Option<ConnJob>>, job: WebJob)
    requires RunOkExcept(mt, web, conn, job.first, job.first + |job.sizes|)
    ensures FilesShaped(mt)
  {
  }

  lemma CollectIntoAdvances(mt: Managed, web: seq<Option<WebJob>>, conn: seq<Option<ConnJob>>, j: nat,
                            writes: seq<WriteOutcome>)
    requires RunOk(mt, web, conn) && MyWeb(web, j, mt.generation) && TableShape(mt)
    requires WebJobShape(web[j].value) && |web[j].value.sizes| > 0
    ensures Advances(mt, CollectInto(mt, web[j].value, writes))
  {
    hide RunOk, RunOkExcept, SaveBatch, Advances;
    var job, web' := web[j].value, web[j := None];
    DroppedJob(mt, web, conn, j);
    ExceptShaped(mt, web', conn, job);
    AdvancesQuietly(mt, mt);
    var m := mt;
    if job.ok {
      SaveBatchOk(mt, web', conn, job, writes, |job.sizes|);
      SaveBatchAdvances(mt, web', conn, job, writes, |job.sizes|);
      m := SaveBatch(mt, job, writes, |job.sizes|).0;
      ExceptShaped(m, web', conn, job);
    }
    AdvancesQuietly(m, m.(table := Some(ReleaseRange(m.table.value, job.first, |job.sizes|))));
    AdvancesTrans(mt, m, m.(table := Some(ReleaseRange(m.table.value, job.first, |job.sizes|))));
  }

  lemma CollectWebIsLater(w: World, j: nat, writes: seq<WriteOutcome>)
    requires Inv(w)
    ensures Later(w, CollectWeb(w, j, writes))
  {
    hide Inv, RunOk, TorrentOk, CollectInto, WebJobShape, Later, Advances;
    NothingChanges(w, CollectWeb(w, j, writes).(torrents := w.torrents));
    if HasJob(w.web, j) && w.web[j].value.done {
      var live := FindLive(w, w.web[j].value.generation, |w.torrents|);
      if live.Some? {
        var t := live.value;
        RunOf(w, t);
        LiveShape(w, t);
        JobOf(w, t, j);
        CollectIntoAdvances(w.torrents[t], w.web, w.conn, j, writes);
        CollectIntoOk(w.torrents[t], w.web, w.conn, j, writes);
        OneAdvances(w, CollectWeb(w, j, writes), t);
      }
    }
  }

  // ----- steps and runs -------------------------------------------------------

  lemma StepIsLater(w: World, e: Event)
    requires Inv(w)
    ensures Later(w, Apply(w, e))
  {
    hide Inv, Later, Add, Start, Stop, Remove, CollectWeb, Drain, CollectConn, CheckDone, TimeOut, Recv, Request,
         ScheduleConn, ScheduleWeb, Disconnect;
    match e
    case EvAdd(meta, existing) => AddIsLater(w, meta, existing); NothingChanges(w, w);
    case EvStart(t, outcome) => StartIsLater(w, t, outcome);
    case EvStop(t) => StopIsLater(w, t);
    case EvRemove(t) => RemoveIsLater(w, t);
    case EvCollectWeb(j, writes) => CollectWebIsLater(w, j, writes);
    case EvDrain(j) => DrainIsLater(w, j);
    case EvCollectConn(j) => CollectConnIsLater(w, j);
    case EvCheckDone(t) => CheckDoneIsLater(w, t);
    case EvTimeOut(t, p) => TimeOutIsLater(w, t, p);
    case EvRecv(t, p, msg, hasMemory, write) => RecvIsLater(w, t, p, msg, hasMemory, write);
    case EvRequest(t, p, memory, sent) => RequestIsLater(w, t, p, memory, sent);
    case EvScheduleConn(t, ready, resources) => ScheduleConnIsLater(w, t, ready, resources);
    case EvScheduleWeb(t, resources, buffer) => ScheduleWebIsLater(w, t, resources, buffer);
    case EvScheduleDiscovery(t, slot, resources) => NothingChanges(w, Apply(w, e));
    case EvReadDone(j) => NothingChanges(w, Apply(w, e));
    case EvFreeIfDone(j) => NothingChanges(w, Apply(w, e));
    case EvWebWorker(j, ok, data) => NothingChanges(w, Apply(w, e));
    case EvConnOpens(j, sock) => NothingChanges(w, Apply(w, e));
    case EvConnSucceeds(j) => NothingChanges(w, Apply(w, e));
    case EvConnFails(j) => NothingChanges(w, Apply(w, e));
    case EvDiscPublishes(j, addrs) => NothingChanges(w, Apply(w, e));
    case EvDiscFinishes(j) => NothingChanges(w, Apply(w, e));
  }

  lemma TimeOutIsLater(w: World, t: nat, p: nat)
    requires Inv(w)
    ensures Later(w, TimeOut(w, t, p))
  {
    hide Inv, Later, Disconnect;
    NothingChanges(w, w);
    if PeerActive(w, t, p) {
      DisconnectIsLater(w, t, p);
    }
  }

  lemma {:induction false} RunIsLater(w: World, events: seq<Event>)
    requires Inv(w)
    ensures Later(w, Run(w, events))
  {
    hide Inv, Later, Apply;
    if events == [] {
      NothingChanges(w, w);
    } else {
      var init := events[..|events| - 1];
      RunIsLater(w, init);
      RunKeepsInv(w, init);
      StepIsLater(Run(w, init), events[|events| - 1]);
      LaterTrans(w, Run(w, init), Run(w, events));
    }
  }

  /** Whatever happens afterwards, a piece that is COMPLETE stays COMPLETE with exactly
      the bytes it has on disk for as long as its run lives. */
  lemma CompleteIsForever(w: World, events: seq<Event>, t: nat, u: nat, i: nat)
    requires Inv(w) && t < |w.torrents| && u < |Run(w, events).torrents|
    requires w.torrents[t].generation == Run(w, events).torrents[u].generation
    requires w.torrents[t].table.Some? && i < |w.torrents[t].table.value.states|
    requires w.torrents[t].table.value.states[i] == COMPLETE
    ensures var a, b := w.torrents[t], Run(w, events).torrents[u];
            && b.table.Some? && i < |b.table.value.states| && b.table.value.states[i] == COMPLETE
            && SameBytes(a.meta, a.files, b.files, i)
  {
    hide AllTorrents, SocketsOk, BudgetOk, DiscOk, Apply;
    RunIsLater(w, events);
    assert Continues(w, Run(w, events).torrents[u]);
  }

  /** No torrent carries generation g. */
  ghost predicate Retired(w: World, g: nat) {
    g < w.nextGeneration && forall t :: 0 <= t < |w.torrents| ==> w.torrents[t].generation != g
  }

  /** A retired generation never becomes live again. */
  lemma RetiredForever(w: World, events: seq<Event>, g: nat)
    requires Inv(w) && Retired(w, g)
    ensures Retired(Run(w, events), g)
  {
    hide Inv, Apply, Advances;
    RunIsLater(w, events);
  }

  /** torrent_mgr_stop retires the generation it finds. */
  lemma StopRetires(w: World, t: nat)
    requires Inv(w) && t < |w.torrents|
    ensures Retired(Stop(w, t), w.torrents[t].generation)
  {
    hide AllTorrents, SocketsOk, BudgetOk, DiscOk, Stop;
    StopKeepsInv(w, t);
  }

  /** Run isolation: collecting a worker's result changes at most the downloading run
      that carries the job's generation; a stale result changes no run. */
  lemma ResultsStayInTheirRun(w: World, e: Event, j: nat, g: nat, t: nat)
    requires || (e.EvCollectWeb? && e.j == j && HasJob(w.web, j) && w.web[j].value.generation == g)
             || (e.EvCollectConn? && e.j == j && HasJob(w.conn, j) && w.conn[j].value.generation == g)
             || (e.EvDrain? && e.j == j && HasJob(w.disc, j) && w.disc[j].value.generation == g)
    requires t < |w.torrents| && !IsLive(w, t, g)
    ensures |Apply(w, e).torrents| == |w.torrents| && Apply(w, e).torrents[t] == w.torrents[t]
  {
    hide CollectInto, CollectConnInto, AddCandidates;
  }

  /** A job in flight for a generation that some torrent still carries was made from that
      torrent's present piece table: same table, metainfo, reserved pieces, sizes. */
  lemma JobsBelongToOneTable(w: World, t: nat, j: nat)
    requires Inv(w) && t < |w.torrents| && MyWeb(w.web, j, w.torrents[t].generation)
    ensures w.torrents[t].table.Some? && w.web[j].value.tableId == w.torrents[t].tableId
    ensures WebJobOk(w.torrents[t], w.web[j].value)
  {
    RunOf(w, t);
  }

  /** A job is stamped with the table it is scheduled from, and keeps the stamp. */
  lemma JobComesFromItsTable(w: World, e: Event, j: nat)
    requires HasJob(Apply(w, e).web, j)
    ensures var job := Apply(w, e).web[j].value;
            if HasJob(w.web, j) then
              var was := w.web[j].value;
              && job.generation == was.generation && job.tableId == was.tableId && job.meta == was.meta
              && job.first == was.first && job.sizes == was.sizes
            else
              && e.EvScheduleWeb? && e.t < |w.torrents| && w.torrents[e.t].table.Some?
              && job.generation == w.torrents[e.t].generation && job.tableId == w.torrents[e.t].tableId
  {
    hide CollectInto, BatchCount, Add, Start, Stop, Remove, ReadDone, Drain, FreeIfDone, CollectConn, CheckDone,
         ScheduleDiscovery, TimeOut, Recv, Request, ScheduleConn, ConnOpens, ConnSucceeds, ConnFails, DiscPublishes,
         DiscFinishes;
    if !e.EvScheduleWeb? && !e.EvCollectWeb? && !e.EvWebWorker? {
      OthersKeepWeb(w, e);
    }
  }

  /** A connection job is started for a torrent and one of its candidates, and keeps
      generation and address until it leaves the table. */
  lemma ConnectionComesFromItsRun(w: World, e: Event, j: nat)
    requires HasJob(Apply(w, e).conn, j)
    ensures var job := Apply(w, e).conn[j].value;
            if HasJob(w.conn, j) then
              job.generation == w.conn[j].value.generation && job.addr == w.conn[j].value.addr
            else
              && e.EvScheduleConn? && e.t < |w.torrents| && job.generation == w.torrents[e.t].generation
              && exists c :: 0 <= c < |w.torrents[e.t].candidates| && job.addr == w.torrents[e.t].candidates[c].addr
  {
    hide CollectConnInto, Add, Start, Stop, Remove, CollectWeb, ReadDone, Drain, FreeIfDone, CheckDone,
         ScheduleDiscovery, TimeOut, Recv, Request, ScheduleWeb, WebWorker, DiscPublishes, DiscFinishes;
    if !e.EvScheduleConn? && !e.EvCollectConn? && !e.EvConnOpens? && !e.EvConnSucceeds? && !e.EvConnFails? {
      OthersKeepConn(w, e);
    }
  }

  /** A discovery job is started for a torrent that is downloading, and keeps its generation. */
  lemma DiscoveryComesFromItsRun(w: World, e: Event, j: nat)
    requires HasJob(Apply(w, e).disc, j)
    ensures var job := Apply(w, e).disc[j].value;
            if HasJob(w.disc, j) then job.generation == w.disc[j].value.generation
            else
              && e.EvScheduleDiscovery? && e.t < |w.torrents| && w.torrents[e.t].state == DOWNLOADING
              && job.generation == w.torrents[e.t].generation
  {
    hide AddCandidates, Publish, Add, Start, Stop, Remove, CollectWeb, CollectConn, CheckDone, TimeOut, Recv, Request,
         ScheduleConn, ScheduleWeb, WebWorker, ConnOpens, ConnSucceeds, ConnFails;
    if !IsDiscovery(e) {
      OthersKeepDisc(w, e);
    }
  }

  /** A start that makes a piece table gives it a number that no table had before. */
  lemma StartMakesNewTable(w: World, t: nat, outcome: StartOutcome)
    requires Inv(w) && t < |w.torrents| && w.torrents[t].state !in {DOWNLOADING, DONE}
    ensures var w' := Start(w, t, outcome);
            && (w'.torrents[t].table.Some? <==> MakesTable(w.torrents[t].meta, outcome))
            && (MakesTable(w.torrents[t].meta, outcome) ==>
                  && w'.torrents[t].tableId == w.nextTable < w'.nextTable
                  && w'.torrents[t].table == Some(InitialTable(w.torrents[t].meta)))
    ensures forall u :: 0 <= u < |w.torrents| && w.torrents[u].table.Some? ==> w.torrents[u].tableId < w.nextTable
  {
    hide AllTorrents, SocketsOk, BudgetOk, DiscOk, Stop, InitialTable;
    assert w.torrents[t].state == STOPPED || w.torrents[t].state == ERROR;
    ResetKeepsInv(w, t);
    StopKeepsInv(w, t);
  }

  /** Generation g belongs to the piece table number id: every job in flight for g was made
      from it, and a torrent that carries g has it. */
  ghost predicate GenerationHasTable(w: World, g: nat, id: nat) {
    && g < w.nextGeneration
    && (forall j: nat :: MyWeb(w.web, j, g) ==> w.web[j].value.tableId == id)
    && forall t :: 0 <= t < |w.torrents| && w.torrents[t].generation == g ==>
         w.torrents[t].table.Some? && w.torrents[t].tableId == id
  }

  lemma StepKeepsTable(w: World, e: Event, g: nat, id: nat)
    requires Inv(w) && GenerationHasTable(w, g, id)
    ensures GenerationHasTable(Apply(w, e), g, id)
  {
    hide Inv, Apply, TailsKept, SameBytes;
    StepIsLater(w, e);
    forall j: nat | MyWeb(Apply(w, e).web, j, g)
      ensures Apply(w, e).web[j].value.tableId == id
    {
      JobComesFromItsTable(w, e, j);
      if HasJob(w.web, j) {
        assert MyWeb(w.web, j, g);
      }
    }
  }

  /** One piece table per generation: while a torrent has none, no job carries its
      generation; and once it has one, then after any further run every job in flight for
      the generation was made from that very table, and a torrent that still carries the
      generation still has it. */
  lemma {:induction false} OneTablePerGeneration(w: World, events: seq<Event>, t: nat)
    requires Inv(w) && t < |w.torrents|
    ensures w.torrents[t].table.None? ==> NoJobs(w, w.torrents[t].generation)
    ensures w.torrents[t].table.Some? ==>
              GenerationHasTable(Run(w, events), w.torrents[t].generation, w.torrents[t].tableId)
  {
    hide Inv, Apply, GenerationHasTable, WebJobOk;
    var g, id := w.torrents[t].generation, w.torrents[t].tableId;
    if w.torrents[t].table.None? {
      TablessRunHasNoJobs(w, t);
    } else if events == [] {
      TableNow(w, t);
    } else {
      var init := events[..|events| - 1];
      OneTablePerGeneration(w, init, t);
      RunKeepsInv(w, init);
      StepKeepsTable(Run(w, init), events[|events| - 1], g, id);
    }
  }

  lemma TableNow(w: World, t: nat)
    requires Inv(w) && t < |w.torrents| && w.torrents[t].table.Some?
    ensures GenerationHasTable(w, w.torrents[t].generation, w.torrents[t].tableId)
  {
    hide AllTorrents, SocketsOk, BudgetOk, DiscOk, WebJobOk;
    forall j: nat | MyWeb(w.web, j, w.torrents[t].generation)
      ensures w.web[j].value.tableId == w.torrents[t].tableId
    {
      JobsBelongToOneTable(w, t, j);
    }
  }
}
