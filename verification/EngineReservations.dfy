/** Exactly when a reserved piece loses its owner without becoming free again, and which
    states can hold such a piece. */
module EngineReservations {
  import opened Bytes
  import opened Torrent
  import opened PieceMgr
  import opened EngineTypes
  import opened EngineSteps
  import opened EngineInvariants
  import opened EnginePeers
  import opened EngineLifecycle
  import opened EngineTransfer
  import opened EngineWeb
  import opened EngineTheorems
  import FileIo

  ghost predicate Reserved(mt: Managed, i: nat) {
    mt.table.Some? && i < |mt.table.value.states| && mt.table.value.states[i] == REQUESTED
  }

  /** Piece i is reserved and nobody fetches it: the scan will not offer it again. */
  ghost predicate Orphaned(mt: Managed, web: seq<Option<WebJob>>, i: nat) {
    Reserved(mt, i) && !Owned(mt, web, i)
  }

  /** Only a torrent that is STOPPED or in ERROR can hold an orphaned piece. */
  lemma OrphansOnlyWhenIdle(events: seq<Event>, t: nat, i: nat)
    requires t < |Run(INITIAL_WORLD, events).torrents|
    requires Orphaned(Run(INITIAL_WORLD, events).torrents[t], Run(INITIAL_WORLD, events).web, i)
    ensures Run(INITIAL_WORLD, events).torrents[t].state in {STOPPED, ERROR}
  {
    hide Run, Inv;
    ReachableInv(events);
    var mt := Run(INITIAL_WORLD, events).torrents[t];
    if mt.state == DOWNLOADING || mt.state == DONE {
      NoOrphans(Run(INITIAL_WORLD, events), t, i);
    }
  }

  lemma NoOrphans(w: World, t: nat, i: nat)
    requires Inv(w) && t < |w.torrents| && w.torrents[t].state in {DOWNLOADING, DONE}
    ensures !Orphaned(w.torrents[t], w.web, i)
  {
    hide Inv, ConnOk, PeersOk, DiskOk, CandidatesOk;
    var mt := w.torrents[t];
    RunOf(w, t);
    if mt.state == DONE {
      CountersAgree(mt.table.value);
    }
  }

  // ----- owners that stay -------------------------------------------------------

  /** From w to w' every owner of a piece of torrent t stays one, and what is newly
      reserved has an owner. */
  ghost predicate OwnersStay(w: World, w': World, t: nat)
    requires t < |w.torrents| && t < |w'.torrents|
  {
    && w'.torrents[t].generation == w.torrents[t].generation
    && w'.torrents[t].peers == w.torrents[t].peers
    && (forall i: nat :: Reserved(w'.torrents[t], i) && !Reserved(w.torrents[t], i) ==>
          Owned(w'.torrents[t], w'.web, i))
    && forall j: nat, i: nat :: JobOwns(w.web, j, w.torrents[t].generation, i) ==>
         JobOwns(w'.web, j, w.torrents[t].generation, i)
  }

  lemma NothingLost(w: World, w': World, t: nat, i: nat)
    requires t < |w.torrents| && t < |w'.torrents| && OwnersStay(w, w', t) && !Orphaned(w.torrents[t], w.web, i)
    ensures !Orphaned(w'.torrents[t], w'.web, i)
  {
  }

  /** Where torrent t is after the step: a removal closes the gap it leaves. */
  function NewIndex(w: World, e: Event, t: nat): Option<nat> {
    if !e.EvRemove? || e.t >= |w.torrents| || t < e.t then Some(t)
    else if t == e.t then None
    else Some(t - 1)
  }

  predicate StaysAt(w: World, e: Event, t: nat) {
    NewIndex(w, e, t) == Some(t)
  }

  /** The two ways to lose a reservation: a finished job is collected while its torrent is
      not downloading, or the torrent is stopped while a job is in flight. */
  ghost predicate Loses(w: World, e: Event, t: nat, i: nat)
    requires t < |w.torrents|
  {
    var mt := w.torrents[t];
    || (e.EvCollectWeb? && JobOwns(w.web, e.j, mt.generation, i) && w.web[e.j].value.done && mt.state != DOWNLOADING)
    || (e.EvStop? && e.t == t && exists j: nat :: JobOwns(w.web, j, mt.generation, i))
  }

  /** Exactly when does a step leave a piece reserved without an owner that was not so
      before? Such a piece was owned, as `Loses` says by whom. */
  lemma LosesReservationIff(events: seq<Event>, e: Event, t: nat, i: nat)
    requires t < |Run(INITIAL_WORLD, events).torrents|
    requires NewIndex(Run(INITIAL_WORLD, events), e, t).Some?
    requires !Orphaned(Run(INITIAL_WORLD, events).torrents[t], Run(INITIAL_WORLD, events).web, i)
    ensures var w := Run(INITIAL_WORLD, events);
            var w', u := Apply(w, e), NewIndex(w, e, t).value;
            && u < |w'.torrents|
            && (e.EvRemove? ==> w'.torrents[u].generation == w.torrents[t].generation)
            && (Orphaned(w'.torrents[u], w'.web, i) <==> Loses(w, e, t, i))
            && (Loses(w, e, t, i) ==> Owned(w.torrents[t], w.web, i))
  {
    hide Run, Apply, Inv, Orphaned, OwnersStay;
    var w := Run(INITIAL_WORLD, events);
    ReachableInv(events);
    StepKeepsInv(w, e);
    if e.EvRemove? && e.t < t && e.t < |w.torrents| {
      ShiftedDown(w, e.t, t);
    } else if e.EvStop? && e.t == t {
      StopLoses(w, t, i);
    } else if e.EvCollectWeb? {
      CollectLoses(w, e, t, i);
    } else {
      OtherStepLosesNothing(w, e, t, i);
    }
  }

  // ----- removing another torrent -----------------------------------------------

  lemma ShiftedDown(w: World, r: nat, t: nat)
    requires Inv(w) && r < t < |w.torrents|
    ensures var w' := Apply(w, EvRemove(r));
            && t - 1 < |w'.torrents| && w'.torrents[t - 1] == w.torrents[t] && w'.web == w.web
  {
    hide Inv, Stop;
    LifecycleKeepsJobs(w, EvRemove(r));
    StopTouchesOne(w, r, t);
  }

  // ----- stop -------------------------------------------------------------------

  /** Disconnecting the first n peers frees exactly the pieces they were assembling. */
  lemma {:induction false} DisconnectAllFrees(w: World, t: nat, n: nat, i: nat)
    requires Inv(w) && t < |w.torrents| && n <= |w.torrents[t].peers|
    ensures OnlyPeersDropped(w, DisconnectAll(w, t, n), t)
    ensures var a, b := w.torrents[t], DisconnectAll(w, t, n).torrents[t];
            && (forall p :: n <= p < |a.peers| ==> b.peers[p] == a.peers[p])
            && ((exists p: nat :: p < n && PeerOwns(a.peers, p, i)) ==> !Reserved(b, i))
            && ((forall p: nat :: p < n ==> !PeerOwns(a.peers, p, i)) ==> (Reserved(b, i) <==> Reserved(a, i)))
  {
    hide Inv, Disconnect, OnlyPeersDropped;
    DisconnectAllKeepsInv(w, t, n);
    if n > 0 {
      DisconnectAllKeepsInv(w, t, n - 1);
      DisconnectAllFrees(w, t, n - 1, i);
      var v := DisconnectAll(w, t, n - 1);
      DisconnectFrees(v, t, n - 1, i);
      DroppedShape(w, v, t);
      assert v.torrents[t].peers[n - 1] == w.torrents[t].peers[n - 1];
      assert PeerOwns(v.torrents[t].peers, n - 1, i) <==> PeerOwns(w.torrents[t].peers, n - 1, i);
    }
  }

  lemma DroppedShape(w: World, v: World, t: nat)
    requires OnlyPeersDropped(w, v, t)
    ensures |v.torrents[t].peers| == |w.torrents[t].peers|
  {
  }

  lemma DisconnectFrees(w: World, t: nat, p: nat, i: nat)
    requires Inv(w) && HasPeer(w, t, p)
    ensures var a, b := w.torrents[t], Disconnect(w, t, p).torrents[t];
            && |b.peers| == |a.peers| && (forall q :: 0 <= q < |a.peers| && q != p ==> b.peers[q] == a.peers[q])
            && (PeerOwns(a.peers, p, i) ==> !Reserved(b, i))
            && (!PeerOwns(a.peers, p, i) ==> (Reserved(b, i) <==> Reserved(a, i)))
  {
    hide Inv, Disconnect;
    DisconnectForm(w, t, p);
    RunOf(w, t);
  }

  lemma StopLoses(w: World, t: nat, i: nat)
    requires Inv(w) && t < |w.torrents| && !Orphaned(w.torrents[t], w.web, i)
    ensures var w' := Apply(w, EvStop(t));
            t < |w'.torrents| && (Orphaned(w'.torrents[t], w'.web, i) <==> Loses(w, EvStop(t), t, i))
  {
    hide Inv, DisconnectAll, OnlyPeersDropped, RunOk, TorrentOk;
    var mt := w.torrents[t];
    var r := Retire(w, t);
    RetireKeepsInv(w, t);
    StopKeepsInv(w, t);
    DisconnectAllFrees(r, t, |mt.peers|, i);
    RunOf(w, t);
    if Owned(mt, w.web, i) {
      OwnerKinds(mt, w.web, w.conn, i);
    }
    NobodyAfterStop(w, t, i);
    assert forall p: nat :: PeerOwns(mt.peers, p, i) ==> p < |mt.peers|;
  }

  /** An owned piece is reserved, and its owner is either peers or jobs. */
  lemma OwnerKinds(mt: Managed, web: seq<Option<WebJob>>, conn: seq<Option<ConnJob>>, i: nat)
    requires RunOk(mt, web, conn) && Owned(mt, web, i)
    ensures Reserved(mt, i)
    ensures (exists j: nat :: JobOwns(web, j, mt.generation, i)) <==> (forall p: nat :: !PeerOwns(mt.peers, p, i))
  {
    hide ConnOk, AssemblyOk;
    OwnerIsAlone(mt, web, conn, i);
  }

  lemma NobodyAfterStop(w: World, t: nat, i: nat)
    requires Inv(w) && t < |w.torrents|
    ensures var w' := Stop(w, t);
            !Owned(w'.torrents[t], w'.web, i)
  {
    hide Inv, Stop;
    StopKeepsInv(w, t);
    assert Stopped(w, Stop(w, t), t);
  }

  // ----- collecting a job ---------------------------------------------------------

  lemma CollectLoses(w: World, e: Event, t: nat, i: nat)
    requires Inv(w) && Inv(Apply(w, e)) && e.EvCollectWeb? && t < |w.torrents|
    requires !Orphaned(w.torrents[t], w.web, i)
    ensures var w' := Apply(w, e);
            t < |w'.torrents| && (Orphaned(w'.torrents[t], w'.web, i) <==> Loses(w, e, t, i))
  {
    hide Inv, CollectInto, RunOk, TorrentOk;
    var mt, w' := w.torrents[t], Apply(w, e);
    RunOf(w, t);
    if mt.state == DOWNLOADING {
      CollectKeepsState(w, e.j, e.writes, t);
      NoOrphans(w', t, i);
    } else {
      CollectIdle(w, e.j, e.writes, t, i);
    }
  }

  lemma CollectKeepsState(w: World, j: nat, writes: seq<WriteOutcome>, t: nat)
    requires Inv(w) && t < |w.torrents|
    ensures |CollectWeb(w, j, writes).torrents| == |w.torrents|
    ensures CollectWeb(w, j, writes).torrents[t].state == w.torrents[t].state
  {
    hide Inv, SaveBatch, RunOk, TorrentOk;
    if HasJob(w.web, j) && w.web[j].value.done {
      var live := FindLive(w, w.web[j].value.generation, |w.torrents|);
      if live.Some? {
        RunOf(w, live.value);
        LiveShape(w, live.value);
        JobOf(w, live.value, j);
        SaveBatchKeepsState(w.torrents[live.value], w.web[j].value, writes, |w.web[j].value.sizes|);
      }
    }
  }

  lemma {:induction false} SaveBatchKeepsState(mt: Managed, job: WebJob, writes: seq<WriteOutcome>, k: nat)
    requires TableShape(mt) && WebJobShape(job) && k <= |job.sizes|
    ensures SaveBatch(mt, job, writes, k).0.state == mt.state
  {
    hide HashMatches, Outcome, BatchPiece;
    if k > 0 {
      SaveBatchKeepsState(mt, job, writes, k - 1);
    }
  }

  lemma CollectIdle(w: World, j: nat, writes: seq<WriteOutcome>, t: nat, i: nat)
    requires Inv(w) && t < |w.torrents| && w.torrents[t].state != DOWNLOADING
    requires !Orphaned(w.torrents[t], w.web, i)
    ensures var w' := CollectWeb(w, j, writes);
            && t < |w'.torrents|
            && (Orphaned(w'.torrents[t], w'.web, i) <==> Loses(w, EvCollectWeb(j, writes), t, i))
  {
    hide Inv, CollectInto, RunOk, TorrentOk;
    var mt, w' := w.torrents[t], CollectWeb(w, j, writes);
    RunOf(w, t);
    if Owned(mt, w.web, i) {
      OwnerKinds(mt, w.web, w.conn, i);
    }
    if HasJob(w.web, j) && w.web[j].value.done {
      IdleUntouched(w, j, writes, t);
      if !Owned(mt, w.web, i) {
        assert !Reserved(w'.torrents[t], i);
      } else if JobOwns(w.web, j, mt.generation, i) {
        WebOkOf(mt, w.web, w.conn);
        DroppedIsUnowned(mt, w.web, j, i);
      } else {
        OthersOwn(mt, w.web, j, i);
      }
    }
  }

  lemma WebOkOf(mt: Managed, web: seq<Option<WebJob>>, conn: seq<Option<ConnJob>>)
    requires RunOk(mt, web, conn)
    ensures WebOk(mt, web)
  {
  }

  lemma IdleUntouched(w: World, j: nat, writes: seq<WriteOutcome>, t: nat)
    requires t < |w.torrents| && w.torrents[t].state != DOWNLOADING
    requires HasJob(w.web, j) && w.web[j].value.done
    ensures var w' := CollectWeb(w, j, writes);
            |w'.torrents| == |w.torrents| && w'.torrents[t] == w.torrents[t] && w'.web == w.web[j := None]
  {
    hide CollectInto;
  }

  lemma OthersOwn(mt: Managed, web: seq<Option<WebJob>>, j: nat, i: nat)
    requires j < |web| && Owned(mt, web, i) && !JobOwns(web, j, mt.generation, i)
    ensures Owned(mt, web[j := None], i)
  {
    if k: nat :| JobOwns(web, k, mt.generation, i) {
      assert JobOwns(web[j := None], k, mt.generation, i);
    }
  }

  // ----- every other step -----------------------------------------------------------

  lemma OtherStepLosesNothing(w: World, e: Event, t: nat, i: nat)
    requires Inv(w) && Inv(Apply(w, e)) && t < |w.torrents| && StaysAt(w, e, t)
    requires !Orphaned(w.torrents[t], w.web, i)
    requires !(e.EvStop? && e.t == t) && !e.EvCollectWeb?
    ensures var w' := Apply(w, e);
            && t < |w'.torrents| && !Orphaned(w'.torrents[t], w'.web, i)
            && (e.EvRemove? ==> w'.torrents[t].generation == w.torrents[t].generation)
  {
    hide Apply, Inv, Orphaned, Owned, OwnersStay;
    if e.EvStart? && e.t == t {
      StartLosesNothing(w, t, e.outcome, i);
    } else if e.EvCheckDone? && e.t == t {
      CheckDoneLosesNothing(w, e, t, i);
    } else if (e.EvTimeOut? || e.EvRecv? || e.EvRequest?) && e.t == t {
      PeerStepLosesNothing(w, e, t, i);
    } else if (e.EvDrain? || e.EvCollectConn?) && w.torrents[t].state == DOWNLOADING {
      LiveStaysLive(w, e, t);
      NoOrphans(Apply(w, e), t, i);
    } else {
      QuietStep(w, e, t);
      NothingLost(w, Apply(w, e), t, i);
      SameGeneration(w, Apply(w, e), t);
    }
  }

  lemma SameGeneration(w: World, w': World, t: nat)
    requires t < |w.torrents| && t < |w'.torrents| && OwnersStay(w, w', t)
    ensures w'.torrents[t].generation == w.torrents[t].generation
  {
  }

  lemma StartLosesNothing(w: World, t: nat, outcome: StartOutcome, i: nat)
    requires Inv(w) && t < |w.torrents| && !Orphaned(w.torrents[t], w.web, i)
    ensures var w' := Apply(w, EvStart(t, outcome));
            t < |w'.torrents| && !Orphaned(w'.torrents[t], w'.web, i)
  {
    hide Inv, ResetForStart, Owned, InitialTable, FileIo.InitialFiles, Apply;
    StartStep(w, t, outcome);
    if w.torrents[t].state !in {DOWNLOADING, DONE} {
      assert w.torrents[t].state == STOPPED || w.torrents[t].state == ERROR;
      ResetKeepsInv(w, t);
      InitialTableConsistent(w.torrents[t].meta);
    }
  }

  lemma CheckDoneLosesNothing(w: World, e: Event, t: nat, i: nat)
    requires Inv(w) && Inv(Apply(w, e)) && e.EvCheckDone? && e.t == t && t < |w.torrents|
    requires !Orphaned(w.torrents[t], w.web, i)
    ensures var w' := Apply(w, e);
            t < |w'.torrents| && !Orphaned(w'.torrents[t], w'.web, i)
  {
    hide Inv, DisconnectAll, Owned, Orphaned;
    if Apply(w, e) != w {
      NoOrphans(Apply(w, e), t, i);
    }
  }

  lemma LiveStaysLive(w: World, e: Event, t: nat)
    requires t < |w.torrents| && w.torrents[t].state == DOWNLOADING && (e.EvDrain? || e.EvCollectConn?)
    ensures t < |Apply(w, e).torrents| && Apply(w, e).torrents[t].state == DOWNLOADING
  {
    hide RecordFailure, ClearConnecting;
    if e.EvDrain? && HasJob(w.disc, e.j) {
      AddCandidatesKeepsState(w.torrents[t], w.disc[e.j].value.queue);
    }
  }

  lemma {:induction false} AddCandidatesKeepsState(mt: Managed, addrs: seq<Addr>)
    ensures AddCandidates(mt, addrs).state == mt.state
    decreases |addrs|
  {
    if addrs != [] {
      AddCandidatesKeepsState(mt, addrs[..|addrs| - 1]);
    }
  }

  // ----- peers ------------------------------------------------------------------------

  lemma PeerStepLosesNothing(w: World, e: Event, t: nat, i: nat)
    requires Inv(w) && Inv(Apply(w, e)) && t < |w.torrents| && (e.EvTimeOut? || e.EvRecv? || e.EvRequest?) && e.t == t
    requires !Orphaned(w.torrents[t], w.web, i)
    ensures var w' := Apply(w, e);
            t < |w'.torrents| && !Orphaned(w'.torrents[t], w'.web, i)
  {
    hide Inv, Owned, Orphaned;
    if w.torrents[t].state != DOWNLOADING {
      InactiveNothing(w, e, t);
    } else if e.EvTimeOut? {
      TimeOutKeepsState(w, t, e.p);
      NoOrphans(Apply(w, e), t, i);
    } else if e.EvRequest? {
      RequestOutcomes(w, t, e.p, e.memory, e.sent);
      if Apply(w, e).torrents[t].state == DOWNLOADING {
        NoOrphans(Apply(w, e), t, i);
      } else {
        NothingLost(w, Apply(w, e), t, i);
      }
    } else {
      RecvOutcomes(w, t, e.p, e.msg, e.hasMemory, e.write);
      if Apply(w, e).torrents[t].state == DOWNLOADING {
        NoOrphans(Apply(w, e), t, i);
      } else {
        FailedPeerFreesItsPiece(w, Apply(w, e), t, e.p, i);
      }
    }
  }

  lemma InactiveNothing(w: World, e: Event, t: nat)
    requires t < |w.torrents| && w.torrents[t].state != DOWNLOADING
    requires (e.EvTimeOut? || e.EvRecv? || e.EvRequest?) && e.t == t
    ensures Apply(w, e) == w
  {
    hide Disconnect, Receive, Learn, SendRequest, Reserve;
  }

  lemma TimeOutKeepsState(w: World, t: nat, p: nat)
    requires t < |w.torrents| && w.torrents[t].state == DOWNLOADING
    ensures t < |TimeOut(w, t, p).torrents| && TimeOut(w, t, p).torrents[t].state == DOWNLOADING
  {
    hide Disconnect;
    if PeerActive(w, t, p) {
      DisconnectForm(w, t, p);
    }
  }

  /** A request step keeps the state, or sets ERROR and touches nothing else. */
  lemma RequestOutcomes(w: World, t: nat, p: nat, memory: Option<seq<byte>>, sent: bool)
    requires t < |w.torrents| && w.torrents[t].state == DOWNLOADING
    ensures var w' := Request(w, t, p, memory, sent);
            && t < |w'.torrents|
            && (w'.torrents[t].state == DOWNLOADING || OwnersStay(w, w', t))
  {
    hide Disconnect;
    DisconnectKeepsState();
  }

  lemma DisconnectKeepsState()
    ensures forall w: World, t: nat, p: nat :: HasPeer(w, t, p) ==>
              && |Disconnect(w, t, p).torrents| == |w.torrents|
              && Disconnect(w, t, p).torrents[t].state == w.torrents[t].state
  {
    forall w: World, t: nat, p: nat | HasPeer(w, t, p)
      ensures |Disconnect(w, t, p).torrents| == |w.torrents|
      ensures Disconnect(w, t, p).torrents[t].state == w.torrents[t].state
    {
      DisconnectForm(w, t, p);
    }
  }

  /** What a failed write leaves: peer p is closed and its piece released. */
  ghost predicate PeerFailed(w: World, w': World, t: nat, p: nat)
    requires HasPeer(w, t, p)
  {
    var a, peer := w.torrents[t], w.torrents[t].peers[p];
    && t < |w'.torrents| && w'.web == w.web
    && w'.torrents[t].generation == a.generation && peer.assembly.Some?
    && w'.torrents[t].peers == a.peers[p := ClosedPeer(peer)]
    && w'.torrents[t].table == ReleaseInTable(a.table, peer.assembly.value.index)
  }

  lemma RecvOutcomes(w: World, t: nat, p: nat, msg: Message, hasMemory: bool, o: WriteOutcome)
    requires t < |w.torrents| && w.torrents[t].state == DOWNLOADING
    ensures var w' := Recv(w, t, p, msg, hasMemory, o);
            && t < |w'.torrents|
            && (w'.torrents[t].state == DOWNLOADING || (PeerActive(w, t, p) && PeerFailed(w, w', t, p)))
  {
    hide Disconnect, HashMatches, Outcome, StorePiece, ClearFailures, ClosedPeer, Append, FinishPiece;
    DisconnectKeepsState();
    if PeerActive(w, t, p) && msg.Piece? && Expected(w.torrents[t].peers[p], msg) {
      var peer := w.torrents[t].peers[p];
      var a := peer.assembly.value;
      if a.received + |msg.block| <= |a.buffer| {
        var w1 := SetTorrent(w, t, SetPeer(w.torrents[t], p, peer.(assembly := Some(Append(a, msg.block)), pending := 0)));
        FinishOutcomes(w1, t, p, o);
        AppendSame(w, t, p, msg.block);
      }
    }
  }

  lemma AppendSame(w: World, t: nat, p: nat, block: seq<byte>)
    requires HasPeer(w, t, p) && w.torrents[t].peers[p].assembly.Some?
    requires var a := w.torrents[t].peers[p].assembly.value;
             a.received + |block| <= |a.buffer|
    ensures var peer := w.torrents[t].peers[p];
            var a' := Append(peer.assembly.value, block);
            && a'.index == peer.assembly.value.index
            && w.torrents[t].peers[p := peer.(assembly := Some(a'), pending := 0)][p := ClosedPeer(peer)]
                 == w.torrents[t].peers[p := ClosedPeer(peer)]
            && ClosedPeer(peer.(assembly := Some(a'), pending := 0)) == ClosedPeer(peer)
  {
  }

  lemma FinishOutcomes(w: World, t: nat, p: nat, o: WriteOutcome)
    requires PeerActive(w, t, p) && w.torrents[t].peers[p].assembly.Some?
    ensures var w' := FinishPiece(w, t, p, o);
            && t < |w'.torrents|
            && (w'.torrents[t].state == DOWNLOADING || PeerFailed(w, w', t, p))
  {
    hide Disconnect, HashMatches, Outcome, ClearFailures;
    DisconnectKeepsState();
    var mt := w.torrents[t];
    var a := mt.peers[p].assembly.value;
    DisconnectForm(SetTorrent(w, t, mt.(files := Outcome(mt, a.index, a.buffer, o).files, state := ERROR)), t, p);
  }

  lemma FailedPeerFreesItsPiece(w: World, w': World, t: nat, p: nat, i: nat)
    requires Inv(w) && HasPeer(w, t, p) && PeerFailed(w, w', t, p)
    requires !Orphaned(w.torrents[t], w.web, i)
    ensures !Orphaned(w'.torrents[t], w'.web, i)
  {
    hide Inv;
    RunOf(w, t);
    var a, b := w.torrents[t], w'.torrents[t];
    if PeerOwns(a.peers, p, i) {
      assert !Reserved(b, i);
    } else if q: nat :| PeerOwns(a.peers, q, i) {
      assert PeerOwns(b.peers, q, i);
    }
  }

  // ----- steps that leave the owners alone --------------------------------------------

  lemma QuietStep(w: World, e: Event, t: nat)
    requires Inv(w) && t < |w.torrents| && StaysAt(w, e, t) && !e.EvCollectWeb?
    requires !((e.EvStop? || e.EvStart? || e.EvCheckDone? || e.EvTimeOut? || e.EvRecv? || e.EvRequest?) && e.t == t)
    requires (e.EvDrain? || e.EvCollectConn?) ==> w.torrents[t].state != DOWNLOADING
    ensures t < |Apply(w, e).torrents| && OwnersStay(w, Apply(w, e), t)
  {
    if e.EvStop? || e.EvStart? || e.EvCheckDone? || e.EvRemove? {
      OtherLifecycleQuiet(w, e, t);
    } else if e.EvTimeOut? || e.EvRecv? || e.EvRequest? {
      OtherPeersQuiet(w, e, t);
    } else if e.EvScheduleWeb? {
      ScheduleWebQuiet(w, e, t);
    } else {
      OneSlotQuiet(w, e, t);
    }
  }

  lemma SameTorrentQuiet(w: World, w': World, t: nat)
    requires t < |w.torrents| && t < |w'.torrents| && w'.torrents[t] == w.torrents[t] && w'.web == w.web
    ensures OwnersStay(w, w', t)
  {
  }

  lemma OtherLifecycleQuiet(w: World, e: Event, t: nat)
    requires Inv(w) && t < |w.torrents| && StaysAt(w, e, t)
    requires (e.EvStop? || e.EvStart? || e.EvCheckDone? || e.EvRemove?) && e.t != t
    ensures t < |Apply(w, e).torrents| && OwnersStay(w, Apply(w, e), t)
  {
    hide Inv, Stop, DisconnectAll, OwnersStay, Launched, OnlyPeersDropped;
    LifecycleKeepsJobs(w, e);
    if e.t < |w.torrents| {
      StopTouchesOne(w, e.t, t);
      DoneTouchesOne(w, e.t, t);
    } else {
      StopNothing(w, e.t);
    }
    assert t < |Apply(w, e).torrents| && Apply(w, e).torrents[t] == w.torrents[t];
    SameTorrentQuiet(w, Apply(w, e), t);
  }

  lemma StopTouchesOne(w: World, u: nat, t: nat)
    requires Inv(w) && u < |w.torrents| && t < |w.torrents| && t != u
    ensures |Stop(w, u).torrents| == |w.torrents| && Stop(w, u).torrents[t] == w.torrents[t]
  {
    hide Inv, Stop;
    StopKeepsInv(w, u);
  }

  lemma DoneTouchesOne(w: World, u: nat, t: nat)
    requires Inv(w) && u < |w.torrents| && t < |w.torrents| && t != u
    ensures var d := DisconnectAll(w, u, |w.torrents[u].peers|);
            |d.torrents| == |w.torrents| && d.torrents[t] == w.torrents[t]
  {
    hide Inv, DisconnectAll;
    DisconnectAllKeepsInv(w, u, |w.torrents[u].peers|);
  }

  lemma DisconnectTouchesOne(u: nat)
    ensures forall w: World, t: nat, p: nat :: HasPeer(w, t, p) && u < |w.torrents| && u != t ==>
              && |Disconnect(w, t, p).torrents| == |w.torrents|
              && Disconnect(w, t, p).torrents[u] == w.torrents[u]
  {
    forall w: World, t: nat, p: nat | HasPeer(w, t, p) && u < |w.torrents| && u != t
      ensures |Disconnect(w, t, p).torrents| == |w.torrents|
      ensures Disconnect(w, t, p).torrents[u] == w.torrents[u]
    {
      DisconnectForm(w, t, p);
    }
  }

  lemma OtherPeersQuiet(w: World, e: Event, t: nat)
    requires t < |w.torrents| && (e.EvTimeOut? || e.EvRecv? || e.EvRequest?) && e.t != t
    ensures t < |Apply(w, e).torrents| && OwnersStay(w, Apply(w, e), t)
  {
    hide Disconnect, OwnersStay, HashMatches, Outcome, StorePiece, ClearFailures, Append, Add, Start, Stop, Remove,
         CollectWeb, ReadDone, Drain, FreeIfDone, CollectConn, CheckDone, ScheduleDiscovery, ScheduleConn, ScheduleWeb,
         WebWorker, ConnOpens, ConnSucceeds, ConnFails, DiscPublishes, DiscFinishes;
    PeerStepKeepsJobs(w, e);
    DisconnectTouchesOne(t);
    assert t < |Apply(w, e).torrents| && Apply(w, e).torrents[t] == w.torrents[t];
    SameTorrentQuiet(w, Apply(w, e), t);
  }

  lemma OneSlotQuiet(w: World, e: Event, t: nat)
    requires t < |w.torrents| && !e.EvCollectWeb? && !e.EvScheduleWeb?
    requires !(e.EvStop? || e.EvStart? || e.EvCheckDone? || e.EvRemove? || e.EvTimeOut? || e.EvRecv? || e.EvRequest?)
    requires (e.EvDrain? || e.EvCollectConn?) ==> w.torrents[t].state != DOWNLOADING
    ensures t < |Apply(w, e).torrents| && OwnersStay(w, Apply(w, e), t)
  {
    hide AddCandidates, CollectConnInto, BatchCount, Start, Stop, Remove, CollectWeb, CheckDone, TimeOut, Recv,
         Request, ScheduleWeb;
  }

  /** A web-seed batch that is reserved is owned by the job that is started with it. */
  lemma ScheduleWebQuiet(w: World, e: Event, t: nat)
    requires t < |w.torrents| && e.EvScheduleWeb?
    ensures t < |Apply(w, e).torrents| && OwnersStay(w, Apply(w, e), t)
  {
    hide BatchCount, WebActive;
    var w' := ScheduleWeb(w, e.t, e.resources, e.buffer);
    if w' != w {
      var slot := FreeSlot(w.web).value;
      forall j: nat, i: nat | JobOwns(w.web, j, w.torrents[t].generation, i)
        ensures JobOwns(w'.web, j, w.torrents[t].generation, i)
      {
        assert j != slot;
      }
      forall i: nat | Reserved(w'.torrents[t], i) && !Reserved(w.torrents[t], i)
        ensures Owned(w'.torrents[t], w'.web, i)
      {
        assert JobOwns(w'.web, slot, w.torrents[t].generation, i);
      }
    }
  }
}
