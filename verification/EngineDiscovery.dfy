/** The discovery hand-off keeps the invariant under every interleaving. */
module EngineDiscovery {
  import opened Bytes
  import opened Torrent
  import opened PieceMgr
  import opened Disk
  import opened EngineTypes
  import opened EngineSteps
  import opened EngineInvariants
  import opened EngineFrames
  import opened EngineLifecycle
  import opened EngineConn

  lemma DiscFrame(w: World, j: nat, job: Option<DiscJob>)
    requires Inv(w) && j < |w.disc|
    requires job.Some? ==> DiscJobOk(job.value) && job.value.generation < w.nextGeneration
    requires job.Some? ==> forall k :: 0 <= k < |w.disc| && k != j && w.disc[k].Some? ==>
               w.disc[k].value.generation != job.value.generation
    ensures Inv(w.(disc := w.disc[j := job]))
  {
    hide AllTorrents, SocketsOk, BudgetOk, DiscJobOk;
    var w' := w.(disc := w.disc[j := job]);
    assert AllTorrents(w') by { SameRuns(w, w'); }
    assert SocketsOk(w') by { SameRuns(w, w'); }
    assert BudgetOk(w') by { SameRuns(w, w'); }
  }

  lemma SameRuns(w: World, w': World)
    requires w' == w.(disc := w'.disc)
    ensures AllTorrents(w) <==> AllTorrents(w')
    ensures SocketsOk(w) <==> SocketsOk(w')
    ensures BudgetOk(w) <==> BudgetOk(w')
  {
    hide RunOk, TorrentSocks, ConnSocks, TorrentBytes;
  }

  /** Updating a job in its slot cannot clash with another generation. */
  lemma DiscUpdate(w: World, j: nat, job: DiscJob)
    requires Inv(w) && HasJob(w.disc, j) && job.generation == w.disc[j].value.generation && DiscJobOk(job)
    ensures Inv(w.(disc := w.disc[j := Some(job)]))
  {
    hide AllTorrents, SocketsOk, BudgetOk, DiscJobOk;
    forall k | 0 <= k < |w.disc| && k != j && w.disc[k].Some?
      ensures w.disc[k].value.generation != job.generation
    {
    }
    DiscFrame(w, j, Some(job));
  }

  lemma DiscJobOf(w: World, j: nat)
    requires Inv(w) && HasJob(w.disc, j)
    ensures DiscJobOk(w.disc[j].value)
  {
  }

  lemma ScheduleDiscoveryKeepsInv(w: World, t: nat, slot: nat, resources: bool)
    requires Inv(w)
    ensures Inv(ScheduleDiscovery(w, t, slot, resources))
  {
    hide AllTorrents, SocketsOk, BudgetOk;
    var w' := ScheduleDiscovery(w, t, slot, resources);
    if w' != w {
      var g := w.torrents[t].generation;
      forall k | 0 <= k < |w.disc| && w.disc[k].Some?
        ensures w.disc[k].value.generation != g
      {
        assert !DiscoveryAt(w.disc, k, g);
      }
      DiscFrame(w, slot, w'.disc[slot]);
    }
  }

  lemma ReadDoneKeepsInv(w: World, j: nat)
    requires Inv(w)
    ensures Inv(ReadDone(w, j))
  {
    hide Inv;
    if HasJob(w.disc, j) && w.disc[j].value.phase == Idle {
      DiscJobOf(w, j);
      DiscUpdate(w, j, w.disc[j].value.(phase := DoneRead(w.disc[j].value.done)));
    }
  }

  // ----- add_candidate --------------------------------------------------------

  lemma AddCandidateOk(mt: Managed, addr: Addr, web: seq<Option<WebJob>>, conn: seq<Option<ConnJob>>)
    requires RunOk(mt, web, conn) && mt.table.Some?
    ensures RunOk(AddCandidate(mt, addr), web, conn)
  {
    hide StateOk, TableOk, PeersOk, DiskOk, WebOk;
    var mt' := AddCandidate(mt, addr);
    if mt' != mt {
      AddedCandidatesOk(mt, addr);
      CandidatesOnly(mt, mt', web);
      AddedConnOk(mt, addr, conn);
    }
  }

  lemma AddedCandidatesOk(mt: Managed, addr: Addr)
    requires CandidatesOk(mt)
    ensures CandidatesOk(AddCandidate(mt, addr))
  {
  }

  /** Eviction never takes a candidate that is being connected. */
  lemma AddedConnOk(mt: Managed, addr: Addr, conn: seq<Option<ConnJob>>)
    requires ConnOk(mt, conn)
    ensures ConnOk(AddCandidate(mt, addr), conn)
  {
    var mt' := AddCandidate(mt, addr);
    assert forall c: nat, a: Addr :: Connecting(mt, c, a) <==> Connecting(mt', c, a);
  }

  lemma {:induction false} AddCandidatesOk(mt: Managed, addrs: seq<Addr>, web: seq<Option<WebJob>>,
                                           conn: seq<Option<ConnJob>>)
    requires RunOk(mt, web, conn) && mt.table.Some?
    ensures var mt' := AddCandidates(mt, addrs);
            && RunOk(mt', web, conn)
            && mt' == mt.(candidates := mt'.candidates)
  {
    hide RunOk;
    if addrs != [] {
      AddCandidatesOk(mt, addrs[..|addrs| - 1], web, conn);
      AddCandidateOk(AddCandidates(mt, addrs[..|addrs| - 1]), addrs[|addrs| - 1], web, conn);
    }
  }

  lemma DrainKeepsInv(w: World, j: nat)
    requires Inv(w)
    ensures Inv(Drain(w, j))
  {
    hide Inv, RunOk, TorrentOk;
    if HasJob(w.disc, j) && w.disc[j].value.phase.DoneRead? {
      var job := w.disc[j].value;
      DiscJobOf(w, j);
      var live := FindLive(w, job.generation, |w.torrents|);
      var w1 := w;
      if live.Some? {
        var mt := w.torrents[live.value];
        RunOf(w, live.value);
        LiveTable(mt);
        AddCandidatesOk(mt, job.queue, w.web, w.conn);
        UpdateQuietly(w, live.value, AddCandidates(mt, job.queue));
        w1 := SetTorrent(w, live.value, AddCandidates(mt, job.queue));
      }
      var job' := job.(queue := [], drained := job.drained + job.queue, phase := Drained(job.phase.done));
      assert DiscJobOk(job');
      DiscUpdate(w1, j, job');
    }
  }

  lemma LiveTable(mt: Managed)
    requires TorrentOk(mt) && mt.state == DOWNLOADING
    ensures mt.table.Some?
  {
  }

  lemma FreeIfDoneKeepsInv(w: World, j: nat)
    requires Inv(w)
    ensures Inv(FreeIfDone(w, j))
  {
    hide Inv;
    if HasJob(w.disc, j) && w.disc[j].value.phase.Drained? {
      DiscJobOf(w, j);
      if w.disc[j].value.phase.done {
        DiscFrame(w, j, None);
      } else {
        DiscUpdate(w, j, w.disc[j].value.(phase := Idle));
      }
    }
  }

  // ----- the worker -----------------------------------------------------------

  lemma {:induction false} PublishLimit(queue: seq<Addr>, addrs: seq<Addr>)
    requires |queue| <= MAX_TRACKER_PEERS
    ensures |Publish(queue, addrs)| <= MAX_TRACKER_PEERS
    decreases addrs
  {
    if addrs != [] && |queue| < MAX_TRACKER_PEERS {
      PublishLimit(if addrs[0] in queue then queue else queue + [addrs[0]], addrs[1..]);
    }
  }

  lemma DiscPublishesKeepsInv(w: World, j: nat, addrs: seq<Addr>)
    requires Inv(w)
    ensures Inv(DiscPublishes(w, j, addrs))
  {
    hide Inv, Publish;
    if HasJob(w.disc, j) && !w.disc[j].value.done {
      var job := w.disc[j].value;
      DiscJobOf(w, j);
      PublishLimit(job.queue, addrs);
      var queue := Publish(job.queue, addrs);
      var job' := job.(queue := queue, accepted := job.accepted + queue[|job.queue|..]);
      assert queue == job.queue + queue[|job.queue|..];
      DiscUpdate(w, j, job');
    }
  }

  lemma DiscFinishesKeepsInv(w: World, j: nat)
    requires Inv(w)
    ensures Inv(DiscFinishes(w, j))
  {
    hide Inv;
    if HasJob(w.disc, j) {
      DiscJobOf(w, j);
      DiscUpdate(w, j, w.disc[j].value.(done := true));
    }
  }

  /** A drain hands the whole queue, in order, to add_candidate of the live run and
      of no other. */
  lemma DrainDelivers(w: World, j: nat)
    requires Inv(w) && HasJob(w.disc, j) && w.disc[j].value.phase.DoneRead?
    ensures var job := w.disc[j].value;
            var w' := Drain(w, j);
            && HasJob(w'.disc, j) && w'.disc[j].value.queue == []
            && w'.disc[j].value.drained == job.drained + job.queue
            && |w'.torrents| == |w.torrents|
            && forall t :: 0 <= t < |w.torrents| ==>
                 w'.torrents[t] == if IsLive(w, t, job.generation) then AddCandidates(w.torrents[t], job.queue)
                                   else w.torrents[t]
  {
    hide AllTorrents, SocketsOk, BudgetOk, DiscOk;
    var job := w.disc[j].value;
    var live := FindLive(w, job.generation, |w.torrents|);
    forall t | 0 <= t < |w.torrents| && IsLive(w, t, job.generation)
      ensures live == Some(t)
    {
    }
  }
}
