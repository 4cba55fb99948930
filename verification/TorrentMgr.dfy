/** torrent_mgr.c as it runs: tables that loops update in place, step by step the
    state machine of EngineSteps. */
module TorrentMgr {
  import opened Bytes
  import opened Bitfield
  import opened Torrent
  import opened PieceMgr
  import opened Disk
  import opened EngineTypes
  import opened EngineSteps
  import opened EngineInvariants
  import opened EngineLifecycle
  import opened EngineTheorems
  import opened TickSpec
  import opened EngineTransfer
  import opened EngineWeb
  import opened EnginePeers
  import opened EngineRequests
  import opened PeerEffects
  import opened BatchEffects
  import opened BatchLaunch
  import opened DiscoveryEffects
  import EngineFrames
  import FileIo
  import Sha1
  import Sha1Spec

  // ----- traces ---------------------------------------------------------------

  lemma {:induction false} MainAppend(a: seq<Event>, b: seq<Event>)
    ensures Main(a + b) == Main(a) + Main(b)
  {
    if b == [] {
      assert a + b == a;
    } else {
      MainAppend(a, b[..|b| - 1]);
      assert (a + b)[..|a + b| - 1] == a + b[..|b| - 1];
    }
  }

  // ----- batches --------------------------------------------------------------

  /** Outcomes of later writes do not matter for the first k turns. */
  lemma {:induction false} SaveBatchPrefix(mt: Managed, job: WebJob, a: seq<WriteOutcome>, b: seq<WriteOutcome>, k: nat)
    requires TableShape(mt) && WebJobShape(job) && k <= |job.sizes| && k <= |a|
    ensures SaveBatch(mt, job, a, k) == SaveBatch(mt, job, a + b, k)
  {
    hide SaveOne;
    if k > 0 {
      SaveBatchPrefix(mt, job, a, b, k - 1);
    }
  }

  lemma SaveBatchStep(mt: Managed, job: WebJob, writes: seq<WriteOutcome>, o: WriteOutcome, k: nat)
    requires TableShape(mt) && WebJobShape(job) && k < |job.sizes| && k == |writes|
    requires SaveBatch(mt, job, writes, k).1
    ensures SaveBatch(mt, job, writes + [o], k + 1) ==
            SaveOne(SaveBatch(mt, job, writes, k).0, job.first + k, BatchPiece(job, k), o)
  {
    hide SaveOne, BatchPiece;
    SaveBatchPrefix(mt, job, writes, [o], k);
  }

  lemma SaveNothing(mt: Managed, job: WebJob)
    requires TableShape(mt) && WebJobShape(job)
    ensures SaveBatch(mt, job, [], 0) == (mt, true)
  {
  }

  lemma BatchPieceIs(job: WebJob, k: nat)
    requires WebJobShape(job) && k < |job.sizes|
    ensures 0 <= Sum(job.sizes[..k]) <= Sum(job.sizes[..k]) + job.sizes[k] <= |job.data|
    ensures BatchPiece(job, k) == job.data[Sum(job.sizes[..k])..Sum(job.sizes[..k]) + job.sizes[k]]
  {
    PrefixSum(job.sizes, k);
  }

  /** Piece number k is the first of the batch that is not saved, and its digest is wrong. */
  ghost predicate FailsAt(mt: Managed, job: WebJob, writes: seq<WriteOutcome>, k: nat)
    requires TableShape(mt) && WebJobShape(job) && k < |job.sizes|
  {
    && SaveBatch(mt, job, writes, k).1 && !SaveBatch(mt, job, writes, k + 1).1
    && !HashMatches(mt.meta, job.first + k, BatchPiece(job, k))
  }

  /** Of every live run that collects a fetched batch: it is saved, or fails at a wrong digest. */
  ghost predicate FailsOnlyUnverified(w: World, j: nat, writes: seq<WriteOutcome>) {
    HasJob(w.web, j) && w.web[j].value.done && w.web[j].value.ok ==>
      var job := w.web[j].value;
      forall t :: 0 <= t < |w.torrents| && IsLive(w, t, job.generation) && TableShape(w.torrents[t]) && WebJobShape(job) ==>
        || SaveBatch(w.torrents[t], job, writes, |job.sizes|).1
        || exists k :: 0 <= k < |job.sizes| && FailsAt(w.torrents[t], job, writes, k)
  }

  lemma OnlyLiveFails(w: World, j: nat, writes: seq<WriteOutcome>)
    requires Inv(w) && HasJob(w.web, j) && w.web[j].value.done && w.web[j].value.ok
    requires var job := w.web[j].value;
             var live := FindLive(w, job.generation, |w.torrents|);
             live.Some? && TableShape(w.torrents[live.value]) && WebJobShape(job)
             && job.first < w.torrents[live.value].meta.NumPieces() ==>
               || SaveBatch(w.torrents[live.value], job, writes, |job.sizes|).1
               || exists k :: 0 <= k < |job.sizes| && FailsAt(w.torrents[live.value], job, writes, k)
    ensures FailsOnlyUnverified(w, j, writes)
  {
    hide Inv, FailsAt, SaveBatch, TableShape, WebJobShape;
    var job := w.web[j].value;
    var live := FindLive(w, job.generation, |w.torrents|);
    forall t | 0 <= t < |w.torrents| && IsLive(w, t, job.generation)
      ensures live == Some(t) && job.first < w.torrents[t].meta.NumPieces()
    {
      GenerationsOf(w);
      LiveIsUnique(w, job.generation, t, live.value);
      LiveInside(w, t, j);
    }
  }

  lemma LiveInside(w: World, t: nat, j: nat)
    requires Inv(w) && HasJob(w.web, j) && IsLive(w, t, w.web[j].value.generation)
    ensures w.web[j].value.first < w.torrents[t].meta.NumPieces()
  {
    hide Inv;
    LiveShape(w, t);
    JobOf(w, t, j);
  }

  lemma WritesOf(w: World, j: nat, writes: seq<WriteOutcome>)
    requires Inv(w) && FailsOnlyUnverified(w, j, writes)
    ensures BatchWrites(w, j, writes)
  {
    hide Inv, FailsAt, BatchFits, FirstFailure, RightDigest, SaveBatch, TableShape, WebJobShape;
    if HasJob(w.web, j) {
      var job := w.web[j].value;
      forall t, k | 0 <= t < |w.torrents| && IsLive(w, t, job.generation) && BatchFits(w.torrents[t], job)
                    && 0 <= k < |job.sizes| && job.ok && job.done && FirstFailure(w.torrents[t], job, writes, k)
        ensures !RightDigest(w.torrents[t], job, k)
      {
        LiveBatch(w, t, j);
        FailureIs(w.torrents[t], job, writes, k);
      }
    }
  }

  lemma FailureIs(a: Managed, job: WebJob, writes: seq<WriteOutcome>, k: nat)
    requires BatchFits(a, job) && TableShape(a) && WebJobShape(job) && k < |job.sizes| && FirstFailure(a, job, writes, k)
    requires forall i :: 0 <= i < |job.sizes| ==> Fetched(a, job, i) == BatchPiece(job, i)
    requires SaveBatch(a, job, writes, |job.sizes|).1
             || exists l :: 0 <= l < |job.sizes| && FailsAt(a, job, writes, l)
    ensures !RightDigest(a, job, k)
  {
    hide SaveBatch, BatchPiece, Fetched, Saves, Progress, BatchFits, TableShape, WebJobShape, RightDigest, HashMatches;
    TurnFails(a, job, writes, k);
    StaysFailed(a, job, writes, k + 1, |job.sizes|);
    var l :| 0 <= l < |job.sizes| && FailsAt(a, job, writes, l);
    if l < k {
      TurnsSaved(a, job, writes, l + 1);
      assert false;
    }
    if k < l {
      StaysFailed(a, job, writes, k + 1, l);
      assert false;
    }
    DigestIs(a, job, k);
  }

  lemma DigestIs(a: Managed, job: WebJob, k: nat)
    requires BatchFits(a, job) && WebJobShape(job) && k < |job.sizes| && Fetched(a, job, k) == BatchPiece(job, k)
    ensures RightDigest(a, job, k) <==> HashMatches(a.meta, job.first + k, BatchPiece(job, k))
  {
    hide Sha1Spec.Digest, BatchPiece, Fetched;
  }

  lemma {:induction false} MoreBatches(w: World, a: seq<Event>, b: seq<Event>)
    requires WritesWork(w, a) && WritesWork(Run(w, a), b)
    ensures WritesWork(w, a + b)
  {
    hide Run, BatchWrites;
    var all := a + b;
    forall k | 0 <= k < |all| && all[k].EvCollectWeb?
      ensures BatchWrites(Run(w, all[..k]), all[k].j, all[k].writes)
    {
      if k < |a| {
        assert all[..k] == a[..k];
      } else {
        assert all[..k] == a + b[..k - |a|];
        RunAppend(w, a, b[..k - |a|]);
        assert b[k - |a|].EvCollectWeb?;
      }
    }
  }

  lemma NoBatches(w: World)
    ensures WritesWork(w, [])
  {
  }

  /** The steps between hold no batch. */
  lemma LaterSteps(w: World, a: seq<Event>, b: seq<Event>)
    requires WritesWork(w, a) && forall k :: 0 <= k < |b| ==> !b[k].EvCollectWeb?
    ensures WritesWork(w, a + b)
  {
    hide Run, BatchWrites;
    assert WritesWork(Run(w, a), b);
    MoreBatches(w, a, b);
  }

  lemma OneMoreBatch(w: World, idle: seq<Event>, e: Event)
    requires Main(idle) == [] && e.EvCollectWeb? && BatchWrites(Run(w, idle), e.j, e.writes)
    ensures WritesWork(w, idle + [e])
  {
    hide Run, BatchWrites, Main;
    NoBatchIn(idle);
    assert (idle + [e])[..|idle|] == idle;
  }

  lemma {:induction false} NoBatchInTurns(disc: seq<Option<DiscJob>>, n: nat)
    requires n <= |disc|
    ensures forall k :: 0 <= k < |DiscoveryTurns(disc, n)| ==> !DiscoveryTurns(disc, n)[k].EvCollectWeb?
  {
    if n > 0 {
      NoBatchInTurns(disc, n - 1);
    }
  }

  /** Without a web-seed step of the main thread there is none. */
  lemma {:induction false} NoBatchIn(steps: seq<Event>)
    requires forall k :: 0 <= k < |Main(steps)| ==> !Main(steps)[k].EvCollectWeb?
    ensures forall k :: 0 <= k < |steps| ==> !steps[k].EvCollectWeb?
  {
    if steps != [] {
      var init, last := steps[..|steps| - 1], steps[|steps| - 1];
      assert forall k :: 0 <= k < |Main(init)| ==> Main(init)[k] == Main(steps)[k];
      NoBatchIn(init);
      if !IsWorker(last) {
        assert Main(steps)[|Main(init)|] == last;
      }
    }
  }

  class TorrentManager {
    var torrents: seq<Managed>
    var web: seq<Option<WebJob>>
    var conn: seq<Option<ConnJob>>
    var disc: seq<Option<DiscJob>>
    var assemblyBytes: int
    var nextGeneration: nat
    var nextTable: nat  // the number of piece tables made so far, a history
    var open: set<nat>  // the sockets the process holds open
    ghost var trace: seq<Event>  // every step since the manager was created

    ghost function View(): World
      reads this
    {
      World(torrents, web, conn, disc, assemblyBytes, nextGeneration, nextTable, open)
    }

    /** The tables are what the steps so far have made of the initial ones. */
    ghost predicate Valid()
      reads this
    {
      View() == Run(INITIAL_WORLD, trace)
    }

    lemma ValidInv()
      requires Valid()
      ensures Inv(View())
    {
      hide Apply, Inv;
      InitialInv();
      RunKeepsInv(INITIAL_WORLD, trace);
    }

    /** `torrent_mgr_init`. */
    constructor ()
      ensures Valid() && trace == []
    {
      torrents := [];
      web := seq(WEB_SEED_MAX_JOBS, _ => None);
      conn := seq(PEER_CONNECT_MAX_JOBS, _ => None);
      disc := seq(MAX_TORRENTS, _ => None);
      assemblyBytes := 0;
      nextGeneration := 1;
      nextTable := 0;
      open := {};
      trace := [];
    }

    /** Closes an atomic step of the main thread or a worker. */
    ghost method Record(before: World, e: Event)
      requires before == Run(INITIAL_WORLD, trace) && View() == Apply(before, e)
      modifies this`trace
      ensures Valid() && trace == old(trace) + [e]
    {
      hide Apply;
      trace := trace + [e];
      RunAppend(INITIAL_WORLD, old(trace), [e]);
      RunOne(before, e);
    }

    // ----- searches -----------------------------------------------------------

    /** The loop that looks for the live run of a generation. */
    method FindLiveRun(generation: nat) returns (live: Option<nat>)
      ensures live == FindLive(View(), generation, |torrents|)
    {
      live := None;
      var i := 0;
      while i < |torrents|
        invariant 0 <= i <= |torrents| && live == FindLive(View(), generation, i)
      {
        if torrents[i].generation == generation && torrents[i].state == DOWNLOADING {
          live := Some(i);
        }
        i := i + 1;
      }
    }

    /** `peer_is_connected`. */
    method PeerIsConnected(mt: Managed, addr: Addr) returns (yes: bool)
      ensures yes == Connected(mt.peers, addr)
    {
      var i := 0;
      while i < |mt.peers|
        invariant 0 <= i <= |mt.peers|
        invariant forall p :: 0 <= p < i ==> !ConnectedAt(mt.peers, p, addr)
      {
        if mt.peers[i].sock.Some? && mt.peers[i].addr == addr {
          assert ConnectedAt(mt.peers, i, addr);
          return true;
        }
        i := i + 1;
      }
      yes := false;
    }

    /** `find_candidate`. */
    method FindCandidateIndex(mt: Managed, addr: Addr) returns (index: nat)
      ensures index == FindCandidate(mt.candidates, addr)
    {
      index := 0;
      while index < |mt.candidates|
        invariant 0 <= index <= |mt.candidates|
        invariant forall k :: 0 <= k < index ==> mt.candidates[k].addr != addr
      {
        if mt.candidates[index].addr == addr {
          return;
        }
        index := index + 1;
      }
    }

    // ----- add_candidate ------------------------------------------------------

    /** `add_candidate`. */
    method AddCandidateTo(t: nat, addr: Addr)
      requires t < |torrents|
      modifies this`torrents
      ensures torrents == old(torrents)[t := AddCandidate(old(torrents)[t], addr)]
    {
      var mt := torrents[t];
      var known := FindCandidateIndex(mt, addr);
      if addr.ip == 0 || addr.ip == 0xFFFF_FFFF || addr.port == 0 || known < |mt.candidates| {
        return;
      }
      if |mt.candidates| < MAX_TRACKER_PEERS {
        torrents := torrents[t := mt.(candidates := mt.candidates + [Candidate(addr, 0, false)])];
        return;
      }
      var slot: Option<nat> := None;
      var i := 0;
      while i < |mt.candidates|
        invariant 0 <= i <= |mt.candidates| && slot == EvictionSlot(mt, i) && torrents == old(torrents)
      {
        var c := mt.candidates[i];
        var connected := PeerIsConnected(mt, c.addr);
        if !c.connecting && c.failures > 0 && !connected &&
           (slot.None? || c.failures > mt.candidates[slot.value].failures) {
          slot := Some(i);
        }
        i := i + 1;
      }
      if slot.Some? {
        torrents := torrents[t := mt.(candidates := mt.candidates[slot.value := Candidate(addr, 0, false)])];
      }
    }

    // ----- release_piece, disconnect_peer -------------------------------------

    /** `release_piece`. */
    method ReleasePieceOf(t: nat, p: nat)
      requires HasPeer(View(), t, p)
      modifies this`torrents, this`assemblyBytes
      ensures View() == ReleasePiece(old(View()), t, p)
      ensures HasPeer(View(), t, p) && torrents[t].peers[p].sock == old(torrents)[t].peers[p].sock
      ensures torrents[t].state == old(torrents)[t].state
    {
      var mt := torrents[t];
      var peer := mt.peers[p];
      if peer.assembly.Some? {
        var index := peer.assembly.value.index;
        if mt.table.Some? && index < |mt.table.value.states| && mt.table.value.states[index] != COMPLETE {
          mt := mt.(table := Some(mt.table.value.(states := mt.table.value.states[index := FREE])));
        }
        assemblyBytes := assemblyBytes - |peer.assembly.value.buffer|;
      }
      mt := mt.(peers := mt.peers[p := peer.(assembly := None, pending := 0)]);
      torrents := torrents[t := mt];
    }

    /** The part of disconnect_peer that closes the socket and counts the failure. */
    method CloseSocketOf(t: nat, p: nat)
      requires HasPeer(View(), t, p)
      modifies this`torrents, this`open
      ensures View() == CloseSocket(old(View()), t, p)
    {
      var peer := torrents[t].peers[p];
      if peer.sock.None? {
        return;
      }
      var mt := torrents[t];
      if mt.state == DOWNLOADING {
        var c := FindCandidateIndex(mt, peer.addr);
        if c < |mt.candidates| {
          var failures := mt.candidates[c].failures;
          mt := mt.(candidates := mt.candidates[c := mt.candidates[c].(failures :=
                  if failures < 5 then failures + 1 else failures)]);
        }
      }
      mt := mt.(peers := mt.peers[p := peer.(sock := None)], active := mt.active - 1);
      torrents := torrents[t := mt];
      open := open - {peer.sock.value};
    }

    /** `disconnect_peer`. */
    method DisconnectPeer(t: nat, p: nat)
      requires HasPeer(View(), t, p)
      modifies this`torrents, this`assemblyBytes, this`open
      ensures View() == Disconnect(old(View()), t, p)
      ensures HasPeer(View(), t, p) && torrents[t].peers[p].sock.None? && torrents[t].state == old(torrents)[t].state
    {
      CloseSocketOf(t, p);
      ReleasePieceOf(t, p);
      var mt := torrents[t];
      torrents := torrents[t := mt.(peers := mt.peers[p := mt.peers[p].(have := None)])];
    }

    /** The loop over the first peers that stop and tick share. */
    method DisconnectPeers(t: nat)
      requires t < |torrents|
      modifies this`torrents, this`assemblyBytes, this`open
      ensures View() == DisconnectAll(old(View()), t, |old(torrents)[t].peers|)
    {
      hide Disconnect;
      var i := 0;
      while i < |torrents[t].peers|
        invariant 0 <= i <= |old(torrents)[t].peers|
        invariant View() == DisconnectAll(old(View()), t, i)
        decreases |old(torrents)[t].peers| - i
      {
        DisconnectPeer(t, i);
        i := i + 1;
      }
    }

    // ----- add, stop, start, remove -------------------------------------------

    /** `torrent_mgr_add`. */
    method AddTorrent(meta: Metainfo, existing: Files) returns (index: int)
      requires Valid() && Addable(meta, existing)
      modifies this`torrents, this`nextGeneration, this`trace
      ensures Valid() && trace == old(trace) + [EvAdd(meta, existing)]
      ensures index == if |old(torrents)| >= MAX_TORRENTS then -1 else |old(torrents)|
    {
      ghost var before := View();
      if |torrents| >= MAX_TORRENTS {
        index := -1;
      } else {
        index := |torrents|;
        var mt := Managed(nextGeneration, STOPPED, meta, None, 0, false, existing, [], 0, [], 0, 0);
        nextGeneration := nextGeneration + 1;
        torrents := torrents + [mt];
      }
      Record(before, EvAdd(meta, existing));
    }

    /** The body of torrent_mgr_stop. */
    method StopRun(t: nat)
      requires t < |torrents|
      modifies this`torrents, this`assemblyBytes, this`open, this`nextGeneration
      ensures View() == Stop(old(View()), t)
    {
      hide DisconnectAll;
      torrents := torrents[t := torrents[t].(state := STOPPED)];
      torrents := torrents[t := torrents[t].(generation := nextGeneration)];
      nextGeneration := nextGeneration + 1;
      assert View() == Retire(old(View()), t);
      DisconnectPeers(t);
      torrents := torrents[t := torrents[t].(peers := [], active := 0, candidates := [], nextCandidate := 0)];
    }

    /** `torrent_mgr_stop`. */
    method StopTorrent(index: int)
      requires Valid()
      modifies this`torrents, this`assemblyBytes, this`open, this`nextGeneration, this`trace
      ensures Valid()
      ensures trace == old(trace) + if 0 <= index < |old(torrents)| then [EvStop(index)] else []
    {
      hide Stop;
      if index < 0 || index >= |torrents| {
        return;
      }
      ghost var before := View();
      StopRun(index);
      Record(before, EvStop(index));
    }

    /** `torrent_mgr_start`. `outcome` says whether the system provides directories, memory
        and output file. */
    method StartTorrent(index: int, outcome: StartOutcome) returns (rc: int)
      requires Valid()
      modifies this`torrents, this`assemblyBytes, this`open, this`nextGeneration, this`nextTable, this`trace
      ensures Valid()
      ensures !(0 <= index < |old(torrents)|) ==> rc == -1 && trace == old(trace)
      ensures 0 <= index < |old(torrents)| ==>
                |torrents| == |old(torrents)| && (rc == 0 <==> torrents[index].state in {DOWNLOADING, DONE})
      ensures 0 <= index < |old(torrents)| ==> trace == old(trace) + [EvStart(index, outcome)]
    {
      hide Apply, Inv, Run, Stop, Disconnect, InitialTable, FileIo.InitialFiles;
      if index < 0 || index >= |torrents| {
        return -1;
      }
      ghost var before := View();
      StartStep(before, index, outcome);
      if torrents[index].state == DOWNLOADING || torrents[index].state == DONE {
        Record(before, EvStart(index, outcome));
        return 0;
      }
      if torrents[index].table.Some? || torrents[index].hasWriter {
        StopRun(index);
        torrents := torrents[index := torrents[index].(table := None, hasWriter := false)];
      }
      assert View() == ResetForStart(before, index);
      rc := LaunchTorrent(index, outcome);
      Record(before, EvStart(index, outcome));
    }

    /** The part of torrent_mgr_start behind the reset. */
    method LaunchTorrent(t: nat, outcome: StartOutcome) returns (rc: int)
      requires t < |torrents|
      modifies this`torrents, this`nextTable
      ensures View() == Launch(old(View()), t, outcome)
      ensures rc == if outcome.Started? && !WithoutPieces(old(torrents)[t].meta) then 0 else -1
    {
      hide InitialTable, FileIo.InitialFiles;
      var mt := torrents[t].(downloaded := 0);
      if outcome == DirectoryFails {
        torrents := torrents[t := mt.(state := ERROR)];
        return -1;
      }
      if mt.meta.NumPieces() == 0 {
        torrents := torrents[t := mt.(state := ERROR)];
        return -1;
      }
      if outcome == NoMemory {
        torrents := torrents[t := mt.(table := None, state := ERROR)];
        return -1;
      }
      mt := mt.(table := Some(InitialTable(mt.meta)), tableId := nextTable);
      nextTable := nextTable + 1;
      if outcome == WriterFails {
        torrents := torrents[t := mt.(state := ERROR)];
        return -1;
      }
      mt := mt.(hasWriter := true, files := FileIo.InitialFiles(mt.meta, mt.files), state := DOWNLOADING);
      torrents := torrents[t := mt];
      rc := 0;
    }

    /** The loop that closes the gap after a removal. */
    method ShiftDown(index: nat)
      requires index < |torrents|
      modifies this`torrents
      ensures torrents == old(torrents)[..index] + old(torrents)[index + 1..]
    {
      ghost var full := torrents;
      var i := index;
      while i < |torrents| - 1
        invariant index <= i <= |torrents| - 1 && |torrents| == |full|
        invariant forall k :: 0 <= k < |full| ==> torrents[k] == full[if index <= k < i then k + 1 else k]
      {
        torrents := torrents[i := torrents[i + 1]];
        i := i + 1;
      }
      torrents := torrents[..|torrents| - 1];
    }

    /** `torrent_mgr_remove`: stop, destroy, shift the rest down. */
    method RemoveTorrent(index: int)
      requires Valid()
      modifies this`torrents, this`assemblyBytes, this`open, this`nextGeneration, this`trace
      ensures Valid()
      ensures trace == old(trace) + if 0 <= index < |old(torrents)| then [EvRemove(index)] else []
    {
      hide Stop, DisconnectAll;
      if index < 0 || index >= |torrents| {
        return;
      }
      ghost var before := View();
      StopRun(index);
      torrents := torrents[index := torrents[index].(table := None, hasWriter := false)];
      assert View() == DestroyTable(Stop(before, index), index);
      ShiftDown(index);
      assert View() == Remove(before, index);
      Record(before, EvRemove(index));
    }

    // ----- worker threads -----------------------------------------------------

    /** No collecting loop is in the middle of a discovery job other than that in slot `except`. */
    ghost predicate SettledBut(except: int)
      reads this
    {
      forall j :: 0 <= j < |disc| && j != except && disc[j].Some? ==> disc[j].value.phase == Idle
    }

    ghost predicate Settled()
      reads this
    {
      SettledBut(-1)
    }

    /** Slot by slot, the discovery jobs and where the main thread stands with them. */
    twostate predicate SamePhases()
      reads this
    {
      && |disc| == |old(disc)|
      && forall j :: 0 <= j < |disc| ==>
           && (disc[j].Some? <==> old(disc)[j].Some?)
           && (disc[j].Some? ==> disc[j].value.phase == old(disc)[j].value.phase
                                 && disc[j].value.generation == old(disc)[j].value.generation)
    }

    /** The loops of publish_candidates over the addresses and over the queue. */
    method Enqueue(queue0: seq<Addr>, peers: seq<Addr>) returns (queue: seq<Addr>)
      ensures queue == Publish(queue0, peers)
      ensures Enqueued(queue0, peers, queue)
      ensures Distinct(queue0) ==> Distinct(queue)
    {
      hide Enqueued, Distinct;
      queue := queue0;
      var i := 0;
      while i < |peers| && |queue| < MAX_TRACKER_PEERS
        invariant 0 <= i <= |peers|
        invariant Publish(queue, peers[i..]) == Publish(queue0, peers)
        decreases |peers| - i
      {
        var duplicate := false;
        var q := 0;
        while q < |queue|
          invariant 0 <= q <= |queue| && duplicate == (peers[i] in queue[..q])
        {
          if queue[q] == peers[i] {
            duplicate := true;
            assert peers[i] in queue;
            break;
          }
          q := q + 1;
        }
        assert duplicate <==> peers[i] in queue;
        assert peers[i..][1..] == peers[i + 1..];
        if !duplicate {
          queue := queue + [peers[i]];
        }
        i := i + 1;
      }
      PublishIs(queue0, peers);
      if Distinct(queue0) {
        EnqueuedDistinct(queue0, peers, queue);
      }
    }

    /** `publish_candidates`, called by a discovery worker under the queue lock. */
    method PublishCandidates(j: nat, peers: seq<Addr>)
      requires Valid() && HasJob(disc, j) && !disc[j].value.done
      modifies this`disc, this`trace
      ensures Valid() && trace == old(trace) + [EvDiscPublishes(j, peers)] && SamePhases()
    {
      hide Run, Publish;
      ghost var before := View();
      var job := disc[j].value;
      var queue := Enqueue(job.queue, peers);
      disc := disc[j := Some(job.(queue := queue, accepted := job.accepted + queue[|job.queue|..]))];
      Record(before, EvDiscPublishes(j, peers));
    }

    /** A web-seed worker hands in its bytes and its verdict. */
    method WebWorkerStep(j: nat, ok: bool, data: seq<byte>)
      requires Valid()
      modifies this`web, this`trace
      ensures Valid() && trace == old(trace) + [EvWebWorker(j, ok, data)] && |web| == |old(web)|
    {
      hide Run;
      ghost var before := View();
      if HasJob(web, j) && !web[j].value.done && |data| == |web[j].value.data| {
        web := web[j := Some(web[j].value.(ok := ok, data := data, done := true))];
      }
      Record(before, EvWebWorker(j, ok, data));
    }

    /** `connect_candidate` opens a socket, and later succeeds or fails. */
    method ConnWorkerStep(kind: nat, j: nat, sock: nat) returns (ghost e: Event)
      requires Valid()
      modifies this`conn, this`open, this`trace
      ensures Valid() && IsWorker(e) && trace == old(trace) + [e] && |conn| == |old(conn)|
    {
      hide Run, Apply, Inv;
      ConnWorkerSteps(View(), j, sock);
      ghost var before := View();
      e := EvConnOpens(j, sock);
      if kind == 1 {
        if HasJob(conn, j) && !conn[j].value.done && conn[j].value.sock.None? && sock !in open {
          conn, open := conn[j := Some(conn[j].value.(sock := Some(sock)))], open + {sock};
        }
      } else if kind == 2 {
        e := EvConnSucceeds(j);
        if HasJob(conn, j) && !conn[j].value.done && conn[j].value.sock.Some? {
          conn := conn[j := Some(conn[j].value.(done := true))];
        }
      } else {
        e := EvConnFails(j);
        if HasJob(conn, j) && !conn[j].value.done {
          conn, open := conn[j := Some(conn[j].value.(sock := None, done := true))],
                        CloseJobSocket(open, conn[j].value.sock);
        }
      }
      Record(before, e);
    }

    /** A discovery worker sets `done` as its last access to the job. */
    method DiscWorkerEnds(j: nat)
      requires Valid()
      modifies this`disc, this`trace
      ensures Valid() && trace == old(trace) + [EvDiscFinishes(j)] && SamePhases()
    {
      hide Run;
      ghost var before := View();
      if HasJob(disc, j) {
        disc := disc[j := Some(disc[j].value.(done := true))];
      }
      Record(before, EvDiscFinishes(j));
    }

    /** One atomic step of some worker thread. */
    method WorkerStep() returns (ghost e: Event)
      requires Valid()
      modifies this`web, this`conn, this`disc, this`open, this`trace
      ensures Valid() && IsWorker(e) && trace == old(trace) + [e]
      ensures |web| == |old(web)| && |conn| == |old(conn)| && SamePhases()
    {
      hide Run;
      var kind: nat, j: nat, sock: nat, ok: bool := *, *, *, *;
      var data: seq<byte>, peers: seq<Addr> := *, *;
      if kind == 0 {
        WebWorkerStep(j, ok, data);
        e := EvWebWorker(j, ok, data);
      } else if kind <= 3 {
        e := ConnWorkerStep(kind, j, sock);
      } else if kind == 4 && HasJob(disc, j) && !disc[j].value.done {
        PublishCandidates(j, peers);
        e := EvDiscPublishes(j, peers);
      } else {
        DiscWorkerEnds(j);
        e := EvDiscFinishes(j);
      }
    }

    /** The workers may take any number of steps between two steps of the main thread. */
    method Workers() returns (ghost steps: seq<Event>)
      requires Valid()
      modifies this`web, this`conn, this`disc, this`open, this`trace
      ensures Valid() && trace == old(trace) + steps && Main(steps) == []
      ensures |web| == |old(web)| && |conn| == |old(conn)| && SamePhases()
    {
      steps := [];
      var n: nat := *;
      var i := 0;
      while i < n
        invariant Valid() && trace == old(trace) + steps && Main(steps) == []
        invariant |web| == |old(web)| && |conn| == |old(conn)| && SamePhases()
      {
        var e := WorkerStep();
        assert (steps + [e])[..|steps|] == steps;
        steps := steps + [e];
        i := i + 1;
      }
    }

    // ----- collect_web_seed ---------------------------------------------------

    /** `file_writer_write_piece` on the files of torrent t. */
    method WriteToFiles(t: nat, data: seq<byte>, index: nat, up: bool) returns (o: WriteOutcome)
      requires t < |torrents| && Admissible(torrents[t].meta, torrents[t].files)
      requires index < torrents[t].meta.NumPieces() && |data| == torrents[t].meta.PieceSize(index)
      ensures WriteEffect(torrents[t].meta.OutputLengths(), torrents[t].files, torrents[t].meta.PieceStart(index),
                          data, o.files, o.ok)
      ensures up ==> o.ok
    {
      var writer := new FileIo.FileWriter.Resume(torrents[t].meta, torrents[t].files, !torrents[t].meta.multiFile);
      var ok, _ := writer.WritePiece(data, index, up);
      o := WriteOutcome(writer.files, ok);
    }

    /** One turn of the loop over a fetched batch. */
    method SavePiece(t: nat, index: nat, data: seq<byte>, up: bool) returns (ok: bool, stored: bool, ghost o: WriteOutcome)
      requires t < |torrents| && TorrentOk(torrents[t]) && TableShape(torrents[t])
      requires index < torrents[t].meta.NumPieces() ==> |data| == torrents[t].meta.PieceSize(index)
      modifies this`torrents
      ensures torrents == old(torrents)[t := SaveOne(old(torrents)[t], index, data, o).0]
      ensures ok == SaveOne(old(torrents)[t], index, data, o).1
      ensures stored == var states := old(torrents)[t].table.value.states;
                        ok && index < |states| && states[index] != COMPLETE
      ensures up && HashMatches(old(torrents)[t].meta, index, data) ==> ok
    {
      hide Sha1Spec.Digest, WriteEffect, DiskOk, PeersOk;
      var mt := torrents[t];
      var table := mt.table.value;
      o := WriteOutcome(mt.files, false);
      if index >= |table.states| || table.states[index] == COMPLETE {
        return true, false, o;
      }
      var hash := Sha1.Sha1Hash(data);
      if hash != mt.meta.pieces[index * SHA1_DIGEST_SIZE..index * SHA1_DIGEST_SIZE + SHA1_DIGEST_SIZE] {
        torrents := torrents[t := mt.(table := Some(table.SetState(index, FREE)))];
        return false, false, o;
      }
      var written := WriteToFiles(t, data, index, up);
      o := written;
      mt := mt.(files := written.files);
      if !written.ok {
        torrents := torrents[t := mt.(table := Some(table.SetState(index, FREE)))];
        return false, false, o;
      }
      var (table', completed) := table.Complete(index, data);
      if !completed {
        assert false;
      }
      torrents := torrents[t := mt.(table := Some(table'), downloaded := mt.downloaded + |data|)];
      ok, stored := true, true;
    }

    /** The loop that frees the pieces of a batch from number `from` on. */
    method FreeBatch(t: nat, first: nat, from: nat, n: nat)
      requires t < |torrents| && torrents[t].table.Some? && from <= n
      modifies this`torrents
      ensures torrents == old(torrents)[t := old(torrents)[t].(table :=
                Some(ReleaseRange(old(torrents)[t].table.value, first + from, n - from)))]
    {
      var table := torrents[t].table.value;
      var states := table.states;
      var piece := from;
      while piece < n
        invariant from <= piece <= n && |states| == |table.states|
        invariant forall i :: 0 <= i < |states| ==>
                    states[i] == if first + from <= i < first + piece && table.states[i] != COMPLETE then FREE
                                 else table.states[i]
      {
        var index := first + piece;
        if index < |states| && states[index] != COMPLETE {
          states := states[index := FREE];
        }
        piece := piece + 1;
      }
      assert states == ReleaseRange(table, first + from, n - from).states;
      torrents := torrents[t := torrents[t].(table := Some(table.(states := states)))];
    }

    /** One turn of the loop over a fetched batch; the pieces before it are complete. */
    method SaveTurn(t: nat, job: WebJob, piece: nat, offset: int, up: bool, ghost mt0: Managed,
                    ghost web': seq<Option<WebJob>>, ghost writes: seq<WriteOutcome>)
      returns (ok: bool, stored: bool, ghost o: WriteOutcome)
      requires t < |torrents| && TableShape(mt0) && WebJobShape(job) && WebJobOk(mt0, job)
      requires RunOkExcept(mt0, web', conn, job.first, job.first + |job.sizes|)
      requires |writes| == piece < |job.sizes| && offset == Sum(job.sizes[..piece])
      requires SaveBatch(mt0, job, writes, piece) == (torrents[t], true)
      modifies this`torrents
      ensures |torrents| == |old(torrents)| && torrents == old(torrents)[t := torrents[t]]
      ensures SaveBatch(mt0, job, writes + [o], piece + 1) == (torrents[t], ok)
      ensures up && !ok ==> !HashMatches(mt0.meta, job.first + piece, BatchPiece(job, piece))
      ensures torrents[t].table.Some?
      ensures forall i :: job.first <= i < job.first + piece && i < |torrents[t].table.value.states| ==>
                torrents[t].table.value.states[i] == COMPLETE
    {
      hide SaveOne, SaveBatch, RunOkExcept, TorrentOk, WebJobOk, BatchPiece;
      ghost var m, index := torrents[t], job.first + piece;
      SaveBatchOk(mt0, web', conn, job, writes, piece);
      ExceptParts(m, web', conn, job);
      BatchInside(mt0, job);
      BatchPieceIs(job, piece);
      ok, stored, o := SavePiece(t, job.first + piece, job.data[offset..offset + job.sizes[piece]], up);
      SaveBatchStep(mt0, job, writes, o, piece);
      SaveOneOk(m, web', conn, job.first, job.first + |job.sizes|, index, BatchPiece(job, piece), o);
    }

    /** Verifying and saving a fetched batch. `saved` pieces have been finished in a row. */
    method SaveFetched(t: nat, job: WebJob, up: bool, ghost j: nat)
      returns (ghost writes: seq<WriteOutcome>, saved: nat, failed: bool)
      requires Inv(View()) && t < |torrents| && torrents[t].state == DOWNLOADING
      requires MyWeb(web, j, torrents[t].generation) && web[j].value == job
      modifies this`torrents
      ensures old(TableShape(torrents[t])) && WebJobShape(job) && saved <= |job.sizes|
      ensures var r := SaveBatch(old(torrents)[t], job, writes, |job.sizes|);
              torrents == old(torrents)[t := r.0] && failed == !r.1
      ensures up && failed ==> exists k :: 0 <= k < |job.sizes| && FailsAt(old(torrents)[t], job, writes, k)
      ensures torrents[t].table.Some?
      ensures forall i :: job.first <= i < job.first + saved && i < |torrents[t].table.value.states| ==>
                torrents[t].table.value.states[i] == COMPLETE
    {
      hide Inv, SaveOne, SaveBatch, RunOkExcept, RunOk, TorrentOk, WebJobOk, BatchPiece, HashMatches;
      ghost var mt0 := torrents[t];
      ghost var web' := web[j := None];
      RunOf(View(), t);
      LiveShape(View(), t);
      JobOf(View(), t, j);
      DroppedJob(mt0, web, conn, j);
      writes, saved, failed := [], 0, false;
      SaveNothing(mt0, job);
      var offset, piece := 0, 0;
      while piece < |job.sizes|
        invariant 0 <= saved <= piece <= |job.sizes| && |writes| == piece && |torrents| == |old(torrents)|
        invariant offset == Sum(job.sizes[..piece])
        invariant SaveBatch(mt0, job, writes, piece) == (torrents[t], true)
        invariant torrents == old(torrents)[t := torrents[t]]
        invariant !failed
      {
        var ok, stored, o := SaveTurn(t, job, piece, offset, up, mt0, web', writes);
        SaveBatchPrefix(mt0, job, writes, [o], piece);
        writes := writes + [o];
        if !ok {
          assert up ==> FailsAt(mt0, job, writes, piece);
          StaysFailed(mt0, job, writes, piece + 1, |job.sizes|);
          failed := true;
          return;
        }
        FileStartStep(job.sizes, piece);
        if stored {
          saved := saved + 1;
        }
        offset := offset + job.sizes[piece];
        piece := piece + 1;
      }
      SaveBatchOk(mt0, web', conn, job, writes, |job.sizes|);
    }

    /** One slot of collect_web_seed. */
    method CollectWebSlot(j: nat, up: bool) returns (ghost writes: seq<WriteOutcome>)
      requires Inv(View()) && j < |web|
      modifies this`torrents, this`web
      ensures View() == CollectWeb(old(View()), j, writes) && |web| == |old(web)|
      ensures BatchTaken(old(View()), View(), j, writes) && (up ==> BatchWrites(old(View()), j, writes))
    {
      hide BatchTaken, BatchWrites;
      ghost var before := View();
      writes := CollectJob(j, up);
      CollectWebIs(before, j, writes);
      if up {
        WritesOf(before, j, writes);
      }
    }

    /** The loop body of collect_web_seed. */
    method CollectJob(j: nat, up: bool) returns (ghost writes: seq<WriteOutcome>)
      requires Inv(View()) && j < |web|
      modifies this`torrents, this`web
      ensures View() == CollectWeb(old(View()), j, writes) && |web| == |old(web)|
      ensures up ==> FailsOnlyUnverified(old(View()), j, writes)
    {
      hide Inv, RunOk, TorrentOk, SaveBatch, WebJobOk, FailsAt, TableShape, WebJobShape;
      ghost var before := View();
      writes := [];
      if web[j].None? || !web[j].value.done {
        return;
      }
      var job := web[j].value;
      var live := FindLiveRun(job.generation);
      if live.Some? && job.first < torrents[live.value].meta.NumPieces() {
        var t := live.value;
        LiveShape(View(), t);
        JobOf(View(), t, j);
        if job.ok {
          ghost var mt := torrents[t];
          var saved, failed;
          writes, saved, failed := SaveFetched(t, job, up, j);
          if failed {
            ReleaseTail(torrents[t].table.value, job.first, saved, |job.sizes|);
            FreeBatch(t, job.first, saved, |job.sizes|);
          }
        } else {
          FreeBatch(t, job.first, 0, |job.sizes|);
        }
      } else if live.Some? {
        LiveShape(View(), live.value);
        JobOf(View(), live.value, j);
      }
      web := web[j := None];
      if up && job.ok {
        OnlyLiveFails(before, j, writes);
      }
    }

    /** A slot of collect_web_seed after whatever the workers have done meanwhile. */
    method CollectWebTurn(j: nat, up: bool) returns (ghost steps: seq<Event>, ghost writes: seq<WriteOutcome>)
      requires Valid() && j < |web|
      modifies this`torrents, this`web, this`conn, this`disc, this`open, this`trace
      ensures Valid() && trace == old(trace) + steps && Main(steps) == [EvCollectWeb(j, writes)]
      ensures View() == Run(old(View()), steps) && (up ==> WritesWork(old(View()), steps))
      ensures |web| == |old(web)| && SamePhases()
    {
      hide Inv, CollectWeb, Apply, Run, Main, BatchTaken, BatchWrites, WritesWork;
      ghost var start, trace0 := View(), trace;
      ghost var idle := Workers();
      RunAppend(INITIAL_WORLD, trace0, idle);
      ValidInv();
      ghost var before := View();
      writes := CollectWebSlot(j, up);
      CollectWebStep(before, j, writes);
      Record(before, EvCollectWeb(j, writes));
      RunMore(start, idle, EvCollectWeb(j, writes));
      if up {
        OneMoreBatch(start, idle, EvCollectWeb(j, writes));
      }
      MainNone();
      MainTurn([], idle, EvCollectWeb(j, writes));
      assert [] + idle == idle;
      steps := idle + [EvCollectWeb(j, writes)];
    }

    /** `collect_web_seed`: every slot in turn, with the workers running in between. */
    method CollectWebSeed(up: bool) returns (ghost steps: seq<Event>)
      requires Valid()
      modifies this`torrents, this`web, this`conn, this`disc, this`open, this`trace
      ensures Valid() && trace == old(trace) + steps && SamePhases()
      ensures |Main(steps)| == WEB_SEED_MAX_JOBS
      ensures forall k :: 0 <= k < WEB_SEED_MAX_JOBS ==> Main(steps)[k].EvCollectWeb? && Main(steps)[k].j == k
      ensures View() == Run(old(View()), steps) && (up ==> WritesWork(old(View()), steps))
    {
      hide Inv, Main, Run, WritesWork;
      ValidInv();
      SizesOf(View());
      steps := [];
      MainNone();
      RunNone(View());
      NoBatches(View());
      var j := 0;
      while j < |web|
        invariant 0 <= j <= |web| == WEB_SEED_MAX_JOBS && Valid() && trace == old(trace) + steps && SamePhases()
        invariant |Main(steps)| == j
        invariant forall k :: 0 <= k < j ==> Main(steps)[k].EvCollectWeb? && Main(steps)[k].j == k
        invariant View() == Run(old(View()), steps) && (up ==> WritesWork(old(View()), steps))
      {
        ghost var turn, writes := CollectWebTurn(j, up);
        MainAppend(steps, turn);
        RunAppend(old(View()), steps, turn);
        if up {
          MoreBatches(old(View()), steps, turn);
        }
        steps := steps + turn;
        j := j + 1;
      }
    }

    // ----- collect_discovery --------------------------------------------------

    /** Reads the worker's `done` flag. */
    method ReadDoneFlag(j: nat) returns (done: bool)
      requires Valid() && HasJob(disc, j) && disc[j].value.phase == Idle
      modifies this`disc, this`trace
      ensures Valid() && trace == old(trace) + [EvReadDone(j)]
      ensures disc == old(disc)[j := Some(old(disc)[j].value.(phase := DoneRead(done)))]
    {
      hide Run;
      ghost var before := View();
      done := disc[j].value.done;
      disc := disc[j := Some(disc[j].value.(phase := DoneRead(done)))];
      Record(before, EvReadDone(j));
    }

    /** Frees the job if the flag had been set. */
    method FreeIfDoneSeen(j: nat, done: bool)
      requires Valid() && HasJob(disc, j) && disc[j].value.phase == Drained(done)
      modifies this`disc, this`trace
      ensures Valid() && trace == old(trace) + [EvFreeIfDone(j)]
      ensures disc == old(disc)[j := if done then None else Some(old(disc)[j].value.(phase := Idle))]
    {
      hide Run;
      ghost var before := View();
      if done {
        disc := disc[j := None];
      } else {
        disc := disc[j := Some(disc[j].value.(phase := Idle))];
      }
      Record(before, EvFreeIfDone(j));
    }

    /** One job of collect_discovery. The worker may act before `done` is read,
        between that and the drain, and after the drain. */
    method CollectDiscoveryTurn(j: nat) returns (ghost steps: seq<Event>)
      requires Valid() && Settled() && j < |disc|
      modifies this`torrents, this`web, this`conn, this`disc, this`open, this`trace
      ensures Valid() && Settled() && trace == old(trace) + steps
      ensures Main(steps) == if old(disc)[j].None? then [] else [EvReadDone(j), EvDrain(j), EvFreeIfDone(j)]
      ensures |disc| == |old(disc)| && |web| == |old(web)| && |conn| == |old(conn)|
      ensures forall k :: 0 <= k < |disc| && k != j ==> (disc[k].Some? <==> old(disc)[k].Some?)
    {
      hide Run, Main, Inv, Apply;
      steps := [];
      MainNone();
      if disc[j].None? {
        return;
      }
      var done;
      ghost var drained;
      done, drained := ReadAndDrain(j);
      ghost var idle := Workers();
      assert SettledBut(j);
      FreeIfDoneSeen(j, done);
      steps := drained + idle + [EvFreeIfDone(j)];
      MainTurn(drained, idle, EvFreeIfDone(j));
    }

    /** The first half of the turn: `done` is read before the queue is drained. */
    method ReadAndDrain(j: nat) returns (done: bool, ghost steps: seq<Event>)
      requires Valid() && Settled() && HasJob(disc, j)
      modifies this`torrents, this`web, this`conn, this`disc, this`open, this`trace
      ensures Valid() && SettledBut(j) && trace == old(trace) + steps && Main(steps) == [EvReadDone(j), EvDrain(j)]
      ensures HasJob(disc, j) && disc[j].value.phase == Drained(done)
      ensures |disc| == |old(disc)| && |web| == |old(web)| && |conn| == |old(conn)|
      ensures forall k :: 0 <= k < |disc| ==> (disc[k].Some? <==> old(disc)[k].Some?)
    {
      hide Run, Main, Inv, Apply;
      ghost var idle0 := Workers();
      done := ReadDoneFlag(j);
      assert SettledBut(j);
      ghost var idle1 := Workers();
      assert SettledBut(j);
      DrainQueue(j);
      assert SettledBut(j);
      steps := idle0 + [EvReadDone(j)] + idle1 + [EvDrain(j)];
      MainNone();
      MainTurn([], idle0, EvReadDone(j));
      assert [] + idle0 + [EvReadDone(j)] == idle0 + [EvReadDone(j)];
      MainTurn(idle0 + [EvReadDone(j)], idle1, EvDrain(j));
    }

    /** The drain under the queue lock, and add_candidate for every address if the run is live. */
    method DrainQueue(j: nat)
      requires Valid() && HasJob(disc, j) && disc[j].value.phase.DoneRead?
      modifies this`torrents, this`disc, this`trace
      ensures Valid() && trace == old(trace) + [EvDrain(j)]
      ensures |disc| == |old(disc)| && disc == old(disc)[j := disc[j]]
      ensures disc[j].Some? && disc[j].value.phase == Drained(old(disc)[j].value.phase.done)
    {
      hide Run, AddCandidate;
      ghost var before := View();
      var job := disc[j].value;
      var live := FindLiveRun(job.generation);
      var pending := job.queue;
      disc := disc[j := Some(job.(queue := [], drained := job.drained + pending, phase := Drained(job.phase.done)))];
      if live.Some? {
        var t := live.value;
        var i := 0;
        while i < |pending|
          invariant 0 <= i <= |pending|
          invariant torrents == before.torrents[t := AddCandidates(before.torrents[t], pending[..i])]
          invariant View() == before.(torrents := torrents, disc := disc) && trace == old(trace)
          invariant disc == old(disc)[j := Some(job.(queue := [], drained := job.drained + pending,
                                                     phase := Drained(job.phase.done)))]
        {
          AddCandidateTo(t, pending[i]);
          assert pending[..i + 1][..i] == pending[..i];
          i := i + 1;
        }
        assert pending[..|pending|] == pending;
      }
      Record(before, EvDrain(j));
    }

    /** `collect_discovery`. */
    method CollectDiscovery() returns (ghost steps: seq<Event>)
      requires Valid() && Settled()
      modifies this`torrents, this`web, this`conn, this`disc, this`open, this`trace
      ensures Valid() && Settled() && trace == old(trace) + steps
      ensures Main(steps) == DiscoveryTurns(old(disc), |old(disc)|)
    {
      hide Main, Run;
      steps := [];
      MainNone();
      var j := 0;
      while j < |disc|
        invariant 0 <= j <= |disc| && |disc| == |old(disc)|
        invariant forall k :: j <= k < |disc| ==> (disc[k].Some? <==> old(disc)[k].Some?)
        invariant Valid() && Settled() && trace == old(trace) + steps
        invariant Main(steps) == DiscoveryTurns(old(disc), j)
      {
        ghost var turn := CollectDiscoveryTurn(j);
        MainAppend(steps, turn);
        steps := steps + turn;
        j := j + 1;
      }
    }

    // ----- collect_peer_connections -------------------------------------------

    /** The part of collect_peer_connections that gives a socket a peer slot. */
    method AdoptSocket(mt0: Managed, sock: nat, addr: Addr) returns (mt: Managed, taken: bool)
      ensures (mt, taken) == Adopt(mt0, sock, addr)
    {
      mt, taken := mt0, false;
      var connected := PeerIsConnected(mt, addr);
      if connected {
        return;
      }
      var slot := 0;
      while slot < |mt.peers| && mt.peers[slot].sock.Some?
        invariant 0 <= slot <= |mt.peers| && forall k :: 0 <= k < slot ==> mt.peers[k].sock.Some?
      {
        slot := slot + 1;
      }
      ClosedSlotIs(mt.peers, slot);
      var peer := EmptyPeer(sock, addr);
      if slot < |mt.peers| {
        mt := mt.(peers := mt.peers[slot := peer], active := mt.active + 1);
        taken := true;
      } else if |mt.peers| < MAX_PEERS_PER_TORRENT {
        mt := mt.(peers := mt.peers + [peer], active := mt.active + 1);
        taken := true;
      }
    }

    /** A finished connection of a live run: mark, account, take the socket over. */
    method SettleConnection(t: nat, job: ConnJob) returns (taken: bool)
      requires t < |torrents|
      modifies this`torrents
      ensures |torrents| == |old(torrents)| && torrents == old(torrents)[t := torrents[t]]
      ensures (torrents[t], taken) == CollectConnInto(old(torrents)[t], job)
    {
      var mt := torrents[t];
      var c := FindCandidateIndex(mt, job.addr);
      if c < |mt.candidates| {
        mt := mt.(candidates := mt.candidates[c := mt.candidates[c].(connecting := false)]);
      }
      taken := false;
      if job.sock.None? {
        var f := FindCandidateIndex(mt, job.addr);
        if f < |mt.candidates| {
          var failures := mt.candidates[f].failures;
          mt := mt.(candidates := mt.candidates[f := mt.candidates[f].(failures :=
                  if failures < 5 then failures + 1 else failures)]);
        }
      } else {
        mt, taken := AdoptSocket(mt, job.sock.value, job.addr);
      }
      torrents := torrents[t := mt];
    }

    /** One slot of collect_peer_connections. */
    method CollectConnSlot(j: nat)
      requires j < |conn|
      modifies this`torrents, this`conn, this`open
      ensures View() == CollectConn(old(View()), j) && |conn| == |old(conn)|
    {
      hide CollectConnInto;
      if conn[j].None? || !conn[j].value.done {
        return;
      }
      var job := conn[j].value;
      var live := FindLiveRun(job.generation);
      var taken := false;
      if live.Some? {
        taken := SettleConnection(live.value, job);
      }
      if !taken && job.sock.Some? {
        open := open - {job.sock.value};
      }
      conn := conn[j := None];
    }

    /** One turn of collect_peer_connections, with what the workers do before it. */
    method CollectConnTurn(j: nat) returns (ghost steps: seq<Event>)
      requires Valid() && j < |conn|
      modifies this`torrents, this`web, this`conn, this`disc, this`open, this`trace
      ensures Valid() && trace == old(trace) + steps && Main(steps) == [EvCollectConn(j)]
      ensures |conn| == |old(conn)| && SamePhases()
    {
      hide Inv, CollectConn, Apply, Run, Main;
      ghost var idle := Workers();
      ghost var before := View();
      CollectConnSlot(j);
      CollectConnStep(before, j);
      Record(before, EvCollectConn(j));
      MainNone();
      MainTurn([], idle, EvCollectConn(j));
      assert [] + idle == idle;
      steps := idle + [EvCollectConn(j)];
    }

    /** `collect_peer_connections`. */
    method CollectPeerConnections() returns (ghost steps: seq<Event>)
      requires Valid() && Settled()
      modifies this`torrents, this`web, this`conn, this`disc, this`open, this`trace
      ensures Valid() && Settled() && trace == old(trace) + steps
      ensures |Main(steps)| == PEER_CONNECT_MAX_JOBS
      ensures forall k :: 0 <= k < PEER_CONNECT_MAX_JOBS ==> Main(steps)[k] == EvCollectConn(k)
    {
      hide Inv, Run, Apply, Main;
      ValidInv();
      SizesOf(View());
      steps := [];
      MainNone();
      var j := 0;
      while j < |conn|
        invariant 0 <= j <= |conn| == PEER_CONNECT_MAX_JOBS && Valid() && trace == old(trace) + steps && SamePhases()
        invariant |Main(steps)| == j && forall k :: 0 <= k < j ==> Main(steps)[k] == EvCollectConn(k)
      {
        ghost var turn := CollectConnTurn(j);
        MainAppend(steps, turn);
        steps := steps + turn;
        j := j + 1;
      }
    }

    // ----- process_peer -------------------------------------------------------

    /** Every torrent but t is as it was. */
    twostate predicate OnlyTorrent(t: nat)
      reads this
    {
      && |torrents| == |old(torrents)|
      && forall u :: 0 <= u < |torrents| && u != t ==> torrents[u] == old(torrents)[u]
    }

    /** A piece that is verified and written: mark it, count it, trust its sender again. */
    method AccountPiece(t: nat, p: nat, files: Files)
      requires PeerActive(View(), t, p) && torrents[t].peers[p].assembly.Some? && TableShape(torrents[t])
      requires var mt, a := torrents[t], torrents[t].peers[p].assembly.value;
               a.index < mt.meta.NumPieces() == |mt.table.value.hashes| && mt.table.value.Complete(a.index, a.buffer).1
      modifies this`torrents, this`assemblyBytes
      ensures var mt, a := old(torrents)[t], old(torrents)[t].peers[p].assembly.value;
              var m := StorePiece(mt, a.index, |a.buffer|, files);
              View() == ReleasePiece(SetTorrent(old(View()), t,
                                     m.(candidates := ClearFailures(m.candidates, mt.peers[p].addr))), t, p)
      ensures HasPeer(View(), t, p) && torrents[t].peers[p].sock == old(torrents)[t].peers[p].sock
      ensures torrents[t].state == DOWNLOADING
    {
      hide Sha1Spec.Digest, ReleasePiece, SetBit;
      var mt := torrents[t];
      var a := mt.peers[p].assembly.value;
      var (table', _) := mt.table.value.Complete(a.index, a.buffer);
      mt := mt.(files := files, table := Some(table'), downloaded := mt.downloaded + |a.buffer|);
      var c := FindCandidateIndex(mt, mt.peers[p].addr);
      if c < |mt.candidates| {
        mt := mt.(candidates := mt.candidates[c := mt.candidates[c].(failures := 0)]);
      }
      torrents := torrents[t := mt];
      ReleasePieceOf(t, p);
    }

    /** The last block of a piece has arrived: hash, write, account. */
    method FinishAssembled(t: nat, p: nat, up: bool) returns (closed: bool, ghost o: WriteOutcome)
      requires PeerActive(View(), t, p) && torrents[t].peers[p].assembly.Some?
      requires Admissible(torrents[t].meta, torrents[t].files) && TableOk(torrents[t]) && torrents[t].table.Some?
      requires var a := torrents[t].peers[p].assembly.value;
               a.index < torrents[t].meta.NumPieces() && |a.buffer| == torrents[t].meta.PieceSize(a.index)
      modifies this`torrents, this`assemblyBytes, this`open
      ensures View() == FinishPiece(old(View()), t, p, o)
      ensures PieceOutcome(old(View()), View(), t, p, old(torrents)[t].peers[p].assembly.value.buffer, o)
      ensures var mt, a := old(torrents)[t], old(torrents)[t].peers[p].assembly.value;
              HashMatches(mt.meta, a.index, a.buffer) ==>
                && WriteEffect(mt.meta.OutputLengths(), mt.files, mt.meta.PieceStart(a.index), a.buffer, o.files, o.ok)
                && (up ==> o.ok) && (closed <==> !o.ok)
      ensures HasPeer(View(), t, p) && (closed <==> torrents[t].peers[p].sock.None?)
      ensures up ==> Downloading(View(), t)
    {
      hide Sha1Spec.Digest, WriteEffect, Disconnect, ReleasePiece, Admissible, SumComplete, PieceTable.Consistent, Inv;
      hide PieceOutcome;
      FinishOutcomes(View(), t, p);
      var mt := torrents[t];
      var a := mt.peers[p].assembly.value;
      o := WriteOutcome(mt.files, false);
      var hash := Sha1.Sha1Hash(a.buffer);
      if hash != mt.meta.pieces[a.index * SHA1_DIGEST_SIZE..a.index * SHA1_DIGEST_SIZE + SHA1_DIGEST_SIZE] {
        DisconnectPeer(t, p);
        return true, o;
      }
      var written := WriteToFiles(t, a.buffer, a.index, up);
      o := written;
      mt := mt.(files := written.files);
      if !written.ok {
        torrents := torrents[t := mt.(state := ERROR)];
        DisconnectPeer(t, p);
        return true, o;
      }
      AccountPiece(t, p, written.files);
      closed := false;
    }

    /** A PIECE message. */
    method HandlePiece(t: nat, p: nat, msg: Message, up: bool) returns (closed: bool, ghost o: WriteOutcome)
      requires Inv(View()) && PeerActive(View(), t, p) && msg.Piece?
      modifies this`torrents, this`assemblyBytes, this`open
      ensures View() == Receive(old(View()), t, p, msg, o)
      ensures closed ==> HasPeer(View(), t, p) && torrents[t].peers[p].sock.None?
      ensures up ==> Downloading(View(), t)
    {
      hide Inv, Disconnect, FinishPiece, AssemblyOk, RunOk, TableOk, Admissible, PeerOk;
      var mt := torrents[t];
      var peer := mt.peers[p];
      closed, o := false, WriteOutcome(mt.files, false);
      if peer.assembly.None? || peer.pending == 0 {
        return;
      }
      var a := peer.assembly.value;
      BufferOf(View(), t, p);
      if msg.index != a.index || msg.begin != a.received {
        return;
      }
      if |msg.block| != peer.pending || |msg.block| > |a.buffer| - a.received {
        DisconnectPeer(t, p);
        closed := true;
        return;
      }
      var buffer := a.buffer[..a.received] + msg.block + a.buffer[a.received + |msg.block|..];
      var a' := Assembly(a.index, buffer, a.received + |msg.block|, a.blocks + [msg.block]);
      TableOf(View(), t, p);
      torrents := torrents[t := mt.(peers := mt.peers[p := peer.(assembly := Some(a'), pending := 0)])];
      if a'.received == |a'.buffer| {
        closed, o := FinishAssembled(t, p, up);
      }
    }

    /** A BITFIELD or HAVE message. */
    method HandleAvailability(t: nat, p: nat, msg: Message, hasMemory: bool) returns (closed: bool)
      requires PeerActive(View(), t, p) && (msg.BitfieldMsg? || msg.Have?)
      modifies this`torrents, this`assemblyBytes, this`open
      ensures View() == Learn(old(View()), t, p, msg, hasMemory)
      ensures closed ==> HasPeer(View(), t, p) && torrents[t].peers[p].sock.None?
      ensures Downloading(View(), t)
    {
      hide Disconnect;
      var mt := torrents[t];
      var peer := mt.peers[p];
      var needed := (mt.meta.NumPieces() + 7) / 8;
      if (msg.BitfieldMsg? && |msg.bits| != needed) || (msg.Have? && msg.index >= mt.meta.NumPieces()) {
        DisconnectPeer(t, p);
        return true;
      }
      var bits := Zeros(needed);
      if peer.have.None? {
        if !hasMemory {
          DisconnectPeer(t, p);
          return true;
        }
      } else {
        bits := peer.have.value;
      }
      if msg.BitfieldMsg? {
        bits := msg.bits;
      } else if msg.index / 8 < |bits| {
        bits := bits[msg.index / 8 := OrWeight(bits[msg.index / 8], msg.index)];
      }
      torrents := torrents[t := mt.(peers := mt.peers[p := peer.(have := Some(bits))])];
      closed := false;
    }

    /** One turn of the receive loop. */
    method HandleMessage(t: nat, p: nat, msg: Message, hasMemory: bool, up: bool)
      returns (closed: bool, ghost o: WriteOutcome)
      requires Inv(View()) && PeerActive(View(), t, p)
      modifies this`torrents, this`assemblyBytes, this`open
      ensures View() == Recv(old(View()), t, p, msg, hasMemory, o)
      ensures closed ==> HasPeer(View(), t, p) && torrents[t].peers[p].sock.None?
      ensures up ==> Downloading(View(), t)
    {
      hide Inv, Disconnect, Learn, Receive;
      var mt := torrents[t];
      var peer := mt.peers[p];
      closed, o := false, WriteOutcome(mt.files, false);
      match msg {
        case Invalid =>
          DisconnectPeer(t, p);
          closed := true;
        case Choke =>
          torrents := torrents[t := mt.(peers := mt.peers[p := peer.(choked := true, pending := 0)])];
        case Unchoke =>
          torrents := torrents[t := mt.(peers := mt.peers[p := peer.(choked := false)])];
        case BitfieldMsg(_) =>
          closed := HandleAvailability(t, p, msg, hasMemory);
        case Have(_) =>
          closed := HandleAvailability(t, p, msg, hasMemory);
        case Piece(_, _, _) =>
          closed, o := HandlePiece(t, p, msg, up);
        case Other =>
      }
    }

    /** Sends the request for the next block of an assembly; `sent` is the verdict of
        peer_send_request. */
    method SendBlockRequest(t: nat, p: nat, sent: bool)
      requires PeerActive(View(), t, p) && torrents[t].peers[p].assembly.Some?
      requires torrents[t].peers[p].assembly.value.received <= |torrents[t].peers[p].assembly.value.buffer|
      modifies this`torrents, this`assemblyBytes, this`open
      ensures View() == SendRequest(old(View()), t, p, sent)
    {
      hide Disconnect;
      var mt := torrents[t];
      var a := mt.peers[p].assembly.value;
      var remaining := |a.buffer| - a.received;
      var length := if remaining > PEER_BLOCK_SIZE then PEER_BLOCK_SIZE else remaining;
      if !sent {
        DisconnectPeer(t, p);
      } else {
        torrents := torrents[t := mt.(peers := mt.peers[p := mt.peers[p].(pending := length)])];
      }
    }

    /** The sending half of process_peer; `memory` is the block malloc returns. */
    method SendNext(t: nat, p: nat, s: Surroundings) returns (ghost memory: Option<seq<byte>>)
      requires Inv(View()) && PeerActive(View(), t, p)
      modifies this`torrents, this`assemblyBytes, this`open
      ensures View() == Request(old(View()), t, p, memory, s.sends(t, p))
      ensures IsRequest(old(View()), EvRequest(t, p, memory, s.sends(t, p)), t, p, s)
    {
      hide Inv, Disconnect, AssemblyOk, SendRequest, PeerOk, Admissible;
      var mt := torrents[t];
      var peer := mt.peers[p];
      memory := None;
      PeerOf(View(), t, p);
      if peer.choked || peer.pending > 0 || peer.have.None? {
        return;
      }
      if peer.assembly.Some? {
        ReceivedOf(View(), t, p);
        SendBlockRequest(t, p, s.sends(t, p));
        return;
      }
      var next := mt.table.value.GetNext(peer.have);
      if next < 0 {
        return;
      }
      var size := mt.meta.pieceLength;
      if next == mt.meta.NumPieces() - 1 {
        size := mt.meta.totalSize - next * mt.meta.pieceLength;
      }
      memory := s.malloc(Max(0, size));
      if size > ASSEMBLY_LIMIT {
        torrents := torrents[t := mt.(state := ERROR)];
        return;
      }
      if size > ASSEMBLY_LIMIT - assemblyBytes {
        return;
      }
      var block := s.malloc(Max(0, size));
      if block.None? || |block.value| != size {
        DisconnectPeer(t, p);
        return;
      }
      TakePiece(t, p, next, block.value, s.sends(t, p));
    }

    /** The piece is reserved, and its first block asked for. */
    method TakePiece(t: nat, p: nat, next: nat, buffer: seq<byte>, sent: bool)
      requires PeerActive(View(), t, p) && torrents[t].table.Some?
      modifies this`torrents, this`assemblyBytes, this`open
      ensures View() == SendRequest(Reserve(old(View()), t, p, next, buffer), t, p, sent)
    {
      hide Disconnect, SendRequest;
      var mt := torrents[t];
      assemblyBytes := assemblyBytes + |buffer|;
      mt := mt.(peers := mt.peers[p := mt.peers[p].(assembly := Some(Assembly(next, buffer, 0, [])))],
                table := Some(mt.table.value.Request(next)));
      torrents := torrents[t := mt];
      assert View() == Reserve(old(View()), t, p, next, buffer);
      SendBlockRequest(t, p, sent);
    }

    /** The messages that wait, up to eight; the flag tells whether the peer was closed. */
    method ReceiveMessages(t: nat, p: nat, s: Surroundings) returns (closed: bool, ghost steps: seq<Event>)
      requires Valid() && PeerActive(View(), t, p)
      modifies this`torrents, this`assemblyBytes, this`open, this`trace
      ensures Valid() && trace == old(trace) + steps && OnlyTorrent(t) && View() == Run(old(View()), steps)
      ensures |torrents[t].peers| == |old(torrents)[t].peers|
      ensures Schedulable(old(View()), t) ==> Schedulable(View(), t)
      ensures |steps| <= 8 && |steps| <= |s.inbox(t, p)|
      ensures forall k :: 0 <= k < |steps| ==> IsReceipt(old(View()), steps, t, p, s, k)
      ensures |steps| == 8 || |steps| == |s.inbox(t, p)| || closed
      ensures closed <==> !PeerActive(View(), t, p)
    {
      hide Inv, Run, Recv, IsReceipt;
      closed, steps := false, [];
      var event := 0;
      RunNone(View());
      while event < 8 && !closed
        invariant 0 <= event <= 8 && Valid() && trace == old(trace) + steps && OnlyTorrent(t)
        invariant |steps| == event <= |s.inbox(t, p)| && |torrents[t].peers| == |old(torrents)[t].peers|
        invariant Schedulable(old(View()), t) ==> Schedulable(View(), t)
        invariant View() == Run(old(View()), steps)
        invariant forall k :: 0 <= k < |steps| ==> IsReceipt(old(View()), steps, t, p, s, k)
        invariant closed <==> !PeerActive(View(), t, p)
      {
        if event == |s.inbox(t, p)| {
          break;
        }
        ghost var e := ReceiveOne(t, p, s.inbox(t, p)[event], s);
        RunMore(old(View()), steps, e);
        OneMoreReceipt(old(View()), steps, e, t, p, s);
        closed := torrents[t].state != DOWNLOADING || torrents[t].peers[p].sock.None?;
        steps := steps + [e];
        event := event + 1;
      }
    }

    /** One turn of the receiving loop. */
    method ReceiveOne(t: nat, p: nat, msg: Message, s: Surroundings) returns (ghost e: Event)
      requires Valid() && PeerActive(View(), t, p)
      modifies this`torrents, this`assemblyBytes, this`open, this`trace
      ensures Valid() && trace == old(trace) + [e] && OnlyTorrent(t) && View() == Apply(old(View()), e)
      ensures |torrents[t].peers| == |old(torrents)[t].peers|
      ensures Schedulable(old(View()), t) ==> Schedulable(View(), t)
      ensures e.EvRecv? && e.t == t && e.p == p && e.msg == msg && e.hasMemory == s.bitfields
      ensures s.disk ==> Downloading(View(), t)
    {
      hide Inv, Run, Recv;
      ValidInv();
      ghost var before := View();
      ghost var closed, o;
      closed, o := HandleMessage(t, p, msg, s.bitfields, s.disk);
      e := EvRecv(t, p, msg, s.bitfields, o);
      RecvTouches(before, t, p, msg, s.bitfields, o);
      Record(before, e);
    }

    /** `process_peer`. */
    method ProcessPeer(t: nat, p: nat, s: Surroundings) returns (ghost steps: seq<Event>)
      requires Valid() && HasPeer(View(), t, p)
      modifies this`torrents, this`assemblyBytes, this`open, this`trace
      ensures Valid() && trace == old(trace) + steps && OnlyTorrent(t)
      ensures |torrents[t].peers| == |old(torrents)[t].peers|
      ensures Schedulable(old(View()), t) ==> Schedulable(View(), t)
      ensures View() == Run(old(View()), steps) && IsPeerTurn(old(View()), steps, t, p, s)
    {
      hide Inv, Run, Apply, Disconnect, IsReceipt, IsRequest;
      steps := [];
      RunNone(View());
      if torrents[t].peers[p].sock.None? || torrents[t].state != DOWNLOADING {
        return;
      }
      ghost var before := View();
      if s.late(t, p) {
        DisconnectPeer(t, p);
        DisconnectTouches(before, t, p);
        TimeOutStep(before, t, p);
        Record(before, EvTimeOut(t, p));
        RunOne(before, EvTimeOut(t, p));
        steps := [EvTimeOut(t, p)];
        return;
      }
      var closed;
      closed, steps := ReceiveMessages(t, p, s);
      ghost var received := |steps|;
      assert steps[..received] == steps;
      if !closed {
        ghost var e := AskNext(t, p, s);
        RunMore(before, steps, e);
        ReceiptsStay(before, steps, e, t, p, s);
        ghost var receives := steps;
        steps := steps + [e];
        assert steps[..received] == receives;
      }
      assert IsExchange(before, steps, t, p, s, received);
    }

    /** The request that ends a turn, as a recorded step. */
    method AskNext(t: nat, p: nat, s: Surroundings) returns (ghost e: Event)
      requires Valid() && PeerActive(View(), t, p)
      modifies this`torrents, this`assemblyBytes, this`open, this`trace
      ensures Valid() && trace == old(trace) + [e] && OnlyTorrent(t) && View() == Apply(old(View()), e)
      ensures |torrents[t].peers| == |old(torrents)[t].peers|
      ensures Schedulable(old(View()), t) ==> Schedulable(View(), t)
      ensures IsRequest(old(View()), e, t, p, s)
    {
      hide Inv, Run, Apply, Request, IsRequest;
      ValidInv();
      ghost var before := View();
      ghost var memory := SendNext(t, p, s);
      e := EvRequest(t, p, memory, s.sends(t, p));
      RequestTouches(before, t, p, memory, s.sends(t, p));
      RequestStep(before, t, p, memory, s.sends(t, p));
      Record(before, e);
    }

    // ----- scheduling ---------------------------------------------------------

    /** How many connection jobs this generation has in flight. */
    method CountPending(generation: nat) returns (pending: nat)
      ensures pending == ConnPending(conn, generation)
    {
      pending := 0;
      var j := 0;
      while j < |conn|
        invariant 0 <= j <= |conn| && pending == ConnPending(conn[..j], generation)
      {
        assert conn[..j + 1][..j] == conn[..j];
        if conn[j].Some? && conn[j].value.generation == generation {
          pending := pending + 1;
        }
        j := j + 1;
      }
      assert conn[..|conn|] == conn;
    }

    /** One candidate: skip it, give up for this tick, or start a worker. `ready` tells
        whether its retry time has come, `resources` whether a job and a thread can be had. */
    method TryCandidate(t: nat, pending: nat, ready: bool, resources: bool) returns (started: bool, stop: bool)
      requires Valid() && Schedulable(View(), t) && torrents[t].candidates != []
      requires pending == ConnPending(conn, torrents[t].generation) < PEER_CONNECT_PARALLEL
      requires torrents[t].active + pending < MAX_PEERS_PER_TORRENT
      modifies this`torrents, this`conn, this`trace
      ensures Valid() && trace == old(trace) + [EvScheduleConn(t, ready, resources)] && OnlyTorrent(t)
      ensures torrents[t].state == old(torrents)[t].state && torrents[t].table == old(torrents)[t].table
      ensures torrents[t].active == old(torrents)[t].active && torrents[t].generation == old(torrents)[t].generation
      ensures |torrents[t].candidates| == |old(torrents)[t].candidates|
      ensures |conn| == |old(conn)|
      ensures ConnPending(conn, torrents[t].generation) == pending + if started then 1 else 0
      ensures stop ==> !resources || FreeSlot(conn).None?
    {
      hide Run, Apply, Inv;
      ScheduleConnStep(View(), t, ready, resources);
      ghost var before := View();
      var mt := torrents[t];
      var index := mt.nextCandidate % |mt.candidates|;
      mt := mt.(nextCandidate := (mt.nextCandidate + 1) % |mt.candidates|);
      torrents := torrents[t := mt];
      var candidate := mt.candidates[index];
      var connected := PeerIsConnected(mt, candidate.addr);
      started, stop := false, false;
      ghost var e := EvScheduleConn(t, ready, resources);
      if candidate.connecting || !ready || connected {
        Record(before, e);
        return;
      }
      var slot := FindFreeConn();
      if slot.None? || !resources {
        stop := true;
        Record(before, e);
        return;
      }
      var job := ConnJob(mt.generation, candidate.addr, None, false);
      EngineFrames.ConnPendingUpdate(conn, slot.value, Some(job), mt.generation);
      conn := conn[slot.value := Some(job)];
      torrents := torrents[t := mt.(candidates := mt.candidates[index := candidate.(connecting := true)])];
      started := true;
      Record(before, e);
    }

    /** The first empty slot of the connection table. */
    method FindFreeConn() returns (slot: Option<nat>)
      ensures slot == FreeSlot(conn)
    {
      var j := 0;
      while j < |conn|
        invariant 0 <= j <= |conn| && forall k :: 0 <= k < j ==> conn[k].Some?
      {
        if conn[j].None? {
          return Some(j);
        }
        j := j + 1;
      }
      slot := None;
    }

    /** `schedule_peer_connections`. */
    method SchedulePeerConnections(t: nat, s: Surroundings) returns (ghost steps: seq<Event>)
      requires Valid() && Schedulable(View(), t)
      modifies this`torrents, this`conn, this`trace
      ensures Valid() && trace == old(trace) + steps && OnlyTorrent(t) && Schedulable(View(), t)
      ensures torrents[t].state == old(torrents)[t].state && |conn| == |old(conn)|
      ensures View() == Run(old(View()), steps) && AllDialled(old(View()), steps, t, s)
      ensures ConnPending(conn, torrents[t].generation) <=
                Max(PEER_CONNECT_PARALLEL, ConnPending(old(conn), old(torrents)[t].generation))
      ensures torrents[t].active + ConnPending(conn, torrents[t].generation) <=
                Max(MAX_PEERS_PER_TORRENT,
                    old(torrents)[t].active + ConnPending(old(conn), old(torrents)[t].generation))
    {
      hide Run, ConnPending, FreeSlot;
      steps := [];
      RunNone(View());
      var pending := CountPending(torrents[t].generation);
      var checked, stopped := 0, false;
      while checked < |torrents[t].candidates| && pending < PEER_CONNECT_PARALLEL &&
            torrents[t].active + pending < MAX_PEERS_PER_TORRENT && !stopped
        invariant 0 <= checked && Valid() && trace == old(trace) + steps && OnlyTorrent(t) && Schedulable(View(), t)
        invariant torrents[t].state == old(torrents)[t].state && |conn| == |old(conn)|
        invariant torrents[t].generation == old(torrents)[t].generation && torrents[t].active == old(torrents)[t].active
        invariant |torrents[t].candidates| == |old(torrents)[t].candidates|
        invariant pending == ConnPending(conn, torrents[t].generation)
        invariant pending <= Max(PEER_CONNECT_PARALLEL, ConnPending(old(conn), old(torrents)[t].generation))
        invariant torrents[t].active + pending <=
                    Max(MAX_PEERS_PER_TORRENT,
                        old(torrents)[t].active + ConnPending(old(conn), old(torrents)[t].generation))
        invariant View() == Run(old(View()), steps)
        invariant forall k :: 0 <= k < |steps| ==> IsDial(Run(old(View()), steps[..k]), steps[k], t, s)
        invariant |steps| == checked <= |torrents[t].candidates|
        invariant stopped ==> |steps| > 0 && (!s.threads || FreeSlot(conn).None?)
        decreases |old(torrents)[t].candidates| - checked
      {
        var candidates, next := torrents[t].candidates, torrents[t].nextCandidate;
        var ready := s.ready(t, candidates[next % |candidates|].addr);
        ghost var before, was := View(), trace;
        var started;
        started, stopped := TryCandidate(t, pending, ready, s.threads);
        ghost var e := EvScheduleConn(t, ready, s.threads);
        RunMore(INITIAL_WORLD, was, e);
        RunMore(old(View()), steps, e);
        steps := steps + [e];
        if started {
          pending := pending + 1;
        }
        checked := checked + 1;
      }
    }

    /** `web_seed_active_count`. */
    method WebSeedActiveCount(generation: nat) returns (count: nat)
      ensures count == WebActive(web, generation)
    {
      count := 0;
      var j := 0;
      while j < |web|
        invariant 0 <= j <= |web| && count == WebActive(web[..j], generation)
      {
        assert web[..j + 1][..j] == web[..j];
        if web[j].Some? && web[j].value.generation == generation {
          count := count + 1;
        }
        j := j + 1;
      }
      assert web[..|web|] == web;
    }

    /** The first empty slot of the web-seed table. */
    method FindFreeWeb() returns (slot: Option<nat>)
      ensures slot == FreeSlot(web)
    {
      var j := 0;
      while j < |web|
        invariant 0 <= j <= |web| && forall k :: 0 <= k < j ==> web[k].Some?
      {
        if web[j].None? {
          return Some(j);
        }
        j := j + 1;
      }
      slot := None;
    }

    /** The loop that collects a run of free pieces. */
    method CollectBatch(mt: Managed, table: PieceTable, first: nat) returns (sizes: seq<int>, total: int)
      requires mt.table == Some(table)
      ensures |sizes| == BatchCount(mt, table, first, 0, 0)
      ensures sizes == BatchSizes(mt.meta, first, |sizes|) && total == Sum(sizes)
    {
      sizes, total := [], 0;
      var i := 0;
      while i < WEB_SEED_BATCH_PIECES
        invariant 0 <= i <= WEB_SEED_BATCH_PIECES && |sizes| == i && total == Sum(sizes)
        invariant forall k :: 0 <= k < i ==> sizes[k] == mt.meta.PieceSize(first + k)
        invariant BatchCount(mt, table, first, 0, 0) == BatchCount(mt, table, first, i, total)
      {
        var index := first + i;
        if index >= mt.meta.NumPieces() || index >= |table.states| || table.states[index] != FREE {
          break;
        }
        var size := mt.meta.PieceSize(index);
        if size == 0 || total + size > ASSEMBLY_LIMIT {
          break;
        }
        SumAppend(sizes, [size]);
        assert Sum([size]) == size + Sum([size][1..]);
        sizes := sizes + [size];
        total := total + size;
        i := i + 1;
      }
    }

    /** The loop that marks a batch as requested. */
    method RequestBatch(table: PieceTable, first: nat, n: nat) returns (table': PieceTable)
      ensures table' == RequestRange(table, first, n)
    {
      table' := table;
      var i := 0;
      while i < n
        invariant 0 <= i <= n && table' == table.(states := table'.states) && |table'.states| == |table.states|
        invariant forall k :: 0 <= k < |table.states| ==>
                    table'.states[k] == if first <= k < first + i then REQUESTED else table.states[k]
      {
        table' := table'.Request(first + i);
        i := i + 1;
      }
      assert table'.states == RequestRange(table, first, n).states;
    }

    /** The loop that takes a batch back when no thread can be had. */
    method UnrequestBatch(table: PieceTable, first: nat, n: nat) returns (table': PieceTable)
      requires first + n <= |table.states|
      ensures |table'.states| == |table.states| && table' == table.(states := table'.states)
      ensures forall k :: 0 <= k < |table.states| ==>
                table'.states[k] == if first <= k < first + n then FREE else table.states[k]
    {
      table' := table;
      var i := 0;
      while i < n
        invariant 0 <= i <= n && table' == table.(states := table'.states) && |table'.states| == |table.states|
        invariant forall k :: 0 <= k < |table.states| ==>
                    table'.states[k] == if first <= k < first + i then FREE else table.states[k]
      {
        table' := table'.(states := table'.states[first + i := FREE]);
        i := i + 1;
      }
    }

    /** `schedule_web_seed_one`; `buffer` is the block malloc returns for the batch. */
    method ScheduleWebSeedOne(t: nat, s: Surroundings) returns (more: bool, ghost buffer: seq<byte>)
      requires Inv(View()) && Schedulable(View(), t)
      modifies this`torrents, this`web
      ensures View() == ScheduleWeb(old(View()), t, s.threads, buffer) && |web| == |old(web)|
      ensures BufferFits(old(View()), t, s, buffer)
      ensures more ==> exists j :: 0 <= j < |web| && old(web)[j].None? && web == old(web)[j := web[j]] && web[j].Some?
      ensures !more ==> View() == old(View())
    {
      hide Inv, BatchCount, WebActive, BufferFits;
      more, buffer := false, [];
      var mt := torrents[t];
      var table := mt.table.value;
      FitsUnlessAsked(View(), t, s, buffer);
      if mt.meta.webSeedCount == 0 {
        return;
      }
      var active := WebSeedActiveCount(mt.generation);
      if active >= WEB_SEED_PARALLEL_PER_TORRENT {
        return;
      }
      var slot := FindFreeWeb();
      if slot.None? {
        return;
      }
      var next := table.GetNext(None);
      if next < 0 {
        return;
      }
      ConsistentOf(View(), t);
      GetNextFinds(table, None);
      var sizes, total := CollectBatch(mt, table, next);
      if |sizes| == 0 || total == 0 {
        BatchNotEmpty(View(), t, next, sizes);
        return;
      }
      BatchWithin(View(), t, next);
      var block := Block(s, total);
      buffer := block;
      FitsUnlessAsked(View(), t, s, buffer);
      more := LaunchBatch(t, slot.value, next, sizes, total, s.threads, block);
    }

    /** The allocations, the reservation of the pieces and the thread of one batch; when
        anything cannot be had the pieces are given back. */
    method LaunchBatch(t: nat, slot: nat, first: nat, sizes: seq<int>, total: int, resources: bool, data: seq<byte>)
      returns (launched: bool)
      requires t < |torrents| && torrents[t].table.Some? && slot < |web|
      requires first + |sizes| <= |torrents[t].table.value.states|
      requires forall i :: first <= i < first + |sizes| ==> torrents[t].table.value.states[i] == FREE
      modifies this`torrents, this`web
      ensures launched <==> resources && |data| == total
      ensures !launched ==> torrents == old(torrents) && web == old(web)
      ensures var mt := old(torrents)[t];
              launched ==>
                && torrents == old(torrents)[t := mt.(table := Some(RequestRange(mt.table.value, first, |sizes|)))]
                && web == old(web)[slot := Some(WebJob(mt.generation, mt.tableId, mt.meta, first, sizes, data,
                                                       false, false))]
    {
      launched := false;
      var mt := torrents[t];
      if |data| != total {
        return;
      }
      var requested := RequestBatch(mt.table.value, first, |sizes|);
      torrents := torrents[t := mt.(table := Some(requested))];
      if !resources {
        var returned := UnrequestBatch(requested, first, |sizes|);
        assert returned.states == mt.table.value.states;
        torrents := torrents[t := mt.(table := Some(returned))];
        assert torrents == old(torrents);
        return;
      }
      launched := true;
      web := web[slot := Some(WebJob(mt.generation, mt.tableId, mt.meta, first, sizes, data, false, false))];
    }

    /** One recorded attempt at a batch; a success fills a slot, a failure changes nothing. */
    method TryBatch(t: nat, s: Surroundings) returns (more: bool, ghost e: Event)
      requires Valid() && Schedulable(View(), t)
      modifies this`torrents, this`web, this`trace
      ensures Valid() && trace == old(trace) + [e] && OnlyTorrent(t) && View() == Apply(old(View()), e)
      ensures IsAttempt(old(View()), e, t, s)
      ensures Schedulable(View(), t) && torrents[t].state == old(torrents)[t].state && |web| == |old(web)|
      ensures if more then EmptySlots(web) < EmptySlots(old(web)) else View() == old(View())
    {
      hide Inv, Run, ScheduleWeb, BufferFits;
      ValidInv();
      ghost var before := View();
      ghost var buffer;
      more, buffer := ScheduleWebSeedOne(t, s);
      e := EvScheduleWeb(t, s.threads, buffer);
      ScheduleWebTouches(before, t, s.threads, buffer);
      if more {
        ghost var j :| 0 <= j < |web| && before.web[j].None? && web == before.web[j := web[j]] && web[j].Some?;
        EmptySlotsUpdate(before.web, j, web[j]);
      }
      Record(before, e);
    }

    /** `schedule_web_seed`: as many batches as slots, limits and free pieces allow. */
    method ScheduleWebSeed(t: nat, s: Surroundings) returns (ghost steps: seq<Event>)
      requires Valid() && Schedulable(View(), t)
      modifies this`torrents, this`web, this`trace
      ensures Valid() && trace == old(trace) + steps && OnlyTorrent(t) && |web| == |old(web)|
      ensures torrents[t].state == old(torrents)[t].state
      ensures View() == Run(old(View()), steps) && AllSeeded(old(View()), steps, t, s)
    {
      hide Inv, Run, Apply, EmptySlots, IsAttempt;
      steps := [];
      RunNone(View());
      var more := true;
      while more
        invariant Valid() && trace == old(trace) + steps && OnlyTorrent(t) && Schedulable(View(), t)
        invariant torrents[t].state == old(torrents)[t].state && |web| == |old(web)|
        invariant View() == Run(old(View()), steps)
        invariant more || (|steps| > 0 && Run(old(View()), steps) == Run(old(View()), steps[..|steps| - 1]))
        invariant forall k :: 0 <= k < |steps| ==> IsAttempt(Run(old(View()), steps[..k]), steps[k], t, s)
        decreases EmptySlots(web) + if more then 1 else 0
      {
        ghost var e;
        more, e := TryBatch(t, s);
        RunMore(old(View()), steps, e);
        steps := steps + [e];
      }
    }

    /** `schedule_discovery`: at most one tracker worker per run, in the last empty slot;
        `resources` tells whether the job and its thread can be had. */
    method ScheduleTrackers(t: nat, resources: bool) returns (ghost e: Event)
      requires Valid() && Settled() && t < |torrents| && torrents[t].state == DOWNLOADING
      modifies this`disc, this`trace
      ensures Valid() && Settled() && trace == old(trace) + [e] && |disc| == |old(disc)|
      ensures e.EvScheduleDiscovery? && e.t == t && e.resources == resources
      ensures torrents[t].meta.hasTrackers && !HasDiscovery(old(disc), torrents[t].generation) ==>
                LastEmpty(old(disc), e.slot) || forall k :: 0 <= k < |old(disc)| ==> old(disc)[k].Some?
      ensures torrents[t].meta.hasTrackers && resources && FreeSlot(old(disc)).Some? ==>
                HasDiscovery(disc, torrents[t].generation)
      ensures HasDiscovery(old(disc), torrents[t].generation) || !torrents[t].meta.hasTrackers ==> disc == old(disc)
    {
      hide Run;
      ghost var before := View();
      var slot: nat := |disc|;
      if !torrents[t].meta.hasTrackers {
        e := EvScheduleDiscovery(t, slot, resources);
        Record(before, e);
        return;
      }
      var i := 0;
      while i < |disc|
        invariant 0 <= i <= |disc| && View() == before && trace == old(trace)
        invariant forall k :: 0 <= k < i ==> !DiscoveryAt(disc, k, torrents[t].generation)
        invariant slot == |disc| || (slot < i && disc[slot].None? && forall k :: slot < k < i ==> disc[k].Some?)
        invariant slot == |disc| ==> forall k :: 0 <= k < i ==> disc[k].Some?
      {
        if disc[i].Some? && disc[i].value.generation == torrents[t].generation {
          assert DiscoveryAt(disc, i, torrents[t].generation);
          e := EvScheduleDiscovery(t, slot, resources);
          Record(before, e);
          return;
        }
        if disc[i].None? {
          slot := i;
        }
        i := i + 1;
      }
      e := EvScheduleDiscovery(t, slot, resources);
      if slot < |disc| && resources {
        disc := disc[slot := Some(DiscJob(torrents[t].generation, [], false, Idle, [], []))];
        assert DiscoveryAt(disc, slot, torrents[t].generation);
      }
      Record(before, e);
    }

    // ----- torrent_mgr_tick ---------------------------------------------------

    /** The completion check for one downloading torrent. */
    method CheckCompletion(t: nat) returns (finished: bool)
      requires Valid() && t < |torrents| && torrents[t].state == DOWNLOADING
      modifies this`torrents, this`assemblyBytes, this`open, this`trace
      ensures Valid() && OnlyTorrent(t) && trace == old(trace) + [EvCheckDone(t)]
      ensures finished ==> torrents[t].state == DONE
      ensures !finished ==> torrents == old(torrents)
      ensures finished == (old(torrents)[t].table.Some? && old(torrents)[t].table.value.IsDone())
      ensures !finished ==> View() == old(View())
    {
      hide Inv, Run, DisconnectAll;
      ValidInv();
      LiveShape(View(), t);
      ghost var before := View();
      finished := torrents[t].table.value.numComplete >= |torrents[t].table.value.states|;
      if finished {
        DisconnectAllKeepsInv(before, t, |torrents[t].peers|);
        DisconnectPeers(t);
        torrents := torrents[t := torrents[t].(state := DONE)];
      }
      Record(before, EvCheckDone(t));
    }

    /** The loop of torrent_mgr_tick over the peers of one torrent. */
    method ProcessPeers(t: nat, s: Surroundings) returns (ghost turns: seq<seq<Event>>)
      requires Valid() && Settled() && Schedulable(View(), t)
      modifies this`torrents, this`assemblyBytes, this`open, this`trace
      ensures Valid() && Settled() && OnlyTorrent(t) && trace == old(trace) + Joined(turns) && Schedulable(View(), t)
      ensures View() == Run(old(View()), Joined(turns)) && AllPeersTurn(old(View()), turns, t, s)
    {
      hide Inv, Run, Apply, IsPeerTurn, Joined;
      turns := [];
      ghost var peers := |torrents[t].peers|;
      RunNone(View());
      NothingJoined();
      var p := 0;
      while p < |torrents[t].peers|
        invariant Valid() && Settled() && OnlyTorrent(t) && trace == old(trace) + Joined(turns)
        invariant 0 <= p <= |torrents[t].peers| == peers && Schedulable(View(), t) && |turns| == p
        invariant View() == Run(old(View()), Joined(turns))
        invariant forall q :: 0 <= q < p ==> IsPeerTurn(Run(old(View()), Joined(turns[..q])), turns[q], t, q, s)
      {
        ghost var before := View();
        ghost var turn := ProcessPeer(t, p, s);
        JoinedMore(turns, turn);
        RunAppend(old(View()), Joined(turns), turn);
        turns := turns + [turn];
        p := p + 1;
      }
    }

    /** The share of one torrent in a tick. */
    method TickTorrent(t: nat, s: Surroundings) returns (ghost steps: seq<Event>)
      requires Valid() && Settled() && t < |torrents| && torrents[t].state == DOWNLOADING
      modifies this`torrents, this`web, this`conn, this`disc, this`assemblyBytes, this`open, this`trace
      ensures Valid() && Settled() && OnlyTorrent(t) && trace == old(trace) + steps
      ensures IsVisit(old(View()), steps, t, s)
      ensures var mt := old(torrents)[t];
              mt.table.Some? && mt.table.value.IsDone() ==> torrents[t].state == DONE
    {
      hide Inv, Run, CheckDone, Apply, IsService;
      ValidInv();
      LiveShape(View(), t);
      var finished := CheckCompletion(t);
      steps := [EvCheckDone(t)];
      if !finished {
        ghost var rest := ServeTorrent(t, s);
        steps := steps + rest;
        assert steps[1..] == rest;
      }
    }

    /** A tracker job, if the announce interval has passed. */
    method AnnounceIfDue(t: nat, s: Surroundings) returns (ghost trackers: seq<Event>)
      requires Valid() && Settled() && Schedulable(View(), t) && torrents[t].state == DOWNLOADING
      modifies this`disc, this`trace
      ensures Valid() && Settled() && Schedulable(View(), t) && trace == old(trace) + trackers
      ensures View() == Run(old(View()), trackers) && IsAnnounce(old(View()), trackers, t, s)
    {
      hide Inv, Run, Apply, HasDiscovery, FreeSlot;
      trackers := [];
      RunNone(View());
      if s.due(t) {
        ghost var was := trace;
        ghost var e := ScheduleTrackers(t, s.threads);
        RunMore(INITIAL_WORLD, was, e);
        RunOne(old(View()), e);
        trackers := [e];
      }
    }

    /** What tick does for a torrent that still has pieces to fetch. */
    method ServeTorrent(t: nat, s: Surroundings) returns (ghost steps: seq<Event>)
      requires Valid() && Settled() && Schedulable(View(), t) && torrents[t].state == DOWNLOADING
      modifies this`torrents, this`web, this`conn, this`disc, this`assemblyBytes, this`open, this`trace
      ensures Valid() && Settled() && OnlyTorrent(t) && trace == old(trace) + steps
      ensures IsService(old(View()), steps, t, s)
    {
      hide Inv, Run, Apply, AllPeersTurn, AllDialled, AllSeeded, Joined, IsAnnounce, IsService;
      ghost var before := View();
      ghost var trackers := AnnounceIfDue(t, s);
      ghost var turns := ProcessPeers(t, s);
      RunAppend(old(View()), trackers, Joined(turns));
      ghost var dials := SchedulePeerConnections(t, s);
      RunAppend(old(View()), trackers + Joined(turns), dials);
      ghost var batches := ScheduleWebSeed(t, s);
      steps := trackers + Joined(turns) + dials + batches;
      ServiceOf(before, steps, t, s, trackers, turns, dials, batches);
    }

    /** The three collecting loops at the beginning of torrent_mgr_tick. */
    method Collect(s: Surroundings) returns (ghost steps: seq<Event>)
      requires Valid() && Settled()
      modifies this`torrents, this`web, this`conn, this`disc, this`open, this`trace
      ensures Valid() && Settled() && trace == old(trace) + steps
      ensures View() == Run(old(View()), steps) && IsCollecting(old(View()), steps, s)
    {
      hide Inv, Run, Main, DiscoveryTurns, WritesWork;
      ghost var trace0 := trace;
      ghost var s1 := CollectWebSeed(s.disk);
      DiscoveryTurnsSame(old(disc), disc, |disc|);
      ghost var s2 := CollectDiscovery();
      ghost var s3 := CollectPeerConnections();
      steps := s1 + s2 + s3;
      RunAppend(INITIAL_WORLD, trace0, steps);
      assert trace == trace0 + steps;
      MainAppend(s1 + s2, s3);
      MainAppend(s1, s2);
      assert CollectsWeb(Main(s1)) && CollectsConn(Main(s3));
      if s.disk {
        MainAppend(s2, s3);
        NoBatchInTurns(old(disc), |old(disc)|);
        NoBatchIn(s2 + s3);
        LaterSteps(old(View()), s1, s2 + s3);
        assert s1 + (s2 + s3) == steps;
      }
    }

    /** One turn of the loop over the torrents. */
    method VisitTorrent(t: nat, s: Surroundings) returns (visited: bool, ghost visit: seq<Event>)
      requires Valid() && Settled() && t < |torrents|
      modifies this`torrents, this`web, this`conn, this`disc, this`assemblyBytes, this`open, this`trace
      ensures Valid() && Settled() && OnlyTorrent(t) && trace == old(trace) + visit
      ensures View() == Run(old(View()), visit) && IsVisit(old(View()), visit, t, s)
      ensures visited == (old(torrents)[t].state == DOWNLOADING) && Visited(old(torrents)[t], torrents[t])
    {
      hide Inv, Run, IsVisit, Apply;
      visited, visit := torrents[t].state == DOWNLOADING, [];
      ghost var was := trace;
      RunNone(View());
      if visited {
        visit := TickTorrent(t, s);
        RunAppend(INITIAL_WORLD, was, visit);
      } else {
        NoVisit(View(), t, s);
      }
    }

    /** The loop of torrent_mgr_tick over the torrents. */
    method VisitTorrents(s: Surroundings) returns (active: nat, ghost visits: seq<seq<Event>>)
      requires Valid() && Settled()
      modifies this`torrents, this`web, this`conn, this`disc, this`assemblyBytes, this`open, this`trace
      ensures Valid() && Settled() && trace == old(trace) + Joined(visits)
      ensures IsVisiting(old(View()), visits, s)
      ensures active == CountDownloading(old(torrents)) && |torrents| == |old(torrents)|
      ensures forall t :: 0 <= t < |torrents| ==> Visited(old(torrents)[t], torrents[t])
    {
      hide Inv, Run, IsVisit, Apply, Visited, VisitsSoFar, Joined;
      ghost var collected := torrents;
      visits := [];
      active := 0;
      RunNone(View());
      NothingJoined();
      NoVisits(View(), s);
      var i := 0;
      while i < |torrents|
        invariant 0 <= i <= |torrents| == |collected| && |visits| == i
        invariant Valid() && Settled() && trace == old(trace) + Joined(visits)
        invariant View() == Run(old(View()), Joined(visits))
        invariant VisitsSoFar(old(View()), visits, s)
        invariant active == CountDownloading(collected[..i])
        invariant forall t :: 0 <= t < i ==> Visited(collected[t], torrents[t])
        invariant forall t :: i <= t < |torrents| ==> torrents[t] == collected[t]
      {
        assert collected[..i + 1][..i] == collected[..i];
        ghost var visit;
        var visited;
        visited, visit := VisitTorrent(i, s);
        if visited {
          active := active + 1;
        }
        RunAppend(old(View()), Joined(visits), visit);
        OneMoreVisit(old(View()), visits, visit, s);
        JoinedMore(visits, visit);
        visits := visits + [visit];
        i := i + 1;
      }
      assert collected[..|collected|] == collected;
    }

    /** `torrent_mgr_tick`: everything that can be collected is collected, then every
        torrent that is downloading is visited in order. Those not downloading are not
        touched after the collecting, those that are complete become DONE, and the
        result counts the ones visited. */
    method Tick(s: Surroundings) returns (active: nat, ghost collecting: seq<Event>, ghost visits: seq<seq<Event>>)
      requires Valid() && Settled()
      modifies this`torrents, this`web, this`conn, this`disc, this`assemblyBytes, this`open, this`trace
      ensures Valid() && Settled() && trace == old(trace) + collecting + Joined(visits)
      ensures IsCollecting(old(View()), collecting, s) && IsVisiting(Run(old(View()), collecting), visits, s)
      ensures var collected := Run(old(View()), collecting).torrents;
              && active == CountDownloading(collected) && |torrents| == |collected|
              && forall t :: 0 <= t < |collected| ==> Visited(collected[t], torrents[t])
    {
      hide Inv, Run, IsVisiting, IsCollecting;
      collecting := Collect(s);
      active, visits := VisitTorrents(s);
    }
  }

  lemma NothingJoined()
    ensures Joined([]) == []
  {
  }

  lemma NoVisits(w: World, s: Surroundings)
    ensures VisitsSoFar(w, [], s)
  {
  }

  lemma NoVisit(w: World, t: nat, s: Surroundings)
    requires t < |w.torrents| && w.torrents[t].state != DOWNLOADING
    ensures IsVisit(w, [], t, s)
  {
  }

  lemma {:induction false} DiscoveryTurnsSame(a: seq<Option<DiscJob>>, b: seq<Option<DiscJob>>, n: nat)
    requires n <= |a| == |b| && forall k :: 0 <= k < n ==> (a[k].Some? <==> b[k].Some?)
    ensures DiscoveryTurns(a, n) == DiscoveryTurns(b, n)
  {
    if n > 0 {
      DiscoveryTurnsSame(a, b, n - 1);
    }
  }

  function CountDownloading(ts: seq<Managed>): nat {
    if ts == [] then 0
    else CountDownloading(ts[..|ts| - 1]) + if ts[|ts| - 1].state == DOWNLOADING then 1 else 0
  }

  /** What the loop of torrent_mgr_tick does to a torrent, seen from outside. */
  ghost predicate Visited(a: Managed, b: Managed) {
    && (a.state != DOWNLOADING ==> b == a)
    && (a.state == DOWNLOADING && a.table.Some? && a.table.value.IsDone() ==> b.state == DONE)
  }

  function EmptySlots<J>(slots: seq<Option<J>>): nat {
    if slots == [] then 0 else EmptySlots(slots[..|slots| - 1]) + if slots[|slots| - 1].None? then 1 else 0
  }

  lemma {:induction false} EmptySlotsUpdate<J>(slots: seq<Option<J>>, j: nat, job: Option<J>)
    requires j < |slots| && slots[j].None? && job.Some?
    ensures EmptySlots(slots[j := job]) + 1 == EmptySlots(slots)
  {
    var last := |slots| - 1;
    if j == last {
      assert slots[j := job][..last] == slots[..last];
    } else {
      assert slots[j := job][..last] == slots[..last][j := job];
      EmptySlotsUpdate(slots[..last], j, job);
    }
  }

  lemma ScheduleWebTouches(w: World, t: nat, resources: bool, buffer: seq<byte>)
    requires Schedulable(w, t)
    ensures var w' := ScheduleWeb(w, t, resources, buffer);
            Touches(w, w', t) && Schedulable(w', t) && w'.torrents[t].state == w.torrents[t].state
  {
    hide BatchCount, WebActive;
  }

  /** Only a batch that may be asked for puts a demand on its buffer. */
  lemma FitsUnlessAsked(w: World, t: nat, s: Surroundings, buffer: seq<byte>)
    requires Inv(w) && Schedulable(w, t)
    ensures var mt := w.torrents[t];
            var next := mt.table.value.GetNext(None);
            (mt.meta.webSeedCount > 0 && WebActive(w.web, mt.generation) < 4 && FreeSlot(w.web).Some? && next >= 0 ==>
               var sizes := BatchSizes(mt.meta, next, BatchCount(mt, mt.table.value, next, 0, 0));
               sizes == [] || buffer == Block(s, Sum(sizes))) ==>
            BufferFits(w, t, s, buffer)
  {
    hide Inv, PieceTable.GetNext, BatchCount, WebActive, Fetching, LongestRun, Span, Sum, FirstFree, FirstEmpty;
    if MayFetch(w, t) {
      ShapeOf(w, t);
      var mt := w.torrents[t];
      ActiveIsFetching(w.web, mt.generation);
      NextIsFirstFree(w, t);
      EmptyIs(w.web);
      forall i: nat, n: nat | n > 0 && FirstFree(mt, i) && LongestRun(mt, i, n)
        ensures BatchCount(mt, mt.table.value, i, 0, 0) == n && Sum(BatchSizes(mt.meta, i, n)) == Span(mt.meta, i, n)
      {
        RunIsCount(w, t, i, n);
      }
    }
  }

  lemma BatchWithin(w: World, t: nat, next: nat)
    requires Inv(w) && Schedulable(w, t) && next < |w.torrents[t].table.value.states|
    ensures var mt := w.torrents[t];
            BatchFree(mt.table.value, next, BatchCount(mt, mt.table.value, next, 0, 0))
  {
    hide Inv, BatchCount;
    ShapeOf(w, t);
    BatchIsFree(w.torrents[t], w.torrents[t].table.value, next);
  }

  /** An accepted torrent has no piece of size zero, so a batch of pieces is never empty of bytes. */
  lemma BatchNotEmpty(w: World, t: nat, next: nat, sizes: seq<int>)
    requires Inv(w) && Schedulable(w, t) && next < |w.torrents[t].table.value.states|
    requires var mt := w.torrents[t];
             sizes == BatchSizes(mt.meta, next, BatchCount(mt, mt.table.value, next, 0, 0))
    ensures Sum(sizes) == 0 ==> sizes == []
  {
    hide Inv, BatchCount;
    ShapeOf(w, t);
    BatchWithin(w, t, next);
    if sizes != [] {
      PieceGeometry(w.torrents[t].meta, next);
      SizesNonNegative(w.torrents[t].meta, next, |sizes|);
      assert NonNegative(sizes[1..]);
      SumNonNegative(sizes[1..]);
    }
  }

  /** What one visit to a peer may do: nothing, a time-out, or some messages and then
      at most one request. */
  ghost predicate Touches(w: World, w': World, t: nat) {
    && t < |w.torrents| == |w'.torrents|
    && |w'.torrents[t].peers| == |w.torrents[t].peers|
    && (Schedulable(w, t) ==> Schedulable(w', t))
    && forall u :: 0 <= u < |w.torrents| && u != t ==> w'.torrents[u] == w.torrents[u]
  }

  /** Steps taken later do not change what the earlier ones were. */
  lemma ReceiptsStay(w: World, steps: seq<Event>, e: Event, t: nat, p: nat, s: Surroundings)
    requires |steps| <= |s.inbox(t, p)| && forall k :: 0 <= k < |steps| ==> IsReceipt(w, steps, t, p, s, k)
    ensures forall k :: 0 <= k < |steps| ==> IsReceipt(w, steps + [e], t, p, s, k)
  {
    hide Run;
    var more := steps + [e];
    forall k | 0 <= k < |steps|
      ensures IsReceipt(w, more, t, p, s, k)
    {
      assert IsReceipt(w, steps, t, p, s, k);
      assert more[..k] == steps[..k] && more[..k + 1] == steps[..k + 1] && more[k] == steps[k];
    }
  }

  lemma OneMoreReceipt(w: World, steps: seq<Event>, e: Event, t: nat, p: nat, s: Surroundings)
    requires |steps| < |s.inbox(t, p)| && forall k :: 0 <= k < |steps| ==> IsReceipt(w, steps, t, p, s, k)
    requires e.EvRecv? && e.t == t && e.p == p && e.msg == s.inbox(t, p)[|steps|] && e.hasMemory == s.bitfields
    requires PeerActive(Run(w, steps), t, p) && (s.disk ==> Downloading(Run(w, steps + [e]), t))
    ensures forall k :: 0 <= k <= |steps| ==> IsReceipt(w, steps + [e], t, p, s, k)
  {
    hide Run;
    ReceiptsStay(w, steps, e, t, p, s);
    assert (steps + [e])[..|steps|] == steps && (steps + [e])[..|steps| + 1] == steps + [e];
  }

  lemma DisconnectTouches(w: World, t: nat, p: nat)
    requires HasPeer(w, t, p)
    ensures Touches(w, Disconnect(w, t, p), t)
  {
    DisconnectDropsOnlyPeer(w, t, p);
  }

  lemma RecvTouches(w: World, t: nat, p: nat, msg: Message, hasMemory: bool, o: WriteOutcome)
    requires PeerActive(w, t, p)
    ensures Touches(w, Recv(w, t, p, msg, hasMemory, o), t)
  {
    hide Disconnect, Receive, SetBit;
    DisconnectTouches(w, t, p);
    if msg.Piece? {
      ReceiveTouches(w, t, p, msg, o);
    }
  }

  lemma ReceiveTouches(w: World, t: nat, p: nat, msg: Message, o: WriteOutcome)
    requires PeerActive(w, t, p) && msg.Piece?
    ensures Touches(w, Receive(w, t, p, msg, o), t)
  {
    hide Disconnect, FinishPiece;
    DisconnectTouches(w, t, p);
    if Expected(w.torrents[t].peers[p], msg) {
      var a := w.torrents[t].peers[p].assembly.value;
      if |msg.block| == w.torrents[t].peers[p].pending && a.received + |msg.block| <= |a.buffer| {
        var peer := w.torrents[t].peers[p].(assembly := Some(Append(a, msg.block)), pending := 0);
        FinishTouches(SetTorrent(w, t, SetPeer(w.torrents[t], p, peer)), t, p, o);
      }
    }
  }

  lemma FinishTouches(w: World, t: nat, p: nat, o: WriteOutcome)
    requires PeerActive(w, t, p) && w.torrents[t].peers[p].assembly.Some?
    ensures Touches(w, FinishPiece(w, t, p, o), t)
  {
    hide Disconnect, HashMatches, Outcome, SetBit;
    DisconnectTouches(w, t, p);
    var mt := w.torrents[t];
    var a := mt.peers[p].assembly.value;
    var outcome := Outcome(mt, a.index, a.buffer, o);
    DisconnectTouches(SetTorrent(w, t, mt.(files := outcome.files, state := ERROR)), t, p);
  }

  lemma RequestTouches(w: World, t: nat, p: nat, memory: Option<seq<byte>>, sent: bool)
    requires PeerActive(w, t, p)
    ensures Touches(w, Request(w, t, p, memory, sent), t)
  {
    hide Disconnect;
    DisconnectTouches(w, t, p);
    if w.torrents[t].table.Some? && memory.Some? {
      var next := w.torrents[t].table.value.GetNext(w.torrents[t].peers[p].have);
      if next >= 0 {
        DisconnectTouches(Reserve(w, t, p, next, memory.value), t, p);
      }
    }
  }

  lemma ReceivedOf(w: World, t: nat, p: nat)
    requires Inv(w) && HasPeer(w, t, p) && w.torrents[t].peers[p].assembly.Some?
    ensures var a := w.torrents[t].peers[p].assembly.value; a.received < |a.buffer|
  {
    PeerOf(w, t, p);
  }

  lemma ClosedSlotIs(peers: seq<Peer>, slot: nat)
    requires slot <= |peers| && (forall k :: 0 <= k < slot ==> peers[k].sock.Some?)
    requires slot < |peers| ==> peers[slot].sock.None?
    ensures ClosedSlot(peers) == slot
  {
  }

  lemma MainTurn(steps: seq<Event>, idle: seq<Event>, e: Event)
    requires Main(idle) == [] && !IsWorker(e)
    ensures Main(steps + idle + [e]) == Main(steps) + [e]
  {
    hide Main;
    MainAppend(steps, idle);
    MainAppend(steps + idle, [e]);
    MainOne(e);
  }

  lemma MainNone()
    ensures Main([]) == []
  {
  }

  lemma ServiceOf(w: World, steps: seq<Event>, t: nat, s: Surroundings, trackers: seq<Event>,
                  turns: seq<seq<Event>>, dials: seq<Event>, batches: seq<Event>)
    requires ServiceParts(w, steps, t, s, trackers, turns, dials, batches)
    ensures IsService(w, steps, t, s)
  {
    hide ServiceParts;
  }

  lemma TableOf(w: World, t: nat, p: nat)
    requires Inv(w) && HasPeer(w, t, p)
    ensures w.torrents[t].table.Some?
    ensures Admissible(w.torrents[t].meta, w.torrents[t].files) && TableOk(w.torrents[t])
    ensures w.torrents[t].peers[p].assembly.Some? ==>
              w.torrents[t].peers[p].assembly.value.index < w.torrents[t].meta.NumPieces()
    ensures forall peers :: TableOk(w.torrents[t].(peers := peers))
  {
    hide Inv, PeersOk, DiskOk, CandidatesOk, WebOk, ConnOk;
    RunOf(w, t);
    PeerOf(w, t, p);
  }

  lemma MainOne(e: Event)
    ensures Main([e]) == if IsWorker(e) then [] else [e]
  {
    assert [e][..0] == [];
    assert Main([]) == [];
  }

  lemma SizesOf(w: World)
    requires Inv(w)
    ensures TableSizes(w)
  {
  }

  lemma BatchInside(mt: Managed, job: WebJob)
    requires WebJobOk(mt, job)
    ensures mt.table.Some? && job.first + |job.sizes| <= |mt.table.value.states|
    ensures forall k :: 0 <= k < |job.sizes| ==> job.sizes[k] == mt.meta.PieceSize(job.first + k)
  {
  }

  lemma ExceptParts(mt: Managed, web: seq<Option<WebJob>>, conn: seq<Option<ConnJob>>, job: WebJob)
    requires RunOkExcept(mt, web, conn, job.first, job.first + |job.sizes|)
    ensures TorrentOk(mt)
  {
    hide TorrentOk;
  }

  /** Pieces that are finished already need no freeing. */
  lemma ReleaseTail(table: PieceTable, first: nat, saved: nat, n: nat)
    requires saved <= n
    requires forall i :: first <= i < first + saved && i < |table.states| ==> table.states[i] == COMPLETE
    ensures ReleaseRange(table, first + saved, n - saved) == ReleaseRange(table, first, n)
  {
    assert ReleaseRange(table, first + saved, n - saved).states == ReleaseRange(table, first, n).states;
  }
}
