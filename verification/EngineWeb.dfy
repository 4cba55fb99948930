/** Scheduling and collecting web-seed batches keeps the invariant. */
module EngineWeb {
  import opened Bytes
  import opened Torrent
  import opened PieceMgr
  import opened Disk
  import opened EngineTypes
  import opened EngineSteps
  import opened EngineInvariants
  import opened EngineFrames
  import opened EngineLifecycle
  import opened EngineTransfer
  import opened EngineRequests

  // ----- frames ---------------------------------------------------------------

  lemma {:induction false} SamePeersSameSums(a: seq<Managed>, b: seq<Managed>)
    requires |a| == |b| && forall u :: 0 <= u < |a| ==> a[u].peers == b[u].peers
    ensures TorrentSocks(a) == TorrentSocks(b) && TorrentBytes(a) == TorrentBytes(b)
  {
    if a != [] {
      SamePeersSameSums(a[..|a| - 1], b[..|b| - 1]);
    }
  }

  lemma SlotSameWeb(web: seq<Option<WebJob>>, j: nat, job: Option<WebJob>, g: nat)
    requires j < |web|
    requires web[j].Some? ==> web[j].value.generation != g
    requires job.Some? ==> job.value.generation != g
    ensures SameWeb(g, web, web[j := job])
  {
  }

  /** The runs after slot j of the web-seed table has changed hands within generation g. */
  ghost predicate WebSlotChange(w: World, j: nat, job: Option<WebJob>, g: nat, ts: seq<Managed>) {
    && j < |w.web| && g < w.nextGeneration
    && (w.web[j].Some? ==> w.web[j].value.generation == g)
    && (job.Some? ==> job.value.generation == g)
    && |ts| == |w.torrents|
    && forall u :: 0 <= u < |ts| ==>
         && ts[u].generation == w.torrents[u].generation && ts[u].peers == w.torrents[u].peers
         && SameTable(w.torrents[u], ts[u])
         && (ts[u].generation != g ==> ts[u] == w.torrents[u])
         && (ts[u].generation == g ==> RunOk(ts[u], w.web[j := job], w.conn))
  }

  lemma WebSlotFrame(w: World, j: nat, job: Option<WebJob>, g: nat, ts: seq<Managed>)
    requires Inv(w) && WebSlotChange(w, j, job, g, ts)
    ensures Inv(w.(torrents := ts, web := w.web[j := job]))
  {
    hide TorrentOk, WebOk, ConnOk, DiscOk, TorrentSocks, TorrentBytes, ConnSocks;
    var web' := w.web[j := job];
    SamePeersSameSums(ts, w.torrents);
    forall u | 0 <= u < |ts|
      ensures RunOk(ts[u], web', w.conn)
    {
      if ts[u].generation != g {
        SlotSameWeb(w.web, j, job, ts[u].generation);
        WebOkFrame(ts[u], w.web, web');
      }
    }
  }

  // ----- schedule_web_seed_one ------------------------------------------------

  /** States may change as long as nothing becomes or ceases to be COMPLETE. */
  lemma StatesChange(mt: Managed, table: PieceTable)
    requires StateOk(mt) && TableOk(mt) && DiskOk(mt) && mt.table.Some?
    requires |table.states| == |mt.table.value.states| && table == mt.table.value.(states := table.states)
    requires forall i :: 0 <= i < |table.states| ==>
               && table.states[i] != FAILED
               && (table.states[i] == COMPLETE <==> mt.table.value.states[i] == COMPLETE)
    ensures var mt' := mt.(table := Some(table)); StateOk(mt') && TableOk(mt') && DiskOk(mt')
  {
    hide Verified;
    CountCompleteSame(table.states, mt.table.value.states);
    SumCompleteSame(mt.meta, table.states, mt.table.value.states, |table.states|);
  }

  lemma ConnOkSame(mt: Managed, mt': Managed, conn: seq<Option<ConnJob>>)
    requires ConnOk(mt, conn)
    requires mt'.generation == mt.generation && mt'.peers == mt.peers && mt'.active == mt.active
    requires mt'.candidates == mt.candidates && mt'.state == mt.state && (mt.table.Some? ==> mt'.table.Some?)
    ensures ConnOk(mt', conn)
  {
    assert forall c: nat, a: Addr :: Connecting(mt, c, a) <==> Connecting(mt', c, a);
  }

  ghost predicate BatchFree(table: PieceTable, first: nat, n: nat) {
    first + n <= |table.states| && forall i :: first <= i < first + n ==> table.states[i] == FREE
  }

  lemma RequestedPeersOk(mt: Managed, table: PieceTable)
    requires PeersOk(mt) && mt.table.Some? && |table.states| == |mt.table.value.states|
    requires forall i :: 0 <= i < |table.states| && mt.table.value.states[i] == REQUESTED ==>
               table.states[i] == REQUESTED
    ensures PeersOk(mt.(table := Some(table)))
  {
    hide AssemblyOk;
  }

  lemma ScheduledWebOk(mt: Managed, web: seq<Option<WebJob>>, slot: nat, job: WebJob)
    requires TableOk(mt) && PeersOk(mt) && WebOk(mt, web) && slot < |web| && web[slot].None? && mt.table.Some?
    requires job.generation == mt.generation && job.tableId == mt.tableId && job.meta == mt.meta && WebJobShape(job)
    requires |job.sizes| > 0 && BatchFree(mt.table.value, job.first, |job.sizes|)
    requires forall k :: 0 <= k < |job.sizes| ==> job.sizes[k] == mt.meta.PieceSize(job.first + k)
    ensures var table := RequestRange(mt.table.value, job.first, |job.sizes|);
            WebOk(mt.(table := Some(table)), web[slot := Some(job)])
  {
    hide AssemblyOk, PieceTable.Consistent, SumComplete;
    var old_, table, g := mt.table.value, RequestRange(mt.table.value, job.first, |job.sizes|), mt.generation;
    var mt' := mt.(table := Some(table));
    var web' := web[slot := Some(job)];
    forall j: nat, i: nat
      ensures JobOwns(web', j, g, i) <==> (j == slot && InBatch(job, i)) || JobOwns(web, j, g, i)
    {
    }
    forall j: nat, i: nat | JobOwns(web, j, g, i)
      ensures !InBatch(job, i)
    {
      assert WebJobOk(mt, web[j].value);
    }
    forall p: nat, i: nat | PeerOwns(mt.peers, p, i)
      ensures !InBatch(job, i)
    {
    }
    forall j: nat | MyWeb(web', j, g)
      ensures WebJobOk(mt', web'[j].value)
    {
      if j != slot {
        assert MyWeb(web, j, g);
      }
    }
    if mt.state == DOWNLOADING {
      forall i | 0 <= i < |table.states| && table.states[i] == REQUESTED
        ensures Owned(mt', web', i)
      {
        if InBatch(job, i) {
          assert JobOwns(web', slot, g, i);
        } else {
          assert Owned(mt, web, i);
          if j: nat :| JobOwns(web, j, g, i) {
            assert JobOwns(web', j, g, i);
          }
        }
      }
    }
  }

  lemma ScheduledRunOk(mt: Managed, web: seq<Option<WebJob>>, conn: seq<Option<ConnJob>>, slot: nat, job: WebJob)
    requires RunOk(mt, web, conn) && slot < |web| && web[slot].None? && mt.table.Some?
    requires job.generation == mt.generation && job.tableId == mt.tableId && job.meta == mt.meta && WebJobShape(job)
    requires |job.sizes| > 0 && BatchFree(mt.table.value, job.first, |job.sizes|)
    requires forall k :: 0 <= k < |job.sizes| ==> job.sizes[k] == mt.meta.PieceSize(job.first + k)
    ensures var table := RequestRange(mt.table.value, job.first, |job.sizes|);
            RunOk(mt.(table := Some(table)), web[slot := Some(job)], conn)
  {
    hide StateOk, DiskOk, PeersOk, WebOk, ConnOk;
    var table := RequestRange(mt.table.value, job.first, |job.sizes|);
    StatesChange(mt, table);
    RequestedPeersOk(mt, table);
    ScheduledWebOk(mt, web, slot, job);
    ConnOkSame(mt, mt.(table := Some(table)), conn);
  }

  lemma SizesNonNegative(meta: Metainfo, first: nat, n: nat)
    requires meta.Accepted() && first + n <= meta.NumPieces()
    ensures NonNegative(BatchSizes(meta, first, n))
  {
    var sizes := BatchSizes(meta, first, n);
    forall k | 0 <= k < |sizes|
      ensures 0 <= sizes[k]
    {
      PieceGeometry(meta, first + k);
    }
  }

  lemma BatchIsFree(mt: Managed, table: PieceTable, first: nat)
    requires first <= |table.states| <= mt.meta.NumPieces()
    ensures var n := BatchCount(mt, table, first, 0, 0);
            BatchFree(table, first, n) && first + n <= mt.meta.NumPieces()
  {
    var n := BatchCount(mt, table, first, 0, 0);
    if n > 0 {
      assert BatchSlot(mt, table, first + n - 1);
    }
    forall i | first <= i < first + n
      ensures table.states[i] == FREE
    {
      assert BatchSlot(mt, table, i);
    }
  }

  lemma ScheduleWebKeepsInv(w: World, t: nat, resources: bool, buffer: seq<byte>)
    requires Inv(w)
    ensures Inv(ScheduleWeb(w, t, resources, buffer))
  {
    hide Inv, RunOk, TorrentOk, BatchCount, WebActive;
    if ScheduleWeb(w, t, resources, buffer) != w {
      var mt := w.torrents[t];
      var first := mt.table.value.GetNext(None);
      var n := BatchCount(mt, mt.table.value, first, 0, 0);
      var job := WebJob(mt.generation, mt.tableId, mt.meta, first, BatchSizes(mt.meta, first, n), buffer, false, false);
      PlaceBatch(w, t, FreeSlot(w.web).value, job);
    }
  }

  lemma PlaceBatch(w: World, t: nat, slot: nat, job: WebJob)
    requires Inv(w) && t < |w.torrents| && w.torrents[t].table.Some?
    requires slot < |w.web| && w.web[slot].None?
    requires var mt := w.torrents[t];
             && job.generation == mt.generation && job.tableId == mt.tableId && job.meta == mt.meta
             && job.first == mt.table.value.GetNext(None)
             && job.sizes == BatchSizes(mt.meta, job.first, BatchCount(mt, mt.table.value, job.first, 0, 0))
             && |job.sizes| > 0 && |job.data| == Sum(job.sizes)
    ensures var mt := w.torrents[t];
            Inv(SetTorrent(w, t, mt.(table := Some(RequestRange(mt.table.value, job.first, |job.sizes|))))
                .(web := w.web[slot := Some(job)]))
  {
    hide Inv, RunOk, TorrentOk, BatchCount;
    var mt := w.torrents[t];
    RunOf(w, t);
    ShapeOf(w, t);
    ConsistentOf(w, t);
    GetNextFinds(mt.table.value, None);
    BatchIsFree(mt, mt.table.value, job.first);
    SizesNonNegative(mt.meta, job.first, |job.sizes|);
    ScheduledRunOk(mt, w.web, w.conn, slot, job);
    GenerationsOf(w);
    var ts := w.torrents[t := mt.(table := Some(RequestRange(mt.table.value, job.first, |job.sizes|)))];
    WebSlotFrame(w, slot, Some(job), mt.generation, ts);
  }

  // ----- collect_web_seed -----------------------------------------------------

  /** A run whose pieces lo..hi have lost their owner, the job being collected. */
  ghost predicate WebOkExcept(mt: Managed, web: seq<Option<WebJob>>, lo: nat, hi: nat) {
    && mt.table.Some?
    && (forall j: nat :: MyWeb(web, j, mt.generation) ==> WebJobOk(mt, web[j].value))
    && (forall j: nat, k: nat, i: nat ::
          JobOwns(web, j, mt.generation, i) && JobOwns(web, k, mt.generation, i) ==> j == k)
    && (forall j: nat, p: nat, i: nat :: JobOwns(web, j, mt.generation, i) ==> !PeerOwns(mt.peers, p, i))
    && (forall j: nat, i: nat :: JobOwns(web, j, mt.generation, i) ==> !(lo <= i < hi))
    && (forall p: nat, i: nat :: PeerOwns(mt.peers, p, i) ==> !(lo <= i < hi))
    && (mt.state == DOWNLOADING ==>
          forall i :: 0 <= i < |mt.table.value.states| && mt.table.value.states[i] == REQUESTED ==>
            lo <= i < hi || Owned(mt, web, i))
  }

  ghost predicate RunOkExcept(mt: Managed, web: seq<Option<WebJob>>, conn: seq<Option<ConnJob>>, lo: nat, hi: nat) {
    TorrentOk(mt) && WebOkExcept(mt, web, lo, hi) && ConnOk(mt, conn)
  }

  lemma DroppedJob(mt: Managed, web: seq<Option<WebJob>>, conn: seq<Option<ConnJob>>, j: nat)
    requires RunOk(mt, web, conn) && MyWeb(web, j, mt.generation)
    ensures var job := web[j].value;
            && RunOkExcept(mt, web[j := None], conn, job.first, job.first + |job.sizes|)
            && WebJobOk(mt, job)
  {
    hide TorrentOk, ConnOk;
    var web' := web[j := None];
    forall k: nat, i: nat
      ensures JobOwns(web', k, mt.generation, i) <==> k != j && JobOwns(web, k, mt.generation, i)
    {
    }
    forall i: nat
      ensures InBatch(web[j].value, i) <==> JobOwns(web, j, mt.generation, i)
    {
    }
    forall k: nat | MyWeb(web', k, mt.generation)
      ensures WebJobOk(mt, web'[k].value)
    {
      assert MyWeb(web, k, mt.generation);
    }
    forall p: nat, i: nat | PeerOwns(mt.peers, p, i)
      ensures !(web[j].value.first <= i < web[j].value.first + |web[j].value.sizes|)
    {
      assert InBatch(web[j].value, i) <==> JobOwns(web, j, mt.generation, i);
    }
    forall k: nat, i: nat | JobOwns(web', k, mt.generation, i)
      ensures !(web[j].value.first <= i < web[j].value.first + |web[j].value.sizes|)
    {
      assert InBatch(web[j].value, i) <==> JobOwns(web, j, mt.generation, i);
    }
    if mt.state == DOWNLOADING {
      forall i | 0 <= i < |mt.table.value.states| && mt.table.value.states[i] == REQUESTED && !InBatch(web[j].value, i)
        ensures Owned(mt, web', i)
      {
        assert Owned(mt, web, i);
        if k: nat :| JobOwns(web, k, mt.generation, i) {
          assert JobOwns(web', k, mt.generation, i);
        }
      }
    }
  }

  /** Changing the state of an unowned piece to something other than REQUESTED. */
  lemma SettlePiece(mt: Managed, mt': Managed, web: seq<Option<WebJob>>, conn: seq<Option<ConnJob>>,
                    lo: nat, hi: nat, i: nat)
    requires RunOkExcept(mt, web, conn, lo, hi) && lo <= i < hi
    requires StateOk(mt') && TableOk(mt') && DiskOk(mt') && mt'.table.Some?
    requires mt' == mt.(files := mt'.files, table := mt'.table, downloaded := mt'.downloaded)
    requires i < |mt.table.value.states|
    requires mt'.table.value.states[i] != REQUESTED
    requires mt'.table.value.states == mt.table.value.states[i := mt'.table.value.states[i]]
    ensures RunOkExcept(mt', web, conn, lo, hi)
  {
    hide StateOk, TableOk, DiskOk, AssemblyOk;
    ConnOkSame(mt, mt', conn);
    forall j: nat | MyWeb(web, j, mt.generation)
      ensures WebJobOk(mt', web[j].value)
    {
      assert InBatch(web[j].value, i) ==> JobOwns(web, j, mt.generation, i);
    }
    assert forall k: nat :: Owned(mt, web, k) ==> Owned(mt', web, k);
    assert PeersOk(mt') by {
      assert forall p: nat, k: nat :: PeerOwns(mt'.peers, p, k) <==> PeerOwns(mt.peers, p, k);
    }
  }

  lemma FreePieceTableOk(mt: Managed, i: nat, data: seq<byte>, files: Files)
    requires StateOk(mt) && TableOk(mt) && DiskOk(mt) && mt.table.Some?
    requires i < |mt.table.value.states| && mt.table.value.states[i] != COMPLETE && |data| == mt.meta.PieceSize(i)
    requires WriteEffect(mt.meta.OutputLengths(), mt.files, mt.meta.PieceStart(i), data, files, false)
    ensures var mt' := FreePiece(mt, i, files); StateOk(mt') && TableOk(mt') && DiskOk(mt')
  {
    hide Verified, WriteEffect;
    var table := mt.table.value;
    EffectKeepsCount(mt, i, data, files, false);
    SetStateConsistent(table, i, FREE);
    SumCompleteUpdate(mt.meta, table.states, |table.states|, i, FREE);
    forall k | 0 <= k < |table.states| && table.states[k] == COMPLETE
      ensures Verified(mt.meta, files, k)
    {
      WriteKeepsOthers(mt.meta, mt.files, i, data, files, false, k);
    }
  }

  lemma NoWriteEffect(mt: Managed, i: nat, data: seq<byte>)
    requires Admissible(mt.meta, mt.files)
    ensures WriteEffect(mt.meta.OutputLengths(), mt.files, mt.meta.PieceStart(i), data, mt.files, false)
  {
    hide Cell;
  }

  /** One turn of the loop: the piece is finished, or it is free and the batch has failed. */
  lemma SaveOneOk(mt: Managed, web: seq<Option<WebJob>>, conn: seq<Option<ConnJob>>, lo: nat, hi: nat,
                  i: nat, data: seq<byte>, o: WriteOutcome)
    requires RunOkExcept(mt, web, conn, lo, hi) && lo <= i < hi && TableShape(mt)
    requires i < |mt.table.value.states| && |data| == mt.meta.PieceSize(i)
    ensures var r := SaveOne(mt, i, data, o);
            && RunOkExcept(r.0, web, conn, lo, hi)
            && SavedFrom(mt, r.0) && |r.0.table.value.states| == |mt.table.value.states|
            && (forall k :: 0 <= k < |mt.table.value.states| && k != i ==>
                  r.0.table.value.states[k] == mt.table.value.states[k])
            && (r.1 ==> r.0.table.value.states[i] == COMPLETE)
  {
    hide HashMatches, WriteEffect, StateOk, TableOk, PeersOk, DiskOk, CandidatesOk, WebOkExcept, ConnOk;
    if mt.table.value.states[i] != COMPLETE {
      AdmissibleOf(mt);
      var r := SaveOne(mt, i, data, o).0;
      if HashMatches(mt.meta, i, data) && Outcome(mt, i, data, o).ok {
        OutcomeIsEffect(mt, i, data, o);
        StoreKeepsTable(mt, i, data, Outcome(mt, i, data, o).files);
      } else {
        OutcomeIsEffect(mt, i, data, o);
        NoWriteEffect(mt, i, data);
        FreePieceTableOk(mt, i, data, r.files);
      }
      SettlePiece(mt, r, web, conn, lo, hi, i);
    }
  }

  lemma AdmissibleOf(mt: Managed)
    requires StateOk(mt) && mt.table.Some?
    ensures Admissible(mt.meta, mt.files)
  {
  }

  /** Only table, files and byte count of a run may change while a batch is saved. */
  ghost predicate SavedFrom(mt: Managed, mt': Managed) {
    mt' == mt.(files := mt'.files, table := mt'.table, downloaded := mt'.downloaded)
  }

  lemma {:induction false} SaveBatchOk(mt: Managed, web: seq<Option<WebJob>>, conn: seq<Option<ConnJob>>,
                                       job: WebJob, writes: seq<WriteOutcome>, k: nat)
    requires RunOkExcept(mt, web, conn, job.first, job.first + |job.sizes|)
    requires TableShape(mt) && WebJobOk(mt, job) && k <= |job.sizes|
    ensures var r := SaveBatch(mt, job, writes, k);
            && RunOkExcept(r.0, web, conn, job.first, job.first + |job.sizes|)
            && SavedFrom(mt, r.0)
            && |r.0.table.value.states| == |mt.table.value.states|
            && (r.1 ==> forall i :: job.first <= i < job.first + k ==> r.0.table.value.states[i] == COMPLETE)
  {
    hide RunOkExcept, SaveOne;
    if k > 0 {
      SaveBatchOk(mt, web, conn, job, writes, k - 1);
      var (m, ok) := SaveBatch(mt, job, writes, k - 1);
      if ok {
        PrefixSum(job.sizes, k - 1);
        SaveOneOk(m, web, conn, job.first, job.first + |job.sizes|, job.first + k - 1, BatchPiece(job, k - 1),
                  if k - 1 < |writes| then writes[k - 1] else WriteOutcome(m.files, false));
      }
    }
  }

  /** Once no piece of the batch is REQUESTED any more the exception is void. */
  lemma ExceptionOver(mt: Managed, web: seq<Option<WebJob>>, conn: seq<Option<ConnJob>>, lo: nat, hi: nat)
    requires RunOkExcept(mt, web, conn, lo, hi)
    requires forall i :: lo <= i < hi && i < |mt.table.value.states| ==> mt.table.value.states[i] != REQUESTED
    ensures RunOk(mt, web, conn)
  {
    hide TorrentOk, ConnOk;
  }

  lemma ReleasedWebOk(mt: Managed, web: seq<Option<WebJob>>, lo: nat, n: nat)
    requires PeersOk(mt) && WebOkExcept(mt, web, lo, lo + n)
    ensures var mt' := mt.(table := Some(ReleaseRange(mt.table.value, lo, n)));
            PeersOk(mt') && WebOk(mt', web)
  {
    hide PeerOk;
    var mt' := mt.(table := Some(ReleaseRange(mt.table.value, lo, n)));
    forall j: nat | MyWeb(web, j, mt.generation)
      ensures WebJobOk(mt', web[j].value)
    {
      assert forall i: nat :: InBatch(web[j].value, i) ==> JobOwns(web, j, mt.generation, i);
    }
    assert forall k: nat :: Owned(mt, web, k) ==> Owned(mt', web, k);
  }

  lemma ReleasedOk(mt: Managed, web: seq<Option<WebJob>>, conn: seq<Option<ConnJob>>, lo: nat, n: nat)
    requires RunOkExcept(mt, web, conn, lo, lo + n)
    ensures RunOk(mt.(table := Some(ReleaseRange(mt.table.value, lo, n))), web, conn)
  {
    hide StateOk, TableOk, DiskOk, PeersOk, WebOk, ConnOk;
    var mt' := mt.(table := Some(ReleaseRange(mt.table.value, lo, n)));
    NoFailure(mt);
    StatesChange(mt, mt'.table.value);
    ConnOkSame(mt, mt', conn);
    ReleasedWebOk(mt, web, lo, n);
  }

  lemma NoFailure(mt: Managed)
    requires TableOk(mt) && mt.table.Some?
    ensures forall i :: 0 <= i < |mt.table.value.states| ==> mt.table.value.states[i] != FAILED
  {
  }

  lemma CollectIntoOk(mt: Managed, web: seq<Option<WebJob>>, conn: seq<Option<ConnJob>>, j: nat,
                      writes: seq<WriteOutcome>)
    requires RunOk(mt, web, conn) && MyWeb(web, j, mt.generation) && TableShape(mt)
    requires WebJobShape(web[j].value) && |web[j].value.sizes| > 0
    ensures var mt' := CollectInto(mt, web[j].value, writes);
            RunOk(mt', web[j := None], conn) && SavedFrom(mt, mt')
  {
    hide RunOk, RunOkExcept, SaveBatch;
    var job, web' := web[j].value, web[j := None];
    var lo, n := job.first, |job.sizes|;
    DroppedJob(mt, web, conn, j);
    if job.ok {
      SaveBatchOk(mt, web', conn, job, writes, n);
      var (m, ok) := SaveBatch(mt, job, writes, n);
      if ok {
        ExceptionOver(m, web', conn, lo, lo + n);
      } else {
        ReleasedOk(m, web', conn, lo, n);
      }
    } else {
      ReleasedOk(mt, web', conn, lo, n);
    }
  }

  /** A run that is not downloading simply loses the job. */
  lemma DropFromIdleRun(mt: Managed, web: seq<Option<WebJob>>, conn: seq<Option<ConnJob>>, j: nat)
    requires RunOk(mt, web, conn) && j < |web| && mt.state != DOWNLOADING
    ensures RunOk(mt, web[j := None], conn)
  {
    hide TorrentOk, ConnOk;
    var web' := web[j := None];
    forall k: nat, i: nat | JobOwns(web', k, mt.generation, i)
      ensures JobOwns(web, k, mt.generation, i)
    {
    }
    forall k: nat | MyWeb(web', k, mt.generation)
      ensures WebJobOk(mt, web'[k].value)
    {
      assert MyWeb(web, k, mt.generation);
    }
  }

  /** The live run of a generation is the only torrent that carries it. */
  lemma LiveIsUnique(w: World, g: nat, t: nat, u: nat)
    requires Generations(w) && t < |w.torrents| && u < |w.torrents|
    requires w.torrents[t].generation == g && w.torrents[u].generation == g
    ensures t == u
  {
  }

  lemma CollectWebKeepsInv(w: World, j: nat, writes: seq<WriteOutcome>)
    requires Inv(w)
    ensures Inv(CollectWeb(w, j, writes))
  {
    hide Inv, RunOk, TorrentOk, CollectInto, WebJobShape;
    if j < |w.web| && w.web[j].Some? && w.web[j].value.done {
      var job := w.web[j].value;
      var g := job.generation;
      var w' := CollectWeb(w, j, writes);
      var live := FindLive(w, g, |w.torrents|);
      GenerationsOf(w);
      if live.Some? {
        var t := live.value;
        RunOf(w, t);
        LiveShape(w, t);
        JobOf(w, t, j);
        CollectIntoOk(w.torrents[t], w.web, w.conn, j, writes);
      }
      forall u | 0 <= u < |w'.torrents|
        ensures w'.torrents[u].generation == w.torrents[u].generation && w'.torrents[u].peers == w.torrents[u].peers
        ensures SameTable(w.torrents[u], w'.torrents[u])
        ensures w'.torrents[u].generation != g ==> w'.torrents[u] == w.torrents[u]
        ensures w'.torrents[u].generation == g ==> RunOk(w'.torrents[u], w.web[j := None], w.conn)
      {
        if w.torrents[u].generation == g && !IsLive(w, u, g) {
          RunOf(w, u);
          DropFromIdleRun(w.torrents[u], w.web, w.conn, j);
        } else if w.torrents[u].generation == g {
          LiveIsUnique(w, g, live.value, u);
        }
      }
      WebSlotFrame(w, j, None, g, w'.torrents);
      assert w' == w.(torrents := w'.torrents, web := w.web[j := None]);
    }
  }

  lemma LiveShape(w: World, t: nat)
    requires Inv(w) && t < |w.torrents| && w.torrents[t].state == DOWNLOADING
    ensures TableShape(w.torrents[t])
  {
    RunOf(w, t);
  }

  lemma JobOf(w: World, t: nat, j: nat)
    requires Inv(w) && t < |w.torrents| && MyWeb(w.web, j, w.torrents[t].generation)
    ensures WebJobOk(w.torrents[t], w.web[j].value)
    ensures WebJobShape(w.web[j].value) && |w.web[j].value.sizes| > 0
  {
    RunOf(w, t);
  }

  // ----- the worker -----------------------------------------------------------

  lemma WebWorkerRunOk(mt: Managed, web: seq<Option<WebJob>>, conn: seq<Option<ConnJob>>, j: nat, job: WebJob)
    requires RunOk(mt, web, conn) && MyWeb(web, j, mt.generation)
    requires job == web[j].value.(ok := job.ok, data := job.data, done := job.done)
    requires |job.data| == |web[j].value.data|
    ensures RunOk(mt, web[j := Some(job)], conn)
  {
    hide TorrentOk, ConnOk;
    var web' := web[j := Some(job)];
    forall k: nat, i: nat
      ensures JobOwns(web', k, mt.generation, i) <==> JobOwns(web, k, mt.generation, i)
    {
    }
    assert forall i: nat :: Owned(mt, web, i) ==> Owned(mt, web', i);
    forall k: nat | MyWeb(web', k, mt.generation)
      ensures WebJobOk(mt, web'[k].value)
    {
      assert MyWeb(web, k, mt.generation);
    }
  }

  lemma WebWorkerKeepsInv(w: World, j: nat, ok: bool, data: seq<byte>)
    requires Inv(w)
    ensures Inv(WebWorker(w, j, ok, data))
  {
    hide Inv, RunOk, TorrentOk;
    var w' := WebWorker(w, j, ok, data);
    if w' != w {
      var job := w'.web[j].value;
      GenerationsOf(w);
      forall u | 0 <= u < |w.torrents| && w.torrents[u].generation == job.generation
        ensures RunOk(w.torrents[u], w.web[j := Some(job)], w.conn)
      {
        RunOf(w, u);
        WebWorkerRunOk(w.torrents[u], w.web, w.conn, j, job);
      }
      WebSlotFrame(w, j, Some(job), job.generation, w.torrents);
    }
  }
}
