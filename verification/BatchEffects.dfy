/** What a batch from a web seed does to the run that asked for it, said of the tables,
    the files and the fetched bytes. */
module BatchEffects {
  import opened Bytes
  import opened Torrent
  import opened PieceMgr
  import opened Disk
  import opened EngineTypes
  import opened EngineSteps
  import opened EngineInvariants
  import opened EngineLifecycle
  import opened EngineTransfer
  import opened EngineWeb
  import opened PeerEffects
  import opened Bitfield
  import Sha1Spec

  // ----- the parts of a batch ---------------------------------------------------------

  /** A batch is whole pieces in a row, each where the piece length puts it. */
  ghost predicate BatchFits(a: Managed, job: WebJob) {
    && a.meta.Accepted() && |a.files| == |a.meta.OutputLengths()| && TableShape(a)
    && |job.sizes| > 0 && job.first + |job.sizes| <= a.meta.NumPieces()
    && (forall k :: 0 <= k < |job.sizes| ==>
          && job.sizes[k] == SizeOf(a.meta, job.first + k) > 0
          && 0 <= k * a.meta.pieceLength && k * a.meta.pieceLength + job.sizes[k] <= |job.data|)
  }

  /** The fetched bytes of piece number k of the batch. */
  ghost function Fetched(a: Managed, job: WebJob, k: nat): (data: seq<byte>)
    requires BatchFits(a, job) && k < |job.sizes|
    ensures |data| == job.sizes[k]
  {
    job.data[k * a.meta.pieceLength..k * a.meta.pieceLength + job.sizes[k]]
  }

  /** Piece number k of the batch was finished before. */
  ghost predicate Before(a: Managed, job: WebJob, k: nat)
    requires BatchFits(a, job) && k < |job.sizes|
  {
    a.table.value.states[job.first + k] == COMPLETE
  }

  /** What is on disk when the first k pieces are written. */
  ghost function Written(a: Managed, job: WebJob, writes: seq<WriteOutcome>, k: nat): Files
    requires BatchFits(a, job) && k <= |job.sizes|
  {
    if k == 0 then a.files
    else if Before(a, job, k - 1) || k > |writes| then Written(a, job, writes, k - 1)
    else writes[k - 1].files
  }

  /** The number of bytes among the first k pieces that were not finished before. */
  ghost function Gained(a: Managed, job: WebJob, k: nat): int
    requires BatchFits(a, job) && k <= |job.sizes|
  {
    if k == 0 then 0 else Gained(a, job, k - 1) + if Before(a, job, k - 1) then 0 else job.sizes[k - 1]
  }

  ghost predicate RightDigest(a: Managed, job: WebJob, k: nat)
    requires BatchFits(a, job) && k < |job.sizes|
  {
    var i := job.first + k;
    Sha1Spec.Digest(Fetched(a, job, k)) == a.meta.pieces[20 * i..20 * i + 20]
  }

  /** The disk can answer the write of piece number k in this way. */
  ghost predicate Possible(a: Managed, job: WebJob, writes: seq<WriteOutcome>, k: nat)
    requires BatchFits(a, job) && k < |job.sizes|
  {
    && k < |writes|
    && WriteEffect(a.meta.OutputLengths(), Written(a, job, writes, k), (job.first + k) * a.meta.pieceLength,
                   Fetched(a, job, k), writes[k].files, writes[k].ok)
  }

  /** Piece number k needs no saving, or its digest is right and its write succeeds. */
  ghost predicate Saves(a: Managed, job: WebJob, writes: seq<WriteOutcome>, k: nat)
    requires BatchFits(a, job) && k < |job.sizes|
  {
    Before(a, job, k) || (RightDigest(a, job, k) && Possible(a, job, writes, k) && writes[k].ok)
  }

  // ----- the whole batch --------------------------------------------------------------

  /** The bytes of the first k pieces that were not finished before are in the files. */
  ghost predicate OnDisk(a: Managed, job: WebJob, files: Files, k: nat)
    requires BatchFits(a, job) && k <= |job.sizes|
  {
    && |files| == |a.meta.OutputLengths()|
    && forall i, o :: 0 <= i < k && !Before(a, job, i) && 0 <= o < job.sizes[i] ==>
         Cell(a.meta.OutputLengths(), files, (job.first + i) * a.meta.pieceLength + o) == Some(Fetched(a, job, i)[o])
  }

  /** Of the batch exactly the first k pieces are now finished; the others are free unless
      they were finished before. No other piece changes. */
  ghost predicate SavedUpTo(a: Managed, b: Managed, job: WebJob, k: nat) {
    && a.table.Some? && b.table.Some? && |b.table.value.states| == |a.table.value.states|
    && b.table.value.hashes == a.table.value.hashes
    && forall i :: 0 <= i < |a.table.value.states| ==>
         b.table.value.states[i] ==
           if job.first <= i < job.first + k then COMPLETE
           else if job.first <= i < job.first + |job.sizes| && a.table.value.states[i] != COMPLETE then FREE
           else a.table.value.states[i]
  }

  ghost predicate OnlyTable(a: Managed, b: Managed) {
    b == a.(files := b.files, table := b.table, downloaded := b.downloaded)
  }

  /** A failed fetch frees the batch. Otherwise the pieces are saved in order up to the
      first that fails, which and after which all are free again. */
  ghost predicate BatchOutcome(a: Managed, b: Managed, job: WebJob, writes: seq<WriteOutcome>)
    requires BatchFits(a, job)
  {
    && OnlyTable(a, b)
    && if !job.ok then SavedUpTo(a, b, job, 0) && b.files == a.files && b.downloaded == a.downloaded
       else
         && ((forall k :: 0 <= k < |job.sizes| ==> Saves(a, job, writes, k)) ==>
               AllSaved(a, b, job, writes))
         && forall k :: 0 <= k < |job.sizes| && FirstFailure(a, job, writes, k) ==> PartSaved(a, b, job, writes, k)
  }

  ghost predicate FirstFailure(a: Managed, job: WebJob, writes: seq<WriteOutcome>, k: nat)
    requires BatchFits(a, job) && k < |job.sizes|
  {
    !Saves(a, job, writes, k) && forall i :: 0 <= i < k ==> Saves(a, job, writes, i)
  }

  ghost predicate AllSaved(a: Managed, b: Managed, job: WebJob, writes: seq<WriteOutcome>)
    requires BatchFits(a, job)
  {
    var n := |job.sizes|;
    && SavedUpTo(a, b, job, n) && b.downloaded == a.downloaded + Gained(a, job, n)
    && b.files == Written(a, job, writes, n) && OnDisk(a, job, b.files, n)
  }

  ghost predicate PartSaved(a: Managed, b: Managed, job: WebJob, writes: seq<WriteOutcome>, k: nat)
    requires BatchFits(a, job) && k < |job.sizes|
  {
    && SavedUpTo(a, b, job, k) && b.downloaded == a.downloaded + Gained(a, job, k)
    && b.files == (if RightDigest(a, job, k) && Possible(a, job, writes, k) then writes[k].files
                   else Written(a, job, writes, k))
    && OnDisk(a, job, b.files, k)
  }

  // ----- the loop ---------------------------------------------------------------------

  /** All pieces of a batch but perhaps the torrent's last one have the piece length. */
  lemma {:induction false} FullPieces(a: Managed, job: WebJob, k: nat)
    requires a.meta.Accepted() && job.first + |job.sizes| <= a.meta.NumPieces() && k < |job.sizes|
    requires forall i :: 0 <= i < |job.sizes| ==> job.sizes[i] == SizeOf(a.meta, job.first + i)
    ensures Sum(job.sizes[..k]) == k * a.meta.pieceLength
  {
    if k > 0 {
      FullPieces(a, job, k - 1);
      FileStartStep(job.sizes, k - 1);
    }
  }

  ghost predicate BatchShape(a: Managed, job: WebJob) {
    && a.meta.Accepted() && |a.files| == |a.meta.OutputLengths()| && TableShape(a) && WebJobShape(job)
    && |job.sizes| > 0 && job.first + |job.sizes| <= a.meta.NumPieces()
    && forall k :: 0 <= k < |job.sizes| ==> job.sizes[k] == a.meta.PieceSize(job.first + k)
  }

  lemma FitsAt(a: Managed, job: WebJob, k: nat)
    requires BatchShape(a, job) && k < |job.sizes|
    ensures job.sizes[k] == SizeOf(a.meta, job.first + k) > 0
    ensures 0 <= Sum(job.sizes[..k]) == k * a.meta.pieceLength
    ensures k * a.meta.pieceLength + job.sizes[k] <= |job.data|
  {
    hide TableShape;
    PieceGeometry(a.meta, job.first + k);
    PrefixSum(job.sizes, k);
    FullPieces(a, job, k);
  }

  lemma Fits(a: Managed, job: WebJob)
    requires BatchShape(a, job)
    ensures BatchFits(a, job)
    ensures forall k :: 0 <= k < |job.sizes| ==> Fetched(a, job, k) == BatchPiece(job, k)
  {
    hide SizeOf, Sum, TableShape;
    forall k | 0 <= k < |job.sizes|
      ensures job.sizes[k] == SizeOf(a.meta, job.first + k) > 0
      ensures 0 <= Sum(job.sizes[..k]) == k * a.meta.pieceLength
      ensures k * a.meta.pieceLength + job.sizes[k] <= |job.data|
    {
      FitsAt(a, job, k);
    }
  }

  /** After k turns that save their pieces. */
  ghost predicate Progress(a: Managed, m: Managed, job: WebJob, writes: seq<WriteOutcome>, k: nat)
    requires BatchFits(a, job) && k <= |job.sizes|
  {
    && TableShape(m) && OnlyTable(a, m) && m.table.value.hashes == a.table.value.hashes
    && m.files == Written(a, job, writes, k) && OnDisk(a, job, m.files, k)
    && m.downloaded == a.downloaded + Gained(a, job, k)
    && forall i :: 0 <= i < |a.table.value.states| ==>
         m.table.value.states[i] == if job.first <= i < job.first + k then COMPLETE else a.table.value.states[i]
  }

  lemma ByteKept(lengths: seq<int>, files: Files, start: int, data: seq<byte>, files': Files, ok: bool, g: int)
    requires WriteEffect(lengths, files, start, data, files', ok) && g < start && Cell(lengths, files, g).Some?
    ensures Cell(lengths, files', g) == Cell(lengths, files, g)
  {
  }

  lemma ByteWritten(lengths: seq<int>, files: Files, start: int, data: seq<byte>, files': Files, o: nat)
    requires WriteEffect(lengths, files, start, data, files', true) && o < |data|
    ensures Cell(lengths, files', start + o) == Some(data[o])
  {
    var g := start + o;
    assert start <= g < start + |data| && data[g - start] == data[o];
  }

  lemma OneMoreOnDisk(a: Managed, job: WebJob, files: Files, files': Files, k: nat, ok: bool)
    requires BatchFits(a, job) && k < |job.sizes| && OnDisk(a, job, files, k)
    requires WriteEffect(a.meta.OutputLengths(), files, (job.first + k) * a.meta.pieceLength,
                         Fetched(a, job, k), files', ok)
    ensures OnDisk(a, job, files', k)
    ensures ok ==> OnDisk(a, job, files', k + 1)
  {
    hide Cell, WriteEffect, Fetched;
    var l, start := a.meta.OutputLengths(), (job.first + k) * a.meta.pieceLength;
    assert |files'| == |l| by { EffectCount(l, files, start, Fetched(a, job, k), files', ok); }
    forall i, o | 0 <= i < k && !Before(a, job, i) && 0 <= o < job.sizes[i]
      ensures Cell(l, files', (job.first + i) * a.meta.pieceLength + o) == Some(Fetched(a, job, i)[o])
    {
      PiecesDisjoint(a.meta, job.first + i, job.first + k);
      assert Cell(l, files, (job.first + i) * a.meta.pieceLength + o) == Some(Fetched(a, job, i)[o]);
      ByteKept(l, files, start, Fetched(a, job, k), files', ok, (job.first + i) * a.meta.pieceLength + o);
    }
    if ok {
      forall o | 0 <= o < job.sizes[k]
        ensures Cell(l, files', start + o) == Some(Fetched(a, job, k)[o])
      {
        ByteWritten(l, files, start, Fetched(a, job, k), files', o);
      }
    }
  }

  lemma EffectCount(lengths: seq<int>, files: Files, start: int, data: seq<byte>, files': Files, ok: bool)
    requires WriteEffect(lengths, files, start, data, files', ok)
    ensures |files'| == |lengths|
  {
  }

  /** What is left when piece number k fails: it is free, and the pieces before it stay. */
  ghost predicate Stopped(a: Managed, m: Managed, m': Managed, job: WebJob, writes: seq<WriteOutcome>, k: nat)
    requires BatchFits(a, job) && k < |job.sizes| && TableShape(m)
  {
    && m'.table == Some(m.table.value.SetState(job.first + k, FREE))
    && m' == m.(table := m'.table, files := m'.files)
    && OnDisk(a, job, m'.files, k)
    && m'.files == if RightDigest(a, job, k) && Possible(a, job, writes, k) then writes[k].files
                   else Written(a, job, writes, k)
  }

  lemma SaveTurnIs(a: Managed, m: Managed, job: WebJob, writes: seq<WriteOutcome>, k: nat, o: WriteOutcome)
    requires BatchFits(a, job) && k < |job.sizes| && Progress(a, m, job, writes, k)
    requires o == if k < |writes| then writes[k] else WriteOutcome(m.files, false)
    ensures var (m', ok) := SaveOne(m, job.first + k, Fetched(a, job, k), o);
            && ok == Saves(a, job, writes, k)
            && (ok ==> Progress(a, m', job, writes, k + 1))
            && (!ok ==> Stopped(a, m, m', job, writes, k))
  {
    hide WriteEffect, Cell, OnDisk, Sha1Spec.Digest, Progress, StorePiece, Fetched, Written;
    assert TableShape(m) && OnlyTable(a, m) && m.files == Written(a, job, writes, k) && OnDisk(a, job, m.files, k)
           && (m.table.value.states[job.first + k] == COMPLETE <==> Before(a, job, k)) by {
      ProgressParts(a, m, job, writes, k);
    }
    var i, data := job.first + k, Fetched(a, job, k);
    if Before(a, job, k) {
      SkippedTurn(a, m, job, writes, k);
    } else if WriteEffect(a.meta.OutputLengths(), m.files, i * a.meta.pieceLength, data, o.files, o.ok) {
      if k >= |writes| {
        assert !o.ok && o.files == m.files;
      }
      OneMoreOnDisk(a, job, m.files, o.files, k, o.ok);
      if o.ok && RightDigest(a, job, k) {
        StoredTurn(a, m, job, writes, k);
      }
    }
  }

  lemma ProgressParts(a: Managed, m: Managed, job: WebJob, writes: seq<WriteOutcome>, k: nat)
    requires BatchFits(a, job) && k < |job.sizes| && Progress(a, m, job, writes, k)
    ensures TableShape(m) && OnlyTable(a, m) && m.files == Written(a, job, writes, k) && OnDisk(a, job, m.files, k)
    ensures m.table.value.states[job.first + k] == COMPLETE <==> Before(a, job, k)
  {
    hide OnDisk;
  }

  lemma SkippedTurn(a: Managed, m: Managed, job: WebJob, writes: seq<WriteOutcome>, k: nat)
    requires BatchFits(a, job) && k < |job.sizes| && Progress(a, m, job, writes, k) && Before(a, job, k)
    ensures Progress(a, m, job, writes, k + 1)
  {
    hide OnDisk;
    NothingToSave(a, job, m.files, k);
  }

  lemma StoredTurn(a: Managed, m: Managed, job: WebJob, writes: seq<WriteOutcome>, k: nat)
    requires BatchFits(a, job) && k < |job.sizes| && Progress(a, m, job, writes, k) && !Before(a, job, k)
    requires k < |writes| && OnDisk(a, job, writes[k].files, k + 1)
    ensures Progress(a, StorePiece(m, job.first + k, job.sizes[k], writes[k].files), job, writes, k + 1)
  {
    hide OnDisk, SetBit;
  }

  lemma NothingToSave(a: Managed, job: WebJob, files: Files, k: nat)
    requires BatchFits(a, job) && k < |job.sizes| && OnDisk(a, job, files, k) && Before(a, job, k)
    ensures OnDisk(a, job, files, k + 1)
  {
    hide Cell;
  }

  /** After a failure the remaining turns are not taken. */
  lemma {:induction false} StaysFailed(mt: Managed, job: WebJob, writes: seq<WriteOutcome>, k: nat, n: nat)
    requires TableShape(mt) && WebJobShape(job) && k <= n <= |job.sizes|
    requires !SaveBatch(mt, job, writes, k).1
    ensures SaveBatch(mt, job, writes, n) == SaveBatch(mt, job, writes, k)
  {
    hide SaveOne;
    if k < n {
      StaysFailed(mt, job, writes, k, n - 1);
    }
  }

  lemma {:induction false} TurnsSaved(a: Managed, job: WebJob, writes: seq<WriteOutcome>, k: nat)
    requires BatchFits(a, job) && WebJobShape(job) && k <= |job.sizes|
    requires forall i :: 0 <= i < |job.sizes| ==> Fetched(a, job, i) == BatchPiece(job, i)
    requires forall i :: 0 <= i < k ==> Saves(a, job, writes, i)
    ensures var (m, ok) := SaveBatch(a, job, writes, k); ok && Progress(a, m, job, writes, k)
  {
    hide SaveOne, Saves, BatchPiece, Fetched;
    if k == 0 {
      NothingSaved(a, job, writes);
    } else {
      TurnsSaved(a, job, writes, k - 1);
      var m := SaveBatch(a, job, writes, k - 1).0;
      ProgressParts(a, m, job, writes, k - 1);
      hide Progress;
      SaveTurnIs(a, m, job, writes, k - 1, if k - 1 < |writes| then writes[k - 1] else WriteOutcome(m.files, false));
    }
  }

  lemma NothingSaved(a: Managed, job: WebJob, writes: seq<WriteOutcome>)
    requires BatchFits(a, job)
    ensures Progress(a, a, job, writes, 0)
  {
  }

  lemma TurnFails(a: Managed, job: WebJob, writes: seq<WriteOutcome>, k: nat)
    requires BatchFits(a, job) && WebJobShape(job) && k < |job.sizes|
    requires forall i :: 0 <= i < |job.sizes| ==> Fetched(a, job, i) == BatchPiece(job, i)
    requires FirstFailure(a, job, writes, k)
    ensures SaveBatch(a, job, writes, k).1 && Progress(a, SaveBatch(a, job, writes, k).0, job, writes, k)
    ensures TableShape(SaveBatch(a, job, writes, k).0)
    ensures !SaveBatch(a, job, writes, k + 1).1
    ensures Stopped(a, SaveBatch(a, job, writes, k).0, SaveBatch(a, job, writes, k + 1).0, job, writes, k)
  {
    hide SaveOne, Saves, BatchPiece, Fetched, Stopped;
    TurnsSaved(a, job, writes, k);
    var m := SaveBatch(a, job, writes, k).0;
    ProgressParts(a, m, job, writes, k);
    hide Progress;
    SaveTurnIs(a, m, job, writes, k, if k < |writes| then writes[k] else WriteOutcome(m.files, false));
  }

  /** The first failing turn ends the loop. */
  lemma TurnsStopped(a: Managed, job: WebJob, writes: seq<WriteOutcome>, k: nat)
    requires BatchFits(a, job) && WebJobShape(job) && k < |job.sizes|
    requires forall i :: 0 <= i < |job.sizes| ==> Fetched(a, job, i) == BatchPiece(job, i)
    requires FirstFailure(a, job, writes, k)
    ensures var m, r := SaveBatch(a, job, writes, k).0, SaveBatch(a, job, writes, |job.sizes|);
            !r.1 && Progress(a, m, job, writes, k) && TableShape(m) && Stopped(a, m, r.0, job, writes, k)
    ensures !Before(a, job, k)
  {
    hide SaveBatch, BatchPiece, Fetched, Stopped, RightDigest, Possible, Progress;
    TurnFails(a, job, writes, k);
    StaysFailed(a, job, writes, k + 1, |job.sizes|);
  }

  lemma StoppedIsPart(a: Managed, m: Managed, m': Managed, job: WebJob, writes: seq<WriteOutcome>, k: nat)
    requires BatchFits(a, job) && k < |job.sizes| && Progress(a, m, job, writes, k) && Stopped(a, m, m', job, writes, k)
    requires !Before(a, job, k)
    ensures var b := m'.(table := Some(ReleaseRange(m'.table.value, job.first, |job.sizes|)));
            OnlyTable(a, b) && PartSaved(a, b, job, writes, k)
  {
    hide OnDisk, RightDigest, Possible, Written, SavedUpTo, ReleaseRange;
    StatesStopped(a, m, m', job, writes, k);
  }

  lemma StatesStopped(a: Managed, m: Managed, m': Managed, job: WebJob, writes: seq<WriteOutcome>, k: nat)
    requires BatchFits(a, job) && k < |job.sizes| && Progress(a, m, job, writes, k) && Stopped(a, m, m', job, writes, k)
    requires !Before(a, job, k)
    ensures SavedUpTo(a, m'.(table := Some(ReleaseRange(m'.table.value, job.first, |job.sizes|))), job, k)
  {
    hide OnDisk, RightDigest, Possible, Written, ReleaseRange, Gained;
    var i, n := job.first + k, |job.sizes|;
    var old_, before, after := a.table.value.states, m.table.value.states, m'.table.value.states;
    assert |before| == |old_| && after == before[i := FREE] && old_[i] != COMPLETE;
  }

  lemma ProgressIsAll(a: Managed, m: Managed, job: WebJob, writes: seq<WriteOutcome>)
    requires BatchFits(a, job) && Progress(a, m, job, writes, |job.sizes|)
    ensures OnlyTable(a, m) && AllSaved(a, m, job, writes)
  {
    hide OnDisk, Written;
  }

  lemma CollectedBatch(a: Managed, job: WebJob, writes: seq<WriteOutcome>)
    requires BatchFits(a, job) && WebJobShape(job)
    requires forall i :: 0 <= i < |job.sizes| ==> Fetched(a, job, i) == BatchPiece(job, i)
    ensures BatchOutcome(a, CollectInto(a, job, writes), job, writes)
  {
    hide SaveBatch, Saves, BatchPiece, Fetched, Progress, Stopped, AllSaved, PartSaved;
    var n := |job.sizes|;
    if job.ok {
      if k: nat :| k < n && FirstFailure(a, job, writes, k) {
        TurnsStopped(a, job, writes, k);
        StoppedIsPart(a, SaveBatch(a, job, writes, k).0, SaveBatch(a, job, writes, n).0, job, writes, k);
        assert forall l :: 0 <= l < n && FirstFailure(a, job, writes, l) ==> l == k;
      } else {
        AllOrFirst(a, job, writes, n);
        TurnsSaved(a, job, writes, n);
        ProgressIsAll(a, SaveBatch(a, job, writes, n).0, job, writes);
      }
    }
  }

  lemma {:induction false} AllOrFirst(a: Managed, job: WebJob, writes: seq<WriteOutcome>, n: nat)
    requires BatchFits(a, job) && n <= |job.sizes|
    ensures (forall k :: 0 <= k < n ==> Saves(a, job, writes, k))
            || exists k :: 0 <= k < n && FirstFailure(a, job, writes, k)
  {
    hide Saves;
    if n > 0 {
      AllOrFirst(a, job, writes, n - 1);
      assert FirstFailure(a, job, writes, n - 1) <==>
             !Saves(a, job, writes, n - 1) && forall i :: 0 <= i < n - 1 ==> Saves(a, job, writes, i);
    }
  }

  // ----- the step ---------------------------------------------------------------------

  /** A slot without a finished job is passed over. Otherwise it is emptied, and the run that
      is downloading under the job's generation, if any, gets the batch. */
  ghost predicate BatchTaken(w: World, w': World, j: nat, writes: seq<WriteOutcome>) {
    if !HasJob(w.web, j) || !w.web[j].value.done then w' == w
    else
      var job := w.web[j].value;
      && w' == w.(torrents := w'.torrents, web := w.web[j := None]) && |w'.torrents| == |w.torrents|
      && forall t :: 0 <= t < |w.torrents| ==>
           if w.torrents[t].generation == job.generation && w.torrents[t].state == DOWNLOADING
           then BatchFits(w.torrents[t], job) && BatchOutcome(w.torrents[t], w'.torrents[t], job, writes)
           else w'.torrents[t] == w.torrents[t]
  }

  lemma BatchCollected(w: World, j: nat, writes: seq<WriteOutcome>)
    requires Inv(w)
    ensures BatchTaken(w, Apply(w, EvCollectWeb(j, writes)), j, writes)
  {
    hide Apply;
    CollectWebStep(w, j, writes);
    CollectWebIs(w, j, writes);
  }

  lemma CollectWebIs(w: World, j: nat, writes: seq<WriteOutcome>)
    requires Inv(w)
    ensures BatchTaken(w, CollectWeb(w, j, writes), j, writes)
  {
    hide Inv, CollectInto, BatchFits, BatchOutcome, TableShape, WebJobShape;
    if !HasJob(w.web, j) || !w.web[j].value.done {
      return;
    }
    GenerationsOf(w);
    var job := w.web[j].value;
    var live := FindLive(w, job.generation, |w.torrents|);
    if live.Some? {
      var t := live.value;
      LiveBatch(w, t, j);
      CollectedBatch(w.torrents[t], job, writes);
      forall u | 0 <= u < |w.torrents| && IsLive(w, u, job.generation)
        ensures u == t
      {
        LiveIsUnique(w, job.generation, t, u);
      }
    }
    forall t | 0 <= t < |w.torrents|
      ensures IsLive(w, t, job.generation) <==>
              w.torrents[t].generation == job.generation && w.torrents[t].state == DOWNLOADING
    {
    }
  }

  lemma LiveBatch(w: World, t: nat, j: nat)
    requires Inv(w) && HasJob(w.web, j) && IsLive(w, t, w.web[j].value.generation)
    ensures var a, job := w.torrents[t], w.web[j].value;
            && TableShape(a) && WebJobShape(job) && BatchFits(a, job)
            && forall i :: 0 <= i < |job.sizes| ==> Fetched(a, job, i) == BatchPiece(job, i)
  {
    hide Inv, Fetched, BatchPiece, PeersOk, CandidatesOk, DiskOk, WebOk, ConnOk;
    LiveShape(w, t);
    JobOf(w, t, j);
    RunOf(w, t);
    assert BatchShape(w.torrents[t], w.web[j].value);
    hide BatchShape, RunOk;
    Fits(w.torrents[t], w.web[j].value);
  }
}
