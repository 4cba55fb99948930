/** Which batch a web seed is asked for, and what the worker hands in, said of the tables
    before and after. */
module BatchLaunch {
  import opened Bytes
  import opened Torrent
  import opened PieceMgr
  import opened Disk
  import opened EngineTypes
  import opened EngineSteps
  import opened EngineInvariants
  import opened EngineLifecycle
  import opened EngineTransfer
  import opened EngineRequests
  import opened EngineWeb
  import opened PeerEffects

  // ----- the choice of pieces -----------------------------------------------------------

  /** The number of bytes in n pieces from piece i on. */
  function Span(meta: Metainfo, i: nat, n: nat): int {
    if n > 0 && i + n == meta.NumPieces() then meta.totalSize - i * meta.pieceLength else n * meta.pieceLength
  }

  ghost predicate FreeAt(mt: Managed, i: nat) {
    mt.table.Some? && i < |mt.table.value.states| && mt.table.value.states[i] == FREE
  }

  ghost predicate FirstFree(mt: Managed, i: nat) {
    FreeAt(mt, i) && forall k: nat :: k < i ==> !FreeAt(mt, k)
  }

  /** Pieces i to i + n are free, at most four and at most 64 MiB, and with one more piece
      that would not be so. */
  ghost predicate LongestRun(mt: Managed, i: nat, n: nat) {
    && n <= 4 && (forall k: nat :: i <= k < i + n ==> FreeAt(mt, k))
    && (n > 0 ==> Span(mt.meta, i, n) <= 67108864)
    && (n == 4 || !FreeAt(mt, i + n) || Span(mt.meta, i, n + 1) > 67108864)
  }

  lemma SpanStep(meta: Metainfo, i: nat, n: nat)
    requires meta.Accepted() && i + n < meta.NumPieces()
    ensures Span(meta, i, n + 1) == Span(meta, i, n) + meta.PieceSize(i + n)
    ensures meta.PieceSize(i + n) == SizeOf(meta, i + n) > 0
  {
    PieceGeometry(meta, i + n);
    assert (i + n) * meta.pieceLength == i * meta.pieceLength + n * meta.pieceLength;
    assert (n + 1) * meta.pieceLength == n * meta.pieceLength + meta.pieceLength;
  }

  lemma {:induction false} CountIsLongest(mt: Managed, table: PieceTable, i: nat, k: nat, total: int)
    requires mt.table == Some(table) && TableShape(mt) && mt.meta.Accepted() && k <= 4
    requires forall l: nat :: i <= l < i + k ==> FreeAt(mt, l)
    requires total == Span(mt.meta, i, k) && (k > 0 ==> total <= 67108864) && i + k <= mt.meta.NumPieces()
    ensures LongestRun(mt, i, BatchCount(mt, table, i, k, total))
    decreases 4 - k
  {
    hide Span, FreeAt, TableShape, SizeOf, LongestRun;
    assert |table.states| == mt.meta.NumPieces() by { ShapeIs(mt); }
    assert FreeAt(mt, i + k) <==> i + k < |table.states| && table.states[i + k] == FREE by { FreeIs(mt, i + k); }
    if k < 4 && i + k < |table.states| && table.states[i + k] == FREE {
      SpanStep(mt.meta, i, k);
      if Span(mt.meta, i, k + 1) <= 67108864 {
        CountIsLongest(mt, table, i, k + 1, Span(mt.meta, i, k + 1));
      } else {
        EndsHere(mt, i, k);
      }
    } else {
      EndsHere(mt, i, k);
    }
  }

  lemma EndsHere(mt: Managed, i: nat, k: nat)
    requires k <= 4 && forall l: nat :: i <= l < i + k ==> FreeAt(mt, l)
    requires (k > 0 ==> Span(mt.meta, i, k) <= 67108864)
    requires k == 4 || !FreeAt(mt, i + k) || Span(mt.meta, i, k + 1) > 67108864
    ensures LongestRun(mt, i, k)
  {
    hide Span, FreeAt;
  }

  lemma ShapeIs(mt: Managed)
    requires TableShape(mt)
    ensures mt.table.Some? && |mt.table.value.states| == mt.meta.NumPieces()
  {
  }

  lemma FreeIs(mt: Managed, i: nat)
    ensures FreeAt(mt, i) <==> mt.table.Some? && i < |mt.table.value.states| && mt.table.value.states[i] == FREE
  {
  }

  lemma {:induction false} SizesAddUp(meta: Metainfo, i: nat, n: nat)
    requires meta.Accepted() && i + n <= meta.NumPieces()
    ensures Sum(BatchSizes(meta, i, n)) == Span(meta, i, n)
  {
    if n > 0 {
      SizesAddUp(meta, i, n - 1);
      SpanStep(meta, i, n - 1);
      var sizes := BatchSizes(meta, i, n);
      assert sizes[..n - 1] == BatchSizes(meta, i, n - 1);
      assert sizes == sizes[..n - 1] + [sizes[n - 1]];
      SumAppend(sizes[..n - 1], [sizes[n - 1]]);
      assert Sum([sizes[n - 1]]) == sizes[n - 1] + Sum([sizes[n - 1]][1..]);
    }
  }

  // ----- the jobs of a run ---------------------------------------------------------------

  /** The slots of the jobs that fetch for this generation. */
  ghost function Fetching(web: seq<Option<WebJob>>, g: nat): set<nat> {
    set j: nat | j < |web| && web[j].Some? && web[j].value.generation == g
  }

  lemma {:induction false} ActiveIsFetching(web: seq<Option<WebJob>>, g: nat)
    ensures WebActive(web, g) == |Fetching(web, g)|
  {
    if web != [] {
      var last := |web| - 1;
      ActiveIsFetching(web[..last], g);
      var before := Fetching(web[..last], g);
      assert Fetching(web, g) ==
             if web[last].Some? && web[last].value.generation == g then before + {last} else before;
    }
  }

  // ----- the step ----------------------------------------------------------------------

  /** The first empty slot of the job table. */
  ghost predicate FirstEmpty<J>(slots: seq<Option<J>>, slot: nat) {
    slot < |slots| && slots[slot].None? && forall k :: 0 <= k < slot ==> slots[k].Some?
  }

  /** May a batch be asked for: the run is served, has a web seed, fewer than four jobs and
      a free piece, and the job table an empty slot. */
  ghost predicate MayFetch(w: World, t: nat) {
    && t < |w.torrents|
    && var mt := w.torrents[t];
       && mt.state in {DOWNLOADING, ERROR} && mt.table.Some? && mt.meta.webSeedCount > 0
       && |Fetching(w.web, mt.generation)| < 4
       && (exists j: nat :: FirstEmpty(w.web, j)) && exists i: nat :: FirstFree(mt, i)
  }

  /** n pieces from i on are reserved, and the job in the slot names them and their sizes. */
  ghost predicate Launched(w: World, w': World, t: nat, slot: nat, i: nat, n: nat, buffer: seq<byte>) {
    && OnlyTorrentAndWeb(w, w', t) && HasJob(w'.web, slot) && slot < |w.web|
    && w'.web == w.web[slot := w'.web[slot]]
    && var a, b, job := w.torrents[t], w'.torrents[t], w'.web[slot].value;
       && b == a.(table := b.table) && SameCounters(a.table, b.table)
       && |b.table.value.states| == |a.table.value.states| && b.table.value.hashes == a.table.value.hashes
       && (forall k :: 0 <= k < |a.table.value.states| ==>
             b.table.value.states[k] == if i <= k < i + n then REQUESTED else a.table.value.states[k])
       && job == WebJob(a.generation, a.tableId, a.meta, i, job.sizes, buffer, false, false)
       && |job.sizes| == n && forall k :: 0 <= k < n ==> job.sizes[k] == SizeOf(a.meta, i + k)
  }

  ghost predicate OnlyTorrentAndWeb(w: World, w': World, t: nat) {
    && t < |w.torrents| == |w'.torrents|
    && w' == w.(torrents := w'.torrents, web := w'.web)
    && forall u :: 0 <= u < |w.torrents| && u != t ==> w'.torrents[u] == w.torrents[u]
  }

  /** One attempt of schedule_web_seed. */
  ghost predicate Attempted(w: World, w': World, t: nat, resources: bool, buffer: seq<byte>) {
    if !MayFetch(w, t) then w' == w
    else
      forall slot: nat, i: nat, n: nat ::
        FirstEmpty(w.web, slot) && FirstFree(w.torrents[t], i) && LongestRun(w.torrents[t], i, n) ==>
          if n == 0 || !resources || |buffer| != Span(w.torrents[t].meta, i, n) then w' == w
          else Launched(w, w', t, slot, i, n, buffer)
  }

  lemma BatchStarts(w: World, t: nat, resources: bool, buffer: seq<byte>)
    requires Inv(w)
    ensures Attempted(w, Apply(w, EvScheduleWeb(t, resources, buffer)), t, resources, buffer)
  {
    hide ScheduleWeb, Attempted;
    ScheduleWebIs(w, t, resources, buffer);
  }

  lemma ScheduleWebIs(w: World, t: nat, resources: bool, buffer: seq<byte>)
    requires Inv(w)
    ensures Attempted(w, ScheduleWeb(w, t, resources, buffer), t, resources, buffer)
  {
    hide Inv, ScheduleWeb, LongestRun, Launched, MayFetch, FirstFree, FirstEmpty, Span;
    if MayFetch(w, t) {
      assert t < |w.torrents| by { MayFetchInside(w, t); }
      forall slot: nat, i: nat, n: nat |
        FirstEmpty(w.web, slot) && FirstFree(w.torrents[t], i) && LongestRun(w.torrents[t], i, n)
        ensures var w' := ScheduleWeb(w, t, resources, buffer);
                if n == 0 || !resources || |buffer| != Span(w.torrents[t].meta, i, n) then w' == w
                else Launched(w, w', t, slot, i, n, buffer)
      {
        BatchStartsAt(w, t, resources, buffer, slot, i, n);
      }
    } else {
      NoBatch(w, t, resources, buffer);
    }
  }

  lemma MayFetchInside(w: World, t: nat)
    requires MayFetch(w, t)
    ensures t < |w.torrents|
  {
  }

  lemma NextIsFirstFree(w: World, t: nat)
    requires Inv(w) && t < |w.torrents| && w.torrents[t].table.Some?
    ensures var next := w.torrents[t].table.value.GetNext(None);
            && (next >= 0 ==> FirstFree(w.torrents[t], next))
            && forall i: nat :: FirstFree(w.torrents[t], i) ==> i == next
  {
    hide Inv, PieceTable.GetNext;
    ConsistentOf(w, t);
    var table := w.torrents[t].table.value;
    GetNextFinds(table, None);
    forall i: nat
      ensures FreeAt(w.torrents[t], i) <==> table.Available(i, None)
    {
    }
  }

  lemma EmptyIs<J>(slots: seq<Option<J>>)
    ensures var slot := FreeSlot(slots);
            && (slot.Some? ==> FirstEmpty(slots, slot.value))
            && forall j: nat :: FirstEmpty(slots, j) ==> slot == Some(j)
  {
  }

  lemma NoBatch(w: World, t: nat, resources: bool, buffer: seq<byte>)
    requires Inv(w) && !MayFetch(w, t)
    ensures ScheduleWeb(w, t, resources, buffer) == w
  {
    hide Inv, PieceTable.GetNext, BatchCount, WebActive, FirstFree, FirstEmpty, Fetching;
    if Schedulable(w, t) {
      ActiveIsFetching(w.web, w.torrents[t].generation);
      NextIsFirstFree(w, t);
      EmptyIs(w.web);
    }
  }

  lemma {:induction false} OneLongest(mt: Managed, i: nat, n: nat, m: nat)
    requires TableShape(mt) && mt.meta.Accepted() && LongestRun(mt, i, n) && LongestRun(mt, i, m)
    ensures n == m
  {
    if n < m {
      ShorterRun(mt, i, n, m);
    } else if m < n {
      ShorterRun(mt, i, m, n);
    }
  }

  lemma ShorterRun(mt: Managed, i: nat, n: nat, m: nat)
    requires TableShape(mt) && mt.meta.Accepted() && n < m && LongestRun(mt, i, n)
    ensures !LongestRun(mt, i, m)
  {
    if LongestRun(mt, i, m) {
      assert FreeAt(mt, i + n);
      assert FreeAt(mt, i + m - 1);
      SpanGrows(mt.meta, i, n + 1, m);
      assert false;
    }
  }

  lemma {:induction false} SpanGrows(meta: Metainfo, i: nat, n: nat, m: nat)
    requires meta.Accepted() && n <= m && i + m <= meta.NumPieces()
    ensures Span(meta, i, n) <= Span(meta, i, m)
  {
    hide Span;
    if n < m {
      SpanGrows(meta, i, n, m - 1);
      SpanStep(meta, i, m - 1);
    }
  }

  lemma RunIsCount(w: World, t: nat, i: nat, n: nat)
    requires Inv(w) && t < |w.torrents| && w.torrents[t].table.Some?
    requires FirstFree(w.torrents[t], i) && LongestRun(w.torrents[t], i, n)
    ensures var mt := w.torrents[t];
            BatchCount(mt, mt.table.value, i, 0, 0) == n && Sum(BatchSizes(mt.meta, i, n)) == Span(mt.meta, i, n)
  {
    hide Inv, BatchCount, LongestRun, Span, Sum;
    var mt := w.torrents[t];
    ShapeOf(w, t);
    SpanNone(mt.meta, i);
    CountIsLongest(mt, mt.table.value, i, 0, 0);
    OneLongest(mt, i, n, BatchCount(mt, mt.table.value, i, 0, 0));
    BatchIsFree(mt, mt.table.value, i);
    SizesAddUp(mt.meta, i, n);
  }

  lemma BatchStartsAt(w: World, t: nat, resources: bool, buffer: seq<byte>, slot: nat, i: nat, n: nat)
    requires Inv(w) && MayFetch(w, t)
    requires FirstEmpty(w.web, slot) && FirstFree(w.torrents[t], i) && LongestRun(w.torrents[t], i, n)
    ensures var w' := ScheduleWeb(w, t, resources, buffer);
            if n == 0 || !resources || |buffer| != Span(w.torrents[t].meta, i, n) then w' == w
            else Launched(w, w', t, slot, i, n, buffer)
  {
    hide Inv, PieceTable.GetNext, BatchCount, WebActive, FirstEmpty, Fetching, LongestRun, Span, Sum;
    var mt := w.torrents[t];
    ShapeOf(w, t);
    ActiveIsFetching(w.web, mt.generation);
    NextIsFirstFree(w, t);
    EmptyIs(w.web);
    RunIsCount(w, t, i, n);
    BatchIsFree(mt, mt.table.value, i);
    SlotInside(w.web, slot);
    var sizes := BatchSizes(mt.meta, i, n);
    forall k | 0 <= k < n
      ensures sizes[k] == SizeOf(mt.meta, i + k)
    {
      SpanStep(mt.meta, i, k);
    }
  }

  lemma SlotInside<J>(slots: seq<Option<J>>, slot: nat)
    requires FirstEmpty(slots, slot)
    ensures slot < |slots| && slots[slot].None?
  {
  }

  lemma SpanNone(meta: Metainfo, i: nat)
    ensures Span(meta, i, 0) == 0
  {
  }

  /** The worker's bytes and verdict are stored in its own job, once; then the job is done. */
  lemma WorkerHandsIn(w: World, j: nat, ok: bool, data: seq<byte>)
    requires HasJob(w.web, j)
    ensures var job := w.web[j].value;
            Apply(w, EvWebWorker(j, ok, data)) ==
            if job.done || |data| != |job.data| then w
            else w.(web := w.web[j := Some(WebJob(job.generation, job.tableId, job.meta, job.first, job.sizes,
                                                  data, ok, true))])
  {
  }
}
