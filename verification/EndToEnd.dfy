/** The download engine, the output files and the mirror reader joined: what a finished
    torrent has on disk is one content, and serving it gives back verified pieces. */
module EndToEnd {
  import opened Bytes
  import opened Torrent
  import opened Disk
  import opened Segments
  import opened WebSeed
  import opened ScatterGather
  import opened EngineTypes
  import opened EngineSteps
  import opened EngineInvariants
  import EngineLifecycle
  import EngineProgress
  import EngineTheorems
  import FileIo
  import Sha1Spec

  /** Every byte of a finished torrent is on disk. */
  lemma DoneIsStored(events: seq<Event>, t: nat)
    requires t < |Run(INITIAL_WORLD, events).torrents| && Run(INITIAL_WORLD, events).torrents[t].state == DONE
    ensures var mt := Run(INITIAL_WORLD, events).torrents[t];
            && mt.meta.Accepted() && |mt.files| == |mt.meta.OutputLengths()|
            && Stored(mt.meta.OutputLengths(), mt.files, 0, mt.meta.totalSize)
            && forall i :: 0 <= i < mt.meta.NumPieces() ==> Verified(mt.meta, mt.files, i)
  {
    hide Run, Inv, RunOk, Cell, Sum, NonNegative, Verified, PeersOk, TableOk, DiskOk, CandidatesOk;
    EngineTheorems.DoneMeansVerified(events, t);
    EngineTheorems.ReachableRun(events, t);
    AllStored(Run(INITIAL_WORLD, events).torrents[t]);
  }

  lemma AllStored(mt: Managed)
    requires mt.meta.Accepted() && |mt.files| == |mt.meta.OutputLengths()|
    requires forall i :: 0 <= i < mt.meta.NumPieces() ==> Verified(mt.meta, mt.files, i)
    ensures Stored(mt.meta.OutputLengths(), mt.files, 0, mt.meta.totalSize)
  {
    hide Cell, Sum, NonNegative, Verified, InPiece, PieceCount;
    forall g | 0 <= g < mt.meta.totalSize
      ensures Cell(mt.meta.OutputLengths(), mt.files, g).Some?
    {
      PieceOfOffset(mt.meta, g);
      VerifiedByte(mt, g);
    }
  }

  lemma VerifiedByte(mt: Managed, g: int)
    requires mt.meta.Accepted() && |mt.files| == |mt.meta.OutputLengths()| && 0 <= g < mt.meta.totalSize
    requires 0 <= g / mt.meta.pieceLength && Verified(mt.meta, mt.files, g / mt.meta.pieceLength)
    ensures Cell(mt.meta.OutputLengths(), mt.files, g).Some?
  {
    hide Cell, Sum, NonNegative, PieceCount;
    PiecesPartition(mt.meta, g);
    VerifiedIsStored(mt.meta, mt.files, g / mt.meta.pieceLength);
  }

  lemma VerifiedIsStored(meta: Metainfo, files: Files, i: nat)
    requires Verified(meta, files, i)
    ensures Stored(meta.OutputLengths(), files, meta.PieceStart(i), meta.PieceSize(i))
  {
  }

  /** What a finished torrent has on disk. */
  ghost function ContentOf(mt: Managed): (content: seq<byte>)
    requires mt.meta.Accepted() && |mt.files| == |mt.meta.OutputLengths()|
    requires Stored(mt.meta.OutputLengths(), mt.files, 0, mt.meta.totalSize)
    ensures Complete(mt.meta, content, mt.files)
  {
    StoredBytes(mt.meta.OutputLengths(), mt.files, 0, mt.meta.totalSize)
  }

  lemma ContentPiece(mt: Managed, i: nat)
    requires mt.meta.Accepted() && |mt.files| == |mt.meta.OutputLengths()|
    requires Stored(mt.meta.OutputLengths(), mt.files, 0, mt.meta.totalSize)
    requires i < mt.meta.NumPieces() && Verified(mt.meta, mt.files, i)
    ensures Sha1Spec.Digest(PieceBytes(mt.meta, ContentOf(mt), i)) == mt.meta.ExpectedHash(i)
  {
    hide Cell, Sha1Spec.Digest;
    PieceGeometry(mt.meta, i);
    var lengths, start, size := mt.meta.OutputLengths(), mt.meta.PieceStart(i), mt.meta.PieceSize(i);
    var stored := StoredBytes(lengths, mt.files, start, size);
    forall k | 0 <= k < size
      ensures stored[k] == PieceBytes(mt.meta, ContentOf(mt), i)[k]
    {
      assert Cell(lengths, mt.files, start + k) == Some(stored[k]);
      assert Cell(lengths, mt.files, start + k) == Some(ContentOf(mt)[start + k]);
    }
    assert stored == PieceBytes(mt.meta, ContentOf(mt), i);
  }

  /** After any run, a torrent that is DONE holds one content: every output file begins
      with its part of it, and every piece of it has the expected digest. */
  lemma DoneMeansContent(events: seq<Event>, t: nat)
    requires t < |Run(INITIAL_WORLD, events).torrents| && Run(INITIAL_WORLD, events).torrents[t].state == DONE
    ensures var mt := Run(INITIAL_WORLD, events).torrents[t];
            exists content :: HasContent(mt, content)
  {
    hide Run, Cell, Verified, Sha1Spec.Digest;
    var mt := Run(INITIAL_WORLD, events).torrents[t];
    DoneIsStored(events, t);
    var content := ContentOf(mt);
    forall i | 0 <= i < mt.meta.NumPieces()
      ensures Sha1Spec.Digest(PieceBytes(mt.meta, content, i)) == mt.meta.ExpectedHash(i)
    {
      ContentPiece(mt, i);
    }
    forall f | 0 <= f < |mt.files|
      ensures FileHolds(mt.meta, content, mt.files, f)
    {
      FileBeginsRight(mt.meta, content, mt.files, f);
    }
    assert HasContent(mt, content);
  }

  ghost predicate HasContent(mt: Managed, content: seq<byte>) {
    && mt.meta.Accepted() && Complete(mt.meta, content, mt.files)
    && (forall f :: 0 <= f < |mt.files| ==> FileHolds(mt.meta, content, mt.files, f))
    && forall i :: 0 <= i < mt.meta.NumPieces() ==>
         Sha1Spec.Digest(PieceBytes(mt.meta, content, i)) == mt.meta.ExpectedHash(i)
  }

  ghost predicate FileHolds(t: Metainfo, content: seq<byte>, files: Files, f: nat)
    requires t.Accepted() && |content| == t.totalSize && |files| == |t.OutputLengths()| && f < |files|
  {
    var n := t.OutputLengths()[f];
    0 <= n <= |files[f]| && files[f][..n] == FileBytes(t.OutputLengths(), content, f)
  }

  // ----- exact files -------------------------------------------------------------

  /** What a successful start finds on disk and what it leaves there. */
  lemma StartedRun(w: World, t: nat)
    requires Inv(w) && t < |w.torrents| && w.torrents[t].state !in {DOWNLOADING, DONE}
    ensures var w' := Apply(w, EvStart(t, Started));
            && Inv(w') && t < |w'.torrents| && w'.torrents[t].meta == w.torrents[t].meta
            && (!WithoutPieces(w.torrents[t].meta) ==>
                  && w'.torrents[t].table.Some?
                  && w'.torrents[t].files == FileIo.InitialFiles(w.torrents[t].meta, w.torrents[t].files))
  {
    hide Inv, ResetForStart;
    EngineTheorems.StepKeepsInv(w, EvStart(t, Started));
    assert w.torrents[t].state == STOPPED || w.torrents[t].state == ERROR;
    EngineLifecycle.ResetKeepsInv(w, t);
  }

  /** From a state in which a torrent has a piece table to any later state of its run the
      tails of its files are kept. */
  lemma RunKeepsTails(w: World, t: nat, events: seq<Event>, u: nat)
    requires Inv(w) && t < |w.torrents| && u < |Run(w, events).torrents|
    requires Run(w, events).torrents[u].generation == w.torrents[t].generation
    ensures Run(w, events).torrents[u].meta == w.torrents[t].meta
    ensures w.torrents[t].table.Some? ==> EngineProgress.TailsKept(w.torrents[t], Run(w, events).torrents[u])
  {
    hide AllTorrents, SocketsOk, BudgetOk, DiscOk, Run, EngineProgress.TailsKept;
    EngineProgress.RunIsLater(w, events);
  }

  /** Exactly when are the files of a finished torrent what they should be? A single
      output file always; file f of several if and only if the file that lay in its place
      when the run was started was not longer. */
  lemma DoneFileExactIff(before: seq<Event>, t: nat, events: seq<Event>, u: nat, content: seq<byte>, f: nat)
    requires var w := Run(INITIAL_WORLD, before);
             t < |w.torrents| && w.torrents[t].state !in {DOWNLOADING, DONE}
    requires var w := Run(INITIAL_WORLD, before);
             var started := Apply(w, EvStart(t, Started));
             var w' := Run(started, events);
             && t < |started.torrents| && u < |w'.torrents|
             && w'.torrents[u].generation == started.torrents[t].generation
             && HasContent(w'.torrents[u], content) && f < |w'.torrents[u].files|
    ensures var was := Run(INITIAL_WORLD, before).torrents[t];
            var mt := Run(Apply(Run(INITIAL_WORLD, before), EvStart(t, Started)), events).torrents[u];
            var lengths := mt.meta.OutputLengths();
            && f < |was.files| && |lengths| == |mt.files|
            && (mt.files[f] == FileBytes(lengths, content, f) <==> !mt.meta.multiFile || |was.files[f]| <= lengths[f])
            && (!mt.meta.multiFile ==> mt.files == [content])
  {
    hide Run, Apply, Inv, Cell, HashMatches, Verified;
    var w := Run(INITIAL_WORLD, before);
    EngineTheorems.ReachableInv(before);
    EngineLifecycle.RunOf(w, t);
    StartedRun(w, t);
    var started := Apply(w, EvStart(t, Started));
    RunKeepsTails(started, t, events, u);
    var mt := Run(started, events).torrents[u];
    WithPieces(mt.meta);
    ExactIffNotLonger(mt.meta, content, started.torrents[t].files, mt.files, f);
    if !mt.meta.multiFile {
      SingleFile(mt.meta, content);
    }
  }

  lemma WithPieces(t: Metainfo)
    requires t.Accepted()
    ensures !WithoutPieces(t)
  {
  }

  lemma SingleFile(t: Metainfo, content: seq<byte>)
    requires t.Accepted() && |content| == t.totalSize && !t.multiFile
    ensures FileBytes(t.OutputLengths(), content, 0) == content
  {
    assert FileStart(t.OutputLengths(), 0) == 0;
  }

  /** A mirror of the files of a finished torrent offers every piece that has no empty
      file strictly inside, and whatever the reader accepts from it verifies. */
  lemma DoneFilesServe(events: seq<Event>, t: nat, seed: Seed, i: nat, bytes: seq<byte>)
    requires t < |Run(INITIAL_WORLD, events).torrents| && Run(INITIAL_WORLD, events).torrents[t].state == DONE
    requires var mt := Run(INITIAL_WORLD, events).torrents[t];
             && seed.remote == mt.files && i < mt.meta.NumPieces() && SeedOf(seed, mt.meta)
             && |bytes| == mt.meta.PieceSize(i)
    ensures var meta := Run(INITIAL_WORLD, events).torrents[t].meta;
            var start, end := meta.PieceStart(i), meta.PieceStart(i) + meta.PieceSize(i);
            && (OffersPiece(meta, seed, i) <==> !(meta.multiFile && EmptyFileInside(meta.OutputLengths(), start, end)))
            && (Holds(meta.OutputLengths(), seed.remote, start, bytes) ==>
                  Sha1Spec.Digest(bytes) == meta.ExpectedHash(i))
  {
    hide Run, Cell, Verified, Sha1Spec.Digest, Holds, Stored, EmptyFileInside;
    var mt := Run(INITIAL_WORLD, events).torrents[t];
    DoneIsStored(events, t);
    ContentPiece(mt, i);
    GatherReturnsPiece(mt.meta, ContentOf(mt), seed, i, bytes);
  }
}
