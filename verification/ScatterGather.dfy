/** Writing every piece, in any order and with failed attempts in between, and reading
    the files back are inverse to each other. */
module ScatterGather {
  import opened Bytes
  import opened Torrent
  import opened Disk
  import opened Segments
  import opened WebSeed

  /** One call of the writer and its verdict. */
  datatype Step = Step(index: nat, ok: bool)

  function PieceBytes(t: Metainfo, content: seq<byte>, index: nat): seq<byte>
    requires t.Accepted() && |content| == t.totalSize && index < t.NumPieces()
  {
    PieceGeometry(t, index);
    content[t.PieceStart(index)..t.PieceStart(index) + t.PieceSize(index)]
  }

  /** The files before each step and at the end. */
  ghost predicate Written(t: Metainfo, content: seq<byte>, steps: seq<Step>, states: seq<Files>)
    requires t.Accepted() && |content| == t.totalSize
  {
    && |states| == |steps| + 1
    && forall k :: 0 <= k < |steps| ==> WrittenStep(t, content, steps[k], states[k], states[k + 1])
  }

  ghost predicate WrittenStep(t: Metainfo, content: seq<byte>, step: Step, files: Files, files': Files)
    requires t.Accepted() && |content| == t.totalSize
  {
    && step.index < t.NumPieces()
    && WriteEffect(t.OutputLengths(), files, t.PieceStart(step.index), PieceBytes(t, content, step.index),
                   files', step.ok)
  }

  predicate Saved(steps: seq<Step>, index: int) {
    exists k :: 0 <= k < |steps| && steps[k].ok && steps[k].index == index
  }

  lemma WrittenPrefix(t: Metainfo, content: seq<byte>, steps: seq<Step>, states: seq<Files>)
    requires t.Accepted() && |content| == t.totalSize && Written(t, content, steps, states) && steps != []
    ensures Written(t, content, steps[..|steps| - 1], states[..|steps|])
  {
    hide WrittenStep;
    var n := |steps| - 1;
    forall k | 0 <= k < n
      ensures WrittenStep(t, content, steps[..n][k], states[..n + 1][k], states[..n + 1][k + 1])
    {
      assert WrittenStep(t, content, steps[k], states[k], states[k + 1]);
    }
  }

  /** The bytes of a saved piece are in place and stay in place, whatever is written
      afterwards, failed attempts at the same piece included. */
  lemma {:induction false} SavedStays(t: Metainfo, content: seq<byte>, steps: seq<Step>, states: seq<Files>, g: int)
    requires t.Accepted() && |content| == t.totalSize && Written(t, content, steps, states)
    requires 0 <= g < t.totalSize && Saved(steps, g / t.pieceLength)
    ensures |states[|steps|]| == |t.OutputLengths()|
    ensures Cell(t.OutputLengths(), states[|steps|], g) == Some(content[g])
  {
    hide Cell, WriteEffect;
    var n := |steps| - 1;
    var step, piece := steps[n], g / t.pieceLength;
    assert WrittenStep(t, content, step, states[n], states[n + 1]);
    PiecesPartition(t, g);
    PieceGeometry(t, step.index);
    EffectAt(t.OutputLengths(), states[n], t.PieceStart(step.index), PieceBytes(t, content, step.index),
             states[n + 1], step.ok, g);
    if step.index != piece || !step.ok {
      var k :| 0 <= k < |steps| && steps[k].ok && steps[k].index == piece;
      WrittenPrefix(t, content, steps, states);
      assert steps[..n][k] == steps[k];
      SavedStays(t, content, steps[..n], states[..n + 1], g);
      assert step.index != piece ==> !InPiece(t, step.index, g);
    }
  }

  /** The effect of one write at one offset. */
  lemma EffectAt(lengths: seq<int>, files: Files, start: int, data: seq<byte>, files': Files, ok: bool, g: int)
    requires WriteEffect(lengths, files, start, data, files', ok)
    ensures |files| == |files'| == |lengths|
    ensures ok && start <= g < start + |data| ==> Cell(lengths, files', g) == Some(data[g - start])
    ensures start <= g < start + |data| ==>
              Cell(lengths, files', g) == Some(data[g - start]) || Cell(lengths, files', g) == Cell(lengths, files, g)
    ensures !(start <= g < start + |data|) && Cell(lengths, files, g).Some? ==>
              Cell(lengths, files', g) == Cell(lengths, files, g)
  {
  }

  ghost predicate Complete(t: Metainfo, content: seq<byte>, files: Files) {
    && |files| == |t.OutputLengths()|
    && |content| == t.totalSize
    && forall g :: 0 <= g < t.totalSize ==> Cell(t.OutputLengths(), files, g) == Some(content[g])
  }

  /** Scatter: once every piece is saved the files hold the content. */
  lemma AllSavedIsComplete(t: Metainfo, content: seq<byte>, steps: seq<Step>, states: seq<Files>)
    requires t.Accepted() && |content| == t.totalSize && Written(t, content, steps, states)
    requires forall index :: 0 <= index < t.NumPieces() ==> Saved(steps, index)
    ensures Complete(t, content, states[|steps|])
  {
    hide Cell, Saved, WrittenStep, Sum, NonNegative, PieceCount;
    var lengths, files := t.OutputLengths(), states[|steps|];
    forall g | 0 <= g < t.totalSize
      ensures |files| == |lengths| && Cell(lengths, files, g) == Some(content[g])
    {
      PieceOfOffset(t, g);
      assert Saved(steps, g / t.pieceLength);
      SavedStays(t, content, steps, states, g);
    }
    PieceOfOffset(t, 0);
    SavedStays(t, content, steps, states, 0);
  }

  lemma PieceOfOffset(t: Metainfo, g: int)
    requires t.Accepted() && 0 <= g < t.totalSize
    ensures 0 <= g / t.pieceLength < t.NumPieces()
  {
    hide Metainfo.Accepted, Metainfo.NumPieces, Metainfo.PieceSize, Metainfo.PieceStart;
    PiecesPartition(t, g);
  }

  /** The part of the content that belongs into file i. */
  function FileBytes(lengths: seq<int>, content: seq<byte>, i: nat): seq<byte>
    requires NonNegative(lengths) && i < |lengths| && Sum(lengths) == |content|
  {
    FileStartStep(lengths, i);
    FileStartMonotone(lengths, i, i + 1);
    content[FileStart(lengths, i)..FileStart(lengths, i) + lengths[i]]
  }

  /** In complete files every file begins with its part of the content. */
  lemma FileBeginsRight(t: Metainfo, content: seq<byte>, files: Files, i: nat)
    requires t.Accepted() && Complete(t, content, files) && i < |files|
    ensures var n := t.OutputLengths()[i];
            n <= |files[i]| && files[i][..n] == FileBytes(t.OutputLengths(), content, i)
  {
    hide Cell, FileStart;
    var lengths := t.OutputLengths();
    FileStartStep(lengths, i);
    FileStartMonotone(lengths, i, i + 1);
    if 0 < lengths[i] {
      CellIsFileByte(lengths, files, i, lengths[i] - 1);
    }
    forall o | 0 <= o < lengths[i]
      ensures files[i][o] == content[FileStart(lengths, i) + o]
    {
      CellIsFileByte(lengths, files, i, o);
      assert Cell(lengths, files, FileStart(lengths, i) + o) == Some(content[FileStart(lengths, i) + o]);
    }
  }

  lemma {:induction false} TailsKept(t: Metainfo, content: seq<byte>, steps: seq<Step>, states: seq<Files>, i: nat)
    requires t.Accepted() && |content| == t.totalSize && Written(t, content, steps, states)
    requires i < |t.OutputLengths()| && |states[0]| == |t.OutputLengths()|
    ensures |states[|steps|]| == |t.OutputLengths()|
    ensures TailKept(t.OutputLengths()[i], states[0][i], states[|steps|][i])
    decreases |steps|
  {
    if |steps| > 0 {
      var n := |steps| - 1;
      WrittenPrefix(t, content, steps, states);
      TailsKept(t, content, steps[..n], states[..n + 1], i);
      assert WrittenStep(t, content, steps[n], states[n], states[n + 1]);
    }
  }

  /** Exactly when is file i the file it should be? When the file that was there before
      was not longer: the writer never truncates one of several files. */
  lemma FileExactIff(t: Metainfo, content: seq<byte>, steps: seq<Step>, states: seq<Files>, i: nat)
    requires t.Accepted() && |content| == t.totalSize && Written(t, content, steps, states)
    requires Complete(t, content, states[|steps|]) && |states[0]| == |t.OutputLengths()| && i < |t.OutputLengths()|
    ensures states[|steps|][i] == FileBytes(t.OutputLengths(), content, i)
            <==> |states[0][i]| <= t.OutputLengths()[i]
  {
    hide Cell;
    TailsKept(t, content, steps, states, i);
    ExactIffNotLonger(t, content, states[0], states[|steps|], i);
  }

  /** The same for any writes that complete the files and keep the tails. */
  lemma ExactIffNotLonger(t: Metainfo, content: seq<byte>, before: Files, files: Files, i: nat)
    requires t.Accepted() && Complete(t, content, files) && |before| == |t.OutputLengths()| && i < |files|
    requires TailKept(t.OutputLengths()[i], before[i], files[i])
    ensures files[i] == FileBytes(t.OutputLengths(), content, i) <==> |before[i]| <= t.OutputLengths()[i]
  {
    hide Cell;
    FileBeginsRight(t, content, files, i);
    var file, n := files[i], t.OutputLengths()[i];
    if |file| == n {
      assert file[..n] == file;
    }
  }

  /** A file of three bytes where an earlier run left five keeps the last two. */
  lemma StaleTailStays()
    ensures WriteEffect([3], [[7, 7, 7, 8, 9]], 0, [1, 2, 3], [WriteAt([7, 7, 7, 8, 9], 0, [1, 2, 3])], true)
    ensures WriteAt([7, 7, 7, 8, 9], 0, [1, 2, 3]) == [1, 2, 3, 8, 9]
  {
    var old', new' := [7, 7, 7, 8, 9], WriteAt([7, 7, 7, 8, 9], 0, [1, 2, 3]);
    assert new' == [1, 2, 3, 8, 9];
    forall g
      ensures Cell([3], [old'], g) == if 0 <= g < 3 then Some(old'[g]) else None
      ensures Cell([3], [new'], g) == if 0 <= g < 3 then Some(new'[g]) else None
    {
      assert [3][1..] == [];
    }
    assert TailKept(3, old', new');
  }

  // ----- the files laid end to end ---------------------------------------------

  function Flat(files: Files): seq<byte> {
    if files == [] then [] else files[0] + Flat(files[1..])
  }

  /** If every file is its part of the content, the files laid end to end are the content. */
  lemma {:induction false} FlatFrom(lengths: seq<int>, content: seq<byte>, files: Files, i: nat)
    requires NonNegative(lengths) && Sum(lengths) == |content| && |files| == |lengths| && i <= |files|
    requires forall j :: 0 <= j < |files| ==> files[j] == FileBytes(lengths, content, j)
    ensures 0 <= FileStart(lengths, i) <= |content| && Flat(files[i..]) == content[FileStart(lengths, i)..]
    decreases |files| - i
  {
    FileStartMonotone(lengths, i, |lengths|);
    if i == |files| {
      assert lengths[..i] == lengths;
    } else {
      FileStartStep(lengths, i);
      FlatFrom(lengths, content, files, i + 1);
      assert files[i..][1..] == files[i + 1..];
      assert files[i..][0] == FileBytes(lengths, content, i);
      var a, b := FileStart(lengths, i), FileStart(lengths, i + 1);
      assert content[a..b] + content[b..] == content[a..];
    }
  }

  /** Scatter, as the concatenation: from files that are not longer than they should be,
      any order of writes that saves every piece ends with the content. */
  lemma ScatterYieldsContent(t: Metainfo, content: seq<byte>, steps: seq<Step>, states: seq<Files>)
    requires t.Accepted() && |content| == t.totalSize && Written(t, content, steps, states)
    requires forall index :: 0 <= index < t.NumPieces() ==> Saved(steps, index)
    requires |states[0]| == |t.OutputLengths()|
    requires forall i :: 0 <= i < |states[0]| ==> |states[0][i]| <= t.OutputLengths()[i]
    ensures Flat(states[|steps|]) == content
  {
    hide Cell;
    var lengths, files := t.OutputLengths(), states[|steps|];
    AllSavedIsComplete(t, content, steps, states);
    forall j | 0 <= j < |files|
      ensures files[j] == FileBytes(lengths, content, j)
    {
      FileExactIff(t, content, steps, states, j);
    }
    FlatFrom(lengths, content, files, 0);
    assert files[0..] == files;
    assert FileStart(lengths, 0) == 0;
  }

  // ----- gathering from the files ----------------------------------------------

  /** Gather: a mirror of complete files offers a piece if and only if the torrent has
      one file or no empty file lies strictly inside the piece; and whatever the reader
      accepts as that piece is that piece. */
  lemma GatherReturnsPiece(t: Metainfo, content: seq<byte>, seed: Seed, index: nat, bytes: seq<byte>)
    requires t.Accepted() && Complete(t, content, seed.remote) && index < t.NumPieces()
    ensures var start, end := t.PieceStart(index), t.PieceStart(index) + t.PieceSize(index);
            OffersPiece(t, seed, index) <==> !(t.multiFile && EmptyFileInside(t.OutputLengths(), start, end))
    ensures |bytes| == t.PieceSize(index) && Holds(t.OutputLengths(), seed.remote, t.PieceStart(index), bytes)
            ==> bytes == PieceBytes(t, content, index)
  {
    hide Cell;
    PieceGeometry(t, index);
    var start := t.PieceStart(index);
    if |bytes| == t.PieceSize(index) && Holds(t.OutputLengths(), seed.remote, start, bytes) {
      forall k | 0 <= k < |bytes|
        ensures bytes[k] == PieceBytes(t, content, index)[k]
      {
        assert Cell(t.OutputLengths(), seed.remote, start + k) == Some(content[start + k]);
      }
    }
  }
}
