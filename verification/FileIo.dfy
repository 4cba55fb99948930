/** The writer of file_io.c: it scatters a piece over the output files. */
module FileIo {
  import opened Bytes
  import opened Torrent
  import opened Disk
  import opened Segments

  /** Rewriting one stretch inside file i moves exactly those content bytes. */
  lemma {:induction false} CellUpdate(lengths: seq<int>, files: Files, i: nat, offset: nat, data: seq<byte>, g: int)
    requires |files| == |lengths| && NonNegative(lengths)
    requires i < |lengths| && offset + |data| <= lengths[i]
    ensures var files' := files[i := WriteAt(files[i], offset, data)];
            var start := FileStart(lengths, i) + offset;
            && (start <= g < start + |data| ==> Cell(lengths, files', g) == Some(data[g - start]))
            && (!(start <= g < start + |data|) && Cell(lengths, files, g).Some? ==>
                  Cell(lengths, files', g) == Cell(lengths, files, g))
            && (start + |data| <= g ==> Cell(lengths, files', g) == Cell(lengths, files, g))
  {
    hide WriteAt, FileStart;
    if i == 0 {
      FirstCellUpdate(lengths, files, offset, data, g);
    } else {
      var files' := files[i := WriteAt(files[i], offset, data)];
      LaterStart(lengths, i);
      assert files'[1..] == files[1..][i - 1 := files'[i]];
      CellUpdate(lengths[1..], files[1..], i - 1, offset, data, g - lengths[0]);
    }
  }

  lemma FirstCellUpdate(lengths: seq<int>, files: Files, offset: nat, data: seq<byte>, g: int)
    requires |files| == |lengths| && lengths != [] && offset + |data| <= lengths[0]
    ensures FileStart(lengths, 0) == 0
    ensures var files' := files[0 := WriteAt(files[0], offset, data)];
            && (offset <= g < offset + |data| ==> Cell(lengths, files', g) == Some(data[g - offset]))
            && (!(offset <= g < offset + |data|) && Cell(lengths, files, g).Some? ==>
                  Cell(lengths, files', g) == Cell(lengths, files, g))
            && (offset + |data| <= g ==> Cell(lengths, files', g) == Cell(lengths, files, g))
  {
    var files' := files[0 := WriteAt(files[0], offset, data)];
    assert files'[1..] == files[1..];
  }

  lemma LaterStart(lengths: seq<int>, i: nat)
    requires NonNegative(lengths) && 0 < i < |lengths|
    ensures FileStart(lengths, i) == lengths[0] + FileStart(lengths[1..], i - 1) && FileStart(lengths[1..], i - 1) >= 0
  {
    assert lengths[..i][1..] == lengths[1..][..i - 1];
    FileStartMonotone(lengths[1..], 0, i - 1);
  }

  lemma StartsAtZero(lengths: seq<int>)
    ensures FileStart(lengths, 0) == 0
  {
  }

  lemma NoEffectYet(lengths: seq<int>, files: Files, start: int, data: seq<byte>)
    requires |files| == |lengths|
    ensures WriteEffect(lengths, files, start, data, files, false)
  {
  }

  lemma EffectComplete(lengths: seq<int>, original: Files, start: int, data: seq<byte>, files: Files)
    requires WriteEffect(lengths, original, start, data, files, false)
    requires forall g :: start <= g < start + |data| ==> Cell(lengths, files, g) == Some(data[g - start])
    ensures WriteEffect(lengths, original, start, data, files, true)
  {
  }

  /** One turn of the writer's loop moves file i's segment from what is to come to what
      has been written. */
  lemma WriterStep(lengths: seq<int>, i: nat, start: int, end: int, before: seq<Segment>, one: seq<Segment>)
    requires i < |lengths| && one == SegmentsOf(lengths, i, start, end, true)
    requires before + SegmentsFrom(lengths, i, start, end, true) == WriterSegments(lengths, start, end)
    ensures before + one + SegmentsFrom(lengths, i + 1, start, end, true) == WriterSegments(lengths, start, end)
  {
    hide SegmentsOf;
    var rest := SegmentsFrom(lengths, i + 1, start, end, true);
    assert before + (one + rest) == before + one + rest;
  }

  lemma ReachesTotal(lengths: seq<int>)
    ensures FileStart(lengths, |lengths|) == Sum(lengths)
  {
    assert lengths[..|lengths|] == lengths;
  }

  /** For a single output file the twin loop would make the one write that is made. */
  lemma OneFileSegments(total: int, start: int, end: int)
    requires 0 <= start < end <= total
    ensures WriterSegments([total], start, end) == [Segment(0, start, end - start)]
  {
    assert FileStart([total], 0) == 0;
    assert SegmentsFrom([total], 1, start, end, true) == [];
  }

  lemma {:induction false} NoSegmentsBeyond(lengths: seq<int>, i: nat, start: int, end: int)
    requires NonNegative(lengths) && i <= |lengths| && (i == |lengths| || end <= FileStart(lengths, i))
    ensures SegmentsFrom(lengths, i, start, end, true) == []
    decreases |lengths| - i
  {
    if i < |lengths| {
      FileStartMonotone(lengths, i, i + 1);
      NoSegmentsBeyond(lengths, i + 1, start, end);
    }
  }

  /** `file_writer_t` together with the files it writes to. */
  class FileWriter {
    const torrent: Metainfo
    var files: Files
    var open: bool
    var written: int

    ghost predicate Valid()
      reads this
    {
      torrent.Accepted() && |files| == |torrent.OutputLengths()|
    }

    /** `file_writer_init` once the path checks have passed: a single output file is
        opened and truncated, several files stay as an earlier run left them. */
    constructor (torrent: Metainfo, existing: Files)
      requires torrent.Accepted() && |existing| == |torrent.OutputLengths()|
      ensures Valid() && this.torrent == torrent && written == 0
      ensures files == InitialFiles(torrent, existing)
      ensures open <==> !torrent.multiFile
    {
      this.torrent := torrent;
      written := 0;
      open := !torrent.multiFile;
      files := if torrent.multiFile then existing else [[]];
    }

    /** A writer that goes on with the files of a run in progress. */
    constructor Resume(torrent: Metainfo, files: Files, open: bool)
      requires torrent.Accepted() && |files| == |torrent.OutputLengths()|
      ensures Valid() && this.torrent == torrent && this.files == files && this.open == open && written == 0
    {
      this.torrent := torrent;
      this.files := files;
      this.open := open;
      written := 0;
    }

    /** `lseek` and `write` on output file i; the system may store any prefix, but all of
        it if it is `up`. */
    method SeekAndWrite(i: nat, offset: nat, data: seq<byte>, up: bool) returns (n: int)
      requires Valid() && i < |files|
      modifies this`files
      ensures -1 <= n <= |data| && (up ==> n == |data|)
      ensures files == old(files)[i := WriteAt(old(files)[i], offset, data[..Max(n, 0)])]
    {
      n := *;
      if up {
        n := |data|;
      } else if n < 0 || |data| < n {
        n := -1;
      }
      files := files[i := WriteAt(files[i], offset, data[..Max(n, 0)])];
    }

    /** `file_writer_write_piece`. A path that is unsafe or too long, a directory or
        file that cannot be created, and a failing seek all appear as `usable`
        being false; none of this happens, and every write is complete, while the
        system is `up`. `segments` is a history of the writes. */
    method WritePiece(data: seq<byte>, index: nat, up: bool) returns (ok: bool, ghost segments: seq<Segment>)
      requires Valid() && index < torrent.NumPieces() && |data| == torrent.PieceSize(index)
      modifies this`files, this`written
      ensures Valid()
      ensures WriteEffect(torrent.OutputLengths(), old(files), torrent.PieceStart(index), data, files, ok)
      ensures ok ==> written == old(written) + |data|
      ensures ok ==> segments == WriterSegments(torrent.OutputLengths(), torrent.PieceStart(index),
                                                torrent.PieceStart(index) + |data|)
      ensures !torrent.multiFile && !open ==> !ok && files == old(files)
      ensures up && (torrent.multiFile || open) ==> ok
    {
      PieceGeometry(torrent, index);
      ghost var lengths := torrent.OutputLengths();
      if !torrent.multiFile {
        OneFileSegments(torrent.totalSize, torrent.PieceStart(index), torrent.PieceStart(index) + |data|);
        segments := [Segment(0, torrent.PieceStart(index), |data|)];
        ok := WriteSingle(data, index, up);
        return;
      }
      ok, segments := WriteMulti(data, index, up);
    }

    /** The bytes of the piece that lie before content offset `fileOffset` are stored. */
    ghost predicate Progress(original: Files, written0: int, start: int, data: seq<byte>,
                             fileOffset: int, dataOffset: int)
      reads this
    {
      var lengths := torrent.OutputLengths();
      && Valid()
      && WriteEffect(lengths, original, start, data, files, false)
      && 0 <= dataOffset <= |data| && dataOffset == Max(0, Min(start + |data|, fileOffset) - start)
      && written == written0 + dataOffset
      && Written(start, data, dataOffset)
    }

    /** The first n bytes of the piece are in place. */
    ghost predicate Written(start: int, data: seq<byte>, n: int)
      requires |files| == |torrent.OutputLengths()| && n <= |data|
      reads this
    {
      forall g :: start <= g < start + n ==> Cell(torrent.OutputLengths(), files, g) == Some(data[g - start])
    }

    /** One write of length bytes of the piece to file i; a short write counts as failed. */
    method WriteSegment(ghost original: Files, start: int, data: seq<byte>, i: nat, offset: nat, from: nat, length: nat,
                        up: bool)
      returns (ok: bool)
      requires Valid() && i < |files| && from + length <= |data| && offset + length <= torrent.OutputLengths()[i]
      requires FileStart(torrent.OutputLengths(), i) + offset == start + from
      requires WriteEffect(torrent.OutputLengths(), original, start, data, files, false)
      requires Written(start, data, from)
      modifies this`files, this`written
      ensures Valid() && WriteEffect(torrent.OutputLengths(), original, start, data, files, false)
      ensures ok ==> written == old(written) + length && Written(start, data, from + length)
      ensures up ==> ok
    {
      hide FileStart, WriteEffect, Cell, WriteAt, Sum;
      var usable: bool := *;
      if !usable && !up {
        return false;
      }
      var segment := data[from..from + length];
      ghost var before := files;
      var n := SeekAndWrite(i, offset, segment, up);
      SliceOfSlice(data, from, from + length, 0, Max(n, 0));
      SegmentEffect(torrent.OutputLengths(), original, start, data, before, i, offset, from, segment[..Max(n, 0)]);
      if n < 0 || n != length {
        return false;
      }
      assert segment[..Max(n, 0)] == segment;
      written := written + length;
      ok := true;
    }

    /** The part of the piece that belongs to file i, if any. */
    method WriteInFile(ghost original: Files, ghost written0: int, start: int, data: seq<byte>,
                       i: nat, fileStart: int, dataOffset: int, up: bool)
      returns (ok: bool, dataOffset': int, ghost one: seq<Segment>)
      requires torrent.multiFile && i < |torrent.fileLengths|
      requires fileStart == FileStart(torrent.fileLengths, i) && dataOffset < |data|
      requires Progress(original, written0, start, data, fileStart, dataOffset)
      modifies this`files, this`written
      ensures Valid() && WriteEffect(torrent.OutputLengths(), original, start, data, files, false)
      ensures ok ==> Progress(original, written0, start, data, fileStart + torrent.fileLengths[i], dataOffset')
      ensures ok ==> one == SegmentsOf(torrent.fileLengths, i, start, start + |data|, true)
      ensures up ==> ok
    {
      hide SegmentsFrom, FileStart, WriteEffect, Cell, WriteAt, Sum;
      var end := start + |data|;
      var fileEnd := fileStart + torrent.fileLengths[i];
      dataOffset' := dataOffset;
      one := [];
      if start < fileEnd && end > fileStart {
        var writeStart := if start > fileStart then start - fileStart else 0;
        var writeEnd := if end < fileEnd then end - fileStart else torrent.fileLengths[i];
        var writeLen := writeEnd - writeStart;
        if writeLen > 0 {
          ok := WriteSegment(original, start, data, i, writeStart, dataOffset, writeLen, up);
          if !ok {
            return;
          }
          dataOffset' := dataOffset + writeLen;
          one := [Segment(i, writeStart, writeLen)];
        }
      }
      ok := true;
    }

    /** The loop over the output files. */
    method WriteMulti(data: seq<byte>, index: nat, up: bool) returns (ok: bool, ghost segments: seq<Segment>)
      requires Valid() && torrent.multiFile
      requires index < torrent.NumPieces() && |data| == torrent.PieceSize(index)
      modifies this`files, this`written
      ensures Valid()
      ensures WriteEffect(torrent.OutputLengths(), old(files), torrent.PieceStart(index), data, files, ok)
      ensures ok ==> written == old(written) + |data|
      ensures ok ==> segments == WriterSegments(torrent.OutputLengths(), torrent.PieceStart(index),
                                                torrent.PieceStart(index) + |data|)
      ensures up ==> ok
    {
      hide FileStart, Cell, Sum, SegmentOf, SegmentsOf, SegmentsFrom, WriteEffect;
      PieceGeometry(torrent, index);
      ghost var lengths := torrent.OutputLengths();
      segments := [];
      StartsAtZero(lengths);
      NoEffectYet(lengths, files, torrent.PieceStart(index), data);
      var start := index * torrent.pieceLength;
      ghost var end := start + |data|;
      var dataOffset, fileOffset, i := 0, 0, 0;
      while i < |torrent.fileLengths| && dataOffset < |data|
        invariant 0 <= i <= |lengths| && fileOffset == FileStart(lengths, i)
        invariant Progress(old(files), old(written), start, data, fileOffset, dataOffset)
        invariant segments + SegmentsFrom(lengths, i, start, end, true) == WriterSegments(lengths, start, end)
        decreases |torrent.fileLengths| - i
      {
        FileStartStep(lengths, i);
        FileStartMonotone(lengths, i, i + 1);
        ghost var one;
        ok, dataOffset, one := WriteInFile(old(files), old(written), start, data, i, fileOffset, dataOffset, up);
        if !ok {
          return;
        }
        WriterStep(lengths, i, start, end, segments, one);
        segments := segments + one;
        fileOffset := fileOffset + torrent.fileLengths[i];
        i := i + 1;
      }
      ReachesTotal(lengths);
      NoSegmentsBeyond(lengths, i, start, end);
      EffectComplete(lengths, old(files), start, data, files);
      assert segments + [] == segments;
      return true, segments;
    }

    method WriteSingle(data: seq<byte>, index: nat, up: bool) returns (ok: bool)
      requires Valid() && !torrent.multiFile
      requires index < torrent.NumPieces() && |data| == torrent.PieceSize(index)
      modifies this`files, this`written
      ensures Valid()
      ensures WriteEffect(torrent.OutputLengths(), old(files), torrent.PieceStart(index), data, files, ok)
      ensures ok ==> written == old(written) + |data|
      ensures !open ==> !ok && files == old(files)
      ensures up && open ==> ok
    {
      PieceGeometry(torrent, index);
      ghost var lengths := torrent.OutputLengths();
      var usable: bool := *;
      if !open || (!usable && !up) {
        return false;
      }
      assert FileStart(lengths, 0) == 0;
      var n := SeekAndWrite(0, index * torrent.pieceLength, data, up);
      SegmentEffect(lengths, old(files), torrent.PieceStart(index), data, old(files), 0,
                    torrent.PieceStart(index), 0, data[..Max(n, 0)]);
      if n < 0 || n != |data| {
        return false;
      }
      assert data[..Max(n, 0)] == data;
      written := written + |data|;
      return true;
    }

    /** `file_writer_finish`. */
    method Finish()
      modifies this`open
      ensures !open
    {
      open := false;
    }
  }

  function InitialFiles(torrent: Metainfo, existing: Files): Files {
    if torrent.multiFile then existing else [[]]
  }

  /** One segment of a piece: the bytes before it are kept, its own bytes are in place. */
  lemma SegmentEffect(lengths: seq<int>, original: Files, start: int, data: seq<byte>,
                      files: Files, i: nat, offset: nat, from: nat, stored: seq<byte>)
    requires NonNegative(lengths) && i < |lengths|
    requires WriteEffect(lengths, original, start, data, files, false)
    requires forall g :: start <= g < start + from <= start + |data| ==>
               Cell(lengths, files, g) == Some(data[g - start])
    requires from + |stored| <= |data| && stored == data[from..from + |stored|]
    requires FileStart(lengths, i) + offset == start + from && offset + |stored| <= lengths[i]
    ensures var files' := files[i := WriteAt(files[i], offset, stored)];
            && WriteEffect(lengths, original, start, data, files', false)
            && (forall g :: start <= g < start + from + |stored| ==>
                  Cell(lengths, files', g) == Some(data[g - start]))
  {
    var files' := files[i := WriteAt(files[i], offset, stored)];
    forall g
      ensures start <= g < start + from + |stored| ==> Cell(lengths, files', g) == Some(data[g - start])
      ensures !(start <= g < start + |data|) && Cell(lengths, original, g).Some? ==>
                Cell(lengths, files', g) == Cell(lengths, original, g)
      ensures start <= g < start + |data| ==>
                || Cell(lengths, files', g) == Some(data[g - start])
                || Cell(lengths, files', g) == Cell(lengths, original, g)
    {
      CellUpdate(lengths, files, i, offset, stored, g);
    }
    assert TailKept(lengths[i], original[i], files'[i]);
  }
}
