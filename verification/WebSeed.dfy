/** The reader of web_seed.c: it gathers pieces from an HTTP mirror of the output files. */
module WebSeed {
  import opened Bytes
  import HttpRange
  import opened Torrent
  import opened Disk
  import opened Segments

  /** One `url-list` address: whether it begins with "http://", the bytes it serves for
      each output file, and whether every address built from it fits its buffer and
      every request is answered in full. */
  datatype Seed = Seed(http: bool, remote: Files, up: bool)

  ghost predicate SeedOf(seed: Seed, t: Metainfo) {
    |seed.remote| == |t.OutputLengths()|
  }

  /** One range request to a seed for file i: if it succeeds, the buffer holds the range
      of the seed's file; a seed that is up fails only an empty range or a short file. */
  method FetchRange(seed: Seed, i: nat, from: nat, length: nat, out: array<byte>, at: nat) returns (ok: bool)
    requires i < |seed.remote| && at + length <= out.Length
    modifies out
    ensures forall k :: 0 <= k < out.Length && !(at <= k < at + length) ==> out[k] == old(out[k])
    ensures ok ==> 0 < length && from + length <= |seed.remote[i]|
                   && out[at..at + length] == seed.remote[i][from..from + length]
    ensures seed.up && 0 < length && from + length <= |seed.remote[i]| ==> ok
  {
    hide HttpRange.Honest, HttpRange.Answered, HttpRange.IsAnswer;
    var stream := HttpRange.Receive(seed.remote[i], from, length, seed.up);
    ok := HttpRange.FetchAnswer(stream, from, length, out, at);
    if ok {
      HttpRange.HonestDelivers(seed.remote[i], from, length, stream);
    }
  }

  /** The bytes out[at..] are the content of `files` from offset `start` on. */
  ghost predicate Holds(lengths: seq<int>, files: Files, start: int, bytes: seq<byte>)
    requires |files| == |lengths|
  {
    forall k :: 0 <= k < |bytes| ==> Cell(lengths, files, start + k) == Some(bytes[k])
  }

  lemma HoldsPart(lengths: seq<int>, files: Files, start: int, bytes: seq<byte>, i: nat, from: nat, part: seq<byte>)
    requires |files| == |lengths| && NonNegative(lengths) && i < |lengths|
    requires Holds(lengths, files, start, bytes)
    requires FileStart(lengths, i) + from == start + |bytes| && from + |part| <= lengths[i]
    requires from + |part| <= |files[i]| && part == files[i][from..from + |part|]
    ensures Holds(lengths, files, start, bytes + part)
  {
    forall k | 0 <= k < |bytes + part|
      ensures Cell(lengths, files, start + k) == Some((bytes + part)[k])
    {
      if |bytes| <= k {
        CellIsFileByte(lengths, files, i, from + k - |bytes|);
      }
    }
  }

  lemma HoldsStored(lengths: seq<int>, files: Files, start: int, bytes: seq<byte>)
    requires |files| == |lengths| && Holds(lengths, files, start, bytes)
    ensures Stored(lengths, files, start, |bytes|)
  {
    forall g | start <= g < start + |bytes|
      ensures Cell(lengths, files, g).Some?
    {
      assert Cell(lengths, files, start + (g - start)) == Some(bytes[g - start]);
    }
  }

  lemma NotStored(lengths: seq<int>, files: Files, start: int, end: int, g: int)
    requires |files| == |lengths| && start <= g < end && Cell(lengths, files, g).None?
    ensures !Stored(lengths, files, start, end - start)
  {
  }

  lemma HoldsSlice(lengths: seq<int>, files: Files, start: int, bytes: seq<byte>, from: nat, to: nat)
    requires |files| == |lengths| && Holds(lengths, files, start, bytes) && from <= to <= |bytes|
    ensures Holds(lengths, files, start + from, bytes[from..to])
  {
    forall k | 0 <= k < to - from
      ensures Cell(lengths, files, start + from + k) == Some(bytes[from..to][k])
    {
      assert Cell(lengths, files, start + (from + k)) == Some(bytes[from + k]);
    }
  }

  /** A file too short for its segment leaves a byte of the stretch unstored. */
  lemma ShortFile(lengths: seq<int>, files: Files, i: nat, from: nat, length: nat)
    requires |files| == |lengths| && NonNegative(lengths) && i < |lengths|
    requires 0 < length && from + length <= lengths[i] && |files[i]| < from + length
    ensures Cell(lengths, files, FileStart(lengths, i) + from + length - 1).None?
  {
    CellIsFileByte(lengths, files, i, from + length - 1);
  }

  /** What a seed must have for one piece: every byte of it, and in a torrent of several
      files no empty file strictly inside the piece. */
  ghost predicate OffersPiece(t: Metainfo, seed: Seed, index: nat)
    requires SeedOf(seed, t)
  {
    && Stored(t.OutputLengths(), seed.remote, t.PieceStart(index), t.PieceSize(index))
    && (t.multiFile ==>
          !EmptyFileInside(t.OutputLengths(), t.PieceStart(index), t.PieceStart(index) + t.PieceSize(index)))
  }

  /** `fetch_multi_file_piece`. From a seed that answers, it succeeds if and only if the
      seed offers the piece. */
  method FetchMultiFilePiece(t: Metainfo, seed: Seed, index: nat, out: array<byte>, at: nat)
    returns (ok: bool, ghost segments: seq<Segment>)
    requires t.Accepted() && t.multiFile && SeedOf(seed, t) && index < t.NumPieces()
    requires at + t.PieceSize(index) <= out.Length
    modifies out
    ensures forall k :: 0 <= k < out.Length && !(at <= k < at + t.PieceSize(index)) ==> out[k] == old(out[k])
    ensures var lengths := t.OutputLengths();
            var start, end := t.PieceStart(index), t.PieceStart(index) + t.PieceSize(index);
            && (ok ==> Holds(lengths, seed.remote, start, out[at..at + t.PieceSize(index)]))
            && (ok ==> OffersPiece(t, seed, index) && segments == WriterSegments(lengths, start, end))
            && (seed.up && OffersPiece(t, seed, index) ==> ok)
  {
    hide FileStart, Cell, Sum, SegmentOf, SegmentsFrom, Holds, Stored, Reached, AllNonEmpty, EmptyFileInside;
    PieceGeometry(t, index);
    ghost var lengths := t.OutputLengths();
    var length := t.PieceSize(index);
    var start := index * t.pieceLength;
    var end := start + length;
    ReachedAll(lengths, start, end);
    SegmentsAgreeIff(lengths, start, end);
    FileStartZero(lengths);
    HoldsNothing(lengths, seed.remote, start, out[at..at]);
    segments := [];
    NothingEmpty(segments);
    var fileOffset, outPos, i := 0, 0, 0;
    while i < |t.fileLengths| && outPos < length
      invariant 0 <= i <= |lengths| && fileOffset == FileStart(lengths, i)
      invariant 0 <= outPos <= length && start + outPos == Reached(lengths, i, start, end)
      invariant Holds(lengths, seed.remote, start, out[at..at + outPos])
      invariant AllNonEmpty(segments)
      invariant segments + SegmentsFrom(lengths, i, start, end, false) == ReaderSegments(lengths, start, end)
      invariant forall k :: 0 <= k < out.Length && !(at <= k < at + length) ==> out[k] == old(out[k])
      decreases |t.fileLengths| - i
    {
      ghost var one;
      ok, outPos, one := FetchFromFile(t.fileLengths, seed, i, fileOffset, start, end, out, at, outPos);
      SegmentsStep(lengths, i, start, end, segments, one);
      if !ok {
        return;
      }
      segments := segments + one;
      FileStartStep(lengths, i);
      ReachedBounds(lengths, i + 1, start, end);
      fileOffset := fileOffset + t.fileLengths[i];
      i := i + 1;
    }
    if outPos == length {
      NoReaderSegments(lengths, i, start, end);
      assert segments + [] == segments;
      HoldsStored(lengths, seed.remote, start, out[at..at + length]);
    }
    ok := outPos == length;
  }

  lemma HoldsNothing(lengths: seq<int>, files: Files, start: int, bytes: seq<byte>)
    requires |files| == |lengths| && bytes == []
    ensures Holds(lengths, files, start, bytes)
  {
  }

  lemma NothingEmpty(segments: seq<Segment>)
    requires segments == []
    ensures AllNonEmpty(segments)
  {
  }

  lemma ReachedBounds(lengths: seq<int>, i: nat, start: int, end: int)
    requires i <= |lengths| && start < end
    ensures start <= Reached(lengths, i, start, end) <= end
  {
  }

  /** One turn of the reader's loop moves file i's segments from what is to come to what
      has been asked for. */
  lemma SegmentsStep(lengths: seq<int>, i: nat, start: int, end: int, before: seq<Segment>, one: seq<Segment>)
    requires i < |lengths| && one == SegmentsOf(lengths, i, start, end, false)
    requires before + SegmentsFrom(lengths, i, start, end, false) == ReaderSegments(lengths, start, end)
    ensures before + one + SegmentsFrom(lengths, i + 1, start, end, false) == ReaderSegments(lengths, start, end)
    ensures AllNonEmpty(before) && AllNonEmpty(one) ==> AllNonEmpty(before + one)
    ensures HasEmpty(one) ==> !AllNonEmpty(ReaderSegments(lengths, start, end))
  {
    hide SegmentOf, SegmentsOf;
    var rest := SegmentsFrom(lengths, i + 1, start, end, false);
    assert before + (one + rest) == before + one + rest;
    if HasEmpty(one) {
      var k :| 0 <= k < |one| && one[k].length == 0;
      assert (before + one + rest)[|before| + k] == one[k];
    }
  }

  lemma EmptyOne(one: seq<Segment>)
    requires |one| == 1
    ensures one[0].length == 0 <==> HasEmpty(one)
    ensures one[0].length > 0 <==> AllNonEmpty(one)
  {
  }

  predicate HasEmpty(segments: seq<Segment>) {
    exists k :: 0 <= k < |segments| && segments[k].length == 0
  }

  lemma FileStartZero(lengths: seq<int>)
    ensures FileStart(lengths, 0) == 0
  {
  }

  /** Once the stretch is reached to its end, only empty segments could follow, and the
      overlap test excludes even those. */
  lemma {:induction false} NoReaderSegments(lengths: seq<int>, i: nat, start: int, end: int)
    requires NonNegative(lengths) && i <= |lengths| && 0 <= start < end && Reached(lengths, i, start, end) == end
    ensures SegmentsFrom(lengths, i, start, end, false) == []
    decreases |lengths| - i
  {
    if i < |lengths| {
      FileStartMonotone(lengths, i, i + 1);
      SegmentSpan(lengths, i, start, end);
      NoReaderSegments(lengths, i + 1, start, end);
    }
  }

  /** A range that is put behind the first outPos bytes of the piece. */
  method FetchBehind(seed: Seed, i: nat, from: nat, length: nat, out: array<byte>, at: nat, outPos: nat)
    returns (ok: bool)
    requires i < |seed.remote| && at + outPos + length <= out.Length
    modifies out
    ensures forall k :: 0 <= k < out.Length && !(at <= k < at + outPos + length) ==> out[k] == old(out[k])
    ensures ok ==> 0 < length && from + length <= |seed.remote[i]|
                   && out[at..at + (outPos + length)] ==
                      old(out[at..at + outPos]) + seed.remote[i][from..from + length]
    ensures seed.up && 0 < length && from + length <= |seed.remote[i]| ==> ok
  {
    ok := FetchRange(seed, i, from, length, out, at + outPos);
    assert out[at..at + outPos] == old(out[at..at + outPos]);
    assert out[at..at + (outPos + length)] == out[at..at + outPos] + out[at + outPos..at + outPos + length];
  }

  /** The turn of the loop for file i. */
  method FetchFromFile(lengths: seq<int>, seed: Seed, i: nat, fileStart: int, start: int, end: int,
                       out: array<byte>, at: nat, outPos: nat)
    returns (ok: bool, outPos': nat, ghost one: seq<Segment>)
    requires NonNegative(lengths) && |seed.remote| == |lengths| && i < |lengths|
    requires fileStart == FileStart(lengths, i) && 0 <= start < end && at + (end - start) <= out.Length
    requires start + outPos == Reached(lengths, i, start, end) && start + outPos < end
    requires Holds(lengths, seed.remote, start, out[at..at + outPos])
    modifies out
    ensures forall k :: 0 <= k < out.Length && !(at <= k < at + (end - start)) ==> out[k] == old(out[k])
    ensures one == SegmentsOf(lengths, i, start, end, false)
    ensures ok ==> start + outPos' == Reached(lengths, i + 1, start, end) <= end
                   && AllNonEmpty(one)
                   && Holds(lengths, seed.remote, start, out[at..at + outPos'])
    ensures !ok && seed.up ==>
              HasEmpty(one) || !Stored(lengths, seed.remote, start, end - start)
  {
    hide FileStart, Cell, Sum, SegmentsOf, SegmentsFrom, Reached, Holds, HasEmpty, AllNonEmpty, Stored;
    var fileEnd := fileStart + lengths[i];
    PartOf(lengths, i, start, end);
    outPos' := outPos;
    one := SegmentsOf(lengths, i, start, end, false);
    ok := true;
    if start < fileEnd && end > fileStart {
      var from := if start > fileStart then start - fileStart else 0;
      var to := if end < fileEnd then end - fileStart else fileEnd - fileStart;
      var partLen := to - from;
      ghost var before := out[at..at + outPos];
      ok := FetchBehind(seed, i, from, partLen, out, at, outPos);
      if !ok {
        if seed.up && partLen > 0 {
          ShortFile(lengths, seed.remote, i, from, partLen);
          NotStored(lengths, seed.remote, start, end, fileStart + from + partLen - 1);
        }
        return;
      }
      outPos' := outPos + partLen;
      ghost var part := seed.remote[i][from..from + partLen];
      HoldsPart(lengths, seed.remote, start, before, i, from, part);
    }
  }

  /** File i's share of the stretch: where it begins in the file and how long it is. */
  lemma PartOf(lengths: seq<int>, i: nat, start: int, end: int)
    requires NonNegative(lengths) && i < |lengths| && 0 <= start < end
    ensures var fileStart := FileStart(lengths, i);
            var fileEnd := fileStart + lengths[i];
            var a, b := Reached(lengths, i, start, end), Reached(lengths, i + 1, start, end);
            var one := SegmentsOf(lengths, i, start, end, false);
            if start < fileEnd && end > fileStart then
              var from := if start > fileStart then start - fileStart else 0;
              var to := if end < fileEnd then end - fileStart else fileEnd - fileStart;
              && fileStart + from == a && to - from == b - a && 0 <= from <= to <= lengths[i] && b <= end
              && (HasEmpty(one) <==> to == from) && (AllNonEmpty(one) <==> from < to)
            else a == b <= end && AllNonEmpty(one)
  {
    hide FileStart, SegmentsFrom;
    SegmentSpan(lengths, i, start, end);
    var one := SegmentsOf(lengths, i, start, end, false);
    if one == [] {
      NothingEmpty(one);
    } else {
      EmptyOne(one);
    }
  }

  /** `fetch_single_file_span` and `fetch_single_file_piece`. */
  method FetchSingleFileSpan(t: Metainfo, seed: Seed, first: nat, out: array<byte>, length: nat) returns (ok: bool)
    requires t.Accepted() && !t.multiFile && SeedOf(seed, t) && length <= out.Length
    requires t.PieceStart(first) + length <= t.totalSize
    modifies out
    ensures forall k :: length <= k < out.Length ==> out[k] == old(out[k])
    ensures ok ==> 0 < length && Holds(t.OutputLengths(), seed.remote, t.PieceStart(first), out[..length])
    ensures seed.up && length > 0 && Stored(t.OutputLengths(), seed.remote, t.PieceStart(first), length) ==> ok
  {
    var lengths := t.OutputLengths();
    MulMonotone(0, first, t.pieceLength);
    var offset := first * t.pieceLength;
    ok := FetchRange(seed, 0, offset, length, out, 0);
    FileStartZero(lengths);
    if ok {
      HoldsPart(lengths, seed.remote, offset, [], 0, offset, out[0..length]);
      assert [] + out[0..length] == out[..length];
    } else if seed.up && length > 0 {
      ShortFile(lengths, seed.remote, 0, offset, length);
    }
  }

  // ----- a batch ---------------------------------------------------------------

  /** The sizes schedule_web_seed_one computes for the pieces first, first + 1, ... */
  ghost predicate BatchOf(t: Metainfo, first: nat, sizes: seq<nat>) {
    forall k :: 0 <= k < |sizes| ==> sizes[k] == t.PieceSize(first + k)
  }

  /** Where piece k of a batch begins in the buffer. */
  function BatchStart(sizes: seq<int>, k: nat): int
    requires k <= |sizes|
  {
    FileStart(sizes, k)
  }

  /** Piece k of the batch stands at its place in the buffer. */
  ghost predicate PieceDelivered(t: Metainfo, seed: Seed, first: nat, sizes: seq<int>, bytes: seq<byte>, k: nat)
    requires SeedOf(seed, t) && k < |sizes|
  {
    && 0 <= BatchStart(sizes, k) && 0 <= sizes[k] && BatchStart(sizes, k) + sizes[k] <= |bytes|
    && Holds(t.OutputLengths(), seed.remote, t.PieceStart(first + k),
             bytes[BatchStart(sizes, k)..BatchStart(sizes, k) + sizes[k]])
  }

  /** Every piece of the batch stands at its place in the buffer. */
  ghost predicate Delivered(t: Metainfo, seed: Seed, first: nat, sizes: seq<int>, bytes: seq<byte>)
    requires SeedOf(seed, t)
  {
    forall k :: 0 <= k < |sizes| ==> PieceDelivered(t, seed, first, sizes, bytes, k)
  }

  /** What a seed must have for the whole batch to succeed. */
  ghost predicate Offers(t: Metainfo, seed: Seed, first: nat, count: nat)
    requires SeedOf(seed, t)
  {
    forall index :: first <= index < first + count ==> OffersPiece(t, seed, index)
  }

  /** The pieces of a batch are contiguous in the content as they are in the buffer. */
  lemma {:induction false} BatchContiguous(t: Metainfo, first: nat, sizes: seq<nat>, k: nat)
    requires t.Accepted() && BatchOf(t, first, sizes) && k <= |sizes| && first + |sizes| <= t.NumPieces()
    ensures 0 <= BatchStart(sizes, k)
    ensures first + k < t.NumPieces() ==> t.PieceStart(first) + BatchStart(sizes, k) == t.PieceStart(first + k)
    ensures first + k == t.NumPieces() && k > 0 ==> t.PieceStart(first) + BatchStart(sizes, k) == t.totalSize
    decreases k
  {
    if k == 0 {
      FileStartZero(sizes);
    } else {
      BatchContiguous(t, first, sizes, k - 1);
      FileStartStep(sizes, k - 1);
      PieceGeometry(t, first + k - 1);
    }
  }

  /** Piece k of a span that holds the content is the content of piece first + k. */
  lemma SpanDelivers(t: Metainfo, seed: Seed, first: nat, sizes: seq<nat>, bytes: seq<byte>)
    requires t.Accepted() && SeedOf(seed, t) && BatchOf(t, first, sizes) && first + |sizes| <= t.NumPieces()
    requires |bytes| == Sum(sizes) && Holds(t.OutputLengths(), seed.remote, t.PieceStart(first), bytes)
    ensures Delivered(t, seed, first, sizes, bytes)
    ensures forall k :: 0 <= k < |sizes| ==> Stored(t.OutputLengths(), seed.remote, t.PieceStart(first + k), sizes[k])
  {
    hide Cell;
    forall k | 0 <= k < |sizes|
      ensures PieceDelivered(t, seed, first, sizes, bytes, k)
      ensures Stored(t.OutputLengths(), seed.remote, t.PieceStart(first + k), sizes[k])
    {
      BatchContiguous(t, first, sizes, k);
      FileStartStep(sizes, k);
      FileStartMonotone(sizes, k + 1, |sizes|);
      var at := BatchStart(sizes, k);
      HoldsSlice(t.OutputLengths(), seed.remote, t.PieceStart(first), bytes, at, at + sizes[k]);
      HoldsStored(t.OutputLengths(), seed.remote, t.PieceStart(first + k), bytes[at..at + sizes[k]]);
    }
  }

  /** The whole span is stored if all its pieces are. */
  lemma {:induction false} SpanStored(t: Metainfo, seed: Seed, first: nat, sizes: seq<nat>, k: nat)
    requires t.Accepted() && SeedOf(seed, t) && BatchOf(t, first, sizes) && first + |sizes| <= t.NumPieces()
    requires Offers(t, seed, first, |sizes|) && 0 < k <= |sizes|
    ensures Stored(t.OutputLengths(), seed.remote, t.PieceStart(first), BatchStart(sizes, k))
    decreases k
  {
    hide Cell;
    BatchContiguous(t, first, sizes, k - 1);
    FileStartStep(sizes, k - 1);
    assert OffersPiece(t, seed, first + (k - 1));
    if k > 1 {
      SpanStored(t, seed, first, sizes, k - 1);
    } else {
      FileStartZero(sizes);
    }
  }

  ghost predicate AnswersWith(t: Metainfo, seed: Seed, first: nat, count: nat) {
    && SeedOf(seed, t) && seed.http && seed.up
    && first + count <= t.NumPieces() && Offers(t, seed, first, count)
  }

  /** `web_seed_fetch_pieces` behind its checks for null arguments: a piece of size zero
      is refused, then the seeds are tried in order. On success some seed offers the whole
      batch and every piece stands at its place; one seed that answers with it is enough. */
  method FetchPieces(t: Metainfo, seeds: seq<Seed>, first: nat, sizes: seq<nat>, out: array<byte>)
    returns (ok: bool, ghost from: nat)
    requires t.Accepted() && BatchOf(t, first, sizes)
    requires forall j :: 0 <= j < |seeds| ==> SeedOf(seeds[j], t)
    requires out.Length == Sum(sizes)
    modifies out
    ensures ok ==> first + |sizes| <= t.NumPieces() && from < |seeds| && seeds[from].http
                   && Offers(t, seeds[from], first, |sizes|) && Delivered(t, seeds[from], first, sizes, out[..])
    ensures (exists j :: 0 <= j < |seeds| && sizes != [] && AnswersWith(t, seeds[j], first, |sizes|)) ==> ok
  {
    from := 0;
    if |sizes| == 0 || |seeds| == 0 {
      return false, 0;
    }
    var total, s := 0, 0;
    FileStartZero(sizes);
    hide Offers, Delivered;
    while s < |sizes|
      invariant 0 <= s <= |sizes| && total == BatchStart(sizes, s)
      invariant s > 0 ==> first + s <= t.NumPieces()
    {
      if sizes[s] == 0 {
        return false, 0;
      }
      PieceGeometry(t, first + s);
      FileStartStep(sizes, s);
      total := total + sizes[s];
      s := s + 1;
    }
    assert sizes[..|sizes|] == sizes;
    var i := 0;
    while i < |seeds|
      invariant 0 <= i <= |seeds|
      invariant forall j :: 0 <= j < i ==> !AnswersWith(t, seeds[j], first, |sizes|)
    {
      if seeds[i].http {
        ok := FetchBatch(t, seeds[i], first, sizes, out, total);
        if ok {
          return true, i;
        }
      }
      i := i + 1;
    }
    ok := false;
  }

  /** The attempt with one seed. */
  method FetchBatch(t: Metainfo, seed: Seed, first: nat, sizes: seq<nat>, out: array<byte>, total: nat)
    returns (ok: bool)
    requires t.Accepted() && BatchOf(t, first, sizes) && first + |sizes| <= t.NumPieces() && sizes != []
    requires SeedOf(seed, t) && out.Length == Sum(sizes) == total
    modifies out
    ensures ok ==> Offers(t, seed, first, |sizes|) && Delivered(t, seed, first, sizes, out[..])
    ensures seed.up && Offers(t, seed, first, |sizes|) ==> ok
  {
    if !t.multiFile {
      ok := FetchBatchSpan(t, seed, first, sizes, out, total);
    } else {
      ok := FetchBatchPieces(t, seed, first, sizes, out);
    }
  }

  method FetchBatchSpan(t: Metainfo, seed: Seed, first: nat, sizes: seq<nat>, out: array<byte>, total: nat)
    returns (ok: bool)
    requires t.Accepted() && BatchOf(t, first, sizes) && first + |sizes| <= t.NumPieces() && sizes != []
    requires SeedOf(seed, t) && out.Length == Sum(sizes) == total && !t.multiFile
    modifies out
    ensures ok ==> Offers(t, seed, first, |sizes|) && Delivered(t, seed, first, sizes, out[..])
    ensures seed.up && Offers(t, seed, first, |sizes|) ==> ok
  {
    hide Cell, FileStart, Sum;
    WholeSum(sizes);
    BatchContiguous(t, first, sizes, |sizes|);
    BatchContiguous(t, first, sizes, |sizes| - 1);
    PieceGeometry(t, first);
    PieceGeometry(t, first + |sizes| - 1);
    FileStartStep(sizes, |sizes| - 1);
    ok := FetchSingleFileSpan(t, seed, first, out, total);
    if ok {
      assert out[..total] == out[..];
      SpanDelivers(t, seed, first, sizes, out[..]);
      forall index | first <= index < first + |sizes|
        ensures OffersPiece(t, seed, index)
      {
        assert sizes[index - first] == t.PieceSize(first + (index - first));
      }
    } else if seed.up && Offers(t, seed, first, |sizes|) {
      SpanStored(t, seed, first, sizes, |sizes|);
    }
  }

  lemma WholeSum(sizes: seq<int>)
    ensures BatchStart(sizes, |sizes|) == Sum(sizes)
  {
    assert sizes[..|sizes|] == sizes;
  }

  method FetchBatchPieces(t: Metainfo, seed: Seed, first: nat, sizes: seq<nat>, out: array<byte>)
    returns (ok: bool)
    requires t.Accepted() && BatchOf(t, first, sizes) && first + |sizes| <= t.NumPieces()
    requires SeedOf(seed, t) && out.Length == Sum(sizes) && t.multiFile
    modifies out
    ensures ok ==> Offers(t, seed, first, |sizes|) && Delivered(t, seed, first, sizes, out[..])
    ensures seed.up && Offers(t, seed, first, |sizes|) ==> ok
  {
    hide Cell, FileStart, Sum, Holds, OffersPiece;
    FileStartZero(sizes);
    WholeSum(sizes);
    var offset, piece := 0, 0;
    while piece < |sizes|
      invariant 0 <= piece <= |sizes| && 0 <= offset == BatchStart(sizes, piece)
      invariant Offers(t, seed, first, piece)
      invariant forall k :: 0 <= k < piece ==> PieceDelivered(t, seed, first, sizes, out[..], k)
    {
      ghost var before := out[..];
      FileStartStep(sizes, piece);
      FileStartMonotone(sizes, piece + 1, |sizes|);
      assert sizes[piece] == t.PieceSize(first + piece);
      ghost var segments;
      ok, segments := FetchMultiFilePiece(t, seed, first + piece, out, offset);
      if !ok {
        return;
      }
      forall k | 0 <= k < piece
        ensures PieceDelivered(t, seed, first, sizes, out[..], k)
      {
        assert PieceDelivered(t, seed, first, sizes, before, k);
        FileStartStep(sizes, k);
        FileStartMonotone(sizes, k + 1, piece);
        SlicesAgree(before, out[..], BatchStart(sizes, k), BatchStart(sizes, k) + sizes[k], offset);
      }
      assert out[offset..offset + sizes[piece]] == out[..][offset..offset + sizes[piece]];
      offset := offset + sizes[piece];
      piece := piece + 1;
    }
    ok := true;
  }

  lemma SlicesAgree(a: seq<byte>, b: seq<byte>, from: nat, to: nat, bound: nat)
    requires |a| == |b| && from <= to <= bound <= |a| && forall k :: 0 <= k < bound ==> a[k] == b[k]
    ensures a[from..to] == b[from..to]
  {
  }
}
