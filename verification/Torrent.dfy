/** The metainfo record of torrent.c and the piece geometry derived from it. */
module Torrent {
  import opened Bytes

  const SHA1_DIGEST_SIZE: nat := 20
  const MAX_TORRENT_FILES: nat := 1024

  /** The fields of `torrent_t` that the download engine reads. */
  datatype Metainfo = Metainfo(
    infoHash: seq<byte>,
    pieceLength: int,
    pieces: seq<byte>,
    totalSize: int,
    multiFile: bool,
    fileLengths: seq<int>,
    webSeedCount: nat,
    hasTrackers: bool
  ) {
    function NumPieces(): nat {
      |pieces| / SHA1_DIGEST_SIZE
    }

    /** The lengths of the output files in order; a single-file torrent has one. */
    function OutputLengths(): seq<int> {
      if multiFile then fileLengths else [totalSize]
    }

    /** What torrent_parse has checked of every record it returns. */
    ghost predicate Accepted() {
      && 0 < pieceLength <= INT64_MAX
      && 0 < totalSize <= INT64_MAX
      && |pieces| % SHA1_DIGEST_SIZE == 0
      && NumPieces() == PieceCount(totalSize, pieceLength)
      && NonNegative(OutputLengths())
      && Sum(OutputLengths()) == totalSize
    }

    /** `torrent_piece_size`: zero for an index that is out of range. */
    function PieceSize(i: nat): int {
      if i >= NumPieces() then 0
      else if i == NumPieces() - 1 then totalSize - i * pieceLength
      else pieceLength
    }

    function PieceStart(i: nat): int {
      i * pieceLength
    }

    function ExpectedHash(i: nat): seq<byte>
      requires i < NumPieces()
    {
      pieces[i * SHA1_DIGEST_SIZE..i * SHA1_DIGEST_SIZE + SHA1_DIGEST_SIZE]
    }
  }

  function PieceCount(totalSize: int, pieceLength: int): int
    requires pieceLength > 0
  {
    totalSize / pieceLength + if totalSize % pieceLength != 0 then 1 else 0
  }

  predicate NonNegative(xs: seq<int>) {
    forall i :: 0 <= i < |xs| ==> 0 <= xs[i]
  }

  function Sum(xs: seq<int>): int {
    if xs == [] then 0 else xs[0] + Sum(xs[1..])
  }

  lemma {:induction false} SumNonNegative(xs: seq<int>)
    requires NonNegative(xs)
    ensures 0 <= Sum(xs)
  {
    if xs != [] {
      SumNonNegative(xs[1..]);
    }
  }

  lemma {:induction false} SumAppend(xs: seq<int>, ys: seq<int>)
    ensures Sum(xs + ys) == Sum(xs) + Sum(ys)
  {
    if xs == [] {
      assert xs + ys == ys;
    } else {
      assert (xs + ys)[1..] == xs[1..] + ys;
      SumAppend(xs[1..], ys);
    }
  }

  /** A division fact kept apart so that the solver meets it once. */
  lemma PieceCountBounds(totalSize: int, pieceLength: int)
    requires 0 < pieceLength && 0 < totalSize
    ensures var n := PieceCount(totalSize, pieceLength);
            1 <= n && (n - 1) * pieceLength < totalSize <= n * pieceLength
  {
    var q, r := totalSize / pieceLength, totalSize % pieceLength;
    assert totalSize == q * pieceLength + r;
    if r != 0 {
      assert (q + 1) * pieceLength == q * pieceLength + pieceLength;
      assert q + 1 - 1 == q;
    } else {
      assert (q - 1) * pieceLength == q * pieceLength - pieceLength;
      if q <= 0 {
        MulMonotone(q, 0, pieceLength);
      }
    }
    if q < 0 {
      MulMonotone(q, -1, pieceLength);
    }
  }

  /** Consecutive pieces touch, the last one ends at the total size, and every
      size lies in 1..pieceLength; no product leaves the signed 64-bit range. */
  lemma PieceGeometry(t: Metainfo, i: nat)
    requires t.Accepted() && i < t.NumPieces()
    ensures 1 <= t.PieceSize(i) <= t.pieceLength
    ensures t.PieceStart(i) + t.PieceSize(i) ==
            if i + 1 < t.NumPieces() then t.PieceStart(i + 1) else t.totalSize
    ensures 0 <= t.PieceStart(i) < t.PieceStart(i) + t.PieceSize(i) <= t.totalSize <= INT64_MAX
  {
    var n := t.NumPieces();
    PieceCountBounds(t.totalSize, t.pieceLength);
    MulMonotone(0, i, t.pieceLength);
    assert (i + 1) * t.pieceLength == i * t.pieceLength + t.pieceLength;
    if i == n - 1 {
      assert n * t.pieceLength == (n - 1) * t.pieceLength + t.pieceLength;
    } else {
      MulMonotone(i + 1, n - 1, t.pieceLength);
    }
  }

  /** Two different pieces never share a byte of the content. */
  lemma PiecesDisjoint(t: Metainfo, i: nat, j: nat)
    requires t.Accepted() && i < j < t.NumPieces()
    ensures t.PieceStart(i) + t.PieceSize(i) <= t.PieceStart(j)
  {
    PieceGeometry(t, i);
    assert t.PieceSize(i) == t.pieceLength;
    MulMonotone(i + 1, j, t.pieceLength);
    assert (i + 1) * t.pieceLength == i * t.pieceLength + t.pieceLength;
  }

  ghost predicate InPiece(t: Metainfo, i: nat, offset: int) {
    i < t.NumPieces() && t.PieceStart(i) <= offset < t.PieceStart(i) + t.PieceSize(i)
  }

  /** The piece ranges partition the content: every offset lies in exactly one. */
  lemma PiecesPartition(t: Metainfo, offset: int)
    requires t.Accepted() && 0 <= offset < t.totalSize
    ensures 0 <= offset / t.pieceLength < t.NumPieces()
    ensures InPiece(t, offset / t.pieceLength, offset)
    ensures forall i: nat :: InPiece(t, i, offset) ==> i == offset / t.pieceLength
  {
    var n, q, r := t.NumPieces(), offset / t.pieceLength, offset % t.pieceLength;
    PieceCountBounds(t.totalSize, t.pieceLength);
    assert offset == q * t.pieceLength + r;
    if q >= n {
      MulMonotone(n, q, t.pieceLength);
      assert false;
    }
    if q < 0 {
      MulMonotone(q, -1, t.pieceLength);
      assert false;
    }
    PieceGeometry(t, q);
    forall i: nat | InPiece(t, i, offset)
      ensures i == q
    {
      if i < q {
        PiecesDisjoint(t, i, q);
      } else if q < i {
        PiecesDisjoint(t, q, i);
      }
    }
  }

  /** The size that process_peer computes for itself equals torrent_piece_size. */
  function PeerPieceSize(t: Metainfo, next: nat): int {
    if next == t.NumPieces() - 1 then t.totalSize - next * t.pieceLength else t.pieceLength
  }

  lemma SizesCoincide(t: Metainfo, next: nat)
    requires next < t.NumPieces()
    ensures PeerPieceSize(t, next) == t.PieceSize(next)
  {
  }
}
