/** The output files as indexed byte sequences, and the content they hold when
    they are laid end to end. */
module Disk {
  import opened Bytes
  import opened Torrent

  type Files = seq<seq<byte>>

  /** Offset of file i in the content. */
  function FileStart(lengths: seq<int>, i: nat): int
    requires i <= |lengths|
  {
    Sum(lengths[..i])
  }

  /** The byte that file `lengths`/`files` hold at content offset `offset`, if any. */
  function Cell(lengths: seq<int>, files: Files, offset: int): Option<byte>
    requires |files| == |lengths|
  {
    if lengths == [] then None
    else if offset < lengths[0] then
      if 0 <= offset < |files[0]| then Some(files[0][offset]) else None
    else Cell(lengths[1..], files[1..], offset - lengths[0])
  }

  /** What `lseek` followed by `write` does to one file: a hole is zero-filled and
      writing nothing changes nothing. */
  function WriteAt(file: seq<byte>, offset: nat, data: seq<byte>): (file': seq<byte>)
    ensures |file| <= |file'|
    ensures data != [] ==> |file'| == Max(|file|, offset + |data|)
    ensures forall o :: offset <= o < offset + |data| ==> file'[o] == data[o - offset]
    ensures forall o :: 0 <= o < |file| && !(offset <= o < offset + |data|) ==> file'[o] == file[o]
  {
    if data == [] then file
    else
      var base := if |file| < offset then file + Zeros(offset - |file|) else file;
      base[..offset] + data + if offset + |data| < |base| then base[offset + |data|..] else []
  }

  lemma {:induction false} FileStartStep(lengths: seq<int>, i: nat)
    requires i < |lengths|
    ensures FileStart(lengths, i + 1) == FileStart(lengths, i) + lengths[i]
  {
    assert lengths[..i + 1] == lengths[..i] + [lengths[i]];
    SumAppend(lengths[..i], [lengths[i]]);
    assert Sum([lengths[i]]) == lengths[i] + Sum([lengths[i]][1..]);
  }

  lemma {:induction false} FileStartMonotone(lengths: seq<int>, i: nat, j: nat)
    requires NonNegative(lengths) && i <= j <= |lengths|
    ensures 0 <= FileStart(lengths, i) <= FileStart(lengths, j) <= Sum(lengths)
  {
    assert lengths[..j] == lengths[..i] + lengths[i..j];
    SumAppend(lengths[..i], lengths[i..j]);
    assert lengths == lengths[..j] + lengths[j..];
    SumAppend(lengths[..j], lengths[j..]);
    SumNonNegative(lengths[..i]);
    SumNonNegative(lengths[i..j]);
    SumNonNegative(lengths[j..]);
  }

  /** Byte o of file i is the byte at content offset FileStart(i) + o. */
  lemma {:induction false} CellIsFileByte(lengths: seq<int>, files: Files, i: nat, o: int)
    requires |files| == |lengths| && NonNegative(lengths)
    requires i < |lengths| && 0 <= o < lengths[i]
    ensures Cell(lengths, files, FileStart(lengths, i) + o) ==
            if o < |files[i]| then Some(files[i][o]) else None
  {
    if i == 0 {
      assert FileStart(lengths, 0) == 0;
    } else {
      assert lengths[..i][1..] == lengths[1..][..i - 1];
      assert FileStart(lengths, i) == lengths[0] + FileStart(lengths[1..], i - 1);
      FileStartMonotone(lengths[1..], 0, i - 1);
      CellIsFileByte(lengths[1..], files[1..], i - 1, o);
    }
  }

  ghost predicate Stored(lengths: seq<int>, files: Files, start: int, n: int)
    requires |files| == |lengths|
  {
    forall g :: start <= g < start + n ==> Cell(lengths, files, g).Some?
  }

  /** The n bytes of content from `start` on. */
  ghost function StoredBytes(lengths: seq<int>, files: Files, start: int, n: nat): (s: seq<byte>)
    requires |files| == |lengths| && Stored(lengths, files, start, n)
    ensures |s| == n
    ensures forall k :: 0 <= k < n ==> Some(s[k]) == Cell(lengths, files, start + k)
  {
    seq(n, k requires 0 <= k < n => Cell(lengths, files, start + k).value)
  }

  /** Everything the engine may rely on after an attempt to write `data` at content
      offset `start`: a success stores all of it, a failure leaves every byte of the range
      old or new; success or not, no byte outside the range changes and no file grows
      beyond its nominal length. */
  ghost predicate WriteEffect(lengths: seq<int>, files: Files, start: int, data: seq<byte>,
                              files': Files, ok: bool)
  {
    && |files| == |files'| == |lengths|
    && (ok ==> forall g :: start <= g < start + |data| ==>
          Cell(lengths, files', g) == Some(data[g - start]))
    && (forall g :: start <= g < start + |data| ==>
          || Cell(lengths, files', g) == Some(data[g - start])
          || Cell(lengths, files', g) == Cell(lengths, files, g))
    && (forall g :: !(start <= g < start + |data|) && Cell(lengths, files, g).Some? ==>
          Cell(lengths, files', g) == Cell(lengths, files, g))
    && (forall i :: 0 <= i < |files| ==> TailKept(lengths[i], files[i], files'[i]))
  }

  /** No file shrinks, none grows beyond its nominal length, and what an older,
      longer file holds beyond that length stays. */
  ghost predicate TailKept(length: int, file: seq<byte>, file': seq<byte>) {
    && |file| <= |file'| <= Max(|file|, length)
    && forall o :: Max(0, length) <= o < |file| ==> file'[o] == file[o]
  }
}
