/** How a stretch of the content is cut at file boundaries. The writer of file_io.c and
    the reader of web_seed.c do it with twin loops; they differ on empty files. */
module Segments {
  import opened Bytes
  import opened Torrent
  import opened Disk

  /** `length` bytes at `offset` inside one file. */
  datatype Segment = Segment(file: nat, offset: int, length: int)

  /** The segment of file i that lies in the stretch [start, end), if the overlap test
      of both loops holds. */
  function SegmentOf(lengths: seq<int>, i: nat, start: int, end: int): (s: Option<Segment>)
    requires i < |lengths|
  {
    var fileStart := FileStart(lengths, i);
    var fileEnd := fileStart + lengths[i];
    if start < fileEnd && end > fileStart then
      Some(Segment(i, Max(start, fileStart) - fileStart, Min(end, fileEnd) - Max(start, fileStart)))
    else None
  }

  function SegmentsOf(lengths: seq<int>, i: nat, start: int, end: int, skipEmpty: bool): seq<Segment>
    requires i < |lengths|
  {
    var s := SegmentOf(lengths, i, start, end);
    if s.Some? && !(skipEmpty && s.value.length == 0) then [s.value] else []
  }

  /** The segments of the files from i on; the writer leaves out empty ones. */
  function SegmentsFrom(lengths: seq<int>, i: nat, start: int, end: int, skipEmpty: bool): seq<Segment>
    requires i <= |lengths|
    decreases |lengths| - i
  {
    if i == |lengths| then []
    else SegmentsOf(lengths, i, start, end, skipEmpty) + SegmentsFrom(lengths, i + 1, start, end, skipEmpty)
  }

  function WriterSegments(lengths: seq<int>, start: int, end: int): seq<Segment> {
    SegmentsFrom(lengths, 0, start, end, true)
  }

  function ReaderSegments(lengths: seq<int>, start: int, end: int): seq<Segment> {
    SegmentsFrom(lengths, 0, start, end, false)
  }

  /** The segments cover [from, to) from left to right without gap or overlap; each is
      non-empty, lies inside its file, and no file before number `file` is used. */
  ghost predicate Tiles(lengths: seq<int>, segments: seq<Segment>, from: int, to: int, file: nat) {
    if segments == [] then from == to
    else
      var s := segments[0];
      && file <= s.file < |lengths|
      && 0 <= s.offset < s.offset + s.length <= lengths[s.file]
      && FileStart(lengths, s.file) + s.offset == from
      && Tiles(lengths, segments[1..], from + s.length, to, s.file + 1)
  }

  predicate AllNonEmpty(segments: seq<Segment>) {
    forall k :: 0 <= k < |segments| ==> segments[k].length > 0
  }

  function NonEmpty(segments: seq<Segment>): seq<Segment> {
    if segments == [] then []
    else (if segments[0].length != 0 then [segments[0]] else []) + NonEmpty(segments[1..])
  }

  /** An empty file lies strictly inside the stretch. */
  ghost predicate EmptyFileInside(lengths: seq<int>, start: int, end: int) {
    exists j :: 0 <= j < |lengths| && lengths[j] == 0 && start < FileStart(lengths, j) < end
  }

  /** How far the files before number i reach into the stretch. */
  function Reached(lengths: seq<int>, i: nat, start: int, end: int): int
    requires i <= |lengths|
  {
    Min(end, Max(start, FileStart(lengths, i)))
  }

  lemma ReachedAll(lengths: seq<int>, start: int, end: int)
    requires 0 <= start < end <= Sum(lengths)
    ensures Reached(lengths, 0, start, end) == start
    ensures Reached(lengths, |lengths|, start, end) == end
  {
    assert lengths[..|lengths|] == lengths;
    assert FileStart(lengths, 0) == 0;
  }

  /** One file's segment is the part between two consecutive marks; it is empty only
      for an empty file strictly inside the stretch. */
  lemma SegmentSpan(lengths: seq<int>, i: nat, start: int, end: int)
    requires NonNegative(lengths) && i < |lengths| && 0 <= start < end
    ensures var s := SegmentOf(lengths, i, start, end);
            var a, b := Reached(lengths, i, start, end), Reached(lengths, i + 1, start, end);
            && a <= b
            && (s.None? ==> a == b)
            && (s.Some? ==>
                  && FileStart(lengths, i) + s.value.offset == a && s.value.length == b - a
                  && 0 <= s.value.offset <= s.value.offset + s.value.length <= lengths[i])
            && (s.Some? && s.value.length == 0 <==> lengths[i] == 0 && start < FileStart(lengths, i) < end)
  {
    FileStartStep(lengths, i);
    FileStartMonotone(lengths, i, i + 1);
  }

  /** The writer's segments partition the stretch in file order and skip empty files. */
  lemma {:induction false} WriterTiles(lengths: seq<int>, i: nat, start: int, end: int)
    requires NonNegative(lengths) && i <= |lengths| && 0 <= start < end <= Sum(lengths)
    ensures Tiles(lengths, SegmentsFrom(lengths, i, start, end, true), Reached(lengths, i, start, end), end, i)
    decreases |lengths| - i
  {
    if i == |lengths| {
      ReachedAll(lengths, start, end);
    } else {
      hide SegmentOf, Reached, FileStart;
      SegmentSpan(lengths, i, start, end);
      WriterTiles(lengths, i + 1, start, end);
      var rest := SegmentsFrom(lengths, i + 1, start, end, true);
      var a, b := Reached(lengths, i, start, end), Reached(lengths, i + 1, start, end);
      var s := SegmentOf(lengths, i, start, end);
      if s.Some? && s.value.length != 0 {
        SegmentFile(lengths, i, start, end);
        TilesMore(lengths, s.value, rest, a, b, end);
      } else {
        assert [] + rest == rest;
        TilesEarlier(lengths, rest, b, end, i + 1, i);
      }
    }
  }

  lemma SegmentFile(lengths: seq<int>, i: nat, start: int, end: int)
    requires i < |lengths| && SegmentOf(lengths, i, start, end).Some?
    ensures SegmentOf(lengths, i, start, end).value.file == i
  {
  }

  /** A segment in front of segments that tile the rest. */
  lemma TilesMore(lengths: seq<int>, s: Segment, rest: seq<Segment>, a: int, b: int, end: int)
    requires s.file < |lengths| && Tiles(lengths, rest, b, end, s.file + 1)
    requires FileStart(lengths, s.file) + s.offset == a && s.length == b - a > 0
    requires 0 <= s.offset && s.offset + s.length <= lengths[s.file]
    ensures Tiles(lengths, [s] + rest, a, end, s.file)
  {
    assert ([s] + rest)[1..] == rest;
  }

  lemma TilesEarlier(lengths: seq<int>, segments: seq<Segment>, from: int, to: int, file: nat, earlier: nat)
    requires Tiles(lengths, segments, from, to, file) && earlier <= file
    ensures Tiles(lengths, segments, from, to, earlier)
  {
  }

  /** Leaving the empty segments out of what the reader asks for gives the writer's. */
  lemma {:induction false} WriterIsReaderWithoutEmpty(lengths: seq<int>, i: nat, start: int, end: int)
    requires i <= |lengths|
    ensures SegmentsFrom(lengths, i, start, end, true) == NonEmpty(SegmentsFrom(lengths, i, start, end, false))
    decreases |lengths| - i
  {
    if i < |lengths| {
      WriterIsReaderWithoutEmpty(lengths, i + 1, start, end);
      var rest := SegmentsFrom(lengths, i + 1, start, end, false);
      var s := SegmentOf(lengths, i, start, end);
      if s.Some? {
        assert ([s.value] + rest)[1..] == rest;
      } else {
        assert [] + rest == rest;
      }
    }
  }

  lemma {:induction false} NonEmptyOfAll(segments: seq<Segment>)
    requires AllNonEmpty(segments)
    ensures NonEmpty(segments) == segments
  {
    if segments != [] {
      assert forall k :: 0 <= k < |segments[1..]| ==> segments[1..][k] == segments[k + 1];
      NonEmptyOfAll(segments[1..]);
      assert [segments[0]] + segments[1..] == segments;
    }
  }

  /** The reader asks for an empty range exactly when an empty file is strictly inside. */
  lemma {:induction false} ReaderEmptyIff(lengths: seq<int>, i: nat, start: int, end: int)
    requires NonNegative(lengths) && i <= |lengths| && 0 <= start < end
    ensures AllNonEmpty(SegmentsFrom(lengths, i, start, end, false)) <==>
            forall j :: i <= j < |lengths| && lengths[j] == 0 ==> !(start < FileStart(lengths, j) < end)
    decreases |lengths| - i
  {
    if i < |lengths| {
      SegmentSpan(lengths, i, start, end);
      ReaderEmptyIff(lengths, i + 1, start, end);
      var rest := SegmentsFrom(lengths, i + 1, start, end, false);
      var all := SegmentsFrom(lengths, i, start, end, false);
      var s := SegmentOf(lengths, i, start, end);
      if s.Some? {
        assert all == [s.value] + rest;
        assert all[0] == s.value;
        assert forall k :: 0 <= k < |rest| ==> all[k + 1] == rest[k];
        assert AllNonEmpty(all) <==> s.value.length > 0 && AllNonEmpty(rest);
      } else {
        assert all == rest;
      }
    }
  }

  /** Scatter and gather cut the stretch alike if and only if no empty file lies strictly
      inside it, and then the reader's segments tile it too. */
  lemma SegmentsAgreeIff(lengths: seq<int>, start: int, end: int)
    requires NonNegative(lengths) && 0 <= start < end <= Sum(lengths)
    ensures WriterSegments(lengths, start, end) == ReaderSegments(lengths, start, end)
            <==> !EmptyFileInside(lengths, start, end)
    ensures AllNonEmpty(ReaderSegments(lengths, start, end)) <==> !EmptyFileInside(lengths, start, end)
    ensures Tiles(lengths, WriterSegments(lengths, start, end), start, end, 0)
  {
    var w, r := WriterSegments(lengths, start, end), ReaderSegments(lengths, start, end);
    WriterTiles(lengths, 0, start, end);
    ReachedAll(lengths, start, end);
    ReaderEmptyIff(lengths, 0, start, end);
    WriterIsReaderWithoutEmpty(lengths, 0, start, end);
    if AllNonEmpty(r) {
      NonEmptyOfAll(r);
    }
    TilesNonEmpty(lengths, w, start, end, 0);
  }

  lemma {:induction false} TilesNonEmpty(lengths: seq<int>, segments: seq<Segment>, from: int, to: int, file: nat)
    requires Tiles(lengths, segments, from, to, file)
    ensures AllNonEmpty(segments)
  {
    if segments != [] {
      var rest := segments[1..];
      TilesNonEmpty(lengths, rest, from + segments[0].length, to, segments[0].file + 1);
      forall k | 0 <= k < |segments|
        ensures segments[k].length > 0
      {
        if k > 0 {
          assert segments[k] == rest[k - 1];
        }
      }
    }
  }

  lemma {:induction false} NonEmptyHasNone(segments: seq<Segment>)
    ensures forall k :: 0 <= k < |NonEmpty(segments)| ==> NonEmpty(segments)[k].length != 0
  {
    if segments != [] {
      NonEmptyHasNone(segments[1..]);
    }
  }

  /** Two files of one byte with an empty file between them, and one piece over both:
      the reader asks for zero bytes of the file in the middle, the writer does not. */
  lemma EmptyFileSplitsThem()
    ensures var lengths := [1, 0, 1];
            && EmptyFileInside(lengths, 0, 2)
            && Segment(1, 0, 0) in ReaderSegments(lengths, 0, 2)
            && Segment(1, 0, 0) !in WriterSegments(lengths, 0, 2)
  {
    hide SegmentsFrom, SegmentOf, FileStart, Sum;
    SplitStarts();
    var all := ReaderSegments([1, 0, 1], 0, 2);
    SplitReader();
    assert all[1] == Segment(1, 0, 0);
    WriterIsReaderWithoutEmpty([1, 0, 1], 0, 0, 2);
    NonEmptyHasNone(all);
  }

  lemma SplitStarts()
    ensures var lengths := [1, 0, 1];
            FileStart(lengths, 0) == 0 && FileStart(lengths, 1) == 1 && FileStart(lengths, 2) == 1 && Sum(lengths) == 2
  {
    var lengths := [1, 0, 1];
    assert Sum([1, 0, 1]) == 1 + Sum([0, 1]) by { assert [1, 0, 1][1..] == [0, 1]; }
    assert Sum([0, 1]) == 0 + Sum([1]) by { assert [0, 1][1..] == [1]; }
    assert Sum([1]) == 1 by { assert [1][1..] == []; }
    assert Sum([1, 0]) == 1 + Sum([0]) by { assert [1, 0][1..] == [0]; }
    assert Sum([0]) == 0 by { assert [0][1..] == []; }
    assert lengths[..0] == [] && lengths[..1] == [1] && lengths[..2] == [1, 0];
  }

  lemma SplitReader()
    ensures var all := ReaderSegments([1, 0, 1], 0, 2);
            |all| > 1 && all[1] == Segment(1, 0, 0)
  {
    hide FileStart, Sum, SegmentsFrom, SegmentOf;
    SplitStarts();
    var lengths := [1, 0, 1];
    SplitSegments(lengths);
    FirstTwo(lengths, 0, 2);
  }

  lemma SplitSegments(lengths: seq<int>)
    requires |lengths| == 3 && lengths[0] == 1 && lengths[1] == 0
    requires FileStart(lengths, 0) == 0 && FileStart(lengths, 1) == 1
    ensures SegmentOf(lengths, 0, 0, 2) == Some(Segment(0, 0, 1))
    ensures SegmentOf(lengths, 1, 0, 2) == Some(Segment(1, 0, 0))
  {
    hide FileStart, Sum, SegmentsFrom;
  }

  lemma FirstTwo(lengths: seq<int>, start: int, end: int)
    requires NonNegative(lengths) && |lengths| >= 2 && 0 <= start < end
    requires SegmentOf(lengths, 0, start, end).Some? && SegmentOf(lengths, 1, start, end).Some?
    ensures var all := SegmentsFrom(lengths, 0, start, end, false);
            |all| > 1 && all[1] == SegmentOf(lengths, 1, start, end).value
  {
    hide SegmentOf;
    var rest := SegmentsFrom(lengths, 2, start, end, false);
    assert SegmentsFrom(lengths, 1, start, end, false) == [SegmentOf(lengths, 1, start, end).value] + rest;
  }
}
