/** The streaming search of tile_state.c against the plain search of the whole file. */
module TileState {
  import opened Bytes

  const BUFFER_SIZE: nat := 8192

  ghost predicate OccursAt(content: seq<byte>, needle: seq<byte>, j: int) {
    0 <= j <= j + |needle| <= |content| && content[j..j + |needle|] == needle
  }

  /** The needle stands contiguously somewhere in the content. */
  ghost predicate Occurs(content: seq<byte>, needle: seq<byte>) {
    exists j :: OccursAt(content, needle, j)
  }

  /** `fread`: any positive number of bytes up to the room, and none only at the end. */
  method Read(content: seq<byte>, pos: nat, buffer: array<byte>, at: nat) returns (n: nat)
    requires pos <= |content| && at < buffer.Length
    modifies buffer
    ensures pos + n <= |content| && at + n <= buffer.Length && (n == 0 <==> pos == |content|)
    ensures buffer[..at + n] == old(buffer[..at]) + content[pos..pos + n]
  {
    var limit := Min(buffer.Length - at, |content| - pos);
    var some: int := *;
    n := if 1 <= some <= limit then some else Min(1, limit);
    forall k | 0 <= k < n {
      buffer[at + k] := content[pos + k];
    }
  }

  /** The `memcmp` at every place of the window. */
  method FindInWindow(buffer: array<byte>, total: nat, version: seq<byte>) returns (found: bool)
    requires total <= buffer.Length
    ensures found <==> Occurs(buffer[..total], version)
  {
    var i := 0;
    while i + |version| <= total
      invariant forall j :: OccursAt(buffer[..total], version, j) ==> i <= j
    {
      assert buffer[i..i + |version|] == buffer[..total][i..i + |version|];
      if buffer[i..i + |version|] == version {
        assert OccursAt(buffer[..total], version, i);
        return true;
      }
      i := i + 1;
    }
    found := false;
  }

  /** The `memmove` that keeps the end of the window. */
  method KeepTail(buffer: array<byte>, total: nat, carry: nat)
    requires carry <= total <= buffer.Length
    modifies buffer
    ensures buffer[..carry] == old(buffer[..total])[total - carry..]
  {
    forall k | 0 <= k < carry {
      buffer[k] := buffer[total - carry + k];
    }
  }

  /** Every occurrence is over before `pos` reaches its end, or lies in what follows. */
  ghost predicate NoneBefore(content: seq<byte>, needle: seq<byte>, pos: int) {
    forall j :: OccursAt(content, needle, j) ==> pos < j + |needle|
  }

  lemma WindowIs(content: seq<byte>, needle: seq<byte>, window: seq<byte>, from: nat, j: int)
    requires from + |window| <= |content| && window == content[from..from + |window|]
    ensures OccursAt(window, needle, j) <==>
            OccursAt(content, needle, from + j) && 0 <= j && j + |needle| <= |window|
  {
    if 0 <= j && j + |needle| <= |window| {
      SliceOfSlice(content, from, from + |window|, j, j + |needle|);
    }
  }

  /** One window: with the last |needle| - 1 bytes before it in front, it shows every
      occurrence that ends inside it. */
  lemma WindowDecides(content: seq<byte>, needle: seq<byte>, carry: nat, pos: nat, n: nat, window: seq<byte>)
    requires needle != [] && pos + n <= |content| && carry == Min(pos, |needle| - 1)
    requires window == content[pos - carry..pos + n] && NoneBefore(content, needle, pos)
    ensures Occurs(window, needle) ==> Occurs(content, needle)
    ensures !Occurs(window, needle) ==> NoneBefore(content, needle, pos + n)
  {
    var from := pos - carry;
    if Occurs(window, needle) {
      var j :| OccursAt(window, needle, j);
      WindowIs(content, needle, window, from, j);
      assert OccursAt(content, needle, from + j);
    } else {
      forall j | OccursAt(content, needle, j)
        ensures pos + n < j + |needle|
      {
        if j + |needle| <= pos + n {
          WindowIs(content, needle, window, from, j - from);
        }
      }
    }
  }

  /** `contains_version` on a file that could be opened. It finds every needle of 1 to
      8191 bytes, however the reads cut the file, and no other. */
  method ContainsVersion(content: seq<byte>, version: seq<byte>) returns (found: bool)
    ensures found <==> 0 < |version| < 8192 && Occurs(content, version)
  {
    hide Occurs, OccursAt, NoneBefore;
    var length := |version|;
    if length == 0 || length >= BUFFER_SIZE {
      return false;
    }
    var buffer := new byte[BUFFER_SIZE](_ => 0);
    var carry, pos := 0, 0;
    NothingBefore(content, version);
    while true
      invariant 0 <= pos <= |content| && 0 <= carry == Min(pos, length - 1)
      invariant buffer[..carry] == content[pos - carry..pos]
      invariant NoneBefore(content, version, pos)
      decreases |content| - pos
    {
      ghost var head := content[pos - carry..pos];
      var n := Read(content, pos, buffer, carry);
      if n == 0 {
        break;
      }
      var total := carry + n;
      ghost var window := content[pos - carry..pos + n];
      Adjacent(content, pos - carry, pos, pos + n);
      assert buffer[..total] == head + content[pos..pos + n];
      WindowDecides(content, version, carry, pos, n, window);
      found := FindInWindow(buffer, total, version);
      if found {
        return;
      }
      carry := if total < length - 1 then total else length - 1;
      pos := pos + n;
      TailOfWindow(content, pos, window, carry);
      ghost var tail := content[pos - carry..pos];
      KeepTail(buffer, total, carry);
      assert buffer[..carry] == tail;
    }
    NoneInAll(content, version);
    found := false;
  }

  lemma Adjacent(s: seq<byte>, a: nat, b: nat, c: nat)
    requires a <= b <= c <= |s|
    ensures s[a..b] + s[b..c] == s[a..c]
  {
  }

  lemma TailOfWindow(content: seq<byte>, end: nat, window: seq<byte>, carry: nat)
    requires carry <= |window| <= end <= |content| && window == content[end - |window|..end]
    ensures window[|window| - carry..] == content[end - carry..end]
  {
  }

  lemma NothingBefore(content: seq<byte>, needle: seq<byte>)
    requires needle != []
    ensures NoneBefore(content, needle, 0)
  {
  }

  lemma NoneInAll(content: seq<byte>, needle: seq<byte>)
    ensures NoneBefore(content, needle, |content|) ==> !Occurs(content, needle)
  {
  }
}
