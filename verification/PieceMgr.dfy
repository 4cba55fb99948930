/** The piece manager of piece_mgr.c. */
module PieceMgr {
  import opened Bytes
  import opened Bitfield
  import opened Torrent
  import Sha1Spec

  datatype PieceState = FREE | REQUESTED | COMPLETE | FAILED

  /** The value of a `piece_mgr_t`. */
  datatype PieceTable = PieceTable(
    states: seq<PieceState>,
    hashes: seq<seq<byte>>,
    numComplete: nat,
    bitfield: seq<byte>
  ) {
    /** `piece_mgr_is_done`. */
    predicate IsDone() {
      numComplete >= |states|
    }

    function SetState(i: nat, s: PieceState): PieceTable {
      if i < |states| then this.(states := states[i := s]) else this
    }

    /** `piece_mgr_request`. */
    function Request(i: nat): PieceTable {
      SetState(i, REQUESTED)
    }

    /** A piece that its owner gives up; a finished piece stays finished. */
    function Release(i: nat): PieceTable {
      if i < |states| && states[i] != COMPLETE then SetState(i, FREE) else this
    }

    /** `piece_mgr_complete`: the second value is true when the hash matched. */
    function Complete(i: nat, data: seq<byte>): (PieceTable, bool)
      requires |hashes| == |states| && |bitfield| == (|states| + 7) / 8
    {
      if i >= |states| then (this, false)
      else if Sha1Spec.Digest(data) != hashes[i] then (SetState(i, FAILED), false)
      else (Finish(i), true)
    }

    function Finish(i: nat): PieceTable
      requires i < |states| && |bitfield| == (|states| + 7) / 8
    {
      PieceTable(states[i := COMPLETE], hashes, numComplete + 1, SetBit(bitfield, i))
    }

    /** Is piece i free, and does the peer claim to have it? */
    predicate Available(i: nat, have: Option<seq<byte>>) {
      && i < |states| && states[i] == FREE
      && (have.Some? && i / 8 < |have.value| ==> HasBit(have.value, i))
    }

    function FirstAvailable(have: Option<seq<byte>>, from: nat): int
      decreases |states| - from
    {
      if from >= |states| then -1
      else if Available(from, have) then from
      else FirstAvailable(have, from + 1)
    }

    /** `piece_mgr_get_next`. */
    function GetNext(have: Option<seq<byte>>): int {
      if IsDone() then -1 else FirstAvailable(have, 0)
    }

    /** Counter, states and bitfield agree, and no piece has failed. */
    ghost predicate Consistent() {
      && |hashes| == |states|
      && numComplete == CountComplete(states)
      && |bitfield| == (|states| + 7) / 8
      && (forall k :: 0 <= k < 8 * |bitfield| ==>
            (HasBit(bitfield, k) <==> k < |states| && states[k] == COMPLETE))
      && forall k :: 0 <= k < |states| ==> states[k] != FAILED
    }
  }

  function CountComplete(states: seq<PieceState>): nat {
    if states == [] then 0
    else CountComplete(states[..|states| - 1]) + if states[|states| - 1] == COMPLETE then 1 else 0
  }

  /** `piece_mgr_init` when both allocations succeed. */
  function InitialTable(t: Metainfo): (p: PieceTable)
    ensures |p.states| == |p.hashes| == t.NumPieces()
  {
    PieceTable(seq(t.NumPieces(), _ => FREE),
               seq(t.NumPieces(), i requires 0 <= i < t.NumPieces() => t.ExpectedHash(i)),
               0,
               Zeros((t.NumPieces() + 7) / 8))
  }

  lemma {:induction false} CountUpdate(states: seq<PieceState>, i: nat, s: PieceState)
    requires i < |states|
    ensures CountComplete(states[i := s]) ==
            CountComplete(states) - (if states[i] == COMPLETE then 1 else 0) + (if s == COMPLETE then 1 else 0)
  {
    var last := |states| - 1;
    if i == last {
      assert states[i := s][..last] == states[..last];
    } else {
      assert states[i := s][..last] == states[..last][i := s];
      CountUpdate(states[..last], i, s);
    }
  }

  lemma {:induction false} CountBounds(states: seq<PieceState>)
    ensures CountComplete(states) <= |states|
    ensures CountComplete(states) == |states| <==> forall k :: 0 <= k < |states| ==> states[k] == COMPLETE
  {
    if states != [] {
      var init := states[..|states| - 1];
      CountBounds(init);
      assert forall k :: 0 <= k < |init| ==> init[k] == states[k];
    }
  }

  lemma {:induction false} CountNone(states: seq<PieceState>)
    requires forall k :: 0 <= k < |states| ==> states[k] != COMPLETE
    ensures CountComplete(states) == 0
  {
    if states != [] {
      CountNone(states[..|states| - 1]);
    }
  }

  lemma InitialTableConsistent(t: Metainfo)
    ensures InitialTable(t).Consistent()
    ensures forall k :: 0 <= k < t.NumPieces() ==> InitialTable(t).states[k] == FREE
  {
    CountNone(InitialTable(t).states);
  }

  /** The unconditional increment of piece_mgr_complete is right as long as callers
      never complete a piece twice. */
  lemma FinishConsistent(p: PieceTable, i: nat)
    requires p.Consistent() && i < |p.states| && p.states[i] != COMPLETE
    ensures p.Finish(i).Consistent()
  {
    CountUpdate(p.states, i, COMPLETE);
    forall k | 0 <= k < 8 * |p.bitfield|
      ensures HasBit(p.Finish(i).bitfield, k) <==>
              k < |p.states| && p.Finish(i).states[k] == COMPLETE
    {
      SetBitEffect(p.bitfield, i, k);
    }
  }

  /** Completing a finished piece once more breaks the counter. */
  lemma FinishTwiceInconsistent(p: PieceTable, i: nat)
    requires p.Consistent() && i < |p.states| && p.states[i] == COMPLETE
    ensures !p.Finish(i).Consistent()
  {
    assert p.states[i := COMPLETE] == p.states;
  }

  /** A piece is completed only with the expected digest: then its state, its bit and the
      counter say so. With another digest it has failed. */
  lemma CompleteIs(p: PieceTable, i: nat, data: seq<byte>)
    requires |p.hashes| == |p.states| && |p.bitfield| == (|p.states| + 7) / 8
    ensures var (q, ok) := p.Complete(i, data);
            if i >= |p.states| then q == p && !ok
            else if Sha1Spec.Digest(data) != p.hashes[i] then q == p.(states := p.states[i := FAILED]) && !ok
            else
              && ok && q == p.(states := p.states[i := COMPLETE], numComplete := p.numComplete + 1, bitfield := q.bitfield)
              && |q.bitfield| == |p.bitfield|
              && forall k: nat :: k < 8 * |p.bitfield| ==> (HasBit(q.bitfield, k) <==> k == i || HasBit(p.bitfield, k))
  {
    hide Sha1Spec.Digest, HasBit, SetBit;
    if i < |p.states| {
      forall k: nat | k < 8 * |p.bitfield|
        ensures HasBit(SetBit(p.bitfield, i), k) <==> k == i || HasBit(p.bitfield, k)
      {
        SetBitEffect(p.bitfield, i, k);
      }
    }
  }

  lemma SetStateConsistent(p: PieceTable, i: nat, s: PieceState)
    requires p.Consistent() && s != FAILED && s != COMPLETE
    requires i < |p.states| ==> p.states[i] != COMPLETE
    ensures p.SetState(i, s).Consistent()
  {
    if i < |p.states| {
      CountUpdate(p.states, i, s);
    }
  }

  /** Counter agreement: the counter is the number of finished pieces and the number
      of set bits, and "done" means that every piece is finished. */
  lemma CountersAgree(p: PieceTable)
    requires p.Consistent()
    ensures p.numComplete == CountComplete(p.states) == CountBits(p.bitfield, 8 * |p.bitfield|)
    ensures p.IsDone() <==> forall k :: 0 <= k < |p.states| ==> p.states[k] == COMPLETE
  {
    hide HasBit;
    CountBounds(p.states);
    BitsBeyond(p, 8 * |p.bitfield|);
    assert p.states[..|p.states|] == p.states;
  }

  lemma {:induction false} BitsBeyond(p: PieceTable, n: nat)
    requires p.Consistent() && n <= 8 * |p.bitfield|
    ensures CountBits(p.bitfield, n) == CountComplete(p.states[..Min(n, |p.states|)])
  {
    hide HasBit;
    if n > 0 {
      BitsBeyond(p, n - 1);
      if n <= |p.states| {
        assert p.states[..n][..n - 1] == p.states[..n - 1];
      }
    }
  }

  /** The scan returns the first available piece, or -1 when there is none. */
  lemma {:induction false} FirstAvailableIs(p: PieceTable, have: Option<seq<byte>>, from: nat)
    requires from <= |p.states|
    ensures var r := p.FirstAvailable(have, from);
            && (r == -1 || from <= r < |p.states|)
            && (r >= 0 ==> p.Available(r, have))
            && forall k :: from <= k < |p.states| && (r < 0 || k < r) ==> !p.Available(k, have)
    decreases |p.states| - from
  {
    if from < |p.states| && !p.Available(from, have) {
      FirstAvailableIs(p, have, from + 1);
    }
  }

  /** A free piece that the peer has is found: nothing that can be fetched is lost. */
  lemma GetNextFinds(p: PieceTable, have: Option<seq<byte>>)
    requires p.Consistent()
    ensures var r := p.GetNext(have);
            && (r >= 0 ==> p.Available(r, have) && forall k :: 0 <= k < r ==> !p.Available(k, have))
            && (r < 0 <==> forall k :: 0 <= k < |p.states| ==> !p.Available(k, have))
  {
    CountersAgree(p);
    FirstAvailableIs(p, have, 0);
  }

  /** `piece_mgr_t` as the source keeps it: arrays that are updated in place. */
  class PieceManager {
    const states: array<PieceState>
    const bitfield: array<byte>
    const hashes: seq<seq<byte>>
    var numComplete: nat

    ghost predicate Valid()
      reads this, states, bitfield
    {
      |hashes| == states.Length && bitfield.Length == (states.Length + 7) / 8
    }

    ghost function View(): PieceTable
      reads this, states, bitfield
    {
      PieceTable(states[..], hashes, numComplete, bitfield[..])
    }

    /** `piece_mgr_init`. */
    constructor (t: Metainfo)
      ensures Valid() && View() == InitialTable(t) && fresh(states) && fresh(bitfield)
    {
      var n := t.NumPieces();
      states := new PieceState[n](_ => FREE);
      bitfield := new byte[(n + 7) / 8](_ => 0);
      hashes := seq(n, i requires 0 <= i < n => t.ExpectedHash(i));
      numComplete := 0;
    }

    /** `piece_mgr_get_next`. */
    method GetNext(have: Option<seq<byte>>) returns (next: int)
      requires Valid()
      ensures next == View().GetNext(have)
    {
      if numComplete >= states.Length {
        return -1;
      }
      var i := 0;
      while i < states.Length
        invariant 0 <= i <= states.Length
        invariant View().FirstAvailable(have, 0) == View().FirstAvailable(have, i)
      {
        if states[i] == FREE &&
           !(have.Some? && i / 8 < |have.value| && have.value[i / 8] / Weight(i) % 2 == 0) {
          return i;
        }
        i := i + 1;
      }
      next := -1;
    }

    /** `piece_mgr_request`. */
    method Request(index: nat)
      requires Valid()
      modifies states
      ensures Valid() && View() == old(View()).Request(index)
    {
      if index >= states.Length {
        return;
      }
      states[index] := REQUESTED;
      assert states[..] == old(states[..])[index := REQUESTED];
    }

    /** `piece_mgr_complete`. */
    method Complete(index: nat, data: seq<byte>) returns (ok: bool)
      requires Valid()
      modifies this`numComplete, states, bitfield
      ensures Valid() && (View(), ok) == old(View()).Complete(index, data)
    {
      hide Sha1Spec.Digest;
      if index >= states.Length {
        return false;
      }
      var actual := Sha1Spec.Digest(data);
      if actual != hashes[index] {
        states[index] := FAILED;
        assert states[..] == old(states[..])[index := FAILED];
        return false;
      }
      states[index] := COMPLETE;
      numComplete := numComplete + 1;
      bitfield[index / 8] := OrWeight(bitfield[index / 8], index);
      assert states[..] == old(states[..])[index := COMPLETE];
      assert bitfield[..] == SetBit(old(bitfield[..]), index);
      ok := true;
    }

    /** `piece_mgr_is_done`. */
    method IsDone() returns (done: bool)
      requires Valid()
      ensures done == View().IsDone()
    {
      done := numComplete >= states.Length;
    }
  }
}
