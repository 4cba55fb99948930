/** What becomes of the addresses that the trackers give: from the worker's queue to the
    candidates, said of the tables before and after. */
module DiscoveryEffects {
  import opened Bytes
  import opened Torrent
  import opened PieceMgr
  import opened Disk
  import opened EngineTypes
  import opened EngineSteps
  import opened EngineInvariants
  import opened EngineDiscovery

  // ----- the queue -------------------------------------------------------------------

  /** Where an address is published first, or the length if it is not. */
  function FirstIndex(addrs: seq<Addr>, a: Addr): (i: nat)
    ensures i <= |addrs| && (i < |addrs| ==> addrs[i] == a)
    ensures forall k :: 0 <= k < i ==> addrs[k] != a
  {
    if addrs == [] || addrs[0] == a then 0 else 1 + FirstIndex(addrs[1..], a)
  }

  ghost predicate Distinct(addrs: seq<Addr>) {
    forall i, j :: 0 <= i < j < |addrs| ==> addrs[i] != addrs[j]
  }

  /** The queue keeps what it has. Every published address is in it afterwards unless it
      holds 200; nothing else is; the new ones stand in the order of their first
      publication, and none that came earlier was left out for one that came later. */
  ghost predicate Enqueued(before: seq<Addr>, addrs: seq<Addr>, after: seq<Addr>) {
    && |before| <= |after| && after[..|before|] == before
    && (|before| >= 200 ==> after == before) && (|before| < 200 ==> |after| <= 200)
    && (forall a :: a in addrs ==> a in after || |after| >= 200)
    && (forall a :: a in after ==> a in before || a in addrs)
    && NewInOrder(before, addrs, after)
  }

  ghost predicate NewInOrder(before: seq<Addr>, addrs: seq<Addr>, after: seq<Addr>) {
    && (forall i :: |before| <= i < |after| ==> after[i] !in before && after[i] in addrs)
    && (forall i, j :: |before| <= i < j < |after| ==> FirstIndex(addrs, after[i]) < FirstIndex(addrs, after[j]))
    && (forall a, j :: |before| <= j < |after| && a in addrs && a !in after ==>
          FirstIndex(addrs, after[j]) < FirstIndex(addrs, a))
  }

  lemma EnqueuedDistinct(before: seq<Addr>, addrs: seq<Addr>, after: seq<Addr>)
    requires Enqueued(before, addrs, after) && Distinct(before)
    ensures Distinct(after)
  {
    forall i, j | 0 <= i < j < |after|
      ensures after[i] != after[j]
    {
      assert after[i] == if i < |before| then after[..|before|][i] else after[i];
      assert after[j] == if j < |before| then after[..|before|][j] else after[j];
    }
  }

  lemma {:induction false} PublishIs(queue: seq<Addr>, addrs: seq<Addr>)
    ensures Enqueued(queue, addrs, Publish(queue, addrs))
    decreases addrs
  {
    if addrs != [] && |queue| < MAX_TRACKER_PEERS {
      var more := if addrs[0] in queue then queue else queue + [addrs[0]];
      PublishIs(more, addrs[1..]);
      EnqueuedMore(queue, addrs, Publish(more, addrs[1..]));
    }
  }

  lemma EnqueuedMore(queue: seq<Addr>, addrs: seq<Addr>, after: seq<Addr>)
    requires addrs != [] && |queue| < 200
    requires Enqueued(if addrs[0] in queue then queue else queue + [addrs[0]], addrs[1..], after)
    ensures Enqueued(queue, addrs, after)
  {
    hide NewInOrder;
    var more := if addrs[0] in queue then queue else queue + [addrs[0]];
    assert after[..|queue|] == after[..|more|][..|queue|] == queue;
    assert forall a :: a in addrs <==> a == addrs[0] || a in addrs[1..];
    assert addrs[0] in after by {
      assert addrs[0] in after[..|more|];
    }
    OneMoreInOrder(queue, addrs, after);
  }

  lemma IndexBehind(addrs: seq<Addr>, a: Addr)
    requires addrs != []
    ensures FirstIndex(addrs, a) == if a == addrs[0] then 0 else 1 + FirstIndex(addrs[1..], a)
    ensures a in addrs <==> a == addrs[0] || a in addrs[1..]
  {
  }

  lemma OneMoreInOrder(queue: seq<Addr>, addrs: seq<Addr>, after: seq<Addr>)
    requires addrs != [] && addrs[0] in after
    requires var more := if addrs[0] in queue then queue else queue + [addrs[0]];
             more <= after && NewInOrder(more, addrs[1..], after)
    ensures NewInOrder(queue, addrs, after)
  {
    hide FirstIndex;
    var more, rest := if addrs[0] in queue then queue else queue + [addrs[0]], addrs[1..];
    forall a: Addr {
      IndexBehind(addrs, a);
    }
    forall i | |queue| <= i < |after|
      ensures after[i] !in queue && after[i] in addrs
      ensures if i < |more| then after[i] == addrs[0] else after[i] != addrs[0] && after[i] in rest
    {
      assert i < |more| ==> after[i] == after[..|more|][i] == more[i];
      assert forall a :: a in queue ==> a in more;
    }
    forall i, j | |queue| <= i < j < |after|
      ensures FirstIndex(addrs, after[i]) < FirstIndex(addrs, after[j])
    {
      assert |more| <= i ==> FirstIndex(rest, after[i]) < FirstIndex(rest, after[j]);
    }
    forall a, j | |queue| <= j < |after| && a in addrs && a !in after
      ensures FirstIndex(addrs, after[j]) < FirstIndex(addrs, a)
    {
      assert a != addrs[0] && a in rest;
      assert |more| <= j ==> FirstIndex(rest, after[j]) < FirstIndex(rest, a);
    }
  }

  /** Publishing puts the addresses into the job's own queue and touches nothing else. */
  lemma PublishedArrive(w: World, j: nat, addrs: seq<Addr>)
    requires HasJob(w.disc, j) && !w.disc[j].value.done
    ensures var w' := Apply(w, EvDiscPublishes(j, addrs));
            && w' == w.(disc := w.disc[j := w'.disc[j]]) && HasJob(w'.disc, j)
            && var job, job' := w.disc[j].value, w'.disc[j].value;
               && job' == job.(queue := job'.queue, accepted := job'.accepted)
               && Enqueued(job.queue, addrs, job'.queue)
               && job'.accepted == job.accepted + job'.queue[|job.queue|..]
               && (Distinct(job.queue) ==> Distinct(job'.queue))
  {
    hide Publish, Enqueued, Distinct;
    var job := w.disc[j].value;
    PublishIs(job.queue, addrs);
    if Distinct(job.queue) {
      EnqueuedDistinct(job.queue, addrs, Publish(job.queue, addrs));
    }
  }

  // ----- the candidates --------------------------------------------------------------

  ghost predicate Known(cs: seq<Candidate>, addr: Addr) {
    exists c :: c in cs && c.addr == addr
  }

  /** Candidate k may make room: it has failed, is not being dialled and not connected. */
  ghost predicate Expendable(mt: Managed, k: nat) {
    && k < |mt.candidates| && !mt.candidates[k].connecting && mt.candidates[k].failures > 0
    && forall peer :: peer in mt.peers && peer.sock.Some? ==> peer.addr != mt.candidates[k].addr
  }

  /** Of those the one with the most failures, and among equals the first. */
  ghost predicate MostFailed(mt: Managed, k: nat) {
    && Expendable(mt, k)
    && forall l: nat :: Expendable(mt, l) ==>
         mt.candidates[l].failures < mt.candidates[k].failures
         || (mt.candidates[l].failures == mt.candidates[k].failures && k <= l)
  }

  /** One address is offered: it is dropped if it cannot be dialled or is known, appended
      while there are fewer than 200 candidates, and otherwise replaces the worst
      expendable one, if any. */
  ghost predicate Offered(a: Managed, b: Managed, addr: Addr) {
    && b == a.(candidates := b.candidates)
    && if addr.ip == 0 || addr.ip == 4294967295 || addr.port == 0 || Known(a.candidates, addr) then b == a
       else if |a.candidates| < 200 then b.candidates == a.candidates + [Candidate(addr, 0, false)]
       else
         && ((forall k: nat :: !Expendable(a, k)) ==> b == a)
         && forall k: nat :: MostFailed(a, k) ==> b.candidates == a.candidates[k := Candidate(addr, 0, false)]
  }

  lemma EvictableIs(mt: Managed, k: nat)
    ensures k < |mt.candidates| && Evictable(mt, k) <==> Expendable(mt, k)
  {
    if k < |mt.candidates| {
      var addr := mt.candidates[k].addr;
      assert forall p :: 0 <= p < |mt.peers| && mt.peers[p].sock.Some? && mt.peers[p].addr == addr ==>
        ConnectedAt(mt.peers, p, addr) && mt.peers[p] in mt.peers;
    }
  }

  lemma {:induction false} EvictionSlotIs(mt: Managed, n: nat)
    requires n <= |mt.candidates|
    ensures var slot := EvictionSlot(mt, n);
            && (slot.None? ==> forall l: nat :: l < n ==> !Evictable(mt, l))
            && (slot.Some? ==> forall l: nat :: l < n && Evictable(mt, l) ==>
                  mt.candidates[l].failures < mt.candidates[slot.value].failures
                  || (mt.candidates[l].failures == mt.candidates[slot.value].failures && slot.value <= l))
  {
    hide Evictable;
    if n > 0 {
      EvictionSlotIs(mt, n - 1);
    }
  }

  lemma OfferedIs(mt: Managed, addr: Addr)
    ensures Offered(mt, AddCandidate(mt, addr), addr)
  {
    hide Evictable, EvictionSlot, Expendable;
    var found := FindCandidate(mt.candidates, addr);
    assert Known(mt.candidates, addr) <==> found < |mt.candidates| by {
      if found < |mt.candidates| {
        assert mt.candidates[found] in mt.candidates;
      }
    }
    EvictionSlotIs(mt, |mt.candidates|);
    forall k: nat
      ensures k < |mt.candidates| && Evictable(mt, k) <==> Expendable(mt, k)
    {
      EvictableIs(mt, k);
    }
    var slot := EvictionSlot(mt, |mt.candidates|);
    if slot.Some? {
      assert Expendable(mt, slot.value);
    } 
  }

  /** Every address of the list is offered, in order. */
  ghost predicate AllOffered(steps: seq<Managed>, addrs: seq<Addr>) {
    |steps| == |addrs| + 1 && forall i :: 0 <= i < |addrs| ==> Offered(steps[i], steps[i + 1], addrs[i])
  }

  lemma {:induction false} AllOfferedIs(mt: Managed, addrs: seq<Addr>) returns (steps: seq<Managed>)
    ensures AllOffered(steps, addrs) && steps[0] == mt && steps[|addrs|] == AddCandidates(mt, addrs)
  {
    hide Offered, AddCandidate;
    if addrs == [] {
      steps := [mt];
    } else {
      var init := addrs[..|addrs| - 1];
      steps := AllOfferedIs(mt, init);
      OfferedIs(steps[|init|], addrs[|init|]);
      steps := steps + [AddCandidates(mt, addrs)];
    }
  }

  ghost predicate GivenAll(a: Managed, addrs: seq<Addr>, b: Managed) {
    exists steps :: AllOffered(steps, addrs) && steps[0] == a && steps[|addrs|] == b
  }

  predicate Diallable(addr: Addr) {
    addr.ip != 0 && addr.ip != 4294967295 && addr.port != 0
  }

  /** As long as there is room, no candidate is given up and every address that can be
      dialled becomes one. */
  lemma {:induction false} RoomForAll(steps: seq<Managed>, addrs: seq<Addr>)
    requires AllOffered(steps, addrs) && |steps[0].candidates| + |addrs| <= 200
    ensures var cs, cs' := steps[0].candidates, steps[|addrs|].candidates;
            && cs <= cs' && |cs'| <= |cs| + |addrs|
            && (forall a :: a in addrs && Diallable(a) ==> Known(cs', a))
            && forall c :: c in cs' ==> c in cs || (c.addr in addrs && Diallable(c.addr) && c == Candidate(c.addr, 0, false))
  {
    if addrs != [] {
      var n := |addrs| - 1;
      RoomForAll(steps[..n + 1], addrs[..n]);
      assert steps[..n + 1][n] == steps[n];
      assert Offered(steps[n], steps[n + 1], addrs[n]);
      assert forall a :: a in addrs <==> a in addrs[..n] || a == addrs[n];
      var before, after := steps[n].candidates, steps[n + 1].candidates;
      assert before <= after;
      assert forall c :: c in before ==> c in after;
      if Diallable(addrs[n]) && !Known(before, addrs[n]) {
        assert after[|before|] == Candidate(addrs[n], 0, false);
      }
    }
  }

  // ----- collecting --------------------------------------------------------------------

  /** The main thread's three steps with a discovery job, and the worker's last one: it
      reads `done`, takes the whole queue and offers it to the run that is downloading
      under the job's generation, and frees the job only if it had read that it is done. */
  lemma DiscoverySteps(w: World, j: nat)
    requires Inv(w) && HasJob(w.disc, j)
    ensures var job := w.disc[j].value;
            && Apply(w, EvDiscFinishes(j)) == w.(disc := w.disc[j := Some(job.(done := true))])
            && match job.phase
               case Idle =>
                 Apply(w, EvReadDone(j)) == w.(disc := w.disc[j := Some(job.(phase := DoneRead(job.done)))])
               case DoneRead(done) => QueueTaken(w, Apply(w, EvDrain(j)), j, done)
               case Drained(done) =>
                 Apply(w, EvFreeIfDone(j)) ==
                 w.(disc := w.disc[j := if done then None else Some(job.(phase := Idle))])
  {
    hide Inv, Drain, QueueTaken;
    if w.disc[j].value.phase.DoneRead? {
      QueueTakenIs(w, j);
    }
  }

  ghost predicate QueueTaken(w: World, w': World, j: nat, done: bool) {
    && HasJob(w.disc, j)
    && var job := w.disc[j].value;
       && w' == w.(torrents := w'.torrents,
                   disc := w.disc[j := Some(job.(queue := [], drained := job.drained + job.queue, phase := Drained(done)))])
       && |w'.torrents| == |w.torrents|
       && forall t :: 0 <= t < |w.torrents| ==>
            if w.torrents[t].generation == job.generation && w.torrents[t].state == DOWNLOADING
            then GivenAll(w.torrents[t], job.queue, w'.torrents[t])
            else w'.torrents[t] == w.torrents[t]
  }

  lemma QueueTakenIs(w: World, j: nat)
    requires Inv(w) && HasJob(w.disc, j) && w.disc[j].value.phase.DoneRead?
    ensures QueueTaken(w, Drain(w, j), j, w.disc[j].value.phase.done)
  {
    hide Inv, AddCandidates, AllOffered;
    var job := w.disc[j].value;
    DrainDelivers(w, j);
    forall t | 0 <= t < |w.torrents| && IsLive(w, t, job.generation)
      ensures GivenAll(w.torrents[t], job.queue, AddCandidates(w.torrents[t], job.queue))
    {
      var steps := AllOfferedIs(w.torrents[t], job.queue);
    }
  }

  /** A discovery job is started exactly for a downloading torrent with trackers that has
      none yet, in an empty slot and when the system provides memory and a thread. */
  lemma DiscoveryStarts(w: World, t: nat, slot: nat, resources: bool)
    requires t < |w.torrents|
    ensures var w', mt := Apply(w, EvScheduleDiscovery(t, slot, resources)), w.torrents[t];
            if mt.state == DOWNLOADING && mt.meta.hasTrackers && resources && slot < |w.disc| && w.disc[slot].None?
               && (forall k :: 0 <= k < |w.disc| && w.disc[k].Some? ==> w.disc[k].value.generation != mt.generation)
            then w' == w.(disc := w.disc[slot := Some(DiscJob(mt.generation, [], false, Idle, [], []))])
            else w' == w
  {
    forall k | 0 <= k < |w.disc| && w.disc[k].Some? && w.disc[k].value.generation == w.torrents[t].generation
      ensures HasDiscovery(w.disc, w.torrents[t].generation)
    {
      assert DiscoveryAt(w.disc, k, w.torrents[t].generation);
    }
  }
}
