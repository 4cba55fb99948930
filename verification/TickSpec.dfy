/** What one call of torrent_mgr_tick must do, as a property of the steps it takes. */
module TickSpec {
  import opened Bytes
  import opened Torrent
  import opened EngineTypes
  import opened EngineSteps
  import opened BatchLaunch
  import opened BatchEffects

  /** What a tick meets: for peer p of torrent t whether a time limit has passed, the messages
      that wait in its socket and whether a request can be sent; for a torrent whether an
      announce is due and whether the cool-down of an address is over; what malloc returns,
      and whether bitfields, threads and complete writes can be had. */
  datatype Surroundings = Surroundings(
    late: (nat, nat) -> bool,
    inbox: (nat, nat) -> seq<Message>,
    sends: (nat, nat) -> bool,
    due: nat -> bool,
    ready: (nat, Addr) -> bool,
    malloc: nat -> Option<seq<byte>>,
    bitfields: bool,
    threads: bool,
    disk: bool
  )

  predicate IsWorker(e: Event) {
    e.EvWebWorker? || e.EvConnOpens? || e.EvConnSucceeds? || e.EvConnFails? || e.EvDiscPublishes? || e.EvDiscFinishes?
  }

  /** The main thread's part of a trace. */
  function Main(events: seq<Event>): seq<Event> {
    if events == [] then []
    else Main(events[..|events| - 1]) + if IsWorker(events[|events| - 1]) then [] else [events[|events| - 1]]
  }

  function Joined(turns: seq<seq<Event>>): seq<Event> {
    if turns == [] then [] else Joined(turns[..|turns| - 1]) + turns[|turns| - 1]
  }

  // ----- the collecting loops -----------------------------------------------------

  /** The turns of collect_discovery for the first n slots: every job there is looked at,
      drained and freed if it was done, in this order. */
  function DiscoveryTurns(disc: seq<Option<DiscJob>>, n: nat): seq<Event>
    requires n <= |disc|
  {
    if n == 0 then []
    else DiscoveryTurns(disc, n - 1) +
         if disc[n - 1].None? then [] else [EvReadDone(n - 1), EvDrain(n - 1), EvFreeIfDone(n - 1)]
  }

  predicate CollectsWeb(steps: seq<Event>) {
    |steps| == WEB_SEED_MAX_JOBS && forall k :: 0 <= k < |steps| ==> steps[k].EvCollectWeb? && steps[k].j == k
  }

  predicate CollectsConn(steps: seq<Event>) {
    |steps| == PEER_CONNECT_MAX_JOBS && forall k :: 0 <= k < |steps| ==> steps[k] == EvCollectConn(k)
  }

  /** The main thread collects every web-seed slot, then every discovery job that was
      there, then every connection slot; workers may act in between. On a working disk no
      verified piece of a batch is lost. */
  ghost predicate IsCollecting(w: World, steps: seq<Event>, s: Surroundings) {
    && (s.disk ==> WritesWork(w, steps))
    && exists web: seq<Event>, conn: seq<Event> ::
         CollectsWeb(web) && CollectsConn(conn) && Main(steps) == web + DiscoveryTurns(w.disc, |w.disc|) + conn
  }

  /** In every batch that is collected, the first piece that is not saved has a wrong digest. */
  ghost predicate WritesWork(w: World, steps: seq<Event>) {
    forall k :: 0 <= k < |steps| && steps[k].EvCollectWeb? ==> BatchWrites(Run(w, steps[..k]), steps[k].j, steps[k].writes)
  }

  ghost predicate BatchWrites(w: World, j: nat, writes: seq<WriteOutcome>) {
    HasJob(w.web, j) ==>
      var job := w.web[j].value;
      forall t, k :: 0 <= t < |w.torrents| && IsLive(w, t, job.generation) && BatchFits(w.torrents[t], job)
                     && 0 <= k < |job.sizes| && job.ok && job.done && FirstFailure(w.torrents[t], job, writes, k) ==>
                       !RightDigest(w.torrents[t], job, k)
  }

  // ----- one peer -------------------------------------------------------------------

  /** The first n steps receive the messages that wait, at most eight and each while the
      peer is still active; a request follows exactly if the peer is active after them. On a
      working disk the torrent goes on downloading. */
  ghost predicate IsExchange(w: World, steps: seq<Event>, t: nat, p: nat, s: Surroundings, n: nat) {
    && n <= 8 && n <= |steps| && n <= |s.inbox(t, p)|
    && (forall k :: 0 <= k < n ==> IsReceipt(w, steps, t, p, s, k))
    && (n == 8 || n == |s.inbox(t, p)| || !PeerActive(Run(w, steps[..n]), t, p))
    && if PeerActive(Run(w, steps[..n]), t, p)
       then |steps| == n + 1 && IsRequest(Run(w, steps[..n]), steps[n], t, p, s)
       else |steps| == n
  }

  ghost predicate IsReceipt(w: World, steps: seq<Event>, t: nat, p: nat, s: Surroundings, k: nat)
    requires k < |steps| && k < |s.inbox(t, p)|
  {
    && steps[k].EvRecv? && steps[k].t == t && steps[k].p == p
    && steps[k].msg == s.inbox(t, p)[k] && steps[k].hasMemory == s.bitfields
    && PeerActive(Run(w, steps[..k]), t, p)
    && (s.disk ==> Downloading(Run(w, steps[..k + 1]), t))
  }

  ghost predicate Downloading(w: World, t: nat) {
    t < |w.torrents| && w.torrents[t].state == DOWNLOADING
  }

  /** The memory for a new piece is what malloc returns for its size. */
  ghost predicate IsRequest(w: World, e: Event, t: nat, p: nat, s: Surroundings)
    requires t < |w.torrents|
  {
    && e.EvRequest? && e.t == t && e.p == p && e.sent == s.sends(t, p)
    && forall i: nat :: i < w.torrents[t].meta.NumPieces() && NextFor(w, t, p) == i ==>
         e.memory == s.malloc(Max(0, PeerPieceSize(w.torrents[t].meta, i)))
  }

  /** The piece that the peer is to be given, or -1. */
  ghost function NextFor(w: World, t: nat, p: nat): int {
    if !PeerActive(w, t, p) || w.torrents[t].table.None? then -1
    else
      var peer := w.torrents[t].peers[p];
      if peer.choked || peer.pending > 0 || peer.have.None? || peer.assembly.Some? then -1
      else w.torrents[t].table.value.GetNext(peer.have)
  }

  /** A turn of process_peer: nothing for a peer that is not active, a time-out if it is
      late, and otherwise an exchange. */
  ghost predicate IsPeerTurn(w: World, steps: seq<Event>, t: nat, p: nat, s: Surroundings) {
    if !PeerActive(w, t, p) then steps == []
    else if s.late(t, p) then steps == [EvTimeOut(t, p)]
    else exists n: nat :: IsExchange(w, steps, t, p, s, n)
  }

  // ----- one torrent ------------------------------------------------------------------

  /** schedule_peer_connections tries candidates until each has had its turn, a limit is
      reached, or a slot, memory or thread is missing. */
  ghost predicate AllDialled(w: World, dials: seq<Event>, t: nat, s: Surroundings) {
    && t < |w.torrents| && |dials| <= |w.torrents[t].candidates|
    && (forall k :: 0 <= k < |dials| ==> IsDial(Run(w, dials[..k]), dials[k], t, s))
    && var w' := Run(w, dials);
       && t < |w'.torrents|
       && var pending := ConnPending(w'.conn, w'.torrents[t].generation);
          || |dials| == |w.torrents[t].candidates|
          || pending >= PEER_CONNECT_PARALLEL
          || w'.torrents[t].active + pending >= MAX_PEERS_PER_TORRENT
          || (|dials| > 0 && (!s.threads || FreeSlot(w'.conn).None?))
  }

  /** A turn of the next candidate. */
  ghost predicate IsDial(w: World, e: Event, t: nat, s: Surroundings) {
    && t < |w.torrents| && w.torrents[t].candidates != []
    && var cs := w.torrents[t].candidates;
       e == EvScheduleConn(t, s.ready(t, cs[w.torrents[t].nextCandidate % |cs|].addr), s.threads)
  }

  /** schedule_web_seed goes on until an attempt launches nothing. */
  ghost predicate AllSeeded(w: World, batches: seq<Event>, t: nat, s: Surroundings) {
    && |batches| > 0 && (forall k :: 0 <= k < |batches| ==> IsAttempt(Run(w, batches[..k]), batches[k], t, s))
    && Run(w, batches) == Run(w, batches[..|batches| - 1])
  }

  /** The buffer of a batch is what malloc returns for its size. */
  ghost predicate IsAttempt(w: World, e: Event, t: nat, s: Surroundings) {
    && e.EvScheduleWeb? && e.t == t && e.resources == s.threads && BufferFits(w, t, s, e.buffer)
  }

  ghost predicate BufferFits(w: World, t: nat, s: Surroundings, buffer: seq<byte>) {
    MayFetch(w, t) ==>
      forall i: nat, n: nat :: n > 0 && FirstFree(w.torrents[t], i) && LongestRun(w.torrents[t], i, n) ==>
        buffer == Block(s, Span(w.torrents[t].meta, i, n))
  }

  /** A block of memory, or nothing if there is none. */
  function Block(s: Surroundings, n: int): seq<byte> {
    var block := s.malloc(if n < 0 then 0 else n);
    if block.Some? then block.value else []
  }

  /** A tracker job if one is due, in the last empty slot. */
  ghost predicate IsAnnounce(w: World, trackers: seq<Event>, t: nat, s: Surroundings) {
    && t < |w.torrents|
    && if !s.due(t) then trackers == []
       else
         && |trackers| == 1 && trackers[0].EvScheduleDiscovery? && trackers[0].t == t
         && trackers[0].resources == s.threads
         && (w.torrents[t].meta.hasTrackers && !HasDiscovery(w.disc, w.torrents[t].generation) ==>
               LastEmpty(w.disc, trackers[0].slot) || forall k :: 0 <= k < |w.disc| ==> w.disc[k].Some?)
  }

  ghost predicate LastEmpty<J>(slots: seq<Option<J>>, slot: nat) {
    slot < |slots| && slots[slot].None? && forall k :: slot < k < |slots| ==> slots[k].Some?
  }

  /** Perhaps a tracker job, then a turn of every peer in order, then the connections,
      then the web seeds. */
  ghost predicate IsService(w: World, steps: seq<Event>, t: nat, s: Surroundings) {
    exists trackers: seq<Event>, turns: seq<seq<Event>>, dials: seq<Event>, batches: seq<Event> ::
      ServiceParts(w, steps, t, s, trackers, turns, dials, batches)
  }

  ghost predicate ServiceParts(w: World, steps: seq<Event>, t: nat, s: Surroundings, trackers: seq<Event>,
                               turns: seq<seq<Event>>, dials: seq<Event>, batches: seq<Event>) {
    && t < |w.torrents|
    && steps == trackers + Joined(turns) + dials + batches
    && IsAnnounce(w, trackers, t, s)
    && AllPeersTurn(Run(w, trackers), turns, t, s)
    && AllDialled(Run(w, trackers + Joined(turns)), dials, t, s)
    && AllSeeded(Run(w, trackers + Joined(turns) + dials), batches, t, s)
  }

  ghost predicate AllPeersTurn(w: World, turns: seq<seq<Event>>, t: nat, s: Surroundings) {
    && t < |w.torrents| && |turns| == |w.torrents[t].peers|
    && forall p :: 0 <= p < |turns| ==> IsPeerTurn(Run(w, Joined(turns[..p])), turns[p], t, p, s)
  }

  /** The share of torrent t in a tick. */
  ghost predicate IsVisit(w: World, steps: seq<Event>, t: nat, s: Surroundings) {
    && t < |w.torrents|
    && var mt := w.torrents[t];
       if mt.state != DOWNLOADING then steps == []
       else if mt.table.Some? && mt.table.value.IsDone() then steps == [EvCheckDone(t)]
       else |steps| > 0 && steps[0] == EvCheckDone(t) && IsService(w, steps[1..], t, s)
  }

  /** The first |visits| torrents have been visited in order. */
  ghost predicate VisitsSoFar(w: World, visits: seq<seq<Event>>, s: Surroundings) {
    forall t :: 0 <= t < |visits| ==> IsVisit(Run(w, Joined(visits[..t])), visits[t], t, s)
  }

  ghost predicate IsVisiting(w: World, visits: seq<seq<Event>>, s: Surroundings) {
    |visits| == |w.torrents| && VisitsSoFar(w, visits, s)
  }

  lemma JoinedMore(turns: seq<seq<Event>>, turn: seq<Event>)
    ensures Joined(turns + [turn]) == Joined(turns) + turn
    ensures forall k :: 0 <= k <= |turns| ==> (turns + [turn])[..k] == turns[..k]
    ensures turns[..|turns|] == turns
  {
    assert (turns + [turn])[..|turns|] == turns;
  }

  lemma OneMoreVisit(w: World, visits: seq<seq<Event>>, visit: seq<Event>, s: Surroundings)
    requires VisitsSoFar(w, visits, s) && IsVisit(Run(w, Joined(visits)), visit, |visits|, s)
    ensures VisitsSoFar(w, visits + [visit], s)
  {
    hide IsVisit, Run, Joined;
    JoinedMore(visits, visit);
  }
}
