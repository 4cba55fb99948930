/** The operations of torrent_mgr.c as functions on the tables. Every choice that
    the source leaves to the network, the allocator, the disk or the clock is a
    parameter. */
module EngineSteps {
  import opened Bytes
  import opened Bitfield
  import opened Torrent
  import opened PieceMgr
  import opened Disk
  import opened EngineTypes
  import FileIo
  import Sha1Spec

  // ----- peers and candidates -------------------------------------------------

  /** `peer_is_connected`. */
  predicate Connected(peers: seq<Peer>, addr: Addr) {
    exists p :: 0 <= p < |peers| && ConnectedAt(peers, p, addr)
  }

  predicate ConnectedAt(peers: seq<Peer>, p: nat, addr: Addr)
    requires p < |peers|
  {
    peers[p].sock.Some? && peers[p].addr == addr
  }

  /** `find_candidate`: the first match, or the length when there is none. */
  function FindCandidate(cs: seq<Candidate>, addr: Addr): (i: nat)
    ensures i <= |cs| && (i < |cs| ==> cs[i].addr == addr)
    ensures forall k :: 0 <= k < i ==> cs[k].addr != addr
  {
    if cs == [] then 0
    else if cs[0].addr == addr then 0
    else 1 + FindCandidate(cs[1..], addr)
  }

  /** `record_peer_failure`. */
  function RecordFailure(cs: seq<Candidate>, addr: Addr): (cs': seq<Candidate>)
    ensures |cs'| == |cs|
    ensures forall k :: 0 <= k < |cs| ==> cs'[k].addr == cs[k].addr && cs'[k].connecting == cs[k].connecting
  {
    var i := FindCandidate(cs, addr);
    if i == |cs| then cs
    else cs[i := cs[i].(failures := if cs[i].failures < 5 then cs[i].failures + 1 else cs[i].failures)]
  }

  /** A finished piece clears the failure count of the peer that delivered it. */
  function ClearFailures(cs: seq<Candidate>, addr: Addr): (cs': seq<Candidate>)
    ensures |cs'| == |cs|
    ensures forall k :: 0 <= k < |cs| ==> cs'[k].addr == cs[k].addr && cs'[k].connecting == cs[k].connecting
  {
    var i := FindCandidate(cs, addr);
    if i == |cs| then cs else cs[i := cs[i].(failures := 0)]
  }

  predicate Evictable(mt: Managed, i: nat)
    requires i < |mt.candidates|
  {
    !mt.candidates[i].connecting && mt.candidates[i].failures > 0 && !Connected(mt.peers, mt.candidates[i].addr)
  }

  /** The evictable candidate among the first n with the most failures, the earliest on a tie. */
  function EvictionSlot(mt: Managed, n: nat): (slot: Option<nat>)
    requires n <= |mt.candidates|
    ensures slot.Some? ==> slot.value < n && Evictable(mt, slot.value)
  {
    if n == 0 then None
    else
      var best := EvictionSlot(mt, n - 1);
      if Evictable(mt, n - 1) &&
         (best.None? || mt.candidates[n - 1].failures > mt.candidates[best.value].failures) then Some(n - 1)
      else best
  }

  predicate Routable(addr: Addr) {
    addr.ip != 0 && addr.ip != 0xFFFF_FFFF && addr.port != 0
  }

  /** `add_candidate`. */
  function AddCandidate(mt: Managed, addr: Addr): Managed {
    if !Routable(addr) || FindCandidate(mt.candidates, addr) < |mt.candidates| then mt
    else if |mt.candidates| < MAX_TRACKER_PEERS then
      mt.(candidates := mt.candidates + [Candidate(addr, 0, false)])
    else
      var slot := EvictionSlot(mt, |mt.candidates|);
      if slot.None? then mt
      else mt.(candidates := mt.candidates[slot.value := Candidate(addr, 0, false)])
  }

  function AddCandidates(mt: Managed, addrs: seq<Addr>): Managed {
    if addrs == [] then mt else AddCandidate(AddCandidates(mt, addrs[..|addrs| - 1]), addrs[|addrs| - 1])
  }

  // ----- giving up a piece, closing a peer ------------------------------------

  function ReleaseInTable(table: Option<PieceTable>, i: nat): Option<PieceTable> {
    if table.Some? then Some(table.value.Release(i)) else None
  }

  function SetTorrent(w: World, t: nat, mt: Managed): World
    requires t < |w.torrents|
  {
    w.(torrents := w.torrents[t := mt])
  }

  function SetPeer(mt: Managed, p: nat, peer: Peer): Managed
    requires p < |mt.peers|
  {
    mt.(peers := mt.peers[p := peer])
  }

  predicate HasPeer(w: World, t: nat, p: nat) {
    t < |w.torrents| && p < |w.torrents[t].peers|
  }

  /** `release_piece`. */
  function ReleasePiece(w: World, t: nat, p: nat): World
    requires HasPeer(w, t, p)
  {
    var mt := w.torrents[t];
    var peer := mt.peers[p];
    var cleared := peer.(assembly := None, pending := 0);
    if peer.assembly.None? then SetTorrent(w, t, SetPeer(mt, p, cleared))
    else
      var a := peer.assembly.value;
      SetTorrent(w, t, SetPeer(mt, p, cleared).(table := ReleaseInTable(mt.table, a.index)))
      .(assemblyBytes := w.assemblyBytes - |a.buffer|)
  }

  /** The part of disconnect_peer that closes the socket. */
  function CloseSocket(w: World, t: nat, p: nat): World
    requires HasPeer(w, t, p)
  {
    var mt := w.torrents[t];
    var peer := mt.peers[p];
    if peer.sock.None? then w
    else
      var cs := if mt.state == DOWNLOADING then RecordFailure(mt.candidates, peer.addr) else mt.candidates;
      SetTorrent(w, t, SetPeer(mt, p, peer.(sock := None)).(candidates := cs, active := mt.active - 1))
      .(open := w.open - {peer.sock.value})
  }

  function DropBitfield(w: World, t: nat, p: nat): World
    requires HasPeer(w, t, p)
  {
    SetTorrent(w, t, SetPeer(w.torrents[t], p, w.torrents[t].peers[p].(have := None)))
  }

  /** `disconnect_peer`. */
  function Disconnect(w: World, t: nat, p: nat): World
    requires HasPeer(w, t, p)
  {
    DropBitfield(ReleasePiece(CloseSocket(w, t, p), t, p), t, p)
  }

  /** The loop that disconnects the first n peers. */
  function DisconnectAll(w: World, t: nat, n: nat): (w': World)
    requires t < |w.torrents| && n <= |w.torrents[t].peers|
    ensures |w'.torrents| == |w.torrents| && |w'.torrents[t].peers| == |w.torrents[t].peers|
  {
    if n == 0 then w else Disconnect(DisconnectAll(w, t, n - 1), t, n - 1)
  }

  // ----- add, start, stop, remove ---------------------------------------------

  /** `torrent_mgr_add` of a parsed torrent; `existing` is what the disk already holds. */
  function Add(w: World, meta: Metainfo, existing: Files): World {
    if |w.torrents| >= MAX_TORRENTS then w
    else
      w.(torrents := w.torrents + [Managed(w.nextGeneration, STOPPED, meta, None, 0, false, existing, [], 0, [], 0, 0)],
         nextGeneration := w.nextGeneration + 1)
  }

  /** The first half of torrent_mgr_stop: a new generation disowns the workers. */
  function Retire(w: World, t: nat): World
    requires t < |w.torrents|
  {
    SetTorrent(w, t, w.torrents[t].(state := STOPPED, generation := w.nextGeneration))
    .(nextGeneration := w.nextGeneration + 1)
  }

  function Forget(w: World, t: nat): World
    requires t < |w.torrents|
  {
    SetTorrent(w, t, w.torrents[t].(peers := [], active := 0, candidates := [], nextCandidate := 0))
  }

  /** `torrent_mgr_stop`. */
  function Stop(w: World, t: nat): (w': World)
    ensures |w'.torrents| == |w.torrents|
  {
    if t >= |w.torrents| then w
    else
      var r := Retire(w, t);
      Forget(DisconnectAll(r, t, |r.torrents[t].peers|), t)
  }

  function DestroyTable(w: World, t: nat): World
    requires t < |w.torrents|
  {
    SetTorrent(w, t, w.torrents[t].(table := None, hasWriter := false))
  }

  /** The reset at the beginning of torrent_mgr_start. */
  function ResetForStart(w: World, t: nat): (w': World)
    requires t < |w.torrents|
    ensures |w'.torrents| == |w.torrents|
  {
    if w.torrents[t].table.Some? || w.torrents[t].hasWriter then DestroyTable(Stop(w, t), t) else w
  }

  /** The torrent that torrent_mgr_start leaves behind; `id` numbers the piece table it
      makes, if it makes one. */
  function Launched(mt: Managed, outcome: StartOutcome, id: nat): Managed {
    var mt := mt.(downloaded := 0);
    if !MakesTable(mt.meta, outcome) then
      if outcome.NoMemory? && !WithoutPieces(mt.meta) then mt.(state := ERROR, table := None) else mt.(state := ERROR)
    else if outcome.WriterFails? then
      mt.(state := ERROR, table := Some(InitialTable(mt.meta)), tableId := id)
    else
      mt.(state := DOWNLOADING, table := Some(InitialTable(mt.meta)), tableId := id, hasWriter := true,
          files := FileIo.InitialFiles(mt.meta, mt.files))
  }

  /** A magnet link: nothing is known of its pieces. */
  predicate WithoutPieces(meta: Metainfo) {
    meta.NumPieces() == 0
  }

  predicate MakesTable(meta: Metainfo, outcome: StartOutcome) {
    !WithoutPieces(meta) && (outcome.WriterFails? || outcome.Started?)
  }

  /** The rest of torrent_mgr_start. */
  function Launch(w: World, t: nat, outcome: StartOutcome): World
    requires t < |w.torrents|
  {
    SetTorrent(w, t, Launched(w.torrents[t], outcome, w.nextTable))
    .(nextTable := if MakesTable(w.torrents[t].meta, outcome) then w.nextTable + 1 else w.nextTable)
  }

  /** `torrent_mgr_start`. */
  function Start(w: World, t: nat, outcome: StartOutcome): World {
    if t >= |w.torrents| || w.torrents[t].state in {DOWNLOADING, DONE} then w
    else Launch(ResetForStart(w, t), t, outcome)
  }

  /** `torrent_mgr_remove`. */
  function Remove(w: World, t: nat): World {
    if t >= |w.torrents| then w
    else
      var s := DestroyTable(Stop(w, t), t);
      s.(torrents := s.torrents[..t] + s.torrents[t + 1..])
  }

  // ----- live runs ------------------------------------------------------------

  predicate IsLive(w: World, t: nat, generation: nat) {
    t < |w.torrents| && w.torrents[t].generation == generation && w.torrents[t].state == DOWNLOADING
  }

  /** The search for the run a job belongs to, over the first n torrents. */
  function FindLive(w: World, generation: nat, n: nat): (r: Option<nat>)
    requires n <= |w.torrents|
    ensures r.Some? ==> r.value < n && IsLive(w, r.value, generation)
    ensures r.None? ==> forall t :: 0 <= t < n ==> !IsLive(w, t, generation)
  {
    if n == 0 then None
    else if IsLive(w, n - 1, generation) then Some(n - 1)
    else FindLive(w, generation, n - 1)
  }

  /** The first empty slot of a job table. */
  function FreeSlot<J>(slots: seq<Option<J>>): (r: Option<nat>)
    ensures r.Some? ==> r.value < |slots| && slots[r.value].None?
    ensures r.Some? ==> forall k :: 0 <= k < r.value ==> slots[k].Some?
    ensures r.None? ==> forall k :: 0 <= k < |slots| ==> slots[k].Some?
  {
    if slots == [] then None
    else if slots[0].None? then Some(0)
    else
      var r := FreeSlot(slots[1..]);
      if r.None? then None else Some(r.value + 1)
  }

  // ----- web seeds ------------------------------------------------------------

  function WebActive(web: seq<Option<WebJob>>, generation: nat): nat {
    if web == [] then 0
    else WebActive(web[..|web| - 1], generation) +
         if web[|web| - 1].Some? && web[|web| - 1].value.generation == generation then 1 else 0
  }

  predicate BatchSlot(mt: Managed, table: PieceTable, i: nat) {
    i < mt.meta.NumPieces() && i < |table.states| && table.states[i] == FREE
  }

  /** How many pieces from `first` on the batch takes after it already holds k with `total` bytes. */
  function BatchCount(mt: Managed, table: PieceTable, first: nat, k: nat, total: int): (n: nat)
    requires k <= WEB_SEED_BATCH_PIECES
    ensures k <= n <= WEB_SEED_BATCH_PIECES
    ensures forall i :: first + k <= i < first + n ==> BatchSlot(mt, table, i)
    decreases WEB_SEED_BATCH_PIECES - k
  {
    if k == WEB_SEED_BATCH_PIECES || first + k >= mt.meta.NumPieces() || first + k >= |table.states| then k
    else if table.states[first + k] != FREE then k
    else
      var size := mt.meta.PieceSize(first + k);
      if size == 0 || total + size > ASSEMBLY_LIMIT then k
      else BatchCount(mt, table, first, k + 1, total + size)
  }

  function BatchSizes(meta: Metainfo, first: nat, n: nat): (s: seq<int>)
    ensures |s| == n && forall k :: 0 <= k < n ==> s[k] == meta.PieceSize(first + k)
  {
    seq(n, k requires 0 <= k < n => meta.PieceSize(first + k))
  }

  function RequestRange(table: PieceTable, first: nat, n: nat): (r: PieceTable)
    ensures |r.states| == |table.states| && r.(states := table.states) == table
    ensures forall i :: 0 <= i < |r.states| ==>
              r.states[i] == if first <= i < first + n then REQUESTED else table.states[i]
  {
    table.(states := seq(|table.states|, i requires 0 <= i < |table.states| =>
                           if first <= i < first + n then REQUESTED else table.states[i]))
  }

  function ReleaseRange(table: PieceTable, first: nat, n: nat): (r: PieceTable)
    ensures |r.states| == |table.states| && r.(states := table.states) == table
    ensures forall i :: 0 <= i < |r.states| ==>
              r.states[i] == if first <= i < first + n && table.states[i] != COMPLETE then FREE else table.states[i]
  {
    table.(states := seq(|table.states|, i requires 0 <= i < |table.states| =>
                           if first <= i < first + n && table.states[i] != COMPLETE then FREE else table.states[i]))
  }

  /** May the scheduling half of tick run for torrent t? It still runs in the tick
      in which process_peer has set ERROR. */
  predicate Schedulable(w: World, t: nat) {
    t < |w.torrents| && w.torrents[t].state in {DOWNLOADING, ERROR} && w.torrents[t].table.Some?
  }

  /** `schedule_web_seed_one`; a failed allocation or thread leaves everything as it was. */
  function ScheduleWeb(w: World, t: nat, resources: bool, buffer: seq<byte>): World {
    if !Schedulable(w, t) || w.torrents[t].meta.webSeedCount == 0 then w
    else
      var mt := w.torrents[t];
      var table := mt.table.value;
      var slot := FreeSlot(w.web);
      var next := table.GetNext(None);
      if WebActive(w.web, mt.generation) >= WEB_SEED_PARALLEL_PER_TORRENT || slot.None? || next < 0 then w
      else
        var n := BatchCount(mt, table, next, 0, 0);
        var sizes := BatchSizes(mt.meta, next, n);
        if n == 0 || !resources || |buffer| != Sum(sizes) then w
        else
          SetTorrent(w, t, mt.(table := Some(RequestRange(table, next, n))))
          .(web := w.web[slot.value := Some(WebJob(mt.generation, mt.tableId, mt.meta, next, sizes, buffer, false, false))])
  }

  /** The outcome of a write: the supplied one if the writer can produce it,
      otherwise a failure that stored nothing. */
  ghost function Outcome(mt: Managed, i: nat, data: seq<byte>, o: WriteOutcome): WriteOutcome {
    if WriteEffect(mt.meta.OutputLengths(), mt.files, mt.meta.PieceStart(i), data, o.files, o.ok) then o
    else WriteOutcome(mt.files, false)
  }

  ghost predicate HashMatches(meta: Metainfo, i: nat, data: seq<byte>) {
    i < meta.NumPieces() && Sha1Spec.Digest(data) == meta.ExpectedHash(i)
  }

  /** A verified and written piece. */
  function StorePiece(mt: Managed, i: nat, size: int, files: Files): Managed
    requires mt.table.Some? && i < |mt.table.value.states|
    requires |mt.table.value.bitfield| == (|mt.table.value.states| + 7) / 8
  {
    mt.(files := files, table := Some(mt.table.value.Finish(i)), downloaded := mt.downloaded + size)
  }

  function FreePiece(mt: Managed, i: nat, files: Files): Managed
    requires mt.table.Some?
  {
    mt.(files := files, table := Some(mt.table.value.SetState(i, FREE)))
  }

  ghost predicate TableShape(mt: Managed) {
    && mt.table.Some?
    && |mt.table.value.states| == mt.meta.NumPieces()
    && |mt.table.value.bitfield| == (|mt.table.value.states| + 7) / 8
  }

  /** One turn of the loop of collect_web_seed over a fetched batch; the flag is
      false when the piece fails validation or its write fails. */
  ghost function SaveOne(mt: Managed, i: nat, data: seq<byte>, o: WriteOutcome): (r: (Managed, bool))
    requires TableShape(mt)
    ensures TableShape(r.0) && r.0.meta == mt.meta
  {
    if i >= |mt.table.value.states| || mt.table.value.states[i] == COMPLETE then (mt, true)
    else if !HashMatches(mt.meta, i, data) then (FreePiece(mt, i, mt.files), false)
    else
      var outcome := Outcome(mt, i, data, o);
      if outcome.ok then (StorePiece(mt, i, |data|, outcome.files), true)
      else (FreePiece(mt, i, outcome.files), false)
  }

  /** The bytes of the k-th piece of a fetched batch. */
  function BatchPiece(job: WebJob, k: nat): seq<byte>
    requires k < |job.sizes| && NonNegative(job.sizes) && |job.data| == Sum(job.sizes)
  {
    PrefixSum(job.sizes, k);
    job.data[Sum(job.sizes[..k])..Sum(job.sizes[..k]) + job.sizes[k]]
  }

  lemma PrefixSum(sizes: seq<int>, k: nat)
    requires k < |sizes| && NonNegative(sizes)
    ensures 0 <= Sum(sizes[..k]) <= Sum(sizes[..k]) + sizes[k] <= Sum(sizes)
  {
    FileStartStep(sizes, k);
    FileStartMonotone(sizes, k, k + 1);
  }

  /** The first k turns of the loop. */
  ghost function SaveBatch(mt: Managed, job: WebJob, writes: seq<WriteOutcome>, k: nat): (r: (Managed, bool))
    requires TableShape(mt) && k <= |job.sizes|
    requires NonNegative(job.sizes) && |job.data| == Sum(job.sizes)
    ensures TableShape(r.0) && r.0.meta == mt.meta
  {
    if k == 0 then (mt, true)
    else
      var (m, ok) := SaveBatch(mt, job, writes, k - 1);
      if !ok then (m, false)
      else SaveOne(m, job.first + k - 1, BatchPiece(job, k - 1),
                   if k - 1 < |writes| then writes[k - 1] else WriteOutcome(m.files, false))
  }

  /** The effect of a finished job on the run it belongs to. */
  ghost function CollectInto(mt: Managed, job: WebJob, writes: seq<WriteOutcome>): Managed
    requires TableShape(mt) && NonNegative(job.sizes) && |job.data| == Sum(job.sizes)
  {
    if job.first >= mt.meta.NumPieces() then mt
    else
      var (m, ok) := if job.ok then SaveBatch(mt, job, writes, |job.sizes|) else (mt, false);
      if ok then m else m.(table := Some(ReleaseRange(m.table.value, job.first, |job.sizes|)))
  }

  ghost predicate WebJobShape(job: WebJob) {
    NonNegative(job.sizes) && |job.data| == Sum(job.sizes)
  }

  /** One slot of collect_web_seed. */
  ghost function CollectWeb(w: World, j: nat, writes: seq<WriteOutcome>): World {
    if j >= |w.web| || w.web[j].None? || !w.web[j].value.done then w
    else
      var job := w.web[j].value;
      var live := FindLive(w, job.generation, |w.torrents|);
      var w' := if live.Some? && TableShape(w.torrents[live.value]) && WebJobShape(job)
                then SetTorrent(w, live.value, CollectInto(w.torrents[live.value], job, writes))
                else w;
      w'.(web := w'.web[j := None])
  }

  // ----- connections ----------------------------------------------------------

  function ConnPending(conn: seq<Option<ConnJob>>, generation: nat): nat {
    if conn == [] then 0
    else ConnPending(conn[..|conn| - 1], generation) +
         if conn[|conn| - 1].Some? && conn[|conn| - 1].value.generation == generation then 1 else 0
  }

  /** One turn of the loop of schedule_peer_connections. `ready` says that the
      candidate's cool-down has passed. */
  function ScheduleConn(w: World, t: nat, ready: bool, resources: bool): World {
    if !Schedulable(w, t) || w.torrents[t].candidates == [] then w
    else
      var mt := w.torrents[t];
      var pending := ConnPending(w.conn, mt.generation);
      if pending >= PEER_CONNECT_PARALLEL || mt.active + pending >= MAX_PEERS_PER_TORRENT then w
      else
        var c := mt.nextCandidate % |mt.candidates|;
        var mt1 := mt.(nextCandidate := (mt.nextCandidate + 1) % |mt.candidates|);
        var candidate := mt.candidates[c];
        var slot := FreeSlot(w.conn);
        if candidate.connecting || !ready || Connected(mt.peers, candidate.addr) || slot.None? || !resources
        then SetTorrent(w, t, mt1)
        else
          SetTorrent(w, t, mt1.(candidates := mt.candidates[c := candidate.(connecting := true)]))
          .(conn := w.conn[slot.value := Some(ConnJob(mt.generation, candidate.addr, None, false))])
  }

  function ClearConnecting(cs: seq<Candidate>, addr: Addr): (cs': seq<Candidate>)
    ensures |cs'| == |cs|
    ensures forall k :: 0 <= k < |cs| ==> cs'[k].addr == cs[k].addr
  {
    var i := FindCandidate(cs, addr);
    if i == |cs| then cs else cs[i := cs[i].(connecting := false)]
  }

  /** The first closed peer slot, or the number of peers. */
  function ClosedSlot(peers: seq<Peer>): (i: nat)
    ensures i <= |peers| && (i < |peers| ==> peers[i].sock.None?)
    ensures forall k :: 0 <= k < i ==> peers[k].sock.Some?
  {
    if peers == [] then 0
    else if peers[0].sock.None? then 0
    else 1 + ClosedSlot(peers[1..])
  }

  /** A handshake that succeeded becomes a peer; the flag tells whether the socket was taken over. */
  function Adopt(mt: Managed, sock: nat, addr: Addr): (Managed, bool) {
    if Connected(mt.peers, addr) then (mt, false)
    else
      var slot := ClosedSlot(mt.peers);
      if slot < |mt.peers| then
        (mt.(peers := mt.peers[slot := EmptyPeer(sock, addr)], active := mt.active + 1), true)
      else if |mt.peers| < MAX_PEERS_PER_TORRENT then
        (mt.(peers := mt.peers + [EmptyPeer(sock, addr)], active := mt.active + 1), true)
      else (mt, false)
  }

  function CollectConnInto(mt: Managed, job: ConnJob): (Managed, bool) {
    var m := mt.(candidates := ClearConnecting(mt.candidates, job.addr));
    if job.sock.None? then (m.(candidates := RecordFailure(m.candidates, job.addr)), false)
    else Adopt(m, job.sock.value, job.addr)
  }

  function CloseJobSocket(open: set<nat>, sock: Option<nat>): set<nat> {
    if sock.Some? then open - {sock.value} else open
  }

  /** One slot of collect_peer_connections. */
  function CollectConn(w: World, j: nat): World {
    if j >= |w.conn| || w.conn[j].None? || !w.conn[j].value.done then w
    else
      var job := w.conn[j].value;
      var live := FindLive(w, job.generation, |w.torrents|);
      var r := if live.Some? then CollectConnInto(w.torrents[live.value], job) else (EmptyManaged(), false);
      var w' := if live.Some? then SetTorrent(w, live.value, r.0) else w;
      w'.(conn := w'.conn[j := None], open := if r.1 then w.open else CloseJobSocket(w.open, job.sock))
  }

  function EmptyManaged(): Managed {
    Managed(0, STOPPED, Metainfo([], 0, [], 0, false, [], 0, false), None, 0, false, [], [], 0, [], 0, 0)
  }

  // ----- discovery ------------------------------------------------------------

  /** `publish_candidates`: new addresses go to the end while there is room. */
  function Publish(queue: seq<Addr>, addrs: seq<Addr>): (q: seq<Addr>)
    ensures |queue| <= |q| && q[..|queue|] == queue
    decreases addrs
  {
    if addrs == [] || |queue| >= MAX_TRACKER_PEERS then queue
    else Publish(if addrs[0] in queue then queue else queue + [addrs[0]], addrs[1..])
  }

  predicate HasDiscovery(disc: seq<Option<DiscJob>>, generation: nat) {
    exists j :: 0 <= j < |disc| && DiscoveryAt(disc, j, generation)
  }

  predicate DiscoveryAt(disc: seq<Option<DiscJob>>, j: nat, generation: nat)
    requires j < |disc|
  {
    disc[j].Some? && disc[j].value.generation == generation
  }

  /** `schedule_discovery`; the source takes the last empty slot, the caller passes it. */
  function ScheduleDiscovery(w: World, t: nat, slot: nat, resources: bool): World {
    if t >= |w.torrents| || w.torrents[t].state != DOWNLOADING || !w.torrents[t].meta.hasTrackers then w
    else if HasDiscovery(w.disc, w.torrents[t].generation) then w
    else if slot >= |w.disc| || w.disc[slot].Some? || !resources then w
    else w.(disc := w.disc[slot := Some(DiscJob(w.torrents[t].generation, [], false, Idle, [], []))])
  }

  predicate HasJob<J>(slots: seq<Option<J>>, j: nat) {
    j < |slots| && slots[j].Some?
  }

  /** collect_discovery reads `done` before it looks at the queue. */
  function ReadDone(w: World, j: nat): World {
    if !HasJob(w.disc, j) || w.disc[j].value.phase != Idle then w
    else w.(disc := w.disc[j := Some(w.disc[j].value.(phase := DoneRead(w.disc[j].value.done)))])
  }

  /** It takes the whole queue under the lock and offers it to the live run. */
  function Drain(w: World, j: nat): World {
    if !HasJob(w.disc, j) || !w.disc[j].value.phase.DoneRead? then w
    else
      var job := w.disc[j].value;
      var live := FindLive(w, job.generation, |w.torrents|);
      var w' := if live.Some? then SetTorrent(w, live.value, AddCandidates(w.torrents[live.value], job.queue)) else w;
      w'.(disc := w'.disc[j := Some(job.(queue := [], drained := job.drained + job.queue,
                                         phase := Drained(job.phase.done)))])
  }

  /** It frees the job only if `done` had been seen. */
  function FreeIfDone(w: World, j: nat): World {
    if !HasJob(w.disc, j) || !w.disc[j].value.phase.Drained? then w
    else if w.disc[j].value.phase.done then w.(disc := w.disc[j := None])
    else w.(disc := w.disc[j := Some(w.disc[j].value.(phase := Idle))])
  }

  // ----- one peer -------------------------------------------------------------

  predicate PeerActive(w: World, t: nat, p: nat) {
    HasPeer(w, t, p) && w.torrents[t].state == DOWNLOADING && w.torrents[t].peers[p].sock.Some?
  }

  /** The two time-out branches of process_peer. */
  function TimeOut(w: World, t: nat, p: nat): World {
    if PeerActive(w, t, p) then Disconnect(w, t, p) else w
  }

  function BitfieldBytes(meta: Metainfo): nat {
    (meta.NumPieces() + 7) / 8
  }

  /** A BITFIELD or HAVE message. */
  function Learn(w: World, t: nat, p: nat, msg: Message, hasMemory: bool): World
    requires PeerActive(w, t, p) && (msg.BitfieldMsg? || msg.Have?)
  {
    var mt := w.torrents[t];
    var peer := mt.peers[p];
    if (msg.BitfieldMsg? && |msg.bits| != BitfieldBytes(mt.meta)) || (msg.Have? && msg.index >= mt.meta.NumPieces())
    then Disconnect(w, t, p)
    else if peer.have.None? && !hasMemory then Disconnect(w, t, p)
    else
      var bits := if peer.have.None? then Zeros(BitfieldBytes(mt.meta)) else peer.have.value;
      var bits' := if msg.BitfieldMsg? then msg.bits
                   else if msg.index / 8 < |bits| then SetBit(bits, msg.index) else bits;
      SetTorrent(w, t, SetPeer(mt, p, peer.(have := Some(bits'))))
  }

  /** Is the block the one that is outstanding? */
  predicate Expected(peer: Peer, msg: Message)
    requires msg.Piece?
  {
    && peer.assembly.Some? && peer.pending > 0
    && msg.index == peer.assembly.value.index && msg.begin == peer.assembly.value.received
  }

  /** The accepted block goes behind the bytes that are already there. */
  function Append(a: Assembly, block: seq<byte>): Assembly
    requires a.received + |block| <= |a.buffer|
  {
    Assembly(a.index, a.buffer[..a.received] + block + a.buffer[a.received + |block|..],
             a.received + |block|, a.blocks + [block])
  }

  /** A PIECE message. */
  ghost function Receive(w: World, t: nat, p: nat, msg: Message, o: WriteOutcome): World
    requires PeerActive(w, t, p) && msg.Piece?
  {
    var mt := w.torrents[t];
    var peer := mt.peers[p];
    if !Expected(peer, msg) then w
    else
      var a := peer.assembly.value;
      if |msg.block| != peer.pending || a.received + |msg.block| > |a.buffer| then Disconnect(w, t, p)
      else
        var a' := Append(a, msg.block);
        var w' := SetTorrent(w, t, SetPeer(mt, p, peer.(assembly := Some(a'), pending := 0)));
        if a'.received < |a'.buffer| then w' else FinishPiece(w', t, p, o)
  }

  /** All blocks are there: verify, write, mark complete. */
  ghost function FinishPiece(w: World, t: nat, p: nat, o: WriteOutcome): World
    requires PeerActive(w, t, p) && w.torrents[t].peers[p].assembly.Some?
  {
    var mt := w.torrents[t];
    var a := mt.peers[p].assembly.value;
    if !HashMatches(mt.meta, a.index, a.buffer) || !TableShape(mt) then Disconnect(w, t, p)
    else
      var outcome := Outcome(mt, a.index, a.buffer, o);
      if !outcome.ok then
        Disconnect(SetTorrent(w, t, mt.(files := outcome.files, state := ERROR)), t, p)
      else
        var m := StorePiece(mt, a.index, |a.buffer|, outcome.files);
        ReleasePiece(SetTorrent(w, t, m.(candidates := ClearFailures(m.candidates, mt.peers[p].addr))), t, p)
  }

  /** One turn of the receive loop of process_peer. */
  ghost function Recv(w: World, t: nat, p: nat, msg: Message, hasMemory: bool, o: WriteOutcome): World {
    if !PeerActive(w, t, p) then w
    else
      var mt := w.torrents[t];
      var peer := mt.peers[p];
      match msg
      case Invalid => Disconnect(w, t, p)
      case Choke => SetTorrent(w, t, SetPeer(mt, p, peer.(choked := true, pending := 0)))
      case Unchoke => SetTorrent(w, t, SetPeer(mt, p, peer.(choked := false)))
      case BitfieldMsg(_) => Learn(w, t, p, msg, hasMemory)
      case Have(_) => Learn(w, t, p, msg, hasMemory)
      case Piece(_, _, _) => Receive(w, t, p, msg, o)
      case Other => w
  }

  function Remaining(a: Assembly): int {
    |a.buffer| - a.received
  }

  function BlockLength(a: Assembly): int {
    Min(PEER_BLOCK_SIZE, Remaining(a))
  }

  /** Sending the next block request of an assembly. */
  function SendRequest(w: World, t: nat, p: nat, sent: bool): World
    requires PeerActive(w, t, p) && w.torrents[t].peers[p].assembly.Some?
  {
    if !sent then Disconnect(w, t, p)
    else
      var mt := w.torrents[t];
      var length := BlockLength(mt.peers[p].assembly.value);
      SetTorrent(w, t, SetPeer(mt, p, mt.peers[p].(pending := if length < 0 then 0 else length)))
  }

  /** A peer takes over piece i; `memory` is what malloc returned, with its old content. */
  function Reserve(w: World, t: nat, p: nat, i: nat, memory: seq<byte>): World
    requires PeerActive(w, t, p) && w.torrents[t].table.Some?
  {
    var mt := w.torrents[t];
    SetTorrent(w, t, SetPeer(mt, p, mt.peers[p].(assembly := Some(Assembly(i, memory, 0, []))))
                     .(table := Some(mt.table.value.Request(i))))
    .(assemblyBytes := w.assemblyBytes + |memory|)
  }

  /** The sending half of process_peer. `memory` is None when malloc fails. */
  function Request(w: World, t: nat, p: nat, memory: Option<seq<byte>>, sent: bool): World {
    if !PeerActive(w, t, p) || w.torrents[t].table.None? then w
    else
      var mt := w.torrents[t];
      var peer := mt.peers[p];
      if peer.choked || peer.pending > 0 || peer.have.None? then w
      else if peer.assembly.Some? then SendRequest(w, t, p, sent)
      else
        var next := mt.table.value.GetNext(peer.have);
        if next < 0 then w
        else
          var size := PeerPieceSize(mt.meta, next);
          if size > ASSEMBLY_LIMIT then SetTorrent(w, t, mt.(state := ERROR))
          else if size > ASSEMBLY_LIMIT - w.assemblyBytes then w
          else if memory.None? || |memory.value| != size then Disconnect(w, t, p)
          else SendRequest(Reserve(w, t, p, next, memory.value), t, p, sent)
  }

  /** The completion check of torrent_mgr_tick. */
  function CheckDone(w: World, t: nat): World {
    if t >= |w.torrents| || w.torrents[t].state != DOWNLOADING || w.torrents[t].table.None? then w
    else if !w.torrents[t].table.value.IsDone() then w
    else
      var w' := DisconnectAll(w, t, |w.torrents[t].peers|);
      SetTorrent(w', t, w'.torrents[t].(state := DONE))
  }

  // ----- worker threads -------------------------------------------------------

  /** A web-seed worker stores its bytes and its verdict, then sets `done`. */
  function WebWorker(w: World, j: nat, ok: bool, data: seq<byte>): World {
    if !HasJob(w.web, j) || w.web[j].value.done || |data| != |w.web[j].value.data| then w
    else w.(web := w.web[j := Some(w.web[j].value.(ok := ok, data := data, done := true))])
  }

  /** A connection worker gets a socket. */
  function ConnOpens(w: World, j: nat, sock: nat): World {
    if !HasJob(w.conn, j) || w.conn[j].value.done || w.conn[j].value.sock.Some? || sock in w.open then w
    else w.(conn := w.conn[j := Some(w.conn[j].value.(sock := Some(sock)))], open := w.open + {sock})
  }

  /** Its handshake succeeds. */
  function ConnSucceeds(w: World, j: nat): World {
    if !HasJob(w.conn, j) || w.conn[j].value.done || w.conn[j].value.sock.None? then w
    else w.(conn := w.conn[j := Some(w.conn[j].value.(done := true))])
  }

  /** Its connection or handshake fails; the worker closes its own socket. */
  function ConnFails(w: World, j: nat): World {
    if !HasJob(w.conn, j) || w.conn[j].value.done then w
    else w.(conn := w.conn[j := Some(w.conn[j].value.(sock := None, done := true))],
            open := CloseJobSocket(w.open, w.conn[j].value.sock))
  }

  /** A discovery worker publishes the addresses of one tracker. */
  function DiscPublishes(w: World, j: nat, addrs: seq<Addr>): World {
    if !HasJob(w.disc, j) || w.disc[j].value.done then w
    else
      var job := w.disc[j].value;
      var queue := Publish(job.queue, addrs);
      w.(disc := w.disc[j := Some(job.(queue := queue, accepted := job.accepted + queue[|job.queue|..]))])
  }

  function DiscFinishes(w: World, j: nat): World {
    if !HasJob(w.disc, j) then w
    else w.(disc := w.disc[j := Some(w.disc[j].value.(done := true))])
  }

  // ----- the state machine ----------------------------------------------------

  datatype Event =
    | EvAdd(meta: Metainfo, existing: Files)
    | EvStart(t: nat, outcome: StartOutcome)
    | EvStop(t: nat)
    | EvRemove(t: nat)
    | EvCollectWeb(j: nat, writes: seq<WriteOutcome>)
    | EvReadDone(j: nat)
    | EvDrain(j: nat)
    | EvFreeIfDone(j: nat)
    | EvCollectConn(j: nat)
    | EvCheckDone(t: nat)
    | EvScheduleDiscovery(t: nat, slot: nat, resources: bool)
    | EvTimeOut(t: nat, p: nat)
    | EvRecv(t: nat, p: nat, msg: Message, hasMemory: bool, write: WriteOutcome)
    | EvRequest(t: nat, p: nat, memory: Option<seq<byte>>, sent: bool)
    | EvScheduleConn(t: nat, ready: bool, resources: bool)
    | EvScheduleWeb(t: nat, resources: bool, buffer: seq<byte>)
    | EvWebWorker(j: nat, ok: bool, data: seq<byte>)
    | EvConnOpens(j: nat, sock: nat)
    | EvConnSucceeds(j: nat)
    | EvConnFails(j: nat)
    | EvDiscPublishes(j: nat, addrs: seq<Addr>)
    | EvDiscFinishes(j: nat)

  /** What torrent_parse guarantees of every torrent that it returns, and what the C types
      hold: piece indices fit an `int`. */
  ghost predicate Admissible(meta: Metainfo, existing: Files) {
    meta.Accepted() && meta.NumPieces() <= 0x7FFF_FFFF && |existing| == |meta.OutputLengths()|
  }

  /** What reaches torrent_mgr_add: a parsed torrent or a magnet link. */
  ghost predicate Addable(meta: Metainfo, existing: Files) {
    Admissible(meta, existing) || (WithoutPieces(meta) && |existing| == |meta.OutputLengths()|)
  }

  /** One atomic step of the main thread or of a worker. */
  ghost function Apply(w: World, e: Event): World {
    match e
    case EvAdd(meta, existing) => if Addable(meta, existing) then Add(w, meta, existing) else w
    case EvStart(t, outcome) => Start(w, t, outcome)
    case EvStop(t) => Stop(w, t)
    case EvRemove(t) => Remove(w, t)
    case EvCollectWeb(j, writes) => CollectWeb(w, j, writes)
    case EvReadDone(j) => ReadDone(w, j)
    case EvDrain(j) => Drain(w, j)
    case EvFreeIfDone(j) => FreeIfDone(w, j)
    case EvCollectConn(j) => CollectConn(w, j)
    case EvCheckDone(t) => CheckDone(w, t)
    case EvScheduleDiscovery(t, slot, resources) => ScheduleDiscovery(w, t, slot, resources)
    case EvTimeOut(t, p) => TimeOut(w, t, p)
    case EvRecv(t, p, msg, hasMemory, write) => Recv(w, t, p, msg, hasMemory, write)
    case EvRequest(t, p, memory, sent) => Request(w, t, p, memory, sent)
    case EvScheduleConn(t, ready, resources) => ScheduleConn(w, t, ready, resources)
    case EvScheduleWeb(t, resources, buffer) => ScheduleWeb(w, t, resources, buffer)
    case EvWebWorker(j, ok, data) => WebWorker(w, j, ok, data)
    case EvConnOpens(j, sock) => ConnOpens(w, j, sock)
    case EvConnSucceeds(j) => ConnSucceeds(w, j)
    case EvConnFails(j) => ConnFails(w, j)
    case EvDiscPublishes(j, addrs) => DiscPublishes(w, j, addrs)
    case EvDiscFinishes(j) => DiscFinishes(w, j)
  }

  /** A run: any interleaving of steps. */
  ghost function Run(w: World, events: seq<Event>): World {
    if events == [] then w else Apply(Run(w, events[..|events| - 1]), events[|events| - 1])
  }

  // Single cases of Apply, for proofs that need one of them and none of the rest.

  lemma StartStep(w: World, t: nat, outcome: StartOutcome)
    ensures Apply(w, EvStart(t, outcome)) == Start(w, t, outcome)
  {
    hide Start;
  }

  lemma TimeOutStep(w: World, t: nat, p: nat)
    ensures Apply(w, EvTimeOut(t, p)) == TimeOut(w, t, p)
  {
    hide TimeOut;
  }

  lemma RecvStep(w: World, t: nat, p: nat, msg: Message, hasMemory: bool, o: WriteOutcome)
    ensures Apply(w, EvRecv(t, p, msg, hasMemory, o)) == Recv(w, t, p, msg, hasMemory, o)
  {
    hide Recv;
  }

  lemma RequestStep(w: World, t: nat, p: nat, memory: Option<seq<byte>>, sent: bool)
    ensures Apply(w, EvRequest(t, p, memory, sent)) == Request(w, t, p, memory, sent)
  {
    hide Request;
  }

  lemma ScheduleConnStep(w: World, t: nat, ready: bool, resources: bool)
    ensures Apply(w, EvScheduleConn(t, ready, resources)) == ScheduleConn(w, t, ready, resources)
  {
    hide ScheduleConn;
  }

  lemma CollectWebStep(w: World, j: nat, writes: seq<WriteOutcome>)
    ensures Apply(w, EvCollectWeb(j, writes)) == CollectWeb(w, j, writes)
  {
    hide CollectWeb;
  }

  lemma CollectConnStep(w: World, j: nat)
    ensures Apply(w, EvCollectConn(j)) == CollectConn(w, j)
  {
    hide CollectConn;
  }

  lemma ConnWorkerSteps(w: World, j: nat, sock: nat)
    ensures Apply(w, EvConnOpens(j, sock)) == ConnOpens(w, j, sock)
    ensures Apply(w, EvConnSucceeds(j)) == ConnSucceeds(w, j)
    ensures Apply(w, EvConnFails(j)) == ConnFails(w, j)
  {
    hide ConnOpens, ConnSucceeds, ConnFails;
  }

  lemma {:induction false} RunAppend(w: World, a: seq<Event>, b: seq<Event>)
    ensures Run(w, a + b) == Run(Run(w, a), b)
  {
    hide Apply;
    if b == [] {
      assert a + b == a;
    } else {
      RunAppend(w, a, b[..|b| - 1]);
      assert (a + b)[..|a + b| - 1] == a + b[..|b| - 1];
    }
  }

  lemma RunNone(w: World)
    ensures Run(w, []) == w
  {
  }

  lemma RunMore(w: World, events: seq<Event>, e: Event)
    ensures Run(w, events + [e]) == Apply(Run(w, events), e)
    ensures forall k :: 0 <= k <= |events| ==> (events + [e])[..k] == events[..k]
  {
    hide Apply;
    assert (events + [e])[..|events|] == events;
  }

  lemma RunOne(w: World, e: Event)
    ensures Run(w, [e]) == Apply(w, e)
  {
    hide Apply;
    assert [e][..0] == [];
    assert Run(w, []) == w;
  }
}
