/** What every reachable state of the download engine satisfies. */
module EngineInvariants {
  import opened Bytes
  import opened Torrent
  import opened PieceMgr
  import opened Disk
  import opened EngineTypes
  import opened EngineSteps
  import Sha1Spec

  // ----- sums over the tables -------------------------------------------------

  function SockSet(sock: Option<nat>): multiset<nat> {
    if sock.Some? then multiset{sock.value} else multiset{}
  }

  function PeerSocks(peers: seq<Peer>): multiset<nat> {
    if peers == [] then multiset{} else PeerSocks(peers[..|peers| - 1]) + SockSet(peers[|peers| - 1].sock)
  }

  function TorrentSocks(ts: seq<Managed>): multiset<nat> {
    if ts == [] then multiset{} else TorrentSocks(ts[..|ts| - 1]) + PeerSocks(ts[|ts| - 1].peers)
  }

  function JobSock(job: Option<ConnJob>): multiset<nat> {
    if job.Some? then SockSet(job.value.sock) else multiset{}
  }

  function ConnSocks(conn: seq<Option<ConnJob>>): multiset<nat> {
    if conn == [] then multiset{} else ConnSocks(conn[..|conn| - 1]) + JobSock(conn[|conn| - 1])
  }

  function BufferSize(peer: Peer): nat {
    if peer.assembly.Some? then |peer.assembly.value.buffer| else 0
  }

  function PeerBytes(peers: seq<Peer>): nat {
    if peers == [] then 0 else PeerBytes(peers[..|peers| - 1]) + BufferSize(peers[|peers| - 1])
  }

  function TorrentBytes(ts: seq<Managed>): nat {
    if ts == [] then 0 else TorrentBytes(ts[..|ts| - 1]) + PeerBytes(ts[|ts| - 1].peers)
  }

  function IsOpen(peer: Peer): nat {
    if peer.sock.Some? then 1 else 0
  }

  function CountConnected(peers: seq<Peer>): nat {
    if peers == [] then 0 else CountConnected(peers[..|peers| - 1]) + IsOpen(peers[|peers| - 1])
  }

  /** Total size of the finished pieces among the first n. */
  function SumComplete(meta: Metainfo, states: seq<PieceState>, n: nat): int
    requires n <= |states|
  {
    if n == 0 then 0
    else SumComplete(meta, states, n - 1) + if states[n - 1] == COMPLETE then meta.PieceSize(n - 1) else 0
  }

  function Flatten(blocks: seq<seq<byte>>): seq<byte> {
    if blocks == [] then [] else Flatten(blocks[..|blocks| - 1]) + blocks[|blocks| - 1]
  }

  // ----- one torrent ----------------------------------------------------------

  /** Piece i is on disk with the expected hash. */
  ghost predicate Verified(meta: Metainfo, files: Files, i: nat) {
    && i < meta.NumPieces() && meta.PieceSize(i) >= 0 && |files| == |meta.OutputLengths()|
    && Stored(meta.OutputLengths(), files, meta.PieceStart(i), meta.PieceSize(i))
    && Sha1Spec.Digest(StoredBytes(meta.OutputLengths(), files, meta.PieceStart(i), meta.PieceSize(i)))
         == meta.ExpectedHash(i)
  }

  ghost predicate DiskOk(mt: Managed) {
    mt.table.Some? ==>
      forall i :: 0 <= i < |mt.table.value.states| && mt.table.value.states[i] == COMPLETE ==>
        Verified(mt.meta, mt.files, i)
  }

  ghost predicate TableOk(mt: Managed) {
    mt.table.Some? ==>
      && TableShape(mt)
      && mt.table.value.Consistent()
      && mt.table.value.hashes == InitialTable(mt.meta).hashes
      && mt.downloaded == SumComplete(mt.meta, mt.table.value.states, |mt.table.value.states|)
  }

  /** Gap-free assembly: whole blocks, in order, with no byte missing between them. */
  ghost predicate AssemblyOk(meta: Metainfo, a: Assembly) {
    && a.index < meta.NumPieces()
    && |a.buffer| == meta.PieceSize(a.index) <= ASSEMBLY_LIMIT
    && a.received < |a.buffer|
    && a.received == PEER_BLOCK_SIZE * |a.blocks|
    && (forall k :: 0 <= k < |a.blocks| ==> |a.blocks[k]| == PEER_BLOCK_SIZE)
    && a.buffer[..a.received] == Flatten(a.blocks)
  }

  ghost predicate PeerOk(meta: Metainfo, peer: Peer) {
    && (peer.sock.None? ==> peer.assembly.None? && peer.have.None? && peer.pending == 0)
    && (peer.have.Some? ==> |peer.have.value| == BitfieldBytes(meta))
    && (peer.assembly.Some? ==> AssemblyOk(meta, peer.assembly.value))
    && (peer.pending > 0 ==> peer.assembly.Some? && !peer.choked &&
                             peer.pending == BlockLength(peer.assembly.value))
  }

  /** Peer p is assembling piece i. */
  ghost predicate PeerOwns(peers: seq<Peer>, p: nat, i: nat) {
    p < |peers| && peers[p].assembly.Some? && peers[p].assembly.value.index == i
  }

  ghost predicate PeersOk(mt: Managed) {
    && |mt.peers| <= MAX_PEERS_PER_TORRENT
    && mt.active == CountConnected(mt.peers)
    && (forall p :: 0 <= p < |mt.peers| ==> PeerOk(mt.meta, mt.peers[p]))
    && (forall p, q :: 0 <= p < q < |mt.peers| && mt.peers[p].sock.Some? && mt.peers[q].sock.Some? ==>
          mt.peers[p].addr != mt.peers[q].addr)
    && (forall p: nat, q: nat, i: nat :: PeerOwns(mt.peers, p, i) && PeerOwns(mt.peers, q, i) ==> p == q)
    && (forall p: nat, i: nat :: PeerOwns(mt.peers, p, i) ==>
          mt.table.Some? && i < |mt.table.value.states| && mt.table.value.states[i] == REQUESTED)
  }

  ghost predicate CandidatesOk(mt: Managed) {
    && |mt.candidates| <= MAX_TRACKER_PEERS
    && (forall c, d :: 0 <= c < d < |mt.candidates| ==> mt.candidates[c].addr != mt.candidates[d].addr)
    && forall c :: 0 <= c < |mt.candidates| ==> Routable(mt.candidates[c].addr)
  }

  ghost predicate StateOk(mt: Managed) {
    && Addable(mt.meta, mt.files)
    && (mt.table.Some? ==> Admissible(mt.meta, mt.files))
    && (mt.state in {DOWNLOADING, DONE} ==> mt.table.Some?)
    && (mt.state == DONE ==> mt.table.value.IsDone())
    && (mt.table.None? ==> mt.peers == [] && mt.candidates == [] && !mt.hasWriter)
  }

  ghost predicate TorrentOk(mt: Managed) {
    StateOk(mt) && TableOk(mt) && PeersOk(mt) && CandidatesOk(mt) && DiskOk(mt)
  }

  // ----- one torrent and the job tables ----------------------------------------

  ghost predicate MyWeb(web: seq<Option<WebJob>>, j: nat, generation: nat) {
    j < |web| && web[j].Some? && web[j].value.generation == generation
  }

  ghost predicate InBatch(job: WebJob, i: nat) {
    job.first <= i < job.first + |job.sizes|
  }

  /** The web-seed job in slot j of this generation holds piece i. */
  ghost predicate JobOwns(web: seq<Option<WebJob>>, j: nat, generation: nat, i: nat) {
    MyWeb(web, j, generation) && InBatch(web[j].value, i)
  }

  ghost predicate WebJobOk(mt: Managed, job: WebJob) {
    && mt.table.Some? && job.tableId == mt.tableId && job.meta == mt.meta && WebJobShape(job)
    && |job.sizes| > 0 && job.first + |job.sizes| <= |mt.table.value.states|
    && (forall k :: 0 <= k < |job.sizes| ==> job.sizes[k] == mt.meta.PieceSize(job.first + k))
    && forall i :: 0 <= i < |mt.table.value.states| && InBatch(job, i) ==> mt.table.value.states[i] == REQUESTED
  }

  /** Somebody is fetching piece i. */
  ghost predicate Owned(mt: Managed, web: seq<Option<WebJob>>, i: nat) {
    || (exists p: nat :: PeerOwns(mt.peers, p, i))
    || (exists j: nat :: JobOwns(web, j, mt.generation, i))
  }

  ghost predicate WebOk(mt: Managed, web: seq<Option<WebJob>>) {
    && (forall j: nat :: MyWeb(web, j, mt.generation) ==> WebJobOk(mt, web[j].value))
    && (forall j: nat, k: nat, i: nat :: JobOwns(web, j, mt.generation, i) && JobOwns(web, k, mt.generation, i) ==> j == k)
    && (forall j: nat, p: nat, i: nat :: JobOwns(web, j, mt.generation, i) ==> !PeerOwns(mt.peers, p, i))
    && (mt.state == DOWNLOADING && mt.table.Some? ==>
          forall i :: 0 <= i < |mt.table.value.states| && mt.table.value.states[i] == REQUESTED ==> Owned(mt, web, i))
  }

  ghost predicate MyConn(conn: seq<Option<ConnJob>>, j: nat, generation: nat) {
    j < |conn| && conn[j].Some? && conn[j].value.generation == generation
  }

  ghost predicate Connecting(mt: Managed, c: nat, addr: Addr) {
    c < |mt.candidates| && mt.candidates[c].connecting && mt.candidates[c].addr == addr
  }

  ghost predicate Dialling(conn: seq<Option<ConnJob>>, j: nat, generation: nat, addr: Addr) {
    MyConn(conn, j, generation) && conn[j].value.addr == addr
  }

  ghost predicate ConnOk(mt: Managed, conn: seq<Option<ConnJob>>) {
    && (forall j: nat :: MyConn(conn, j, mt.generation) ==>
          && mt.table.Some?
          && !Connected(mt.peers, conn[j].value.addr)
          && exists c: nat :: Connecting(mt, c, conn[j].value.addr))
    && (forall j: nat, k: nat, a: Addr ::
          Dialling(conn, j, mt.generation, a) && Dialling(conn, k, mt.generation, a) ==> j == k)
    && ConnPending(conn, mt.generation) <= PEER_CONNECT_PARALLEL
    && mt.active + ConnPending(conn, mt.generation) <= MAX_PEERS_PER_TORRENT
    && (mt.state == DOWNLOADING ==>
          forall c: nat, a: Addr :: Connecting(mt, c, a) ==> exists j: nat :: Dialling(conn, j, mt.generation, a))
  }

  // ----- discovery ------------------------------------------------------------

  /** The hand-off: nothing accepted is lost or delivered twice, and once `done` has
      been seen before a drain there is nothing left to drain. */
  ghost predicate DiscJobOk(job: DiscJob) {
    && job.accepted == job.drained + job.queue
    && |job.queue| <= MAX_TRACKER_PEERS
    && (job.phase.DoneRead? && job.phase.done ==> job.done)
    && (job.phase.Drained? && job.phase.done ==> job.done && job.queue == [])
  }

  ghost predicate DiscOk(disc: seq<Option<DiscJob>>) {
    && (forall j :: 0 <= j < |disc| && disc[j].Some? ==> DiscJobOk(disc[j].value))
    && forall j, k :: 0 <= j < k < |disc| && disc[j].Some? && disc[k].Some? ==>
         disc[j].value.generation != disc[k].value.generation
  }

  // ----- the whole ------------------------------------------------------------

  ghost predicate TableSizes(w: World) {
    && |w.torrents| <= MAX_TORRENTS
    && |w.web| == WEB_SEED_MAX_JOBS && |w.conn| == PEER_CONNECT_MAX_JOBS && |w.disc| == MAX_TORRENTS
  }

  ghost predicate Generations(w: World) {
    && 0 < w.nextGeneration
    && (forall t :: 0 <= t < |w.torrents| ==> 0 < w.torrents[t].generation < w.nextGeneration)
    && (forall t, u :: 0 <= t < u < |w.torrents| ==> w.torrents[t].generation != w.torrents[u].generation)
    && (forall j :: 0 <= j < |w.web| && w.web[j].Some? ==> w.web[j].value.generation < w.nextGeneration)
    && (forall j :: 0 <= j < |w.conn| && w.conn[j].Some? ==> w.conn[j].value.generation < w.nextGeneration)
    && (forall j :: 0 <= j < |w.disc| && w.disc[j].Some? ==> w.disc[j].value.generation < w.nextGeneration)
  }

  /** Every piece table has a number of its own. */
  ghost predicate TableIds(w: World) {
    && (forall t :: 0 <= t < |w.torrents| && w.torrents[t].table.Some? ==> w.torrents[t].tableId < w.nextTable)
    && forall t, u :: 0 <= t < u < |w.torrents| && w.torrents[t].table.Some? && w.torrents[u].table.Some? ==>
         w.torrents[t].tableId != w.torrents[u].tableId
  }

  /** From a to b no piece table is made. */
  predicate SameTable(a: Managed, b: Managed) {
    b.tableId == a.tableId && (b.table.Some? ==> a.table.Some?)
  }

  /** Every open socket has exactly one owner, and every owner's socket is open. */
  ghost predicate SocketsOk(w: World) {
    TorrentSocks(w.torrents) + ConnSocks(w.conn) == multiset(w.open)
  }

  ghost predicate BudgetOk(w: World) {
    w.assemblyBytes == TorrentBytes(w.torrents) <= ASSEMBLY_LIMIT
  }

  ghost predicate AllTorrents(w: World) {
    forall t :: 0 <= t < |w.torrents| ==> RunOk(w.torrents[t], w.web, w.conn)
  }

  ghost predicate RunOk(mt: Managed, web: seq<Option<WebJob>>, conn: seq<Option<ConnJob>>) {
    TorrentOk(mt) && WebOk(mt, web) && ConnOk(mt, conn)
  }

  ghost predicate Inv(w: World) {
    TableSizes(w) && Generations(w) && TableIds(w) && SocketsOk(w) && BudgetOk(w) && AllTorrents(w) && DiscOk(w.disc)
  }
}
