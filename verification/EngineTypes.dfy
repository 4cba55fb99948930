/** The tables of torrent_mgr.c as values. Fields that only feed status text, the
    clock or the statistics are not part of the model. */
module EngineTypes {
  import opened Bytes
  import opened Torrent
  import opened PieceMgr
  import opened Disk

  const MAX_TORRENTS: nat := 8
  const MAX_PEERS_PER_TORRENT: nat := 50
  const MAX_TRACKER_PEERS: nat := 200
  const PEER_CONNECT_PARALLEL: nat := 4
  const PEER_CONNECT_MAX_JOBS: nat := 32
  const WEB_SEED_PARALLEL_PER_TORRENT: nat := 4
  const WEB_SEED_BATCH_PIECES: nat := 4
  const WEB_SEED_MAX_JOBS: nat := 32
  const ASSEMBLY_LIMIT: nat := 67_108_864
  const PEER_BLOCK_SIZE: nat := 16384

  datatype Addr = Addr(ip: nat, port: nat)

  /** `peer_candidate_t`; `retry_after` is a clock value and stays outside. */
  datatype Candidate = Candidate(addr: Addr, failures: nat, connecting: bool)

  /** The piece a peer is assembling. `blocks` is a history of the accepted blocks
      that the source does not keep. */
  datatype Assembly = Assembly(index: nat, buffer: seq<byte>, received: nat, blocks: seq<seq<byte>>)

  /** `torrent_peer_t`: a socket of -1 is None, a null `piece_data` is None. */
  datatype Peer = Peer(
    sock: Option<nat>,
    addr: Addr,
    choked: bool,
    have: Option<seq<byte>>,
    assembly: Option<Assembly>,
    pending: nat
  )

  datatype TorrentState = STOPPED | DOWNLOADING | ERROR | DONE

  /** `managed_torrent_t`. `table` is None while `piece_mgr.pieces` is null, and
      `hasWriter` tells whether `file_writer.base_path` is set. `files` are the
      bytes on disk under this torrent's output paths. `tableId` is a history: the number
      of the piece table made last for this torrent. */
  datatype Managed = Managed(
    generation: nat,
    state: TorrentState,
    meta: Metainfo,
    table: Option<PieceTable>,
    tableId: nat,
    hasWriter: bool,
    files: Files,
    peers: seq<Peer>,
    active: int,
    candidates: seq<Candidate>,
    nextCandidate: nat,
    downloaded: int
  )

  /** `web_seed_job_t`; `tableId` is a history, the table its pieces were reserved in. */
  datatype WebJob = WebJob(
    generation: nat,
    tableId: nat,
    meta: Metainfo,
    first: nat,
    sizes: seq<int>,
    data: seq<byte>,
    ok: bool,
    done: bool
  )

  /** `peer_connect_job_t`. */
  datatype ConnJob = ConnJob(generation: nat, addr: Addr, sock: Option<nat>, done: bool)

  /** Where the collecting loop stands with a discovery job: it reads `done`, then
      drains the queue, then frees the job if `done` had been seen. */
  datatype Phase = Idle | DoneRead(done: bool) | Drained(done: bool)

  /** `discovery_job_t`; `accepted` and `drained` are histories. */
  datatype DiscJob = DiscJob(
    generation: nat,
    queue: seq<Addr>,
    done: bool,
    phase: Phase,
    accepted: seq<Addr>,
    drained: seq<Addr>
  )

  /** Everything torrent_mgr.c keeps, and the sockets the process holds open; `nextTable`
      is a history, the number of piece tables made so far. */
  datatype World = World(
    torrents: seq<Managed>,
    web: seq<Option<WebJob>>,
    conn: seq<Option<ConnJob>>,
    disc: seq<Option<DiscJob>>,
    assemblyBytes: int,
    nextGeneration: nat,
    nextTable: nat,
    open: set<nat>
  )

  /** What `file_writer_write_piece` did: the files afterwards and its verdict. */
  datatype WriteOutcome = WriteOutcome(files: Files, ok: bool)

  datatype StartOutcome = DirectoryFails | NoMemory | WriterFails | Started

  /** What `peer_recv_event` handed over. */
  datatype Message =
    | Invalid
    | Choke
    | Unchoke
    | BitfieldMsg(bits: seq<byte>)
    | Have(index: nat)
    | Piece(index: nat, begin: nat, block: seq<byte>)
    | Other

  function EmptyPeer(sock: nat, addr: Addr): Peer {
    Peer(Some(sock), addr, true, None, None, 0)
  }

  const INITIAL_WORLD: World :=
    World([], seq(WEB_SEED_MAX_JOBS, _ => None), seq(PEER_CONNECT_MAX_JOBS, _ => None),
          seq(MAX_TORRENTS, _ => None), 0, 1, 0, {})
}
