# Verification of the PS5Torrent core

A Dafny model of the parts of PS5Torrent that decide whether a download is right: the
download engine with its piece table, the files it writes, the web-seed reader, SHA-1,
bencoding and the .torrent parser, the peer-wire decoder, and three small text routines.
`dafny verify dfyconfig.toml` checks everything.

How it is built:

- **The engine.** `EngineTypes` holds the tables of `torrent_mgr.c` as values.
  `EngineSteps` gives every atomic step of the main thread and of the worker threads as a
  function, `Apply`, and `Run` folds any interleaving of steps. What the system decides
  (allocations, threads, sockets, clocks, disk results, what peers and workers deliver) is
  a parameter of the step. `EngineInvariants` states the invariant; `EngineFrames`,
  `EnginePeers`, `EngineLifecycle`, `EngineTransfer`, `EngineRequests`, `EngineWeb`,
  `EngineConn` and `EngineDiscovery` show that each step keeps it; `EngineTheorems` and
  `EngineProgress` state what follows for all reachable states and all runs,
  `EngineReservations` when a reservation is lost, and `EngineWitness` goes through a run
  that loses one. The numbers of generations and of piece tables are never used twice;
  the second is history that only the proofs read.
  `TorrentMgr` is the code: the class `TorrentManager` with the loops of the source, whose
  ghost `trace` records the steps it takes, so that its state is always `Run` of the trace;
  `TickSpec` says which steps a tick must consist of, given what it meets in its
  `Surroundings`: late peers, waiting messages, memory, threads and the disk.
  `PeerEffects`, `BatchEffects`, `BatchLaunch`, `DiscoveryEffects`, `ConnEffects` and
  `LifeEffects` say of each step what it does to the tables, in the numbers of the source
  and without the functions that define the steps.
- **The byte path.** `Torrent` is the piece geometry, `Disk` reads several files as one
  content, `FileIo` is the writer, `Segments` the cutting at file boundaries, `HttpRange`
  and `WebSeed` the reader, `ScatterGather` the proof that writing and reading are inverse,
  `EndToEnd` the join with the engine.
- **SHA-1.** `Sha1Spec` is FIPS 180-4, `Sha1` the streaming implementation, `Sha1Vectors`
  the constants and the digest of "abc" in numbers.
- **Bencoding.** `BencodeSpec` has the encoder, the lenient parser and the strict grammar
  of BEP 3 as functions, `BencodeProofs` their laws, `Bencode` the cursor and the growing
  buffer of the source, `BencodeVectors` bytes and their trees; `TorrentParse` is the
  construction of a metainfo record, `TorrentFields` the keys of its fields, and
  `TorrentExample` a whole torrent with its record.
- **Recognisers.** `PeerWireSpec` and `PeerWire`, `TileState`, `UrlCoding`, `FormLookup`;
  `WireFrames`, `HttpVectors` and `UrlVectors` give their formats in bytes.

Properties that the code does not have on all inputs are stated with the exact condition
under which it has them, beside a concrete input or a family of states where it has not:

- an owned piece can stay REQUESTED without an owner: exactly when a finished web-seed job
  is collected while its torrent is not downloading, or a torrent is stopped with a job in
  flight (`EngineReservations.LosesReservationIff`). Only STOPPED and ERROR can hold such
  pieces (`EngineReservations.OrphansOnlyWhenIdle`), so `NoLostPiece` speaks of DOWNLOADING;
  `EngineWitness.ReservationIsLost` is a run from the empty tables that ends so;
- a web seed cannot deliver a piece with an empty file strictly inside it, although the
  writer can store it (`Segments.EmptyFileSplitsThem`, `Segments.SegmentsAgreeIff`);
- a web seed's answer with status 206 is taken for the requested range without a look at
  its Content-Range (`HttpRange.AnyBodyIsAccepted`); from a mirror that sends its file from
  the requested offset on it is that range (`HttpRange.HonestDelivers`), and from any other
  the digest decides (`EngineTheorems.CompletePiecesVerify`);
- one of several output files keeps the tail of an older, longer file
  (`ScatterGather.StaleTailStays`, `ScatterGather.FileExactIff`, `EndToEnd.DoneFileExactIff`);
- completing a piece twice breaks the counter (`PieceMgr.FinishTwiceInconsistent`), which
  no caller does (`EngineTheorems.CountersInEveryState`);
- the info hash is that of the original bytes if and only if the info dictionary is
  strictly written (`TorrentParse.InfoHashIsOfOriginalBytes`; an accepted file that is not:
  `TorrentParse.LooseFileHashesOtherBytes`), while the comment at src/torrent.c:107 promises
  it for every file;
- a payload to skip is left in the stream when its allocation fails
  (`PeerWire.SkippingCanFail`, `PeerWire.ConsumesFrameIff`); runs whose polls never meet that
  deliver the whole stream (`PeerWire.EveryEventArrives`).

## Model

| member | source | states |
|---|---|---|
| EngineTheorems.InitialInv | src/torrent_mgr.c:185-189 | the invariant of the engine holds in the state torrent_mgr_init makes |
| EngineTheorems.StepKeepsInv | src/torrent_mgr.c:38-1287 | every step of the main thread or of a worker (add, start, stop, remove, the three collecting loops, receive, request, time-out, schedule, completion, worker progress), with any failure of memory, threads, disk or peer, keeps the invariant |
| EngineTheorems.RunKeepsInv | src/torrent_mgr.c:1229-1287 | the invariant holds after every interleaving of steps of any length |
| EngineTheorems.ReservationsExclusive | src/torrent_mgr.c:979-1046 | in every reachable state a piece owned by a peer or a web-seed job of the run has exactly one owner and is REQUESTED |
| EngineTheorems.NoLostPiece | src/torrent_mgr.c:38-49 | in every reachable state of a DOWNLOADING torrent a piece is REQUESTED if and only if it has exactly one owner, and is otherwise FREE or COMPLETE; FAILED never occurs |
| EngineTheorems.UnownedPieceIsOffered | src/torrent_mgr.c:1202-1220 | so an unfinished piece without owner is found again by the scan, for web seeds and for every peer that has it |
| EngineTheorems.ErrorLosesReservations | src/torrent_mgr.c:984-987 | collecting the done job of a torrent in ERROR leaves every piece of its batch REQUESTED and without any owner |
| EngineReservations.OrphansOnlyWhenIdle | src/torrent_mgr.c:38-49 | in every reachable state a piece that is REQUESTED without an owner belongs to a torrent that is STOPPED or in ERROR |
| EngineReservations.LosesReservationIff | src/torrent_mgr.c:437-457 | for every reachable state, every step and every torrent still there after it, shifted down by a removal or not: a piece that was not so before is REQUESTED and unowned afterwards if and only if the step collects a done job that holds it while the torrent is not DOWNLOADING, or stops the torrent while a job holds it |
| EngineWitness.ReservationIsLost | src/torrent_mgr.c:1186-1191 | a concrete run from the empty tables: a peer's write fails while a web seed fetches the other piece, and collecting that job leaves the piece REQUESTED for nobody |
| EngineTheorems.CompletePiecesVerify | src/torrent_mgr.c:988-1015 | in every reachable state the bytes on disk in the range of a COMPLETE piece have the SHA-1 digest the torrent states |
| EngineTheorems.DoneMeansVerified | src/torrent_mgr.c:1244-1253 | a torrent that is DONE has every piece verified on disk and `downloaded` equal to the total size |
| EngineTheorems.MagnetStaysIdle | src/torrent_mgr.c:389-399 | in every reachable state a torrent without piece information is STOPPED or in ERROR and has no table, peers, candidates or jobs |
| EngineTheorems.CountersInEveryState | src/torrent_mgr.c:1190-1191 | in every reachable state num_complete is the number of COMPLETE pieces and of set bits, `downloaded` is the sum of their sizes and at most the total size, and done means all pieces COMPLETE |
| EngineTheorems.BudgetInEveryState | src/torrent_mgr.c:1206-1219 | in every reachable state assembly_bytes is the memory held by all peers of all torrents and at most 64 MiB |
| EngineTheorems.AssembliesAreGapFree | src/torrent_mgr.c:1166-1178 | in every reachable state an assembly is its accepted blocks in order; an outstanding request is for min(16384, remaining) bytes at the received offset, a multiple of 16384 |
| EngineTheorems.LastBlockCompletes | src/torrent_mgr.c:1173-1179 | a block completes its piece exactly if it is number ceil(size/16384), and then the buffer is the concatenation of the blocks |
| EngineTheorems.ConnectionBookkeeping | src/torrent_mgr.c:807-928 | in every reachable state candidates are distinct, `connecting` is set exactly for addresses with a job while DOWNLOADING, one job per address, none both connecting and connected, at most 4 pending and 50 in all |
| EngineTheorems.HandshakeFindsSlot | src/torrent_mgr.c:841-870 | a finished handshake of a live run always gets a peer slot, keeps its socket and frees its job |
| EngineTheorems.SocketOwnership | src/torrent_mgr.c:51-60 | in every reachable state a socket is open if and only if a peer or a connection job holds it, and exactly one of them does |
| EngineProgress.CompleteIsForever | src/torrent_mgr.c:1179-1198 | whatever happens later, a COMPLETE piece stays COMPLETE with the very bytes it has on disk for as long as its run lives |
| EngineProgress.RetiredForever | src/torrent_mgr.c:191-233 | a generation that no torrent carries is never carried again, through any add, start, stop, remove and shift |
| EngineProgress.StopRetires | src/torrent_mgr.c:437-457 | stopping a torrent retires its generation |
| EngineProgress.ResultsStayInTheirRun | src/torrent_mgr.c:739-742 | collecting a result changes at most the downloading torrent that carries the job's generation |
| EngineProgress.JobsBelongToOneTable | src/torrent_mgr.c:1082-1112 | whenever the invariant holds, a web-seed job in flight for a torrent's generation carries the number of the torrent's present piece table, its metainfo, the right sizes and reserved pieces |
| EngineProgress.JobComesFromItsTable | src/torrent_mgr.c:1082-1112 | whatever step brings a web-seed job into its slot is the scheduling step of a torrent, and the job carries that torrent's generation and table number; no other step changes either |
| EngineProgress.ConnectionComesFromItsRun | src/torrent_mgr.c:892-923 | a connection job enters its slot by the scheduling step of the torrent whose generation it carries, for one of that torrent's candidates, and keeps generation and address under every other step |
| EngineProgress.DiscoveryComesFromItsRun | src/torrent_mgr.c:772-803 | a discovery job enters its slot by the scheduling step of the downloading torrent whose generation it carries, and keeps it under every other step |
| EngineProgress.StartMakesNewTable | src/torrent_mgr.c:401-435 | a start that makes a piece table gives it a number that no table had before, with the initial contents |
| EngineProgress.OneTablePerGeneration | src/torrent_mgr.c:346-371 | without a piece table no job carries the generation; over any run a torrent that has one keeps that very table number for as long as its generation lasts, and every job that ever carries the generation was made from it |
| EngineTheorems.DiscoveryHandOff | src/torrent_mgr.c:707-770 | in every reachable state, under every next step: what a job accepted is what was drained and what is queued, in order; addresses are drained only by passing the whole queue to add_candidate of the live run; a job is freed only after its worker finished and everything accepted was drained |
| EngineDiscovery.DrainDelivers | src/torrent_mgr.c:739-757 | a drain passes the whole queue in order to add_candidate of the live run and of no other torrent |
| EngineLifecycle.AddKeepsInv | src/torrent_mgr.c:191-233 | adding keeps the engine's invariant |
| EngineLifecycle.StartKeepsInv | src/torrent_mgr.c:346-435 | starting, whatever fails, keeps the engine's invariant |
| EngineLifecycle.StopKeepsInv | src/torrent_mgr.c:437-457 | stopping keeps the engine's invariant |
| EngineLifecycle.RemoveKeepsInv | src/torrent_mgr.c:459-478 | removing with the shift keeps the engine's invariant |
| EngineLifecycle.CheckDoneKeepsInv | src/torrent_mgr.c:1244-1253 | the completion check keeps the engine's invariant |
| EnginePeers.DisconnectKeepsInv | src/torrent_mgr.c:51-60 | disconnecting a peer keeps the engine's invariant |
| EngineTransfer.RecvKeepsInv | src/torrent_mgr.c:1138-1201 | any message, late, duplicate or invalid, keeps the engine's invariant |
| EngineTransfer.FinishKeepsInv | src/torrent_mgr.c:1179-1198 | finishing a piece with any hash and any disk result keeps the engine's invariant |
| EngineTransfer.TimeOutKeepsInv | src/torrent_mgr.c:1130-1137 | a time-out keeps the engine's invariant |
| EngineRequests.RequestKeepsInv | src/torrent_mgr.c:1202-1226 | choosing, reserving and requesting keeps the engine's invariant |
| EngineWeb.ScheduleWebKeepsInv | src/torrent_mgr.c:1057-1116 | scheduling a web-seed batch keeps the engine's invariant |
| EngineWeb.CollectWebKeepsInv | src/torrent_mgr.c:979-1046 | collecting a web-seed job, live or stale, keeps the engine's invariant |
| EngineWeb.WebWorkerKeepsInv | src/torrent_mgr.c:960-968 | a web-seed worker's result keeps the engine's invariant |
| EngineConn.ScheduleConnKeepsInv | src/torrent_mgr.c:880-928 | starting a connection job keeps the engine's invariant |
| EngineConn.CollectConnKeepsInv | src/torrent_mgr.c:832-878 | collecting a connection job, live or stale, keeps the engine's invariant |
| EngineConn.ConnOpensKeepsInv | src/torrent_mgr.c:807-830 | a worker opening its socket keeps the engine's invariant |
| EngineConn.ConnSucceedsKeepsInv | src/torrent_mgr.c:807-830 | a finished handshake keeps the engine's invariant |
| EngineConn.ConnFailsKeepsInv | src/torrent_mgr.c:807-830 | a failed connection keeps the engine's invariant |
| EngineDiscovery.ScheduleDiscoveryKeepsInv | src/torrent_mgr.c:772-805 | starting a discovery job keeps the engine's invariant |
| EngineDiscovery.ReadDoneKeepsInv | src/torrent_mgr.c:733-738 | reading done keeps the engine's invariant |
| EngineDiscovery.DrainKeepsInv | src/torrent_mgr.c:739-757 | draining a queue keeps the engine's invariant |
| EngineDiscovery.FreeIfDoneKeepsInv | src/torrent_mgr.c:758-768 | freeing a job keeps the engine's invariant |
| EngineDiscovery.DiscPublishesKeepsInv | src/torrent_mgr.c:707-718 | publishing addresses keeps the engine's invariant |
| EngineDiscovery.DiscFinishesKeepsInv | src/torrent_mgr.c:720-731 | a worker setting done keeps the engine's invariant |
| PeerEffects.BlockArrives | src/torrent_mgr.c:1166-1198 | a block is ignored unless it is the one asked for, drops the peer if its length is wrong, is kept behind the bytes before it, and as the last one stores the piece, or frees it and drops the peer on a wrong digest, or puts the torrent in ERROR on a failed write |
| PeerEffects.FinishOutcome | src/torrent_mgr.c:1179-1198 | the three ends of a full piece, for any content of the buffer |
| PeerEffects.AvailabilityArrives | src/torrent_mgr.c:1154-1165 | a bitfield of the right length replaces what was known, a HAVE in range adds exactly its piece, anything else or missing memory drops the peer |
| PeerEffects.SmallMessage | src/torrent_mgr.c:1140-1153 | a choke forgets the outstanding request, an unchoke allows new ones, an invalid frame drops the peer, others change nothing |
| PeerEffects.TimedOut | src/torrent_mgr.c:1130-1137 | a peer that is late is closed, its piece free again, its buffer given back, its address with one failure more, up to five |
| PeerEffects.RequestOutcome | src/torrent_mgr.c:1202-1226 | an assembly asks for min(16384, remaining) bytes; otherwise the first free piece that the peer may have is reserved if it fits 64 MiB and what is left of them; a bigger one is an ERROR, and missing memory or a failed send drops the peer |
| BatchEffects.BatchCollected | src/torrent_mgr.c:979-1046 | a finished batch of the live run: if every piece not yet COMPLETE has its digest and is written, all are COMPLETE, their bytes on disk and their sizes counted; if number k is the first to fail, exactly those before it are, and the rest are FREE unless COMPLETE before; a failed fetch frees them all |
| BatchLaunch.BatchStarts | src/torrent_mgr.c:1057-1116 | the batch begins with the first free piece and takes free pieces in a row, as many as fit four and 64 MiB, if fewer than four jobs of the run are under way; they are reserved, and the first empty slot has a job with their sizes |
| BatchLaunch.WorkerHandsIn | src/torrent_mgr.c:960-968 | bytes and verdict of a worker are stored once, in its own job |
| DiscoveryEffects.PublishedArrive | src/torrent_mgr.c:707-718 | every published address is in the job's queue afterwards unless it holds 200, nothing else is, none stands twice if none did, new ones stand in the order of their first publication, and no other job or torrent changes |
| DiscoveryEffects.OfferedIs | src/torrent_mgr.c:690-705 | an address that cannot be dialled or is known changes nothing, another is appended to fewer than 200 candidates, and else replaces the idle unconnected one with the most failures, the first of equals, if there is one |
| DiscoveryEffects.RoomForAll | src/torrent_mgr.c:690-705 | while there is room no candidate is lost and every address that can be dialled becomes one |
| DiscoveryEffects.DiscoverySteps | src/torrent_mgr.c:733-770 | `done` is read, the whole queue is offered in order to the run downloading under the job's generation, and the job is freed only if it had been read as done |
| DiscoveryEffects.DiscoveryStarts | src/torrent_mgr.c:772-805 | a job starts exactly for a downloading torrent with trackers and without one, given a slot, memory and a thread |
| ConnEffects.TurnIs | src/torrent_mgr.c:880-928 | with fewer than 4 connections and 50 peers the next candidate has its turn, and is dialled in the first empty slot unless it is being dialled, cooling down, connected, or slot, memory or thread is missing |
| ConnEffects.WorkerIs | src/torrent_mgr.c:807-830 | a worker opens one socket, keeps it after a handshake and closes it on failure |
| ConnEffects.ConnCollected | src/torrent_mgr.c:832-878 | a finished connection of the live run takes the first closed peer slot or a new one of fifty, unless its address is connected; otherwise its socket is closed; a failed one counts against the candidate |
| LifeEffects.InitialIs | src/torrent_mgr.c:24-34 | the tables have 32, 32 and 8 slots and start empty |
| LifeEffects.AddIs | src/torrent_mgr.c:191-233 | fewer than eight torrents: one more, stopped, with a generation of its own |
| LifeEffects.StopIs | src/torrent_mgr.c:437-457 | a stopped torrent has a new generation, no peers and no candidates; their sockets and buffers are given back and their pieces free; table, files and other torrents stay |
| LifeEffects.StartIs | src/torrent_mgr.c:346-435 | what is left of an earlier run is cleared; then without directories, pieces, memory or output file it is ERROR, and with all of them DOWNLOADING with every piece FREE; a single output file is emptied, several are kept |
| LifeEffects.RemoveIs | src/torrent_mgr.c:459-478 | the torrent is closed as by a stop, and those behind it move up by one |
| LifeEffects.CheckDoneIs | src/torrent_mgr.c:1244-1253 | a downloading torrent is DONE, its peers closed, exactly if every piece is COMPLETE |
| LifeEffects.AllClosed | src/torrent_mgr.c:51-60 | closing the first n peers gives back their sockets and buffers, frees their unfinished pieces, and counts one failure for each address while downloading |
| TorrentMgr.TorrentManager.constructor | src/torrent_mgr.c:185-189 | the manager begins in the initial state with an empty history |
| TorrentMgr.TorrentManager.AddCandidateTo | src/torrent_mgr.c:690-705 | adds a routable unknown address, or replaces the known idle candidate with the most failures when the table is full |
| TorrentMgr.TorrentManager.FindCandidateIndex | src/torrent_mgr.c:669-674 | the first candidate with the address, or the number of candidates |
| TorrentMgr.TorrentManager.PeerIsConnected | src/torrent_mgr.c:662-667 | true exactly if some peer with a socket has the address |
| TorrentMgr.TorrentManager.ReleasePieceOf | src/torrent_mgr.c:38-49 | the peer's piece becomes FREE unless COMPLETE, its buffer leaves the budget, nothing else changes |
| TorrentMgr.TorrentManager.CloseSocketOf | src/torrent_mgr.c:51-58 | closes the socket and counts the failure of the candidate while downloading |
| TorrentMgr.TorrentManager.DisconnectPeer | src/torrent_mgr.c:51-60 | the whole state after disconnect_peer |
| TorrentMgr.TorrentManager.DisconnectPeers | src/torrent_mgr.c:444-447 | the loop over the peers equals disconnecting each in turn |
| TorrentMgr.TorrentManager.AddTorrent | src/torrent_mgr.c:191-233 | one add step, for parsed torrents and magnet links: a fresh generation and a new entry, or -1 when the table is full |
| TorrentMgr.TorrentManager.StopRun | src/torrent_mgr.c:437-457 | new generation first, then all peers are disconnected and forgotten |
| TorrentMgr.TorrentManager.StopTorrent | src/torrent_mgr.c:437-457 | one stop step for a valid index, none otherwise |
| TorrentMgr.TorrentManager.StartTorrent | src/torrent_mgr.c:346-435 | one start step for a valid index; the result is 0 exactly if the torrent is downloading or done afterwards |
| TorrentMgr.TorrentManager.LaunchTorrent | src/torrent_mgr.c:369-435 | directory, magnet check, table and writer in order, each failure ending in ERROR |
| TorrentMgr.TorrentManager.ShiftDown | src/torrent_mgr.c:470-477 | removes one entry and keeps the order of the rest |
| TorrentMgr.TorrentManager.RemoveTorrent | src/torrent_mgr.c:459-478 | one remove step for a valid index, none otherwise |
| TorrentMgr.TorrentManager.Enqueue | src/torrent_mgr.c:707-718 | every published address is in the queue afterwards unless it holds 200, nothing else is, the new ones stand behind the old in the order of their first publication, and none stands twice if none did |
| TorrentMgr.TorrentManager.PublishCandidates | src/torrent_mgr.c:707-718 | one publishing step of a discovery worker |
| TorrentMgr.TorrentManager.WebWorkerStep | src/torrent_mgr.c:960-968 | a web-seed worker stores its bytes and verdict and sets done |
| TorrentMgr.TorrentManager.ConnWorkerStep | src/torrent_mgr.c:807-830 | a connection worker opens, succeeds or fails and closes its own socket |
| TorrentMgr.TorrentManager.WriteToFiles | src/torrent_mgr.c:1006-1009 | the write of a verified piece has the effect the writer promises |
| TorrentMgr.TorrentManager.SavePiece | src/torrent_mgr.c:990-1015 | one piece of a fetched batch: verify, write, count, or give it back |
| TorrentMgr.TorrentManager.SaveFetched | src/torrent_mgr.c:988-1024 | the whole batch: saved up to the first failure, the rest released |
| TorrentMgr.TorrentManager.CollectWebSlot | src/torrent_mgr.c:983-1040 | the slot is emptied; the live run has every piece of a good batch COMPLETE, on disk and counted, or those before the first failing one, and the rest free; a stale job changes no torrent; on a working disk only a wrong digest fails |
| TorrentMgr.TorrentManager.CollectJob | src/torrent_mgr.c:983-1040 | the body of the loop, one step of the tables |
| TorrentMgr.TorrentManager.CollectWebSeed | src/torrent_mgr.c:979-1046 | the loop is exactly one collecting step for every slot in order, worker steps in between |
| TorrentMgr.TorrentManager.CollectDiscoveryTurn | src/torrent_mgr.c:733-770 | the main thread reads done, then drains, then frees, once, if the slot holds a job, and does nothing otherwise; the worker may act in between |
| TorrentMgr.TorrentManager.ReadAndDrain | src/torrent_mgr.c:733-757 | the first half of a turn: done is read before the queue is drained |
| TorrentMgr.TorrentManager.DrainQueue | src/torrent_mgr.c:739-757 | one drain step |
| TorrentMgr.TorrentManager.CollectDiscovery | src/torrent_mgr.c:733-770 | every job that was in the table gets its turn, in slot order, and none is left half collected |
| TorrentMgr.TorrentManager.SettleConnection | src/torrent_mgr.c:841-870 | clears `connecting`, and gives the socket a peer slot or counts the failure |
| TorrentMgr.TorrentManager.AdoptSocket | src/torrent_mgr.c:855-870 | the first closed peer slot, or a new one, takes the socket; none if all fifty are open |
| TorrentMgr.TorrentManager.CollectConnSlot | src/torrent_mgr.c:832-878 | one slot of collect_peer_connections |
| TorrentMgr.TorrentManager.CollectPeerConnections | src/torrent_mgr.c:832-878 | exactly one collecting step for every slot in order |
| TorrentMgr.TorrentManager.FinishAssembled | src/torrent_mgr.c:1179-1198 | with the stated digest and a successful write the piece is COMPLETE, its bytes are in the files, `downloaded` has grown by its size and the peer keeps its socket without a piece; with another digest it is FREE and the peer closed, files as before; with a failed write the torrent is in ERROR |
| TorrentMgr.TorrentManager.AccountPiece | src/torrent_mgr.c:1190-1198 | a written piece is marked, counted and taken from the peer, whose candidate has no failures any more |
| TorrentMgr.TorrentManager.HandlePiece | src/torrent_mgr.c:1166-1178 | only the requested block is accepted; any other is ignored |
| TorrentMgr.TorrentManager.HandleAvailability | src/torrent_mgr.c:1154-1165 | have and bitfield messages with the size checks and the allocation |
| TorrentMgr.TorrentManager.HandleMessage | src/torrent_mgr.c:1139-1200 | one receive step |
| TorrentMgr.TorrentManager.SendBlockRequest | src/torrent_mgr.c:1221-1226 | a request for the next block; a failed send disconnects |
| TorrentMgr.TorrentManager.SendNext | src/torrent_mgr.c:1202-1226 | one request step: piece choice, budget, memory for the size of the piece, reservation and request |
| TorrentMgr.TorrentManager.TakePiece | src/torrent_mgr.c:1215-1226 | the piece is reserved for the peer and its first block asked for |
| TorrentMgr.TorrentManager.AskNext | src/torrent_mgr.c:1202-1226 | the request that ends a turn is one step |
| TorrentMgr.TorrentManager.ReceiveMessages | src/torrent_mgr.c:1138-1201 | the messages that wait are received in order, up to eight and while the peer is active; on a working disk the torrent goes on downloading; reports whether the peer is gone |
| TorrentMgr.TorrentManager.ReceiveOne | src/torrent_mgr.c:1138-1201 | one message is one receive step with that message |
| TorrentMgr.TorrentManager.ProcessPeer | src/torrent_mgr.c:1123-1227 | nothing for an inactive peer, one time-out for a late one; otherwise the waiting messages, up to eight while the peer is active, followed by a request step exactly if it is still active; other torrents untouched |
| TorrentMgr.TorrentManager.TryCandidate | src/torrent_mgr.c:895-926 | one candidate: skipped, or a job started that raises the pending count by one |
| TorrentMgr.TorrentManager.SchedulePeerConnections | src/torrent_mgr.c:880-928 | candidates are tried until each has had its turn, a limit is reached or a slot, memory or thread is missing; pending and active connections stay within both limits |
| TorrentMgr.TorrentManager.CountPending | src/torrent_mgr.c:883-887 | the number of connection jobs of the generation |
| TorrentMgr.TorrentManager.WebSeedActiveCount | src/torrent_mgr.c:1048-1055 | the number of web-seed jobs of the generation |
| TorrentMgr.TorrentManager.CollectBatch | src/torrent_mgr.c:1070-1081 | the run of free pieces that fits four pieces and 64 MiB, with their sizes and sum |
| TorrentMgr.TorrentManager.LaunchBatch | src/torrent_mgr.c:1082-1114 | on success the batch is REQUESTED and its job is in the slot; on failure nothing has changed |
| TorrentMgr.TorrentManager.ScheduleWebSeedOne | src/torrent_mgr.c:1057-1116 | one scheduling step with the memory malloc gives for the batch; reports no success without filling exactly one empty slot |
| TorrentMgr.TorrentManager.TryBatch | src/torrent_mgr.c:1118-1121 | one attempt: it fills an empty slot, or changes nothing and ends the loop |
| TorrentMgr.TorrentManager.ScheduleWebSeed | src/torrent_mgr.c:1118-1121 | batches are started until an attempt launches nothing, each attempt with the thread and the memory that can be had |
| TorrentMgr.TorrentManager.ScheduleTrackers | src/torrent_mgr.c:772-805 | one scheduling step; a torrent with trackers has a discovery job afterwards if memory, thread and slot are there, and a generation that has one gets no second |
| TorrentMgr.TorrentManager.CheckCompletion | src/torrent_mgr.c:1244-1253 | a torrent whose pieces are all complete becomes DONE with its peers closed |
| TorrentMgr.TorrentManager.ProcessPeers | src/torrent_mgr.c:1278-1279 | every peer gets exactly one complete turn, in order |
| TorrentMgr.TorrentManager.ServeTorrent | src/torrent_mgr.c:1273-1282 | a tracker job if one is due, then a complete turn of every peer in order, then connections as far as they go, then web-seed batches until one launches nothing |
| TorrentMgr.TorrentManager.TickTorrent | src/torrent_mgr.c:1238-1283 | a torrent whose pieces are complete becomes DONE and nothing else happens to it; any other is served in full |
| TorrentMgr.TorrentManager.Collect | src/torrent_mgr.c:1231-1233 | exactly the three collecting loops in order, each over its whole table, worker steps in between |
| TorrentMgr.TorrentManager.VisitTorrent | src/torrent_mgr.c:1237-1283 | one torrent's share of the tick |
| TorrentMgr.TorrentManager.VisitTorrents | src/torrent_mgr.c:1237-1286 | every torrent gets its share in order, and the count is that of the downloading ones |
| TorrentMgr.TorrentManager.Tick | src/torrent_mgr.c:1229-1287 | the main thread collects each of the 32 web-seed slots, then every discovery job, then each of the 32 connection slots; then every torrent in order is visited, not at all unless downloading, by the completion check alone if complete, and by the check and a full service otherwise; the result counts the downloading |
| PieceMgr.InitialTableConsistent | src/piece_mgr.c:6-36 | a fresh table is consistent and all pieces are FREE |
| PieceMgr.FinishConsistent | src/piece_mgr.c:72-97 | completing an unfinished piece keeps counter, states and bitfield in agreement |
| PieceMgr.FinishTwiceInconsistent | src/piece_mgr.c:88-96 | completing a finished piece again breaks the agreement, since the increment is unconditional |
| PieceMgr.CountersAgree | src/piece_mgr.c:105-109 | the counter is the number of COMPLETE pieces and of set bits, and done means all are COMPLETE |
| PieceMgr.GetNextFinds | src/piece_mgr.c:38-64 | the scan returns the first free piece the peer has, and -1 exactly if there is none |
| PieceMgr.PieceManager.constructor | src/piece_mgr.c:6-36 | the arrays hold the initial table |
| PieceMgr.PieceManager.GetNext | src/piece_mgr.c:38-64 | the array loop returns what the scan of the table specifies |
| PieceMgr.PieceManager.Request | src/piece_mgr.c:66-70 | one state becomes REQUESTED if the index is in range |
| PieceMgr.PieceManager.Complete | src/piece_mgr.c:72-97 | verifies the hash, then sets state, counter and bit in place, or FAILED |
| PieceMgr.PieceManager.IsDone | src/piece_mgr.c:105-109 | compares the counter with the number of pieces |
| Bitfield.SetBitEffect | src/piece_mgr.c:92-94 | setting a bit with the OR of the source sets exactly that bit |
| PieceMgr.CompleteIs | src/piece_mgr.c:72-97 | only the expected digest completes a piece: state, counter and exactly its bit change; another digest makes it FAILED |
| Bitfield.BitOrder | src/piece_mgr.c:92-94 | piece k is the bit of weight 128, 64, ..., 1 of byte k / 8 |
| FileIo.FileWriter.constructor | src/file_io.c:37-82 | one output file is truncated, several keep what an earlier run left |
| FileIo.FileWriter.WritePiece | src/file_io.c:84-158 | on success the whole piece is stored, by exactly the specified segments; on failure every byte of the piece is as before or as intended; no other content byte changes and no file grows beyond its length |
| FileIo.FileWriter.WriteMulti | src/file_io.c:102-157 | the loop over the files meets the same contract |
| FileIo.FileWriter.WriteInFile | src/file_io.c:108-153 | the segment of one file |
| FileIo.FileWriter.WriteSingle | src/file_io.c:88-99 | the single-file branch meets the same contract |
| FileIo.FileWriter.Finish | src/file_io.c:160-168 | the writer is closed |
| FileIo.CellUpdate | src/file_io.c:144-152 | rewriting a stretch of one file changes exactly that stretch of the content |
| FileIo.OneFileSegments | src/file_io.c:88-99 | for one file the multi-file cut would be the one write that is made |
| Segments.SegmentsAgreeIff | src/web_seed.c:181-196 | writer and reader cut a stretch alike if and only if no empty file lies strictly inside it; the writer's segments tile the stretch in file order |
| Segments.WriterTiles | src/file_io.c:102-157 | the writer's segments cover the stretch without gap or overlap, each inside its file and non-empty |
| Segments.WriterIsReaderWithoutEmpty | src/web_seed.c:181-196 | dropping the empty segments of the reader gives the writer's |
| Segments.EmptyFileSplitsThem | src/web_seed.c:184-192 | a concrete torrent where the reader asks for an empty range and so cannot succeed |
| WebSeed.FetchRange | src/web_seed.c:63-140 | from a mirror that sends its file from the requested offset on, success is a non-empty range of the mirror's file, copied exactly, nothing else written; a mirror that answers in full and has the range succeeds |
| HttpRange.FetchAnswer | src/web_seed.c:104-140 | succeeds if and only if the range is not empty, a header of less than 8192 bytes ends in the stream, its status is 206, or 200 for a range from the front, and enough bytes follow; then the buffer holds the bytes behind the header |
| HttpRange.ReadHeader | src/web_seed.c:104-122 | the loop finds the first empty line, unless it ends at or beyond 8192 bytes, and the status in front of it |
| HttpRange.ReceiveBody | src/web_seed.c:133-139 | the loop collects exactly the first bytes of the body, whatever the chunks, unless too few arrive |
| HttpRange.AnyBodyIsAccepted | src/web_seed.c:121-139 | behind status 206 any body of sufficient length is accepted as the range, from wherever in the file it is, since Content-Range is not read |
| HttpRange.HonestDelivers | src/web_seed.c:121-139 | what is accepted from a mirror that sends its file is the requested range of that file |
| HttpVectors.AnswerIs | src/web_seed.c:104-140 | an answer is used if and only if its first empty line ends below 8192 bytes, its status is 206, or 200 for a range from the front, and enough bytes follow |
| HttpVectors.StatusRead | src/web_seed.c:121-124 | behind HTTP/, a word and blanks three digits are the status |
| WebSeed.FetchMultiFilePiece | src/web_seed.c:172-199 | success means the buffer holds the piece's content, cut as the writer cuts it; a mirror that answers and offers the piece succeeds, and no other offers it |
| WebSeed.FetchSingleFileSpan | src/web_seed.c:157-170 | success means the buffer holds the span's content |
| WebSeed.SpanDelivers | src/web_seed.c:239-251 | a single-file span is the concatenation of its pieces, each at its place |
| WebSeed.BatchContiguous | src/web_seed.c:230-234 | the pieces of a batch follow each other in the content as in the buffer |
| WebSeed.FetchPieces | src/web_seed.c:223-268 | on success one seed offers the whole batch and every piece is at its place; one seed that answers with it is enough for success |
| EndToEnd.DoneMeansContent | src/torrent_mgr.c:1244-1253 | after any run, the files of a DONE torrent hold one content: every file begins with its part of it and every piece of it has the stated digest |
| EndToEnd.DoneFileExactIff | src/torrent_mgr.c:1244-1253 | over any run with a start in it: the single file of a DONE torrent is exactly the content, and file f of several is exact if and only if the file that lay there at the start was not longer |
| EndToEnd.DoneFilesServe | src/web_seed.c:172-199 | a mirror of those files offers exactly the pieces without an empty file strictly inside, and whatever the reader accepts from it has the stated digest |
| ScatterGather.SavedStays | src/file_io.c:84-158 | a saved piece is in place after any later writes of any pieces, the same piece again and failed ones included |
| ScatterGather.AllSavedIsComplete | src/file_io.c:102-157 | writing all pieces in any order, with any failed and repeated attempts, stores the whole content |
| ScatterGather.FileExactIff | src/file_io.c:131-152 | a file ends up exact if and only if the file there before was not longer: several output files are never truncated |
| ScatterGather.StaleTailStays | src/file_io.c:131-152 | a concrete file that keeps the tail of an older one |
| ScatterGather.ScatterYieldsContent | src/file_io.c:102-157 | then the files laid end to end are the content |
| ScatterGather.GatherReturnsPiece | src/web_seed.c:172-199 | a mirror of those files offers a piece if and only if no empty file is strictly inside it, and what the reader accepts is that piece |
| Torrent.PieceGeometry | src/torrent.c:217-223 | sizes are between 1 and the piece length, consecutive pieces touch, the last ends at the total size, nothing leaves 64 bits |
| Torrent.PiecesPartition | src/torrent.c:217-223 | every offset of the content lies in exactly one piece |
| Torrent.PiecesDisjoint | src/torrent.c:217-223 | two pieces never share a byte |
| Torrent.SizesCoincide | src/torrent_mgr.c:970-977 | the size a peer's piece gets and torrent_piece_size are the same |
| TorrentParse.TorrentParseBytes | src/torrent.c:7-225 | a file is accepted if and only if its info dictionary is acceptable; the record is the one it describes, satisfies what the engine relies on, and hashes the original bytes when those are strictly written |
| TorrentParse.ParseInfo | src/torrent.c:103-224 | the checks and fields of the info dictionary |
| TorrentParse.FileLengths | src/torrent.c:143-167 | the lengths are the integers under `length` of the entries, in order; the running overflow check accepts exactly the lists without negative length whose true sum fits 64 bits |
| TorrentParse.CountWebSeeds | src/torrent.c:67-98 | counts the non-empty url-list strings |
| TorrentParse.CountTrackers | src/torrent.c:22-64 | some tracker address is kept exactly if announce or a tier holds a string |
| TorrentParse.RecordAccepted | src/torrent.c:217-224 | every accepted record satisfies the geometry the engine relies on |
| TorrentParse.InfoHashIsOfOriginalBytes | src/torrent.c:103-112 | the hashed bytes are the original ones if and only if the info dictionary is strictly written |
| TorrentParse.StrictFileHashesOriginal | src/torrent.c:103-112 | in particular for a strictly written file |
| TorrentParse.LooseFileHashesOtherBytes | src/torrent.c:103-112 | a concrete file that torrent_parse accepts although its info dictionary, with a length written i01e, is re-encoded one byte shorter than it stands there |
| TorrentFields.LengthsRead | src/torrent.c:143-205 | for every list of file dictionaries with an integer under `length` the lengths of the record are those integers in order and the total is their sum; for one file it is the integer under `length` |
| TorrentFields.FieldsRead | src/torrent.c:103-141 | piece length, digests and info hash come from `piece length`, `pieces` and the info dictionary |
| TorrentFields.WebSeedsRead | src/torrent.c:67-98 | the web seeds are the non-empty strings under `url-list` |
| TorrentFields.TrackersRead | src/torrent.c:22-64 | there are trackers if and only if a string is under `announce` or in a list in the list under `announce-list` |
| TorrentFields.AcceptedIff | src/torrent.c:155-224 | with name, digests, piece length and lengths given, it is accepted if and only if there are at most 1024 lengths, none negative, their sum is positive and fits 63 bits, the piece length is positive, and there are 20 bytes for each of the pieces that cover the sum |
| TorrentFields.Needed | src/torrent.c:217-217 | nothing is accepted without a name and digests |
| TorrentExample.ParseTwoFiles | src/torrent.c:7-225 | a torrent of two files of 3 and 5 bytes, given byte by byte, is accepted; its record has these lengths, their sum, its one digest, its piece length, its mirror and its tracker |
| TorrentExample.Parsed | src/bencode.c:148-184 | the bytes of that torrent are parsed into its tree |
| Sha1.MacroIsRound | src/sha1.c:25-43 | a macro round with its register rotation is one step of FIPS 180-4, section 6.1.2 |
| Sha1.FiveRounds | src/sha1.c:70-104 | five unrolled rounds are five standard steps |
| Sha1.ChoiceForms | src/sha1.c:25-28 | the source's form of Ch equals the standard's |
| Sha1.MajorityForms | src/sha1.c:35-38 | the source's form of Maj equals the standard's |
| Sha1.Context.constructor | src/sha1.c:113-121 | an empty message |
| Sha1.Context.Schedule | src/sha1.c:51-62 | the eighty words of the message schedule |
| Sha1.Context.RoundGroup | src/sha1.c:70-104 | twenty rounds of one group |
| Sha1.Context.Transform | src/sha1.c:45-111 | one block compressed as the standard says |
| Sha1.Context.Update | src/sha1.c:123-155 | any piece of data is appended to the message, whatever is buffered |
| Sha1.Context.PadTo56 | src/sha1.c:162-183 | one bit, zeros, and an extra block when the length does not fit |
| Sha1.Context.StoreLength | src/sha1.c:185-193 | the bit length as eight big-endian bytes |
| Sha1.Context.Final | src/sha1.c:157-204 | the digest of the message as FIPS 180-4 defines it, in all padding cases |
| Sha1.PadShape | src/sha1.c:162-193 | what the buffer holds is the padding of section 5.1.1 |
| Sha1.LengthField | src/sha1.c:185-193 | the two counters of the context give the 64-bit length |
| Sha1.Sha1Hash | src/sha1.c:206-213 | the digest of FIPS 180-4 as Sha1Spec defines it |
| Sha1.HashChunks | src/sha1.c:123-204 | the same for every split of the message into updates |
| Sha1Vectors.AbcDigest | src/sha1.c:206-213 | the digest of abc is A9993E36 4706816A BA3E2571 7850C26C 9CD0D89D |
| Sha1Vectors.RoundConstants | src/sha1.c:19-22 | the four round constants are the square roots of 2, 3, 5 and 10 times 2^30, rounded down |
| Sha1Vectors.InitialBytes | src/sha1.c:113-121 | the five initial words, byte by byte |
| Sha1Vectors.Chaining | src/sha1.c:45-111 | the hash value of a longer message is that of the shorter plus what eighty rounds over the next block make of it, word by word |
| Sha1Vectors.Padding | src/sha1.c:157-193 | a message is followed by 128, the fewest zeros and its length in bits as eight heaviest-first bytes, to a multiple of 64 |
| BencodeProofs.ValueAt | src/bencode.c:148-172 | wherever an encoded tree stands, the parser returns it and stops right behind it |
| BencodeProofs.ParseEncode | src/bencode.c:174-184 | parsing an encoded tree followed by anything gives the tree |
| BencodeProofs.EncodeInjective | src/bencode.c:296-336 | the encoding is self-delimiting and injective |
| BencodeProofs.ParseEncodeParse | src/bencode.c:174-184 | encoding what was parsed and parsing again gives the same tree |
| BencodeProofs.ParsedWellFormed | src/bencode.c:148-172 | a parsed tree fits the C types |
| BencodeProofs.ScannedValue | src/bencode.c:148-172 | on strictly written input the parser ends where the BEP 3 grammar does and re-encoding gives the input bytes |
| BencodeProofs.ExactIffCanonical | src/bencode.c:148-172 | re-encoding a parsed value is exact if and only if its bytes are strictly written |
| BencodeProofs.LeadingZeroIsLost | src/bencode.c:51-73 | i01e is parsed as 1 and comes back as i1e |
| BencodeProofs.SubValueSpan | src/bencode.c:98-172 | re-encoding any sub-value of a strictly written value gives the bytes at its place |
| Bencode.ParseState.ParseInteger | src/bencode.c:51-73 | value and position, malformed integers included |
| Bencode.ParseState.ParseText | src/bencode.c:75-96 | string and position, or failure |
| Bencode.ParseState.ParseList | src/bencode.c:98-115 | items and position, or failure |
| Bencode.ParseState.ParseDict | src/bencode.c:117-146 | entries and position, or failure |
| Bencode.ParseState.ParseNode | src/bencode.c:148-172 | tree and position, or failure |
| Bencode.BcodeParse | src/bencode.c:174-184 | the tree of the first value |
| Bencode.BcodeDictGet | src/bencode.c:186-201 | the value of the first entry with the key |
| Bencode.OutBuffer.Ensure | src/bencode.c:249-259 | room for the bytes, contents unchanged |
| Bencode.OutBuffer.Append | src/bencode.c:261-268 | the bytes are appended |
| Bencode.OutBuffer.EncodeText | src/bencode.c:270-279 | a string is appended in BEP 3 form |
| Bencode.OutBuffer.EncodeInteger | src/bencode.c:281-294 | an integer is appended in BEP 3 form |
| Bencode.OutBuffer.EncodeNode | src/bencode.c:296-336 | a tree is appended in BEP 3 form |
| Bencode.BcodeEncode | src/bencode.c:338-352 | the encoding of a tree |
| BencodeVectors.IntegerRead | src/bencode.c:51-73 | i, an optional minus, decimal digits and e are that number; without the e it is zero and ends at the offending byte |
| BencodeVectors.NumberWritten | src/bencode.c:281-294 | numbers are written in decimal without leading zeros |
| BencodeVectors.IntegerWritten | src/bencode.c:281-294 | integers stand between i and e with a minus sign if negative |
| BencodeVectors.Unreadable | src/bencode.c:148-172 | other first bytes, a string that is too short, and lists and dictionaries without their end give nothing |
| PeerWireSpec.DecodeIff | src/peer_wire.c:94-215 | the decoder finds an event exactly if the stream begins with a message the grammar of BEP 3 allows for it |
| PeerWireSpec.DecodeExtends | src/peer_wire.c:103-116 | a verdict never changes when more bytes arrive |
| PeerWire.ConsumesFrameIff | src/peer_wire.c:199-213 | a call consumes its whole frame if and only if the allocation succeeds or there is nothing to skip |
| PeerWire.SkippingCanFail | src/peer_wire.c:206-213 | a concrete stream where a failed allocation makes a payload appear as a message |
| PeerWire.AlwaysContinues | src/peer_wire.c:94-215 | after any arrivals, a close and any polls that have memory or nothing to allocate, what was delivered continues with the decoding of the rest to the decoding of the whole |
| PeerWire.FragmentationIndependence | src/peer_wire.c:103-116 | whenever such a connection is quiet exactly the events of the whole stream were delivered, however it was cut; it was dropped only for a wrong message or after a close |
| PeerWire.EveryEventArrives | src/peer_wire.c:94-215 | once bytes stop arriving, polling delivers the whole stream |
| PeerWire.Socket.RecvExact | src/net_utils.c:108-127 | exactly the next bytes, in chunks of any size, if that many arrive, and failure otherwise |
| PeerWire.Socket.RecvEvent | src/peer_wire.c:94-215 | result, event and consumption of one call, polling or waiting; result 2 consumes nothing; data fits the buffer of 256 KiB |
| PeerWire.Socket.RecvBody | src/peer_wire.c:134-214 | the part behind the length prefix, complete or cut off |
| PeerWire.Socket.RecvPiece | src/peer_wire.c:170-196 | a block message, the empty block and the cut-off one included |
| PeerWire.Socket.SendAll | src/net_utils.c:89-106 | the bytes are sent, or a beginning of them on failure |
| PeerWire.Socket.SendInterested | src/peer_wire.c:65-74 | sends one frame that the grammar reads as interested |
| PeerWire.Socket.SendRequest | src/peer_wire.c:76-92 | sends one request frame whose fields read back as given |
| WireFrames.FrameIs | src/peer_wire.c:94-215 | what every stream is read as, in numbers: four bytes of length up to 262153, then one byte that tells a state change, HAVE, bitfield, block or something to skip, each with its length rule |
| WireFrames.SentFrames | src/peer_wire.c:65-92 | the interested message is 0 0 0 1 2; a request is 0 0 0 13 6 and three numbers |
| WireFrames.PollIs | src/peer_wire.c:94-215 | 0 for a block, 1 for another message, 2 for an incomplete frame, -1 for an invalid one or a closed connection, and how many bytes each takes |
| WireFrames.WaitIs | src/peer_wire.c:117-214 | a call with a timeout takes a whole frame like a poll and fails on a partial one, but for a payload to skip |
| TileState.ContainsVersion | src/tile_state.c:20-37 | true if and only if a needle of 1 to 8191 bytes occurs in the file, for every chunking of the reads |
| TileState.WindowDecides | src/tile_state.c:27-34 | a window with its carried end shows every occurrence that ends in it |
| TileState.FindInWindow | src/tile_state.c:29-31 | the comparison loop finds the needle exactly if it is in the window |
| UrlCoding.DecodeEncode | src/net_utils.c:158-178 | decoding undoes either encoder for every byte string, whatever follows |
| UrlCoding.EncodeInjective | src/net_utils.c:158-178 | different inputs are encoded differently |
| UrlCoding.EncodeAlphabet | src/net_utils.c:163-174 | only unreserved characters, percent signs and slashes are written |
| UrlCoding.UrlEncode | src/net_utils.c:158-178 | the output is terminated and decodes to the input |
| UrlCoding.AppendUrlPath | src/web_seed.c:12-35 | succeeds if and only if address and terminator fit, and then the escaped path decodes to the path |
| UrlCoding.UrlDecode | src/http_server.c:77-94 | the in-place loop leaves the decoding of the old text, terminated, and nothing behind it changes |
| UrlVectors.Written | src/net_utils.c:158-178 | letters, digits, - . _ ~ are kept, in a path also the slash; every other byte is a percent sign and two digits, small in a query and capital in a path |
| UrlVectors.SlashBetween | src/web_seed.c:12-20 | one slash stands between base and path |
| UrlVectors.PairRead | src/http_server.c:81-84 | two hexadecimal digits are their number; one digit in front of anything, or behind a space or sign, is what strtol makes of it; all else is zero |
| UrlVectors.CharacterRead | src/http_server.c:77-94 | a percent sign takes two characters if there are two, a plus is a space, others are themselves |
| UrlVectors.FormWritten | src/http_server.c:96-126 | two pairs are written as a=1&b=%20x |
| FormLookup.GetParam | src/http_server.c:96-126 | found if and only if the key and an equals sign stand at the front or behind a separator, with the value of the first place, cut to the buffer and decoded; in a serialised list of pairs a name is found if and only if a pair has it, and the first one's value is left if its coding fits |
| FormLookup.CopyValue | src/http_server.c:111-119 | the value up to the separator, cut to the buffer, then decoded |
| FormLookup.LookupInPairs | src/http_server.c:96-126 | in a serialised list of pairs exactly the first pair with the name is found |
| FormLookup.LookupReturnsFirstValue | src/http_server.c:96-126 | any such answer about a serialised list names the first pair with the name and gives its value whenever the coded value fits |
| FormLookup.SerialisedIsText | src/http_server.c:96-103 | a serialised list and a coded name contain no terminator, so the lookup sees all of them |
| FormLookup.PlainNameIsItself | src/http_server.c:108-109 | a key of unreserved characters, as the callers pass, is its own coding |

## Left out

- PeerWire.AlwaysContinues: a run may poll without memory only when the frame at the front needs none; behind a poll that breaks this guard the stream is out of step, as PeerWire.SkippingCanFail shows, and nothing is promised.
- Bencode.ParseState.ParseText: the position plus the string length is taken without wrap-around of the size type; the length itself does wrap around.
- Bencode.ParseState.ParseInteger: signed overflow, undefined in C, is taken as wrap-around; the proofs about exact spans only use integers that fit.
- Bencode.ParseState.ParseNode: node allocation always succeeds and recursion depth is unbounded.
- PeerWire.Socket.RecvEvent: the caller passes a data buffer, and an allocation of zero bytes fails or succeeds like any other; errors of the system calls and a frame that exceeds the receive buffer of the system are outside.
- FormLookup.GetParam: the buffer has at least one byte, as every caller provides; a length of zero would wrap around in C.
- UrlCoding.AppendUrlPath: the base is not empty, since the code reads its last character.
- UrlCoding.UrlEncode: the output has room for three characters a byte and the terminator, which the callers provide and the code does not check.
- TileState.ContainsVersion: the file could be opened and no read fails.
- WebSeed.FetchRange: address parsing, name resolution, connection and the sending of the request either work or leave an empty stream; a mirror that answers 206 is taken to send its file from the requested offset on, since the code does not look at Content-Range.
- HttpRange.ReadHeader: a status number beyond the range of an int, undefined in sscanf, is taken as it stands.
- FileIo.FileWriter.WritePiece: path checks, directories and open files appear as success or failure of the system; their texts are not modelled.
- TorrentParse.TorrentParseBytes: allocation always succeeds; names, paths and addresses themselves are not kept, only what the engine reads.
- TorrentMgr.TorrentManager.AddTorrent: the piece indices of a parsed torrent fit an int; the parsing of a magnet URI itself is not part of this model.
- TorrentMgr.TorrentManager.Tick: the workers act between the steps of the collecting loops and between ticks, but not inside the scheduling half; the step functions and all theorems allow any interleaving. Clocks and intervals appear only as what they decide, in `TickSpec.Surroundings`; so do the messages of a peer, whose wire events are handed over type by type.
- TorrentMgr.TorrentManager.TryCandidate: whether the retry time has come is given, as are all time-outs and announce intervals.
- PieceMgr.PieceManager.Complete: the class is the array form of the piece table; the engine embeds the table as a value, since the source embeds the struct.
- The steps let the scheduling half run for a torrent in ERROR at any time; the source does so only in the tick that set ERROR. The theorems therefore cover more runs than the source has.
- Managed torrents are values in a sequence, as the source keeps structs in an array; their files are separate per torrent, so two torrents that save to the same path, or two entries of one torrent with the same path, would alias outside this model.
- Wrap-around of the 64-bit generation counter and a second call of torrent_mgr_init.
- Progress, speed, error texts, peer status, JSON status and logging: no hard property.
- The HTTP server loop, uploads, multipart bodies, directory listings, storage paths and the handshake of the peer protocol: glue around the system.
- Tracker announces over HTTP and UDP, name resolution and sockets: network plumbing, present only as what workers deliver.
- The libtorrent backend, the PS5 system calls, the user interface and packaging: wrappers over libraries that are not part of this model.
