/** One run of the engine from its start to a lost reservation: a peer whose write fails
    sets ERROR while a web-seed job is still in flight. */
module EngineWitness {
  import opened Bytes
  import opened Torrent
  import opened PieceMgr
  import opened EngineTypes
  import opened EngineSteps
  import opened EngineInvariants
  import opened EngineFrames
  import opened EnginePeers
  import opened EngineTheorems
  import opened EngineReservations
  import Sha1Spec
  import Bitfield
  import FileIo

  const ADDRESS: Addr := Addr(1, 1)

  /** Two pieces of one byte each, 7 and 8, with a web seed and a tracker. */
  function TwoPieces(): (t: Metainfo)
    ensures t.NumPieces() == 2 && t.ExpectedHash(0) == Sha1Spec.Digest([7])
  {
    hide Sha1Spec.Digest;
    var t := Metainfo([], 1, Sha1Spec.Digest([7]) + Sha1Spec.Digest([8]), 2, false, [], 1, true);
    assert t.pieces[0..20] == Sha1Spec.Digest([7]);
    t
  }

  function TableWith(a: PieceState, b: PieceState): PieceTable {
    InitialTable(TwoPieces()).(states := [a, b])
  }

  function TorrentWith(state: TorrentState, table: PieceTable, candidates: seq<Candidate>, peers: seq<Peer>,
                       active: int): Managed {
    Managed(1, state, TwoPieces(), Some(table), 0, true, [[]], peers, active, candidates, 0, 0)
  }

  function Known(connecting: bool): seq<Candidate> {
    [Candidate(ADDRESS, 0, connecting)]
  }

  function PeerWith(choked: bool, have: Option<seq<byte>>, assembly: Option<Assembly>, pending: nat): seq<Peer> {
    [Peer(Some(7), ADDRESS, choked, have, assembly, pending)]
  }

  /** One torrent, and nothing in the job tables beyond their first slots. */
  ghost predicate At(w: World, mt: Managed, web: Option<WebJob>, conn: Option<ConnJob>, disc: Option<DiscJob>,
                     bytes: int, open: set<nat>) {
    && w.torrents == [mt]
    && |w.web| == WEB_SEED_MAX_JOBS && w.web[0] == web && (forall j :: 1 <= j < |w.web| ==> w.web[j].None?)
    && |w.conn| == PEER_CONNECT_MAX_JOBS && w.conn[0] == conn && (forall j :: 1 <= j < |w.conn| ==> w.conn[j].None?)
    && |w.disc| == MAX_TORRENTS && w.disc[0] == disc && (forall j :: 1 <= j < |w.disc| ==> w.disc[j].None?)
    && w.assemblyBytes == bytes && w.open == open
  }

  lemma AtFacts(w: World, mt: Managed, web: Option<WebJob>, conn: Option<ConnJob>, disc: Option<DiscJob>,
                bytes: int, open: set<nat>)
    requires At(w, mt, web, conn, disc, bytes, open)
    ensures w.torrents == [mt] && w.assemblyBytes == bytes && w.open == open
    ensures |w.web| == WEB_SEED_MAX_JOBS && w.web[0] == web
    ensures |w.conn| == PEER_CONNECT_MAX_JOBS && w.conn[0] == conn
    ensures |w.disc| == MAX_TORRENTS && w.disc[0] == disc
  {
  }

  lemma AtTorrent(w: World, mt: Managed, web: Option<WebJob>, conn: Option<ConnJob>, disc: Option<DiscJob>,
                  bytes: int, open: set<nat>, mt': Managed)
    requires At(w, mt, web, conn, disc, bytes, open)
    ensures |w.torrents| == 1 && At(SetTorrent(w, 0, mt'), mt', web, conn, disc, bytes, open)
  {
  }

  lemma AtConn(w: World, mt: Managed, web: Option<WebJob>, conn: Option<ConnJob>, disc: Option<DiscJob>,
               bytes: int, open: set<nat>, job: Option<ConnJob>)
    requires At(w, mt, web, conn, disc, bytes, open)
    ensures |w.conn| > 0 && At(w.(conn := w.conn[0 := job]), mt, web, job, disc, bytes, open)
  {
  }

  lemma AtWeb(w: World, mt: Managed, web: Option<WebJob>, conn: Option<ConnJob>, disc: Option<DiscJob>,
              bytes: int, open: set<nat>, job: Option<WebJob>)
    requires At(w, mt, web, conn, disc, bytes, open)
    ensures |w.web| > 0 && At(w.(web := w.web[0 := job]), mt, job, conn, disc, bytes, open)
  {
  }

  lemma AtDisc(w: World, mt: Managed, web: Option<WebJob>, conn: Option<ConnJob>, disc: Option<DiscJob>,
               bytes: int, open: set<nat>, job: Option<DiscJob>)
    requires At(w, mt, web, conn, disc, bytes, open)
    ensures |w.disc| > 0 && At(w.(disc := w.disc[0 := job]), mt, web, conn, job, bytes, open)
  {
  }

  lemma AtBytes(w: World, mt: Managed, web: Option<WebJob>, conn: Option<ConnJob>, disc: Option<DiscJob>,
                bytes: int, open: set<nat>, bytes': int)
    requires At(w, mt, web, conn, disc, bytes, open)
    ensures At(w.(assemblyBytes := bytes'), mt, web, conn, disc, bytes', open)
  {
  }

  lemma AtOpen(w: World, mt: Managed, web: Option<WebJob>, conn: Option<ConnJob>, disc: Option<DiscJob>,
               bytes: int, open: set<nat>, open': set<nat>)
    requires At(w, mt, web, conn, disc, bytes, open)
    ensures At(w.(open := open'), mt, web, conn, disc, bytes, open')
  {
  }

  // ----- from the start to a connected peer ---------------------------------------

  function Idle0(): Managed {
    TorrentWith(DOWNLOADING, TableWith(FREE, FREE), [], [], 0)
  }

  lemma Started0()
    ensures At(Run(INITIAL_WORLD, [EvAdd(TwoPieces(), [[]]), EvStart(0, Started)]), Idle0(), None, None, None, 0, {})
  {
    hide Sha1Spec.Digest, TwoPieces, Add, Start;
    var meta := TwoPieces();
    var add, start := EvAdd(meta, [[]]), EvStart(0, Started);
    RunMore(INITIAL_WORLD, [], add);
    RunMore(INITIAL_WORLD, [add], start);
    assert [] + [add] == [add] && [add] + [start] == [add, start];
    TwoPiecesAdmissible();
    Added0();
    assert Apply(INITIAL_WORLD, add) == Add(INITIAL_WORLD, meta, [[]]);
  }

  lemma TwoPiecesAdmissible()
    ensures Admissible(TwoPieces(), [[]])
  {
    hide Sha1Spec.Digest;
    var t := TwoPieces();
    assert t.OutputLengths() == [2];
    assert [2][1..] == [];
    assert Sum([2]) == 2 + Sum([2][1..]);
  }

  lemma Added0()
    ensures At(Start(Add(INITIAL_WORLD, TwoPieces(), [[]]), 0, Started), Idle0(), None, None, None, 0, {})
  {
    hide Sha1Spec.Digest, TwoPieces;
    var meta := TwoPieces();
    var w := Add(INITIAL_WORLD, meta, [[]]);
    assert w.torrents == [Managed(1, STOPPED, meta, None, 0, false, [[]], [], 0, [], 0, 0)];
    assert InitialTable(meta).states == [FREE, FREE];
    OneFile();
  }

  lemma OneFile()
    ensures FileIo.InitialFiles(TwoPieces(), [[]]) == [[]]
  {
    hide Sha1Spec.Digest;
  }

  function Asking(queue: seq<Addr>, phase: Phase, accepted: seq<Addr>, drained: seq<Addr>): Option<DiscJob> {
    Some(DiscJob(1, queue, false, phase, accepted, drained))
  }

  lemma AskTracker(w: World)
    requires At(w, Idle0(), None, None, None, 0, {})
    ensures At(Apply(w, EvScheduleDiscovery(0, 0, true)), Idle0(), None, None, Asking([], Idle, [], []), 0, {})
  {
    hide Sha1Spec.Digest;
    assert !HasDiscovery(w.disc, 1);
  }

  lemma TrackerAnswers(w: World)
    requires At(w, Idle0(), None, None, Asking([], Idle, [], []), 0, {})
    ensures At(Apply(w, EvDiscPublishes(0, [ADDRESS])), Idle0(), None, None, Asking([ADDRESS], Idle, [ADDRESS], []), 0, {})
  {
    hide At, Idle0, Publish;
    AtFacts(w, Idle0(), None, None, Asking([], Idle, [], []), 0, {});
    OneQueued();
    Behind([], [ADDRESS]);
    AtDisc(w, Idle0(), None, None, Asking([], Idle, [], []), 0, {}, Asking([ADDRESS], Idle, [ADDRESS], []));
  }

  lemma Behind<T>(a: seq<T>, b: seq<T>)
    ensures [] + (a + b)[|a|..] == b
  {
  }

  lemma OneQueued()
    ensures Publish([], [ADDRESS]) == [ADDRESS]
  {
    assert [ADDRESS][1..] == [];
    assert Publish([] + [ADDRESS], [ADDRESS][1..]) == [ADDRESS];
  }

  lemma Look(w: World)
    requires At(w, Idle0(), None, None, Asking([ADDRESS], Idle, [ADDRESS], []), 0, {})
    ensures At(Apply(w, EvReadDone(0)), Idle0(), None, None, Asking([ADDRESS], DoneRead(false), [ADDRESS], []), 0, {})
  {
    hide At, Idle0;
    var was := Asking([ADDRESS], Idle, [ADDRESS], []);
    AtFacts(w, Idle0(), None, None, was, 0, {});
    AtDisc(w, Idle0(), None, None, was, 0, {}, Asking([ADDRESS], DoneRead(false), [ADDRESS], []));
  }

  function WithCandidate(connecting: bool): Managed {
    TorrentWith(DOWNLOADING, TableWith(FREE, FREE), Known(connecting), [], 0)
  }

  function Asked(): Option<DiscJob> {
    Asking([], Idle, [ADDRESS], [ADDRESS])
  }

  function Emptied(): Option<DiscJob> {
    Asking([], Drained(false), [ADDRESS], [ADDRESS])
  }

  lemma Learnt(w: World)
    requires At(w, Idle0(), None, None, Asking([ADDRESS], DoneRead(false), [ADDRESS], []), 0, {})
    ensures At(Apply(w, EvDrain(0)), WithCandidate(false), None, None, Emptied(), 0, {})
  {
    hide At, Idle0, AddCandidates, WithCandidate;
    var ask := Asking([ADDRESS], DoneRead(false), [ADDRESS], []);
    AtFacts(w, Idle0(), None, None, ask, 0, {});
    IdleLives(w);
    OneAdded();
    Behind([], [ADDRESS]);
    AtTorrent(w, Idle0(), None, None, ask, 0, {}, WithCandidate(false));
    AtDisc(SetTorrent(w, 0, WithCandidate(false)), WithCandidate(false), None, None, ask, 0, {}, Emptied());
    assert [] + [ADDRESS] == [ADDRESS];
  }

  lemma Rests(w: World)
    requires At(w, WithCandidate(false), None, None, Emptied(), 0, {})
    ensures At(Apply(w, EvFreeIfDone(0)), WithCandidate(false), None, None, Asked(), 0, {})
  {
    hide At, WithCandidate;
    AtFacts(w, WithCandidate(false), None, None, Emptied(), 0, {});
    AtDisc(w, WithCandidate(false), None, None, Emptied(), 0, {}, Asked());
  }

  lemma IdleLives(w: World)
    requires w.torrents == [Idle0()]
    ensures FindLive(w, 1, 1) == Some(0)
  {
    hide TwoPieces, TableWith;
    LiveIsZero(w);
  }

  lemma OneAdded()
    ensures AddCandidates(Idle0(), [ADDRESS]) == WithCandidate(false)
  {
    hide TwoPieces, TableWith;
    assert [ADDRESS][..0] == [];
    assert AddCandidates(Idle0(), []) == Idle0();
    assert FindCandidate([], ADDRESS) == 0;
    assert [] + Known(false) == Known(false);
    assert AddCandidate(Idle0(), ADDRESS) == WithCandidate(false);
  }

  /** The only torrent is the live one of generation 1. */
  lemma LiveIsZero(w: World)
    requires |w.torrents| == 1 && w.torrents[0].generation == 1 && w.torrents[0].state == DOWNLOADING
    ensures FindLive(w, 1, 1) == Some(0)
  {
  }

  lemma Dials(w: World)
    requires At(w, WithCandidate(false), None, None, Asked(), 0, {})
    ensures At(Apply(w, EvScheduleConn(0, true, true)), WithCandidate(true), None,
               Some(ConnJob(1, ADDRESS, None, false)), Asked(), 0, {})
  {
    hide At, WithCandidate, ConnPending, TorrentWith;
    var m := WithCandidate(false);
    AtFacts(w, m, None, None, Asked(), 0, {});
    NoneDialling(w, m, Asked());
    CandidateFacts();
    assert Known(false)[0 := Candidate(ADDRESS, 0, true)] == Known(true);
    assert ScheduleConn(w, 0, true, true) ==
           SetTorrent(w, 0, WithCandidate(true)).(conn := w.conn[0 := Some(ConnJob(1, ADDRESS, None, false))]);
    AtTorrent(w, m, None, None, Asked(), 0, {}, WithCandidate(true));
    AtConn(SetTorrent(w, 0, WithCandidate(true)), WithCandidate(true), None, None, Asked(), 0, {},
           Some(ConnJob(1, ADDRESS, None, false)));
  }

  lemma CandidateFacts()
    ensures var m := WithCandidate(false);
            && m.generation == 1 && m.state == DOWNLOADING && m.table.Some? && m.candidates == Known(false)
            && m.peers == [] && m.active == 0 && m.nextCandidate == 0
            && m.(nextCandidate := 0, candidates := Known(true)) == WithCandidate(true)
  {
    hide TwoPieces, TableWith;
  }

  lemma NoneDialling(w: World, mt: Managed, disc: Option<DiscJob>)
    requires At(w, mt, None, None, disc, 0, {})
    ensures ConnPending(w.conn, 1) == 0 && FreeSlot(w.conn) == Some(0)
  {
    forall j: nat
      ensures !MyConn(w.conn, j, 1)
    {
    }
    ConnPendingZero(w.conn, 1);
  }

  lemma Opens(w: World)
    requires At(w, WithCandidate(true), None, Some(ConnJob(1, ADDRESS, None, false)), Asked(), 0, {})
    ensures At(Apply(w, EvConnOpens(0, 7)), WithCandidate(true), None,
               Some(ConnJob(1, ADDRESS, Some(7), false)), Asked(), 0, {7})
  {
    hide At, Apply, WithCandidate, Asked;
    var m, was := WithCandidate(true), Some(ConnJob(1, ADDRESS, None, false));
    AtFacts(w, m, None, was, Asked(), 0, {});
    ConnWorkerSteps(w, 0, 7);
    assert {} + {7} == {7};
    AtConn(w, m, None, was, Asked(), 0, {}, Some(ConnJob(1, ADDRESS, Some(7), false)));
    AtOpen(w.(conn := w.conn[0 := Some(ConnJob(1, ADDRESS, Some(7), false))]), m, None,
           Some(ConnJob(1, ADDRESS, Some(7), false)), Asked(), 0, {}, {7});
  }

  lemma ShakesHands(w: World)
    requires At(w, WithCandidate(true), None, Some(ConnJob(1, ADDRESS, Some(7), false)), Asked(), 0, {7})
    ensures At(Apply(w, EvConnSucceeds(0)), WithCandidate(true), None,
               Some(ConnJob(1, ADDRESS, Some(7), true)), Asked(), 0, {7})
  {
    hide At, Apply, WithCandidate, Asked;
    var m, was := WithCandidate(true), Some(ConnJob(1, ADDRESS, Some(7), false));
    AtFacts(w, m, None, was, Asked(), 0, {7});
    ConnWorkerSteps(w, 0, 7);
    AtConn(w, m, None, was, Asked(), 0, {7}, Some(ConnJob(1, ADDRESS, Some(7), true)));
  }

  function Working(a: PieceState, b: PieceState, peers: seq<Peer>): Managed {
    TorrentWith(DOWNLOADING, TableWith(a, b), Known(false), peers, 1)
  }

  lemma Connects(w: World)
    requires At(w, WithCandidate(true), None, Some(ConnJob(1, ADDRESS, Some(7), true)), Asked(), 0, {7})
    ensures At(Apply(w, EvCollectConn(0)), Working(FREE, FREE, PeerWith(true, None, None, 0)), None, None, Asked(), 0, {7})
  {
    hide TwoPieces, TableWith, CollectConnInto, FindLive, Add, Start, Stop, Remove, CollectWeb, ReadDone, Drain,
         FreeIfDone, CheckDone, ScheduleDiscovery, TimeOut, Recv, Request, ScheduleConn, ScheduleWeb, WebWorker,
         ConnOpens, ConnSucceeds, ConnFails, DiscPublishes, DiscFinishes;
    LiveIsZero(w);
    BecomesPeer();
  }

  lemma BecomesPeer()
    ensures CollectConnInto(WithCandidate(true), ConnJob(1, ADDRESS, Some(7), true)) ==
            (Working(FREE, FREE, PeerWith(true, None, None, 0)), true)
  {
    hide Adopt, ClearConnecting, RecordFailure, TableWith, Known;
    ClearedKnown();
    FirstPeer();
  }

  lemma ClearedKnown()
    ensures ClearConnecting(Known(true), ADDRESS) == Known(false)
  {
    assert FindCandidate(Known(true), ADDRESS) == 0;
  }

  lemma FirstPeer()
    ensures Adopt(WithCandidate(false), 7, ADDRESS) == (Working(FREE, FREE, PeerWith(true, None, None, 0)), true)
  {
    hide TableWith, Known;
    assert [] + [EmptyPeer(7, ADDRESS)] == PeerWith(true, None, None, 0);
    assert !Connected([], ADDRESS);
  }

  // ----- the piece and the failed write ----------------------------------------------

  lemma HasBoth(w: World)
    requires At(w, Working(FREE, FREE, PeerWith(true, None, None, 0)), None, None, Asked(), 0, {7})
    ensures At(Apply(w, EvRecv(0, 0, BitfieldMsg([192]), true, WriteOutcome([[]], false))),
               Working(FREE, FREE, PeerWith(true, Some([192]), None, 0)), None, None, Asked(), 0, {7})
  {
    hide TwoPieces, TableWith, Disconnect, Receive, Add, Start, Stop, Remove, CollectWeb, ReadDone, Drain, FreeIfDone,
         CollectConn, CheckDone, ScheduleDiscovery, TimeOut, Request, ScheduleConn, ScheduleWeb, WebWorker, ConnOpens,
         ConnSucceeds, ConnFails, DiscPublishes, DiscFinishes;
    assert BitfieldBytes(TwoPieces()) == 1;
    assert PeerActive(w, 0, 0);
    assert Learn(w, 0, 0, BitfieldMsg([192]), true).torrents[0].peers == PeerWith(true, Some([192]), None, 0);
  }

  lemma Unchokes(w: World)
    requires At(w, Working(FREE, FREE, PeerWith(true, Some([192]), None, 0)), None, None, Asked(), 0, {7})
    ensures At(Apply(w, EvRecv(0, 0, Unchoke, true, WriteOutcome([[]], false))),
               Working(FREE, FREE, PeerWith(false, Some([192]), None, 0)), None, None, Asked(), 0, {7})
  {
    hide At, TwoPieces, TableWith, Disconnect, Receive, Learn, Add, Start, Stop, Remove, CollectWeb, ReadDone, Drain,
         FreeIfDone, CollectConn, CheckDone, ScheduleDiscovery, TimeOut, Request, ScheduleConn, ScheduleWeb, WebWorker,
         ConnOpens, ConnSucceeds, ConnFails, DiscPublishes, DiscFinishes;
    var m := Working(FREE, FREE, PeerWith(true, Some([192]), None, 0));
    AtFacts(w, m, None, None, Asked(), 0, {7});
    assert PeerActive(w, 0, 0);
    assert m.peers[0 := m.peers[0].(choked := false)] == PeerWith(false, Some([192]), None, 0);
    AtTorrent(w, m, None, None, Asked(), 0, {7}, Working(FREE, FREE, PeerWith(false, Some([192]), None, 0)));
  }

  function Fetching(): seq<Peer> {
    PeerWith(false, Some([192]), Some(Assembly(0, [0], 0, [])), 1)
  }

  lemma FirstPiece()
    ensures TableWith(FREE, FREE).GetNext(Some([192])) == 0
    ensures TableWith(REQUESTED, FREE).GetNext(None) == 1
  {
    hide Sha1Spec.Digest, TwoPieces;
    assert Bitfield.HasBit([192], 0);
    assert TableWith(FREE, FREE).FirstAvailable(Some([192]), 0) == 0;
    assert TableWith(REQUESTED, FREE).FirstAvailable(None, 1) == 1;
    assert TableWith(REQUESTED, FREE).FirstAvailable(None, 0) == TableWith(REQUESTED, FREE).FirstAvailable(None, 1);
  }

  lemma Asks(w: World)
    requires At(w, Working(FREE, FREE, PeerWith(false, Some([192]), None, 0)), None, None, Asked(), 0, {7})
    ensures At(Apply(w, EvRequest(0, 0, Some([0]), true)), Working(REQUESTED, FREE, Fetching()), None, None, Asked(), 1, {7})
  {
    hide At, TwoPieces, TableWith, SendRequest, PeerWith, Request, CollectConn, Add, Start, Stop, Remove,
         CollectWeb, ReadDone, Drain, FreeIfDone, CheckDone, ScheduleDiscovery, TimeOut, Recv, ScheduleConn, ScheduleWeb,
         WebWorker, ConnOpens, ConnSucceeds, ConnFails, DiscPublishes, DiscFinishes;
    var m := Working(FREE, FREE, PeerWith(false, Some([192]), None, 0));
    var m1 := Working(REQUESTED, FREE, PeerWith(false, Some([192]), Some(Assembly(0, [0], 0, [])), 0));
    RequestIs(w);
    AtTorrent(w, m, None, None, Asked(), 0, {7}, m1);
    AtBytes(SetTorrent(w, 0, m1), m1, None, None, Asked(), 0, {7}, 1);
    Sends(SetTorrent(w, 0, m1).(assemblyBytes := 1));
  }

  lemma RequestIs(w: World)
    requires At(w, Working(FREE, FREE, PeerWith(false, Some([192]), None, 0)), None, None, Asked(), 0, {7})
    ensures |w.torrents| == 1
    ensures var w1 := SetTorrent(w, 0, Working(REQUESTED, FREE,
                                               PeerWith(false, Some([192]), Some(Assembly(0, [0], 0, [])), 0)))
                      .(assemblyBytes := 1);
            PeerActive(w1, 0, 0) && w1.torrents[0].peers[0].assembly.Some?
            && Request(w, 0, 0, Some([0]), true) == SendRequest(w1, 0, 0, true)
  {
    hide At, TwoPieces, TableWith, Disconnect, SendRequest, PeerWith, Reserve;
    AtFacts(w, Working(FREE, FREE, PeerWith(false, Some([192]), None, 0)), None, None, Asked(), 0, {7});
    FirstPiece();
    SmallSizes();
    PeerFacts();
    Reserves(w);
  }

  lemma Reserves(w: World)
    requires At(w, Working(FREE, FREE, PeerWith(false, Some([192]), None, 0)), None, None, Asked(), 0, {7})
    ensures PeerActive(w, 0, 0) && w.torrents[0].table.Some?
    ensures 0 < |w.torrents[0].table.value.states|
    ensures Reserve(w, 0, 0, 0, [0]) ==
            SetTorrent(w, 0, Working(REQUESTED, FREE, PeerWith(false, Some([192]), Some(Assembly(0, [0], 0, [])), 0)))
            .(assemblyBytes := 1)
  {
    hide At, TwoPieces, TableWith, PeerWith;
    AtFacts(w, Working(FREE, FREE, PeerWith(false, Some([192]), None, 0)), None, None, Asked(), 0, {7});
    PeerFacts();
    RequestedTable();
    assert |TableWith(FREE, FREE).states| == 2 by { TwoStates(); }
  }

  lemma TwoStates()
    ensures TableWith(FREE, FREE).states == [FREE, FREE]
  {
    hide TwoPieces;
  }

  lemma RequestedTable()
    ensures TableWith(FREE, FREE).Request(0) == TableWith(REQUESTED, FREE)
  {
    hide TwoPieces;
    assert [FREE, FREE][0 := REQUESTED] == [REQUESTED, FREE];
  }

  lemma PeerFacts()
    ensures var p := PeerWith(false, Some([192]), None, 0);
            && |p| == 1 && p[0] == Peer(Some(7), ADDRESS, false, Some([192]), None, 0)
            && p[0 := p[0].(assembly := Some(Assembly(0, [0], 0, [])))]
                 == PeerWith(false, Some([192]), Some(Assembly(0, [0], 0, [])), 0)
  {
  }

  lemma Sends(w: World)
    requires At(w, Working(REQUESTED, FREE, PeerWith(false, Some([192]), Some(Assembly(0, [0], 0, [])), 0)), None, None,
                Asked(), 1, {7})
    ensures PeerActive(w, 0, 0) && w.torrents[0].peers[0].assembly.Some?
    ensures At(SendRequest(w, 0, 0, true), Working(REQUESTED, FREE, Fetching()), None, None, Asked(), 1, {7})
  {
    hide At, TwoPieces, TableWith;
    var m := Working(REQUESTED, FREE, PeerWith(false, Some([192]), Some(Assembly(0, [0], 0, [])), 0));
    AtFacts(w, m, None, None, Asked(), 1, {7});
    assert m.peers[0 := m.peers[0].(pending := 1)] == Fetching();
    AtTorrent(w, m, None, None, Asked(), 1, {7}, Working(REQUESTED, FREE, Fetching()));
  }

  lemma SmallSizes()
    ensures PeerPieceSize(TwoPieces(), 0) == 1 && TwoPieces().PieceSize(0) == 1 && TwoPieces().PieceSize(1) == 1
    ensures TwoPieces().webSeedCount == 1 && TwoPieces().hasTrackers
  {
    hide Sha1Spec.Digest;
  }

  function Job(data: seq<byte>, done: bool): Option<WebJob> {
    Some(WebJob(1, 0, TwoPieces(), 1, [1], data, done, done))
  }

  lemma SeedStarts(w: World)
    requires At(w, Working(REQUESTED, FREE, Fetching()), None, None, Asked(), 1, {7})
    ensures At(Apply(w, EvScheduleWeb(0, true, [0])), Working(REQUESTED, REQUESTED, Fetching()),
               Job([0], false), None, Asked(), 1, {7})
  {
    hide Sha1Spec.Digest, Add, Start, Stop, Remove, CollectWeb, ReadDone, Drain, FreeIfDone, CollectConn, CheckDone,
         ScheduleDiscovery, TimeOut, Recv, Request, ScheduleConn, WebWorker, ConnOpens, ConnSucceeds, ConnFails,
         DiscPublishes, DiscFinishes;
    FirstPiece();
    NoneActive(w.web, 1);
    var mt := w.torrents[0];
    OneInBatch(mt);
    assert BatchSizes(mt.meta, 1, 1) == [1];
    assert [1][1..] == [] && Sum([1]) == 1 + Sum([1][1..]);
    assert RequestRange(TableWith(REQUESTED, FREE), 1, 1).states == [REQUESTED, REQUESTED];
  }

  lemma {:induction false} NoneActive(web: seq<Option<WebJob>>, g: nat)
    requires forall j :: 0 <= j < |web| ==> web[j].None?
    ensures WebActive(web, g) == 0
  {
    if web != [] {
      NoneActive(web[..|web| - 1], g);
    }
  }

  lemma OneInBatch(mt: Managed)
    requires mt.meta == TwoPieces()
    ensures BatchCount(mt, TableWith(REQUESTED, FREE), 1, 0, 0) == 1
  {
    hide Sha1Spec.Digest;
    assert mt.meta.PieceSize(1) == 1;
    assert BatchCount(mt, TableWith(REQUESTED, FREE), 1, 1, 1) == 1;
  }

  /** The torrent in ERROR: the peer is closed and its piece free again. */
  function Broken(): Managed {
    TorrentWith(ERROR, TableWith(FREE, REQUESTED), Known(false), [Peer(None, ADDRESS, false, None, None, 0)], 0)
  }

  lemma WriteFails(w: World)
    requires At(w, Working(REQUESTED, REQUESTED, Fetching()), Job([0], false), None, Asked(), 1, {7})
    ensures At(Apply(w, EvRecv(0, 0, Piece(0, 0, [7]), true, WriteOutcome([[]], false))), Broken(),
               Job([0], false), None, Asked(), 0, {})
  {
    hide Apply, At, TwoPieces, TableWith, PeerWith, Receive, FinishPiece, Disconnect, Learn;
    RecvStep(w, 0, 0, Piece(0, 0, [7]), true, WriteOutcome([[]], false));
    var m := Working(REQUESTED, REQUESTED, Fetching());
    var full := Assembly(0, [7], 1, [[7]]);
    var m1 := Working(REQUESTED, REQUESTED, PeerWith(false, Some([192]), Some(full), 0));
    AtTorrent(w, m, Job([0], false), None, Asked(), 1, {7}, m1);
    AtFacts(w, m, Job([0], false), None, Asked(), 1, {7});
    LastBlockArrives(w, m, m1, Piece(0, 0, [7]), full, WriteOutcome([[]], false));
    LastStep(SetTorrent(w, 0, m1), full);
  }

  lemma LastBlockArrives(w: World, m: Managed, m1: Managed, msg: Message, full: Assembly, o: WriteOutcome)
    requires full == Assembly(0, [7], 1, [[7]]) && msg == Piece(0, 0, [7])
    requires m == Working(REQUESTED, REQUESTED, Fetching())
    requires m1 == Working(REQUESTED, REQUESTED, PeerWith(false, Some([192]), Some(full), 0))
    requires w.torrents == [m]
    ensures PeerActive(w, 0, 0)
    ensures PeerActive(SetTorrent(w, 0, m1), 0, 0) && SetTorrent(w, 0, m1).torrents[0].peers[0].assembly.Some?
    ensures Receive(w, 0, 0, msg, o) == FinishPiece(SetTorrent(w, 0, m1), 0, 0, o)
  {
    hide TwoPieces, TableWith, Receive, FinishPiece, Append, PeerWith, Fetching, Working, SetPeer;
    FetchingFacts(full);
    WorkingPeer(Fetching(), Fetching()[0].(assembly := Some(full), pending := 0));
    ReceivesLast(w, msg, o);
  }

  lemma WorkingPeer(peers: seq<Peer>, peer: Peer)
    requires |peers| == 1
    ensures Working(REQUESTED, REQUESTED, peers).peers == peers && Working(REQUESTED, REQUESTED, peers).state == DOWNLOADING
    ensures SetPeer(Working(REQUESTED, REQUESTED, peers), 0, peer) == Working(REQUESTED, REQUESTED, peers[0 := peer])
  {
  }

  lemma ReceivesLast(w: World, msg: Message, o: WriteOutcome)
    requires PeerActive(w, 0, 0) && msg.Piece? && Expected(w.torrents[0].peers[0], msg)
    requires var peer := w.torrents[0].peers[0];
             |msg.block| == peer.pending && peer.assembly.value.received + |msg.block| == |peer.assembly.value.buffer|
    ensures var peer := w.torrents[0].peers[0];
            var w1 := SetTorrent(w, 0, SetPeer(w.torrents[0], 0,
                        peer.(assembly := Some(Append(peer.assembly.value, msg.block)), pending := 0)));
            && PeerActive(w1, 0, 0) && w1.torrents[0].peers[0].assembly.Some?
            && Receive(w, 0, 0, msg, o) == FinishPiece(w1, 0, 0, o)
  {
    hide FinishPiece, Disconnect;
  }

  lemma FetchingFacts(full: Assembly)
    requires full == Assembly(0, [7], 1, [[7]])
    ensures var p := Fetching();
            && |p| == 1 && p[0] == Peer(Some(7), ADDRESS, false, Some([192]), Some(Assembly(0, [0], 0, [])), 1)
            && p[0 := p[0].(assembly := Some(full), pending := 0)] == PeerWith(false, Some([192]), Some(full), 0)
    ensures Append(Assembly(0, [0], 0, []), [7]) == full
  {
    assert [0][..0] + [7] + [0][0 + 1..] == [7] && [] + [[7]] == [[7]];
  }

  lemma LastStep(w: World, full: Assembly)
    requires full == Assembly(0, [7], 1, [[7]])
    requires At(w, Working(REQUESTED, REQUESTED, PeerWith(false, Some([192]), Some(full), 0)), Job([0], false), None,
                Asked(), 1, {7})
    requires PeerActive(w, 0, 0) && w.torrents[0].peers[0].assembly.Some?
    ensures At(FinishPiece(w, 0, 0, WriteOutcome([[]], false)), Broken(), Job([0], false), None, Asked(), 0, {})
  {
    hide TwoPieces, Disconnect, Outcome, Sha1Spec.Digest;
    var mt := w.torrents[0];
    assert HashMatches(mt.meta, 0, [7]) && TableShape(mt);
    OutcomeFails(mt);
    var w1 := SetTorrent(w, 0, mt.(files := [[]], state := ERROR));
    DisconnectForm(w1, 0, 0);
    assert TableWith(REQUESTED, REQUESTED).Release(0) == TableWith(FREE, REQUESTED) by {
      assert [REQUESTED, REQUESTED][0 := FREE] == [FREE, REQUESTED];
    }
    assert {7} - {7} == {};
    assert Disconnected(w1.torrents[0], 0) == Broken();
  }

  lemma OutcomeFails(mt: Managed)
    requires mt.files == [[]]
    ensures Outcome(mt, 0, [7], WriteOutcome([[]], false)) == WriteOutcome([[]], false)
  {
  }

  lemma SeedDelivers(w: World)
    requires At(w, Broken(), Job([0], false), None, Asked(), 0, {})
    ensures At(Apply(w, EvWebWorker(0, true, [8])), Broken(), Job([8], true), None, Asked(), 0, {})
  {
    hide At, Broken, TwoPieces, Asked;
    AtFacts(w, Broken(), Job([0], false), None, Asked(), 0, {});
    AtWeb(w, Broken(), Job([0], false), None, Asked(), 0, {}, Job([8], true));
  }

  // ----- the whole run ------------------------------------------------------------------

  function Failed(): WriteOutcome {
    WriteOutcome([[]], false)
  }

  function Connecting0(): seq<Event> {
    [EvAdd(TwoPieces(), [[]]), EvStart(0, Started)] + [EvScheduleDiscovery(0, 0, true)]
    + [EvDiscPublishes(0, [ADDRESS])] + [EvReadDone(0)] + [EvDrain(0)] + [EvFreeIfDone(0)] + [EvScheduleConn(0, true, true)]
    + [EvConnOpens(0, 7)] + [EvConnSucceeds(0)] + [EvCollectConn(0)]
  }

  function Failing0(): seq<Event> {
    Connecting0() + [EvRecv(0, 0, BitfieldMsg([192]), true, Failed())] + [EvRecv(0, 0, Unchoke, true, Failed())]
    + [EvRequest(0, 0, Some([0]), true)] + [EvScheduleWeb(0, true, [0])]
    + [EvRecv(0, 0, Piece(0, 0, [7]), true, Failed())] + [EvWebWorker(0, true, [8])]
  }

  lemma Connected0()
    ensures At(Run(INITIAL_WORLD, Connecting0()), Working(FREE, FREE, PeerWith(true, None, None, 0)), None, None,
               Asked(), 0, {7})
  {
    hide Run, Apply, At, TwoPieces, Idle0, WithCandidate, Working, Asked, Asking;
    Started0();
    var r := [EvAdd(TwoPieces(), [[]]), EvStart(0, Started)];
    AskTracker(Run(INITIAL_WORLD, r));
    RunMore(INITIAL_WORLD, r, EvScheduleDiscovery(0, 0, true));
    r := r + [EvScheduleDiscovery(0, 0, true)];
    TrackerAnswers(Run(INITIAL_WORLD, r));
    RunMore(INITIAL_WORLD, r, EvDiscPublishes(0, [ADDRESS]));
    r := r + [EvDiscPublishes(0, [ADDRESS])];
    Look(Run(INITIAL_WORLD, r));
    RunMore(INITIAL_WORLD, r, EvReadDone(0));
    r := r + [EvReadDone(0)];
    Learnt(Run(INITIAL_WORLD, r));
    RunMore(INITIAL_WORLD, r, EvDrain(0));
    r := r + [EvDrain(0)];
    Rests(Run(INITIAL_WORLD, r));
    RunMore(INITIAL_WORLD, r, EvFreeIfDone(0));
    r := r + [EvFreeIfDone(0)];
    Dials(Run(INITIAL_WORLD, r));
    RunMore(INITIAL_WORLD, r, EvScheduleConn(0, true, true));
    r := r + [EvScheduleConn(0, true, true)];
    Opens(Run(INITIAL_WORLD, r));
    RunMore(INITIAL_WORLD, r, EvConnOpens(0, 7));
    r := r + [EvConnOpens(0, 7)];
    ShakesHands(Run(INITIAL_WORLD, r));
    RunMore(INITIAL_WORLD, r, EvConnSucceeds(0));
    r := r + [EvConnSucceeds(0)];
    Connects(Run(INITIAL_WORLD, r));
    RunMore(INITIAL_WORLD, r, EvCollectConn(0));
  }

  lemma Broken0()
    ensures At(Run(INITIAL_WORLD, Failing0()), Broken(), Job([8], true), None, Asked(), 0, {})
  {
    hide Run, Apply, At, TwoPieces, Working, Asked, Broken, Connecting0, Fetching, PeerWith, Job;
    Connected0();
    var r := Connecting0();
    HasBoth(Run(INITIAL_WORLD, r));
    RunMore(INITIAL_WORLD, r, EvRecv(0, 0, BitfieldMsg([192]), true, Failed()));
    r := r + [EvRecv(0, 0, BitfieldMsg([192]), true, Failed())];
    Unchokes(Run(INITIAL_WORLD, r));
    RunMore(INITIAL_WORLD, r, EvRecv(0, 0, Unchoke, true, Failed()));
    r := r + [EvRecv(0, 0, Unchoke, true, Failed())];
    Asks(Run(INITIAL_WORLD, r));
    RunMore(INITIAL_WORLD, r, EvRequest(0, 0, Some([0]), true));
    r := r + [EvRequest(0, 0, Some([0]), true)];
    SeedStarts(Run(INITIAL_WORLD, r));
    RunMore(INITIAL_WORLD, r, EvScheduleWeb(0, true, [0]));
    r := r + [EvScheduleWeb(0, true, [0])];
    WriteFails(Run(INITIAL_WORLD, r));
    RunMore(INITIAL_WORLD, r, EvRecv(0, 0, Piece(0, 0, [7]), true, Failed()));
    r := r + [EvRecv(0, 0, Piece(0, 0, [7]), true, Failed())];
    SeedDelivers(Run(INITIAL_WORLD, r));
    RunMore(INITIAL_WORLD, r, EvWebWorker(0, true, [8]));
  }

  /** The run in which a peer's write fails while a web seed fetches the second piece:
      collecting the web seed's result, at the beginning of a tick, leaves that piece
      reserved for nobody. The list leaves out the steps of the ticks that change nothing. */
  lemma ReservationIsLost()
    ensures var w := Run(INITIAL_WORLD, Failing0());
            && |w.torrents| == 1 && w.torrents[0].state == ERROR
            && JobOwns(w.web, 0, w.torrents[0].generation, 1) && w.web[0].value.done
            && forall j: nat :: HasJob(w.disc, j) ==> w.disc[j].value.phase.Idle?
    ensures var w' := Run(INITIAL_WORLD, Failing0() + [EvCollectWeb(0, [])]);
            |w'.torrents| == 1 && Orphaned(w'.torrents[0], w'.web, 1)
  {
    hide Run, Apply, At, TwoPieces, Failing0, Asked, TableWith, Owned, Known;
    Broken0();
    var w := Run(INITIAL_WORLD, Failing0());
    AtFacts(w, Broken(), Job([8], true), None, Asked(), 0, {});
    AllIdle(w);
    ErrorLosesReservations(Failing0(), 0, 0, 1, []);
    RunMore(INITIAL_WORLD, Failing0(), EvCollectWeb(0, []));
    CollectKeepsOne(w);
  }

  lemma AllIdle(w: World)
    requires At(w, Broken(), Job([8], true), None, Asked(), 0, {})
    ensures forall j: nat :: HasJob(w.disc, j) ==> w.disc[j].value.phase.Idle?
  {
    hide Broken, Job;
  }

  lemma CollectKeepsOne(w: World)
    ensures |Apply(w, EvCollectWeb(0, [])).torrents| == |w.torrents|
  {
    hide CollectInto;
  }
}
